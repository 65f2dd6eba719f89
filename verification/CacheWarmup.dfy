/**
  The resumable cache warm-up: every run skips the tasks whose success the progress file
  records, fetches the others with retries, and appends one JSON line per task. The process
  may be killed in a fetch or while a line is being written; a torn line has no line end, so
  the next line is appended right behind it and neither can be read.
  */
module CacheWarmup {
  import opened Wrappers

  /** What one append left in the file: a whole line, a whole record without its line end, or a piece. */
  datatype Fragment = Line(key: string, ok: bool) | Bare(key: string, ok: bool) | Torn

  /** Where the process is killed while working on a task, if it is. */
  datatype Death = Survives | InFetch(tries: nat) | TearsLine | LeavesBare

  /** One run: options, and how the i-th pending task's attempts (from 1) and the process fare. */
  datatype Run = Run(
    resume: bool,
    retries: nat,
    maxFailures: int,
    fetch: (nat, nat) -> bool,
    death: nat -> Death)

  /** The progress file, and the key of every fetch ever tried. */
  datatype World = World(file: seq<Fragment>, tries: seq<string>)

  datatype Task = Task(symbol: string, timeframe: string, period: string)

  function TaskKey(t: Task): string {
    t.symbol + "|" + t.timeframe + "|" + t.period
  }

  /** Symbols and timeframes hold no bar, so a key names its task. */
  lemma KeyNamesTask(a: Task, b: Task)
    requires '|' !in a.symbol && '|' !in a.timeframe && '|' !in b.symbol && '|' !in b.timeframe
    ensures TaskKey(a) == TaskKey(b) ==> a == b
  {
    if TaskKey(a) == TaskKey(b) {
      assert TaskKey(a) == a.symbol + "|" + (a.timeframe + "|" + a.period);
      assert TaskKey(b) == b.symbol + "|" + (b.timeframe + "|" + b.period);
      SplitAtBar(a.symbol, a.timeframe + "|" + a.period, b.symbol, b.timeframe + "|" + b.period);
      SplitAtBar(a.timeframe, a.period, b.timeframe, b.period);
    }
  }

  lemma SplitAtBar(a: string, x: string, b: string, y: string)
    requires '|' !in a && '|' !in b && a + "|" + x == b + "|" + y
    ensures a == b && x == y
  {
    var s, t := a + "|" + x, b + "|" + y;
    assert s[|a|] == '|' && t[|b|] == '|';
    assert forall i :: 0 <= i < |a| ==> s[i] == a[i];
    assert forall i :: 0 <= i < |b| ==> t[i] == b[i];
    assert s[..|a|] == a && t[..|b|] == b && s[|a| + 1..] == x && t[|b| + 1..] == y;
  }

  function Keys(tasks: seq<Task>): (r: seq<string>)
    ensures |r| == |tasks|
  {
    seq(|tasks|, i requires 0 <= i < |tasks| => TaskKey(tasks[i]))
  }

  // ----- reading the file

  /** The i-th fragment starts a line of its own. */
  predicate StartsLine(file: seq<Fragment>, i: nat)
    requires i < |file|
  {
    i == 0 || file[i - 1].Line?
  }

  /** A success record that stays readable whatever is appended. */
  predicate DurableAt(file: seq<Fragment>, i: nat) {
    i < |file| && StartsLine(file, i) && file[i].Line? && file[i].ok
  }

  /** A success record the next run can read: a bare record only as long as nothing follows it. */
  predicate ReadableAt(file: seq<Fragment>, i: nat) {
    DurableAt(file, i) || (i < |file| && StartsLine(file, i) && i == |file| - 1 && file[i].Bare? && file[i].ok)
  }

  ghost predicate Done(file: seq<Fragment>, key: string) {
    exists i: nat :: ReadableAt(file, i) && file[i].key == key
  }

  ghost predicate DurablyDone(file: seq<Fragment>, key: string) {
    exists i: nat :: DurableAt(file, i) && file[i].key == key
  }

  predicate Terminated(file: seq<Fragment>) {
    file == [] || file[|file| - 1].Line?
  }

  function DoneKeys(file: seq<Fragment>): (done: set<string>)
    ensures forall key :: key in done <==> Done(file, key)
  {
    set i | 0 <= i < |file| && ReadableAt(file, i) :: file[i].key
  }

  /** The file is only appended to, so what is durable stays so. */
  lemma AppendKeepsDurable(file: seq<Fragment>, more: seq<Fragment>, key: string)
    ensures DurablyDone(file, key) ==> DurablyDone(file + more, key)
  {
    if i: nat :| DurableAt(file, i) && file[i].key == key {
      assert DurableAt(file + more, i) && (file + more)[i].key == key;
    }
  }

  lemma DurableIsDone(file: seq<Fragment>, key: string)
    ensures DurablyDone(file, key) ==> Done(file, key)
  {
    if i: nat :| DurableAt(file, i) && file[i].key == key {
      assert ReadableAt(file, i);
    }
  }

  // ----- one run on values

  function Pending(keys: seq<string>, done: set<string>): (r: seq<string>)
    ensures forall k :: k in r <==> k in keys && k !in done
  {
    if keys == [] then []
    else
      var n := |keys| - 1;
      assert keys == keys[..n] + [keys[n]];
      Pending(keys[..n], done) + if keys[n] in done then [] else [keys[n]]
  }

  predicate Distinct(keys: seq<string>) {
    forall i, j :: 0 <= i < j < |keys| ==> keys[i] != keys[j]
  }

  /** How many fetches the retry loop makes from this attempt on, and whether the last one succeeded. */
  function Attempts(r: Run, i: nat, attempt: nat): (out: (nat, bool))
    requires 1 <= attempt <= r.retries + 1
    ensures 1 <= out.0 <= r.retries + 2 - attempt
    ensures out.1 <==> exists k :: attempt <= k <= r.retries + 1 && r.fetch(i, k)
    ensures if out.1 then r.fetch(i, attempt + out.0 - 1) else out.0 == r.retries + 2 - attempt
    ensures forall k :: attempt <= k < attempt + out.0 - 1 ==> !r.fetch(i, k)
    decreases r.retries + 1 - attempt
  {
    if r.fetch(i, attempt) then (1, true)
    else if attempt == r.retries + 1 then (1, false)
    else
      var rest := Attempts(r, i, attempt + 1);
      (1 + rest.0, rest.1)
  }

  function Copies(key: string, n: nat): (s: seq<string>)
    ensures |s| == n && forall x :: x in s ==> x == key
  {
    seq(n, _ => key)
  }

  function Min(a: nat, b: nat): nat {
    if a < b then a else b
  }

  predicate CapReached(r: Run, failures: nat) {
    r.maxFailures > 0 && failures >= r.maxFailures
  }

  /** The loop from the i-th pending task on, with `failures` so far. */
  function Warm(w: World, pending: seq<string>, i: nat, failures: nat, r: Run): World
    requires i <= |pending|
    decreases |pending| - i
  {
    if i == |pending| then w
    else
      var key := pending[i];
      var (tries, ok) := Attempts(r, i, 1);
      var tried := w.(tries := w.tries + Copies(key, tries));
      match r.death(i)
      case InFetch(n) => w.(tries := w.tries + Copies(key, Min(n, tries)))
      case TearsLine => tried.(file := w.file + [Torn])
      case LeavesBare => tried.(file := w.file + [Bare(key, ok)])
      case Survives =>
        var logged := tried.(file := w.file + [Line(key, ok)]);
        var failures' := if ok then failures else failures + 1;
        if !ok && CapReached(r, failures') then logged
        else Warm(logged, pending, i + 1, failures', r)
  }

  function ToDo(w: World, tasks: seq<Task>, r: Run): seq<string> {
    Pending(Keys(tasks), if r.resume then DoneKeys(w.file) else {})
  }

  function RunOnce(w: World, tasks: seq<Task>, r: Run): World {
    Warm(w, ToDo(w, tasks, r), 0, 0, r)
  }

  // ----- what one run does

  lemma TailOf(a: seq<string>, b: seq<string>, whole: seq<string>)
    requires a + b <= whole
    ensures whole[|a|..] == b + whole[|a + b|..]
  {
    assert whole == (a + b) + whole[|a + b|..];
  }

  /** Everything a run appends to the two records. */
  lemma {:induction false} WarmAppends(w: World, pending: seq<string>, i: nat, failures: nat, r: Run)
    requires i <= |pending|
    ensures var w' := Warm(w, pending, i, failures, r);
            && w.file <= w'.file && w.tries <= w'.tries
            && (forall x :: x in w'.tries[|w.tries|..] ==> x in pending[i..])
            && |w'.file| - |w.file| <= |pending| - i
    decreases |pending| - i
  {
    if i < |pending| {
      var key := pending[i];
      var (tries, ok) := Attempts(r, i, 1);
      assert pending[i..] == [key] + pending[i + 1..];
      var logged := World(w.file + [Line(key, ok)], w.tries + Copies(key, tries));
      var failures' := if ok then failures else failures + 1;
      if r.death(i).Survives? && (ok || !CapReached(r, failures')) {
        WarmAppends(logged, pending, i + 1, failures', r);
        var w' := Warm(logged, pending, i + 1, failures', r);
        TailOf(w.tries, Copies(key, tries), w'.tries);
      }
    }
  }

  /** Tries of one key in a stretch of the record. */
  function Count(s: seq<string>, key: string): nat {
    if s == [] then 0 else Count(s[..|s| - 1], key) + if s[|s| - 1] == key then 1 else 0
  }

  function FailedLines(file: seq<Fragment>): nat {
    if file == [] then 0
    else FailedLines(file[..|file| - 1]) + if file[|file| - 1].Line? && !file[|file| - 1].ok then 1 else 0
  }

  lemma {:induction false} FailedLinesAppend(file: seq<Fragment>, f: Fragment)
    ensures FailedLines(file + [f]) == FailedLines(file) + if f.Line? && !f.ok then 1 else 0
  {
    assert (file + [f])[..|file|] == file;
  }

  /** With a positive cap a run never logs more failures than the cap. */
  lemma {:induction false} FailuresStayWithinCap(w: World, pending: seq<string>, i: nat, failures: nat, r: Run)
    requires i <= |pending| && r.maxFailures > 0 && failures < r.maxFailures
    ensures FailedLines(Warm(w, pending, i, failures, r).file) <= FailedLines(w.file) + r.maxFailures - failures
    decreases |pending| - i
  {
    if i < |pending| {
      var key := pending[i];
      var (tries, ok) := Attempts(r, i, 1);
      FailedLinesAppend(w.file, Line(key, ok));
      FailedLinesAppend(w.file, Torn);
      FailedLinesAppend(w.file, Bare(key, ok));
      var failures' := if ok then failures else failures + 1;
      if r.death(i).Survives? && (ok || !CapReached(r, failures')) {
        var logged := World(w.file + [Line(key, ok)], w.tries + Copies(key, tries));
        FailuresStayWithinCap(logged, pending, i + 1, failures', r);
      }
    }
  }

  lemma {:induction false} CountConcat(s: seq<string>, t: seq<string>, key: string)
    ensures Count(s + t, key) == Count(s, key) + Count(t, key)
    decreases t
  {
    if t == [] {
      assert s + t == s;
    } else {
      assert (s + t)[..|s + t| - 1] == s + t[..|t| - 1];
      CountConcat(s, t[..|t| - 1], key);
    }
  }

  lemma {:induction false} CountCopies(key: string, n: nat, x: string)
    ensures Count(Copies(key, n), x) == if x == key then n else 0
  {
    if n > 0 {
      assert Copies(key, n)[..n - 1] == Copies(key, n - 1);
      CountCopies(key, n - 1, x);
    }
  }

  /** In one run a task is tried at most retries + 1 times, and one not pending never. */
  lemma {:induction false} TriesPerTask(w: World, pending: seq<string>, i: nat, failures: nat, r: Run, x: string)
    requires i <= |pending| && Distinct(pending)
    ensures Count(Warm(w, pending, i, failures, r).tries, x)
         <= Count(w.tries, x) + if x in pending[i..] then r.retries + 1 else 0
    decreases |pending| - i
  {
    if i < |pending| {
      var key := pending[i];
      var (tries, ok) := Attempts(r, i, 1);
      assert pending[i..] == [key] + pending[i + 1..];
      var n := if r.death(i).InFetch? then Min(r.death(i).tries, tries) else tries;
      CountConcat(w.tries, Copies(key, n), x);
      CountCopies(key, n, x);
      var failures' := if ok then failures else failures + 1;
      if r.death(i).Survives? && (ok || !CapReached(r, failures')) {
        TriesPerTask(World(w.file + [Line(key, ok)], w.tries + Copies(key, tries)), pending, i + 1, failures', r, x);
      }
    }
  }

  // ----- over any number of runs

  /** Distinct task lists, resumed runs: the only ones about which resuming promises anything. */
  datatype Session = Session(tasks: seq<Task>, r: Run)

  ghost predicate Resumes(history: seq<Session>) {
    forall k :: 0 <= k < |history| ==> history[k].r.resume && Distinct(Keys(history[k].tasks))
  }

  function Execute(w: World, history: seq<Session>): World {
    if history == [] then w
    else
      var last := history[|history| - 1];
      RunOnce(Execute(w, history[..|history| - 1]), last.tasks, last.r)
  }

  lemma RunKeepsDurable(w: World, tasks: seq<Task>, r: Run, key: string)
    ensures var w' := RunOnce(w, tasks, r);
            && w.file <= w'.file && w.tries <= w'.tries
            && (DurablyDone(w.file, key) ==> DurablyDone(w'.file, key))
            && (DurablyDone(w.file, key) && r.resume ==> key !in w'.tries[|w.tries|..])
  {
    var pending := ToDo(w, tasks, r);
    var w' := RunOnce(w, tasks, r);
    WarmAppends(w, pending, 0, 0, r);
    assert w'.file == w.file + w'.file[|w.file|..];
    AppendKeepsDurable(w.file, w'.file[|w.file|..], key);
    DurableIsDone(w.file, key);
    assert pending[0..] == pending;
  }

  /** A task whose success is durably recorded is never fetched again, by any later run. */
  lemma {:induction false} RecordedTaskIsNeverFetchedAgain(w: World, history: seq<Session>, key: string)
    requires DurablyDone(w.file, key) && Resumes(history)
    ensures var w' := Execute(w, history);
            w.tries <= w'.tries && key !in w'.tries[|w.tries|..] && DurablyDone(w'.file, key)
  {
    if history != [] {
      var n := |history| - 1;
      var before := Execute(w, history[..n]);
      RecordedTaskIsNeverFetchedAgain(w, history[..n], key);
      RunKeepsDurable(before, history[n].tasks, history[n].r, key);
      var w' := Execute(w, history);
      assert w'.tries[|w.tries|..] == before.tries[|w.tries|..] + w'.tries[|before.tries|..] by {
        assert w'.tries[..|before.tries|] == before.tries;
      }
    }
  }

  /** No two records the next run can read are of the same task. */
  ghost predicate RecordedOnce(file: seq<Fragment>) {
    forall i: nat, j: nat :: i < j && ReadableAt(file, i) && ReadableAt(file, j) ==> file[i].key != file[j].key
  }

  lemma AppendKeepsRecordedOnce(file: seq<Fragment>, f: Fragment)
    requires RecordedOnce(file)
    requires !f.Torn? && f.ok ==> !DurablyDone(file, f.key)
    ensures RecordedOnce(file + [f])
    ensures forall key :: DurablyDone(file + [f], key) ==> DurablyDone(file, key) || (f.Line? && key == f.key)
  {
    var file' := file + [f];
    forall i: nat | i < |file| && ReadableAt(file', i)
      ensures DurableAt(file, i) && ReadableAt(file, i) && file'[i] == file[i]
    {
    }
    assert forall i: nat :: i < |file| ==> (DurableAt(file', i) <==> DurableAt(file, i)) && file'[i] == file[i];
  }

  lemma {:induction false} WarmRecordsOnce(w: World, pending: seq<string>, i: nat, failures: nat, r: Run)
    requires i <= |pending| && Distinct(pending) && RecordedOnce(w.file)
    requires forall k :: i <= k < |pending| ==> !DurablyDone(w.file, pending[k])
    ensures RecordedOnce(Warm(w, pending, i, failures, r).file)
    decreases |pending| - i
  {
    if i < |pending| {
      var key := pending[i];
      var (tries, ok) := Attempts(r, i, 1);
      AppendKeepsRecordedOnce(w.file, Line(key, ok));
      AppendKeepsRecordedOnce(w.file, Torn);
      AppendKeepsRecordedOnce(w.file, Bare(key, ok));
      var failures' := if ok then failures else failures + 1;
      if r.death(i).Survives? && (ok || !CapReached(r, failures')) {
        WarmRecordsOnce(World(w.file + [Line(key, ok)], w.tries + Copies(key, tries)), pending, i + 1, failures', r);
      }
    }
  }

  lemma {:induction false} PendingIsDistinct(keys: seq<string>, done: set<string>)
    requires Distinct(keys)
    ensures Distinct(Pending(keys, done))
  {
    if keys != [] {
      var n := |keys| - 1;
      PendingIsDistinct(keys[..n], done);
      var rest := Pending(keys[..n], done);
      forall i | 0 <= i < |rest|
        ensures rest[i] != keys[n]
      {
        assert rest[i] in rest;
      }
    }
  }

  lemma {:induction false} EverySuccessIsRecordedOnce(history: seq<Session>)
    requires Resumes(history)
    ensures RecordedOnce(Execute(World([], []), history).file)
  {
    if history != [] {
      var n := |history| - 1;
      EverySuccessIsRecordedOnce(history[..n]);
      var before := Execute(World([], []), history[..n]);
      var pending := ToDo(before, history[n].tasks, history[n].r);
      PendingIsDistinct(Keys(history[n].tasks), DoneKeys(before.file));
      forall k | 0 <= k < |pending|
        ensures !DurablyDone(before.file, pending[k])
      {
        assert pending[k] in pending;
        DurableIsDone(before.file, pending[k]);
      }
      WarmRecordsOnce(before, pending, 0, 0, history[n].r);
    }
  }

  // ----- the program

  /** The first `attempt` - 1 fetches of the task have failed. */
  ghost predicate FailedBefore(r: Run, i: nat, attempt: nat)
    requires 1 <= attempt <= r.retries + 2
  {
    Attempts(r, i, 1) ==
      if attempt == r.retries + 2 then (r.retries + 1, false)
      else (attempt - 1 + Attempts(r, i, attempt).0, Attempts(r, i, attempt).1)
  }

  lemma OneMoreFetch(r: Run, i: nat, attempt: nat)
    requires 1 <= attempt <= r.retries + 1 && FailedBefore(r, i, attempt)
    ensures Attempts(r, i, 1).0 >= attempt
    ensures r.fetch(i, attempt) ==> Attempts(r, i, 1) == (attempt, true)
    ensures !r.fetch(i, attempt) ==> FailedBefore(r, i, attempt + 1)
  {
  }

  // ----- how far a run gets

  /** The i-th pending task uses up all its attempts. */
  ghost predicate FailsAll(r: Run, i: nat) {
    forall attempt :: 1 <= attempt <= r.retries + 1 ==> !r.fetch(i, attempt)
  }

  /** How many of the first n pending tasks do. */
  ghost function FailedTasks(r: Run, n: nat): nat {
    if n == 0 then 0 else FailedTasks(r, n - 1) + if FailsAll(r, n - 1) then 1 else 0
  }

  /** No task comes behind this one: the process is killed in it, or its failure reaches the cap. */
  ghost predicate EndsRun(r: Run, i: nat) {
    !r.death(i).Survives? || (FailsAll(r, i) && 0 < r.maxFailures <= FailedTasks(r, i + 1))
  }

  ghost predicate Reaches(r: Run, i: nat) {
    forall k: nat :: k < i ==> !EndsRun(r, k)
  }

  /** Killed exactly with one of the tasks reached; else 0 exactly if none of the tasks fails. */
  ghost predicate IsExit(exit: Option<nat>, r: Run, count: nat) {
    && (exit == None <==> exists i: nat :: i < count && Reaches(r, i) && !r.death(i).Survives?)
    && (exit == Some(0) <==> forall i: nat :: i < count ==> r.death(i).Survives? && !FailsAll(r, i))
    && (exit.None? || exit == Some(0) || exit == Some(2))
  }

  /** What is in the two records when the run is done with a task, or killed in it. */
  ghost function AfterTask(w: World, key: string, i: nat, r: Run): World {
    var (n, ok) := Attempts(r, i, 1);
    var tried := w.(tries := w.tries + Copies(key, n));
    match r.death(i)
    case InFetch(k) => w.(tries := w.tries + Copies(key, Min(k, n)))
    case TearsLine => tried.(file := w.file + [Torn])
    case LeavesBare => tried.(file := w.file + [Bare(key, ok)])
    case Survives => tried.(file := w.file + [Line(key, ok)])
  }

  /** The loop is about to work on the i-th pending task. */
  ghost predicate SoFar(r: Run, i: nat, failures: nat) {
    && Reaches(r, i) && failures == FailedTasks(r, i)
    && (forall k: nat :: k < i ==> r.death(k).Survives?)
    && (failures == 0 <==> forall k: nat :: k < i ==> !FailsAll(r, k))
  }

  /** How the loop ends from the i-th of `count` pending tasks on. */
  ghost function ExitOf(r: Run, count: nat, i: nat, failures: nat): Option<nat>
    requires i <= count
    decreases count - i
  {
    var ok := Attempts(r, i, 1).1;
    var failures' := if ok then failures else failures + 1;
    if i == count then Some(if failures == 0 then 0 else 2)
    else if !r.death(i).Survives? then None
    else if !ok && CapReached(r, failures') then Some(2)
    else ExitOf(r, count, i + 1, failures')
  }

  lemma OneMoreTask(r: Run, i: nat, failures: nat)
    requires SoFar(r, i, failures) && !EndsRun(r, i)
    ensures SoFar(r, i + 1, failures + if FailsAll(r, i) then 1 else 0)
  {
  }

  lemma CapExit(r: Run, i: nat, failures: nat, count: nat)
    requires SoFar(r, i, failures) && i < count && r.death(i).Survives? && FailsAll(r, i) && EndsRun(r, i)
    ensures IsExit(Some(2), r, count)
  {
    assert forall k: nat :: k > i ==> !Reaches(r, k);
  }

  lemma KilledExit(r: Run, i: nat, failures: nat, count: nat)
    requires SoFar(r, i, failures) && i < count && !r.death(i).Survives?
    ensures IsExit(None, r, count)
  {
  }

  lemma LastExit(r: Run, failures: nat, count: nat)
    requires SoFar(r, count, failures)
    ensures IsExit(Some(if failures == 0 then 0 else 2), r, count)
  {
  }

  lemma ExitStep(r: Run, count: nat, i: nat, failures: nat)
    requires i < count && SoFar(r, i, failures)
    ensures ExitOf(r, count, i, failures) ==
              if !r.death(i).Survives? then None
              else if EndsRun(r, i) then Some(2)
              else ExitOf(r, count, i + 1, failures + if FailsAll(r, i) then 1 else 0)
    ensures r.death(i).Survives? && EndsRun(r, i) ==> FailsAll(r, i)
  {
    assert FailsAll(r, i) <==> !Attempts(r, i, 1).1;
  }

  lemma {:induction false} ExitIs(r: Run, count: nat, i: nat, failures: nat)
    requires i <= count && SoFar(r, i, failures)
    ensures IsExit(ExitOf(r, count, i, failures), r, count)
    decreases count - i
  {
    if i == count {
      LastExit(r, failures, count);
    } else {
      ExitStep(r, count, i, failures);
      if !r.death(i).Survives? {
        KilledExit(r, i, failures, count);
      } else if EndsRun(r, i) {
        CapExit(r, i, failures, count);
      } else {
        OneMoreTask(r, i, failures);
        ExitIs(r, count, i + 1, failures + if FailsAll(r, i) then 1 else 0);
      }
    }
  }

  class Warmer {
    var file: seq<Fragment>
    ghost var tries: seq<string>

    ghost function View(): World
      reads this
    {
      World(file, tries)
    }

    constructor ()
      ensures View() == World([], [])
    {
      file, tries := [], [];
    }

    method ReadDone() returns (done: set<string>)
      ensures done == DoneKeys(file)
    {
      done := {};
      for i := 0 to |file|
        invariant forall key :: key in done <==> exists k: nat :: k < i && ReadableAt(file, k) && file[k].key == key
      {
        if ReadableAt(file, i) {
          done := done + {file[i].key};
        }
      }
      assert forall key :: key in done <==> Done(file, key);
    }

    /** The retry loop; `tries` records each fetch of the key. The process is killed before fetch `limit` + 1. */
    method RunWithRetries(key: string, i: nat, r: Run, limit: nat) returns (alive: bool, ok: bool)
      modifies this`tries
      ensures tries == old(tries) + Copies(key, Min(limit, Attempts(r, i, 1).0))
      ensures alive <==> Attempts(r, i, 1).0 <= limit
      ensures alive ==> ok == Attempts(r, i, 1).1
    {
      var attempts := r.retries + 1;
      var attempt := 1;
      alive, ok := true, false;
      while attempt <= attempts
        invariant 1 <= attempt <= attempts + 1 && attempt <= limit + 1 && !ok && alive
        invariant FailedBefore(r, i, attempt)
        invariant tries == old(tries) + Copies(key, attempt - 1)
      {
        OneMoreFetch(r, i, attempt);
        if attempt > limit {
          alive := false;
          return;
        }
        tries := tries + [key];
        if r.fetch(i, attempt) {
          ok := true;
          return;
        }
        attempt := attempt + 1;
      }
    }

    /** Returns the exit code, or None when the process is killed. */
    method WarmCache(tasks: seq<Task>, r: Run) returns (exit: Option<nat>)
      modifies this
      ensures View() == RunOnce(old(View()), tasks, r)
      ensures IsExit(exit, r, |ToDo(old(View()), tasks, r)|)
      ensures exit == Some(0) ==> FailedLines(file) == FailedLines(old(file))
    {
      var done := {};
      if r.resume {
        done := ReadDone();
      }
      exit := WarmAll(Pending(Keys(tasks), done), r);
      ExitIs(r, |Pending(Keys(tasks), done)|, 0, 0);
    }

    /** One task's fetches and its line. */
    method WarmTask(key: string, i: nat, r: Run) returns (alive: bool, ok: bool)
      modifies this
      ensures alive <==> r.death(i).Survives?
      ensures alive ==> (ok <==> Attempts(r, i, 1).1) && (ok <==> !FailsAll(r, i))
      ensures View() == AfterTask(old(View()), key, i, r)
      ensures alive ==> FailedLines(file) == FailedLines(old(file)) + if ok then 0 else 1
    {
      FailedLinesAppend(file, Line(key, Attempts(r, i, 1).1));
      var death := r.death(i);
      alive, ok := RunWithRetries(key, i, r, if death.InFetch? then death.tries else r.retries + 1);
      if death.InFetch? {
        return false, ok;
      }
      assert alive;
      match death {
        case TearsLine => file := file + [Torn];
        case LeavesBare => file := file + [Bare(key, ok)];
        case Survives => file := file + [Line(key, ok)];
        case InFetch(_) =>
      }
      alive := death.Survives?;
    }

    method WarmAll(pending: seq<string>, r: Run) returns (exit: Option<nat>)
      modifies this
      ensures View() == Warm(old(View()), pending, 0, 0, r)
      ensures exit == ExitOf(r, |pending|, 0, 0)
      ensures exit == Some(0) ==> FailedLines(file) == FailedLines(old(file))
    {
      ghost var whole := Warm(View(), pending, 0, 0, r);
      var failures := 0;
      var i := 0;
      while i < |pending|
        invariant 0 <= i <= |pending|
        invariant Warm(View(), pending, i, failures, r) == whole
        invariant FailedLines(file) == FailedLines(old(file)) + failures
        invariant ExitOf(r, |pending|, i, failures) == ExitOf(r, |pending|, 0, 0)
      {
        var alive, ok := WarmTask(pending[i], i, r);
        if !alive {
          return None;
        }
        if !ok {
          failures := failures + 1;
          if CapReached(r, failures) {
            return Some(2);
          }
        }
        i := i + 1;
      }
      exit := Some(if failures == 0 then 0 else 2);
    }
  }
}
