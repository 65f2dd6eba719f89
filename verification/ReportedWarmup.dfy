/**
  One run of the cache warm-up read off its pending tasks: which of them it works on, how often it
  fetches each, and what it appends to the progress file.
  */
module ReportedWarmup {
  import opened Wrappers
  import opened CacheWarmup

  // ----- the pending tasks

  /** In order, the positions of the tasks to work on: all, or when resuming those without a readable ok line. */
  ghost predicate ArePending(pending: seq<string>, tasks: seq<Task>, at: seq<nat>, file: seq<Fragment>, resume: bool) {
    && |pending| == |at|
    && (forall i :: 0 <= i < |at| ==> at[i] < |tasks| && pending[i] == KeyOf(tasks[at[i]]))
    && (forall i, j :: 0 <= i < j < |at| ==> at[i] < at[j])
    && (forall k: nat :: k in at <==> k < |tasks| && !(resume && Done(file, KeyOf(tasks[k]))))
  }

  ghost function KeyOf(t: Task): string {
    t.symbol + "|" + t.timeframe + "|" + t.period
  }

  ghost predicate ListsOpen(rest: seq<string>, keys: seq<string>, at: seq<nat>, done: set<string>) {
    && |rest| == |at|
    && (forall i :: 0 <= i < |at| ==> at[i] < |keys| && rest[i] == keys[at[i]])
    && (forall i, j :: 0 <= i < j < |at| ==> at[i] < at[j])
    && (forall k: nat :: k in at <==> k < |keys| && keys[k] !in done)
  }

  lemma OneMoreOpen(rest: seq<string>, keys: seq<string>, at: seq<nat>, done: set<string>, key: string)
    requires ListsOpen(rest, keys, at, done)
    ensures ListsOpen(rest + (if key in done then [] else [key]), keys + [key],
                      at + (if key in done then [] else [|keys|]), done)
  {
  }

  lemma {:induction false} PendingAt(keys: seq<string>, done: set<string>) returns (at: seq<nat>)
    ensures ListsOpen(Pending(keys, done), keys, at, done)
  {
    if keys == [] {
      at := [];
    } else {
      var before, key := keys[..|keys| - 1], keys[|keys| - 1];
      at := PendingAt(before, done);
      OneMoreOpen(Pending(before, done), before, at, done, key);
      at := at + if key in done then [] else [|before|];
      assert keys == before + [key];
    }
  }

  lemma PendingReports(w: World, tasks: seq<Task>, r: Run) returns (at: seq<nat>)
    ensures ArePending(ToDo(w, tasks, r), tasks, at, w.file, r.resume)
  {
    at := PendingAt(Keys(tasks), if r.resume then DoneKeys(w.file) else {});
  }

  // ----- the tasks worked on

  /** The number of fetches the attempts allow: up to the first success, or all of them. */
  ghost predicate StopsWith(r: Run, i: nat, c: nat) {
    && 1 <= c <= r.retries + 1
    && (forall attempt :: 1 <= attempt < c ==> !r.fetch(i, attempt))
    && (r.fetch(i, c) || c == r.retries + 1)
  }

  /** The number of fetches made: fewer if the process is killed before. */
  ghost predicate IsFetchCount(r: Run, i: nat, c: nat) {
    exists d :: StopsWith(r, i, d) && c == if r.death(i).InFetch? then Min(r.death(i).tries, d) else d
  }

  /** What the task appends to the file. */
  ghost predicate IsTrace(more: seq<Fragment>, key: string, r: Run, i: nat) {
    match r.death(i)
    case InFetch(_) => more == []
    case TearsLine => more == [Torn]
    case LeavesBare => more == [Bare(key, !FailsAll(r, i))]
    case Survives => more == [Line(key, !FailsAll(r, i))]
  }

  /** From the i-th task on, the run works on those before the n-th and no other. */
  ghost predicate WorksOn(r: Run, count: nat, i: nat, n: nat) {
    && i <= n <= count
    && (forall k: nat :: i <= k < n - 1 ==> !EndsRun(r, k))
    && (n < count ==> i < n && EndsRun(r, n - 1))
  }

  /** `lines` and `fetches` hold, task by task, what the run has added to the two records. */
  ghost predicate IsWork(
      lines: seq<seq<Fragment>>, fetches: seq<seq<string>>, pending: seq<string>, i: nat, n: nat, r: Run)
  {
    && i <= n <= |pending| && |lines| == |fetches| == n - i
    && (forall k :: 0 <= k < n - i ==> IsTrace(lines[k], pending[i + k], r, i + k))
    && (forall k :: 0 <= k < n - i ==> IsFetchCount(r, i + k, |fetches[k]|))
    && (forall k, x :: 0 <= k < n - i && x in fetches[k] ==> x == pending[i + k])
  }

  ghost function Joined<T>(parts: seq<seq<T>>): seq<T> {
    if parts == [] then [] else parts[0] + Joined(parts[1..])
  }

  lemma FetchesOf(r: Run, i: nat)
    ensures var (c, ok) := Attempts(r, i, 1);
            && (ok <==> !FailsAll(r, i)) && StopsWith(r, i, c)
            && IsFetchCount(r, i, if r.death(i).InFetch? then Min(r.death(i).tries, c) else c)
  {
    assert StopsWith(r, i, Attempts(r, i, 1).0);
  }

  /** The first task's share. */
  lemma TaskReports(w: World, key: string, i: nat, r: Run) returns (line: seq<Fragment>, fetched: seq<string>)
    ensures AfterTask(w, key, i, r) == World(w.file + line, w.tries + fetched)
    ensures IsTrace(line, key, r, i) && IsFetchCount(r, i, |fetched|) && forall x :: x in fetched ==> x == key
  {
    var (c, ok) := Attempts(r, i, 1);
    FetchesOf(r, i);
    fetched := Copies(key, if r.death(i).InFetch? then Min(r.death(i).tries, c) else c);
    line := match r.death(i)
            case InFetch(_) => []
            case TearsLine => [Torn]
            case LeavesBare => [Bare(key, ok)]
            case Survives => [Line(key, ok)];
  }

  lemma WarmStep(w: World, pending: seq<string>, i: nat, failures: nat, r: Run)
    requires i < |pending| && failures == FailedTasks(r, i)
    ensures var w' := AfterTask(w, pending[i], i, r);
            Warm(w, pending, i, failures, r) ==
              if EndsRun(r, i) then w' else Warm(w', pending, i + 1, FailedTasks(r, i + 1), r)
  {
    FetchesOf(r, i);
  }

  lemma OneMoreInFront(
      lines: seq<seq<Fragment>>, fetches: seq<seq<string>>, pending: seq<string>, i: nat, n: nat, r: Run,
      line: seq<Fragment>, fetched: seq<string>)
    requires i < |pending| && IsWork(lines, fetches, pending, i + 1, n, r)
    requires IsTrace(line, pending[i], r, i) && IsFetchCount(r, i, |fetched|)
    requires forall x :: x in fetched ==> x == pending[i]
    ensures IsWork([line] + lines, [fetched] + fetches, pending, i, n, r)
    ensures Joined([line] + lines) == line + Joined(lines) && Joined([fetched] + fetches) == fetched + Joined(fetches)
  {
    assert ([line] + lines)[1..] == lines && ([fetched] + fetches)[1..] == fetches;
    forall k | 0 <= k < n - i
      ensures IsTrace(([line] + lines)[k], pending[i + k], r, i + k)
      ensures IsFetchCount(r, i + k, |([fetched] + fetches)[k]|)
      ensures forall x :: x in ([fetched] + fetches)[k] ==> x == pending[i + k]
    {
      if k > 0 {
        assert i + k == i + 1 + (k - 1);
      }
    }
  }

  lemma Grouped<T>(a: seq<T>, b: seq<T>, c: seq<T>)
    ensures (a + b) + c == a + (b + c)
  {
  }

  /** From `w` with the i-th pending task next to `end`, working on the tasks before the n-th. */
  ghost predicate IsRun(
      w: World, end: World, pending: seq<string>, i: nat, n: nat, lines: seq<seq<Fragment>>,
      fetches: seq<seq<string>>, r: Run)
  {
    && WorksOn(r, |pending|, i, n) && IsWork(lines, fetches, pending, i, n, r)
    && end == World(w.file + Joined(lines), w.tries + Joined(fetches))
  }

  lemma NoWork(w: World, pending: seq<string>, r: Run)
    ensures IsRun(w, w, pending, |pending|, |pending|, [], [], r)
  {
  }

  lemma NothingBehind(w: World, pending: seq<string>, i: nat, r: Run)
    requires i < |pending| && EndsRun(r, i)
    ensures IsWork([], [], pending, i + 1, i + 1, r) && WorksOn(r, |pending|, i, i + 1)
    ensures w == World(w.file + Joined<Fragment>([]), w.tries + Joined<string>([]))
  {
  }

  /** One more task in front of those worked on behind it, if any. */
  lemma MoreWork(
      w: World, w': World, line: seq<Fragment>, fetched: seq<string>, end: World, pending: seq<string>, i: nat, n: nat,
      lines: seq<seq<Fragment>>, fetches: seq<seq<string>>, r: Run)
    requires i < |pending| && w' == World(w.file + line, w.tries + fetched)
    requires IsTrace(line, pending[i], r, i) && IsFetchCount(r, i, |fetched|)
    requires forall x :: x in fetched ==> x == pending[i]
    requires IsWork(lines, fetches, pending, i + 1, n, r) && WorksOn(r, |pending|, i, n)
    requires end == World(w'.file + Joined(lines), w'.tries + Joined(fetches))
    ensures IsRun(w, end, pending, i, n, [line] + lines, [fetched] + fetches, r)
  {
    OneMoreInFront(lines, fetches, pending, i, n, r, line, fetched);
    Grouped(w.file, line, Joined(lines));
    Grouped(w.tries, fetched, Joined(fetches));
  }

  ghost predicate HasRun(w: World, end: World, pending: seq<string>, i: nat, r: Run) {
    exists n, lines, fetches :: IsRun(w, end, pending, i, n, lines, fetches, r)
  }

  lemma LastTask(w: World, pending: seq<string>, i: nat, r: Run)
    requires i < |pending| && EndsRun(r, i)
    ensures HasRun(w, AfterTask(w, pending[i], i, r), pending, i, r)
  {
    var line, fetched := TaskReports(w, pending[i], i, r);
    var w' := AfterTask(w, pending[i], i, r);
    NothingBehind(w', pending, i, r);
    MoreWork(w, w', line, fetched, w', pending, i, i + 1, [], [], r);
  }

  lemma NextTask(w: World, end: World, pending: seq<string>, i: nat, r: Run)
    requires i < |pending| && !EndsRun(r, i) && HasRun(AfterTask(w, pending[i], i, r), end, pending, i + 1, r)
    ensures HasRun(w, end, pending, i, r)
  {
    var line, fetched := TaskReports(w, pending[i], i, r);
    var w' := AfterTask(w, pending[i], i, r);
    var n, lines, fetches :| IsRun(w', end, pending, i + 1, n, lines, fetches, r);
    MoreWork(w, w', line, fetched, end, pending, i, n, lines, fetches, r);
  }

  /** The run from the i-th pending task on. */
  lemma {:induction false} WarmReports(w: World, pending: seq<string>, i: nat, r: Run)
    requires i <= |pending|
    ensures HasRun(w, Warm(w, pending, i, FailedTasks(r, i), r), pending, i, r)
    decreases |pending| - i
  {
    if i == |pending| {
      NoWork(w, pending, r);
    } else {
      WarmStep(w, pending, i, FailedTasks(r, i), r);
      if EndsRun(r, i) {
        LastTask(w, pending, i, r);
      } else {
        WarmReports(AfterTask(w, pending[i], i, r), pending, i + 1, r);
        NextTask(w, Warm(w, pending, i, FailedTasks(r, i), r), pending, i, r);
      }
    }
  }

  /** A whole run: the pending tasks, how many of them it works on, and what it adds for each. */
  lemma RunReports(w: World, tasks: seq<Task>, r: Run)
    returns (pending: seq<string>, at: seq<nat>, n: nat, lines: seq<seq<Fragment>>, fetches: seq<seq<string>>)
    ensures ArePending(pending, tasks, at, w.file, r.resume)
    ensures IsRun(w, RunOnce(w, tasks, r), pending, 0, n, lines, fetches, r)
  {
    pending := ToDo(w, tasks, r);
    at := PendingReports(w, tasks, r);
    WarmReports(w, pending, 0, r);
    n, lines, fetches :| IsRun(w, RunOnce(w, tasks, r), pending, 0, n, lines, fetches, r);
  }
}
