/**
  Undisturbed runs of the cache warm-up: what they append to the log, and when they leave
  nothing to do.
  */
module CleanRuns {
  import opened CacheWarmup

  ghost predicate NobodyKills(r: Run) {
    forall i :: r.death(i).Survives?
  }

  function LinesFor(pending: seq<string>, i: nat, n: nat, r: Run): (lines: seq<Fragment>)
    requires i <= n <= |pending|
    ensures |lines| == n - i
  {
    seq(n - i, k requires 0 <= k < n - i => Line(pending[i + k], Attempts(r, i + k, 1).1))
  }

  lemma FirstLine(file: seq<Fragment>, pending: seq<string>, i: nat, n: nat, r: Run)
    requires i < n <= |pending|
    ensures var line := Line(pending[i], Attempts(r, i, 1).1);
            file + LinesFor(pending, i, n, r) == (file + [line]) + LinesFor(pending, i + 1, n, r)
  {
    assert LinesFor(pending, i, n, r) == [Line(pending[i], Attempts(r, i, 1).1)] + LinesFor(pending, i + 1, n, r);
  }

  /** How many of the pending tasks from i to n use up their attempts. */
  function FailuresIn(pending: seq<string>, i: nat, n: nat, r: Run): nat
    requires i <= n
    decreases n - i
  {
    if i == n then 0 else FailuresIn(pending, i + 1, n, r) + if Attempts(r, i, 1).1 then 0 else 1
  }

  /** n is where the loop ends: at the first task with which the failures reach the cap, or behind the last. */
  ghost predicate StopsAt(pending: seq<string>, i: nat, n: nat, failures: nat, r: Run)
    requires i <= n
  {
    && (forall k :: i <= k < n ==> !CapReached(r, failures + FailuresIn(pending, i, k, r)))
    && (n < |pending| ==> CapReached(r, failures + FailuresIn(pending, i, n, r)))
  }

  lemma StopsLater(pending: seq<string>, i: nat, n: nat, failures: nat, r: Run)
    requires i < n && !CapReached(r, failures)
    requires StopsAt(pending, i + 1, n, if Attempts(r, i, 1).1 then failures else failures + 1, r)
    ensures StopsAt(pending, i, n, failures, r)
  {
    var failures' := if Attempts(r, i, 1).1 then failures else failures + 1;
    forall k | i <= k < n
      ensures !CapReached(r, failures + FailuresIn(pending, i, k, r))
    {
      assert k > i ==> failures + FailuresIn(pending, i, k, r) == failures' + FailuresIn(pending, i + 1, k, r);
    }
  }

  /** It appends exactly one line per task, in order, for all tasks or up to the one that reaches the cap. */
  lemma {:induction false} OneLinePerTask(w: World, pending: seq<string>, i: nat, failures: nat, r: Run)
    returns (n: nat)
    requires i <= |pending| && NobodyKills(r)
    ensures i <= n <= |pending|
    ensures Warm(w, pending, i, failures, r).file == w.file + LinesFor(pending, i, n, r)
    ensures n < |pending| ==> i < n && !Attempts(r, n - 1, 1).1 && r.maxFailures > 0
    ensures !CapReached(r, failures) ==> StopsAt(pending, i, n, failures, r)
    decreases |pending| - i
  {
    if i == |pending| {
      n := i;
      assert w.file + LinesFor(pending, i, n, r) == w.file;
    } else {
      var key := pending[i];
      var (tries, ok) := Attempts(r, i, 1);
      var logged := World(w.file + [Line(key, ok)], w.tries + Copies(key, tries));
      var failures' := if ok then failures else failures + 1;
      if !ok && CapReached(r, failures') {
        n := i + 1;
        FirstLine(w.file, pending, i, n, r);
        assert LinesFor(pending, n, n, r) == [];
        assert FailuresIn(pending, i, n, r) == FailuresIn(pending, n, n, r) + 1;
      } else {
        n := OneLinePerTask(logged, pending, i + 1, failures', r);
        FirstLine(w.file, pending, i, n, r);
        if !CapReached(r, failures) {
          StopsLater(pending, i, n, failures, r);
        }
      }
    }
  }

  ghost predicate NothingFails(r: Run) {
    NobodyKills(r) && forall i :: Attempts(r, i, 1).1
  }

  function Successes(pending: seq<string>): seq<Fragment> {
    seq(|pending|, k requires 0 <= k < |pending| => Line(pending[k], true))
  }

  lemma AllRecorded(file: seq<Fragment>, pending: seq<string>, key: string)
    requires Terminated(file)
    ensures Done(file + Successes(pending), key) <==> Done(file, key) || key in pending
  {
    var file' := file + Successes(pending);
    if i: nat :| ReadableAt(file, i) && file[i].key == key {
      assert DurableAt(file', i) && ReadableAt(file', i);
    }
    if k :| 0 <= k < |pending| && pending[k] == key {
      assert StartsLine(file', |file| + k);
      assert ReadableAt(file', |file| + k);
    }
    if i: nat :| ReadableAt(file', i) && file'[i].key == key {
      assert i < |file| ==> ReadableAt(file, i);
    }
  }

  /**
    A run in which nothing fails leaves nothing pending for the same tasks exactly when the file
    it found ended with a line end, or there was nothing to do: behind a torn line the first
    success is appended to the torn piece and cannot be read back.
    */
  lemma CleanRunFinishesIff(w: World, tasks: seq<Task>, r: Run)
    requires r.resume && NothingFails(r) && Distinct(Keys(tasks))
    ensures var w' := RunOnce(w, tasks, r);
            ToDo(w', tasks, r) == [] <==> Terminated(w.file) || ToDo(w, tasks, r) == []
  {
    var pending := ToDo(w, tasks, r);
    var w' := RunOnce(w, tasks, r);
    var n := OneLinePerTask(w, pending, 0, 0, r);
    assert n == |pending|;
    assert LinesFor(pending, 0, n, r) == Successes(pending);
    if pending == [] {
      assert w'.file == w.file;
    } else if Terminated(w.file) {
      forall key | key in Keys(tasks)
        ensures Done(w'.file, key)
      {
        AllRecorded(w.file, pending, key);
      }
      EmptyOrMember(ToDo(w', tasks, r));
    } else {
      assert pending[0] in pending;
      PendingIsDistinct(Keys(tasks), DoneKeys(w.file));
      assert pending[0] in ToDo(w', tasks, r);
    }
  }

  lemma EmptyOrMember(keys: seq<string>)
    ensures keys == [] || exists k :: k in keys
  {
    if keys != [] {
      assert keys[0] in keys;
    }
  }
}
