/**
  Which tasks the cache warm-up fetches again although its log records them as done: exactly
  those recorded only in a last line without a line end.
  */
module RepeatedFetches {
  import opened CacheWarmup

  /** A longest key of a finite set, plus a character. */
  lemma {:induction false} LongerThanAll(keys: set<string>) returns (n: nat)
    ensures forall k :: k in keys ==> |k| < n
    decreases keys
  {
    n := 0;
    if k :| k in keys {
      var rest := LongerThanAll(keys - {k});
      n := rest + |k| + 1;
    }
  }

  /** There is always a task nobody has recorded. */
  lemma FreshTask(done: set<string>) returns (t: Task)
    ensures TaskKey(t) !in done
  {
    var n := LongerThanAll(done);
    t := Task(seq(n, _ => 'A'), "", "");
    assert |TaskKey(t)| > n;
  }

  /** A run of one task that fetches at the first try and is not killed. */
  function Fetches(t: Task): Session {
    Session([t], Run(true, 0, 0, (i, k) => true, i => Survives))
  }

  lemma OnePending(t: Task, file: seq<Fragment>)
    requires !Done(file, TaskKey(t))
    ensures Pending(Keys([t]), DoneKeys(file)) == [TaskKey(t)]
  {
    var keys, done := Keys([t]), DoneKeys(file);
    assert keys == [TaskKey(t)] && TaskKey(t) !in done;
    assert keys[..0] == [] && Pending([], done) == [];
  }

  lemma FetchesOne(w: World, t: Task)
    requires !Done(w.file, TaskKey(t))
    ensures RunOnce(w, [t], Fetches(t).r) == World(w.file + [Line(TaskKey(t), true)], w.tries + [TaskKey(t)])
  {
    var r := Fetches(t).r;
    var key := TaskKey(t);
    OnePending(t, w.file);
    assert Attempts(r, 0, 1) == (1, true);
    assert Copies(key, 1) == [key];
    var logged := World(w.file + [Line(key, true)], w.tries + [key]);
    assert Warm(logged, [key], 1, 0, r) == logged;
  }

  /**
    A task whose success is only readable, in a bare record at the end of the file: a run of any
    other task makes it unreadable, and the next run fetches the task again.
    */
  lemma BareRecordIsForgotten(w: World, t: Task) returns (history: seq<Session>)
    requires Done(w.file, TaskKey(t)) && !DurablyDone(w.file, TaskKey(t))
    ensures |history| == 2 && Resumes(history)
    ensures var w' := Execute(w, history); w.tries <= w'.tries && TaskKey(t) in w'.tries[|w.tries|..]
  {
    var key := TaskKey(t);
    var other := FreshTask(DoneKeys(w.file));
    FetchesOne(w, other);
    var w1 := World(w.file + [Line(TaskKey(other), true)], w.tries + [TaskKey(other)]);
    var i: nat :| ReadableAt(w.file, i) && w.file[i].key == key;
    FetchesOne(w1, t);
    history := [Fetches(other), Fetches(t)];
    assert history[..1] == [Fetches(other)] && history[..1][..0] == [];
    assert Execute(w, history[..1]) == w1;
    var w' := Execute(w, history);
    assert w'.tries[|w.tries|..] == [TaskKey(other), key];
  }

  /** No resumed run, however many there are, fetches the key again. */
  ghost predicate NeverFetchedAgain(w: World, key: string) {
    forall history :: Resumes(history) ==>
      var w' := Execute(w, history);
      w.tries <= w'.tries && key !in w'.tries[|w.tries|..]
  }

  /** Of the tasks recorded as done, exactly those with a complete line are never fetched again. */
  lemma NeverFetchedAgainIff(w: World, t: Task)
    requires Done(w.file, TaskKey(t))
    ensures NeverFetchedAgain(w, TaskKey(t)) <==> DurablyDone(w.file, TaskKey(t))
  {
    var key := TaskKey(t);
    if DurablyDone(w.file, key) {
      forall history | Resumes(history)
        ensures var w' := Execute(w, history); w.tries <= w'.tries && key !in w'.tries[|w.tries|..]
      {
        RecordedTaskIsNeverFetchedAgain(w, history, key);
      }
    } else {
      var history := BareRecordIsForgotten(w, t);
    }
  }

  /** A file that ends with a line end holds complete lines only, so there every recorded task is safe. */
  lemma TerminatedMeansDurable(file: seq<Fragment>, key: string)
    requires Terminated(file)
    ensures Done(file, key) <==> DurablyDone(file, key)
  {
    DurableIsDone(file, key);
    if i: nat :| ReadableAt(file, i) && file[i].key == key {
      assert DurableAt(file, i);
    }
  }

  /** One run killed behind its record, in front of the line end, is enough to leave such a record. */
  lemma KilledRunLeavesBareRecord(w: World, t: Task) returns (session: Session)
    requires Terminated(w.file) && !Done(w.file, TaskKey(t))
    ensures Resumes([session])
    ensures var file := RunOnce(w, session.tasks, session.r).file;
            Done(file, TaskKey(t)) && !DurablyDone(file, TaskKey(t))
  {
    var r := Run(true, 0, 0, (i, k) => true, i => LeavesBare);
    session := Session([t], r);
    var key := TaskKey(t);
    OnePending(t, w.file);
    assert Attempts(r, 0, 1) == (1, true);
    var file := w.file + [Bare(key, true)];
    assert RunOnce(w, [t], r).file == file;
    assert ReadableAt(file, |w.file|);
    forall i: nat | DurableAt(file, i)
      ensures file[i].key != key
    {
      assert DurableAt(w.file, i) && ReadableAt(w.file, i);
    }
  }
}
