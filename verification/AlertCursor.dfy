/**
  The pattern-alert notifier: each run reads a cursor from its state file, fetches the
  audit events above it, and for each one sends a message and then saves the new cursor.
  The database, the messenger, the file system and the process itself may fail at any
  step. Runs are serial, and event ids become visible in increasing order.
  */
module AlertCursor {
  import opened Wrappers

  /** `last_seen_audit_id`: not there, not an integer, or an integer. */
  datatype Cursor = Absent | Malformed | At(id: int)

  datatype StateFile = Missing | Unreadable | Saved(cursor: Cursor)

  // ----- what the outside does to one run

  datatype QueryOutcome = Answered | QueryError | DiedQuerying
  datatype SendOutcome = Delivered | SendError | DiedUnsent | DiedSent

  /** A save makes the directory, writes a temporary file and renames it over the state file. */
  datatype SaveStep = MakeDirectory | WriteTemp | Replace
  datatype SaveOutcome = Written | SaveError(step: SaveStep) | DiedBefore(step: SaveStep) | DiedAfter

  /** The temporary file; a write cut short leaves it torn. */
  datatype TempFile = NoTemp | Torn | Whole(cursor: Cursor)

  /** `saves(i)` follows the i-th send of the run; `last` is the run's only other save. */
  datatype Outcomes = Outcomes(
    query: QueryOutcome,
    sends: nat -> SendOutcome,
    saves: nat -> SaveOutcome,
    last: SaveOutcome)

  /**
    `log` is the visible audit log. An epoch begins when a cursor is first put into the file
    (`start`); `sent` is every message sent since, `lost` every event whose send was not
    followed by a completed save.
    */
  datatype World = World(log: seq<int>, file: StateFile, start: Option<int>, sent: seq<int>, lost: seq<int>)

  datatype Action = Append(id: int) | Tamper(file: StateFile) | Run(o: Outcomes)

  predicate Increasing(ids: seq<int>) {
    forall i, j :: 0 <= i < j < |ids| ==> ids[i] < ids[j]
  }

  /** SELECT COALESCE(MAX(id), 0) */
  function MaxId(log: seq<int>): (r: int)
    ensures log == [] ==> r == 0
    ensures log != [] ==> r in log
    ensures forall e :: e in log ==> e <= r
  {
    if log == [] then 0
    else if |log| == 1 then log[0]
    else
      var n := |log| - 1;
      var rest := MaxId(log[..n]);
      assert log == log[..n] + [log[n]];
      if rest < log[n] then log[n] else rest
  }

  /** WHERE id > cursor ORDER BY id, on a log whose ids increase. */
  function Pending(log: seq<int>, cursor: int): (r: seq<int>)
    ensures forall e :: e in r <==> e in log && cursor < e
  {
    if log == [] then []
    else
      var n := |log| - 1;
      assert log == log[..n] + [log[n]];
      Pending(log[..n], cursor) + if cursor < log[n] then [log[n]] else []
  }

  lemma {:induction false} PendingIncreasing(log: seq<int>, cursor: int)
    requires Increasing(log)
    ensures Increasing(Pending(log, cursor))
  {
    if log != [] {
      var n := |log| - 1;
      var rest := Pending(log[..n], cursor);
      PendingIncreasing(log[..n], cursor);
      forall i | 0 <= i < |rest|
        ensures rest[i] < log[n]
      {
        assert rest[i] in rest;
      }
    }
  }

  function AfterSave(file: StateFile, cursor: Cursor, o: SaveOutcome): StateFile {
    if o.Written? || o.DiedAfter? then Saved(cursor) else file
  }

  predicate StopsAt(o: SaveOutcome, step: SaveStep) {
    (o.SaveError? || o.DiedBefore?) && o.step == step
  }

  // ----- one run on values

  function RunOnce(w: World, o: Outcomes): World {
    match w.file
    case Unreadable => w.(file := AfterSave(w.file, Absent, o.last))
    case Saved(Malformed) => w
    case Saved(At(c)) => if o.query.Answered? then Deliver(w, c, Pending(w.log, c), 0, o) else w
    case _ => Initialize(w, o)
  }

  function Initialize(w: World, o: Outcomes): World {
    match o.query
    case DiedQuerying => w
    case QueryError => w.(file := AfterSave(w.file, Absent, o.last))
    case Answered =>
      var m := MaxId(w.log);
      if o.last.Written? || o.last.DiedAfter?
      then World(w.log, Saved(At(m)), Some(m), [], [])
      else w
  }

  /** From the i-th fetched event on, with `cursor` held in memory. */
  function Deliver(w: World, cursor: int, events: seq<int>, i: nat, o: Outcomes): World
    requires i <= |events|
    decreases |events| - i
  {
    if i == |events| then w.(file := AfterSave(w.file, At(cursor), o.last))
    else
      var e := events[i];
      match o.sends(i)
      case SendError => w.(file := AfterSave(w.file, At(cursor), o.last))
      case DiedUnsent => w
      case DiedSent => w.(sent := w.sent + [e], lost := w.lost + [e])
      case Delivered =>
        var w' := w.(sent := w.sent + [e], file := AfterSave(w.file, At(e), o.saves(i)));
        match o.saves(i)
        case Written => Deliver(w', e, events, i + 1, o)
        case DiedAfter => w'
        case _ => w'.(lost := w.lost + [e])
  }

  // ----- any number of runs, with the log growing and the file being damaged in between

  /** Ids become visible in increasing order, and nobody plants a cursor beyond the newest id. */
  ghost predicate Visible(w: World, a: Action) {
    match a
    case Append(id) => MaxId(w.log) < id
    case Tamper(Saved(At(c))) => c <= MaxId(w.log)
    case _ => true
  }

  function Step(w: World, a: Action): World {
    match a
    case Append(id) => w.(log := w.log + [id])
    case Tamper(f) => World(w.log, f, if f.Saved? && f.cursor.At? then Some(f.cursor.id) else None, [], [])
    case Run(o) => RunOnce(w, o)
  }

  function Execute(w: World, actions: seq<Action>): World {
    if actions == [] then w else Step(Execute(w, actions[..|actions| - 1]), actions[|actions| - 1])
  }

  ghost predicate Admissible(w: World, actions: seq<Action>) {
    forall k :: 0 <= k < |actions| ==> Visible(Execute(w, actions[..k]), actions[k])
  }

  const FRESH: World := World([], Missing, None, [], [])

  // ----- the invariant

  ghost predicate Passed(w: World, e: int)
    requires w.start.Some? && w.file.Saved? && w.file.cursor.At?
  {
    e in w.log && w.start.value < e <= w.file.cursor.id
  }

  ghost predicate NextUp(w: World, e: int)
    requires w.start.Some? && w.file.Saved? && w.file.cursor.At?
  {
    && e in w.log
    && w.start.value < e
    && forall x :: x in w.log && x < e ==> x <= w.file.cursor.id
  }

  /** Every message of the epoch is accounted for. */
  ghost predicate Accounted(w: World)
    requires w.start.Some? && w.file.Saved? && w.file.cursor.At?
  {
    && w.start.value <= w.file.cursor.id <= MaxId(w.log)
    && (forall i, j :: 0 <= i < j < |w.sent| ==> w.sent[i] <= w.sent[j])
    && (forall e :: multiset(w.sent)[e] == (if Passed(w, e) then 1 else 0) + multiset(w.lost)[e])
    && (forall e :: e in w.lost ==> NextUp(w, e))
  }

  ghost predicate Inv(w: World) {
    && Increasing(w.log)
    && (w.start.Some? <==> w.file.Saved? && w.file.cursor.At?)
    && (w.start.Some? ==> Accounted(w))
    && (w.start.None? ==> w.sent == [] && w.lost == [])
  }

  /** The three worlds a run can leave when it ends at event e. */
  function Lost(w: World, e: int): World {
    w.(sent := w.sent + [e], lost := w.lost + [e])
  }

  function Moved(w: World, e: int): World {
    w.(sent := w.sent + [e], file := Saved(At(e)))
  }

  /** w' is w some way further on in the same epoch: nothing unsent, nothing forgotten, cursor not back. */
  ghost predicate Advances(w: World, w': World)
    requires w.start.Some? && w.file.Saved? && w.file.cursor.At?
  {
    && w.log <= w'.log && w'.start == w.start
    && w'.file.Saved? && w'.file.cursor.At? && w.file.cursor.id <= w'.file.cursor.id
    && w.sent <= w'.sent && w.lost <= w'.lost
  }

  lemma AppendKeepsInv(w: World, id: int)
    requires Inv(w) && Visible(w, Append(id))
    ensures Inv(Step(w, Append(id)))
  {
    var w' := Step(w, Append(id));
    assert forall e :: e in w'.log <==> e in w.log || e == id;
    forall i | 0 <= i < |w.log|
      ensures w.log[i] < id
    {
      assert w.log[i] in w.log;
    }
    if w.start.Some? {
      assert MaxId(w.log) <= MaxId(w'.log) by { NewestGrows(w.log, id); }
      assert forall e :: Passed(w', e) <==> Passed(w, e);
      assert forall e :: NextUp(w, e) ==> NextUp(w', e);
    }
  }

  lemma NewestGrows(log: seq<int>, id: int)
    requires MaxId(log) < id
    ensures MaxId(log + [id]) == id
  {
    assert id in log + [id];
    assert MaxId(log + [id]) in log + [id];
  }

  lemma CountOneMore(events: seq<int>, e: int, x: int)
    ensures multiset(events + [e])[x] == multiset(events)[x] + if x == e then 1 else 0
  {
  }

  /** Where an event stands depends on the log, the cursor and the start of the epoch only. */
  lemma LostStandsAlike(w: World, e: int, x: int)
    requires w.start.Some? && w.file.Saved? && w.file.cursor.At?
    ensures (Passed(Lost(w, e), x) <==> Passed(w, x)) && (NextUp(Lost(w, e), x) <==> NextUp(w, x))
  {
  }

  lemma LostCounts(w: World, e: int, x: int)
    requires w.start.Some? && w.file.Saved? && w.file.cursor.At? && Accounted(w)
    ensures var w' := Lost(w, e);
            multiset(w'.sent)[x] == (if Passed(w', x) then 1 else 0) + multiset(w'.lost)[x]
  {
    CountOneMore(w.sent, e, x);
    CountOneMore(w.lost, e, x);
    LostStandsAlike(w, e, x);
  }

  lemma LostAreNext(w: World, e: int, x: int)
    requires w.start.Some? && w.file.Saved? && w.file.cursor.At? && Accounted(w) && NextUp(w, e)
    ensures x in Lost(w, e).lost ==> NextUp(Lost(w, e), x)
  {
    LostStandsAlike(w, e, x);
  }

  /** A message for the next event goes out, but the save after it is lost. */
  lemma LoseSave(w: World, e: int)
    requires Inv(w) && w.start.Some? && NextUp(w, e) && w.file.cursor.id < e
    ensures Inv(Lost(w, e)) && Advances(w, Lost(w, e))
  {
    SentUpTo(w, e);
    forall x
      ensures var w' := Lost(w, e); multiset(w'.sent)[x] == (if Passed(w', x) then 1 else 0) + multiset(w'.lost)[x]
    {
      LostCounts(w, e, x);
    }
    forall x | x in Lost(w, e).lost
      ensures NextUp(Lost(w, e), x)
    {
      LostAreNext(w, e, x);
    }
  }

  /** A message for the next event goes out and the cursor moves onto it. */
  lemma MoveCursor(w: World, e: int)
    requires Inv(w) && w.start.Some? && NextUp(w, e) && w.file.cursor.id < e
    ensures Inv(Moved(w, e))
    ensures Advances(w, Moved(w, e))
  {
    var w' := Moved(w, e);
    SentUpTo(w, e);
    forall x
      ensures Passed(w', x) <==> Passed(w, x) || x == e
    {
    }
    assert forall x :: NextUp(w, x) ==> NextUp(w', x);
  }

  /** Nothing beyond the next event has ever been sent. */
  lemma SentUpTo(w: World, e: int)
    requires Inv(w) && w.start.Some? && NextUp(w, e) && w.file.cursor.id < e
    ensures forall k :: 0 <= k < |w.sent| ==> w.sent[k] <= e
  {
    forall k | 0 <= k < |w.sent|
      ensures w.sent[k] <= e
    {
      var x := w.sent[k];
      assert x in multiset(w.sent);
      if !Passed(w, x) {
        assert x in multiset(w.lost);
        assert NextUp(w, x);
      }
    }
  }

  /** The fetched events still to go are exactly the visible ones above the cursor. */
  ghost predicate Fetched(w: World, cursor: int, events: seq<int>, i: nat)
    requires i <= |events|
  {
    && w.start.Some? && w.file == Saved(At(cursor))
    && Increasing(events)
    && (forall e :: e in events[i..] <==> e in w.log && cursor < e)
  }

  lemma FirstFetchedIsNext(w: World, cursor: int, events: seq<int>, i: nat)
    requires i < |events| && Inv(w) && Fetched(w, cursor, events, i)
    ensures NextUp(w, events[i]) && cursor < events[i]
    ensures var w' := Moved(w, events[i]);
            Fetched(w', events[i], events, i + 1)
  {
    var e := events[i];
    assert events[i..] == [e] + events[i + 1..];
    assert e in events[i..];
    forall x | x in w.log && cursor < x
      ensures e <= x
    {
      assert x in events[i..];
    }
    forall x
      ensures x in events[i + 1..] <==> x in w.log && e < x
    {
      if x in events[i + 1..] {
        assert x in events[i..];
      }
      if x in w.log && e < x {
        assert x in events[i..];
      }
    }
  }

  lemma {:induction false} DeliverKeepsInv(w: World, cursor: int, events: seq<int>, i: nat, o: Outcomes)
    requires i <= |events| && Inv(w) && Fetched(w, cursor, events, i)
    ensures Inv(Deliver(w, cursor, events, i, o)) && Advances(w, Deliver(w, cursor, events, i, o))
    decreases |events| - i
  {
    if i < |events| {
      var e := events[i];
      FirstFetchedIsNext(w, cursor, events, i);
      if o.sends(i).Delivered? && o.saves(i).Written? {
        var w1 := Moved(w, e);
        MoveCursor(w, e);
        DeliverKeepsInv(w1, e, events, i + 1, o);
      } else {
        DeliverStops(w, cursor, events, i, o);
      }
    }
  }

  lemma DeliverEndsHere(w: World, cursor: int, events: seq<int>, i: nat, o: Outcomes)
    requires i < |events| && w.file == Saved(At(cursor))
    requires !(o.sends(i).Delivered? && o.saves(i).Written?)
    ensures Deliver(w, cursor, events, i, o) in [w, Lost(w, events[i]), Moved(w, events[i])]
  {
  }

  /** The run ends at the i-th event: before, after or instead of its send and save. */
  lemma DeliverStops(w: World, cursor: int, events: seq<int>, i: nat, o: Outcomes)
    requires i < |events| && Inv(w) && w.start.Some? && w.file == Saved(At(cursor))
    requires NextUp(w, events[i]) && cursor < events[i]
    requires !(o.sends(i).Delivered? && o.saves(i).Written?)
    ensures Inv(Deliver(w, cursor, events, i, o)) && Advances(w, Deliver(w, cursor, events, i, o))
  {
    DeliverEndsHere(w, cursor, events, i, o);
    MoveCursor(w, events[i]);
    LoseSave(w, events[i]);
  }

  /** One run never breaks the accounting. */
  lemma RunKeepsInv(w: World, o: Outcomes)
    requires Inv(w)
    ensures Inv(RunOnce(w, o))
  {
    if w.start.Some? {
      RunAdvances(w, o);
    }
  }

  /** A run never ends an epoch and never moves the cursor back. */
  lemma RunAdvances(w: World, o: Outcomes)
    requires Inv(w) && w.start.Some?
    ensures Inv(RunOnce(w, o)) && Advances(w, RunOnce(w, o))
  {
    var c := w.file.cursor.id;
    var events := Pending(w.log, c);
    PendingIncreasing(w.log, c);
    assert events[0..] == events;
    if o.query.Answered? {
      DeliverKeepsInv(w, c, events, 0, o);
    }
  }

  lemma StepKeepsInv(w: World, a: Action)
    requires Inv(w) && Visible(w, a)
    ensures Inv(Step(w, a))
  {
    match a
    case Append(id) => AppendKeepsInv(w, id);
    case Tamper(f) =>
    case Run(o) => RunKeepsInv(w, o);
  }

  /** The accounting holds after every history of runs, failures, deaths, new events and file damage. */
  lemma {:induction false} EveryHistoryIsAccounted(actions: seq<Action>)
    requires Admissible(FRESH, actions)
    ensures Inv(Execute(FRESH, actions))
  {
    if actions != [] {
      var n := |actions| - 1;
      forall k | 0 <= k < n
        ensures Visible(Execute(FRESH, actions[..n][..k]), actions[..n][k])
      {
        assert actions[..n][..k] == actions[..k];
      }
      EveryHistoryIsAccounted(actions[..n]);
      StepKeepsInv(Execute(FRESH, actions[..n]), actions[n]);
    }
  }

  // ----- what the accounting means

  /**
    Inside an epoch, after every history: messages went out in id order; an event the cursor has
    passed was sent once plus once per lost save; any other event was sent once per lost save;
    and no event is sent before all earlier ones of the epoch.
    */
  lemma DeliveryGuarantee(actions: seq<Action>, e: int)
    requires Admissible(FRESH, actions) && Execute(FRESH, actions).start.Some?
    ensures var w := Execute(FRESH, actions);
            && w.file.Saved? && w.file.cursor.At?
            && (forall i, j :: 0 <= i < j < |w.sent| ==> w.sent[i] <= w.sent[j])
            && (Passed(w, e) ==> multiset(w.sent)[e] == 1 + multiset(w.lost)[e])
            && (!Passed(w, e) ==> multiset(w.sent)[e] == multiset(w.lost)[e])
            && (e in w.sent ==> NextUp(w, e) && forall x :: x in w.log && w.start.value < x < e ==> x in w.sent)
  {
    EveryHistoryIsAccounted(actions);
    var w := Execute(FRESH, actions);
    if e in w.sent {
      assert e in multiset(w.sent);
      assert e !in w.lost ==> Passed(w, e);
      forall x | x in w.log && w.start.value < x < e
        ensures x in w.sent
      {
        assert Passed(w, x);
        assert x in multiset(w.sent);
      }
    }
  }

  /** With no lost save, the messages are exactly the passed events, each once, in id order. */
  lemma NothingLostMeansExactlyOnce(w: World)
    requires Inv(w) && w.start.Some? && w.lost == []
    ensures Increasing(w.sent)
    ensures forall e :: e in w.sent <==> Passed(w, e)
  {
    forall e
      ensures e in w.sent <==> Passed(w, e)
    {
      assert e in w.sent <==> e in multiset(w.sent);
    }
    forall i, j | 0 <= i < j < |w.sent|
      ensures w.sent[i] < w.sent[j]
    {
      if w.sent[i] == w.sent[j] {
        TwiceInSeq(w.sent, i, j);
      }
    }
  }

  lemma TwiceInSeq(s: seq<int>, i: nat, j: nat)
    requires i < j < |s| && s[i] == s[j]
    ensures multiset(s)[s[i]] >= 2
  {
    assert s == s[..j] + [s[j]] + s[j + 1..];
    assert s[i] in s[..j];
  }

  ghost predicate NoDamage(actions: seq<Action>) {
    forall k :: 0 <= k < |actions| ==> !actions[k].Tamper?
  }

  lemma AdmissiblePrefix(w: World, actions: seq<Action>)
    requires Admissible(w, actions) && actions != []
    ensures Admissible(w, actions[..|actions| - 1])
    ensures Visible(Execute(w, actions[..|actions| - 1]), actions[|actions| - 1])
  {
    var n := |actions| - 1;
    forall k | 0 <= k < n
      ensures Visible(Execute(w, actions[..n][..k]), actions[..n][k])
    {
      assert actions[..n][..k] == actions[..k];
    }
  }

  /** As long as nobody touches the file, an epoch lasts and its cursor never goes back. */
  lemma {:induction false} CursorNeverGoesBack(w: World, actions: seq<Action>)
    requires Inv(w) && w.start.Some? && Admissible(w, actions) && NoDamage(actions)
    ensures Inv(Execute(w, actions)) && Advances(w, Execute(w, actions))
  {
    if actions != [] {
      var n := |actions| - 1;
      AdmissiblePrefix(w, actions);
      CursorNeverGoesBack(w, actions[..n]);
      var before := Execute(w, actions[..n]);
      StepKeepsInv(before, actions[n]);
      if actions[n].Run? {
        RunAdvances(before, actions[n].o);
      }
    }
  }

  // ----- a run in which nothing fails

  ghost predicate AllGood(o: Outcomes) {
    && o.query.Answered? && o.last.Written?
    && (forall i :: o.sends(i).Delivered?)
    && (forall i :: o.saves(i).Written?)
  }

  lemma {:induction false} DeliverAll(w: World, cursor: int, events: seq<int>, i: nat, o: Outcomes)
    requires i <= |events| && AllGood(o) && w.file == Saved(At(cursor))
    ensures Deliver(w, cursor, events, i, o)
         == w.(sent := w.sent + events[i..], file := Saved(At(if i == |events| then cursor else events[|events| - 1])))
    decreases |events| - i
  {
    if i < |events| {
      var e := events[i];
      DeliverAll(w.(sent := w.sent + [e], file := Saved(At(e))), e, events, i + 1, o);
      assert w.sent + [e] + events[i + 1..] == w.sent + events[i..];
    } else {
      assert w.sent + events[i..] == w.sent;
    }
  }

  ghost predicate NothingAbove(log: seq<int>, cursor: int) {
    forall e :: e in log ==> e <= cursor
  }

  function LastOr(events: seq<int>, default: int): int {
    if events == [] then default else events[|events| - 1]
  }

  lemma LastPendingIsNewest(log: seq<int>, cursor: int)
    requires Increasing(log)
    ensures NothingAbove(log, LastOr(Pending(log, cursor), cursor))
  {
    var events := Pending(log, cursor);
    PendingIncreasing(log, cursor);
    forall e | e in log
      ensures e <= LastOr(events, cursor)
    {
      if cursor < e {
        assert e in events;
      } else if events != [] {
        assert events[|events| - 1] in events;
      }
    }
  }

  /** It sends every pending event once, in order, and leaves nothing visible above the cursor. */
  lemma GoodRunCatchesUp(w: World, o: Outcomes)
    requires Inv(w) && w.start.Some? && AllGood(o)
    ensures var w' := RunOnce(w, o);
            && w'.sent == w.sent + Pending(w.log, w.file.cursor.id) && w'.lost == w.lost
            && w'.file.Saved? && w'.file.cursor.At? && NothingAbove(w.log, w'.file.cursor.id)
  {
    var c := w.file.cursor.id;
    var events := Pending(w.log, c);
    DeliverAll(w, c, events, 0, o);
    assert events[0..] == events;
    LastPendingIsNewest(w.log, c);
  }

  // ----- which events are announced at all

  /** In an epoch, a run without failures leaves exactly the events after the epoch's start announced. */
  lemma AnnouncedIff(w: World, o: Outcomes, e: int)
    requires Inv(w) && w.start.Some? && AllGood(o) && e in w.log
    ensures e in RunOnce(w, o).sent <==> w.start.value < e
  {
    GoodRunCatchesUp(w, o);
    RunAdvances(w, o);
    SentIffCounted(RunOnce(w, o), e);
  }

  /** A message of the epoch: the event is passed or a save behind it was lost, so it lies after the start. */
  lemma SentIffCounted(w: World, e: int)
    requires Inv(w) && w.start.Some?
    ensures e in w.sent <==> Passed(w, e) || e in w.lost
    ensures e in w.sent ==> w.start.value < e
  {
    assert e in w.sent <==> e in multiset(w.sent);
    assert e in w.lost <==> e in multiset(w.lost);
  }

  lemma FirstIsMember(events: seq<int>)
    ensures events == [] || events[0] in events
  {
  }

  /** A run without failures on a file without a cursor begins an epoch at the newest id. */
  lemma Begins(w: World, o: Outcomes)
    requires AllGood(o) && (w.file == Missing || w.file == Saved(Absent))
    ensures RunOnce(w, o) == World(w.log, Saved(At(MaxId(w.log))), Some(MaxId(w.log)), [], [])
  {
  }

  /** The next such run finds nothing to do. */
  lemma RestsAtNewest(w: World, o: Outcomes)
    requires AllGood(o) && w.file == Saved(At(MaxId(w.log)))
    ensures RunOnce(w, o) == w
  {
    FirstIsMember(Pending(w.log, MaxId(w.log)));
  }

  /** Two runs without failures bring every state file but one back into an epoch. */
  lemma RecoversIff(w: World, o1: Outcomes, o2: Outcomes)
    requires Inv(w) && AllGood(o1) && AllGood(o2)
    ensures RunOnce(RunOnce(w, o1), o2).start.Some? <==> w.file != Saved(Malformed)
    ensures w.start.None? && w.file != Saved(Malformed) ==>
              RunOnce(RunOnce(w, o1), o2) == World(w.log, Saved(At(MaxId(w.log))), Some(MaxId(w.log)), [], [])
  {
    match w.file {
      case Unreadable =>
        Begins(w.(file := Saved(Absent)), o2);
      case Saved(At(_)) =>
        RunAdvances(w, o1);
        RunAdvances(RunOnce(w, o1), o2);
      case Saved(Malformed) =>
      case _ =>
        Begins(w, o1);
        RestsAtNewest(RunOnce(w, o1), o2);
    }
  }

  /** A cursor that is not an integer is kept by the error note: no run ever sends again. */
  lemma {:induction false} MalformedStays(w: World, actions: seq<Action>)
    requires w.file == Saved(Malformed) && NoDamage(actions)
    ensures Execute(w, actions).file == Saved(Malformed)
    ensures Execute(w, actions).sent == w.sent && Execute(w, actions).start == w.start
  {
    if actions != [] {
      MalformedStays(w, actions[..|actions| - 1]);
    }
  }

  function GoodRun(): Action {
    Run(Outcomes(Answered, _ => Delivered, _ => Written, Written))
  }

  /** Two more runs of the kind in which nothing fails. */
  lemma TwoGoodRuns(w: World) returns (actions: seq<Action>)
    ensures Admissible(w, actions) && NoDamage(actions)
    ensures Execute(w, actions) == RunOnce(RunOnce(w, GoodRun().o), GoodRun().o)
  {
    actions := [GoodRun(), GoodRun()];
    assert actions[..1] == [GoodRun()] && actions[..1][..0] == [];
    assert Execute(w, actions[..1]) == RunOnce(w, GoodRun().o);
  }

  /** No damage-free history starts an epoch again if and only if the cursor in the file is not an integer. */
  lemma NeverRecoversIff(w: World)
    requires Inv(w)
    ensures (forall actions :: Admissible(w, actions) && NoDamage(actions) ==> Execute(w, actions).start.None?)
       <==> w.file == Saved(Malformed)
  {
    if w.file == Saved(Malformed) {
      forall actions | Admissible(w, actions) && NoDamage(actions)
        ensures Execute(w, actions).start.None?
      {
        MalformedStays(w, actions);
      }
    } else {
      var actions := TwoGoodRuns(w);
      RecoversIff(w, GoodRun().o, GoodRun().o);
    }
  }

  /** Some history without damage to the file announces the event. */
  ghost predicate CanBeAnnounced(w: World, e: int) {
    exists actions :: Admissible(w, actions) && NoDamage(actions) && e in Execute(w, actions).sent
  }

  /** A visible event that no message can go out for any more. */
  ghost predicate Skipped(w: World, e: int) {
    Inv(w) && e in w.log && (w.start.Some? ==> e <= w.start.value)
  }

  /** A step without damage keeps the log, and an epoch it begins starts at the newest id. */
  lemma StartStays(w: World, a: Action)
    requires Inv(w) && !a.Tamper?
    ensures w.log <= Step(w, a).log
    ensures w.start.Some? ==> Step(w, a).start == w.start
    ensures w.start.None? && Step(w, a).start.Some? ==> Step(w, a).start.value == MaxId(w.log)
  {
    if a.Run? && w.start.Some? {
      RunAdvances(w, a.o);
    }
  }

  lemma StaysSkipped(w: World, a: Action, e: int)
    requires Skipped(w, e) && Visible(w, a) && !a.Tamper?
    ensures Skipped(Step(w, a), e)
  {
    StepKeepsInv(w, a);
    StartStays(w, a);
    assert e in w.log && e <= MaxId(w.log);
    assert Step(w, a).log[..|w.log|] == w.log;
  }

  lemma {:induction false} SkippedForGood(w: World, actions: seq<Action>, e: int)
    requires Skipped(w, e) && Admissible(w, actions) && NoDamage(actions)
    ensures Skipped(Execute(w, actions), e) && e !in Execute(w, actions).sent
  {
    if actions != [] {
      var n := |actions| - 1;
      AdmissiblePrefix(w, actions);
      SkippedForGood(w, actions[..n], e);
      StaysSkipped(Execute(w, actions[..n]), actions[n], e);
    }
    var w' := Execute(w, actions);
    if w'.start.Some? {
      SentIffCounted(w', e);
    }
  }

  /** A visible event can still be announced if and only if an epoch is under way that began before it. */
  lemma CanBeAnnouncedIff(w: World, e: int)
    requires Inv(w) && e in w.log
    ensures CanBeAnnounced(w, e) <==> w.start.Some? && w.start.value < e
  {
    if w.start.Some? && w.start.value < e {
      var o := GoodRun().o;
      var actions := TwoGoodRuns(w);
      RunAdvances(w, o);
      AnnouncedIff(RunOnce(w, o), o, e);
    } else {
      forall actions | Admissible(w, actions) && NoDamage(actions)
        ensures e !in Execute(w, actions).sent
      {
        SkippedForGood(w, actions, e);
      }
    }
  }

  /** What the state file says about an event not announced yet: there is hope only below a readable cursor. */
  lemma UnsentCanBeAnnouncedIff(w: World, e: int)
    requires Inv(w) && e in w.log && e !in w.sent
    ensures CanBeAnnounced(w, e) <==> w.file.Saved? && w.file.cursor.At? && w.file.cursor.id < e
  {
    CanBeAnnouncedIff(w, e);
    if w.start.Some? {
      SentIffCounted(w, e);
    }
  }

  /** One more action behind a history. */
  lemma OneMoreAction(w: World, actions: seq<Action>, a: Action)
    requires Admissible(w, actions) && Visible(Execute(w, actions), a)
    ensures Admissible(w, actions + [a]) && Execute(w, actions + [a]) == Step(Execute(w, actions), a)
  {
    var more := actions + [a];
    assert more[..|actions|] == actions;
    forall k | 0 <= k < |more|
      ensures Visible(Execute(w, more[..k]), more[k])
    {
      if k < |actions| {
        assert more[..k] == actions[..k];
      }
    }
  }

  /** Event 1, a run that begins an epoch behind it, event 2, and the state file gets unreadable. */
  lemma UnreadableAfterTwo() returns (actions: seq<Action>)
    ensures Admissible(FRESH, actions) && Execute(FRESH, actions) == World([1, 2], Unreadable, None, [], [])
  {
    var one, two := World([1], Saved(At(1)), Some(1), [], []), World([1, 2], Saved(At(1)), Some(1), [], []);
    OneMoreAction(FRESH, [], Append(1));
    OneMoreAction(FRESH, [] + [Append(1)], GoodRun());
    Begins(World([1], Missing, None, [], []), GoodRun().o);
    OneMoreAction(FRESH, [] + [Append(1)] + [GoodRun()], Append(2));
    assert Step(one, Append(2)) == two;
    actions := [] + [Append(1)] + [GoodRun()] + [Append(2)] + [Tamper(Unreadable)];
    OneMoreAction(FRESH, [] + [Append(1)] + [GoodRun()] + [Append(2)], Tamper(Unreadable));
  }

  /** The event that became visible before the state file got unreadable is never announced. */
  lemma SkippedEvent() returns (actions: seq<Action>)
    ensures Admissible(FRESH, actions)
    ensures var w := Execute(FRESH, actions); 2 in w.log && 2 !in w.sent && !CanBeAnnounced(w, 2)
  {
    actions := UnreadableAfterTwo();
    EveryHistoryIsAccounted(actions);
    UnsentCanBeAnnouncedIff(Execute(FRESH, actions), 2);
  }

  // ----- the notifier itself

  /** What a run prints before it exits. */
  datatype Report = Report(
    exitCode: nat,
    initialized: bool,
    stateUpdated: bool,
    lastSeen: Option<int>,
    events: seq<int>)

  // ----- what a run's report says, in terms of its outcomes

  ghost predicate HasCursor(w: World) {
    w.file.Saved? && w.file.cursor.At?
  }

  /** There is no state yet, or none with a cursor. */
  ghost predicate NoCursor(w: World) {
    w.file.Missing? || (w.file.Saved? && w.file.cursor.Absent?)
  }

  ghost predicate Goes(o: Outcomes, i: nat) {
    o.sends(i).Delivered? && o.saves(i).Written?
  }

  ghost predicate SaveDies(s: SaveOutcome) {
    s.DiedBefore? || s.DiedAfter?
  }

  /** The run has a cursor, and exactly its first k events are sent and saved without trouble. */
  ghost predicate GetsPast(w: World, o: Outcomes, k: nat) {
    && HasCursor(w) && o.query.Answered?
    && k <= |Pending(w.log, w.file.cursor.id)|
    && (forall i: nat :: i < k ==> Goes(o, i))
    && (k < |Pending(w.log, w.file.cursor.id)| ==> !Goes(o, k))
  }

  ghost predicate GetsPastAll(w: World, o: Outcomes) {
    HasCursor(w) && GetsPast(w, o, |Pending(w.log, w.file.cursor.id)|)
  }

  /** The trouble after k events. */
  ghost predicate StopsAtEvent(w: World, o: Outcomes, k: nat) {
    GetsPast(w, o, k) && k < |Pending(w.log, w.file.cursor.id)|
  }

  /** A run that reaches its last save: after an error, at the start of an epoch, or behind its last event. */
  ghost predicate SavesLast(w: World, o: Outcomes) {
    || (!HasCursor(w) && !NoCursor(w))
    || o.query.QueryError?
    || (o.query.Answered? && (NoCursor(w) || GetsPastAll(w, o) || exists k :: SendFailsAt(w, o, k)))
  }

  ghost predicate SendFailsAt(w: World, o: Outcomes, k: nat) {
    StopsAtEvent(w, o, k) && o.sends(k).SendError?
  }

  ghost predicate DiesAt(w: World, o: Outcomes, k: nat) {
    && StopsAtEvent(w, o, k)
    && (o.sends(k).DiedUnsent? || o.sends(k).DiedSent? || (o.sends(k).Delivered? && SaveDies(o.saves(k))))
  }

  /** The process dies at one of the steps the run comes to. */
  ghost predicate SomeStepDies(w: World, o: Outcomes) {
    || ((HasCursor(w) || NoCursor(w)) && o.query.DiedQuerying?)
    || (exists k :: DiesAt(w, o, k))
    || (SavesLast(w, o) && SaveDies(o.last))
  }

  /** The file is readable and the query, every send and every save succeed. */
  ghost predicate AllSucceeds(w: World, o: Outcomes) {
    o.query.Answered? && o.last.Written? && (NoCursor(w) || GetsPastAll(w, o))
  }

  /** What is reported as the cursor: the newest id sent, or else the one the run began with or sets. */
  ghost function ReportedCursor(w: World, o: Outcomes, events: seq<int>): Option<int> {
    if HasCursor(w) then Some(if events == [] then w.file.cursor.id else events[|events| - 1])
    else if NoCursor(w) && o.query.Answered? then Some(MaxId(w.log))
    else None
  }

  /** The events reported are the first ones pending, up to the first that is not delivered. */
  ghost predicate AreDelivered(w: World, o: Outcomes, events: seq<int>) {
    if HasCursor(w) && o.query.Answered? then
      var pending := Pending(w.log, w.file.cursor.id);
      && events <= pending
      && (forall i: nat :: i + 1 < |events| ==> Goes(o, i))
      && (events != [] ==> o.sends(|events| - 1).Delivered?)
      && (|events| < |pending| ==>
            !o.sends(|events|).Delivered? || (events != [] && !o.saves(|events| - 1).Written?))
    else events == []
  }

  /** The report of a run that does not die. */
  ghost predicate ReportsOn(w: World, o: Outcomes, r: Report) {
    && AreDelivered(w, o, r.events)
    && r.lastSeen == ReportedCursor(w, o, r.events)
    && r.exitCode == (if AllSucceeds(w, o) then 0 else 1)
    && (r.initialized <==> NoCursor(w) && o.query.Answered?)
    && (r.stateUpdated <==> SavesLast(w, o) && o.last.Written?)
  }

  lemma GetsPastOnce(w: World, o: Outcomes, j: nat, k: nat)
    requires GetsPast(w, o, j) && GetsPast(w, o, k)
    ensures j == k
  {
    assert j < k ==> Goes(o, j);
    assert k < j ==> Goes(o, k);
  }

  /** Trouble at one event settles how the run ends. */
  lemma StopSettles(w: World, o: Outcomes, k: nat)
    requires StopsAtEvent(w, o, k)
    ensures SavesLast(w, o) <==> o.sends(k).SendError?
    ensures SomeStepDies(w, o) <==> DiesAt(w, o, k) || (o.sends(k).SendError? && SaveDies(o.last))
    ensures !AllSucceeds(w, o)
  {
    forall j: nat | GetsPast(w, o, j)
      ensures j == k
    {
      GetsPastOnce(w, o, j, k);
    }
    assert SendFailsAt(w, o, k) <==> o.sends(k).SendError?;
  }

  lemma EndSettles(w: World, o: Outcomes)
    requires GetsPastAll(w, o)
    ensures SavesLast(w, o)
    ensures SomeStepDies(w, o) <==> SaveDies(o.last)
    ensures AllSucceeds(w, o) <==> o.last.Written?
  {
    forall j: nat | GetsPast(w, o, j)
      ensures j == |Pending(w.log, w.file.cursor.id)|
    {
      GetsPastOnce(w, o, j, |Pending(w.log, w.file.cursor.id)|);
    }
  }

  /** The first n pending events were delivered and nothing after them. */
  lemma DeliveredFirst(w: World, o: Outcomes, n: nat)
    requires HasCursor(w) && o.query.Answered? && n <= |Pending(w.log, w.file.cursor.id)|
    requires forall i: nat :: i + 1 < n ==> Goes(o, i)
    requires n > 0 ==> o.sends(n - 1).Delivered?
    requires n < |Pending(w.log, w.file.cursor.id)| ==>
               !o.sends(n).Delivered? || (n > 0 && !o.saves(n - 1).Written?)
    ensures var events := Pending(w.log, w.file.cursor.id)[..n];
            AreDelivered(w, o, events) && ReportedCursor(w, o, events) == Some(LastOr(events, w.file.cursor.id))
  {
  }

  /** No report if and only if the process dies, and otherwise one on the outcomes. */
  ghost predicate IsRunReport(w: World, o: Outcomes, r: Option<Report>) {
    && (r.None? <==> SomeStepDies(w, o))
    && (r.Some? ==> ReportsOn(w, o, r.value))
  }

  /** A report behind a save, if the process survives it. */
  ghost function AfterLastSave(s: SaveOutcome, r: Report): Option<Report> {
    if s.Written? || s.SaveError? then Some(r.(stateUpdated := s.Written?)) else None
  }

  /** The report of a run with cursor c whose trouble comes behind k of its events. */
  ghost function ReportBehind(events: seq<int>, k: nat, c: int, o: Outcomes): Option<Report>
    requires k <= |events|
  {
    if k == |events| then
      AfterLastSave(o.last, Report(if o.last.SaveError? then 1 else 0, false, true, Some(LastOr(events, c)), events))
    else
      match o.sends(k)
      case SendError => AfterLastSave(o.last, Report(1, false, true, Some(LastOr(events[..k], c)), events[..k]))
      case Delivered => AfterLastSave(o.saves(k), Report(1, false, true, Some(events[k]), events[..k + 1]))
      case _ => None
  }

  lemma PendingReports(w: World, o: Outcomes, k: nat)
    requires GetsPast(w, o, k)
    ensures IsRunReport(w, o, ReportBehind(Pending(w.log, w.file.cursor.id), k, w.file.cursor.id, o))
  {
    var events := Pending(w.log, w.file.cursor.id);
    assert k > 0 ==> Goes(o, k - 1);
    if k == |events| {
      EndSettles(w, o);
      DeliveredFirst(w, o, k);
      assert events[..k] == events;
    } else {
      StopSettles(w, o, k);
      if o.sends(k).SendError? {
        DeliveredFirst(w, o, k);
      }
      if o.sends(k).Delivered? {
        DeliveredFirst(w, o, k + 1);
      }
    }
  }

  /** Without a cursor or an answer the run depends on its query and its last save alone. */
  lemma ShortRunReports(w: World, o: Outcomes)
    requires !(HasCursor(w) && o.query.Answered?)
    ensures var code, failed := if o.last.SaveError? then 1 else 0, Report(1, false, true, None, []);
            if !HasCursor(w) && !NoCursor(w) then IsRunReport(w, o, AfterLastSave(o.last, failed))
            else match o.query
              case DiedQuerying => IsRunReport(w, o, None)
              case QueryError =>
                IsRunReport(w, o, AfterLastSave(o.last, failed.(lastSeen := ReportedCursor(w, o, []))))
              case Answered =>
                IsRunReport(w, o, AfterLastSave(o.last, Report(code, true, true, Some(MaxId(w.log)), [])))
  {
    assert forall k :: !GetsPast(w, o, k);
  }

  // ----- what a run leaves behind, in terms of its outcomes

  /** The message behind k smooth ones goes out as well. */
  ghost predicate OneMoreSent(events: seq<int>, k: nat, o: Outcomes) {
    k < |events| && (o.sends(k).Delivered? || o.sends(k).DiedSent?)
  }

  /** Its cursor gets into the file before the process dies. */
  ghost predicate OneMoreSaved(events: seq<int>, k: nat, o: Outcomes) {
    k < |events| && o.sends(k).Delivered? && o.saves(k).DiedAfter?
  }

  /** From w on, k events went smoothly; `cursor` is what the file held before them. */
  ghost predicate LeftBehind(w: World, w': World, events: seq<int>, k: nat, cursor: int, o: Outcomes)
    requires k <= |events|
  {
    var more := if OneMoreSent(events, k, o) then 1 else 0;
    && w'.log == w.log && w'.start == w.start
    && w'.sent == w.sent + events[..k + more]
    && w'.file == Saved(At(if OneMoreSaved(events, k, o) then events[k] else LastOr(events[..k], cursor)))
    && w'.lost == w.lost + if OneMoreSent(events, k, o) && !OneMoreSaved(events, k, o) then [events[k]] else []
  }

  lemma {:induction false} DeliverLeaves(w: World, cursor: int, events: seq<int>, i: nat, k: nat, o: Outcomes)
    requires i <= k <= |events| && w.file == Saved(At(cursor))
    requires (forall j: nat :: i <= j < k ==> Goes(o, j)) && (k < |events| ==> !Goes(o, k))
    ensures var w' := Deliver(w, cursor, events, i, o);
            var more := if OneMoreSent(events, k, o) then 1 else 0;
            && w'.log == w.log && w'.start == w.start
            && w'.sent == w.sent + events[i..k + more]
            && w'.file == Saved(At(if OneMoreSaved(events, k, o) then events[k] else LastOr(events[i..k], cursor)))
            && w'.lost == w.lost + if OneMoreSent(events, k, o) && !OneMoreSaved(events, k, o) then [events[k]] else []
    decreases k - i
  {
    var more := if OneMoreSent(events, k, o) then 1 else 0;
    if i < k {
      var e := events[i];
      DeliverLeaves(w.(sent := w.sent + [e], file := Saved(At(e))), e, events, i + 1, k, o);
      assert w.sent + [e] + events[i + 1..k + more] == w.sent + events[i..k + more];
      assert LastOr(events[i + 1..k], e) == LastOr(events[i..k], cursor) by {
        assert events[i..k] == [e] + events[i + 1..k];
      }
      assert Goes(o, i);
    } else {
      var one := if OneMoreSent(events, k, o) then [events[k]] else [];
      assert events[k..k + more] == one && events[k..k] == [];
      assert w.sent + [] == w.sent && w.lost + [] == w.lost;
    }
  }

  /** A run with a cursor: the first k events go smoothly, and the next one decides the rest. */
  lemma RunLeaves(w: World, o: Outcomes, k: nat)
    requires GetsPast(w, o, k)
    ensures LeftBehind(w, RunOnce(w, o), Pending(w.log, w.file.cursor.id), k, w.file.cursor.id, o)
  {
    var events, c := Pending(w.log, w.file.cursor.id), w.file.cursor.id;
    DeliverLeaves(w, c, events, 0, k, o);
    var more := if OneMoreSent(events, k, o) then 1 else 0;
    assert events[0..k + more] == events[..k + more] && events[0..k] == events[..k];
  }

  /** Whether a save gets its content into the file. */
  ghost predicate IsSaved(s: SaveOutcome) {
    s.Written? || s.DiedAfter?
  }

  /** A run without a cursor, or whose query fails, changes the state file by its last save at most. */
  lemma ShortRunLeaves(w: World, o: Outcomes)
    requires !(HasCursor(w) && o.query.Answered?)
    ensures var w' := RunOnce(w, o);
            var begins := NoCursor(w) && o.query.Answered? && IsSaved(o.last);
            && w'.log == w.log
            && (begins ==> w' == World(w.log, Saved(At(MaxId(w.log))), Some(MaxId(w.log)), [], []))
            && (!begins ==> w'.start == w.start && w'.sent == w.sent && w'.lost == w.lost)
            && (!begins ==>
                  w'.file == if SavesLast(w, o) && IsSaved(o.last) && (w.file.Missing? || w.file.Unreadable?)
                             then Saved(Absent) else w.file)
  {
    assert forall k :: !GetsPast(w, o, k);
  }

  class Notifier {
    var file: StateFile
    var temp: TempFile
    var log: seq<int>
    // history of the current epoch
    ghost var start: Option<int>
    ghost var sent: seq<int>
    ghost var lost: seq<int>

    ghost function View(): World
      reads this
    {
      World(log, file, start, sent, lost)
    }

    constructor ()
      ensures View() == FRESH
    {
      file, temp, log, start, sent, lost := Missing, NoTemp, [], None, [], [];
    }

    method LoadState() returns (state: Option<Cursor>, readError: bool)
      ensures readError <==> file == Unreadable
      ensures state == if file.Saved? then Some(file.cursor) else None
    {
      if file.Missing? {
        return None, false;
      }
      if file.Unreadable? {
        return None, true;
      }
      return Some(file.cursor), false;
    }

    /** What a later run loads is the cursor or the old content, and never anything torn, wherever the save stops. */
    method WriteState(cursor: Cursor, o: SaveOutcome) returns (alive: bool, error: bool)
      modifies this`file, this`temp
      ensures file == AfterSave(old(file), cursor, o)
      ensures file == old(file) || (file == Saved(cursor) && temp == NoTemp)
      ensures o.SaveError? || o.DiedBefore? ==>
                temp == match o.step
                        case MakeDirectory => old(temp)
                        case WriteTemp => Torn
                        case Replace => Whole(cursor)
      ensures alive && !error ==> file == Saved(cursor)
      ensures error ==> alive && file == old(file)
      ensures alive <==> o.Written? || o.SaveError?
      ensures error <==> o.SaveError?
    {
      alive, error := o.SaveError?, o.SaveError?;
      if StopsAt(o, MakeDirectory) {
        return;
      }
      temp := Torn;
      if StopsAt(o, WriteTemp) {
        return;
      }
      temp := Whole(cursor);
      if StopsAt(o, Replace) {
        return;
      }
      file, temp := Saved(temp.cursor), NoTemp;
      alive := o.Written?;
    }

    /** Rewrites whatever state can be read, adding the note; what cannot be read is dropped. */
    method AddErrorNote(o: SaveOutcome) returns (alive: bool, error: bool)
      modifies this`file, this`temp
      ensures file == AfterSave(old(file), if old(file).Saved? then old(file).cursor else Absent, o)
      ensures alive <==> o.Written? || o.SaveError?
      ensures error <==> o.SaveError?
    {
      var state, _ := LoadState();
      alive, error := WriteState(state.GetOr(Absent), o);
    }

    /** Notes the error and reports it. */
    method FailWith(lastSeen: Option<int>, o: SaveOutcome) returns (r: Option<Report>)
      modifies this`file, this`temp
      ensures file == AfterSave(old(file), if old(file).Saved? then old(file).cursor else Absent, o)
      ensures r == AfterLastSave(o, Report(1, false, true, lastSeen, []))
    {
      var alive, error := AddErrorNote(o);
      r := if alive then Some(Report(1, false, !error, lastSeen, [])) else None;
    }

    /** The first cursor goes behind the newest visible event. */
    method StartAtNewest(o: SaveOutcome) returns (r: Option<Report>)
      modifies this
      ensures View() == if o.Written? || o.DiedAfter?
                        then World(old(log), Saved(At(MaxId(old(log)))), Some(MaxId(old(log))), [], [])
                        else old(View())
      ensures r == AfterLastSave(o, Report(if o.SaveError? then 1 else 0, true, true, Some(MaxId(log)), []))
    {
      var currentMax := MaxId(log);
      var alive, error := WriteState(At(currentMax), o);
      if o.Written? || o.DiedAfter? {
        start, sent, lost := Some(currentMax), [], [];
      }
      r := if alive then Some(Report(if error then 1 else 0, true, !error, Some(currentMax), [])) else None;
    }

    /** Ends in None when the process dies, otherwise in the printed report. */
    method NotifyOnce(o: Outcomes) returns (r: Option<Report>)
      requires Inv(View())
      modifies this
      ensures View() == RunOnce(old(View()), o)
      ensures Inv(View())
      // no report if and only if the process dies, and what the report says of the outcomes
      ensures IsRunReport(old(View()), o, r)
      // what it reports as saved is what the file holds
      ensures r.Some? && r.value.stateUpdated && r.value.lastSeen.Some? ==> file == Saved(At(r.value.lastSeen.value))
      // in a continuing epoch it reports exactly the messages it sent
      ensures r.Some? && old(start).Some? ==> sent == old(sent) + r.value.events
      // success means the cursor is saved and nothing visible is left above it
      ensures r.Some? && r.value.exitCode == 0 ==> file.Saved? && file.cursor.At? && NothingAbove(log, file.cursor.id)
    {
      RunKeepsInv(View(), o);
      if !(HasCursor(View()) && o.query.Answered?) {
        ShortRunReports(View(), o);
      }
      var state, readError := LoadState();
      if readError {
        r := FailWith(None, o.last);
        return;
      }
      if state == Some(Malformed) {
        r := FailWith(None, o.last);
        return;
      }
      if o.query.DiedQuerying? {
        return None;
      }
      if state.None? || state.value.Absent? {
        if o.query.QueryError? {
          r := FailWith(None, o.last);
          return;
        }
        r := StartAtNewest(o.last);
        return;
      }
      var previous := state.value.id;
      if o.query.QueryError? {
        r := FailWith(Some(previous), o.last);
        return;
      }
      ghost var k;
      r, k := SendPending(previous, o);
      PendingReports(old(View()), o, k);
    }

    /** The loop over the fetched events: send, then save, one at a time; k of them go through. */
    method SendPending(previous: int, o: Outcomes) returns (r: Option<Report>, ghost k: nat)
      requires Increasing(log) && file == Saved(At(previous))
      modifies this
      ensures var events := Pending(old(log), previous);
              && View() == Deliver(old(View()), previous, events, 0, o)
              && k <= |events| && (forall i: nat :: i < k ==> Goes(o, i)) && (k < |events| ==> !Goes(o, k))
              && r == ReportBehind(events, k, previous, o)
      ensures r.Some? && r.value.stateUpdated && r.value.lastSeen.Some? ==> file == Saved(At(r.value.lastSeen.value))
      ensures r.Some? ==> sent == old(sent) + r.value.events
      ensures r.Some? && r.value.exitCode == 0 ==> file.Saved? && file.cursor.At? && NothingAbove(log, file.cursor.id)
    {
      var events := Pending(log, previous);
      ghost var whole := Deliver(View(), previous, events, 0, o);
      var lastSeen := previous;
      var sentEvents: seq<int> := [];
      var i := 0;
      while i < |events|
        invariant 0 <= i <= |events|
        invariant log == old(log)
        invariant file == Saved(At(lastSeen)) && lastSeen == LastOr(events[..i], previous)
        invariant Deliver(View(), lastSeen, events, i, o) == whole
        invariant sentEvents == events[..i] && sent == old(sent) + sentEvents
        invariant forall j: nat :: j < i ==> Goes(o, j)
      {
        k := i;
        var e := events[i];
        var outcome := o.sends(i);
        if outcome.DiedUnsent? {
          r := None;
          return;
        }
        if outcome.DiedSent? {
          sent, lost := sent + [e], lost + [e];
          r := None;
          return;
        }
        if outcome.SendError? {
          var alive, error := WriteState(At(lastSeen), o.last);
          r := if alive then Some(Report(1, false, !error, Some(lastSeen), sentEvents)) else None;
          return;
        }
        sent := sent + [e];
        sentEvents := sentEvents + [e];
        lastSeen := e;
        var alive, error := WriteState(At(lastSeen), o.saves(i));
        assert sentEvents == events[..i + 1];
        if !alive || error {
          if !o.saves(i).DiedAfter? {
            lost := lost + [e];
          }
          r := if alive then Some(Report(1, false, false, Some(lastSeen), sentEvents)) else None;
          return;
        }
        i := i + 1;
      }
      k := i;
      LastPendingIsNewest(log, previous);
      assert events[..i] == events;
      var alive, error := WriteState(At(lastSeen), o.last);
      r := if alive then Some(Report(if error then 1 else 0, false, !error, Some(lastSeen), sentEvents)) else None;
    }
  }
}
