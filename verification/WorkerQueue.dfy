/**
  The queue estimate of the process-pool benchmark: rows are put in submission order, then
  each goes to the worker slot that becomes free first. The per-timeframe totals printed
  beside it are modelled at the end.
  */
module WorkerQueue {
  import opened Wrappers
  import opened ListScheduling
  import opened Sorting

  /** The fields of a worker result the estimate reads; None is an absent or unparsable field. */
  datatype Row = Row(
    submittedOrder: Option<int>,
    timeframe: string,
    chunkIndex: Option<int>,
    elapsed: Option<real>)

  datatype Item = Item(row: Row, slot: nat, start: real, finish: real)

  datatype Estimate = Estimate(
    workers: nat,
    makespan: real,
    queueWaitTail: real,
    criticalSlot: nat,
    criticalPath: seq<Item>,
    finalWave: seq<Item>)

  function Duration(row: Row): real {
    row.elapsed.GetOr(0.0)
  }

  function Durations(jobs: seq<Row>): (ds: seq<real>) {
    seq(|jobs|, i requires 0 <= i < |jobs| => Duration(jobs[i]))
  }

  // ----- submission order

  datatype OrderKey = OrderKey(order: int, timeframe: string, chunk: int)

  function WorkerOrderKey(row: Row, fallback: int): OrderKey {
    OrderKey(row.submittedOrder.GetOr(fallback), row.timeframe, row.chunkIndex.GetOr(0))
  }

  predicate KeyLess(a: OrderKey, b: OrderKey) {
    || a.order < b.order
    || (a.order == b.order && StringLess(a.timeframe, b.timeframe))
    || (a.order == b.order && a.timeframe == b.timeframe && a.chunk < b.chunk)
  }

  /** Row i comes before row j in a stable sort by key. */
  predicate Precedes(rows: seq<Row>, i: nat, j: nat)
    requires i < |rows| && j < |rows|
  {
    var a, b := WorkerOrderKey(rows[i], i), WorkerOrderKey(rows[j], j);
    KeyLess(a, b) || (a == b && i < j)
  }

  lemma PrecedesTotal(rows: seq<Row>, i: nat, j: nat)
    requires i < |rows| && j < |rows| && i != j
    ensures Precedes(rows, i, j) != Precedes(rows, j, i)
  {
    StringLessTotal(rows[i].timeframe, rows[j].timeframe);
  }

  lemma PrecedesTransitive(rows: seq<Row>, i: nat, j: nat, k: nat)
    requires i < |rows| && j < |rows| && k < |rows|
    requires Precedes(rows, i, j) && Precedes(rows, j, k)
    ensures Precedes(rows, i, k)
  {
    var a, b, c := rows[i].timeframe, rows[j].timeframe, rows[k].timeframe;
    if StringLess(a, b) && StringLess(b, c) {
      StringLessTransitive(a, b, c);
    }
  }

  predicate Indices(rows: seq<Row>, order: seq<nat>) {
    forall k :: 0 <= k < |order| ==> order[k] < |rows|
  }

  predicate InOrder(rows: seq<Row>, order: seq<nat>)
    requires Indices(rows, order)
  {
    forall a, b :: 0 <= a < b < |order| ==> Precedes(rows, order[a], order[b])
  }

  function InsertRow(rows: seq<Row>, i: nat, order: seq<nat>): (r: seq<nat>)
    requires i < |rows| && Indices(rows, order)
    ensures Indices(rows, r) && |r| == |order| + 1
    ensures forall k :: k in r <==> k == i || k in order
  {
    if order == [] then [i]
    else if Precedes(rows, i, order[0]) then [i] + order
    else
      assert order == [order[0]] + order[1..];
      [order[0]] + InsertRow(rows, i, order[1..])
  }

  lemma {:induction false} InsertKeepsOrder(rows: seq<Row>, i: nat, order: seq<nat>)
    requires i < |rows| && Indices(rows, order) && InOrder(rows, order) && i !in order
    ensures InOrder(rows, InsertRow(rows, i, order))
  {
    if order != [] {
      var first, rest := order[0], order[1..];
      if Precedes(rows, i, first) {
        forall b | 0 <= b < |order|
          ensures Precedes(rows, i, order[b])
        {
          if b > 0 {
            PrecedesTransitive(rows, i, first, order[b]);
          }
        }
      } else {
        PrecedesTotal(rows, i, first);
        InsertKeepsOrder(rows, i, rest);
        var tail := InsertRow(rows, i, rest);
        forall b | 0 <= b < |tail|
          ensures Precedes(rows, first, tail[b])
        {
          assert tail[b] in tail;
        }
      }
    }
  }

  /** The stable sort of the first n rows by order key, as row indices. */
  function SubmissionOrder(rows: seq<Row>, n: nat): (order: seq<nat>)
    requires n <= |rows|
    ensures Indices(rows, order) && |order| == n
    ensures forall k :: k in order <==> 0 <= k < n
  {
    if n == 0 then [] else InsertRow(rows, n - 1, SubmissionOrder(rows, n - 1))
  }

  /** Sorted by (submission order or position, timeframe, chunk), ties in input order, no row twice. */
  lemma {:induction false} SubmissionOrderIsStableSort(rows: seq<Row>, n: nat)
    requires n <= |rows|
    ensures InOrder(rows, SubmissionOrder(rows, n))
    ensures var order := SubmissionOrder(rows, n); forall a, b :: 0 <= a < b < n ==> order[a] != order[b]
  {
    if n > 0 {
      SubmissionOrderIsStableSort(rows, n - 1);
      InsertKeepsOrder(rows, n - 1, SubmissionOrder(rows, n - 1));
    }
    InOrderHasNoRepeats(rows, SubmissionOrder(rows, n));
  }

  lemma InOrderHasNoRepeats(rows: seq<Row>, order: seq<nat>)
    requires Indices(rows, order) && InOrder(rows, order)
    ensures forall a, b :: 0 <= a < b < |order| ==> order[a] != order[b]
  {
    forall a, b | 0 <= a < b < |order|
      ensures order[a] != order[b]
    {
      StringLessTotal(rows[order[a]].timeframe, rows[order[b]].timeframe);
      assert Precedes(rows, order[a], order[b]);
    }
  }

  function Jobs(rows: seq<Row>): (jobs: seq<Row>)
    ensures |jobs| == |rows|
  {
    var order := SubmissionOrder(rows, |rows|);
    seq(|rows|, k requires 0 <= k < |rows| => rows[order[k]])
  }

  // ----- the estimate

  function WorkerCount(processWorkers: int, rowCount: nat): (m: nat)
    requires rowCount > 0
    ensures 1 <= m <= rowCount
  {
    var asked := if processWorkers == 0 then 1 else processWorkers;
    var capped := if asked < rowCount then asked else rowCount;
    if capped < 1 then 1 else capped
  }

  /** The rows as the greedy plan places them. */
  function Scheduled(jobs: seq<Row>, m: nat): (items: seq<Item>)
    requires m > 0
    ensures |items| == |jobs|
  {
    var p := Greedy(Durations(jobs), m);
    seq(|jobs|, i requires 0 <= i < |jobs| =>
      Item(jobs[i], p.slots[i], p.starts[i], p.starts[i] + Duration(jobs[i])))
  }

  /** The items of one slot, in the order they were placed. */
  function JobsOn(items: seq<Item>, slot: nat): (r: seq<Item>)
    ensures forall item :: item in r ==> item in items && item.slot == slot
  {
    if items == [] then []
    else
      var n := |items| - 1;
      JobsOn(items[..n], slot) + if items[n].slot == slot then [items[n]] else []
  }

  /** The items whose rounded start lies within a millisecond of `latest`, in submission order. */
  function FinalWave(items: seq<Item>, latest: real, round: real -> real): (r: seq<Item>)
    ensures forall item :: item in r <==> item in items && -0.001 < round(item.start) - latest < 0.001
  {
    if items == [] then []
    else
      var n := |items| - 1;
      assert items == items[..n] + [items[n]];
      FinalWave(items[..n], latest, round) + if -0.001 < round(items[n].start) - latest < 0.001 then [items[n]] else []
  }

  /** The makespan is the largest slot load, and `slot` is the first slot reaching it. */
  ghost predicate IsCritical(ds: seq<real>, m: nat, makespan: real, slot: nat)
    requires m > 0
  {
    var p := Greedy(ds, m);
    && makespan == Makespan(ds, p.slots, m)
    && slot < m
    && Load(ds, p.slots, slot) == makespan
    && (forall s :: 0 <= s < slot ==> Load(ds, p.slots, s) < makespan)
  }

  /** The largest of the rounded starts. */
  ghost predicate IsLatestStart(items: seq<Item>, latest: real, round: real -> real) {
    && (exists i :: 0 <= i < |items| && round(items[i].start) == latest)
    && (forall i :: 0 <= i < |items| ==> round(items[i].start) <= latest)
  }

  /** `round` is the printing of starts; it is applied once more to the latest one. */
  ghost predicate IsEstimate(rows: seq<Row>, processWorkers: int, e: Estimate, round: real -> real)
    requires rows != []
  {
    && e.workers == WorkerCount(processWorkers, |rows|)
    && IsCritical(Durations(Jobs(rows)), e.workers, e.makespan, e.criticalSlot)
    && e.criticalPath == JobsOn(Scheduled(Jobs(rows), e.workers), e.criticalSlot)
    && exists latest :: Reports(Scheduled(Jobs(rows), e.workers), e, latest, round)
  }

  /** The wait and the final wave reported for this latest start. */
  ghost predicate Reports(items: seq<Item>, e: Estimate, latest: real, round: real -> real) {
    && IsLatestStart(items, latest, round)
    && e.queueWaitTail == round(latest) && e.finalWave == FinalWave(items, latest, round)
  }

  lemma ScheduledPrefix(jobs: seq<Row>, m: nat, k: nat)
    requires m > 0 && k <= |jobs|
    ensures Scheduled(jobs[..k], m) == Scheduled(jobs, m)[..k]
  {
    PrefixPlan(jobs, m, k);
    var some, all := Scheduled(jobs[..k], m), Scheduled(jobs, m);
    forall i | 0 <= i < k
      ensures some[i] == all[i]
    {
      assert jobs[..k][i] == jobs[i];
    }
  }

  lemma PrefixPlan(jobs: seq<Row>, m: nat, k: nat)
    requires m > 0 && k <= |jobs|
    ensures var some, all := Greedy(Durations(jobs[..k]), m), Greedy(Durations(jobs), m);
            some.slots == all.slots[..k] && some.starts == all.starts[..k]
  {
    assert Durations(jobs[..k]) == Durations(jobs)[..k];
    GreedyPrefix(Durations(jobs), m, k);
  }

  /** Where the greedy plan puts the next row. */
  function NextItem(p: Plan, row: Row): Item
    requires |p.avail| > 0
  {
    var s := EarliestSlot(p.avail);
    Item(row, s, p.avail[s], p.avail[s] + Duration(row))
  }

  /** One turn of the loop on values. */
  lemma ScheduleLast(jobs: seq<Row>, m: nat)
    requires m > 0 && jobs != []
    ensures var n := |jobs| - 1;
            var p := Greedy(Durations(jobs[..n]), m);
            var item := NextItem(p, jobs[n]);
            && Greedy(Durations(jobs), m).avail == p.avail[item.slot := item.finish]
            && Scheduled(jobs, m) == Scheduled(jobs[..n], m) + [item]
  {
    var n := |jobs| - 1;
    assert Durations(jobs)[..n] == Durations(jobs[..n]);
    ScheduledPrefix(jobs, m, n);
  }

  lemma ScheduleOneMore(jobs: seq<Row>, m: nat, k: nat)
    requires m > 0 && k < |jobs|
    ensures var p := Greedy(Durations(jobs[..k]), m);
            var item := NextItem(p, jobs[k]);
            && Greedy(Durations(jobs[..k + 1]), m).avail == p.avail[item.slot := item.finish]
            && Scheduled(jobs[..k + 1], m) == Scheduled(jobs[..k], m) + [item]
  {
    assert jobs[..k + 1][..k] == jobs[..k];
    ScheduleLast(jobs[..k + 1], m);
  }

  lemma JobsOnOneMore(items: seq<Item>, item: Item, s: nat)
    ensures JobsOn(items + [item], s) == JobsOn(items, s) + if item.slot == s then [item] else []
  {
    assert (items + [item])[..|items|] == items;
  }

  /** The loop's state after the first k jobs. */
  ghost predicate Placed(jobs: seq<Row>, m: nat, k: nat, scheduled: seq<Item>, avail: seq<real>)
    requires m > 0 && k <= |jobs|
  {
    scheduled == Scheduled(jobs[..k], m) && avail == Greedy(Durations(jobs[..k]), m).avail
  }

  lemma PlaceOneMore(jobs: seq<Row>, m: nat, k: nat, scheduled: seq<Item>, avail: seq<real>)
    requires m > 0 && k < |jobs| && Placed(jobs, m, k, scheduled, avail)
    ensures |avail| == m
    ensures var item := NextItem(Plan([], [], avail), jobs[k]);
            Placed(jobs, m, k + 1, scheduled + [item], avail[item.slot := item.finish])
  {
    ScheduleOneMore(jobs, m, k);
    PlaceIsByClocks(Greedy(Durations(jobs[..k]), m), jobs[k]);
  }

  /** Where a row goes depends on the clocks only. */
  lemma PlaceIsByClocks(p: Plan, row: Row)
    requires |p.avail| > 0
    ensures NextItem(Plan([], [], p.avail), row) == NextItem(p, row)
  {
  }

  ghost predicate ListsBySlot(slotJobs: seq<seq<Item>>, scheduled: seq<Item>) {
    forall s :: 0 <= s < |slotJobs| ==> slotJobs[s] == JobsOn(scheduled, s)
  }

  /** One turn of the loop: the row goes to the slot that is free first. */
  method PlaceNext(row: Row, slotAvailable: array<real>, slotJobs: array<seq<Item>>) returns (item: Item)
    requires 0 < slotAvailable.Length == slotJobs.Length
    modifies slotAvailable, slotJobs
    ensures item == NextItem(Plan([], [], old(slotAvailable[..])), row)
    ensures slotAvailable[..] == old(slotAvailable[..])[item.slot := item.finish]
    ensures slotJobs[..] == old(slotJobs[..])[item.slot := old(slotJobs[..])[item.slot] + [item]]
  {
    var slot := EarliestSlot(slotAvailable[..]);
    var started := slotAvailable[slot];
    var finished := started + Duration(row);
    slotAvailable[slot] := finished;
    item := Item(row, slot, started, finished);
    slotJobs[slot] := slotJobs[slot] + [item];
  }

  /** The loop: every job, in order. */
  method DrainQueue(ordered: seq<Row>, m: nat)
    returns (slotAvailable: array<real>, slotJobs: array<seq<Item>>, scheduled: seq<Item>)
    requires m > 0
    ensures slotAvailable[..] == Greedy(Durations(ordered), m).avail
    ensures scheduled == Scheduled(ordered, m)
    ensures slotJobs.Length == m && ListsBySlot(slotJobs[..], scheduled)
  {
    slotAvailable := new real[m](_ => 0.0);
    slotJobs := new seq<Item>[m](_ => []);
    scheduled := [];
    assert Placed(ordered, m, 0, scheduled, slotAvailable[..]);
    for k := 0 to |ordered|
      invariant slotAvailable.Length == slotJobs.Length == m
      invariant Placed(ordered, m, k, scheduled, slotAvailable[..])
      invariant ListsBySlot(slotJobs[..], scheduled)
    {
      PlaceOneMore(ordered, m, k, scheduled, slotAvailable[..]);
      ghost var lists := slotJobs[..];
      var item := PlaceNext(ordered[k], slotAvailable, slotJobs);
      AppendToSlot(lists, scheduled, item);
      scheduled := scheduled + [item];
    }
    assert ordered[..|ordered|] == ordered;
  }

  method EstimatedWorkerQueue(rows: seq<Row>, processWorkers: int, round: real -> real) returns (r: Option<Estimate>)
    ensures r.None? <==> rows == []
    ensures r.Some? ==> IsEstimate(rows, processWorkers, r.value, round)
  {
    if |rows| == 0 {
      return None;
    }
    var m := WorkerCount(processWorkers, |rows|);
    var slotAvailable, slotJobs, scheduled := DrainQueue(Jobs(rows), m);
    var criticalSlot := LatestSlot(slotAvailable[..]);
    var finalStart := LatestStart(scheduled, round);
    MakesEstimate(rows, processWorkers, finalStart, round);
    r := Some(Estimate(m, slotAvailable[criticalSlot], round(finalStart), criticalSlot,
                       slotJobs[criticalSlot], FinalWave(scheduled, finalStart, round)));
  }

  lemma MakesEstimate(rows: seq<Row>, processWorkers: int, latest: real, round: real -> real)
    requires rows != [] && IsLatestStart(Scheduled(Jobs(rows), WorkerCount(processWorkers, |rows|)), latest, round)
    ensures var m := WorkerCount(processWorkers, |rows|);
            var items, avail := Scheduled(Jobs(rows), m), Greedy(Durations(Jobs(rows)), m).avail;
            var s := LatestSlot(avail);
            IsEstimate(
              rows, processWorkers,
              Estimate(m, avail[s], round(latest), s, JobsOn(items, s), FinalWave(items, latest, round)), round)
  {
    var m := WorkerCount(processWorkers, |rows|);
    var items, avail := Scheduled(Jobs(rows), m), Greedy(Durations(Jobs(rows)), m).avail;
    var s := LatestSlot(avail);
    CriticalSlotHasMakespan(Durations(Jobs(rows)), m);
    var e := Estimate(m, avail[s], round(latest), s, JobsOn(items, s), FinalWave(items, latest, round));
    assert Reports(items, e, latest, round);
  }

  lemma AppendToSlot(slotJobs: seq<seq<Item>>, scheduled: seq<Item>, item: Item)
    requires item.slot < |slotJobs|
    requires ListsBySlot(slotJobs, scheduled)
    ensures ListsBySlot(slotJobs[item.slot := slotJobs[item.slot] + [item]], scheduled + [item])
  {
    forall s: nat | s < |slotJobs|
      ensures JobsOn(scheduled + [item], s) == slotJobs[s] + if s == item.slot then [item] else []
    {
      JobsOnOneMore(scheduled, item, s);
    }
  }

  function LatestStart(items: seq<Item>, round: real -> real): (r: real)
    requires items != []
    ensures IsLatestStart(items, r, round)
  {
    var starts := seq(|items|, i requires 0 <= i < |items| => round(items[i].start));
    var i := LatestSlot(starts);
    assert forall j :: 0 <= j < |items| ==> round(items[j].start) == starts[j];
    round(items[i].start)
  }

  lemma CriticalSlotHasMakespan(ds: seq<real>, m: nat)
    requires m > 0
    ensures var avail := Greedy(ds, m).avail;
            IsCritical(ds, m, avail[LatestSlot(avail)], LatestSlot(avail))
  {
    var p := Greedy(ds, m);
    forall t: nat | t < m
      ensures p.avail[t] == Load(ds, p.slots, t)
    {
      AvailIsLoad(ds, m, t);
    }
  }

  // ----- what the estimate promises

  ghost predicate NoNegativeElapsed(rows: seq<Row>) {
    forall i :: 0 <= i < |rows| ==> 0.0 <= Duration(rows[i])
  }

  lemma JobsKeepNonNegative(rows: seq<Row>)
    requires NoNegativeElapsed(rows)
    ensures NonNegative(Durations(Jobs(rows)))
  {
  }

  /** The estimated makespan against any other way of giving the same jobs to as many workers. */
  lemma EstimateWithinTwiceAnySchedule(
      rows: seq<Row>, processWorkers: int, e: Estimate, round: real -> real, other: seq<nat>)
    requires rows != [] && NoNegativeElapsed(rows)
    ensures var ds := Durations(Jobs(rows));
            IsEstimate(rows, processWorkers, e, round) && IsAssignment(ds, other, e.workers) ==>
              GrahamBounds(e.workers, e.makespan, Makespan(ds, other, e.workers), Sum(ds), Longest(ds))
  {
    JobsKeepNonNegative(rows);
    if IsEstimate(rows, processWorkers, e, round) && IsAssignment(Durations(Jobs(rows)), other, e.workers) {
      GreedyWithinTwiceAnyAssignment(Durations(Jobs(rows)), e.workers, other);
    }
  }

  ghost predicate IsMonotone(round: real -> real) {
    forall x, y :: x <= y ==> round(x) <= round(y)
  }

  /** The reported queue wait is the rounded start of the last submitted job. */
  lemma TailIsLastStart(rows: seq<Row>, processWorkers: int, e: Estimate, round: real -> real)
    requires rows != [] && NoNegativeElapsed(rows)
    ensures IsMonotone(round) && IsEstimate(rows, processWorkers, e, round) ==>
              var last := Scheduled(Jobs(rows), e.workers)[|rows| - 1];
              e.queueWaitTail == round(round(last.start)) && last in e.finalWave
  {
    JobsKeepNonNegative(rows);
    if IsMonotone(round) && IsEstimate(rows, processWorkers, e, round) {
      var items := Scheduled(Jobs(rows), e.workers);
      var latest :| Reports(items, e, latest, round);
      LastIsInWave(Jobs(rows), e.workers, latest, round);
    }
  }

  lemma LastStartIsLatest(jobs: seq<Row>, m: nat, latest: real, round: real -> real)
    requires m > 0 && jobs != [] && NonNegative(Durations(jobs)) && IsMonotone(round)
    requires IsLatestStart(Scheduled(jobs, m), latest, round)
    ensures latest == round(Scheduled(jobs, m)[|jobs| - 1].start)
  {
    var items := Scheduled(jobs, m);
    var i :| 0 <= i < |items| && round(items[i].start) == latest;
    StartsNeverDecrease(Durations(jobs), m, i, |jobs| - 1);
    assert items[i].start <= items[|jobs| - 1].start;
  }

  lemma LastIsInWave(jobs: seq<Row>, m: nat, latest: real, round: real -> real)
    requires m > 0 && jobs != [] && NonNegative(Durations(jobs)) && IsMonotone(round)
    requires IsLatestStart(Scheduled(jobs, m), latest, round)
    ensures var last := Scheduled(jobs, m)[|jobs| - 1];
            latest == round(last.start) && last in FinalWave(Scheduled(jobs, m), latest, round)
  {
    LastStartIsLatest(jobs, m, latest, round);
    var items := Scheduled(jobs, m);
    assert items[|jobs| - 1] in items;
  }

  ghost predicate Abut(items: seq<Item>) {
    && (items != [] ==> items[0].start == 0.0)
    && (forall k :: 0 <= k < |items| - 1 ==> items[k].finish == items[k + 1].start)
  }

  function TotalDuration(items: seq<Item>): real {
    if items == [] then 0.0 else TotalDuration(items[..|items| - 1]) + Duration(items[|items| - 1].row)
  }

  /** A gapless run of jobs from 0 until `free`. */
  ghost predicate RunsUntil(items: seq<Item>, free: real) {
    && Abut(items)
    && TotalDuration(items) == free
    && (items == [] ==> free == 0.0)
    && (items != [] ==> items[|items| - 1].finish == free)
  }

  lemma RunsOneLonger(items: seq<Item>, free: real, item: Item)
    requires RunsUntil(items, free) && item.start == free && item.finish == free + Duration(item.row)
    ensures RunsUntil(items + [item], item.finish)
  {
    assert (items + [item])[..|items|] == items;
  }

  lemma SlotStep(items: seq<Item>, avail: seq<real>, item: Item, s: nat)
    requires s < |avail| && item.slot < |avail|
    requires item.start == avail[item.slot] && item.finish == item.start + Duration(item.row)
    requires RunsUntil(JobsOn(items, s), avail[s])
    ensures RunsUntil(JobsOn(items + [item], s), avail[item.slot := item.finish][s])
  {
    JobsOnOneMore(items, item, s);
    if item.slot == s {
      RunsOneLonger(JobsOn(items, s), item.start, item);
      assert JobsOn(items + [item], s) == JobsOn(items, s) + [item];
    } else {
      assert JobsOn(items + [item], s) == JobsOn(items, s);
    }
  }

  /** Each slot's jobs run back to back from 0 and end when the slot becomes free. */
  lemma {:induction false} SlotRunsBackToBack(jobs: seq<Row>, m: nat, s: nat)
    requires m > 0 && s < m
    ensures RunsUntil(JobsOn(Scheduled(jobs, m), s), Greedy(Durations(jobs), m).avail[s])
  {
    if jobs != [] {
      var n := |jobs| - 1;
      var p := Greedy(Durations(jobs[..n]), m);
      SlotRunsBackToBack(jobs[..n], m, s);
      ScheduleLast(jobs, m);
      SlotStep(Scheduled(jobs[..n], m), p.avail, NextItem(p, jobs[n]), s);
    }
  }

  /** The reported critical path is one slot's gapless run, and its durations add up to the makespan. */
  lemma CriticalPathSumsToMakespan(rows: seq<Row>, processWorkers: int, e: Estimate, round: real -> real)
    requires rows != []
    ensures IsEstimate(rows, processWorkers, e, round) ==>
              Abut(e.criticalPath) && TotalDuration(e.criticalPath) == e.makespan
    ensures IsEstimate(rows, processWorkers, e, round) && e.criticalPath != [] ==>
              e.criticalPath[|e.criticalPath| - 1].finish == e.makespan
  {
    if IsEstimate(rows, processWorkers, e, round) {
      SlotRunsBackToBack(Jobs(rows), e.workers, e.criticalSlot);
      AvailIsLoad(Durations(Jobs(rows)), e.workers, e.criticalSlot);
    }
  }

  // ----- per-timeframe totals

  datatype Group = Group(timeframe: string, workers: nat, total: real, average: real, longest: real)

  /** The distinct timeframes of the rows, in string order. */
  function Timeframes(rows: seq<Row>): (r: seq<string>)
    ensures forall i :: 0 <= i < |rows| ==> rows[i].timeframe in r
    ensures forall x :: x in r ==> exists i :: 0 <= i < |rows| && rows[i].timeframe == x
  {
    if rows == [] then []
    else
      var n := |rows| - 1;
      var r := Insert(rows[n].timeframe, Timeframes(rows[..n]), StringLess);
      assert forall i :: 0 <= i < n ==> rows[i].timeframe == rows[..n][i].timeframe;
      r
  }

  lemma {:induction false} TimeframesSorted(rows: seq<Row>)
    ensures StrictlySorted(Timeframes(rows), StringLess)
  {
    if rows != [] {
      StringsAreOrdered();
      TimeframesSorted(rows[..|rows| - 1]);
      InsertSorted(rows[|rows| - 1].timeframe, Timeframes(rows[..|rows| - 1]), StringLess);
    }
  }

  function RowsOf(rows: seq<Row>, t: string): (r: seq<Row>)
    ensures forall x :: x in r <==> x in rows && x.timeframe == t
  {
    if rows == [] then []
    else
      var n := |rows| - 1;
      assert rows == rows[..n] + [rows[n]];
      RowsOf(rows[..n], t) + if rows[n].timeframe == t then [rows[n]] else []
  }

  /** The figures of one group of durations. */
  function Figures(t: string, ds: seq<real>): Group {
    if ds == [] then Group(t, 0, 0.0, 0.0, 0.0)
    else Group(t, |ds|, Sum(ds), Sum(ds) / |ds| as real, ds[LatestSlot(ds)])
  }

  function GroupOf(rows: seq<Row>, t: string): Group {
    Figures(t, Durations(RowsOf(rows, t)))
  }

  function GroupedTotal(gs: seq<Group>): real {
    if gs == [] then 0.0 else GroupedTotal(gs[..|gs| - 1]) + gs[|gs| - 1].total
  }

  function GroupedWorkers(gs: seq<Group>): nat {
    if gs == [] then 0 else GroupedWorkers(gs[..|gs| - 1]) + gs[|gs| - 1].workers
  }

  function GroupsFor(rows: seq<Row>, ts: seq<string>): seq<Group> {
    seq(|ts|, i requires 0 <= i < |ts| => GroupOf(rows, ts[i]))
  }

  lemma RowsOfOneMore(rows: seq<Row>, t: string)
    requires rows != []
    ensures var n := |rows| - 1;
            var mine := rows[n].timeframe == t;
            && GroupOf(rows, t).total == GroupOf(rows[..n], t).total + (if mine then Duration(rows[n]) else 0.0)
            && GroupOf(rows, t).workers == GroupOf(rows[..n], t).workers + if mine then 1 else 0
  {
    var n := |rows| - 1;
    var before, after := RowsOf(rows[..n], t), RowsOf(rows, t);
    if rows[n].timeframe == t {
      assert Durations(after)[..|before|] == Durations(before);
    } else {
      assert after == before;
    }
  }

  lemma GroupsForPrefix(rows: seq<Row>, ts: seq<string>)
    requires ts != []
    ensures var k := |ts| - 1;
            && GroupedTotal(GroupsFor(rows, ts)) == GroupedTotal(GroupsFor(rows, ts[..k])) + GroupOf(rows, ts[k]).total
            && GroupedWorkers(GroupsFor(rows, ts))
               == GroupedWorkers(GroupsFor(rows, ts[..k])) + GroupOf(rows, ts[k]).workers
  {
    assert GroupsFor(rows, ts)[..|ts| - 1] == GroupsFor(rows, ts[..|ts| - 1]);
  }

  /** Adding a row changes exactly the group of its own timeframe. */
  lemma {:induction false} GroupsGrowByOneRow(rows: seq<Row>, ts: seq<string>)
    requires rows != [] && StrictlySorted(ts, StringLess)
    ensures var last, old' := rows[|rows| - 1], rows[..|rows| - 1];
            && GroupedTotal(GroupsFor(rows, ts))
               == GroupedTotal(GroupsFor(old', ts)) + (if last.timeframe in ts then Duration(last) else 0.0)
            && GroupedWorkers(GroupsFor(rows, ts))
               == GroupedWorkers(GroupsFor(old', ts)) + if last.timeframe in ts then 1 else 0
    decreases |ts|
  {
    if ts != [] {
      var n, k := |rows| - 1, |ts| - 1;
      GroupsGrowByOneRow(rows, ts[..k]);
      GroupsForPrefix(rows, ts);
      GroupsForPrefix(rows[..n], ts);
      RowsOfOneMore(rows, ts[k]);
      LastIsNew(ts, rows[n].timeframe);
    }
  }

  lemma LastIsNew(ts: seq<string>, t: string)
    requires ts != [] && StrictlySorted(ts, StringLess)
    ensures ts[|ts| - 1] !in ts[..|ts| - 1]
    ensures t in ts <==> t == ts[|ts| - 1] || t in ts[..|ts| - 1]
  {
    var k := |ts| - 1;
    assert ts == ts[..k] + [ts[k]];
    forall j | 0 <= j < k
      ensures ts[j] != ts[k]
    {
      StringLessTotal(ts[j], ts[k]);
    }
  }

  lemma {:induction false} EmptyGroups(ts: seq<string>)
    ensures GroupedTotal(GroupsFor([], ts)) == 0.0 && GroupedWorkers(GroupsFor([], ts)) == 0
  {
    if ts != [] {
      EmptyGroups(ts[..|ts| - 1]);
      assert GroupsFor([], ts)[..|ts| - 1] == GroupsFor([], ts[..|ts| - 1]);
    }
  }

  lemma SumOneMore(rows: seq<Row>)
    requires rows != []
    ensures var n := |rows| - 1;
            Sum(Durations(rows)) == Sum(Durations(rows[..n])) + Duration(rows[n])
  {
    assert Durations(rows)[..|rows| - 1] == Durations(rows[..|rows| - 1]);
  }

  /** Any distinct timeframes covering the rows share out all rows and all seconds. */
  lemma {:induction false} GroupingConserves(rows: seq<Row>, ts: seq<string>)
    requires StrictlySorted(ts, StringLess)
    requires forall i :: 0 <= i < |rows| ==> rows[i].timeframe in ts
    ensures GroupedTotal(GroupsFor(rows, ts)) == Sum(Durations(rows))
    ensures GroupedWorkers(GroupsFor(rows, ts)) == |rows|
  {
    if rows == [] {
      EmptyGroups(ts);
    } else {
      var n := |rows| - 1;
      assert forall i :: 0 <= i < n ==> rows[..n][i].timeframe in ts;
      GroupingConserves(rows[..n], ts);
      GroupsGrowByOneRow(rows, ts);
      SumOneMore(rows);
    }
  }

  /** What the table promises: nothing lost, nothing counted twice, one row per timeframe, sorted. */
  ghost predicate SharesOut(rows: seq<Row>, groups: seq<Group>) {
    && GroupedTotal(groups) == Sum(Durations(rows))
    && GroupedWorkers(groups) == |rows|
    && (forall i, j :: 0 <= i < j < |groups| ==> StringLess(groups[i].timeframe, groups[j].timeframe))
  }

  lemma TimeframeTableSharesOut(rows: seq<Row>)
    ensures SharesOut(rows, GroupsFor(rows, Timeframes(rows)))
  {
    TimeframesSorted(rows);
    GroupingConserves(rows, Timeframes(rows));
  }

  ghost predicate AreFiguresOf(g: Group, ds: seq<real>) {
    && g.workers == |ds| > 0 && g.total == Sum(ds)
    && g.average * g.workers as real == g.total
    && g.longest in ds && (forall i :: 0 <= i < |ds| ==> ds[i] <= g.longest)
  }

  /** The group's figures are those of the rows of its timeframe. */
  ghost predicate Summarises(g: Group, rows: seq<Row>) {
    AreFiguresOf(g, Durations(RowsOf(rows, g.timeframe)))
  }

  lemma MeanTimesCount(total: real, n: nat)
    requires n > 0
    ensures total / n as real * n as real == total
  {
  }

  lemma FiguresAreRight(t: string, ds: seq<real>)
    requires ds != []
    ensures AreFiguresOf(Figures(t, ds), ds)
  {
    MeanTimesCount(Sum(ds), |ds|);
  }

  lemma TableSummarises(rows: seq<Row>, i: nat)
    requires i < |Timeframes(rows)|
    ensures Summarises(GroupOf(rows, Timeframes(rows)[i]), rows)
  {
    var t := Timeframes(rows)[i];
    assert t in Timeframes(rows);
    var k: nat :| k < |rows| && rows[k].timeframe == t;
    assert rows[k] in rows && rows[k] in RowsOf(rows, t);
    FiguresAreRight(t, Durations(RowsOf(rows, t)));
  }

  lemma TableIsRight(rows: seq<Row>)
    ensures var groups := GroupsFor(rows, Timeframes(rows));
            && SharesOut(rows, groups)
            && forall i :: 0 <= i < |groups| ==> Summarises(groups[i], rows)
  {
    TimeframeTableSharesOut(rows);
    forall i: nat | i < |Timeframes(rows)|
      ensures Summarises(GroupsFor(rows, Timeframes(rows))[i], rows)
    {
      TableSummarises(rows, i);
    }
  }

  lemma OneMoreGroup(rows: seq<Row>, ts: seq<string>, i: nat)
    requires i < |ts|
    ensures GroupsFor(rows, ts[..i + 1]) == GroupsFor(rows, ts[..i]) + [GroupOf(rows, ts[i])]
  {
  }

  /** The per-timeframe table of the benchmark summary. */
  method ByTimeframe(rows: seq<Row>) returns (groups: seq<Group>)
    ensures groups == GroupsFor(rows, Timeframes(rows))
    ensures SharesOut(rows, groups)
    ensures forall i :: 0 <= i < |groups| ==> Summarises(groups[i], rows)
  {
    var timeframes := Timeframes(rows);
    groups := [];
    for i := 0 to |timeframes|
      invariant groups == GroupsFor(rows, timeframes[..i])
    {
      OneMoreGroup(rows, timeframes, i);
      groups := groups + [GroupOf(rows, timeframes[i])];
    }
    assert timeframes[..|timeframes|] == timeframes;
    TableIsRight(rows);
  }
}
