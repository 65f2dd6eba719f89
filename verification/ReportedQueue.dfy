/**
  The estimate of the worker queue read off the rows alone: in which order the rows go, which slot
  each one gets and when, and what of that the estimate reports.
  */
module ReportedQueue {
  import opened Wrappers
  import opened Sorting
  import opened ListScheduling
  import opened WorkerQueue

  // ----- the order of the rows

  ghost function SubmittedAs(rows: seq<Row>, i: nat): int
    requires i < |rows|
  {
    if rows[i].submittedOrder.Some? then rows[i].submittedOrder.value else i
  }

  ghost function Chunk(row: Row): int {
    if row.chunkIndex.Some? then row.chunkIndex.value else 0
  }

  /** By submitted order or else position, then by timeframe, then by chunk, then as listed. */
  ghost predicate SubmittedBefore(rows: seq<Row>, i: nat, j: nat)
    requires i < |rows| && j < |rows|
  {
    if SubmittedAs(rows, i) != SubmittedAs(rows, j) then SubmittedAs(rows, i) < SubmittedAs(rows, j)
    else if rows[i].timeframe != rows[j].timeframe then AlphabeticallyBefore(rows[i].timeframe, rows[j].timeframe)
    else if Chunk(rows[i]) != Chunk(rows[j]) then Chunk(rows[i]) < Chunk(rows[j])
    else i < j
  }

  /** Every position once, each before all that were submitted later. */
  ghost predicate IsSubmissionOrder(rows: seq<Row>, order: seq<nat>) {
    && |order| == |rows|
    && (forall a :: 0 <= a < |order| ==> order[a] < |rows|)
    && (forall a, b :: 0 <= a < b < |order| ==> order[a] != order[b] && SubmittedBefore(rows, order[a], order[b]))
  }

  // ----- the schedule

  ghost function Seconds(row: Row): real {
    if row.elapsed.Some? then row.elapsed.value else 0.0
  }

  /** The seconds the first k items put on a slot. */
  ghost function Booked(items: seq<Item>, k: nat, slot: nat): real
    requires k <= |items|
  {
    if k == 0 then 0.0
    else Booked(items, k - 1, slot) + if items[k - 1].slot == slot then Seconds(items[k - 1].row) else 0.0
  }

  /** The k-th item goes to the first of the slots with the least seconds so far, and runs behind them. */
  ghost predicate GoesToFreest(items: seq<Item>, k: nat, workers: nat)
    requires k < |items|
  {
    var item := items[k];
    && item.slot < workers
    && item.start == Booked(items, k, item.slot)
    && item.finish == item.start + Seconds(item.row)
    && (forall s: nat :: s < workers ==> item.start <= Booked(items, k, s))
    && (forall s: nat :: s < item.slot ==> item.start < Booked(items, k, s))
  }

  ghost predicate IsSchedule(rows: seq<Row>, order: seq<nat>, workers: nat, items: seq<Item>)
    requires IsSubmissionOrder(rows, order)
  {
    && |items| == |rows|
    && (forall k :: 0 <= k < |items| ==> items[k].row == rows[order[k]])
    && (forall k: nat :: k < |items| ==> GoesToFreest(items, k, workers))
  }

  // ----- what is reported of it

  /** As many workers as asked for, at least one and at most one per row. */
  ghost predicate WorkersFor(processWorkers: int, rowCount: nat, workers: nat) {
    && (processWorkers < 1 ==> workers == 1)
    && (1 <= processWorkers <= rowCount ==> workers == processWorkers)
    && (rowCount < processWorkers ==> workers == rowCount)
  }

  ghost predicate IsBusiest(items: seq<Item>, workers: nat, slot: nat, seconds: real) {
    && slot < workers && Booked(items, |items|, slot) == seconds
    && (forall s: nat :: s < workers ==> Booked(items, |items|, s) <= seconds)
    && (forall s: nat :: s < slot ==> Booked(items, |items|, s) < seconds)
  }

  /** `some` are the items at the chosen positions, in order. */
  ghost predicate AreThoseAt(some: seq<Item>, items: seq<Item>, at: seq<nat>, chosen: set<nat>) {
    && |some| == |at|
    && (forall a, b :: 0 <= a < b < |at| ==> at[a] < at[b])
    && (forall i :: i in at <==> i in chosen)
    && (forall a :: 0 <= a < |at| ==> at[a] < |items| && some[a] == items[at[a]])
  }

  ghost function OnSlot(items: seq<Item>, slot: nat): set<nat> {
    set i: nat | i < |items| && items[i].slot == slot
  }

  /** Starting within a millisecond of the latest printed start. */
  ghost function NearLatest(items: seq<Item>, latest: real, round: real -> real): set<nat> {
    set i: nat | i < |items| && -0.001 < round(items[i].start) - latest < 0.001
  }

  ghost predicate IsLatestPrinted(items: seq<Item>, latest: real, round: real -> real) {
    && (exists i :: 0 <= i < |items| && round(items[i].start) == latest)
    && (forall i :: 0 <= i < |items| ==> round(items[i].start) <= latest)
  }

  ghost predicate IsReportOf(e: Estimate, items: seq<Item>, round: real -> real) {
    && IsBusiest(items, e.workers, e.criticalSlot, e.makespan)
    && (exists at :: AreThoseAt(e.criticalPath, items, at, OnSlot(items, e.criticalSlot)))
    && (exists latest, at ::
          && IsLatestPrinted(items, latest, round) && e.queueWaitTail == round(latest)
          && AreThoseAt(e.finalWave, items, at, NearLatest(items, latest, round)))
  }

  // ----- the estimate is such a report

  lemma PrecedesIsSubmittedBefore(rows: seq<Row>, i: nat, j: nat)
    requires i < |rows| && j < |rows| && i != j
    ensures Precedes(rows, i, j) <==> SubmittedBefore(rows, i, j)
  {
    StringLessIff(rows[i].timeframe, rows[j].timeframe);
    StringLessTotal(rows[i].timeframe, rows[j].timeframe);
  }

  lemma InOrderIsSubmissionOrder(rows: seq<Row>, order: seq<nat>)
    requires |order| == |rows| && Indices(rows, order) && InOrder(rows, order)
    ensures IsSubmissionOrder(rows, order)
  {
    InOrderHasNoRepeats(rows, order);
    forall a, b | 0 <= a < b < |order|
      ensures SubmittedBefore(rows, order[a], order[b])
    {
      PrecedesIsSubmittedBefore(rows, order[a], order[b]);
    }
  }

  lemma JobsInOrder(rows: seq<Row>)
    ensures IsSubmissionOrder(rows, SubmissionOrder(rows, |rows|))
  {
    SubmissionOrderIsStableSort(rows, |rows|);
    InOrderIsSubmissionOrder(rows, SubmissionOrder(rows, |rows|));
  }

  lemma JobAt(rows: seq<Row>, k: nat)
    requires k < |rows|
    ensures Jobs(rows)[k] == rows[SubmissionOrder(rows, |rows|)[k]]
  {
  }

  lemma {:induction false} BookedIsLoad(jobs: seq<Row>, m: nat, k: nat, s: nat)
    requires m > 0 && k <= |jobs|
    ensures Booked(Scheduled(jobs, m), k, s) == Load(Durations(jobs)[..k], Greedy(Durations(jobs), m).slots[..k], s)
  {
    var ds, slots := Durations(jobs), Greedy(Durations(jobs), m).slots;
    if k > 0 {
      BookedIsLoad(jobs, m, k - 1, s);
      assert ds[..k][..k - 1] == ds[..k - 1] && slots[..k][..k - 1] == slots[..k - 1];
    }
  }

  lemma EachGoesToFreest(jobs: seq<Row>, m: nat, k: nat)
    requires m > 0 && k < |jobs|
    ensures GoesToFreest(Scheduled(jobs, m), k, m)
  {
    var ds, items := Durations(jobs), Scheduled(jobs, m);
    JobsAbut(ds, m, k);
    BookedIsLoad(jobs, m, k, items[k].slot);
    forall s: nat | s < m
      ensures items[k].start <= Booked(items, k, s)
      ensures s < items[k].slot ==> items[k].start < Booked(items, k, s)
    {
      NoSlotFreeEarlier(ds, m, k, s);
      BookedIsLoad(jobs, m, k, s);
    }
  }

  lemma CriticalIsBusiest(jobs: seq<Row>, m: nat, makespan: real, slot: nat)
    requires m > 0 && IsCritical(Durations(jobs), m, makespan, slot)
    ensures IsBusiest(Scheduled(jobs, m), m, slot, makespan)
  {
    var ds, n := Durations(jobs), |jobs|;
    forall s: nat
      ensures Booked(Scheduled(jobs, m), n, s) == Load(ds, Greedy(ds, m).slots, s)
    {
      BookedIsLoad(jobs, m, n, s);
      assert ds[..n] == ds && Greedy(ds, m).slots[..n] == Greedy(ds, m).slots;
    }
  }

  lemma OneMoreAt(some: seq<Item>, items: seq<Item>, at: seq<nat>, chosen: set<nat>, last: Item)
    requires AreThoseAt(some, items, at, chosen) && forall i :: i in chosen ==> i < |items|
    ensures AreThoseAt(some, items + [last], at, chosen)
    ensures AreThoseAt(some + [last], items + [last], at + [|items|], chosen + {|items|})
  {
    forall a | 0 <= a < |at|
      ensures at[a] < |items|
    {
      assert at[a] in at;
    }
  }

  lemma {:induction false} SlotSelected(items: seq<Item>, slot: nat) returns (at: seq<nat>)
    ensures AreThoseAt(JobsOn(items, slot), items, at, OnSlot(items, slot))
  {
    at := [];
    if items != [] {
      var n := |items| - 1;
      at := SlotSelected(items[..n], slot);
      OneMoreAt(JobsOn(items[..n], slot), items[..n], at, OnSlot(items[..n], slot), items[n]);
      assert items[..n] + [items[n]] == items;
      var last: nat := n;
      assert OnSlot(items, slot) == OnSlot(items[..n], slot) + if items[n].slot == slot then {last} else {};
      if items[n].slot == slot {
        at := at + [n];
      }
    }
  }

  lemma {:induction false} WaveSelected(items: seq<Item>, latest: real, round: real -> real) returns (at: seq<nat>)
    ensures AreThoseAt(FinalWave(items, latest, round), items, at, NearLatest(items, latest, round))
  {
    at := [];
    if items != [] {
      var n := |items| - 1;
      at := WaveSelected(items[..n], latest, round);
      OneMoreAt(FinalWave(items[..n], latest, round), items[..n], at, NearLatest(items[..n], latest, round), items[n]);
      assert items[..n] + [items[n]] == items;
      var last: nat := n;
      var near := -0.001 < round(items[n].start) - latest < 0.001;
      assert NearLatest(items, latest, round) == NearLatest(items[..n], latest, round) + if near then {last} else {};
      if near {
        at := at + [n];
      }
    }
  }

  lemma EstimateReports(items: seq<Item>, e: Estimate, round: real -> real)
    requires IsBusiest(items, e.workers, e.criticalSlot, e.makespan)
    requires e.criticalPath == JobsOn(items, e.criticalSlot) && exists latest :: Reports(items, e, latest, round)
    ensures IsReportOf(e, items, round)
  {
    var path := SlotSelected(items, e.criticalSlot);
    var latest :| Reports(items, e, latest, round);
    var wave := WaveSelected(items, latest, round);
    assert IsLatestPrinted(items, latest, round);
  }

  lemma ScheduledRow(jobs: seq<Row>, m: nat, k: nat)
    requires m > 0 && k < |jobs|
    ensures Scheduled(jobs, m)[k].row == jobs[k]
  {
  }

  lemma SchedulesJobs(rows: seq<Row>, order: seq<nat>, jobs: seq<Row>, m: nat)
    requires m > 0 && IsSubmissionOrder(rows, order) && |jobs| == |rows|
    requires forall k :: 0 <= k < |jobs| ==> jobs[k] == rows[order[k]]
    ensures IsSchedule(rows, order, m, Scheduled(jobs, m))
  {
    var items := Scheduled(jobs, m);
    forall k: nat | k < |items|
      ensures items[k].row == rows[order[k]] && GoesToFreest(items, k, m)
    {
      ScheduledRow(jobs, m, k);
      EachGoesToFreest(jobs, m, k);
    }
  }

  lemma ScheduledRows(rows: seq<Row>, m: nat)
    requires m > 0 && IsSubmissionOrder(rows, SubmissionOrder(rows, |rows|))
    ensures IsSchedule(rows, SubmissionOrder(rows, |rows|), m, Scheduled(Jobs(rows), m))
  {
    forall k: nat | k < |rows|
      ensures Jobs(rows)[k] == rows[SubmissionOrder(rows, |rows|)[k]]
    {
      JobAt(rows, k);
    }
    SchedulesJobs(rows, SubmissionOrder(rows, |rows|), Jobs(rows), m);
  }

  /**
    Every estimate reports the schedule that takes the rows in submission order and gives each to the
    slot that is free first: worker count, makespan, critical slot and path, tail wait and final wave.
    */
  lemma EstimateReportsTheQueue(rows: seq<Row>, processWorkers: int, e: Estimate, round: real -> real)
    returns (order: seq<nat>, items: seq<Item>)
    requires rows != []
    ensures IsEstimate(rows, processWorkers, e, round) ==>
              && IsSubmissionOrder(rows, order) && IsSchedule(rows, order, e.workers, items)
              && WorkersFor(processWorkers, |rows|, e.workers) && IsReportOf(e, items, round)
  {
    order, items := SubmissionOrder(rows, |rows|), [];
    if IsEstimate(rows, processWorkers, e, round) {
      items := Scheduled(Jobs(rows), e.workers);
      JobsInOrder(rows);
      ScheduledRows(rows, e.workers);
      CriticalIsBusiest(Jobs(rows), e.workers, e.makespan, e.criticalSlot);
      EstimateReports(items, e, round);
    }
  }
}
