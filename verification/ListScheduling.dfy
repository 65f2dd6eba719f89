/**
  The value-level specification of the greedy queue estimate: every job goes, in
  submission order, to the slot that becomes free first (lowest index on ties).
  Durations are exact reals. Everything is stated over sequences, so the lemmas
  compare the greedy plan with every other assignment of the same jobs.
  */
module ListScheduling {

  /** What the greedy loop has decided so far: job i runs on `slots[i]` from `starts[i]`. */
  datatype Plan = Plan(slots: seq<nat>, starts: seq<real>, avail: seq<real>)

  predicate NonNegative(ds: seq<real>) {
    forall i :: 0 <= i < |ds| ==> 0.0 <= ds[i]
  }

  function Sum(ds: seq<real>): (r: real) {
    if ds == [] then 0.0 else Sum(ds[..|ds| - 1]) + ds[|ds| - 1]
  }

  /** The longest job, 0 for no jobs. */
  function Longest(ds: seq<real>): (r: real) {
    if ds == [] then 0.0
    else
      var rest := Longest(ds[..|ds| - 1]);
      var last := ds[|ds| - 1];
      if rest < last then last else rest
  }

  lemma {:induction false} LongestIsLongest(ds: seq<real>)
    ensures 0.0 <= Longest(ds)
    ensures forall i :: 0 <= i < |ds| ==> ds[i] <= Longest(ds)
    ensures Longest(ds) == 0.0 || Longest(ds) in ds
  {
    if ds != [] {
      var rest := ds[..|ds| - 1];
      LongestIsLongest(rest);
      assert forall i :: 0 <= i < |rest| ==> ds[i] == rest[i];
    }
  }

  /** The first index holding a smallest value. */
  function EarliestSlot(avail: seq<real>): (r: nat)
    requires |avail| > 0
    ensures r < |avail|
    ensures forall s :: 0 <= s < |avail| ==> avail[r] <= avail[s]
    ensures forall s :: 0 <= s < r ==> avail[r] < avail[s]
  {
    if |avail| == 1 then 0
    else
      var n := |avail| - 1;
      var best := EarliestSlot(avail[..n]);
      if avail[n] < avail[best] then n else best
  }

  /** The first index holding a largest value. */
  function LatestSlot(avail: seq<real>): (r: nat)
    requires |avail| > 0
    ensures r < |avail|
    ensures forall s :: 0 <= s < |avail| ==> avail[s] <= avail[r]
    ensures forall s :: 0 <= s < r ==> avail[s] < avail[r]
  {
    if |avail| == 1 then 0
    else
      var n := |avail| - 1;
      var best := LatestSlot(avail[..n]);
      if avail[best] < avail[n] then n else best
  }

  function Greedy(ds: seq<real>, m: nat): (p: Plan)
    requires m > 0
    ensures |p.slots| == |p.starts| == |ds|
    ensures |p.avail| == m
    ensures forall i :: 0 <= i < |ds| ==> p.slots[i] < m
  {
    if ds == [] then Plan([], [], seq(m, _ => 0.0))
    else
      var p := Greedy(ds[..|ds| - 1], m);
      var s := EarliestSlot(p.avail);
      Plan(p.slots + [s], p.starts + [p.avail[s]], p.avail[s := p.avail[s] + ds[|ds| - 1]])
  }

  /** The work an assignment puts on one slot. */
  function Load(ds: seq<real>, a: seq<nat>, s: nat): (r: real)
    requires |a| == |ds|
  {
    if ds == [] then 0.0
    else
      var n := |ds| - 1;
      Load(ds[..n], a[..n], s) + if a[n] == s then ds[n] else 0.0
  }

  /** The largest load of an assignment over `m` slots. */
  function Makespan(ds: seq<real>, a: seq<nat>, m: nat): (r: real)
    requires |a| == |ds| && m > 0
    ensures forall s :: 0 <= s < m ==> Load(ds, a, s) <= r
    ensures exists s :: 0 <= s < m && Load(ds, a, s) == r
  {
    if m == 1 then Load(ds, a, 0)
    else
      var rest := Makespan(ds, a, m - 1);
      var last := Load(ds, a, m - 1);
      if rest < last then last else rest
  }

  predicate IsAssignment(ds: seq<real>, a: seq<nat>, m: nat) {
    |a| == |ds| && forall i :: 0 <= i < |a| ==> a[i] < m
  }

  /** The loads of the first `k` slots, added up. */
  function LoadSum(ds: seq<real>, a: seq<nat>, k: nat): (r: real)
    requires |a| == |ds|
  {
    if k == 0 then 0.0 else LoadSum(ds, a, k - 1) + Load(ds, a, k - 1)
  }

  // ----- prefixes

  lemma GreedyPrefix(ds: seq<real>, m: nat, k: nat)
    requires m > 0 && k <= |ds|
    ensures Greedy(ds[..k], m).slots == Greedy(ds, m).slots[..k]
    ensures Greedy(ds[..k], m).starts == Greedy(ds, m).starts[..k]
    decreases |ds|
  {
    if k < |ds| {
      var n := |ds| - 1;
      assert ds[..n][..k] == ds[..k];
      GreedyPrefix(ds[..n], m, k);
    } else {
      assert ds[..k] == ds;
    }
  }

  // ----- conservation

  /** A slot's clock is the work placed on it: no gap, no overlap. */
  lemma {:induction false} AvailIsLoad(ds: seq<real>, m: nat, s: nat)
    requires m > 0 && s < m
    ensures Greedy(ds, m).avail[s] == Load(ds, Greedy(ds, m).slots, s)
  {
    if ds != [] {
      var n := |ds| - 1;
      AvailIsLoad(ds[..n], m, s);
      assert Greedy(ds, m).slots[..n] == Greedy(ds[..n], m).slots;
    }
  }

  lemma LoadSumStep(ds: seq<real>, a: seq<nat>, k: nat)
    requires |a| == |ds| > 0
    ensures LoadSum(ds, a, k) ==
            LoadSum(ds[..|ds| - 1], a[..|ds| - 1], k) + if a[|ds| - 1] < k then ds[|ds| - 1] else 0.0
  {
  }

  /** The slots partition the jobs: whatever the assignment, the loads add up to all the work. */
  lemma {:induction false} LoadsPartitionTheWork(ds: seq<real>, a: seq<nat>, m: nat)
    requires IsAssignment(ds, a, m)
    ensures LoadSum(ds, a, m) == Sum(ds)
  {
    if ds == [] {
      NoLoadWithoutJobs(m);
    } else {
      var n := |ds| - 1;
      LoadsPartitionTheWork(ds[..n], a[..n], m);
      LoadSumStep(ds, a, m);
    }
  }

  lemma NoLoadWithoutJobs(k: nat)
    ensures LoadSum([], [], k) == 0.0
  {
  }

  /** `x` added `k` times; keeps the bounds below linear. */
  function Multiple(k: nat, x: real): (r: real) {
    if k == 0 then 0.0 else Multiple(k - 1, x) + x
  }

  lemma {:induction false} MultipleIsProduct(k: nat, x: real)
    ensures Multiple(k, x) == k as real * x
  {
    if k > 0 {
      MultipleIsProduct(k - 1, x);
      assert k as real * x == (k - 1) as real * x + x;
    }
  }

  lemma {:induction false} MultipleOfSum(k: nat, x: real, y: real)
    ensures Multiple(k, x + y) == Multiple(k, x) + Multiple(k, y)
  {
    if k > 0 {
      MultipleOfSum(k - 1, x, y);
    }
  }

  lemma MultipleGrows(k: nat, x: real, y: real)
    requires x <= y
    ensures Multiple(k, x) <= Multiple(k, y)
  {
  }

  lemma LoadSumAtMost(ds: seq<real>, a: seq<nat>, k: nat, bound: real)
    requires |a| == |ds|
    requires forall s :: 0 <= s < k ==> Load(ds, a, s) <= bound
    ensures LoadSum(ds, a, k) <= Multiple(k, bound)
  {
  }

  lemma LoadSumAtLeast(ds: seq<real>, a: seq<nat>, k: nat, bound: real)
    requires |a| == |ds|
    requires forall s :: 0 <= s < k ==> bound <= Load(ds, a, s)
    ensures Multiple(k, bound) <= LoadSum(ds, a, k)
  {
  }

  // ----- work conservation

  /** Job i starts when its slot has finished everything placed on it before, back to back from 0. */
  lemma JobsAbut(ds: seq<real>, m: nat, i: nat)
    requires m > 0 && i < |ds|
    ensures var p := Greedy(ds, m);
            p.starts[i] == Load(ds[..i], p.slots[..i], p.slots[i])
  {
    GreedyPrefix(ds, m, i);
    GreedyPrefix(ds, m, i + 1);
    assert ds[..i + 1][..i] == ds[..i];
    var before := Greedy(ds[..i], m);
    var after := Greedy(ds[..i + 1], m);
    assert after.slots[i] == Greedy(ds, m).slots[i];
    assert after.starts[i] == Greedy(ds, m).starts[i];
    AvailIsLoad(ds[..i], m, EarliestSlot(before.avail));
  }

  /** No slot sits idle before a job's start: each already has at least that much work. */
  lemma NoSlotFreeEarlier(ds: seq<real>, m: nat, i: nat, s: nat)
    requires m > 0 && i < |ds| && s < m
    ensures var p := Greedy(ds, m);
            p.starts[i] <= Load(ds[..i], p.slots[..i], s)
            && (p.starts[i] == Load(ds[..i], p.slots[..i], s) ==> p.slots[i] <= s)
  {
    GreedyPrefix(ds, m, i);
    GreedyPrefix(ds, m, i + 1);
    assert ds[..i + 1][..i] == ds[..i];
    var before := Greedy(ds[..i], m);
    var after := Greedy(ds[..i + 1], m);
    assert after.slots[i] == Greedy(ds, m).slots[i];
    assert after.starts[i] == Greedy(ds, m).starts[i];
    AvailIsLoad(ds[..i], m, s);
  }

  lemma LoadGrows(ds: seq<real>, a: seq<nat>, i: nat, s: nat)
    requires NonNegative(ds) && |a| == |ds| && i <= |ds|
    ensures Load(ds[..i], a[..i], s) <= Load(ds, a, s)
  {
    if i < |ds| {
      var n := |ds| - 1;
      assert ds[..n][..i] == ds[..i] && a[..n][..i] == a[..i];
      LoadGrows(ds[..n], a[..n], i, s);
    } else {
      assert ds[..i] == ds && a[..i] == a;
    }
  }

  /** Jobs start in submission order. */
  lemma StartsNeverDecrease(ds: seq<real>, m: nat, i: nat, j: nat)
    requires m > 0 && NonNegative(ds) && i <= j < |ds|
    ensures Greedy(ds, m).starts[i] <= Greedy(ds, m).starts[j]
  {
    var p := Greedy(ds, m);
    var s := p.slots[j];
    NoSlotFreeEarlier(ds, m, i, s);
    JobsAbut(ds, m, j);
    assert ds[..j][..i] == ds[..i] && p.slots[..j][..i] == p.slots[..i];
    LoadGrows(ds[..j], p.slots[..j], i, s);
  }

  /** Slot loads never differ by more than the longest job. */
  lemma {:induction false} LoadsBalanced(ds: seq<real>, m: nat, s: nat, t: nat)
    requires m > 0 && NonNegative(ds) && s < m && t < m
    ensures Greedy(ds, m).avail[s] <= Greedy(ds, m).avail[t] + Longest(ds)
  {
    if ds != [] {
      var n := |ds| - 1;
      LoadsBalanced(ds[..n], m, s, t);
      LongestIsLongest(ds);
    }
  }

  // ----- Graham's bound

  /** Placing job d on a slot no busier than the average. */
  lemma PlaceOnEarliest(m: nat, start: real, d: real, before: real, longest: real)
    requires m > 0 && Multiple(m, start) <= before && d <= longest
    ensures Multiple(m, start + d) <= before + d + Multiple(m - 1, longest)
  {
    MultipleOfSum(m, start, d);
    MultipleGrows(m - 1, d, longest);
  }

  /** Graham (1966): m slots finish within total/m plus (1 - 1/m) of the longest job. */
  lemma {:induction false} GreedySlotBound(ds: seq<real>, m: nat, s: nat)
    requires m > 0 && NonNegative(ds) && s < m
    ensures Multiple(m, Greedy(ds, m).avail[s]) <= Sum(ds) + Multiple(m - 1, Longest(ds))
  {
    if ds == [] {
    } else {
      var before := ds[..|ds| - 1];
      GreedySlotBound(before, m, s);
      EarliestAtMostAverage(before, m);
      LastPlacement(ds, m);
      BoundStep(Greedy(before, m).avail, m, s, Sum(before), ds[|ds| - 1], Longest(before), Longest(ds));
    }
  }

  function PutOnEarliest(avail: seq<real>, d: real): seq<real>
    requires |avail| > 0
  {
    var q := EarliestSlot(avail);
    avail[q := avail[q] + d]
  }

  lemma LastPlacement(ds: seq<real>, m: nat)
    requires m > 0 && ds != []
    ensures var n := |ds| - 1; Greedy(ds, m).avail == PutOnEarliest(Greedy(ds[..n], m).avail, ds[n])
  {
  }

  /** The bound on slot s survives one more job d, wherever it goes. */
  lemma BoundStep(avail: seq<real>, m: nat, s: nat, total: real, d: real, longest: real, longest': real)
    requires m == |avail| > 0 && s < m
    requires 0.0 <= d <= longest' && longest <= longest'
    requires Multiple(m, avail[s]) <= total + Multiple(m - 1, longest)
    requires Multiple(m, avail[EarliestSlot(avail)]) <= total
    ensures Multiple(m, PutOnEarliest(avail, d)[s]) <= total + d + Multiple(m - 1, longest')
  {
    MultipleGrows(m - 1, longest, longest');
    if s == EarliestSlot(avail) {
      PlaceOnEarliest(m, avail[s], d, total, longest');
    }
  }

  /** The slot the greedy loop picks is no busier than the average. */
  lemma EarliestAtMostAverage(ds: seq<real>, m: nat)
    requires m > 0
    ensures var p := Greedy(ds, m); Multiple(m, p.avail[EarliestSlot(p.avail)]) <= Sum(ds)
  {
    var p := Greedy(ds, m);
    var start := p.avail[EarliestSlot(p.avail)];
    forall t: nat | t < m
      ensures start <= Load(ds, p.slots, t)
    {
      AvailIsLoad(ds, m, t);
    }
    LoadSumAtLeast(ds, p.slots, m, start);
    LoadsPartitionTheWork(ds, p.slots, m);
  }

  lemma GreedyMakespanBound(ds: seq<real>, m: nat)
    requires m > 0 && NonNegative(ds)
    ensures Multiple(m, Makespan(ds, Greedy(ds, m).slots, m)) <= Sum(ds) + Multiple(m - 1, Longest(ds))
  {
    var a := Greedy(ds, m).slots;
    var s :| 0 <= s < m && Load(ds, a, s) == Makespan(ds, a, m);
    AvailIsLoad(ds, m, s);
    GreedySlotBound(ds, m, s);
  }

  /** No assignment whatsoever beats the average load or the longest job. */
  lemma EveryAssignmentLowerBound(ds: seq<real>, a: seq<nat>, m: nat)
    requires m > 0 && NonNegative(ds) && IsAssignment(ds, a, m)
    ensures Sum(ds) <= Multiple(m, Makespan(ds, a, m))
    ensures Longest(ds) <= Makespan(ds, a, m)
  {
    LoadsPartitionTheWork(ds, a, m);
    LoadSumAtMost(ds, a, m, Makespan(ds, a, m));
    LoadNonNegative(ds, a, 0);
    LongestIsLongest(ds);
    if Longest(ds) in ds {
      var i :| 0 <= i < |ds| && ds[i] == Longest(ds);
      JobWithinLoad(ds, a, i);
    }
  }

  lemma LoadNonNegative(ds: seq<real>, a: seq<nat>, s: nat)
    requires NonNegative(ds) && |a| == |ds|
    ensures 0.0 <= Load(ds, a, s)
  {
  }

  lemma JobWithinLoad(ds: seq<real>, a: seq<nat>, i: nat)
    requires NonNegative(ds) && |a| == |ds| && i < |ds|
    ensures ds[i] <= Load(ds, a, a[i])
  {
    LoadGrows(ds, a, i + 1, a[i]);
    assert ds[..i + 1][..i] == ds[..i] && a[..i + 1][..i] == a[..i];
    LoadNonNegative(ds[..i], a[..i], a[i]);
  }

  /** Graham's inequalities between the greedy makespan and another one, in products. */
  ghost predicate GrahamBounds(m: nat, greedy: real, other: real, total: real, longest: real)
    requires m > 0
  {
    && m as real * greedy <= total + (m - 1) as real * longest
    && m as real * greedy <= (2 * m - 1) as real * other
    && total <= m as real * other
    && longest <= other
  }

  /**
    The estimate against any assignment `a` of the same jobs: m * greedy <= total + (m-1) * longest,
    hence m * greedy <= (2m - 1) * other; and no assignment falls below total/m or the longest job.
    */
  lemma GreedyWithinTwiceAnyAssignment(ds: seq<real>, m: nat, a: seq<nat>)
    requires m > 0 && NonNegative(ds) && IsAssignment(ds, a, m)
    ensures GrahamBounds(m, Makespan(ds, Greedy(ds, m).slots, m), Makespan(ds, a, m), Sum(ds), Longest(ds))
  {
    GreedyMakespanBound(ds, m);
    EveryAssignmentLowerBound(ds, a, m);
    RatioFromBounds(m, Makespan(ds, Greedy(ds, m).slots, m), Makespan(ds, a, m), Sum(ds), Longest(ds));
  }

  lemma RatioFromBounds(m: nat, greedy: real, other: real, total: real, longest: real)
    requires m > 0
    requires Multiple(m, greedy) <= total + Multiple(m - 1, longest)
    requires total <= Multiple(m, other) && longest <= other
    ensures GrahamBounds(m, greedy, other, total, longest)
  {
    MultipleIsProduct(m, greedy);
    MultipleIsProduct(m - 1, longest);
    MultipleGrows(m - 1, longest, other);
    MultipleOfCounts(m, m - 1, other);
    assert Multiple(m, greedy) <= Multiple(2 * m - 1, other);
    MultipleIsProduct(m, other);
    MultipleIsProduct(2 * m - 1, other);
  }

  lemma {:induction false} MultipleOfCounts(j: nat, k: nat, x: real)
    ensures Multiple(j + k, x) == Multiple(j, x) + Multiple(k, x)
  {
    if k > 0 {
      MultipleOfCounts(j, k - 1, x);
    }
  }

  // ----- the bound cannot be improved, for any number of slots

  function Units(k: nat): (r: seq<real>) {
    seq(k, _ => 1.0)
  }

  /** m blocks of m-1 unit jobs, then one job of length m. */
  function WorstJobs(m: nat): seq<real>
    requires m > 0
  {
    Units(m * (m - 1)) + [m as real]
  }

  /** `rounds` full rounds and `extra` more unit jobs: the first `extra` slots are one ahead. */
  lemma {:induction false} UnitsGoRoundRobin(k: nat, m: nat, rounds: nat, extra: nat, s: nat)
    requires m > 0 && s < m && extra < m && k == m * rounds + extra
    ensures Greedy(Units(k), m).avail[s] == rounds as real + if s < extra then 1.0 else 0.0
    decreases k
  {
    if k > 0 {
      var n := k - 1;
      assert Units(k)[..n] == Units(n);
      var avail := Greedy(Units(n), m).avail;
      if extra > 0 {
        forall t: nat | t < m
          ensures avail[t] == rounds as real + if t < extra - 1 then 1.0 else 0.0
        {
          UnitsGoRoundRobin(n, m, rounds, extra - 1, t);
        }
        FirstMinimum(avail, extra - 1);
      } else {
        OneRoundLess(m, rounds);
        forall t: nat | t < m
          ensures avail[t] == (rounds - 1) as real + if t < m - 1 then 1.0 else 0.0
        {
          UnitsGoRoundRobin(n, m, rounds - 1, m - 1, t);
        }
        FirstMinimum(avail, m - 1);
      }
    } else {
      NoRoundsYet(m, rounds, extra);
    }
  }

  lemma OneRoundLess(m: nat, rounds: nat)
    requires m > 0 && m * rounds > 0
    ensures rounds > 0 && m * rounds - 1 == m * (rounds - 1) + (m - 1)
  {
  }

  lemma NoRoundsYet(m: nat, rounds: nat, extra: nat)
    requires m > 0 && m * rounds + extra == 0
    ensures rounds == 0 && extra == 0
  {
  }

  lemma FirstMinimum(avail: seq<real>, i: nat)
    requires i < |avail|
    requires forall s :: 0 <= s < |avail| ==> avail[i] <= avail[s]
    requires forall s :: 0 <= s < i ==> avail[i] < avail[s]
    ensures EarliestSlot(avail) == i
  {
  }

  lemma WorstGreedyMakespan(m: nat)
    requires m > 0
    ensures var ds := WorstJobs(m);
            Makespan(ds, Greedy(ds, m).slots, m) == 2.0 * m as real - 1.0
  {
    var k := m * (m - 1);
    var ds := WorstJobs(m);
    assert ds[..k] == Units(k);
    var p := Greedy(Units(k), m);
    forall s: nat | s < m
      ensures p.avail[s] == (m - 1) as real
    {
      UnitsGoRoundRobin(k, m, m - 1, 0, s);
    }
    var after := Greedy(ds, m);
    forall s: nat | s < m
      ensures Load(ds, after.slots, s) == after.avail[s]
    {
      AvailIsLoad(ds, m, s);
    }
    var q := EarliestSlot(p.avail);
    assert Load(ds, after.slots, q) == 2.0 * m as real - 1.0;
  }

  /** The better assignment: m unit jobs on each of the first m-1 slots, the long job alone on the last. */
  function BestSlots(m: nat): (a: seq<nat>)
    requires m > 0
  {
    Blocks(m, m - 1) + [m - 1]
  }

  /** `m` copies of each of 0, 1, .., b-1. */
  function Blocks(m: nat, b: nat): (a: seq<nat>)
    ensures |a| == m * b
    ensures forall i :: 0 <= i < |a| ==> a[i] < b
  {
    if b == 0 then [] else Blocks(m, b - 1) + seq(m, _ => b - 1)
  }

  lemma {:induction false} BlockLoad(m: nat, b: nat, s: nat)
    ensures Load(Units(m * b), Blocks(m, b), s) == if s < b then m as real else 0.0
  {
    if b > 0 {
      var n := m * (b - 1);
      BlockLoad(m, b - 1, s);
      BlockTail(Blocks(m, b - 1), n, m, b - 1, s);
      assert Units(m * b) == Units(n + m);
    }
  }

  /** Appending j unit jobs to slot t. */
  lemma {:induction false} BlockTail(a: seq<nat>, n: nat, j: nat, t: nat, s: nat)
    requires |a| == n
    ensures Load(Units(n + j), a + seq(j, _ => t), s) == Load(Units(n), a, s) + if s == t then j as real else 0.0
    decreases j
  {
    var all := a + seq(j, _ => t);
    if j > 0 {
      BlockTail(a, n, j - 1, t, s);
      assert Units(n + j)[..n + j - 1] == Units(n + (j - 1));
      assert all[..n + j - 1] == a + seq(j - 1, _ => t);
    } else {
      assert all == a && Units(n + j) == Units(n);
    }
  }

  /** For every m there are jobs on which the greedy estimate is exactly 2 - 1/m times another assignment. */
  lemma GreedyBoundIsTight(m: nat)
    requires m > 0
    ensures var ds, a := WorstJobs(m), BestSlots(m);
            && NonNegative(ds)
            && IsAssignment(ds, a, m)
            && Makespan(ds, a, m) == m as real
            && Makespan(ds, Greedy(ds, m).slots, m) == 2.0 * m as real - 1.0
  {
    var k := m * (m - 1);
    var ds, a := WorstJobs(m), BestSlots(m);
    assert ds[..k] == Units(k) && a[..k] == Blocks(m, m - 1);
    forall s: nat | s < m
      ensures Load(ds, a, s) == m as real
    {
      BlockLoad(m, m - 1, s);
    }
    WorstGreedyMakespan(m);
  }
}
