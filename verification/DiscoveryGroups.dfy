/**
  The automatic repeat groups of the discovery benchmark: recent valid runs are cut into
  stretches of consecutive ids, the stretches into groups of a fixed size, and the newest
  groups not already asked for are kept.
  */
module DiscoveryGroups {

  datatype Row = Row(id: int, windows: int, clusters: int)

  datatype GroupSpec = GroupSpec(title: Label, first: int, last: int)

  /** A caller's own label, or `repeat<index>_<first>_<last>`. */
  datatype Label = Named(name: string) | Repeat(index: nat, first: int, last: int)

  type Span = (int, int)

  predicate IsValidRun(row: Row) {
    row.windows > 0 && row.clusters > 0
  }

  // ----- rows by id

  predicate SortedById(rows: seq<Row>) {
    forall i, j :: 0 <= i < j < |rows| ==> rows[i].id <= rows[j].id
  }

  function InsertRow(row: Row, rows: seq<Row>): (r: seq<Row>)
    ensures multiset(r) == multiset(rows) + multiset{row}
  {
    if rows == [] then [row]
    else if row.id < rows[0].id then [row] + rows
    else
      assert rows == [rows[0]] + rows[1..];
      [rows[0]] + InsertRow(row, rows[1..])
  }

  lemma {:induction false} InsertKeepsSorted(row: Row, rows: seq<Row>)
    requires SortedById(rows)
    ensures SortedById(InsertRow(row, rows))
  {
    if rows != [] && rows[0].id <= row.id {
      InsertKeepsSorted(row, rows[1..]);
      var tail := InsertRow(row, rows[1..]);
      forall j | 0 <= j < |tail|
        ensures rows[0].id <= tail[j].id
      {
        assert tail[j] in multiset(tail);
        assert tail[j] == row || tail[j] in rows[1..];
      }
    }
  }

  /** sorted(rows, key=id): stable, so equal ids keep their order. */
  function SortById(rows: seq<Row>): (r: seq<Row>)
    ensures multiset(r) == multiset(rows)
  {
    if rows == [] then []
    else
      var n := |rows| - 1;
      assert rows == rows[..n] + [rows[n]];
      InsertRow(rows[n], SortById(rows[..n]))
  }

  lemma {:induction false} SortByIdSorts(rows: seq<Row>)
    ensures SortedById(SortById(rows))
  {
    if rows != [] {
      SortByIdSorts(rows[..|rows| - 1]);
      InsertKeepsSorted(rows[|rows| - 1], SortById(rows[..|rows| - 1]));
    }
  }

  function ValidIds(rows: seq<Row>): (ids: seq<int>)
    ensures forall x :: x in ids <==> exists row :: row in rows && IsValidRun(row) && row.id == x
  {
    if rows == [] then []
    else
      var n := |rows| - 1;
      assert rows == rows[..n] + [rows[n]];
      ValidIds(rows[..n]) + if IsValidRun(rows[n]) then [rows[n].id] else []
  }

  predicate Increasing(ids: seq<int>) {
    forall i, j :: 0 <= i < j < |ids| ==> ids[i] < ids[j]
  }

  predicate DistinctIds(rows: seq<Row>) {
    forall i, j :: 0 <= i < j < |rows| ==> rows[i].id != rows[j].id
  }

  lemma {:induction false} ValidIdsIncrease(rows: seq<Row>)
    requires SortedById(rows) && DistinctIds(rows)
    ensures Increasing(ValidIds(rows))
  {
    if rows != [] {
      var n := |rows| - 1;
      ValidIdsIncrease(rows[..n]);
      var ids := ValidIds(rows[..n]);
      forall i | 0 <= i < |ids|
        ensures ids[i] < rows[n].id
      {
        assert ids[i] in ids;
        var row :| row in rows[..n] && row.id == ids[i];
      }
    }
  }

  // ----- stretches of consecutive ids

  /** What the loop has built after these ids: the finished stretches and the current one. */
  function Segments(ids: seq<int>): (r: seq<seq<int>>)
    ensures ids == [] <==> r == []
  {
    if ids == [] then []
    else
      var n := |ids| - 1;
      var rest := Segments(ids[..n]);
      if n > 0 && ids[n] == ids[n - 1] + 1 then rest[..|rest| - 1] + [rest[|rest| - 1] + [ids[n]]]
      else rest + [[ids[n]]]
  }

  lemma SegmentsStep(ids: seq<int>, i: nat)
    requires i < |ids|
    ensures var rest := Segments(ids[..i]);
            Segments(ids[..i + 1]) ==
              if i > 0 && ids[i] == ids[i - 1] + 1 then rest[..|rest| - 1] + [rest[|rest| - 1] + [ids[i]]]
              else rest + [[ids[i]]]
  {
    assert ids[..i + 1][..i] == ids[..i];
  }

  method SplitSegments(ids: seq<int>) returns (segments: seq<seq<int>>)
    ensures segments == Segments(ids)
  {
    segments := [];
    var current: seq<int> := [];
    var i := 0;
    while i < |ids|
      invariant 0 <= i <= |ids|
      invariant (i == 0) == (current == [])
      invariant Segments(ids[..i]) == if i == 0 then [] else segments + [current]
      invariant i == 0 ==> segments == []
    {
      var runId := ids[i];
      SegmentsStep(ids, i);
      assert (segments + [current])[..|segments|] == segments;
      assert current + [runId] == if i == 0 then [runId] else current + [runId];
      if i == 0 || runId == ids[i - 1] + 1 {
        current := current + [runId];
      } else {
        segments := segments + [current];
        current := [runId];
      }
      i := i + 1;
    }
    assert ids[..i] == ids;
    if current != [] {
      segments := segments + [current];
    }
  }

  predicate Consecutive(seg: seq<int>) {
    seg != [] && forall k :: 0 <= k < |seg| ==> seg[k] == seg[0] + k
  }

  /** The first ends before the second starts, with a gap between them. */
  predicate Apart(x: seq<int>, y: seq<int>) {
    x != [] && y != [] && x[|x| - 1] + 1 < y[0]
  }

  predicate Within(seg: seq<int>, x: int) {
    seg != [] && seg[0] <= x <= seg[|seg| - 1]
  }

  /** The segments are consecutive, apart from each other, increasing, and cover exactly the ids. */
  ghost predicate Partition(ids: seq<int>, segs: seq<seq<int>>) {
    && (forall s :: 0 <= s < |segs| ==> Consecutive(segs[s]))
    && (forall s, t :: 0 <= s < t < |segs| ==> Apart(segs[s], segs[t]))
    && (forall x :: x in ids <==> exists s :: 0 <= s < |segs| && Within(segs[s], x))
  }

  lemma GrowLast(ids: seq<int>, segs: seq<seq<int>>, x: int)
    requires Partition(ids, segs) && segs != []
    requires var last := segs[|segs| - 1]; last[|last| - 1] + 1 == x
    ensures var k := |segs| - 1; Partition(ids + [x], segs[..k] + [segs[k] + [x]])
  {
    var k := |segs| - 1;
    var grown := segs[..k] + [segs[k] + [x]];
    forall y
      ensures y in ids + [x] <==> exists s :: 0 <= s < |grown| && Within(grown[s], y)
    {
      if y in ids {
        var s :| 0 <= s < |segs| && Within(segs[s], y);
        assert Within(grown[s], y);
      }
      if y == x {
        assert Within(grown[k], y);
      }
      if s :| 0 <= s < |grown| && Within(grown[s], y) {
        assert y == x || Within(segs[s], y);
      }
    }
  }

  lemma AddSegment(ids: seq<int>, segs: seq<seq<int>>, x: int)
    requires Partition(ids, segs)
    requires segs != [] ==> var last := segs[|segs| - 1]; last != [] && last[|last| - 1] + 1 < x
    ensures Partition(ids + [x], segs + [[x]])
  {
    var grown := segs + [[x]];
    forall s | 0 <= s < |segs|
      ensures segs[s][|segs[s]| - 1] + 1 < x
    {
      if s < |segs| - 1 {
        assert Apart(segs[s], segs[|segs| - 1]);
      }
    }
    forall y
      ensures y in ids + [x] <==> exists s :: 0 <= s < |grown| && Within(grown[s], y)
    {
      if y in ids {
        var s :| 0 <= s < |segs| && Within(segs[s], y);
        assert Within(grown[s], y);
      }
      if y == x {
        assert Within(grown[|segs|], y);
      }
      if s :| 0 <= s < |grown| && Within(grown[s], y) {
        assert s == |segs| || Within(segs[s], y);
      }
    }
  }

  /** The current stretch ends with the last id. */
  lemma {:induction false} LastSegmentEnds(ids: seq<int>)
    requires ids != []
    ensures var segs := Segments(ids); var last := segs[|segs| - 1]; last != [] && last[|last| - 1] == ids[|ids| - 1]
  {
    var n := |ids| - 1;
    if n > 0 {
      LastSegmentEnds(ids[..n]);
    }
    SegmentsStep(ids, n);
    assert ids[..n + 1] == ids;
  }

  /** One more id, behind all others. */
  lemma PartitionOneMore(ids: seq<int>, i: nat)
    requires i < |ids| && Increasing(ids) && Partition(ids[..i], Segments(ids[..i]))
    ensures Partition(ids[..i] + [ids[i]], Segments(ids[..i + 1]))
  {
    if i > 0 {
      LastSegmentEnds(ids[..i]);
    }
    SegmentsStep(ids, i);
    if i > 0 && ids[i] == ids[i - 1] + 1 {
      GrowLast(ids[..i], Segments(ids[..i]), ids[i]);
    } else {
      AddSegment(ids[..i], Segments(ids[..i]), ids[i]);
    }
  }

  lemma {:induction false} SegmentsPartition(ids: seq<int>)
    requires Increasing(ids)
    ensures Partition(ids, Segments(ids))
  {
    if ids != [] {
      var n := |ids| - 1;
      SegmentsPartition(ids[..n]);
      PartitionOneMore(ids, n);
      assert ids[..n + 1] == ids == ids[..n] + [ids[n]];
    }
  }

  /** a..b are valid runs and the stretch cannot be extended. */
  ghost predicate MaximalStretch(ids: seq<int>, a: int, b: int) {
    && a <= b
    && (forall x :: a <= x <= b ==> x in ids)
    && a - 1 !in ids && b + 1 !in ids
  }

  ghost predicate IsSegment(segs: seq<seq<int>>, a: int, b: int) {
    exists s :: 0 <= s < |segs| && segs[s] != [] && segs[s][0] == a && segs[s][|segs[s]| - 1] == b
  }

  /** Segments are exactly the maximal stretches of consecutive valid ids. */
  lemma SegmentsAreMaximalStretches(ids: seq<int>, a: int, b: int)
    requires Increasing(ids)
    ensures IsSegment(Segments(ids), a, b) <==> MaximalStretch(ids, a, b)
  {
    SegmentsPartition(ids);
    var segs := Segments(ids);
    if MaximalStretch(ids, a, b) {
      StretchIsSegment(ids, segs, a, b);
    }
    if IsSegment(segs, a, b) {
      SegmentIsStretch(ids, segs, a, b);
    }
  }

  /** A segment's ids are valid and its neighbours on both sides are not. */
  lemma SegmentBorders(ids: seq<int>, segs: seq<seq<int>>, s: nat)
    requires Partition(ids, segs) && s < |segs|
    ensures var lo, hi := segs[s][0], segs[s][|segs[s]| - 1];
            && lo <= hi
            && (forall x :: lo <= x <= hi ==> x in ids)
            && lo - 1 !in ids && hi + 1 !in ids
  {
    var lo, hi := segs[s][0], segs[s][|segs[s]| - 1];
    assert Consecutive(segs[s]);
    assert hi == lo + (|segs[s]| - 1);
    forall x | lo <= x <= hi
      ensures x in ids
    {
      assert Within(segs[s], x);
    }
    forall x, t | (x == lo - 1 || x == hi + 1) && 0 <= t < |segs|
      ensures !Within(segs[t], x)
    {
      if t < s {
        assert Apart(segs[t], segs[s]);
      } else if s < t {
        assert Apart(segs[s], segs[t]);
      }
    }
  }

  lemma StretchIsSegment(ids: seq<int>, segs: seq<seq<int>>, a: int, b: int)
    requires Partition(ids, segs) && MaximalStretch(ids, a, b)
    ensures IsSegment(segs, a, b)
  {
    assert a in ids;
    var s :| 0 <= s < |segs| && Within(segs[s], a);
    SegmentBorders(ids, segs, s);
    var lo, hi := segs[s][0], segs[s][|segs[s]| - 1];
    assert lo <= a - 1 ==> a - 1 in ids;
    assert b < hi ==> b + 1 in ids;
    assert hi + 1 <= b ==> hi + 1 in ids;
  }

  lemma SegmentIsStretch(ids: seq<int>, segs: seq<seq<int>>, a: int, b: int)
    requires Partition(ids, segs) && IsSegment(segs, a, b)
    ensures MaximalStretch(ids, a, b)
  {
    var s :| 0 <= s < |segs| && segs[s] != [] && segs[s][0] == a && segs[s][|segs[s]| - 1] == b;
    SegmentBorders(ids, segs, s);
  }

  // ----- groups of a fixed size

  /** The first k chunks of a segment, as spans. */
  function Chunks(seg: seq<int>, size: nat, k: nat): (r: seq<Span>)
    requires size > 0 && k * size <= |seg|
    ensures |r| == k
  {
    if k == 0 then []
    else
      ChunkInside(k - 1, k, size);
      Chunks(seg, size, k - 1) + [(seg[(k - 1) * size], seg[(k - 1) * size + size - 1])]
  }

  lemma ChunkInside(j: nat, k: nat, size: nat)
    requires j < k && size > 0
    ensures 0 <= j * size && j * size + size == (j + 1) * size <= k * size
  {
  }

  lemma {:induction false} ChunkAt(seg: seq<int>, size: nat, k: nat, j: nat)
    requires size > 0 && k * size <= |seg| && j < k && Consecutive(seg)
    ensures Chunks(seg, size, k)[j] == (seg[0] + j * size, seg[0] + j * size + size - 1)
  {
    ChunkInside(k - 1, k, size);
    if j < k - 1 {
      ChunkAt(seg, size, k - 1, j);
    }
  }

  function ChunkCount(seg: seq<int>, size: nat): (k: nat)
    requires size > 0
    ensures k * size <= |seg| < k * size + size
  {
    |seg| / size
  }

  function Candidates(segs: seq<seq<int>>, size: nat): (r: seq<Span>)
    requires size > 0
  {
    if segs == [] then []
    else
      var n := |segs| - 1;
      Candidates(segs[..n], size) + Chunks(segs[n], size, ChunkCount(segs[n], size))
  }

  /** The nested loops over segments and chunk starts. */
  method CutChunks(segs: seq<seq<int>>, size: nat) returns (candidates: seq<Span>)
    requires size > 0
    ensures candidates == Candidates(segs, size)
  {
    candidates := [];
    for s := 0 to |segs|
      invariant candidates == Candidates(segs[..s], size)
    {
      var segment := segs[s];
      assert segs[..s + 1][..s] == segs[..s];
      ghost var before := candidates;
      ghost var k: nat := 0;
      var usable := |segment| - |segment| % size;
      assert usable == ChunkCount(segment, size) * size;
      var index := 0;
      while index < usable
        invariant index == k * size && k <= ChunkCount(segment, size)
        invariant candidates == before + Chunks(segment, size, k)
        decreases usable - index
      {
        MoreChunks(k, ChunkCount(segment, size), size);
        var chunk := segment[index..index + size];
        candidates := candidates + [(chunk[0], chunk[|chunk| - 1])];
        index := index + size;
        k := k + 1;
      }
      SameChunks(k, ChunkCount(segment, size), size);
    }
    assert segs[..|segs|] == segs;
  }

  lemma MoreChunks(k: nat, count: nat, size: nat)
    requires size > 0 && k * size < count * size
    ensures k < count && k * size + size == (k + 1) * size <= count * size
  {
    assert count <= k ==> count * size <= k * size;
    ChunkInside(k, count, size);
  }

  lemma SameChunks(k: nat, count: nat, size: nat)
    requires size > 0 && k <= count && k * size >= count * size
    ensures k == count
  {
    if k < count {
      ChunkInside(k, count, size);
    }
  }

  /** A span of `size` ids lying at a multiple of `size` inside a maximal stretch. */
  ghost predicate IsAlignedChunk(ids: seq<int>, size: nat, span: Span)
    requires size > 0
  {
    exists a, b :: MaximalStretch(ids, a, b) && CutFrom(a, b, size, span)
  }

  ghost predicate CutFrom(a: int, b: int, size: nat, span: Span)
    requires size > 0
  {
    a <= span.0 && (span.0 - a) % size == 0 && span.1 == span.0 + size - 1 <= b
  }

  ghost predicate CutFromSegment(seg: seq<int>, size: nat, span: Span)
    requires size > 0
  {
    seg != [] && CutFrom(seg[0], seg[|seg| - 1], size, span)
  }

  lemma MultipleHasNoRemainder(j: nat, size: nat)
    requires size > 0
    ensures (j * size) % size == 0 && (j * size) / size == j
  {
    var q, r := (j * size) / size, (j * size) % size;
    assert q * size + r == j * size;
    assert q < j ==> (q + 1) * size <= j * size;
    assert j < q ==> (j + 1) * size <= q * size;
  }

  lemma ChunkIsCut(seg: seq<int>, size: nat, j: nat)
    requires size > 0 && Consecutive(seg) && j < ChunkCount(seg, size)
    ensures CutFromSegment(seg, size, Chunks(seg, size, ChunkCount(seg, size))[j])
  {
    var count := ChunkCount(seg, size);
    ChunkAt(seg, size, count, j);
    MultipleHasNoRemainder(j, size);
    ChunkInside(j, count, size);
    assert seg != [] && seg[|seg| - 1] == seg[0] + (|seg| - 1);
  }

  lemma NoRemainderMeansMultiple(x: nat, size: nat) returns (j: nat)
    requires size > 0 && x % size == 0
    ensures x == j * size
  {
    j := x / size;
  }

  lemma CutIsChunk(seg: seq<int>, size: nat, span: Span) returns (j: nat)
    requires size > 0 && Consecutive(seg) && CutFromSegment(seg, size, span)
    ensures j < ChunkCount(seg, size) && Chunks(seg, size, ChunkCount(seg, size))[j] == span
  {
    var count := ChunkCount(seg, size);
    j := NoRemainderMeansMultiple(span.0 - seg[0], size);
    assert seg[|seg| - 1] == seg[0] + (|seg| - 1);
    SmallerFactor(j, count, size);
    ChunkAt(seg, size, count, j);
  }

  /** One segment's chunks are exactly the aligned spans inside it. */
  lemma ChunksAreCutFrom(seg: seq<int>, size: nat, span: Span)
    requires size > 0 && Consecutive(seg)
    ensures span in Chunks(seg, size, ChunkCount(seg, size)) <==> CutFromSegment(seg, size, span)
  {
    var chunks := Chunks(seg, size, ChunkCount(seg, size));
    if span in chunks {
      var j :| 0 <= j < |chunks| && chunks[j] == span;
      ChunkIsCut(seg, size, j);
    }
    if CutFromSegment(seg, size, span) {
      var j := CutIsChunk(seg, size, span);
    }
  }

  lemma SmallerFactor(j: nat, count: nat, size: nat)
    requires size > 0 && j * size < count * size
    ensures j < count
  {
    assert count <= j ==> count * size <= j * size;
  }

  lemma {:induction false} CandidatesComeFromSegments(segs: seq<seq<int>>, size: nat, span: Span)
    requires size > 0 && forall s :: 0 <= s < |segs| ==> Consecutive(segs[s])
    ensures span in Candidates(segs, size)
       <==> exists s :: 0 <= s < |segs| && CutFromSegment(segs[s], size, span)
  {
    if segs != [] {
      var n := |segs| - 1;
      CandidatesComeFromSegments(segs[..n], size, span);
      ChunksAreCutFrom(segs[n], size, span);
      assert forall s :: 0 <= s < n ==> segs[..n][s] == segs[s];
    }
  }

  /**
    The candidates are exactly the aligned chunks of the maximal stretches of valid ids:
    a stretch of L ids gives its floor(L/size) chunks counted from its first id, and nothing else.
    */
  lemma CandidatesAreAlignedChunks(ids: seq<int>, size: nat, span: Span)
    requires Increasing(ids) && size > 0
    ensures span in Candidates(Segments(ids), size) <==> IsAlignedChunk(ids, size, span)
  {
    var segs := Segments(ids);
    SegmentsPartition(ids);
    CandidatesComeFromSegments(segs, size, span);
    if s :| 0 <= s < |segs| && CutFromSegment(segs[s], size, span) {
      SegmentIsStretch(ids, segs, segs[s][0], segs[s][|segs[s]| - 1]);
    }
    if IsAlignedChunk(ids, size, span) {
      var a, b :| MaximalStretch(ids, a, b) && CutFrom(a, b, size, span);
      StretchIsSegment(ids, segs, a, b);
      var s :| 0 <= s < |segs| && segs[s] != [] && segs[s][0] == a && segs[s][|segs[s]| - 1] == b;
      assert CutFromSegment(segs[s], size, span);
    }
  }

  /** Spans in order, none overlapping. */
  predicate Disjoint(spans: seq<Span>) {
    && (forall i :: 0 <= i < |spans| ==> spans[i].0 <= spans[i].1)
    && (forall i, j :: 0 <= i < j < |spans| ==> spans[i].1 < spans[j].0)
  }

  predicate AllBelow(spans: seq<Span>, bound: int) {
    forall i :: 0 <= i < |spans| ==> spans[i].1 < bound
  }

  lemma {:induction false} ChunksDisjoint(seg: seq<int>, size: nat, k: nat)
    requires size > 0 && k * size <= |seg| && Consecutive(seg)
    ensures Disjoint(Chunks(seg, size, k)) && AllBelow(Chunks(seg, size, k), seg[0] + k * size)
    ensures forall i :: 0 <= i < k ==> seg[0] <= Chunks(seg, size, k)[i].0
  {
    if k > 0 {
      ChunkInside(k - 1, k, size);
      ChunksDisjoint(seg, size, k - 1);
    }
  }

  lemma {:induction false} CandidatesDisjoint(segs: seq<seq<int>>, size: nat)
    requires size > 0 && forall s :: 0 <= s < |segs| ==> Consecutive(segs[s])
    requires forall s, t :: 0 <= s < t < |segs| ==> Apart(segs[s], segs[t])
    ensures Disjoint(Candidates(segs, size))
    ensures segs != [] ==>
              var last := segs[|segs| - 1]; last != [] && AllBelow(Candidates(segs, size), last[|last| - 1] + 1)
  {
    if segs != [] {
      var n := |segs| - 1;
      var seg, count := segs[n], ChunkCount(segs[n], size);
      CandidatesDisjoint(segs[..n], size);
      ChunksDisjoint(seg, size, count);
      assert seg[|seg| - 1] == seg[0] + (|seg| - 1);
      if n > 0 {
        assert Apart(segs[n - 1], seg);
      } else {
        assert segs[..n] == [];
      }
    }
  }

  // ----- choosing the groups

  function LastFew(spans: seq<Span>, count: nat): seq<Span> {
    if |spans| <= count then spans else spans[|spans| - count..]
  }

  function Without(spans: seq<Span>, taken: set<Span>): (r: seq<Span>)
    ensures forall x :: x in r <==> x in spans && x !in taken
  {
    if spans == [] then []
    else
      var n := |spans| - 1;
      assert spans == spans[..n] + [spans[n]];
      Without(spans[..n], taken) + if spans[n] in taken then [] else [spans[n]]
  }

  function SpanOf(g: GroupSpec): Span {
    (g.first, g.last)
  }

  function SpanSet(groups: seq<GroupSpec>): set<Span> {
    set i | 0 <= i < |groups| :: SpanOf(groups[i])
  }

  function Numbered(spans: seq<Span>): seq<GroupSpec> {
    seq(|spans|, i requires 0 <= i < |spans| =>
      GroupSpec(Repeat(i + 1, spans[i].0, spans[i].1), spans[i].0, spans[i].1))
  }

  function SelectedSpans(rows: seq<Row>, size: nat, maxGroups: nat, existing: seq<GroupSpec>): seq<Span>
    requires size > 0
  {
    Without(LastFew(Candidates(Segments(ValidIds(SortById(rows))), size), maxGroups), SpanSet(existing))
  }

  method AutoRecentGroups(rows: seq<Row>, groupSize: int, maxGroups: int, existing: seq<GroupSpec>)
    returns (groups: seq<GroupSpec>)
    ensures groupSize <= 0 || maxGroups <= 0 ==> groups == []
    ensures groupSize > 0 && maxGroups > 0 ==> groups == Numbered(SelectedSpans(rows, groupSize, maxGroups, existing))
  {
    if groupSize <= 0 || maxGroups <= 0 {
      return [];
    }
    var existingSpans := SpanSet(existing);
    var segments := SplitSegments(ValidIds(SortById(rows)));
    var candidates := CutChunks(segments, groupSize);
    groups := Numbered(Without(LastFew(candidates, maxGroups), existingSpans));
  }

  lemma AppendDisjoint(spans: seq<Span>, last: Span)
    requires Disjoint(spans) && last.0 <= last.1 && forall i :: 0 <= i < |spans| ==> spans[i].1 < last.0
    ensures Disjoint(spans + [last])
  {
  }

  lemma {:induction false} WithoutKeepsDisjoint(spans: seq<Span>, taken: set<Span>)
    requires Disjoint(spans)
    ensures Disjoint(Without(spans, taken))
  {
    if spans != [] {
      var n := |spans| - 1;
      WithoutKeepsDisjoint(spans[..n], taken);
      var rest := Without(spans[..n], taken);
      forall i | 0 <= i < |rest|
        ensures rest[i].1 < spans[n].0
      {
        assert rest[i] in rest;
        var k :| 0 <= k < n && spans[k] == rest[i];
      }
      AppendDisjoint(rest, spans[n]);
      assert Without(spans, taken) == if spans[n] in taken then rest else rest + [spans[n]];
    }
  }

  ghost predicate HasValidRun(rows: seq<Row>, id: int) {
    exists row :: row in rows && IsValidRun(row) && row.id == id
  }

  ghost predicate CoversValidRuns(rows: seq<Row>, span: Span) {
    forall x {:trigger HasValidRun(rows, x)} :: span.0 <= x <= span.1 ==> HasValidRun(rows, x)
  }

  /**
    The selected groups, for rows with distinct ids: disjoint and increasing, at most `maxGroups`,
    and each is `size` consecutive valid runs, an aligned chunk, not asked for already.
    */
  lemma SelectedGroupsAreRecentRepeats(rows: seq<Row>, size: nat, maxGroups: nat, existing: seq<GroupSpec>)
    requires size > 0 && DistinctIds(rows)
    ensures var spans := SelectedSpans(rows, size, maxGroups, existing); Disjoint(spans) && |spans| <= maxGroups
    ensures forall span :: span in SelectedSpans(rows, size, maxGroups, existing) ==>
              && IsAlignedChunk(ValidIds(SortById(rows)), size, span)
              && span !in SpanSet(existing)
              && CoversValidRuns(rows, span)
  {
    SelectedAreDisjoint(rows, size, maxGroups, existing);
    forall span | span in SelectedSpans(rows, size, maxGroups, existing)
      ensures IsAlignedChunk(ValidIds(SortById(rows)), size, span) && CoversValidRuns(rows, span)
    {
      SelectedIsChunk(rows, size, maxGroups, existing, span);
    }
  }

  lemma CandidatesOfRowsDisjoint(rows: seq<Row>, size: nat)
    requires size > 0 && DistinctIds(rows)
    ensures Disjoint(Candidates(Segments(ValidIds(SortById(rows))), size))
  {
    var ids := ValidIds(SortById(rows));
    SortedIdsIncrease(rows);
    SegmentsPartition(ids);
    CandidatesDisjoint(Segments(ids), size);
  }

  lemma LastFewDisjoint(spans: seq<Span>, count: nat)
    requires Disjoint(spans)
    ensures Disjoint(LastFew(spans, count)) && |LastFew(spans, count)| <= count
  {
  }

  lemma SelectedAreDisjoint(rows: seq<Row>, size: nat, maxGroups: nat, existing: seq<GroupSpec>)
    requires size > 0 && DistinctIds(rows)
    ensures var spans := SelectedSpans(rows, size, maxGroups, existing); Disjoint(spans) && |spans| <= maxGroups
  {
    var candidates := Candidates(Segments(ValidIds(SortById(rows))), size);
    CandidatesOfRowsDisjoint(rows, size);
    LastFewDisjoint(candidates, maxGroups);
    WithoutKeepsDisjoint(LastFew(candidates, maxGroups), SpanSet(existing));
    WithoutShortens(LastFew(candidates, maxGroups), SpanSet(existing));
  }

  lemma SelectedIsChunk(rows: seq<Row>, size: nat, maxGroups: nat, existing: seq<GroupSpec>, span: Span)
    requires size > 0 && DistinctIds(rows)
    ensures span in SelectedSpans(rows, size, maxGroups, existing) ==>
              IsAlignedChunk(ValidIds(SortById(rows)), size, span) && CoversValidRuns(rows, span)
  {
    if span in SelectedSpans(rows, size, maxGroups, existing) {
      SortedIdsIncrease(rows);
      CandidatesAreAlignedChunks(ValidIds(SortById(rows)), size, span);
      ChunkCoversValidRuns(rows, size, span);
    }
  }

  /** The spans lying behind this one. */
  function Newer(spans: seq<Span>, span: Span): set<Span> {
    set x | x in spans && span.1 < x.0
  }

  lemma {:induction false} NewerCount(spans: seq<Span>, k: nat)
    requires Disjoint(spans) && k < |spans|
    ensures |Newer(spans, spans[k])| == |spans| - 1 - k
    decreases |spans| - k
  {
    if k == |spans| - 1 {
      assert Newer(spans, spans[k]) == {};
    } else {
      NewerCount(spans, k + 1);
      assert spans[k + 1] !in Newer(spans, spans[k + 1]);
      assert Newer(spans, spans[k]) == Newer(spans, spans[k + 1]) + {spans[k + 1]};
    }
  }

  lemma AmongLastIff(spans: seq<Span>, count: nat, span: Span)
    requires Disjoint(spans) && span in spans
    ensures span in LastFew(spans, count) <==> |Newer(spans, span)| < count
  {
    var k: nat :| k < |spans| && spans[k] == span;
    NewerCount(spans, k);
    var few := LastFew(spans, count);
    if |spans| - count <= k && |spans| > count {
      assert few[k - (|spans| - count)] == span;
    }
    if span in few && |spans| > count {
      var j :| 0 <= j < |few| && few[j] == span;
      assert spans[|spans| - count + j] == span;
    }
  }

  /**
    Exactly which spans are selected: the aligned chunks of valid runs not asked for already that
    have fewer than `maxGroups` such chunks behind them. So whatever is newer than a selected
    chunk is selected too or was asked for already.
    */
  lemma SelectedIffNewest(rows: seq<Row>, size: nat, maxGroups: nat, existing: seq<GroupSpec>, span: Span)
    requires size > 0 && DistinctIds(rows)
    ensures var ids := ValidIds(SortById(rows));
            var chunks := Candidates(Segments(ids), size);
            && (forall x :: x in chunks <==> IsAlignedChunk(ids, size, x))
            && (span in SelectedSpans(rows, size, maxGroups, existing) <==>
                  IsAlignedChunk(ids, size, span) && span !in SpanSet(existing) && |Newer(chunks, span)| < maxGroups)
  {
    var ids := ValidIds(SortById(rows));
    var chunks := Candidates(Segments(ids), size);
    SortedIdsIncrease(rows);
    SegmentsPartition(ids);
    CandidatesDisjoint(Segments(ids), size);
    forall x
      ensures x in chunks <==> IsAlignedChunk(ids, size, x)
    {
      CandidatesAreAlignedChunks(ids, size, x);
    }
    if span in chunks {
      AmongLastIff(chunks, maxGroups, span);
    }
  }

  lemma ChunkCoversValidRuns(rows: seq<Row>, size: nat, span: Span)
    requires size > 0 && IsAlignedChunk(ValidIds(SortById(rows)), size, span)
    ensures CoversValidRuns(rows, span)
  {
    var sorted := SortById(rows);
    var ids := ValidIds(sorted);
    var a, b :| MaximalStretch(ids, a, b) && CutFrom(a, b, size, span);
    forall x: int | span.0 <= x <= span.1
      ensures HasValidRun(rows, x)
    {
      assert x in ids;
      var row :| row in sorted && IsValidRun(row) && row.id == x;
      assert row in multiset(sorted);
    }
  }

  lemma WithoutShortens(spans: seq<Span>, taken: set<Span>)
    ensures |Without(spans, taken)| <= |spans|
  {
  }

  lemma SortedIdsIncrease(rows: seq<Row>)
    requires DistinctIds(rows)
    ensures Increasing(ValidIds(SortById(rows)))
  {
    var sorted := SortById(rows);
    SortByIdSorts(rows);
    forall i, j | 0 <= i < j < |sorted|
      ensures sorted[i].id != sorted[j].id
    {
      PermutationKeepsDistinct(rows, sorted, i, j);
    }
    ValidIdsIncrease(sorted);
  }

  lemma PermutationKeepsDistinct(rows: seq<Row>, sorted: seq<Row>, i: nat, j: nat)
    requires DistinctIds(rows) && multiset(rows) == multiset(sorted) && i < j < |sorted|
    ensures sorted[i].id != sorted[j].id
  {
    var x, y := sorted[i], sorted[j];
    assert x in multiset(rows) && y in multiset(rows);
    if x == y {
      assert sorted == sorted[..j] + [y] + sorted[j + 1..];
      assert x in sorted[..j];
      assert multiset(rows)[x] >= 2;
      OnceEach(rows, x);
    }
  }

  lemma {:induction false} OnceEach(rows: seq<Row>, x: Row)
    requires DistinctIds(rows)
    ensures multiset(rows)[x] <= 1
  {
    if rows != [] {
      var n := |rows| - 1;
      assert rows == rows[..n] + [rows[n]];
      OnceEach(rows[..n], x);
      if rows[n] == x {
        assert x !in rows[..n];
      }
    }
  }

  // ----- removing repeated spans

  /** The first group of every span, in order. */
  function FirstOfEachSpan(groups: seq<GroupSpec>): (r: seq<GroupSpec>)
    ensures SpanSet(r) == SpanSet(groups)
  {
    if groups == [] then []
    else
      var n := |groups| - 1;
      var rest := FirstOfEachSpan(groups[..n]);
      assert groups == groups[..n] + [groups[n]];
      SpanSetGrows(groups[..n], groups[n]);
      SpanSetGrows(rest, groups[n]);
      if SpanOf(groups[n]) in SpanSet(groups[..n]) then rest else rest + [groups[n]]
  }

  lemma SpanSetGrows(groups: seq<GroupSpec>, g: GroupSpec)
    ensures SpanSet(groups + [g]) == SpanSet(groups) + {SpanOf(g)}
  {
    var all := groups + [g];
    assert forall i :: 0 <= i < |groups| ==> all[i] == groups[i];
    assert all[|groups|] == g;
  }

  predicate DistinctSpans(groups: seq<GroupSpec>) {
    forall i, j :: 0 <= i < j < |groups| ==> SpanOf(groups[i]) != SpanOf(groups[j])
  }

  lemma {:induction false} FirstOfEachSpanIsDistinct(groups: seq<GroupSpec>)
    ensures DistinctSpans(FirstOfEachSpan(groups))
  {
    if groups != [] {
      var n := |groups| - 1;
      FirstOfEachSpanIsDistinct(groups[..n]);
      var rest := FirstOfEachSpan(groups[..n]);
      assert forall i :: 0 <= i < |rest| ==> SpanOf(rest[i]) in SpanSet(rest);
    }
  }

  method DedupeGroups(groups: seq<GroupSpec>) returns (output: seq<GroupSpec>)
    ensures output == FirstOfEachSpan(groups)
    ensures DistinctSpans(output) && SpanSet(output) == SpanSet(groups)
  {
    var seen: set<GroupSpec> := {};
    output := [];
    for i := 0 to |groups|
      invariant output == FirstOfEachSpan(groups[..i])
      invariant forall g :: g in seen ==> SpanOf(g) in SpanSet(output)
    {
      var group := groups[i];
      assert groups[..i + 1][..i] == groups[..i];
      if group in seen || SpanOf(group) in SpanSet(output) {
        continue;
      }
      seen := seen + {group};
      SpanSetGrows(output, group);
      output := output + [group];
    }
    assert groups[..|groups|] == groups;
    FirstOfEachSpanIsDistinct(groups);
  }

  /** The benchmark's use of both: appended automatic groups always survive the removal, in order. */
  lemma {:induction false} AppendedGroupsSurvive(groups: seq<GroupSpec>, more: seq<GroupSpec>)
    requires DistinctSpans(more) && SpanSet(groups) !! SpanSet(more)
    ensures FirstOfEachSpan(groups + more) == FirstOfEachSpan(groups) + more
    decreases more
  {
    if more == [] {
      assert groups + more == groups;
    } else {
      var n := |more| - 1;
      var all := groups + more;
      assert all[..|all| - 1] == groups + more[..n];
      assert more == more[..n] + [more[n]];
      SpanSetGrows(more[..n], more[n]);
      AppendedGroupsSurvive(groups, more[..n]);
      NotAmongEarlier(groups, more);
    }
  }

  lemma NotAmongEarlier(groups: seq<GroupSpec>, more: seq<GroupSpec>)
    requires more != [] && DistinctSpans(more) && SpanSet(groups) !! SpanSet(more)
    ensures SpanOf(more[|more| - 1]) !in SpanSet(groups + more[..|more| - 1])
  {
    var n := |more| - 1;
    var before := groups + more[..n];
    assert SpanOf(more[n]) in SpanSet(more);
    forall i | 0 <= i < |before|
      ensures SpanOf(before[i]) != SpanOf(more[n])
    {
      if i < |groups| {
        assert SpanOf(before[i]) in SpanSet(groups);
      }
    }
  }

  lemma NumberedSurvive(spans: seq<Span>, existing: seq<GroupSpec>)
    requires Disjoint(spans) && forall x :: x in spans ==> x !in SpanSet(existing)
    ensures var auto := Numbered(spans);
            DistinctSpans(auto) && FirstOfEachSpan(existing + auto) == FirstOfEachSpan(existing) + auto
  {
    var auto := Numbered(spans);
    forall i, j | 0 <= i < j < |auto|
      ensures SpanOf(auto[i]) != SpanOf(auto[j])
    {
      assert spans[i].1 < spans[j].0;
    }
    forall x | x in SpanSet(auto)
      ensures x !in SpanSet(existing)
    {
      assert x in spans;
    }
    AppendedGroupsSurvive(existing, auto);
  }

  /** The groups of a benchmark run: the ones asked for, each span once, and behind them all automatic ones. */
  method GroupsToCompare(rows: seq<Row>, groupSize: int, groupCount: int, asked: seq<GroupSpec>)
    returns (auto: seq<GroupSpec>, groups: seq<GroupSpec>)
    ensures auto == if groupCount <= 0 then [] else Numbered(SelectedSpans(rows, Max(1, groupSize), groupCount, asked))
    ensures groups == FirstOfEachSpan(asked + auto)
    ensures DistinctSpans(groups) && SpanSet(groups) == SpanSet(asked) + SpanSet(auto)
    ensures DistinctIds(rows) ==> groups == FirstOfEachSpan(asked) + auto && |auto| <= Max(0, groupCount)
  {
    var size, count := Max(1, groupSize), Max(0, groupCount);
    auto := AutoRecentGroups(rows, size, count, asked);
    groups := DedupeGroups(asked + auto);
    SpanSetOfBoth(asked, auto);
    if DistinctIds(rows) {
      if count > 0 {
        SelectedGroupsAreRecentRepeats(rows, size, count, asked);
        NumberedSurvive(SelectedSpans(rows, size, count, asked), asked);
      } else {
        assert asked + auto == asked && FirstOfEachSpan(asked) + auto == FirstOfEachSpan(asked);
      }
    }
  }

  function Max(a: int, b: int): (r: nat)
    requires a >= 0
    ensures r >= a && r >= b && (r == a || r == b)
  {
    if a < b then b else a
  }

  lemma SpanSetOfBoth(a: seq<GroupSpec>, b: seq<GroupSpec>)
    ensures SpanSet(a + b) == SpanSet(a) + SpanSet(b)
  {
    var ab := a + b;
    forall x
      ensures x in SpanSet(ab) <==> x in SpanSet(a) || x in SpanSet(b)
    {
      if i :| 0 <= i < |a| && SpanOf(a[i]) == x {
        assert ab[i] == a[i];
      }
      if i :| 0 <= i < |b| && SpanOf(b[i]) == x {
        assert ab[|a| + i] == b[i];
      }
    }
  }
}
