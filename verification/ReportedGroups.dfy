/**
  The automatic groups read off the run rows alone: which chunks of runs there are, which of them
  become groups, under which title, and which groups a benchmark compares.
  */
module ReportedGroups {
  import opened DiscoveryGroups

  // ----- the chunks of the runs

  ghost predicate IsValidId(rows: seq<Row>, x: int) {
    exists i :: 0 <= i < |rows| && rows[i].id == x && rows[i].windows > 0 && rows[i].clusters > 0
  }

  /** Valid runs from a to b, and none next to them. */
  ghost predicate IsStretch(rows: seq<Row>, a: int, b: int) {
    && a <= b && (forall x :: a <= x <= b ==> IsValidId(rows, x))
    && !IsValidId(rows, a - 1) && !IsValidId(rows, b + 1)
  }

  /** As many runs as asked for, starting a multiple of that behind the start of a stretch. */
  ghost predicate IsChunkOf(rows: seq<Row>, size: nat, first: int, last: int, a: int, b: int)
    requires size > 0
  {
    IsStretch(rows, a, b) && a <= first && (first - a) % size == 0 && last == first + size - 1 <= b
  }

  ghost predicate IsChunk(rows: seq<Row>, size: nat, span: Span)
    requires size > 0
  {
    exists a, b :: IsChunkOf(rows, size, span.0, span.1, a, b)
  }

  /** All chunks, each ending before the next one starts. */
  ghost predicate AreChunks(chunks: seq<Span>, rows: seq<Row>, size: nat)
    requires size > 0
  {
    && (forall span :: span in chunks <==> IsChunk(rows, size, span))
    && (forall i, j :: 0 <= i < j < |chunks| ==> chunks[i].1 < chunks[j].0)
  }

  lemma ValidIdIff(rows: seq<Row>, x: int)
    ensures x in ValidIds(SortById(rows)) <==> IsValidId(rows, x)
  {
    var sorted := SortById(rows);
    if x in ValidIds(sorted) {
      var row :| row in sorted && IsValidRun(row) && row.id == x;
      assert row in multiset(sorted);
      assert row in multiset(rows);
    }
    if i :| 0 <= i < |rows| && rows[i].id == x && rows[i].windows > 0 && rows[i].clusters > 0 {
      assert rows[i] in multiset(rows);
      assert rows[i] in multiset(sorted);
      assert IsValidRun(rows[i]);
    }
  }

  lemma ChunkIff(rows: seq<Row>, size: nat, span: Span)
    requires size > 0
    ensures IsAlignedChunk(ValidIds(SortById(rows)), size, span) <==> IsChunk(rows, size, span)
  {
    var ids := ValidIds(SortById(rows));
    forall x
      ensures x in ids <==> IsValidId(rows, x)
    {
      ValidIdIff(rows, x);
    }
    if a, b :| MaximalStretch(ids, a, b) && CutFrom(a, b, size, span) {
      assert IsChunkOf(rows, size, span.0, span.1, a, b);
    }
    if a, b :| IsChunkOf(rows, size, span.0, span.1, a, b) {
      assert MaximalStretch(ids, a, b) && CutFrom(a, b, size, span);
    }
  }

  lemma CandidatesAreChunks(rows: seq<Row>, size: nat)
    requires size > 0 && DistinctIds(rows)
    ensures AreChunks(Candidates(Segments(ValidIds(SortById(rows))), size), rows, size)
  {
    var ids := ValidIds(SortById(rows));
    SortedIdsIncrease(rows);
    CandidatesOfRowsDisjoint(rows, size);
    forall span
      ensures span in Candidates(Segments(ids), size) <==> IsChunk(rows, size, span)
    {
      CandidatesAreAlignedChunks(ids, size, span);
      ChunkIff(rows, size, span);
    }
  }

  // ----- the groups

  ghost predicate IsAsked(groups: seq<GroupSpec>, span: Span) {
    exists i :: 0 <= i < |groups| && groups[i].first == span.0 && groups[i].last == span.1
  }

  /** In order, exactly the positions from `low` to the end whose spans are not asked for. */
  ghost predicate ListsNew(at: seq<nat>, chunks: seq<Span>, low: int, asked: seq<GroupSpec>) {
    && (forall i :: 0 <= i < |at| ==> at[i] < |chunks|)
    && (forall i, j :: 0 <= i < j < |at| ==> at[i] < at[j])
    && (forall k: nat :: k in at <==> low <= k < |chunks| && !IsAsked(asked, chunks[k]))
  }

  /** The groups are those chunks, numbered from 1 in their titles. */
  ghost predicate AreGroupsOf(groups: seq<GroupSpec>, chunks: seq<Span>, at: seq<nat>) {
    && |groups| == |at|
    && forall i :: 0 <= i < |at| ==>
         && at[i] < |chunks| && groups[i].first == chunks[at[i]].0 && groups[i].last == chunks[at[i]].1
         && groups[i].title == Repeat(i + 1, groups[i].first, groups[i].last)
  }

  lemma AskedIff(groups: seq<GroupSpec>, span: Span)
    ensures span in SpanSet(groups) <==> IsAsked(groups, span)
  {
  }

  ghost predicate ListsRest(at: seq<nat>, spans: seq<Span>, rest: seq<Span>, asked: seq<GroupSpec>) {
    && ListsNew(at, spans, 0, asked)
    && |rest| == |at| && forall i :: 0 <= i < |at| ==> at[i] < |spans| && rest[i] == spans[at[i]]
  }

  lemma OneMoreNew(at: seq<nat>, spans: seq<Span>, rest: seq<Span>, asked: seq<GroupSpec>, span: Span)
    requires ListsRest(at, spans, rest, asked)
    ensures var asksFor := span in SpanSet(asked);
            ListsRest(at + (if asksFor then [] else [|spans|]), spans + [span],
                      rest + (if asksFor then [] else [span]), asked)
  {
    AskedIff(asked, span);
  }

  lemma {:induction false} WithoutAt(spans: seq<Span>, asked: seq<GroupSpec>) returns (at: seq<nat>)
    ensures ListsRest(at, spans, Without(spans, SpanSet(asked)), asked)
  {
    if spans == [] {
      at := [];
    } else {
      var before, span := spans[..|spans| - 1], spans[|spans| - 1];
      at := WithoutAt(before, asked);
      OneMoreNew(at, before, Without(before, SpanSet(asked)), asked, span);
      at := at + if span in SpanSet(asked) then [] else [|before|];
      assert spans == before + [span];
    }
  }

  ghost function Shifted(at: seq<nat>, low: nat): (r: seq<nat>)
    ensures |r| == |at| && forall i :: 0 <= i < |at| ==> r[i] == at[i] + low
  {
    seq(|at|, i requires 0 <= i < |at| => at[i] + low)
  }

  lemma ShiftedHas(at: seq<nat>, low: nat, k: nat)
    ensures k in Shifted(at, low) <==> low <= k && k - low in at
  {
    if low <= k && k - low in at {
      var i :| 0 <= i < |at| && at[i] == k - low;
      assert Shifted(at, low)[i] == k;
    }
  }

  /** The positions in the end of a list are positions in the list. */
  lemma ShiftListed(at: seq<nat>, chunks: seq<Span>, low: nat, asked: seq<GroupSpec>)
    requires low <= |chunks| && ListsNew(at, chunks[low..], 0, asked)
    ensures ListsNew(Shifted(at, low), chunks, low, asked)
  {
    forall k: nat
      ensures k in Shifted(at, low) <==> low <= k < |chunks| && !IsAsked(asked, chunks[k])
    {
      ShiftedHas(at, low, k);
    }
  }

  lemma NumberedAt(at: seq<nat>, chunks: seq<Span>, low: nat, rest: seq<Span>)
    requires low <= |chunks| && |rest| == |at|
    requires forall i :: 0 <= i < |at| ==> at[i] < |chunks| - low && rest[i] == chunks[low..][at[i]]
    ensures AreGroupsOf(Numbered(rest), chunks, Shifted(at, low))
  {
  }

  /** The automatic groups: of the newest chunks those not asked for, in order, with their titles. */
  lemma GroupsReport(rows: seq<Row>, size: nat, maxGroups: nat, asked: seq<GroupSpec>)
    returns (chunks: seq<Span>, at: seq<nat>)
    requires size > 0 && DistinctIds(rows)
    ensures AreChunks(chunks, rows, size)
    ensures ListsNew(at, chunks, |chunks| - maxGroups, asked)
    ensures AreGroupsOf(Numbered(SelectedSpans(rows, size, maxGroups, asked)), chunks, at)
  {
    chunks := Candidates(Segments(ValidIds(SortById(rows))), size);
    CandidatesAreChunks(rows, size);
    var low := if |chunks| <= maxGroups then 0 else |chunks| - maxGroups;
    var few := chunks[low..];
    assert LastFew(chunks, maxGroups) == few;
    var from := WithoutAt(few, asked);
    ShiftListed(from, chunks, low, asked);
    NumberedAt(from, chunks, low, Without(few, SpanSet(asked)));
    at := Shifted(from, low);
  }

  // ----- the groups compared

  ghost predicate IsFirstOfSpan(groups: seq<GroupSpec>, k: int) {
    && 0 <= k < |groups|
    && forall j :: 0 <= j < k ==> groups[j].first != groups[k].first || groups[j].last != groups[k].last
  }

  /** In order, the first group of every span. */
  ghost predicate AreFirsts(output: seq<GroupSpec>, groups: seq<GroupSpec>, at: seq<nat>) {
    && |output| == |at|
    && (forall i :: 0 <= i < |at| ==> at[i] < |groups| && output[i] == groups[at[i]])
    && (forall i, j :: 0 <= i < j < |at| ==> at[i] < at[j])
    && (forall k: nat :: k in at <==> IsFirstOfSpan(groups, k))
  }

  lemma FirstInMore(groups: seq<GroupSpec>, g: GroupSpec, k: nat)
    ensures IsFirstOfSpan(groups + [g], k) <==>
            if k == |groups| then SpanOf(g) !in SpanSet(groups) else IsFirstOfSpan(groups, k)
  {
    AskedIff(groups, SpanOf(g));
    var all := groups + [g];
    assert forall j :: 0 <= j < |groups| ==> all[j] == groups[j];
    if k == |groups| && IsAsked(groups, SpanOf(g)) {
      var i :| 0 <= i < |groups| && groups[i].first == g.first && groups[i].last == g.last;
      assert all[i].first == all[k].first && all[i].last == all[k].last;
    }
    if k < |groups| && IsFirstOfSpan(all, k) {
      forall j | 0 <= j < k
        ensures groups[j].first != groups[k].first || groups[j].last != groups[k].last
      {
        assert all[j] == groups[j];
      }
    }
  }

  lemma OneMoreFirst(output: seq<GroupSpec>, groups: seq<GroupSpec>, at: seq<nat>, g: GroupSpec)
    requires AreFirsts(output, groups, at)
    ensures var known := SpanOf(g) in SpanSet(groups);
            AreFirsts(output + (if known then [] else [g]), groups + [g], at + (if known then [] else [|groups|]))
  {
    forall k: nat
      ensures IsFirstOfSpan(groups + [g], k) <==>
              if k == |groups| then SpanOf(g) !in SpanSet(groups) else IsFirstOfSpan(groups, k)
    {
      FirstInMore(groups, g, k);
    }
  }

  /** What the removal of repeated spans leaves. */
  lemma {:induction false} FirstsReport(groups: seq<GroupSpec>) returns (at: seq<nat>)
    ensures AreFirsts(FirstOfEachSpan(groups), groups, at)
  {
    if groups == [] {
      at := [];
    } else {
      var before, g := groups[..|groups| - 1], groups[|groups| - 1];
      at := FirstsReport(before);
      OneMoreFirst(FirstOfEachSpan(before), before, at, g);
      at := at + if SpanOf(g) in SpanSet(before) then [] else [|before|];
      assert groups == before + [g];
    }
  }
}
