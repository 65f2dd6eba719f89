/**
  The gate's result file read off the package tables: every entry of the object, which rows each
  bucket section shows in which order, and what a reader of any such file learns about promotion.
  */
module ReportedResult {
  import opened Wrappers
  import opened PyText
  import opened GateRows
  import RowReadings
  import ReportedFaults
  import opened GateResult
  import opened ResultFile

  // ----- the rows a section shows

  /** A row's figure, zero for a blank or unreadable cell. */
  ghost function Amount(row: Row, column: string, number: Reader): real {
    var text := RowReadings.Entry(row, column);
    if text == "" || number(text).None? then 0.0 else number(text).value
  }

  ghost predicate CanBeShown(row: Row, number: Reader) {
    RowReadings.SaysYes(row, "analysis_available") && RowReadings.Count(row, "trade_count", number) > 0
  }

  /** Higher expectancy first, then higher profit, then more trades, then as listed. */
  ghost predicate ShownBefore(rows: seq<Row>, i: nat, j: nat, number: Reader)
    requires i < |rows| && j < |rows|
  {
    var a, b := rows[i], rows[j];
    var expectancyA, expectancyB := Amount(a, "expectancy_r", number), Amount(b, "expectancy_r", number);
    var netA, netB := Amount(a, "net_pnl", number), Amount(b, "net_pnl", number);
    var tradesA, tradesB := RowReadings.Count(a, "trade_count", number), RowReadings.Count(b, "trade_count", number);
    if expectancyA != expectancyB then expectancyA > expectancyB
    else if netA != netB then netA > netB
    else if tradesA != tradesB then tradesA > tradesB
    else i < j
  }

  /** The positions of all rows that can be shown, the best first. */
  ghost predicate IsRankingOf(order: seq<nat>, rows: seq<Row>, number: Reader) {
    && (forall i :: 0 <= i < |order| ==> order[i] < |rows|)
    && HoldsShown(order, rows, number) && IsInOrder(order, rows, number)
  }

  ghost predicate HoldsShown(order: seq<nat>, rows: seq<Row>, number: Reader) {
    forall k: nat :: k in order <==> k < |rows| && CanBeShown(rows[k], number)
  }

  ghost predicate IsInOrder(order: seq<nat>, rows: seq<Row>, number: Reader)
    requires forall i :: 0 <= i < |order| ==> order[i] < |rows|
  {
    forall i, j :: 0 <= i < j < |order| ==> order[i] != order[j] && ShownBefore(rows, order[i], order[j], number)
  }

  ghost predicate ShowsFigures(
      j: Json, pid: string, name: string, trades: int, net: real, expectancy: real, winrate: real,
      profitFactor: real, drawdown: real)
  {
    && j.Object?
    && j.fields.Keys == {"pattern_id", "bucket", "trade_count", "net_pnl", "expectancy_r", "winrate",
                         "profit_factor", "max_drawdown"}
    && j.fields["pattern_id"] == Text(pid) && j.fields["bucket"] == Text(name)
    && j.fields["trade_count"] == Number(trades as real) && j.fields["net_pnl"] == Number(net)
    && j.fields["expectancy_r"] == Number(expectancy) && j.fields["winrate"] == Number(winrate)
    && j.fields["profit_factor"] == Number(profitFactor) && j.fields["max_drawdown"] == Number(drawdown)
  }

  /** The object shows this row: its name from the given column, `unknown` for none, and its figures. */
  ghost predicate ShowsRow(j: Json, row: Row, column: string, number: Reader) {
    ShowsFigures(j, if RowReadings.IsFilled(row, "pattern_id") then row["pattern_id"] else "",
                 if RowReadings.IsFilled(row, column) then row[column] else "unknown",
                 RowReadings.Count(row, "trade_count", number), Amount(row, "net_pnl", number),
                 Amount(row, "expectancy_r", number), Amount(row, "winrate", number),
                 Amount(row, "profit_factor", number), Amount(row, "max_drawdown", number))
  }

  /** The first row with an `empty_reason` gives the reason, unless that one is blank. */
  ghost predicate IsReason(reason: string, rows: seq<Row>, fallback: string) {
    || (exists k :: GivesReason(rows, k) && Strip(rows[k]["empty_reason"]) == reason != "")
    || (reason == fallback && forall k :: GivesReason(rows, k) ==> Strip(rows[k]["empty_reason"]) == "")
  }

  ghost predicate GivesReason(rows: seq<Row>, k: int) {
    && 0 <= k < |rows| && RowReadings.IsFilled(rows[k], "empty_reason")
    && forall i :: 0 <= i < k ==> !RowReadings.IsFilled(rows[i], "empty_reason")
  }

  ghost predicate IsUnavailable(section: Json, reason: string) {
    && section.Object?
    && section.fields.Keys == {"available", "buckets", "empty_reason"}
    && section.fields["available"] == Bool(false) && section.fields["buckets"] == List([])
    && section.fields["empty_reason"] == Text(reason)
  }

  ghost predicate IsAvailable(section: Json, count: nat, best: Json, worst: Json, items: seq<Json>) {
    && section.Object?
    && section.fields.Keys == {"available", "buckets", "empty_reason", "bucket_count", "best", "worst"}
    && section.fields["available"] == Bool(true) && section.fields["empty_reason"] == Text("")
    && section.fields["bucket_count"] == Number(count as real)
    && section.fields["best"] == best && section.fields["worst"] == worst && section.fields["buckets"] == List(items)
  }

  /** A section of the summary: at most twenty rows, the best ones, or why there are none. */
  ghost predicate IsSectionOf(section: Json, rows: seq<Row>, column: string, fallback: string, number: Reader) {
    exists order :: IsRankingOf(order, rows, number) && IsSectionIn(section, rows, column, fallback, order, number)
  }

  ghost predicate IsSectionIn(
      section: Json, rows: seq<Row>, column: string, fallback: string, order: seq<nat>, number: Reader)
    requires IsRankingOf(order, rows, number)
  {
    if order == [] then
      exists reason :: IsUnavailable(section, reason) && IsReason(reason, rows, fallback)
    else
      exists best, worst, items ::
        && IsAvailable(section, |order|, best, worst, items)
        && ShowsRow(best, rows[order[0]], column, number)
        && ShowsRow(worst, rows[order[|order| - 1]], column, number)
        && ShowsFirst(items, rows, column, order, number)
  }

  ghost predicate ShowsFirst(items: seq<Json>, rows: seq<Row>, column: string, order: seq<nat>, number: Reader)
    requires IsRankingOf(order, rows, number)
  {
    && |items| == (if |order| < 20 then |order| else 20)
    && forall k :: 0 <= k < |items| ==> ShowsRow(items[k], rows[order[k]], column, number)
  }

  // ----- the ranking by positions

  /** One more element, at the given place. */
  ghost function Put<T>(xs: seq<T>, p: nat, x: T): (r: seq<T>)
    requires p <= |xs|
    ensures |r| == |xs| + 1
    ensures forall i :: 0 <= i < |r| ==> r[i] == if i < p then xs[i] else if i == p then x else xs[i - 1]
  {
    xs[..p] + [x] + xs[p..]
  }

  lemma PutInFront<T>(xs: seq<T>, p: nat, x: T, last: T)
    requires p <= |xs|
    ensures Put(xs, p, x) + [last] == Put(xs + [last], p, x)
  {
  }

  lemma NotAboveAny(s: seq<Bucket>, x: Bucket)
    requires s != [] && IsRanked(s) && !Above(x, s[|s| - 1])
    ensures forall k :: 0 <= k < |s| ==> !Above(x, s[k])
  {
    forall k | 0 <= k < |s|
      ensures !Above(x, s[k])
    {
      AboveIsAnOrder(x, s[|s| - 1], s[k]);
    }
  }

  lemma {:induction false} InsertAt(s: seq<Bucket>, x: Bucket) returns (p: nat)
    requires IsRanked(s)
    ensures p <= |s| && Insert(s, x) == Put(s, p, x)
    ensures forall k :: 0 <= k < |s| ==> (Above(x, s[k]) <==> p <= k)
  {
    if s == [] {
      p := 0;
    } else if Above(x, s[|s| - 1]) {
      var front, last := s[..|s| - 1], s[|s| - 1];
      p := InsertAt(front, x);
      PutInFront(front, p, x, last);
      assert s == front + [last];
    } else {
      p := |s|;
      NotAboveAny(s, x);
    }
  }

  /** Above, or neither is and it comes first. */
  ghost predicate Outranks(s: seq<Bucket>, i: nat, j: nat)
    requires i < |s| && j < |s|
  {
    Above(s[i], s[j]) || (!Above(s[j], s[i]) && i < j)
  }

  ghost predicate IsOrderOf(at: seq<nat>, s: seq<Bucket>) {
    && |at| == |s|
    && (forall i :: 0 <= i < |at| ==> at[i] < |s|)
    && (forall k: nat :: k < |s| ==> k in at)
    && (forall i, j :: 0 <= i < j < |at| ==> at[i] != at[j] && Outranks(s, at[i], at[j]))
  }

  ghost predicate PicksBuckets(r: seq<Bucket>, s: seq<Bucket>, at: seq<nat>) {
    |r| == |at| && forall i :: 0 <= i < |r| ==> at[i] < |s| && r[i] == s[at[i]]
  }

  lemma PutHas<T>(xs: seq<T>, p: nat, x: T, y: T)
    requires p <= |xs|
    ensures y in Put(xs, p, x) <==> y == x || y in xs
  {
    var r := Put(xs, p, x);
    assert r[p] == x;
    if i :| 0 <= i < |xs| && xs[i] == y {
      assert r[if i < p then i else i + 1] == y;
    }
  }

  lemma OutranksInFront(s: seq<Bucket>, i: nat, j: nat)
    requires s != [] && i < |s| - 1 && j < |s| - 1
    ensures Outranks(s[..|s| - 1], i, j) <==> Outranks(s, i, j)
  {
  }

  /** The last bucket goes in front of those it beats, behind all others. */
  lemma PlaceLast(s: seq<Bucket>, at: seq<nat>, p: nat)
    requires s != [] && IsOrderOf(at, s[..|s| - 1]) && p <= |at|
    requires forall k :: 0 <= k < p ==> !Above(s[|s| - 1], s[at[k]])
    requires forall k :: p <= k < |at| ==> Above(s[|s| - 1], s[at[k]])
    ensures IsOrderOf(Put(at, p, |s| - 1), s)
  {
    var n := |s| - 1;
    var at' := Put(at, p, n);
    forall k: nat | k < |s|
      ensures k in at'
    {
      PutHas(at, p, n, k);
    }
    forall i, j | 0 <= i < j < |at|
      ensures at[i] != at[j] && Outranks(s, at[i], at[j])
    {
      OutranksInFront(s, at[i], at[j]);
    }
    forall k | p <= k < |at|
      ensures Outranks(s, n, at[k])
    {
    }
    forall k | 0 <= k < p
      ensures Outranks(s, at[k], n)
    {
    }
  }

  /** Where the sort puts one more bucket. */
  lemma InsertedAt(s: seq<Bucket>, r: seq<Bucket>, at: seq<nat>, x: Bucket) returns (p: nat)
    requires PicksBuckets(r, s, at) && IsRanked(r)
    ensures p <= |at| == |r| && Insert(r, x) == Put(r, p, x)
    ensures forall k :: 0 <= k < |at| ==> at[k] < |s| && (Above(x, s[at[k]]) <==> p <= k)
  {
    p := InsertAt(r, x);
  }

  lemma PutPicks(s: seq<Bucket>, r: seq<Bucket>, at: seq<nat>, x: Bucket, p: nat)
    requires PicksBuckets(r, s, at) && p <= |at|
    ensures p <= |r| && PicksBuckets(Put(r, p, x), s + [x], Put(at, p, |s|))
  {
  }

  lemma RankingIsRanked(s: seq<Bucket>)
    ensures IsRanked(Ranking(s))
  {
    RankingIsStableSort(s);
  }

  lemma RankingOneMore(s: seq<Bucket>, x: Bucket)
    ensures Ranking(s + [x]) == Insert(Ranking(s), x)
  {
    assert (s + [x])[..|s|] == s;
  }

  lemma OneMoreRanked(s: seq<Bucket>, r: seq<Bucket>, at: seq<nat>, x: Bucket) returns (more: seq<nat>)
    requires IsOrderOf(at, s) && PicksBuckets(r, s, at) && IsRanked(r)
    ensures IsOrderOf(more, s + [x]) && PicksBuckets(Insert(r, x), s + [x], more)
  {
    var p := InsertedAt(s, r, at, x);
    assert (s + [x])[..|s|] == s;
    PlaceLast(s + [x], at, p);
    PutPicks(s, r, at, x, p);
    more := Put(at, p, |s|);
  }

  lemma {:induction false} RankedAt(s: seq<Bucket>) returns (at: seq<nat>)
    ensures IsOrderOf(at, s) && PicksBuckets(Ranking(s), s, at)
  {
    if s == [] {
      at := [];
    } else {
      var front, x := s[..|s| - 1], s[|s| - 1];
      at := RankedAt(front);
      RankingIsRanked(front);
      RankingOneMore(front, x);
      at := OneMoreRanked(front, Ranking(front), at, x);
      assert s == front + [x];
    }
  }

  // ----- the rows behind the buckets

  lemma AmountIs(row: Row, column: string, number: Reader)
    ensures AsFloat(row, column, number) == Amount(row, column, number)
  {
    RowReadings.CellIs(row, column);
  }

  lemma CanBeShownIff(row: Row, column: string, number: Reader)
    ensures EntryOf(row, column, number).available <==> CanBeShown(row, number)
  {
    RowReadings.CellIs(row, "analysis_available");
    RowReadings.CountIs(row, "trade_count", number);
  }

  /** In order, the positions of the available entries. */
  ghost predicate ListsAvailable(from: seq<nat>, entries: seq<Entry>) {
    && (forall i :: 0 <= i < |from| ==> from[i] < |entries|)
    && (forall i, j :: 0 <= i < j < |from| ==> from[i] < from[j])
    && forall k: nat :: k in from <==> k < |entries| && entries[k].available
  }

  ghost predicate AreBucketsOf(buckets: seq<Bucket>, entries: seq<Entry>, from: seq<nat>) {
    |buckets| == |from| && forall i :: 0 <= i < |from| ==> from[i] < |entries| && buckets[i] == entries[from[i]].bucket
  }

  lemma AvailableOneMore(buckets: seq<Bucket>, entries: seq<Entry>, from: seq<nat>, e: Entry)
    requires ListsAvailable(from, entries) && AreBucketsOf(buckets, entries, from)
    ensures ListsAvailable(from + (if e.available then [|entries|] else []), entries + [e])
    ensures AreBucketsOf(buckets + (if e.available then [e.bucket] else []), entries + [e],
                         from + (if e.available then [|entries|] else []))
  {
  }

  lemma {:induction false} AvailableAt(entries: seq<Entry>) returns (from: seq<nat>)
    ensures ListsAvailable(from, entries) && AreBucketsOf(Available(entries), entries, from)
  {
    if entries == [] {
      from := [];
    } else {
      var before, e := entries[..|entries| - 1], entries[|entries| - 1];
      from := AvailableAt(before);
      AvailableOneMore(Available(before), before, from, e);
      from := from + if e.available then [|before|] else [];
      assert entries == before + [e];
    }
  }

  lemma BucketIs(row: Row, column: string, number: Reader)
    ensures var b := EntryOf(row, column, number).bucket;
            && b.expectancy == Amount(row, "expectancy_r", number) && b.net == Amount(row, "net_pnl", number)
            && b.winrate == Amount(row, "winrate", number) && b.profitFactor == Amount(row, "profit_factor", number)
            && b.drawdown == Amount(row, "max_drawdown", number)
            && b.trades == RowReadings.Count(row, "trade_count", number)
            && b.patternId == (if RowReadings.IsFilled(row, "pattern_id") then row["pattern_id"] else "")
            && b.name == if RowReadings.IsFilled(row, column) then row[column] else "unknown"
  {
    AmountIs(row, "expectancy_r", number);
    AmountIs(row, "net_pnl", number);
    AmountIs(row, "winrate", number);
    AmountIs(row, "profit_factor", number);
    AmountIs(row, "max_drawdown", number);
    RowReadings.CountIs(row, "trade_count", number);
  }

  lemma OutranksIs(rows: seq<Row>, column: string, number: Reader, from: seq<nat>, s: seq<Bucket>, i: nat, j: nat)
    requires AreBucketsOf(s, Entries(rows, column, number), from) && i < |from| && j < |from|
    requires i < j <==> from[i] < from[j]
    requires i != j && Outranks(s, i, j)
    ensures ShownBefore(rows, from[i], from[j], number)
  {
    BucketIs(rows[from[i]], column, number);
    BucketIs(rows[from[j]], column, number);
  }

  /** The ranked buckets are of the rows at these positions. */
  ghost predicate AreRanked(ranked: seq<Bucket>, rows: seq<Row>, column: string, number: Reader, order: seq<nat>) {
    && |ranked| == |order|
    && forall i :: 0 <= i < |order| ==>
         order[i] < |rows| && ranked[i] == EntryOf(rows[order[i]], column, number).bucket
  }

  lemma ShownIff(rows: seq<Row>, column: string, number: Reader, from: seq<nat>, k: nat)
    requires ListsAvailable(from, Entries(rows, column, number))
    ensures k in from <==> k < |rows| && CanBeShown(rows[k], number)
  {
    if k < |rows| {
      CanBeShownIff(rows[k], column, number);
    }
  }

  /** The listed positions, in the order of the ranking. */
  ghost function Through(from: seq<nat>, at: seq<nat>): (order: seq<nat>)
    requires forall i :: 0 <= i < |at| ==> at[i] < |from|
    ensures |order| == |at| && forall i :: 0 <= i < |at| ==> order[i] == from[at[i]]
  {
    seq(|at|, i requires 0 <= i < |at| => from[at[i]])
  }

  lemma ThroughHas(from: seq<nat>, at: seq<nat>, k: nat)
    requires forall i :: 0 <= i < |at| ==> at[i] < |from|
    requires forall i: nat :: i < |from| ==> i in at
    ensures k in Through(from, at) <==> k in from
  {
    var order := Through(from, at);
    if k in from {
      var i: nat :| i < |from| && from[i] == k;
      assert i in at;
      var j :| 0 <= j < |at| && at[j] == i;
      assert order[j] == k;
    }
  }

  lemma ThroughInOrder(
      rows: seq<Row>, column: string, number: Reader, from: seq<nat>, s: seq<Bucket>, at: seq<nat>, i: nat, j: nat)
    requires ListsAvailable(from, Entries(rows, column, number)) && AreBucketsOf(s, Entries(rows, column, number), from)
    requires IsOrderOf(at, s) && i < j < |at|
    ensures from[at[i]] != from[at[j]] && ShownBefore(rows, from[at[i]], from[at[j]], number)
  {
    OutranksIs(rows, column, number, from, s, at[i], at[j]);
  }

  lemma ThroughHolds(rows: seq<Row>, column: string, number: Reader, from: seq<nat>, at: seq<nat>)
    requires ListsAvailable(from, Entries(rows, column, number))
    requires forall i :: 0 <= i < |at| ==> at[i] < |from|
    requires forall i: nat :: i < |from| ==> i in at
    ensures HoldsShown(Through(from, at), rows, number)
  {
    forall k: nat
      ensures k in Through(from, at) <==> k < |rows| && CanBeShown(rows[k], number)
    {
      ThroughHas(from, at, k);
      ShownIff(rows, column, number, from, k);
    }
  }

  lemma ThroughIsInOrder(rows: seq<Row>, column: string, number: Reader, from: seq<nat>, s: seq<Bucket>, at: seq<nat>)
    requires ListsAvailable(from, Entries(rows, column, number)) && AreBucketsOf(s, Entries(rows, column, number), from)
    requires IsOrderOf(at, s)
    ensures IsInOrder(Through(from, at), rows, number)
  {
    forall i, j | 0 <= i < j < |at|
      ensures from[at[i]] != from[at[j]] && ShownBefore(rows, from[at[i]], from[at[j]], number)
    {
      ThroughInOrder(rows, column, number, from, s, at, i, j);
    }
  }

  lemma RankingByRows(rows: seq<Row>, column: string, number: Reader, from: seq<nat>, s: seq<Bucket>, at: seq<nat>)
    requires ListsAvailable(from, Entries(rows, column, number)) && AreBucketsOf(s, Entries(rows, column, number), from)
    requires IsOrderOf(at, s)
    ensures IsRankingOf(Through(from, at), rows, number)
  {
    ThroughHolds(rows, column, number, from, at);
    ThroughIsInOrder(rows, column, number, from, s, at);
  }

  lemma RankedByRows(
      rows: seq<Row>, column: string, number: Reader, from: seq<nat>, s: seq<Bucket>, at: seq<nat>, ranked: seq<Bucket>)
    requires AreBucketsOf(s, Entries(rows, column, number), from) && PicksBuckets(ranked, s, at)
    ensures AreRanked(ranked, rows, column, number, Through(from, at))
  {
  }

  lemma OrderOf(rows: seq<Row>, column: string, number: Reader) returns (order: seq<nat>)
    ensures IsRankingOf(order, rows, number)
    ensures AreRanked(Ranking(Available(Entries(rows, column, number))), rows, column, number, order)
  {
    var s := Available(Entries(rows, column, number));
    var from := AvailableAt(Entries(rows, column, number));
    var at := RankedAt(s);
    order := Through(from, at);
    RankingByRows(rows, column, number, from, s, at);
    RankedByRows(rows, column, number, from, s, at, Ranking(s));
  }

  // ----- the sections

  lemma BucketFigures(b: Bucket)
    ensures ShowsFigures(BucketJson(b), b.patternId, b.name, b.trades, b.net, b.expectancy, b.winrate, b.profitFactor,
                         b.drawdown)
  {
  }

  lemma ShowsItsRow(row: Row, column: string, number: Reader)
    ensures ShowsRow(BucketJson(EntryOf(row, column, number).bucket), row, column, number)
  {
    BucketIs(row, column, number);
    BucketFigures(EntryOf(row, column, number).bucket);
  }

  lemma GivesLater(rows: seq<Row>)
    requires rows != [] && !RowReadings.IsFilled(rows[0], "empty_reason")
    ensures forall k :: GivesReason(rows, k) ==> GivesReason(rows[1..], k - 1) && rows[1..][k - 1] == rows[k]
    ensures forall k :: GivesReason(rows[1..], k) ==> GivesReason(rows, k + 1) && rows[k + 1] == rows[1..][k]
  {
  }

  lemma {:induction false} FirstReasonIs(rows: seq<Row>, entries: seq<Entry>)
    requires |entries| == |rows|
    requires forall i :: 0 <= i < |rows| ==> entries[i].reason == Get(rows[i], "empty_reason")
    ensures FirstReason(entries) != "" ==>
              exists k :: GivesReason(rows, k) && Strip(rows[k]["empty_reason"]) == FirstReason(entries)
    ensures FirstReason(entries) == "" ==>
              forall k :: GivesReason(rows, k) ==> Strip(rows[k]["empty_reason"]) == ""
  {
    if rows != [] && entries[0].reason == "" {
      FirstReasonIs(rows[1..], entries[1..]);
      GivesLater(rows);
    }
  }

  lemma UnavailableSection(reason: string)
    ensures IsUnavailable(BreakdownJson(Breakdown.Missing(reason)), reason)
  {
  }

  lemma AvailableSection(count: nat, best: Bucket, worst: Bucket, buckets: seq<Bucket>)
    ensures IsAvailable(BreakdownJson(Found(count, best, worst, buckets)), count, BucketJson(best), BucketJson(worst),
                        Map(buckets, BucketJson))
  {
  }

  lemma ReasonIs(rows: seq<Row>, column: string, fallback: string, number: Reader)
    ensures var found := FirstReason(Entries(rows, column, number));
            IsReason(if found == "" then fallback else found, rows, fallback)
  {
    FirstReasonIs(rows, Entries(rows, column, number));
  }

  lemma ShowsRanked(ranked: seq<Bucket>, rows: seq<Row>, column: string, order: seq<nat>, number: Reader, i: nat)
    requires AreRanked(ranked, rows, column, number, order) && i < |order|
    ensures ShowsRow(BucketJson(ranked[i]), rows[order[i]], column, number)
  {
    ShowsItsRow(rows[order[i]], column, number);
  }

  lemma ShowsFirstOf(ranked: seq<Bucket>, rows: seq<Row>, column: string, order: seq<nat>, number: Reader)
    requires IsRankingOf(order, rows, number) && AreRanked(ranked, rows, column, number, order)
    ensures ShowsFirst(Map(ranked[..if |ranked| < 20 then |ranked| else 20], BucketJson), rows, column, order, number)
  {
    var items := Map(ranked[..if |ranked| < 20 then |ranked| else 20], BucketJson);
    forall k | 0 <= k < |items|
      ensures ShowsRow(items[k], rows[order[k]], column, number)
    {
      ShowsRanked(ranked, rows, column, order, number, k);
    }
  }

  /** The section written of a table is the one its rows make. */
  lemma SectionReports(d: Breakdown, rows: seq<Row>, column: string, fallback: string, number: Reader)
    requires IsBreakdown(d, Entries(rows, column, number), fallback)
    ensures IsSectionOf(BreakdownJson(d), rows, column, fallback, number)
  {
    var order := OrderOf(rows, column, number);
    var ranked := Ranking(Available(Entries(rows, column, number)));
    if order == [] {
      UnavailableSection(d.reason);
      ReasonIs(rows, column, fallback, number);
    } else {
      AvailableSection(d.count, d.best, d.worst, d.buckets);
      ShowsRanked(ranked, rows, column, order, number, 0);
      ShowsRanked(ranked, rows, column, order, number, |order| - 1);
      ShowsFirstOf(ranked, rows, column, order, number);
    }
    assert IsSectionIn(BreakdownJson(d), rows, column, fallback, order, number);
  }

  // ----- the entries of the file

  ghost predicate HasEntry(o: Fields, key: string, value: Json) {
    key in o && o[key] == value
  }

  /** The entry is copied under another name if it counts, and there is none otherwise. */
  ghost predicate CopiesIfAny(o: Fields, key: string, source: Fields, from: string) {
    if from in source && ReportedFaults.Counts(source[from]) then HasEntry(o, key, source[from]) else key !in o
  }

  ghost predicate IsVerdictKey(key: string) {
    || key == "director_gate" || key == "director_gate_status" || key == "schema_valid" || key == "package_valid"
    || key == "promotion_allowed" || key == "active_blocker_count"
  }

  /** The verdict, the two sections, and the other figures as given. */
  ghost predicate IsSummaryOf(summary: Fields, figures: Fields, regimes: Json, variants: Json, blockers: nat) {
    && GivesVerdict(summary, blockers)
    && HasEntry(summary, "by_regime", regimes) && HasEntry(summary, "by_entry_variant", variants)
    && forall key :: !IsVerdictKey(key) && key != "by_regime" && key != "by_entry_variant" ==>
         At(summary, key) == At(figures, key) && (key in summary <==> key in figures)
  }

  ghost predicate IsFileKey(key: string) {
    || key == "created_at" || key == "package" || key == "status" || key == "schema_valid" || key == "package_valid"
    || key == "director_gate_status" || key == "promotion_allowed" || key == "blockers" || key == "summary"
    || key == "recommendations" || key == "pattern_recommendations"
  }

  ghost predicate HasVerdict(
      o: Fields, createdAt: string, package: string, status: string, blockers: seq<Json>, summary: Fields)
  {
    && HasEntry(o, "created_at", Text(createdAt)) && HasEntry(o, "package", Text(package))
    && HasEntry(o, "status", Text(status)) && HasEntry(o, "director_gate_status", Text(status))
    && HasEntry(o, "schema_valid", Bool(status != "invalid")) && HasEntry(o, "package_valid", Bool(status != "invalid"))
    && HasEntry(o, "promotion_allowed", Bool(status == "passed" && blockers == []))
    && HasEntry(o, "blockers", List(blockers)) && HasEntry(o, "summary", Object(summary))
  }

  /** The verdict, the recommendations there are, and nothing else. */
  ghost predicate IsFileOf(
      o: Fields, createdAt: string, package: string, status: string, blockers: seq<Json>, summary: Fields)
  {
    && HasVerdict(o, createdAt, package, status, blockers, summary)
    && CopiesIfAny(o, "recommendations", summary, "actionable_recommendations")
    && CopiesIfAny(o, "pattern_recommendations", summary, "pattern_recommendations")
    && forall key :: key in o ==> IsFileKey(key)
  }

  ghost predicate IsVerdictEntry(key: string) {
    IsFileKey(key) && key != "recommendations" && key != "pattern_recommendations"
  }

  lemma VerdictReports(createdAt: string, package: string, status: string, blockers: seq<Json>, summary: Fields)
    ensures var o := BasePayload(createdAt, package, status, blockers, summary);
            && HasVerdict(o, createdAt, package, status, blockers, summary)
            && forall key :: key in o <==> IsVerdictEntry(key)
  {
  }

  lemma CopyReports(o: Fields, key: string, source: Fields, from: string)
    requires key !in o
    ensures CopiesIfAny(CopyIfAny(o, key, source, from), key, source, from)
    ensures forall other :: other != key ==>
              && At(CopyIfAny(o, key, source, from), other) == At(o, other)
              && (other in CopyIfAny(o, key, source, from) <==> other in o)
  {
    ReportedFaults.CountsIs(At(source, from));
  }

  lemma VerdictStays(
      o: Fields, o': Fields, createdAt: string, package: string, status: string, blockers: seq<Json>, summary: Fields)
    requires HasVerdict(o, createdAt, package, status, blockers, summary)
    requires forall key :: IsVerdictEntry(key) ==> At(o', key) == At(o, key) && (key in o' <==> key in o)
    ensures HasVerdict(o', createdAt, package, status, blockers, summary)
  {
  }

  lemma PayloadReports(createdAt: string, package: string, status: string, blockers: seq<Json>, summary: Fields)
    ensures IsFileOf(ResultPayload(createdAt, package, status, blockers, summary), createdAt, package, status,
                     blockers, CompleteSummary(status, blockers, summary))
  {
    var complete := CompleteSummary(status, blockers, summary);
    var o := BasePayload(createdAt, package, status, blockers, complete);
    var o' := CopyIfAny(o, "recommendations", complete, "actionable_recommendations");
    VerdictReports(createdAt, package, status, blockers, complete);
    CopyReports(o, "recommendations", complete, "actionable_recommendations");
    CopyReports(o', "pattern_recommendations", complete, "pattern_recommendations");
    VerdictStays(o, CopyIfAny(o', "pattern_recommendations", complete, "pattern_recommendations"), createdAt, package,
                 status, blockers, complete);
  }

  /** The verdict's own entries of a summary. */
  ghost predicate GivesVerdict(summary: Fields, blockers: nat) {
    var verdict := Text(if blockers == 0 then "passed" else "blocked");
    && HasEntry(summary, "director_gate", verdict) && HasEntry(summary, "director_gate_status", verdict)
    && HasEntry(summary, "schema_valid", Bool(true)) && HasEntry(summary, "package_valid", Bool(true))
    && HasEntry(summary, "promotion_allowed", Bool(blockers == 0))
    && HasEntry(summary, "active_blocker_count", Number(blockers as real))
  }

  lemma VerdictEntriesGive(blockers: nat)
    ensures GivesVerdict(VerdictEntries(blockers), blockers)
    ensures forall key :: key in VerdictEntries(blockers) <==> IsVerdictKey(key)
  {
  }

  lemma LaterEntriesWin(figures: Fields, verdict: Fields, sections: Fields, blockers: nat)
    requires GivesVerdict(verdict, blockers) && forall key :: key in sections ==> !IsVerdictKey(key)
    ensures GivesVerdict(figures + verdict + sections, blockers)
  {
  }

  lemma OthersStay(figures: Fields, verdict: Fields, sections: Fields, key: string)
    requires key !in verdict && key !in sections
    ensures At(figures + verdict + sections, key) == At(figures, key)
    ensures key in figures + verdict + sections <==> key in figures
  {
  }

  lemma LastEntryWins(o: Fields, more: Fields, key: string)
    requires key in more
    ensures HasEntry(o + more, key, more[key])
  {
  }

  lemma SummaryOf(
      summary: Fields, figures: Fields, verdict: Fields, sections: Fields, regimes: Json, variants: Json, blockers: nat)
    requires summary == figures + verdict + sections
    requires GivesVerdict(verdict, blockers) && forall key :: key in verdict <==> IsVerdictKey(key)
    requires HasEntry(sections, "by_regime", regimes) && HasEntry(sections, "by_entry_variant", variants)
    requires forall key :: key in sections ==> key == "by_regime" || key == "by_entry_variant"
    requires forall key :: key in sections ==> !IsVerdictKey(key)
    ensures IsSummaryOf(summary, figures, regimes, variants, blockers)
  {
    LaterEntriesWin(figures, verdict, sections, blockers);
    LastEntryWins(figures + verdict, sections, "by_regime");
    LastEntryWins(figures + verdict, sections, "by_entry_variant");
    forall key | !IsVerdictKey(key) && key != "by_regime" && key != "by_entry_variant"
      ensures At(summary, key) == At(figures, key) && (key in summary <==> key in figures)
    {
      OthersStay(figures, verdict, sections, key);
    }
  }

  lemma SectionEntries(sections: Fields, regimes: Json, variants: Json)
    requires sections == map["by_regime" := regimes, "by_entry_variant" := variants]
    ensures HasEntry(sections, "by_regime", regimes) && HasEntry(sections, "by_entry_variant", variants)
    ensures forall key :: key in sections ==> key == "by_regime" || key == "by_entry_variant"
    ensures forall key :: key in sections ==> !IsVerdictKey(key)
  {
  }

  lemma SummaryReports(figures: Fields, byRegime: Breakdown, byVariant: Breakdown, blockers: nat)
    ensures IsSummaryOf(Summary(figures, byRegime, byVariant, blockers), figures, BreakdownJson(byRegime),
                        BreakdownJson(byVariant), blockers)
  {
    var regimes, variants := BreakdownJson(byRegime), BreakdownJson(byVariant);
    var sections := map["by_regime" := regimes, "by_entry_variant" := variants];
    VerdictEntriesGive(blockers);
    SectionEntries(sections, regimes, variants);
    SummaryOf(Summary(figures, byRegime, byVariant, blockers), figures, VerdictEntries(blockers), sections, regimes,
              variants, blockers);
  }

  lemma KeepsEntry(o: Fields, key: string, value: Json)
    requires key in o
    ensures SetDefault(o, key, value) == o
  {
  }

  lemma CompleteAlready(status: string, blockers: seq<Json>, summary: Fields, count: nat)
    requires GivesVerdict(summary, count)
    ensures CompleteSummary(status, blockers, summary) == summary
  {
    var valid := Bool(status != "invalid");
    KeepsEntry(summary, "schema_valid", valid);
    KeepsEntry(summary, "package_valid", valid);
    KeepsEntry(summary, "director_gate_status", Text(status));
    KeepsEntry(summary, "promotion_allowed", Bool(PromotionOf(status, blockers)));
  }

  /** The file and its summary, by the blockers, the given figures and the two sections. */
  ghost predicate IsGateFile(
      o: Fields, createdAt: string, package: string, blockers: seq<Json>, figures: Fields, summary: Fields,
      regimes: Json, variants: Json)
  {
    && IsFileOf(o, createdAt, package, if blockers == [] then "passed" else "blocked", blockers, summary)
    && IsSummaryOf(summary, figures, regimes, variants, |blockers|)
  }

  lemma WrittenFile(
      o: Fields, createdAt: string, package: string, blockers: seq<Json>, figures: Fields,
      byRegime: Breakdown, byVariant: Breakdown)
    returns (summary: Fields)
    requires IsResult(o, createdAt, package, blockers, figures, byRegime, byVariant)
    ensures IsGateFile(o, createdAt, package, blockers, figures, summary, BreakdownJson(byRegime),
                       BreakdownJson(byVariant))
  {
    summary := Summary(figures, byRegime, byVariant, |blockers|);
    var status := if blockers == [] then "passed" else "blocked";
    SummaryReports(figures, byRegime, byVariant, |blockers|);
    CompleteAlready(status, blockers, summary, |blockers|);
    PayloadReports(createdAt, package, status, blockers, summary);
  }

  ghost predicate SectionsAreOf(t: Tables, regimes: Json, variants: Json, number: Reader) {
    && IsSectionOf(regimes, t.byRegime, "market_regime", "metrics_by_regime.csv" + " is missing or empty", number)
    && IsSectionOf(variants, t.byVariant, "entry_variant_id",
                   "metrics_by_entry_variant.csv" + " is missing or empty", number)
  }

  /** What a gate run on readable tables writes. */
  lemma GateFileReports(
      o: Fields, t: Tables, number: Reader, createdAt: string, package: string, blockers: seq<Json>, figures: Fields,
      byRegime: Breakdown, byVariant: Breakdown)
    returns (summary: Fields, regimes: Json, variants: Json)
    requires IsResult(o, createdAt, package, blockers, figures, byRegime, byVariant)
    requires IsBreakdown(byRegime, Entries(t.byRegime, "market_regime", number), FallbackReason(ByRegime))
    requires IsBreakdown(byVariant, Entries(t.byVariant, "entry_variant_id", number), FallbackReason(ByVariant))
    ensures IsGateFile(o, createdAt, package, blockers, figures, summary, regimes, variants)
    ensures SectionsAreOf(t, regimes, variants, number)
  {
    summary := WrittenFile(o, createdAt, package, blockers, figures, byRegime, byVariant);
    regimes, variants := BreakdownJson(byRegime), BreakdownJson(byVariant);
    SectionReports(byRegime, t.byRegime, "market_regime", FallbackReason(ByRegime), number);
    SectionReports(byVariant, t.byVariant, "entry_variant_id", FallbackReason(ByVariant), number);
  }

  /** What a run on unreadable tables writes: no sections, and false throughout. */
  lemma InvalidFileReports(createdAt: string, package: string, reason: string) returns (summary: Fields)
    ensures IsFileOf(ResultPayload(createdAt, package, "invalid", [Text(reason)],
                                   map["director_gate" := Text("invalid")]),
                     createdAt, package, "invalid", [Text(reason)], summary)
    ensures summary.Keys == {"director_gate", "director_gate_status", "schema_valid", "package_valid",
                             "promotion_allowed"}
    ensures summary["director_gate"] == summary["director_gate_status"] == Text("invalid")
    ensures summary["schema_valid"] == summary["package_valid"] == summary["promotion_allowed"] == Bool(false)
  {
    var first := map["director_gate" := Text("invalid")];
    summary := CompleteSummary("invalid", [Text(reason)], first);
    PayloadReports(createdAt, package, "invalid", [Text(reason)], first);
  }
}
