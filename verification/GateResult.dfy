/**
  The director gate's result file: the bucket breakdowns of its summary, the JSON object it
  writes, and what the package validator demands of that object and reports from it.
  */
module GateResult {
  import opened PyText
  import opened GateRows

  // ----- bucket breakdowns

  datatype Bucket = Bucket(
    patternId: string,
    name: string,
    trades: int,
    net: real,
    expectancy: real,
    winrate: real,
    profitFactor: real,
    drawdown: real)

  /** A row of a breakdown table, as the gate reads it. */
  datatype Entry = Entry(available: bool, bucket: Bucket, reason: string)

  function EntryOf(row: Row, column: string, number: Reader): Entry {
    var name, trades := Get(row, column), AsInt(row, "trade_count", number);
    Entry(Truthy(row, "analysis_available") && trades > 0,
          Bucket(Get(row, "pattern_id"), if name == "" then "unknown" else name, trades,
                 AsFloat(row, "net_pnl", number), AsFloat(row, "expectancy_r", number), AsFloat(row, "winrate", number),
                 AsFloat(row, "profit_factor", number), AsFloat(row, "max_drawdown", number)),
          Get(row, "empty_reason"))
  }

  function Entries(rows: seq<Row>, column: string, number: Reader): (r: seq<Entry>)
    ensures |r| == |rows|
  {
    Map(rows, row => EntryOf(row, column, number))
  }

  type Score = (real, real, int)

  function ScoreOf(b: Bucket): Score {
    (b.expectancy, b.net, b.trades)
  }

  /** `a` outranks `b`: higher expectancy, then higher PnL, then more trades. */
  predicate Above(a: Bucket, b: Bucket) {
    || a.expectancy > b.expectancy
    || (a.expectancy == b.expectancy && (a.net > b.net || (a.net == b.net && a.trades > b.trades)))
  }

  predicate IsRanked(s: seq<Bucket>) {
    forall i, j :: 0 <= i < j < |s| ==> !Above(s[j], s[i])
  }

  function Insert(s: seq<Bucket>, x: Bucket): seq<Bucket> {
    if s == [] then [x]
    else
      var n := |s| - 1;
      if Above(x, s[n]) then Insert(s[..n], x) + [s[n]] else s + [x]
  }

  /** sorted(..., reverse=True): best first, equals in their original order. */
  function Ranking(s: seq<Bucket>): seq<Bucket> {
    if s == [] then [] else Insert(Ranking(s[..|s| - 1]), s[|s| - 1])
  }

  /** The buckets with one score, in order. */
  function Tied(s: seq<Bucket>, k: Score): seq<Bucket> {
    if s == [] then []
    else Tied(s[..|s| - 1], k) + if ScoreOf(s[|s| - 1]) == k then [s[|s| - 1]] else []
  }

  lemma AboveIsAnOrder(a: Bucket, b: Bucket, c: Bucket)
    ensures Above(a, b) ==> !Above(b, a)
    ensures !Above(a, b) && !Above(b, c) ==> !Above(a, c)
  {
  }

  lemma {:induction false} InsertPermutes(s: seq<Bucket>, x: Bucket)
    ensures multiset(Insert(s, x)) == multiset(s) + multiset{x}
  {
    if s != [] {
      var n := |s| - 1;
      assert s == s[..n] + [s[n]];
      if Above(x, s[n]) {
        InsertPermutes(s[..n], x);
      }
    }
  }

  lemma {:induction false} InsertRanks(s: seq<Bucket>, x: Bucket)
    requires IsRanked(s)
    ensures IsRanked(Insert(s, x))
  {
    if s != [] {
      var n := |s| - 1;
      if Above(x, s[n]) {
        InsertRanks(s[..n], x);
        InsertPermutes(s[..n], x);
        AboveIsAnOrder(x, s[n], x);
        var r := Insert(s[..n], x);
        forall i | 0 <= i < |r|
          ensures !Above(s[n], r[i])
        {
          assert r[i] in multiset(r);
          assert r[i] == x || r[i] in s[..n];
        }
      } else {
        forall i | 0 <= i < |s|
          ensures !Above(x, s[i])
        {
          AboveIsAnOrder(x, s[n], s[i]);
        }
      }
    }
  }

  lemma {:induction false} InsertKeepsTies(s: seq<Bucket>, x: Bucket, k: Score)
    ensures Tied(Insert(s, x), k) == Tied(s, k) + if ScoreOf(x) == k then [x] else []
  {
    if s != [] {
      var n := |s| - 1;
      if Above(x, s[n]) {
        InsertKeepsTies(s[..n], x, k);
        var r := Insert(s[..n], x);
        assert (r + [s[n]])[..|r|] == r;
      } else {
        assert (s + [x])[..|s|] == s;
      }
    }
  }

  /** The ranking is a stable sort: a permutation, best first, ties in their original order. */
  lemma {:induction false} RankingIsStableSort(s: seq<Bucket>)
    ensures IsRanked(Ranking(s)) && multiset(Ranking(s)) == multiset(s)
    ensures forall k :: Tied(Ranking(s), k) == Tied(s, k)
  {
    if s != [] {
      var n := |s| - 1;
      RankingIsStableSort(s[..n]);
      InsertRanks(Ranking(s[..n]), s[n]);
      InsertPermutes(Ranking(s[..n]), s[n]);
      assert s == s[..n] + [s[n]];
      forall k
        ensures Tied(Ranking(s), k) == Tied(s, k)
      {
        InsertKeepsTies(Ranking(s[..n]), s[n], k);
      }
    }
  }

  function Available(entries: seq<Entry>): (r: seq<Bucket>)
    ensures forall b :: b in r <==> exists e :: e in entries && e.available && e.bucket == b
    ensures r == [] <==> forall e :: e in entries ==> !e.available
  {
    if entries == [] then []
    else
      var n := |entries| - 1;
      assert entries == entries[..n] + [entries[n]];
      Available(entries[..n]) + if entries[n].available then [entries[n].bucket] else []
  }

  /** The first reason given, stripped; "" if no row gives one. */
  function FirstReason(entries: seq<Entry>): string {
    if entries == [] then ""
    else if entries[0].reason != "" then Strip(entries[0].reason)
    else FirstReason(entries[1..])
  }

  datatype Breakdown = Missing(reason: string) | Found(count: nat, best: Bucket, worst: Bucket, buckets: seq<Bucket>)

  /** At most the twenty best buckets, or the reason why there are none. */
  ghost predicate IsBreakdown(d: Breakdown, entries: seq<Entry>, missingReason: string) {
    var ranked := Ranking(Available(entries));
    match d
    case Missing(reason) =>
      && ranked == []
      && reason == if FirstReason(entries) == "" then missingReason else FirstReason(entries)
    case Found(count, best, worst, buckets) =>
      && count == |ranked| > 0
      && best == ranked[0] && worst == ranked[|ranked| - 1]
      && buckets == ranked[..if |ranked| < 20 then |ranked| else 20]
  }

  method BucketBreakdown(entries: seq<Entry>, missingReason: string) returns (r: Breakdown)
    ensures IsBreakdown(r, entries, missingReason)
    ensures r.Missing? <==> forall e :: e in entries ==> !e.available
  {
    var available := Available(entries);
    if available == [] {
      var reason := FirstReason(entries);
      return Breakdown.Missing(if reason == "" then missingReason else reason);
    }
    var ranked := Ranking(available);
    RankingIsStableSort(available);
    assert |multiset(ranked)| == |multiset(available)|;
    r := Found(|available|, ranked[0], ranked[|ranked| - 1], ranked[..if |ranked| < 20 then |ranked| else 20]);
  }

  /** No bucket of the table beats the best or falls below the worst one. */
  lemma BestAndWorst(entries: seq<Entry>, e: Entry)
    requires e in entries && e.available
    ensures var ranked := Ranking(Available(entries));
            && |ranked| > 0
            && !Above(e.bucket, ranked[0]) && !Above(ranked[|ranked| - 1], e.bucket)
  {
    AboveIsAnOrder(e.bucket, e.bucket, e.bucket);
    var available := Available(entries);
    var ranked := Ranking(available);
    RankingIsStableSort(available);
    assert e.bucket in available;
    assert e.bucket in multiset(ranked);
    var i :| 0 <= i < |ranked| && ranked[i] == e.bucket;
  }
}
