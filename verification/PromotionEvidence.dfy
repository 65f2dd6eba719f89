/**
  What the director gate and the validator together say about promoted patterns: the gate reads
  the trade counts of the metrics table, the validator recounts them in the trades table.
  */
module PromotionEvidence {
  import opened GateRows
  import opened DirectorGate
  import AuditExport
  import AuditMetrics

  // ----- the validator's view of the same rows

  function AmountOrBlank(row: Row, column: string, number: Reader): AuditMetrics.Cell {
    if Cell(row, column) == "" then AuditMetrics.Blank else AuditMetrics.Number(AsFloat(row, column, number))
  }

  /** A trades row; `regime` and `variant` are not columns of that table. */
  function TradeRowOf(row: Row, number: Reader): AuditExport.TradeRow {
    AuditExport.TradeRow(
      Get(row, "trade_id"), Get(row, "pattern_id"),
      AsFloat(row, "gross_pnl", number), AsFloat(row, "commission", number),
      AsFloat(row, "estimated_spread_cost", number), AsFloat(row, "estimated_slippage", number),
      AsFloat(row, "other_fees", number), AsFloat(row, "net_pnl", number), AsFloat(row, "r_multiple", number), "", "")
  }

  function MetricRowOf(row: Row, number: Reader): AuditMetrics.MetricRow {
    AuditMetrics.MetricRow(
      Get(row, "pattern_id"), AsInt(row, "trade_count", number), AsFloat(row, "gross_pnl", number),
      AsFloat(row, "net_pnl", number),
      AuditMetrics.Performance(
        AmountOrBlank(row, "avg_trade", number), AmountOrBlank(row, "median_trade", number),
        AmountOrBlank(row, "winrate", number), AmountOrBlank(row, "profit_factor", number),
        AmountOrBlank(row, "expectancy", number), AmountOrBlank(row, "max_drawdown", number)))
  }

  function TradeRows(rows: seq<Row>, number: Reader): (r: seq<AuditExport.TradeRow>)
    ensures |r| == |rows|
  {
    Map(rows, row => TradeRowOf(row, number))
  }

  function MetricRows(rows: seq<Row>, number: Reader): (r: seq<AuditMetrics.MetricRow>)
    ensures |r| == |rows|
  {
    Map(rows, row => MetricRowOf(row, number))
  }

  // ----- what is claimed about a pattern

  /** The last catalog row of the id carries a promotion status. */
  ghost predicate IsPromoted(t: Tables, pid: string) {
    exists k :: LastRowOf(t.catalog, k, pid) && StandingOf(Word(t.catalog[k], "status")) == Promotion
  }

  ghost predicate LastRowOf(catalog: seq<Row>, k: int, pid: string) {
    && 0 <= k < |catalog| && Get(catalog[k], "pattern_id") == pid
    && forall j :: k < j < |catalog| ==> Get(catalog[j], "pattern_id") != pid
  }

  ghost predicate HasMetricsRow(t: Tables, pid: string) {
    exists i :: 0 <= i < |t.metrics| && Get(t.metrics[i], "pattern_id") == pid
  }

  /** The trades table's rows of the pattern. */
  function RowsOf(trades: seq<Row>, pid: string): set<nat> {
    set i: nat | i < |trades| && Get(trades[i], "pattern_id") == pid
  }

  /** At least `count` trades of the pattern, and a fill for each one with an id. */
  ghost predicate IsTraded(t: Tables, pid: string, count: int) {
    && |RowsOf(t.trades, pid)| >= count
    && forall i :: i in RowsOf(t.trades, pid) ==> SoundTradeRow(t.trades[i], t.fills)
  }

  ghost predicate AllCoherent(t: Tables, number: Reader) {
    forall i :: 0 <= i < |t.metrics| ==>
      AuditMetrics.CoherentIn(MetricRows(t.metrics, number)[i], TradeRows(t.trades, number))
  }

  // ----- the connection

  function TradesAt(rows: seq<AuditExport.TradeRow>, pid: string): set<nat> {
    set i: nat | i < |rows| && rows[i].patternId == pid
  }

  lemma OneMoreTrade(rows: seq<AuditExport.TradeRow>, n: nat, pid: string)
    requires n < |rows|
    ensures |TradesAt(rows[..n + 1], pid)| == |TradesAt(rows[..n], pid)| + if rows[n].patternId == pid then 1 else 0
  {
    var before := TradesAt(rows[..n], pid);
    assert n !in before;
    assert TradesAt(rows[..n + 1], pid) == before + if rows[n].patternId == pid then {n} else {};
  }

  lemma OneMoreListed(rows: seq<AuditExport.TradeRow>, n: nat, pid: string)
    requires n < |rows|
    ensures |AuditMetrics.TradesOf(rows[..n + 1], pid)|
         == |AuditMetrics.TradesOf(rows[..n], pid)| + if rows[n].patternId == pid then 1 else 0
  {
    AuditMetrics.TradesOfOneMore(rows, n, pid);
  }

  lemma {:induction false} ListCounts(rows: seq<AuditExport.TradeRow>, n: nat, pid: string)
    requires n <= |rows|
    ensures |AuditMetrics.TradesOf(rows[..n], pid)| == |TradesAt(rows[..n], pid)|
  {
    if n == 0 {
      assert TradesAt(rows[..0], pid) == {};
    } else {
      ListCounts(rows, n - 1, pid);
      OneMoreTrade(rows, n - 1, pid);
      OneMoreListed(rows, n - 1, pid);
    }
  }

  lemma SameRows(trades: seq<Row>, rows: seq<AuditExport.TradeRow>, pid: string)
    requires |rows| == |trades| && forall i: nat :: i < |rows| ==> rows[i].patternId == Get(trades[i], "pattern_id")
    ensures RowsOf(trades, pid) == TradesAt(rows, pid)
  {
  }

  /** The validator's list of a pattern's trades has one entry for each of its rows. */
  lemma ListCountsRows(trades: seq<Row>, number: Reader, pid: string)
    ensures |AuditMetrics.TradesOf(TradeRows(trades, number), pid)| == |RowsOf(trades, pid)|
  {
    var rows := TradeRows(trades, number);
    ListCounts(rows, |rows|, pid);
    assert rows[..|rows|] == rows;
    forall i: nat | i < |rows|
      ensures rows[i].patternId == Get(trades[i], "pattern_id")
    {
    }
    SameRows(trades, rows, pid);
  }

  lemma PromotedStanding(t: Tables, number: Reader, pid: string)
    requires IsPromoted(t, pid)
    ensures Is(Statuses(Read(t, number).catalog), pid, Promotion)
  {
    var k: nat :| LastRowOf(t.catalog, k, pid) && StandingOf(Word(t.catalog[k], "status")) == Promotion;
    var catalog := Map(t.catalog, PatternOf);
    assert catalog[k].id == pid && catalog[k].standing == Promotion;
    LastRowDecides(catalog, k);
  }

  /** The gate's part: a covered pattern's metrics row shows enough trades. */
  lemma EnoughTradesClaimed(t: Tables, number: Reader, limits: Limits, pid: string, i: nat)
    requires i < |t.metrics|
    ensures Blockers(Read(t, number), limits) == [] ==>
              IsPromoted(t, pid) && Get(t.metrics[i], "pattern_id") == pid ==>
                AsInt(t.metrics[i], "trade_count", number) >= limits.minTrades
  {
    var p := Read(t, number);
    if Blockers(p, limits) == [] && IsPromoted(t, pid) && Get(t.metrics[i], "pattern_id") == pid {
      PromotedStanding(t, number, pid);
      SilentAt(Promoted, p, limits);
      SilentAboutPromotions(p, limits);
      assert p.metrics[i] in p.metrics && p.metrics[i] == MetricOf(t.metrics[i], number);
    }
  }

  /** The validator's part: a coherent metrics row shows the trades there are. */
  lemma ClaimsAreRows(t: Tables, number: Reader, i: nat)
    requires AllCoherent(t, number) && i < |t.metrics|
    ensures AsInt(t.metrics[i], "trade_count", number) == |RowsOf(t.trades, Get(t.metrics[i], "pattern_id"))|
  {
    var m := MetricRows(t.metrics, number)[i];
    assert m == MetricRowOf(t.metrics[i], number);
    assert AuditMetrics.CoherentIn(m, TradeRows(t.trades, number));
    ListCountsRows(t.trades, number, m.patternId);
  }

  /** A silent gate and a silent coherence check: every promoted pattern with a metrics row is really traded. */
  lemma PromotedPatternsAreTraded(t: Tables, number: Reader, limits: Limits, pid: string)
    ensures BothSilent(t, number, limits) && IsPromoted(t, pid) && HasMetricsRow(t, pid) ==>
              IsTraded(t, pid, limits.minTrades)
  {
    if BothSilent(t, number, limits) && IsPromoted(t, pid) && HasMetricsRow(t, pid) {
      var i: nat :| i < |t.metrics| && Get(t.metrics[i], "pattern_id") == pid;
      EnoughTradesClaimed(t, number, limits, pid, i);
      ClaimsAreRows(t, number, i);
      SoundTradeRows(t, number, limits);
    }
  }

  // ----- exactly which promoted patterns are covered

  ghost predicate BothSilent(t: Tables, number: Reader, limits: Limits) {
    Blockers(Read(t, number), limits) == [] && AllCoherent(t, number)
  }

  function WithTrades(t: Tables, trades: seq<Row>): Tables {
    t.(trades := trades)
  }

  /** Whatever the trades table, both programs are silent only if the pattern is traded. */
  ghost predicate SilenceShowsTrades(t: Tables, number: Reader, limits: Limits, pid: string) {
    forall trades :: BothSilent(WithTrades(t, trades), number, limits) ==>
      IsTraded(WithTrades(t, trades), pid, limits.minTrades)
  }

  /** The same row, booked on another pattern if it was the pattern's. */
  function Rebooked(row: Row, pid: string, other: string): Row {
    if Get(row, "pattern_id") == pid then row["pattern_id" := other] else row
  }

  function RebookedRows(rows: seq<Row>, pid: string, other: string): (r: seq<Row>)
    ensures |r| == |rows|
  {
    Map(rows, row => Rebooked(row, pid, other))
  }

  lemma OtherCellsKept(row: Row, pid: string, other: string)
    ensures forall c :: c != "" && c[0] != 'p' ==> Get(Rebooked(row, pid, other), c) == Get(row, c)
  {
  }

  lemma SameCell(row: Row, pid: string, other: string, column: string)
    requires column != "" && column[0] != 'p'
    ensures Cell(Rebooked(row, pid, other), column) == Cell(row, column)
  {
    OtherCellsKept(row, pid, other);
  }

  lemma RebookedForGate(row: Row, pid: string, other: string)
    ensures TradeOf(Rebooked(row, pid, other)) == TradeOf(row)
  {
    SameCell(row, pid, other, "trade_id");
    SameCell(row, pid, other, "commission");
    SameCell(row, pid, other, "estimated_spread_cost");
    SameCell(row, pid, other, "estimated_slippage");
  }

  lemma RebookedForValidator(row: Row, number: Reader, pid: string, other: string)
    ensures var row' := Rebooked(row, pid, other);
            TradeRowOf(row', number) == TradeRowOf(row, number).(patternId := Get(row', "pattern_id"))
  {
    OtherCellsKept(row, pid, other);
  }

  /** The gate does not look at the pattern of a trade. */
  lemma GateReadsAlike(t: Tables, number: Reader, pid: string, other: string)
    ensures Read(WithTrades(t, RebookedRows(t.trades, pid, other)), number) == Read(t, number)
  {
    forall i | 0 <= i < |t.trades|
      ensures TradeOf(RebookedRows(t.trades, pid, other)[i]) == TradeOf(t.trades[i])
    {
      RebookedForGate(t.trades[i], pid, other);
    }
    assert Map(RebookedRows(t.trades, pid, other), TradeOf) == Map(t.trades, TradeOf);
  }

  lemma {:induction false} SameTradesOf(a: seq<AuditExport.TradeRow>, b: seq<AuditExport.TradeRow>, pid: string)
    requires |a| == |b|
    requires forall i :: 0 <= i < |a| ==> a[i] == b[i] || (a[i].patternId != pid && b[i].patternId != pid)
    ensures AuditMetrics.TradesOf(a, pid) == AuditMetrics.TradesOf(b, pid)
  {
    if a != [] {
      var n := |a| - 1;
      SameTradesOf(a[..n], b[..n], pid);
    }
  }

  /** Every other pattern keeps its trades. */
  lemma OthersKeepTrades(trades: seq<Row>, number: Reader, pid: string, other: string, third: string)
    requires third != pid && third != other
    ensures AuditMetrics.TradesOf(TradeRows(RebookedRows(trades, pid, other), number), third)
         == AuditMetrics.TradesOf(TradeRows(trades, number), third)
  {
    var a, b := TradeRows(RebookedRows(trades, pid, other), number), TradeRows(trades, number);
    forall i | 0 <= i < |trades|
      ensures a[i] == b[i] || (a[i].patternId != third && b[i].patternId != third)
    {
      RebookedForValidator(trades[i], number, pid, other);
    }
    SameTradesOf(a, b, third);
  }

  /** Booking a pattern's trades elsewhere goes unnoticed if neither pattern has a metrics row. */
  lemma RebookingIsSilent(t: Tables, number: Reader, limits: Limits, pid: string, other: string)
    requires !HasMetricsRow(t, pid) && !HasMetricsRow(t, other)
    ensures BothSilent(t, number, limits) ==>
              BothSilent(WithTrades(t, RebookedRows(t.trades, pid, other)), number, limits)
  {
    var u := WithTrades(t, RebookedRows(t.trades, pid, other));
    GateReadsAlike(t, number, pid, other);
    if AllCoherent(t, number) {
      forall i | 0 <= i < |t.metrics|
        ensures AuditMetrics.CoherentIn(MetricRows(u.metrics, number)[i], TradeRows(u.trades, number))
      {
        var m := MetricRows(t.metrics, number)[i];
        assert AuditMetrics.CoherentIn(m, TradeRows(t.trades, number));
        assert m.patternId == Get(t.metrics[i], "pattern_id");
        OthersKeepTrades(t.trades, number, pid, other, m.patternId);
      }
    }
  }

  lemma NothingLeft(t: Tables, pid: string, other: string)
    requires other != pid
    ensures RowsOf(RebookedRows(t.trades, pid, other), pid) == {}
  {
  }

  /** An id no metrics row carries. */
  lemma {:induction false} UnlistedId(metrics: seq<Row>) returns (id: string)
    ensures forall i :: 0 <= i < |metrics| ==> |Get(metrics[i], "pattern_id")| < |id|
  {
    id := "p";
    if metrics != [] {
      var n := |metrics| - 1;
      var rest := UnlistedId(metrics[..n]);
      id := rest + Get(metrics[n], "pattern_id") + "p";
    }
  }

  /** The trades of a pattern without a metrics row can be booked elsewhere, and neither program notices. */
  lemma UntradedVariant(t: Tables, number: Reader, limits: Limits, pid: string, other: string)
    requires !HasMetricsRow(t, pid) && !HasMetricsRow(t, other) && other != pid && limits.minTrades > 0
    ensures BothSilent(t, number, limits) ==> !SilenceShowsTrades(t, number, limits, pid)
  {
    var trades := RebookedRows(t.trades, pid, other);
    RebookingIsSilent(t, number, limits, pid, other);
    NothingLeft(t, pid, other);
    assert !IsTraded(WithTrades(t, trades), pid, limits.minTrades);
  }

  /**
    What two silent programs say about a promoted pattern: that it has its trades if and only if it
    has a metrics row, or none are required.
    */
  lemma SilenceShowsTradesIff(t: Tables, number: Reader, limits: Limits, pid: string)
    ensures BothSilent(t, number, limits) && IsPromoted(t, pid) ==>
              (SilenceShowsTrades(t, number, limits, pid) <==> HasMetricsRow(t, pid) || limits.minTrades <= 0)
  {
    if BothSilent(t, number, limits) && IsPromoted(t, pid) {
      if HasMetricsRow(t, pid) || limits.minTrades <= 0 {
        forall trades
          ensures BothSilent(WithTrades(t, trades), number, limits) ==>
                    IsTraded(WithTrades(t, trades), pid, limits.minTrades)
        {
          var u := WithTrades(t, trades);
          assert IsPromoted(u, pid) && (HasMetricsRow(t, pid) ==> HasMetricsRow(u, pid));
          PromotedPatternsAreTraded(u, number, limits, pid);
          SoundTradeRows(u, number, limits);
        }
      } else {
        var other := UnlistedId(t.metrics);
        UntradedVariant(t, number, limits, pid, if other == pid then other + "p" else other);
      }
    }
  }

  /** Both programs on the same package. */
  method GateAndCoherence(t: Tables, number: Reader, limits: Limits)
    returns (blockers: seq<Blocker>, errors: seq<AuditMetrics.MetricError>)
    ensures blockers == Blockers(Read(t, number), limits)
    ensures errors == [] <==> AllCoherent(t, number)
    ensures blockers == [] && errors == [] ==>
              forall pid :: IsPromoted(t, pid) && HasMetricsRow(t, pid) ==> IsTraded(t, pid, limits.minTrades)
  {
    blockers := Evaluate(Read(t, number), limits);
    errors := AuditMetrics.CheckMetricCoherence(TradeRows(t.trades, number), MetricRows(t.metrics, number));
    forall pid
      ensures blockers == [] && errors == [] ==>
                IsPromoted(t, pid) && HasMetricsRow(t, pid) ==> IsTraded(t, pid, limits.minTrades)
    {
      PromotedPatternsAreTraded(t, number, limits, pid);
    }
  }
}
