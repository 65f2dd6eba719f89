/**
  The exporter's tables handed to the validator: whatever the closed lab trades, the checks on
  PnL, per-pattern metrics, buckets and fill references find nothing.
  */
module AuditAgreement {
  import opened AuditExport
  import opened AuditMetrics

  predicate Resolves(f: FillRow, rows: seq<TradeRow>) {
    f.tradeId != "" ==> exists i :: 0 <= i < |rows| && rows[i].tradeId == f.tradeId
  }

  /** Row numbers of the fills that name an unknown trade. */
  method CheckFillReferences(rows: seq<TradeRow>, fills: seq<FillRow>) returns (errors: seq<nat>)
    ensures forall n :: n in errors <==> 2 <= n < |fills| + 2 && !Resolves(fills[n - 2], rows)
  {
    var tradeIds := set i | 0 <= i < |rows| && rows[i].tradeId != "" :: rows[i].tradeId;
    errors := [];
    for i := 0 to |fills|
      invariant forall n :: n in errors <==> 2 <= n < i + 2 && !Resolves(fills[n - 2], rows)
    {
      assert Resolves(fills[i], rows) <==> fills[i].tradeId == "" || fills[i].tradeId in tradeIds;
      if fills[i].tradeId != "" && fills[i].tradeId !in tradeIds {
        errors := errors + [i + 2];
      }
    }
  }

  /** Exported fills always name an exported trade. */
  lemma ExportedFillsResolve(trades: seq<LabTrade>, rows: seq<TradeRow>, fills: seq<FillRow>)
    requires forall f :: f in fills ==> exists t :: t in trades && t.id in ExportedIds(rows) && f.tradeId == t.id
    ensures forall i :: 0 <= i < |fills| ==> Resolves(fills[i], rows)
  {
    forall i | 0 <= i < |fills|
      ensures Resolves(fills[i], rows)
    {
      assert fills[i] in fills;
      var row :| row in rows && row.tradeId == fills[i].tradeId;
    }
  }

  datatype Findings = Findings(
    pnl: seq<nat>,
    metrics: seq<MetricError>,
    regime: seq<BucketError>,
    variant: seq<BucketError>,
    fills: seq<nat>)

  lemma NothingListed(errors: seq<nat>)
    ensures errors == [] <==> forall e :: e !in errors
  {
    if errors != [] {
      assert errors[0] in errors;
    }
  }

  /** The trades and fills written, and what the two checks find in them. */
  method ExportTrades(trades: seq<LabTrade>, round: real -> real)
    returns (rows: seq<TradeRow>, fills: seq<FillRow>, pnl: seq<nat>, unknownFills: seq<nat>)
    requires IsRounding(round)
    ensures |rows| == |ExportedTrades(trades)|
    ensures forall i :: 0 <= i < |rows| ==> rows[i] == PaperTrade(ExportedTrades(trades)[i], round)
    ensures fills == FillsOfAll(trades, ExportedIds(rows))
    ensures forall i :: 0 <= i < |rows| ==> PnlAdds(rows[i])
    ensures forall i :: 0 <= i < |fills| ==> Resolves(fills[i], rows)
    ensures forall n :: n in pnl <==> 2 <= n < |rows| + 2 && !PnlAdds(rows[n - 2])
    ensures forall n :: n in unknownFills <==> 2 <= n < |fills| + 2 && !Resolves(fills[n - 2], rows)
    ensures pnl == [] && unknownFills == []
  {
    rows := BuildPaperTrades(trades, round);
    pnl := CheckPnl(rows);
    forall i | 0 <= i < |rows|
      ensures PnlAdds(rows[i])
    {
      RoundedTradeAdds(ExportedTrades(trades)[i], round);
    }
    NothingListed(pnl);
    fills := BuildIbFills(trades, ExportedIds(rows));
    unknownFills := CheckFillReferences(rows, fills);
    ExportedFillsResolve(trades, rows, fills);
    NothingListed(unknownFills);
  }

  ghost predicate MetricsOf(
      metrics: seq<MetricRow>, patterns: seq<string>, rows: seq<TradeRow>, round: real -> real,
      performance: string -> Performance)
  {
    && |metrics| == |patterns|
    && forall i :: 0 <= i < |patterns| ==> metrics[i] == MetricOf(rows, patterns[i], round, performance)
  }

  ghost predicate AllCoherent(metrics: seq<MetricRow>, rows: seq<TradeRow>) {
    forall i :: 0 <= i < |metrics| ==> CoherentIn(metrics[i], rows)
  }

  method ExportMetrics(
      patterns: seq<string>, rows: seq<TradeRow>, round: real -> real, performance: string -> Performance)
    returns (metrics: seq<MetricRow>, errors: seq<MetricError>)
    requires IsRounding(round)
    ensures MetricsOf(metrics, patterns, rows, round, performance)
    ensures AllCoherent(metrics, rows)
    ensures errors == [] <==> AllCoherent(metrics, rows)
  {
    metrics := BuildMetricsByPattern(patterns, rows, round, performance);
    errors := CheckMetricCoherence(rows, metrics);
    forall i | 0 <= i < |metrics|
      ensures CoherentIn(metrics[i], rows)
    {
      ExportedMetricIsCoherent(patterns[i], TradesOf(rows, patterns[i]), round, performance);
    }
  }

  /** A bucket for every key in order, the empty rows behind them, and every trade counted once. */
  ghost predicate BucketsOf(
      buckets: seq<BucketRow>, patterns: seq<string>, rows: seq<TradeRow>, d: Dimension, round: real -> real)
  {
    var filled := FilledRows(rows, d, BucketKeys(rows, d), round);
    filled <= buckets && FillsUp(buckets[|filled|..], patterns, rows) && CountOf(filled) == |rows|
  }

  method ExportBuckets(patterns: seq<string>, rows: seq<TradeRow>, d: Dimension, round: real -> real)
    returns (buckets: seq<BucketRow>, errors: seq<BucketError>)
    ensures BucketsOf(buckets, patterns, rows, d, round)
    ensures BreakdownOk(buckets)
    ensures errors == [] <==> BreakdownOk(buckets)
  {
    var filled, empty := BuildBuckets(patterns, rows, d, round);
    buckets := filled + empty;
    errors := CheckBucketBreakdown(buckets);
    ExportedBucketsAreUsable(rows, d, round, empty);
    BucketsCountEveryTrade(rows, d, round);
    assert buckets[|filled|..] == empty;
  }

  /** The tables of one overview the four checks read. */
  datatype Export = Export(
    trades: seq<TradeRow>,
    fills: seq<FillRow>,
    metrics: seq<MetricRow>,
    byRegime: seq<BucketRow>,
    byVariant: seq<BucketRow>)

  ghost predicate IsExportOf(
      e: Export, trades: seq<LabTrade>, patterns: seq<string>, round: real -> real, performance: string -> Performance)
  {
    && |e.trades| == |ExportedTrades(trades)|
    && (forall i :: 0 <= i < |e.trades| ==> e.trades[i] == PaperTrade(ExportedTrades(trades)[i], round))
    && e.fills == FillsOfAll(trades, ExportedIds(e.trades))
    && MetricsOf(e.metrics, patterns, e.trades, round, performance)
    && BucketsOf(e.byRegime, patterns, e.trades, Regime, round)
    && BucketsOf(e.byVariant, patterns, e.trades, EntryVariant, round)
  }

  /** What the four checks demand of the tables. */
  ghost predicate Agrees(e: Export) {
    && (forall i :: 0 <= i < |e.trades| ==> PnlAdds(e.trades[i]))
    && (forall i :: 0 <= i < |e.fills| ==> Resolves(e.fills[i], e.trades))
    && AllCoherent(e.metrics, e.trades)
    && BreakdownOk(e.byRegime) && BreakdownOk(e.byVariant)
  }

  /** Exporting and validating one overview. */
  method ExportAndValidate(
      trades: seq<LabTrade>, patterns: seq<string>, round: real -> real, performance: string -> Performance)
    returns (e: Export, findings: Findings)
    requires IsRounding(round)
    ensures IsExportOf(e, trades, patterns, round, performance)
    ensures Agrees(e)
    ensures findings == Findings([], [], [], [], [])
  {
    var rows, fills, pnl, unknownFills := ExportTrades(trades, round);
    var metrics, metricErrors := ExportMetrics(patterns, rows, round, performance);
    var byRegime, regimeErrors := ExportBuckets(patterns, rows, Regime, round);
    var byVariant, variantErrors := ExportBuckets(patterns, rows, EntryVariant, round);
    e := Export(rows, fills, metrics, byRegime, byVariant);
    findings := Findings(pnl, metricErrors, regimeErrors, variantErrors, unknownFills);
  }
}
