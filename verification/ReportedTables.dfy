/**
  What the exported tables hold, read off the closed lab trades and the stored patterns alone:
  which trade each row shows, which amounts each total adds up, which rows each bucket covers,
  and when a pattern's status is exported as it is stored.
  */
module ReportedTables {
  import opened PyText
  import opened Sorting
  import opened AuditExport
  import opened AuditMetrics
  import opened AuditAgreement

  // ----- trade rows

  /** The row shows this trade, every amount rounded for itself. */
  ghost predicate Shows(row: TradeRow, t: LabTrade, round: real -> real) {
    && row.tradeId == t.id && row.patternId == t.patternRef
    && row.gross == round(t.gross) && row.commission == round(t.commission)
    && row.spread == round(t.spread) && row.slippage == round(t.slippage) && row.fees == round(t.fees)
    && row.net == round(t.gross - (t.commission + t.spread + t.slippage + t.fees))
    && row.rMultiple == t.rMultiple && row.regime == t.regime && row.variant == t.variant
  }

  /** `at` lists, in order, exactly the trades that are exportable and have a pattern. */
  ghost predicate ListsExportable(at: seq<nat>, trades: seq<LabTrade>) {
    && (forall i, j :: 0 <= i < j < |at| ==> at[i] < at[j])
    && (forall k: nat :: k in at <==> k < |trades| && trades[k].exportable && trades[k].patternRef != "")
  }

  ghost predicate AreRowsOf(rows: seq<TradeRow>, trades: seq<LabTrade>, at: seq<nat>, round: real -> real) {
    && ListsExportable(at, trades)
    && |rows| == |at|
    && forall i :: 0 <= i < |rows| ==> at[i] < |trades| && Shows(rows[i], trades[at[i]], round)
  }

  lemma OneMoreTrade(at: seq<nat>, trades: seq<LabTrade>)
    requires trades != [] && ListsExportable(at, trades[..|trades| - 1])
    ensures var n := |trades| - 1; ListsExportable(at + if BecomesRow(trades[n]) then [n] else [], trades)
  {
    var n := |trades| - 1;
    forall i | 0 <= i < |at|
      ensures at[i] < n
    {
      assert at[i] in at;
    }
  }

  /** The listed trades are these, in this order. */
  ghost predicate AreAt(picked: seq<LabTrade>, trades: seq<LabTrade>, at: seq<nat>) {
    |picked| == |at| && forall i :: 0 <= i < |at| ==> at[i] < |trades| && picked[i] == trades[at[i]]
  }

  lemma AtOneMore(picked: seq<LabTrade>, trades: seq<LabTrade>, at: seq<nat>, more: bool)
    requires trades != [] && AreAt(picked, trades[..|trades| - 1], at)
    ensures var n := |trades| - 1;
            AreAt(picked + (if more then [trades[n]] else []), trades, at + (if more then [n] else []))
  {
  }

  lemma {:induction false} ExportedAt(trades: seq<LabTrade>) returns (at: seq<nat>)
    ensures ListsExportable(at, trades) && AreAt(ExportedTrades(trades), trades, at)
  {
    if trades == [] {
      at := [];
    } else {
      var n := |trades| - 1;
      at := ExportedAt(trades[..n]);
      OneMoreTrade(at, trades);
      AtOneMore(ExportedTrades(trades[..n]), trades, at, BecomesRow(trades[n]));
      at := at + if BecomesRow(trades[n]) then [n] else [];
    }
  }

  lemma NetIsRest(t: LabTrade)
    ensures NetPnl(t) == t.gross - (t.commission + t.spread + t.slippage + t.fees)
  {
  }

  /** The exported rows show the exportable trades that have a pattern, in order, and nothing else. */
  lemma ExportedRowsReport(trades: seq<LabTrade>, rows: seq<TradeRow>, round: real -> real) returns (at: seq<nat>)
    requires |rows| == |ExportedTrades(trades)|
    requires forall i :: 0 <= i < |rows| ==> rows[i] == PaperTrade(ExportedTrades(trades)[i], round)
    ensures AreRowsOf(rows, trades, at, round)
  {
    at := ExportedAt(trades);
    forall i | 0 <= i < |rows|
      ensures at[i] < |trades| && Shows(rows[i], trades[at[i]], round)
    {
      NetIsRest(trades[at[i]]);
    }
  }

  // ----- fills

  /** The i-th fill is one the trade at[i] has: trade by trade, each fill once, the entry first. */
  ghost predicate AreFillsOf(fills: seq<FillRow>, trades: seq<LabTrade>, at: seq<nat>, written: set<string>) {
    && |at| == |fills|
    && (forall i :: 0 <= i < |at| ==> at[i] < |trades| && IsFillOf(fills[i], trades[at[i]], written))
    && InOrder(fills, at)
    && forall k: nat :: k < |trades| ==> HasAllFills(fills, at, trades[k], k, written)
  }

  ghost predicate InOrder(fills: seq<FillRow>, at: seq<nat>)
    requires |at| == |fills|
  {
    forall i, j :: 0 <= i < j < |at| ==> at[i] < at[j] || (at[i] == at[j] && fills[i].isEntry && !fills[j].isEntry)
  }

  /** A fill of an exportable trade whose id is written among the trade rows. */
  ghost predicate IsFillOf(f: FillRow, t: LabTrade, written: set<string>) {
    && t.exportable && t.id in written && f.tradeId == t.id
    && (f.isEntry ==> t.entryFill) && (!f.isEntry ==> t.exitFill)
  }

  /** What one more trade adds: its fills, the entry first. */
  ghost predicate AreTheFillsOf(more: seq<FillRow>, t: LabTrade, written: set<string>) {
    && |more| <= 2 && (|more| == 2 ==> more[0].isEntry && !more[1].isEntry)
    && forall f :: f in more <==> IsFillOf(f, t, written)
  }

  ghost predicate HasAllFills(fills: seq<FillRow>, at: seq<nat>, t: LabTrade, k: nat, written: set<string>)
    requires |at| == |fills|
  {
    forall f :: IsFillOf(f, t, written) ==> exists i :: 0 <= i < |at| && at[i] == k && fills[i] == f
  }

  lemma MoreKeepsAll(
      fills: seq<FillRow>, at: seq<nat>, t: LabTrade, k: nat, written: set<string>, more: seq<FillRow>, at': seq<nat>)
    requires |at| == |fills| && |at'| == |more| && HasAllFills(fills, at, t, k, written)
    ensures HasAllFills(fills + more, at + at', t, k, written)
  {
    forall f | IsFillOf(f, t, written)
      ensures exists i :: 0 <= i < |at + at'| && (at + at')[i] == k && (fills + more)[i] == f
    {
      var i :| 0 <= i < |at| && at[i] == k && fills[i] == f;
      assert (at + at')[i] == k && (fills + more)[i] == f;
    }
  }

  lemma LastHasAll(fills: seq<FillRow>, at: seq<nat>, t: LabTrade, n: nat, written: set<string>, more: seq<FillRow>)
    requires |at| == |fills| && AreTheFillsOf(more, t, written)
    ensures HasAllFills(fills + more, at + seq(|more|, _ => n), t, n, written)
  {
    var at' := at + seq(|more|, _ => n);
    forall f | IsFillOf(f, t, written)
      ensures exists i :: 0 <= i < |at'| && at'[i] == n && (fills + more)[i] == f
    {
      var i :| 0 <= i < |more| && more[i] == f;
      assert at'[|at| + i] == n && (fills + more)[|at| + i] == f;
    }
  }

  lemma MoreInOrder(fills: seq<FillRow>, at: seq<nat>, n: nat, more: seq<FillRow>)
    requires |at| == |fills| && InOrder(fills, at) && forall i :: 0 <= i < |at| ==> at[i] < n
    requires |more| <= 2 && (|more| == 2 ==> more[0].isEntry && !more[1].isEntry)
    ensures InOrder(fills + more, at + seq(|more|, _ => n))
  {
  }

  lemma OneMoreFilled(
      fills: seq<FillRow>, trades: seq<LabTrade>, at: seq<nat>, written: set<string>, t: LabTrade, more: seq<FillRow>)
    requires AreFillsOf(fills, trades, at, written) && AreTheFillsOf(more, t, written)
    ensures AreFillsOf(fills + more, trades + [t], at + seq(|more|, _ => |trades|), written)
  {
    var n := |trades|;
    var all, at', trades' := fills + more, at + seq(|more|, _ => n), trades + [t];
    MoreInOrder(fills, at, n, more);
    forall i | 0 <= i < |at'|
      ensures at'[i] < |trades'| && IsFillOf(all[i], trades'[at'[i]], written)
    {
      assert i >= |at| ==> all[i] == more[i - |at|] && more[i - |at|] in more;
    }
    forall k: nat | k < |trades'|
      ensures HasAllFills(all, at', trades'[k], k, written)
    {
      if k < n {
        MoreKeepsAll(fills, at, trades[k], k, written, more, seq(|more|, _ => n));
      } else {
        LastHasAll(fills, at, t, n, written, more);
      }
    }
  }

  lemma FillsOfOne(t: LabTrade, written: set<string>)
    ensures AreTheFillsOf(FillsOf(t, written), t, written)
  {
  }

  lemma {:induction false} FillsReport(trades: seq<LabTrade>, written: set<string>) returns (at: seq<nat>)
    ensures AreFillsOf(FillsOfAll(trades, written), trades, at, written)
  {
    if trades == [] {
      at := [];
    } else {
      var n := |trades| - 1;
      at := FillsReport(trades[..n], written);
      FillsOfOne(trades[n], written);
      assert trades == trades[..n] + [trades[n]];
      OneMoreFilled(FillsOfAll(trades[..n], written), trades[..n], at, written, trades[n], FillsOf(trades[n], written));
      at := at + seq(|FillsOf(trades[n], written)|, _ => n);
    }
  }

  // ----- totals and counts

  /** The amounts of the first n rows that meet the condition, added up. */
  ghost function Sum(rows: seq<TradeRow>, n: nat, picks: TradeRow -> bool, amount: TradeRow -> real): real
    requires n <= |rows|
  {
    if n == 0 then 0.0
    else Sum(rows, n - 1, picks, amount) + if picks(rows[n - 1]) then amount(rows[n - 1]) else 0.0
  }

  ghost function Gross(row: TradeRow): real {
    row.gross
  }

  ghost function Net(row: TradeRow): real {
    row.net
  }

  /** The positions of the rows that meet the condition. */
  ghost function Positions(rows: seq<TradeRow>, picks: TradeRow -> bool): set<nat> {
    set i: nat | i < |rows| && picks(rows[i])
  }

  /** The given list has the rows that meet the condition: as many, and with the same totals. */
  ghost predicate Covers(mine: seq<TradeRow>, rows: seq<TradeRow>, picks: TradeRow -> bool) {
    && |mine| == |Positions(rows, picks)|
    && TotalGross(mine) == Sum(rows, |rows|, picks, Gross)
    && TotalNet(mine) == Sum(rows, |rows|, picks, Net)
  }

  lemma {:induction false} SumOfFront(
      rows: seq<TradeRow>, more: seq<TradeRow>, n: nat, picks: TradeRow -> bool, amount: TradeRow -> real)
    requires n <= |rows|
    ensures Sum(rows + more, n, picks, amount) == Sum(rows, n, picks, amount)
  {
    if n > 0 {
      SumOfFront(rows, more, n - 1, picks, amount);
    }
  }

  lemma CoversOneMore(mine: seq<TradeRow>, rows: seq<TradeRow>, row: TradeRow, picks: TradeRow -> bool)
    requires Covers(mine, rows, picks)
    ensures Covers(mine + if picks(row) then [row] else [], rows + [row], picks)
  {
    var all := rows + [row];
    SumOfFront(rows, [row], |rows|, picks, Gross);
    SumOfFront(rows, [row], |rows|, picks, Net);
    assert Positions(all, picks) == Positions(rows, picks) + if picks(row) then {|rows|} else {};
    if picks(row) {
      assert (mine + [row])[..|mine|] == mine;
    } else {
      assert mine + [] == mine;
    }
  }

  lemma CoversNothing(picks: TradeRow -> bool)
    ensures Covers([], [], picks)
  {
    assert Positions([], picks) == {};
  }

  lemma {:induction false} TradesOfCovers(rows: seq<TradeRow>, pid: string)
    ensures Covers(TradesOf(rows, pid), rows, OfPattern(pid))
  {
    if rows == [] {
      CoversNothing(OfPattern(pid));
    } else {
      var n := |rows| - 1;
      assert rows == rows[..n] + [rows[n]];
      TradesOfCovers(rows[..n], pid);
      CoversOneMore(TradesOf(rows[..n], pid), rows[..n], rows[n], OfPattern(pid));
    }
  }

  ghost function OfPattern(pid: string): TradeRow -> bool {
    (row: TradeRow) => row.patternId == pid
  }

  /** A metrics row: how many trade rows the pattern has, and the rounded sums of their amounts. */
  ghost predicate IsMetricOf(
      m: MetricRow, pid: string, rows: seq<TradeRow>, round: real -> real, performance: string -> Performance)
  {
    var count := |Positions(rows, OfPattern(pid))|;
    && m.patternId == pid && m.tradeCount == count
    && m.gross == (if count == 0 then 0.0 else round(Sum(rows, |rows|, OfPattern(pid), Gross)))
    && m.net == (if count == 0 then 0.0 else round(Sum(rows, |rows|, OfPattern(pid), Net)))
    && m.performance == if count == 0 then NO_PERFORMANCE else performance(pid)
  }

  lemma MetricReports(rows: seq<TradeRow>, pid: string, round: real -> real, performance: string -> Performance)
    ensures IsMetricOf(MetricOf(rows, pid, round, performance), pid, rows, round, performance)
  {
    TradesOfCovers(rows, pid);
  }

  // ----- buckets

  ghost predicate IsLabel(name: string, raw: string) {
    if Strip(raw) == "" then name == "unknown" else name == Strip(raw)
  }

  /** A row belongs under the pattern and the label its regime, or its entry variant, gives it. */
  ghost predicate Belongs(row: TradeRow, d: Dimension, pid: string, name: string) {
    row.patternId == pid && match d
                            case Regime => IsLabel(name, row.regime)
                            case EntryVariant => IsLabel(name, row.variant)
  }

  ghost function InBucket(d: Dimension, pid: string, name: string): TradeRow -> bool {
    row => Belongs(row, d, pid, name)
  }

  ghost predicate IsBucketOf(b: BucketRow, rows: seq<TradeRow>, d: Dimension, round: real -> real) {
    var mine := InBucket(d, b.patternId, b.bucket);
    && b.available && b.emptyReason == ""
    && b.tradeCount == |Positions(rows, mine)| > 0
    && b.gross == round(Sum(rows, |rows|, mine, Gross))
    && b.net == round(Sum(rows, |rows|, mine, Net))
  }

  ghost predicate ListedBefore(a: BucketRow, b: BucketRow) {
    if a.patternId != b.patternId then AlphabeticallyBefore(a.patternId, b.patternId)
    else AlphabeticallyBefore(a.bucket, b.bucket)
  }

  /** A bucket for every pair of a pattern and a label some row has, in order of the two. */
  ghost predicate IsBreakdownOf(filled: seq<BucketRow>, rows: seq<TradeRow>, d: Dimension, round: real -> real) {
    && (forall i :: 0 <= i < |filled| ==> IsBucketOf(filled[i], rows, d, round))
    && (forall i, j :: 0 <= i < j < |filled| ==> ListedBefore(filled[i], filled[j]))
    && forall row :: row in rows ==> exists b :: b in filled && Belongs(row, d, b.patternId, b.bucket)
  }

  lemma BelongsIff(row: TradeRow, d: Dimension, key: Key)
    ensures InBucket(d, key.0, key.1)(row) <==> KeyOf(row, d) == key
  {
  }

  lemma BucketOneMore(rows: seq<TradeRow>, row: TradeRow, d: Dimension, key: Key)
    ensures BucketTrades(rows + [row], d, key)
         == BucketTrades(rows, d, key) + (if InBucket(d, key.0, key.1)(row) then [row] else [])
  {
    BelongsIff(row, d, key);
    var keys, all := KeysOf(rows, d), rows + [row];
    assert all[..|rows|] == rows && KeysOf(all, d) == keys + [KeyOf(row, d)];
    assert (keys + [KeyOf(row, d)])[..|rows|] == keys;
  }

  lemma {:induction false} BucketCovers(rows: seq<TradeRow>, d: Dimension, key: Key)
    ensures Covers(BucketTrades(rows, d, key), rows, InBucket(d, key.0, key.1))
  {
    var mine := InBucket(d, key.0, key.1);
    if rows == [] {
      CoversNothing(mine);
    } else {
      var before, row := rows[..|rows| - 1], rows[|rows| - 1];
      BucketCovers(before, d, key);
      BucketOneMore(before, row, d, key);
      CoversOneMore(BucketTrades(before, d, key), before, row, mine);
      assert rows == before + [row];
    }
  }

  lemma BucketReports(rows: seq<TradeRow>, d: Dimension, key: Key, round: real -> real)
    requires key in KeysOf(rows, d)
    ensures IsBucketOf(PerformanceBucketRow(key, BucketTrades(rows, d, key), round), rows, d, round)
  {
    BucketCovers(rows, d, key);
    LabelNotBlank(rows, d, key);
  }

  lemma BucketsAreListed(rows: seq<TradeRow>, d: Dimension, round: real -> real, i: nat, j: nat)
    requires i < j < |BucketKeys(rows, d)|
    ensures var filled := FilledRows(rows, d, BucketKeys(rows, d), round); ListedBefore(filled[i], filled[j])
  {
    var keys := BucketKeys(rows, d);
    KeysSorted(rows, d);
    assert PairLess(keys[i], keys[j]);
    StringLessTotal(keys[i].0, keys[j].0);
    StringLessIff(keys[i].0, keys[j].0);
    StringLessIff(keys[i].1, keys[j].1);
  }

  /** The filled rows of a breakdown, by the trade rows alone. */
  lemma BreakdownReports(rows: seq<TradeRow>, d: Dimension, round: real -> real)
    ensures IsBreakdownOf(FilledRows(rows, d, BucketKeys(rows, d), round), rows, d, round)
  {
    var keys := BucketKeys(rows, d);
    var filled := FilledRows(rows, d, keys, round);
    forall i | 0 <= i < |filled|
      ensures IsBucketOf(filled[i], rows, d, round)
    {
      assert keys[i] in keys;
      BucketReports(rows, d, keys[i], round);
    }
    forall i, j | 0 <= i < j < |filled|
      ensures ListedBefore(filled[i], filled[j])
    {
      BucketsAreListed(rows, d, round, i, j);
    }
    forall row | row in rows
      ensures exists b :: b in filled && Belongs(row, d, b.patternId, b.bucket)
    {
      var k :| 0 <= k < |rows| && rows[k] == row;
      assert KeysOf(rows, d)[k] in keys;
      var i :| 0 <= i < |keys| && keys[i] == KeyOf(row, d);
      BelongsIff(row, d, keys[i]);
      assert filled[i] in filled;
    }
  }

  // ----- one export

  /** The written ids that are not blank. */
  ghost predicate AreIdsOf(written: set<string>, rows: seq<TradeRow>) {
    forall id :: id in written <==> Strip(id) != "" && exists i :: 0 <= i < |rows| && rows[i].tradeId == id
  }

  /** A row without figures, for a listed pattern no trade row names. */
  ghost predicate IsEmptyRow(b: BucketRow, pid: string) {
    && b.patternId == pid && b.bucket == "" && !b.available && b.emptyReason == "no_closed_lab_trades"
    && b.tradeCount == 0 && b.gross == 0.0 && b.net == 0.0
  }

  /** By increasing id, one such row for exactly the listed patterns no trade row names. */
  ghost predicate AreEmptyRows(empty: seq<BucketRow>, patterns: seq<string>, rows: seq<TradeRow>) {
    && (forall i :: 0 <= i < |empty| ==> IsEmptyRow(empty[i], empty[i].patternId))
    && (forall pid :: (exists i :: 0 <= i < |empty| && empty[i].patternId == pid) <==>
                        pid in patterns && forall row :: row in rows ==> row.patternId != pid)
    && (forall i, j :: 0 <= i < j < |empty| ==> AlphabeticallyBefore(empty[i].patternId, empty[j].patternId))
  }

  /** The first rows are the filled ones; without any trade row, one empty row names no pattern. */
  ghost predicate IsBucketTable(
      buckets: seq<BucketRow>, patterns: seq<string>, rows: seq<TradeRow>, d: Dimension, round: real -> real, n: nat)
  {
    && n <= |buckets| && IsBreakdownOf(buckets[..n], rows, d, round)
    && if rows == [] then |buckets| == 1 && n == 0 && IsEmptyRow(buckets[0], "")
       else AreEmptyRows(buckets[n..], patterns, rows)
  }

  lemma EmptyRowsReport(empty: seq<BucketRow>, patterns: seq<string>, rows: seq<TradeRow>)
    requires ListsMissing(empty, patterns, TradedPatterns(rows))
    ensures AreEmptyRows(empty, patterns, rows)
  {
    forall pid
      ensures (exists i :: 0 <= i < |empty| && empty[i].patternId == pid) <==>
                pid in patterns && forall row :: row in rows ==> row.patternId != pid
    {
      if i :| 0 <= i < |empty| && empty[i].patternId == pid {
        assert empty[i] in empty && EmptyBucketRow(pid) in empty;
      }
      if pid in patterns && pid !in TradedPatterns(rows) {
        assert EmptyBucketRow(pid) in empty;
      }
    }
    forall i, j | 0 <= i < j < |empty|
      ensures AlphabeticallyBefore(empty[i].patternId, empty[j].patternId)
    {
      StringLessIff(empty[i].patternId, empty[j].patternId);
    }
    assert forall i :: 0 <= i < |empty| ==> empty[i] in empty;
  }

  lemma FilledPart(
      buckets: seq<BucketRow>, filled: seq<BucketRow>, rows: seq<TradeRow>, d: Dimension, round: real -> real)
    requires filled <= buckets && filled == FilledRows(rows, d, BucketKeys(rows, d), round)
    ensures IsBreakdownOf(buckets[..|filled|], rows, d, round)
  {
    BreakdownReports(rows, d, round);
    assert buckets[..|filled|] == filled;
  }

  lemma BucketTableReports(
      buckets: seq<BucketRow>, patterns: seq<string>, rows: seq<TradeRow>, d: Dimension, round: real -> real)
    returns (n: nat)
    requires BucketsOf(buckets, patterns, rows, d, round)
    ensures IsBucketTable(buckets, patterns, rows, d, round, n)
  {
    var filled := FilledRows(rows, d, BucketKeys(rows, d), round);
    n := |filled|;
    FilledPart(buckets, filled, rows, d, round);
    if rows != [] {
      EmptyRowsReport(buckets[n..], patterns, rows);
    }
  }

  ghost predicate AreMetricsOf(
      metrics: seq<MetricRow>, patterns: seq<string>, rows: seq<TradeRow>, round: real -> real,
      performance: string -> Performance)
  {
    && |metrics| == |patterns|
    && forall i :: 0 <= i < |metrics| ==> IsMetricOf(metrics[i], patterns[i], rows, round, performance)
  }

  lemma MetricsReport(
      metrics: seq<MetricRow>, patterns: seq<string>, rows: seq<TradeRow>, round: real -> real,
      performance: string -> Performance)
    requires MetricsOf(metrics, patterns, rows, round, performance)
    ensures AreMetricsOf(metrics, patterns, rows, round, performance)
  {
    forall i | 0 <= i < |patterns|
      ensures IsMetricOf(metrics[i], patterns[i], rows, round, performance)
    {
      MetricReports(rows, patterns[i], round, performance);
    }
  }

  lemma IdsReport(rows: seq<TradeRow>)
    ensures AreIdsOf(ExportedIds(rows), rows)
  {
  }

  /** Every table of an export, by the closed lab trades and the patterns alone. */
  lemma ExportReports(
      e: Export, trades: seq<LabTrade>, patterns: seq<string>, round: real -> real, performance: string -> Performance)
    returns (at: seq<nat>, filled: seq<nat>, regimes: nat, variants: nat)
    requires IsExportOf(e, trades, patterns, round, performance)
    ensures AreRowsOf(e.trades, trades, at, round)
    ensures AreIdsOf(ExportedIds(e.trades), e.trades)
    ensures AreFillsOf(e.fills, trades, filled, ExportedIds(e.trades))
    ensures AreMetricsOf(e.metrics, patterns, e.trades, round, performance)
    ensures IsBucketTable(e.byRegime, patterns, e.trades, Regime, round, regimes)
    ensures IsBucketTable(e.byVariant, patterns, e.trades, EntryVariant, round, variants)
  {
    at := ExportedRowsReport(trades, e.trades, round);
    IdsReport(e.trades);
    filled := FillsReport(trades, ExportedIds(e.trades));
    MetricsReport(e.metrics, patterns, e.trades, round, performance);
    regimes := BucketTableReports(e.byRegime, patterns, e.trades, Regime, round);
    variants := BucketTableReports(e.byVariant, patterns, e.trades, EntryVariant, round);
  }

  // ----- the exported status

  /** The words that put a pattern forward for execution. */
  ghost predicate IsPromotionWord(s: string) {
    || s == "paper_candidate" || s == "premium_candidate" || s == "paper_limited_candidate"
    || s == "paper_extended_candidate" || s == "ready_for_paper_extended" || s == "approved"
    || s == "live_candidate" || s == "production_candidate" || s == "production"
  }

  /** One of the two fields puts the pattern forward; the second one counts whatever the first one says. */
  ghost predicate PutForward(p: Pattern) {
    || (p.status.Text? && IsPromotionWord(LowerCase(Strip(p.status.value))))
    || (p.promotionStatus.Text? && IsPromotionWord(LowerCase(Strip(p.promotionStatus.value))))
  }

  ghost predicate IsStored(status: Field, exported: string) {
    match status
    case Missing => exported == ""
    case Null => exported == "None"
    case Text(value) => exported == Strip(value)
  }

  lemma PromotionWords(s: string)
    ensures s in PROMOTION_STATUSES <==> IsPromotionWord(s)
  {
  }

  lemma WordsOf(x: Field)
    ensures Normal(TextOf(x)) in PROMOTION_STATUSES <==>
            x.Text? && IsPromotionWord(LowerCase(Strip(x.value)))
  {
    PromotionWords(Normal(TextOf(x)));
    StripOfNothing();
  }

  lemma FreezesIff(p: Pattern, linked: set<string>)
    ensures StatusWithoutLinkedFill(p, linked) != "" <==> PutForward(p) && p.id !in linked
  {
    WordsOf(p.status);
    WordsOf(p.promotionStatus);
    PromotionWords("");
  }

  /** A pattern put forward without a linked fill is exported as freeze, every other one as it is stored. */
  lemma ExportedStatusIs(p: Pattern, linked: set<string>)
    ensures var exported := ExportStatus(p, linked);
            if PutForward(p) && p.id !in linked then exported == "freeze" else IsStored(p.status, exported)
  {
    FreezesIff(p, linked);
    StripOfNothing();
  }

  lemma StripOfNothing()
    ensures Strip("") == "" && LowerCase("") == ""
  {
    TrimOfDropped("", IsSpace);
  }
}
