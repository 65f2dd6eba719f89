/**
  Performance rows and their checks: the exporter groups paper trades per pattern and per
  bucket and writes rounded totals; the validator regroups the trades and recomputes. `round`
  stands for the writer's four-decimal rounding, at most half of 0.0001 away from its argument.
  */
module AuditMetrics {
  import opened PyText
  import opened AuditExport
  import opened Sorting

  /** A cell that may be left blank. */
  datatype Cell = Blank | Number(value: real)

  /** The six cells a row without trades must leave blank. */
  datatype Performance = Performance(
    avgTrade: Cell,
    medianTrade: Cell,
    winrate: Cell,
    profitFactor: Cell,
    expectancy: Cell,
    maxDrawdown: Cell)

  datatype MetricRow = MetricRow(patternId: string, tradeCount: int, gross: real, net: real, performance: Performance)

  datatype BucketRow = BucketRow(
    patternId: string,
    bucket: string,
    available: bool,
    emptyReason: string,
    tradeCount: nat,
    gross: real,
    net: real)

  datatype Dimension = Regime | EntryVariant

  ghost predicate IsRounding(round: real -> real) {
    forall x :: -0.00005 <= round(x) - x <= 0.00005
  }

  function Abs(x: real): (r: real)
    ensures r >= 0.0 && (r == x || r == -x)
  {
    if x < 0.0 then -x else x
  }

  // ----- sums over trade rows

  function TotalNet(rows: seq<TradeRow>): real {
    if rows == [] then 0.0 else TotalNet(rows[..|rows| - 1]) + rows[|rows| - 1].net
  }

  function TotalGross(rows: seq<TradeRow>): real {
    if rows == [] then 0.0 else TotalGross(rows[..|rows| - 1]) + rows[|rows| - 1].gross
  }

  function TradesOf(rows: seq<TradeRow>, pid: string): (r: seq<TradeRow>)
    ensures forall t :: t in r <==> t in rows && t.patternId == pid
  {
    if rows == [] then []
    else
      var n := |rows| - 1;
      assert rows == rows[..n] + [rows[n]];
      TradesOf(rows[..n], pid) + if rows[n].patternId == pid then [rows[n]] else []
  }

  // ----- drawdown

  function Prefix(values: seq<real>, n: nat): real
    requires n <= |values|
  {
    if n == 0 then 0.0 else Prefix(values, n - 1) + values[n - 1]
  }

  /** The deepest fall of the running total from an earlier point, the empty prefix included. */
  ghost predicate IsMaxDrawdown(values: seq<real>, n: nat, d: real)
    requires n <= |values|
  {
    && (forall i, j :: 0 <= i <= j <= n ==> Prefix(values, i) - Prefix(values, j) <= d)
    && (exists i, j :: 0 <= i <= j <= n && Prefix(values, i) - Prefix(values, j) == d)
  }

  /** The highest running total of the first n values. */
  function Peak(values: seq<real>, n: nat): real
    requires n <= |values|
  {
    if n == 0 then 0.0
    else if Peak(values, n - 1) < Prefix(values, n) then Prefix(values, n)
    else Peak(values, n - 1)
  }

  function Drawdown(values: seq<real>, n: nat): real
    requires n <= |values|
  {
    if n == 0 then 0.0
    else
      var fall := Peak(values, n) - Prefix(values, n);
      if Drawdown(values, n - 1) < fall then fall else Drawdown(values, n - 1)
  }

  lemma {:induction false} PeakIsHighest(values: seq<real>, n: nat) returns (top: nat)
    requires n <= |values|
    ensures top <= n && Prefix(values, top) == Peak(values, n)
    ensures forall i :: 0 <= i <= n ==> Prefix(values, i) <= Peak(values, n)
  {
    top := 0;
    if n > 0 {
      top := PeakIsHighest(values, n - 1);
      if Peak(values, n - 1) < Prefix(values, n) {
        top := n;
      }
    }
  }

  /** The one-pass value is the deepest fall. */
  lemma {:induction false} DrawdownIsDeepestFall(values: seq<real>, n: nat)
    requires n <= |values|
    ensures IsMaxDrawdown(values, n, Drawdown(values, n))
  {
    if n == 0 {
      assert Prefix(values, 0) - Prefix(values, 0) == Drawdown(values, 0);
    } else {
      DrawdownIsDeepestFall(values, n - 1);
      var top := PeakIsHighest(values, n);
      var d := Drawdown(values, n);
      if Drawdown(values, n - 1) < d {
        assert Prefix(values, top) - Prefix(values, n) == d;
      } else {
        var i, j :| 0 <= i <= j <= n - 1 && Prefix(values, i) - Prefix(values, j) == d;
      }
      forall i, j | 0 <= i <= j <= n
        ensures Prefix(values, i) - Prefix(values, j) <= d
      {
      }
    }
  }

  method MaxDrawdown(values: seq<real>) returns (maxDd: real)
    ensures IsMaxDrawdown(values, |values|, maxDd)
  {
    var equity, peak := 0.0, 0.0;
    maxDd := 0.0;
    for n := 0 to |values|
      invariant equity == Prefix(values, n)
      invariant peak == Peak(values, n)
      invariant maxDd == Drawdown(values, n)
    {
      equity := equity + values[n];
      if peak < equity {
        peak := equity;
      }
      if maxDd < peak - equity {
        maxDd := peak - equity;
      }
    }
    DrawdownIsDeepestFall(values, |values|);
  }

  // ----- the validator's trade check

  predicate PnlAdds(row: TradeRow) {
    Abs(row.gross - row.commission - row.spread - row.slippage - row.fees - row.net) <= 0.01
  }

  /** Row numbers start at 2, below the header. */
  method CheckPnl(rows: seq<TradeRow>) returns (errors: seq<nat>)
    ensures forall e :: e in errors <==> 2 <= e < |rows| + 2 && !PnlAdds(rows[e - 2])
  {
    errors := [];
    for i := 0 to |rows|
      invariant forall e :: e in errors <==> 2 <= e < i + 2 && !PnlAdds(rows[e - 2])
    {
      var expected := rows[i].gross - rows[i].commission - rows[i].spread - rows[i].slippage - rows[i].fees;
      if Abs(expected - rows[i].net) > 0.01 {
        errors := errors + [i + 2];
      }
    }
  }

  /** Six separate roundings stay within the validator's tolerance. */
  lemma RoundedTradeAdds(t: LabTrade, round: real -> real)
    requires IsRounding(round)
    ensures PnlAdds(PaperTrade(t, round))
    ensures var row := PaperTrade(t, round);
            Abs(row.gross - row.commission - row.spread - row.slippage - row.fees - row.net) <= 0.0003
  {
    var row := PaperTrade(t, round);
    assert -0.00005 <= row.gross - t.gross <= 0.00005;
    assert -0.00005 <= row.commission - t.commission <= 0.00005;
    assert -0.00005 <= row.spread - t.spread <= 0.00005;
    assert -0.00005 <= row.slippage - t.slippage <= 0.00005;
    assert -0.00005 <= row.fees - t.fees <= 0.00005;
    assert -0.00005 <= row.net - NetPnl(t) <= 0.00005;
  }

  // ----- metrics per pattern

  const NO_PERFORMANCE := Performance(Blank, Blank, Blank, Blank, Blank, Blank)

  /** `performance` gives the cells of a pattern with trades. */
  function MetricFor(
      pid: string, mine: seq<TradeRow>, round: real -> real, performance: string -> Performance): MetricRow
  {
    if mine == [] then MetricRow(pid, 0, 0.0, 0.0, NO_PERFORMANCE)
    else MetricRow(pid, |mine|, round(TotalGross(mine)), round(TotalNet(mine)), performance(pid))
  }

  // ----- grouping

  type Groups = map<string, seq<TradeRow>>

  /** A pattern's list; a pattern without trades has no entry. */
  function ListOf(groups: Groups, pid: string): seq<TradeRow> {
    if pid in groups then groups[pid] else []
  }

  ghost predicate Grouped(groups: Groups, rows: seq<TradeRow>) {
    forall pid :: ListOf(groups, pid) == TradesOf(rows, pid)
  }

  lemma TradesOfOneMore(rows: seq<TradeRow>, i: nat, pid: string)
    requires i < |rows|
    ensures TradesOf(rows[..i + 1], pid)
         == TradesOf(rows[..i], pid) + if rows[i].patternId == pid then [rows[i]] else []
  {
    assert rows[..i + 1][..i] == rows[..i];
  }

  lemma GroupOneMore(groups: Groups, rows: seq<TradeRow>, i: nat)
    requires i < |rows| && Grouped(groups, rows[..i])
    ensures var pid := rows[i].patternId;
            Grouped(groups[pid := ListOf(groups, pid) + [rows[i]]], rows[..i + 1])
  {
    var mine := rows[i].patternId;
    var groups' := groups[mine := ListOf(groups, mine) + [rows[i]]];
    forall pid
      ensures ListOf(groups', pid) == TradesOf(rows[..i + 1], pid)
    {
      TradesOfOneMore(rows, i, pid);
    }
  }

  /** The grouping loop both programs run: lists per pattern id, in row order. */
  method GroupByPattern(rows: seq<TradeRow>) returns (groups: Groups)
    ensures Grouped(groups, rows)
  {
    groups := map[];
    for i := 0 to |rows|
      invariant Grouped(groups, rows[..i])
    {
      GroupOneMore(groups, rows, i);
      var pid := rows[i].patternId;
      groups := groups[pid := ListOf(groups, pid) + [rows[i]]];
    }
    assert rows[..|rows|] == rows;
  }

  lemma LookUp(groups: Groups, rows: seq<TradeRow>, pid: string)
    requires Grouped(groups, rows)
    ensures ListOf(groups, pid) == TradesOf(rows, pid)
  {
  }

  ghost function MetricOf(
      rows: seq<TradeRow>, pid: string, round: real -> real, performance: string -> Performance): MetricRow
  {
    MetricFor(pid, TradesOf(rows, pid), round, performance)
  }

  /** Trades are grouped once, then looked up per pattern. */
  method BuildMetricsByPattern(
      patterns: seq<string>, rows: seq<TradeRow>, round: real -> real, performance: string -> Performance)
    returns (metrics: seq<MetricRow>)
    ensures |metrics| == |patterns|
    ensures forall i :: 0 <= i < |patterns| ==> metrics[i] == MetricOf(rows, patterns[i], round, performance)
  {
    var tradesByPattern := GroupByPattern(rows);
    metrics := [];
    for i := 0 to |patterns|
      invariant |metrics| == i
      invariant forall k :: 0 <= k < i ==> metrics[k] == MetricOf(rows, patterns[k], round, performance)
    {
      LookUp(tradesByPattern, rows, patterns[i]);
      metrics := metrics + [MetricFor(patterns[i], ListOf(tradesByPattern, patterns[i]), round, performance)];
    }
  }

  datatype MetricError =
    | CountMismatch(row: nat)
    | MustBeEmpty(row: nat, field: nat)
    | GrossMismatch(row: nat)
    | NetMismatch(row: nat)

  function Cells(p: Performance): (r: seq<Cell>)
    ensures |r| == 6
  {
    [p.avgTrade, p.medianTrade, p.winrate, p.profitFactor, p.expectancy, p.maxDrawdown]
  }

  predicate Coherent(m: MetricRow, mine: seq<TradeRow>) {
    && m.tradeCount == |mine|
    && (if m.tradeCount == 0 then m.performance == NO_PERFORMANCE
        else Abs(TotalGross(mine) - m.gross) <= 0.01 && Abs(TotalNet(mine) - m.net) <= 0.01)
  }

  lemma AllBlank(p: Performance)
    ensures p == NO_PERFORMANCE <==> forall k :: 0 <= k < 6 ==> Cells(p)[k].Blank?
  {
    var c := Cells(p);
    if forall k :: 0 <= k < 6 ==> c[k].Blank? {
      assert c[0].Blank? && c[1].Blank? && c[2].Blank? && c[3].Blank? && c[4].Blank? && c[5].Blank?;
    }
  }

  /** What an error says of the metrics row at its number; `mine` are the trades of the row's pattern. */
  ghost predicate IsRowError(e: MetricError, m: MetricRow, mine: seq<TradeRow>) {
    match e
    case CountMismatch(_) => m.tradeCount != |mine|
    case MustBeEmpty(_, k) => m.tradeCount == 0 && k < 6 && !Cells(m.performance)[k].Blank?
    case GrossMismatch(_) => m.tradeCount != 0 && Abs(TotalGross(mine) - m.gross) > 0.01
    case NetMismatch(_) => m.tradeCount != 0 && Abs(TotalNet(mine) - m.net) > 0.01
  }

  method CheckMetricRow(m: MetricRow, mine: seq<TradeRow>, row: nat) returns (errors: seq<MetricError>)
    ensures forall e :: e in errors <==> e.row == row && IsRowError(e, m, mine)
    ensures errors == [] <==> Coherent(m, mine)
  {
    errors := [];
    if m.tradeCount != |mine| {
      errors := errors + [CountMismatch(row)];
    }
    if m.tradeCount == 0 {
      var blank := CheckBlankCells(m.performance, row);
      errors := errors + blank;
      return;
    }
    if Abs(TotalGross(mine) - m.gross) > 0.01 {
      errors := errors + [GrossMismatch(row)];
    }
    if Abs(TotalNet(mine) - m.net) > 0.01 {
      errors := errors + [NetMismatch(row)];
    }
  }

  method CheckBlankCells(p: Performance, row: nat) returns (errors: seq<MetricError>)
    ensures forall e :: e in errors <==> e.MustBeEmpty? && e.row == row && e.field < 6 && !Cells(p)[e.field].Blank?
    ensures errors == [] <==> p == NO_PERFORMANCE
  {
    var cells := Cells(p);
    errors := [];
    for k := 0 to 6
      invariant forall e :: e in errors <==>
                  e.MustBeEmpty? && e.row == row && e.field < k && !cells[e.field].Blank?
      invariant errors == [] <==> forall j :: 0 <= j < k ==> cells[j].Blank?
    {
      if !cells[k].Blank? {
        errors := errors + [MustBeEmpty(row, k)];
      }
    }
    AllBlank(p);
  }

  ghost predicate CoherentIn(m: MetricRow, rows: seq<TradeRow>) {
    Coherent(m, TradesOf(rows, m.patternId))
  }

  /** Row numbers start at 2, below the header. */
  ghost predicate IsMetricError(e: MetricError, rows: seq<TradeRow>, metrics: seq<MetricRow>) {
    && 2 <= e.row < |metrics| + 2
    && IsRowError(e, metrics[e.row - 2], TradesOf(rows, metrics[e.row - 2].patternId))
  }

  method CheckMetricCoherence(rows: seq<TradeRow>, metrics: seq<MetricRow>) returns (errors: seq<MetricError>)
    ensures forall e :: e in errors <==> IsMetricError(e, rows, metrics)
    ensures errors == [] <==> forall i :: 0 <= i < |metrics| ==> CoherentIn(metrics[i], rows)
  {
    var tradesByPattern := GroupByPattern(rows);
    errors := [];
    for i := 0 to |metrics|
      invariant forall e :: e in errors <==> e.row < i + 2 && IsMetricError(e, rows, metrics)
      invariant errors == [] <==> forall k :: 0 <= k < i ==> CoherentIn(metrics[k], rows)
    {
      LookUp(tradesByPattern, rows, metrics[i].patternId);
      var found := CheckMetricRow(metrics[i], ListOf(tradesByPattern, metrics[i].patternId), i + 2);
      errors := errors + found;
    }
  }

  /** Every metric row the exporter writes is coherent for the validator. */
  lemma ExportedMetricIsCoherent(
      pid: string, mine: seq<TradeRow>, round: real -> real, performance: string -> Performance)
    requires IsRounding(round)
    ensures Coherent(MetricFor(pid, mine, round, performance), mine)
  {
    RoundedIsClose(TotalGross(mine), round);
    RoundedIsClose(TotalNet(mine), round);
  }

  lemma RoundedIsClose(x: real, round: real -> real)
    requires IsRounding(round)
    ensures Abs(x - round(x)) <= 0.00005
  {
  }

  // ----- performance per bucket

  function Label(row: TradeRow, d: Dimension): string {
    var raw := Strip(if d.Regime? then row.regime else row.variant);
    if raw == "" then "unknown" else raw
  }

  type Key = (string, string)

  function KeyOf(row: TradeRow, d: Dimension): Key {
    (row.patternId, Label(row, d))
  }

  function KeysOf(rows: seq<TradeRow>, d: Dimension): (r: seq<Key>)
    ensures |r| == |rows|
  {
    seq(|rows|, i requires 0 <= i < |rows| => KeyOf(rows[i], d))
  }

  /** The keys of the buckets, sorted. */
  function BucketKeys(rows: seq<TradeRow>, d: Dimension): seq<Key> {
    SortedSet(KeysOf(rows, d), PairLess)
  }

  /** The rows carrying one key. */
  function Picked(rows: seq<TradeRow>, keys: seq<Key>, key: Key): (r: seq<TradeRow>)
    requires |keys| == |rows|
    ensures key in keys ==> r != []
  {
    if rows == [] then []
    else
      var n := |rows| - 1;
      assert keys == keys[..n] + [keys[n]];
      Picked(rows[..n], keys[..n], key) + if keys[n] == key then [rows[n]] else []
  }

  function BucketTrades(rows: seq<TradeRow>, d: Dimension, key: Key): seq<TradeRow> {
    Picked(rows, KeysOf(rows, d), key)
  }

  function PerformanceBucketRow(key: Key, mine: seq<TradeRow>, round: real -> real): BucketRow {
    BucketRow(key.0, key.1, true, "", |mine|, round(TotalGross(mine)), round(TotalNet(mine)))
  }

  const EMPTY_REASON := "no_closed_lab_trades"

  function EmptyBucketRow(pid: string): BucketRow {
    BucketRow(pid, "", false, EMPTY_REASON, 0, 0.0, 0.0)
  }

  function FilledRows(rows: seq<TradeRow>, d: Dimension, keys: seq<Key>, round: real -> real): (r: seq<BucketRow>)
    ensures |r| == |keys|
  {
    seq(|keys|, i requires 0 <= i < |keys| => PerformanceBucketRow(keys[i], BucketTrades(rows, d, keys[i]), round))
  }

  /** One empty row for each listed pattern that is not known, by increasing id. */
  ghost predicate ListsMissing(empty: seq<BucketRow>, patterns: seq<string>, known: set<string>) {
    && (forall b :: b in empty ==> b == EmptyBucketRow(b.patternId))
    && (forall p :: EmptyBucketRow(p) in empty <==> p in patterns && p !in known)
    && (forall i, j :: 0 <= i < j < |empty| ==> StringLess(empty[i].patternId, empty[j].patternId))
  }

  ghost function TradedPatterns(rows: seq<TradeRow>): (known: set<string>)
    ensures forall p :: p in known <==> exists row :: row in rows && row.patternId == p
  {
    set i | 0 <= i < |rows| :: rows[i].patternId
  }

  /** The empty rows of a breakdown. */
  ghost predicate FillsUp(empty: seq<BucketRow>, patterns: seq<string>, rows: seq<TradeRow>) {
    if rows == [] then empty == [EmptyBucketRow("")] else ListsMissing(empty, patterns, TradedPatterns(rows))
  }

  method FillBuckets(rows: seq<TradeRow>, d: Dimension, keys: seq<Key>, round: real -> real)
    returns (filled: seq<BucketRow>)
    ensures filled == FilledRows(rows, d, keys, round)
  {
    filled := [];
    ghost var all := FilledRows(rows, d, keys, round);
    for i := 0 to |keys|
      invariant filled == all[..i]
    {
      filled := filled + [PerformanceBucketRow(keys[i], BucketTrades(rows, d, keys[i]), round)];
    }
  }

  lemma KeysSorted(rows: seq<TradeRow>, d: Dimension)
    ensures StrictlySorted(BucketKeys(rows, d), PairLess)
    ensures forall i, j :: 0 <= i < j < |BucketKeys(rows, d)| ==> BucketKeys(rows, d)[i] != BucketKeys(rows, d)[j]
  {
    PairsAreOrdered();
    SortedSetSorted(KeysOf(rows, d), PairLess);
    SortedIsDistinct(BucketKeys(rows, d), PairLess);
  }

  /** One row per bucket, then one empty row for each known pattern without a bucket. */
  method BuildBuckets(patterns: seq<string>, rows: seq<TradeRow>, d: Dimension, round: real -> real)
    returns (filled: seq<BucketRow>, empty: seq<BucketRow>)
    ensures filled == FilledRows(rows, d, BucketKeys(rows, d), round)
    ensures StrictlySorted(BucketKeys(rows, d), PairLess)
    ensures FillsUp(empty, patterns, rows)
    ensures forall i, j :: 0 <= i < j < |empty| ==> empty[i] != empty[j]
  {
    KeysSorted(rows, d);
    if rows == [] {
      return [], [EmptyBucketRow("")];
    }
    var keys := BucketKeys(rows, d);
    filled := FillBuckets(rows, d, keys, round);
    var known := set i | 0 <= i < |keys| :: keys[i].0;
    KnownIffTraded(rows, d, known);
    empty := MissingPatterns(patterns, known);
  }

  /** The patterns of the buckets are those with a trade. */
  lemma KnownIffTraded(rows: seq<TradeRow>, d: Dimension, known: set<string>)
    requires var keys := BucketKeys(rows, d); known == set i | 0 <= i < |keys| :: keys[i].0
    ensures known == TradedPatterns(rows)
  {
    var keys, all := BucketKeys(rows, d), KeysOf(rows, d);
    forall p
      ensures p in known <==> exists row :: row in rows && row.patternId == p
    {
      if p in known {
        var i :| 0 <= i < |keys| && keys[i].0 == p;
        assert keys[i] in keys;
        var k :| 0 <= k < |all| && all[k] == keys[i];
        assert rows[k] in rows && rows[k].patternId == p;
      }
      if row :| row in rows && row.patternId == p {
        var k :| 0 <= k < |rows| && rows[k] == row;
        assert all[k] in keys;
        var i :| 0 <= i < |keys| && keys[i] == all[k];
      }
    }
  }

  lemma OneMorePattern(empty: seq<BucketRow>, all: seq<string>, i: nat, known: set<string>)
    requires i < |all| && StrictlySorted(all, StringLess) && ListsMissing(empty, all[..i], known)
    ensures ListsMissing(if all[i] in known then empty else empty + [EmptyBucketRow(all[i])], all[..i + 1], known)
  {
    assert all[..i + 1] == all[..i] + [all[i]];
    forall k | 0 <= k < |empty|
      ensures StringLess(empty[k].patternId, all[i])
    {
      assert empty[k] in empty && EmptyBucketRow(empty[k].patternId) in empty;
      var j :| 0 <= j < i && all[j] == empty[k].patternId;
    }
  }

  lemma MissingAreDistinct(empty: seq<BucketRow>, patterns: seq<string>, known: set<string>)
    requires ListsMissing(empty, patterns, known)
    ensures forall i, j :: 0 <= i < j < |empty| ==> empty[i] != empty[j]
  {
    forall i, j | 0 <= i < j < |empty|
      ensures empty[i] != empty[j]
    {
      StringLessTotal(empty[i].patternId, empty[j].patternId);
    }
  }

  method MissingPatterns(patterns: seq<string>, known: set<string>) returns (empty: seq<BucketRow>)
    ensures ListsMissing(empty, patterns, known)
    ensures forall i, j :: 0 <= i < j < |empty| ==> empty[i] != empty[j]
  {
    StringsAreOrdered();
    var all := SortedSet(patterns, StringLess);
    SortedSetSorted(patterns, StringLess);
    empty := [];
    for i := 0 to |all|
      invariant ListsMissing(empty, all[..i], known)
    {
      OneMorePattern(empty, all, i, known);
      if all[i] !in known {
        empty := empty + [EmptyBucketRow(all[i])];
      }
    }
    assert all[..|all|] == all;
    MissingAreDistinct(empty, patterns, known);
  }

  datatype BucketError = NoRows | ReasonMissing | LabelMissing(row: nat) | CountNotPositive(row: nat)

  predicate RowUsable(b: BucketRow) {
    b.available ==> Strip(b.bucket) != "" && b.tradeCount > 0
  }

  /** What the validator demands of one breakdown. */
  ghost predicate BreakdownOk(buckets: seq<BucketRow>) {
    && buckets != []
    && (forall i :: 0 <= i < |buckets| ==> RowUsable(buckets[i]))
    && (exists i :: 0 <= i < |buckets| && (buckets[i].available || Strip(buckets[i].emptyReason) != ""))
  }

  /** What an error says of a breakdown, or of its row at the number. */
  ghost predicate IsBucketError(e: BucketError, buckets: seq<BucketRow>) {
    match e
    case NoRows => buckets == []
    case ReasonMissing =>
      buckets != [] && forall i :: 0 <= i < |buckets| ==> !buckets[i].available && Strip(buckets[i].emptyReason) == ""
    case LabelMissing(n) => 2 <= n < |buckets| + 2 && buckets[n - 2].available && Strip(buckets[n - 2].bucket) == ""
    case CountNotPositive(n) => 2 <= n < |buckets| + 2 && buckets[n - 2].available && buckets[n - 2].tradeCount == 0
  }

  method CheckBucketBreakdown(buckets: seq<BucketRow>) returns (errors: seq<BucketError>)
    ensures forall e :: e in errors <==> IsBucketError(e, buckets)
    ensures errors == [] <==> BreakdownOk(buckets)
  {
    if buckets == [] {
      return [NoRows];
    }
    errors := [];
    var anyAvailable, anyReason := false, false;
    for i := 0 to |buckets|
      invariant anyAvailable <==> exists k :: 0 <= k < i && buckets[k].available
      invariant anyReason <==> exists k :: 0 <= k < i && Strip(buckets[k].emptyReason) != ""
    {
      anyAvailable := anyAvailable || buckets[i].available;
      anyReason := anyReason || Strip(buckets[i].emptyReason) != "";
    }
    if !anyAvailable {
      if !anyReason {
        errors := errors + [ReasonMissing];
      }
      return;
    }
    errors := CheckAvailableRows(buckets);
  }

  method CheckAvailableRows(buckets: seq<BucketRow>) returns (errors: seq<BucketError>)
    ensures forall e :: e in errors <==> (e.LabelMissing? || e.CountNotPositive?) && IsBucketError(e, buckets)
    ensures errors == [] <==> forall k :: 0 <= k < |buckets| ==> RowUsable(buckets[k])
  {
    errors := [];
    for i := 0 to |buckets|
      invariant forall e :: e in errors <==>
                  (e.LabelMissing? || e.CountNotPositive?) && e.row < i + 2 && IsBucketError(e, buckets)
      invariant errors == [] <==> forall k :: 0 <= k < i ==> RowUsable(buckets[k])
    {
      if buckets[i].available {
        if Strip(buckets[i].bucket) == "" {
          errors := errors + [LabelMissing(i + 2)];
        }
        if buckets[i].tradeCount <= 0 {
          errors := errors + [CountNotPositive(i + 2)];
        }
      }
    }
  }

  function CountOf(buckets: seq<BucketRow>): nat {
    if buckets == [] then 0 else CountOf(buckets[..|buckets| - 1]) + buckets[|buckets| - 1].tradeCount
  }

  lemma FilledRowsUsable(rows: seq<TradeRow>, d: Dimension, round: real -> real)
    ensures forall b :: b in FilledRows(rows, d, BucketKeys(rows, d), round) ==> b.available && RowUsable(b)
  {
    var keys := BucketKeys(rows, d);
    var filled := FilledRows(rows, d, keys, round);
    forall i | 0 <= i < |filled|
      ensures filled[i].available && RowUsable(filled[i])
    {
      assert keys[i] in keys;
      LabelNotBlank(rows, d, keys[i]);
    }
  }

  lemma SomeRowIsFilled(rows: seq<TradeRow>, d: Dimension, round: real -> real)
    requires rows != []
    ensures FilledRows(rows, d, BucketKeys(rows, d), round) != []
  {
    assert KeysOf(rows, d)[0] in BucketKeys(rows, d);
  }

  lemma EmptyRowGivesReason()
    ensures Strip(EmptyBucketRow("").emptyReason) != ""
  {
  }

  /** The exporter's breakdown passes the validator's check, whatever the trades. */
  lemma ExportedBucketsAreUsable(
      rows: seq<TradeRow>, d: Dimension, round: real -> real, empty: seq<BucketRow>)
    requires forall b :: b in empty ==> !b.available
    requires rows == [] ==> empty == [EmptyBucketRow("")]
    ensures BreakdownOk(FilledRows(rows, d, BucketKeys(rows, d), round) + empty)
  {
    var filled := FilledRows(rows, d, BucketKeys(rows, d), round);
    var buckets := filled + empty;
    FilledRowsUsable(rows, d, round);
    forall i | 0 <= i < |buckets|
      ensures RowUsable(buckets[i])
    {
      assert buckets[i] in buckets;
    }
    if rows == [] {
      EmptyRowGivesReason();
      assert buckets == [EmptyBucketRow("")];
    } else {
      SomeRowIsFilled(rows, d, round);
      assert buckets[0] in filled;
    }
  }

  lemma LabelNotBlank(rows: seq<TradeRow>, d: Dimension, key: Key)
    requires key in KeysOf(rows, d)
    ensures Strip(key.1) != "" && BucketTrades(rows, d, key) != []
  {
    var i :| 0 <= i < |rows| && KeyOf(rows[i], d) == key;
    var raw := if d.Regime? then rows[i].regime else rows[i].variant;
    StripTwice(raw);
    TrimOf("", "unknown", "", IsSpace);
    assert "" + "unknown" + "" == "unknown";
  }

  // ----- buckets conserve the trades

  lemma {:induction false} PickedGrows(rows: seq<TradeRow>, keys: seq<Key>, ks: seq<Key>)
    requires |keys| == |rows| > 0
    requires forall i, j :: 0 <= i < j < |ks| ==> ks[i] != ks[j]
    ensures var n := |rows| - 1;
            PickedCount(rows, keys, ks) == PickedCount(rows[..n], keys[..n], ks) + if keys[n] in ks then 1 else 0
    decreases ks
  {
    if ks != [] {
      var k := |ks| - 1;
      PickedGrows(rows, keys, ks[..k]);
      assert ks == ks[..k] + [ks[k]];
    }
  }

  function PickedCount(rows: seq<TradeRow>, keys: seq<Key>, ks: seq<Key>): nat
    requires |keys| == |rows|
  {
    if ks == [] then 0
    else PickedCount(rows, keys, ks[..|ks| - 1]) + |Picked(rows, keys, ks[|ks| - 1])|
  }

  lemma {:induction false} PickedCoversAll(rows: seq<TradeRow>, keys: seq<Key>, ks: seq<Key>)
    requires |keys| == |rows|
    requires forall i, j :: 0 <= i < j < |ks| ==> ks[i] != ks[j]
    requires forall k :: k in keys ==> k in ks
    ensures PickedCount(rows, keys, ks) == |rows|
  {
    if rows == [] {
      NothingPicked(ks);
    } else {
      var n := |rows| - 1;
      assert keys == keys[..n] + [keys[n]];
      PickedCoversAll(rows[..n], keys[..n], ks);
      PickedGrows(rows, keys, ks);
    }
  }

  lemma {:induction false} NothingPicked(ks: seq<Key>)
    ensures PickedCount([], [], ks) == 0
  {
    if ks != [] {
      NothingPicked(ks[..|ks| - 1]);
    }
  }

  lemma FilledOneMore(rows: seq<TradeRow>, d: Dimension, ks: seq<Key>, round: real -> real)
    requires ks != []
    ensures var k := |ks| - 1;
            var filled := FilledRows(rows, d, ks, round);
            filled[..k] == FilledRows(rows, d, ks[..k], round)
            && filled[k].tradeCount == |Picked(rows, KeysOf(rows, d), ks[k])|
  {
  }

  lemma {:induction false} CountOfFilled(rows: seq<TradeRow>, d: Dimension, ks: seq<Key>, round: real -> real)
    ensures CountOf(FilledRows(rows, d, ks, round)) == PickedCount(rows, KeysOf(rows, d), ks)
  {
    if ks != [] {
      var k := |ks| - 1;
      CountOfFilled(rows, d, ks[..k], round);
      FilledOneMore(rows, d, ks, round);
    }
  }

  /** Every trade row is counted in exactly one bucket. */
  lemma BucketsCountEveryTrade(rows: seq<TradeRow>, d: Dimension, round: real -> real)
    ensures CountOf(FilledRows(rows, d, BucketKeys(rows, d), round)) == |rows|
  {
    KeysSorted(rows, d);
    PickedCoversAll(rows, KeysOf(rows, d), BucketKeys(rows, d));
    CountOfFilled(rows, d, BucketKeys(rows, d), round);
  }
}
