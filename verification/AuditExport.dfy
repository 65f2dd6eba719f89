/**
  The rows the audit exporter writes from the laboratory overview: paper trades, fills, the
  catalog status of a pattern, and the performance rows per pattern and per bucket. Amounts are
  exact; `round` is whatever four-decimal rounding the writer uses.
  */
module AuditExport {
  import opened PyText

  /** A closed lab trade; `patternRef` is "" when no pattern can be named for it. */
  datatype LabTrade = LabTrade(
    id: string,
    exportable: bool,
    patternRef: string,
    gross: real,
    commission: real,
    spread: real,
    slippage: real,
    fees: real,
    rMultiple: real,
    regime: string,
    variant: string,
    entryFill: bool,
    exitFill: bool)

  datatype TradeRow = TradeRow(
    tradeId: string,
    patternId: string,
    gross: real,
    commission: real,
    spread: real,
    slippage: real,
    fees: real,
    net: real,
    rMultiple: real,
    regime: string,
    variant: string)

  datatype FillRow = FillRow(tradeId: string, isEntry: bool)

  // ----- trades and fills

  function NetPnl(t: LabTrade): real {
    t.gross - t.commission - t.spread - t.slippage - t.fees
  }

  function PaperTrade(t: LabTrade, round: real -> real): TradeRow {
    TradeRow(t.id, t.patternRef, round(t.gross), round(t.commission), round(t.spread), round(t.slippage),
             round(t.fees), round(NetPnl(t)), t.rMultiple, t.regime, t.variant)
  }

  predicate BecomesRow(t: LabTrade) {
    t.exportable && t.patternRef != ""
  }

  method BuildPaperTrades(trades: seq<LabTrade>, round: real -> real) returns (rows: seq<TradeRow>)
    ensures forall row :: row in rows <==> exists t :: t in trades && BecomesRow(t) && row == PaperTrade(t, round)
    ensures |rows| == |ExportedTrades(trades)|
    ensures forall i :: 0 <= i < |rows| ==> rows[i] == PaperTrade(ExportedTrades(trades)[i], round)
  {
    rows := [];
    for i := 0 to |trades|
      invariant |rows| == |ExportedTrades(trades[..i])|
      invariant forall k :: 0 <= k < |rows| ==> rows[k] == PaperTrade(ExportedTrades(trades[..i])[k], round)
    {
      assert trades[..i + 1][..i] == trades[..i];
      if !trades[i].exportable || trades[i].patternRef == "" {
        continue;
      }
      rows := rows + [PaperTrade(trades[i], round)];
    }
    assert trades[..|trades|] == trades;
  }

  function ExportedTrades(trades: seq<LabTrade>): (r: seq<LabTrade>)
    ensures forall t :: t in r <==> t in trades && BecomesRow(t)
  {
    if trades == [] then []
    else
      var n := |trades| - 1;
      assert trades == trades[..n] + [trades[n]];
      ExportedTrades(trades[..n]) + if BecomesRow(trades[n]) then [trades[n]] else []
  }

  /** Ids of exported rows that are not blank. */
  function ExportedIds(rows: seq<TradeRow>): (ids: set<string>)
    ensures forall id :: id in ids <==> Strip(id) != "" && exists row :: row in rows && row.tradeId == id
  {
    set i | 0 <= i < |rows| && Strip(rows[i].tradeId) != "" :: rows[i].tradeId
  }

  /** The fills of one trade, the entry before the exit. */
  function FillsOf(t: LabTrade, allowed: set<string>): seq<FillRow> {
    if !t.exportable || t.id !in allowed then []
    else (if t.entryFill then [FillRow(t.id, true)] else []) + if t.exitFill then [FillRow(t.id, false)] else []
  }

  ghost predicate FillOf(f: FillRow, t: LabTrade, allowed: set<string>) {
    t.exportable && t.id in allowed && f.tradeId == t.id && (if f.isEntry then t.entryFill else t.exitFill)
  }

  /** The fills of all trades, trade by trade. */
  function FillsOfAll(trades: seq<LabTrade>, allowed: set<string>): (r: seq<FillRow>)
    ensures forall f :: f in r <==> exists t :: t in trades && FillOf(f, t, allowed)
  {
    if trades == [] then []
    else
      var n := |trades| - 1;
      assert trades == trades[..n] + [trades[n]];
      assert forall f :: f in FillsOf(trades[n], allowed) <==> FillOf(f, trades[n], allowed);
      FillsOfAll(trades[..n], allowed) + FillsOf(trades[n], allowed)
  }

  lemma FillsOneMore(trades: seq<LabTrade>, i: nat, allowed: set<string>)
    requires i < |trades|
    ensures FillsOfAll(trades[..i + 1], allowed) == FillsOfAll(trades[..i], allowed) + FillsOf(trades[i], allowed)
  {
    assert trades[..i + 1][..i] == trades[..i];
  }

  method BuildIbFills(trades: seq<LabTrade>, allowed: set<string>) returns (fills: seq<FillRow>)
    ensures fills == FillsOfAll(trades, allowed)
    ensures forall f :: f in fills <==> exists t :: t in trades && FillOf(f, t, allowed)
  {
    fills := [];
    for i := 0 to |trades|
      invariant fills == FillsOfAll(trades[..i], allowed)
    {
      var trade := trades[i];
      FillsOneMore(trades, i, allowed);
      if !trade.exportable || trade.id !in allowed {
        continue;
      }
      if trade.entryFill {
        fills := fills + [FillRow(trade.id, true)];
      }
      if trade.exitFill {
        fills := fills + [FillRow(trade.id, false)];
      }
    }
    assert trades[..|trades|] == trades;
  }

  // ----- the catalog status

  const PROMOTION_STATUSES: set<string> := {
    "paper_candidate", "premium_candidate", "paper_limited_candidate", "paper_extended_candidate",
    "ready_for_paper_extended", "approved", "live_candidate", "production_candidate", "production" }

  datatype Field = Missing | Null | Text(value: string)

  /** The two status fields of a stored pattern. */
  datatype Pattern = Pattern(id: string, status: Field, promotionStatus: Field)

  function Normal(s: string): string {
    LowerCase(Strip(s))
  }

  /** str(x or ""): null, absent and empty all read as "". */
  function TextOf(x: Field): string {
    if x.Text? then x.value else ""
  }

  /** str(status or promotion_status or "").strip().lower() */
  function RawStatus(p: Pattern): string {
    Normal(if TextOf(p.status) != "" then TextOf(p.status) else TextOf(p.promotionStatus))
  }

  function StatusWithoutLinkedFill(p: Pattern, linked: set<string>): string {
    var raw, promotion := RawStatus(p), Normal(TextOf(p.promotionStatus));
    if (raw in PROMOTION_STATUSES || promotion in PROMOTION_STATUSES) && p.id !in linked
    then if raw != "" then raw else promotion
    else ""
  }

  function ExportStatus(p: Pattern, linked: set<string>): string {
    if StatusWithoutLinkedFill(p, linked) != "" then "freeze"
    else if p.status.Null? then "None"
    else Strip(TextOf(p.status))
  }

  /** Patterns with an exported trade whose id carries an exported fill. */
  function LinkedFillPatternIds(rows: seq<TradeRow>, fills: seq<FillRow>): (r: set<string>)
    ensures forall pid :: pid in r <==> pid != "" && exists row, f :: HasFill(rows, fills, pid, row, f)
  {
    var filled := set i | 0 <= i < |fills| && Strip(fills[i].tradeId) != "" :: Strip(fills[i].tradeId);
    var r := set i | 0 <= i < |rows| && Strip(rows[i].patternId) != "" && Strip(rows[i].tradeId) in filled
      :: Strip(rows[i].patternId);
    LinkedMeaning(rows, fills, filled, r);
    r
  }

  ghost predicate HasFill(rows: seq<TradeRow>, fills: seq<FillRow>, pid: string, row: TradeRow, f: FillRow) {
    && row in rows && Strip(row.patternId) == pid
    && f in fills && Strip(f.tradeId) == Strip(row.tradeId) != ""
  }

  lemma LinkedMeaning(rows: seq<TradeRow>, fills: seq<FillRow>, filled: set<string>, r: set<string>)
    requires filled == set i | 0 <= i < |fills| && Strip(fills[i].tradeId) != "" :: Strip(fills[i].tradeId)
    requires r == set i | 0 <= i < |rows| && Strip(rows[i].patternId) != "" && Strip(rows[i].tradeId) in filled
      :: Strip(rows[i].patternId)
    ensures forall pid :: pid in r <==> pid != "" && exists row, f :: HasFill(rows, fills, pid, row, f)
  {
    forall pid
      ensures pid in r <==> pid != "" && exists row, f :: HasFill(rows, fills, pid, row, f)
    {
      if pid in r {
        var i :| 0 <= i < |rows| && Strip(rows[i].patternId) == pid != "" && Strip(rows[i].tradeId) in filled;
        var k :| 0 <= k < |fills| && Strip(fills[k].tradeId) == Strip(rows[i].tradeId) != "";
        assert HasFill(rows, fills, pid, rows[i], fills[k]);
      }
      if pid != "" && exists row, f :: HasFill(rows, fills, pid, row, f) {
        var row, f :| HasFill(rows, fills, pid, row, f);
        var i :| 0 <= i < |rows| && rows[i] == row;
        var k :| 0 <= k < |fills| && fills[k] == f;
        assert Strip(fills[k].tradeId) in filled;
      }
    }
  }

  lemma ShortIsNoPromotion(s: string)
    requires |s| < 8
    ensures Normal(s) !in PROMOTION_STATUSES
  {
    var a, b := TrimParts(s, IsSpace);
    assert |Normal(s)| < 8;
    forall p | p in PROMOTION_STATUSES
      ensures 8 <= |p|
    {
    }
  }

  /** A status the director would read as a promotion is only exported with a filled trade of the pattern. */
  lemma PromotedStatusHasFill(p: Pattern, rows: seq<TradeRow>, fills: seq<FillRow>)
    ensures var linked := LinkedFillPatternIds(rows, fills);
            Normal(ExportStatus(p, linked)) in PROMOTION_STATUSES ==>
              p.id in linked && exists row, f :: HasFill(rows, fills, p.id, row, f)
    ensures var linked := LinkedFillPatternIds(rows, fills);
            p.id !in linked && (RawStatus(p) in PROMOTION_STATUSES
                                || Normal(TextOf(p.promotionStatus)) in PROMOTION_STATUSES)
            ==> ExportStatus(p, linked) == "freeze"
  {
    ShortIsNoPromotion("freeze");
    ShortIsNoPromotion("None");
    ShortIsNoPromotion("");
    StripTwice(TextOf(p.status));
  }
}
