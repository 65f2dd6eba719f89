/**
  A package with nothing to report and a promoted pattern that was never traded. The validator's
  reference check, which knows the catalog, does not help: a trade may name no pattern at all.
  */
module UntradedPromotion {
  import opened PyText
  import opened GateRows
  import opened DirectorGate
  import opened PromotionEvidence
  import AuditDuplicates

  /** The reference check: a trade that names a pattern names one of the catalog. */
  ghost predicate KnownPatterns(t: Tables) {
    forall i :: 0 <= i < |t.trades| ==> KnownOrBlank(t.catalog, Get(t.trades[i], "pattern_id"))
  }

  ghost predicate KnownOrBlank(catalog: seq<Row>, pid: string) {
    pid != "" ==> exists k :: 0 <= k < |catalog| && Get(catalog[k], "pattern_id") == pid
  }

  ghost predicate AllSilent(t: Tables, number: Reader, limits: Limits) {
    BothSilent(t, number, limits) && KnownPatterns(t)
  }

  /** Whatever the trades table, all three checks are silent only if the pattern is traded. */
  ghost predicate ChecksShowTrades(t: Tables, number: Reader, limits: Limits, pid: string) {
    forall trades :: AllSilent(WithTrades(t, trades), number, limits) ==>
      IsTraded(WithTrades(t, trades), pid, limits.minTrades)
  }

  lemma BlankVariant(t: Tables, number: Reader, limits: Limits, pid: string)
    requires !HasMetricsRow(t, pid) && !HasMetricsRow(t, "") && pid != "" && limits.minTrades > 0
    ensures AllSilent(t, number, limits) ==> !ChecksShowTrades(t, number, limits, pid)
  {
    var trades := RebookedRows(t.trades, pid, "");
    RebookingIsSilent(t, number, limits, pid, "");
    NothingLeft(t, pid, "");
    StaysKnown(t, pid);
    assert !IsTraded(WithTrades(t, trades), pid, limits.minTrades);
  }

  lemma StaysKnown(t: Tables, pid: string)
    ensures KnownPatterns(t) ==> KnownPatterns(WithTrades(t, RebookedRows(t.trades, pid, "")))
  {
    if KnownPatterns(t) {
      var u := WithTrades(t, RebookedRows(t.trades, pid, ""));
      forall i | 0 <= i < |u.trades|
        ensures KnownOrBlank(u.catalog, Get(u.trades[i], "pattern_id"))
      {
        assert KnownOrBlank(t.catalog, Get(t.trades[i], "pattern_id"));
      }
    }
  }

  /** With the reference check the condition is the same, as long as no metrics row has a blank id. */
  lemma ChecksShowTradesIff(t: Tables, number: Reader, limits: Limits, pid: string)
    requires pid != "" && !HasMetricsRow(t, "")
    ensures AllSilent(t, number, limits) && IsPromoted(t, pid) ==>
              (ChecksShowTrades(t, number, limits, pid) <==> HasMetricsRow(t, pid) || limits.minTrades <= 0)
  {
    if AllSilent(t, number, limits) && IsPromoted(t, pid) {
      if HasMetricsRow(t, pid) || limits.minTrades <= 0 {
        SilenceShowsTradesIff(t, number, limits, pid);
        assert SilenceShowsTrades(t, number, limits, pid);
      } else {
        BlankVariant(t, number, limits, pid);
      }
    }
  }

  // ----- a package with nothing to report

  /** One promoted pattern, one event, one trade with its fill, no experiments, no metrics. */
  ghost predicate Quiet(p: Package, limits: Limits) {
    && |p.catalog| == |p.events| == |p.trades| == 1 && p.metrics == [] && p.experiments == []
    && p.catalog[0].standing == Promotion
    && p.events[0].verdict == Verified && p.events[0].complete && !p.events[0].labelPending
    && p.events[0].namesRegime && p.events[0].namesSector
    && p.trades[0].costed && p.trades[0].hasSlippage && p.trades[0].id in p.fillIds
    && |p.fillIds| >= limits.minFills && limits.maxShare >= 0.0
    && p.columns.lookahead && p.columns.entryEligible
  }

  lemma OneEventNeverRepeats(events: seq<Event>)
    requires |events| == 1
    ensures DuplicateShare(events) == 0.0
  {
    var labels := AuditDuplicates.Labels(GroupCells(events));
    assert AuditDuplicates.RepeatedRows(labels) == {};
  }

  lemma QuietIsSilentAt(stage: Stage, p: Package, limits: Limits)
    requires Quiet(p, limits)
    ensures Clear(stage, p, limits)
  {
    LastRowDecides(p.catalog, 0);
    match stage {
      case Inventory => assert Statuses(p.catalog) == map[p.catalog[0].id := Promotion];
      case Labels => OneEventNeverRepeats(p.events);
      case Sampling => assert p.events[0] in p.events;
      case _ =>
    }
  }

  lemma QuietIsSilent(p: Package, limits: Limits)
    ensures Quiet(p, limits) ==> Blockers(p, limits) == []
  {
    if Quiet(p, limits) {
      forall stage | stage in STAGES
        ensures Clear(stage, p, limits)
      {
        QuietIsSilentAt(stage, p, limits);
      }
      SilentIff(STAGES, p, limits);
    }
  }

  // ----- its tables

  const PATTERN: Row := map["pattern_id" := "p", "status" := "approved"]

  const EVENT_COLUMNS: set<string> := (set c | c in LOOKAHEAD) + {"is_independent_sample", "market_regime", "sector"}

  /** A row saying the same in all its columns. */
  function Filled(columns: set<string>, text: string): (row: Row)
    ensures row.Keys == columns && forall c :: c in columns ==> Get(row, c) == text
  {
    map c | c in columns :: text
  }

  const COST_COLUMNS: set<string> := {"commission", "estimated_spread_cost", "estimated_slippage"}

  /** The trade names no pattern. */
  function Untraded(fills: nat): Tables {
    Tables([PATTERN], [Filled(EVENT_COLUMNS, "true")], [Filled(COST_COLUMNS + {"trade_id"}, "1")],
           seq(fills, _ => Filled({"trade_id"}, "1")), [], [], [], [])
  }

  /** No blanks at the ends and nothing to lower. */
  predicate Plain(s: string) {
    s != "" && !IsSpace(s[0]) && !IsSpace(s[|s| - 1]) && forall i :: 0 <= i < |s| ==> !('A' <= s[i] <= 'Z')
  }

  lemma PlainCell(row: Row, column: string, text: string)
    requires Get(row, column) == text && Plain(text)
    ensures Cell(row, column) == text == Word(row, column)
  {
    StripKeeps(text);
    assert LowerCase(text) == text;
  }

  lemma PatternRead()
    ensures PatternOf(PATTERN).id == "p" && PatternOf(PATTERN).standing == Promotion
  {
    PlainCell(PATTERN, "status", "approved");
  }

  lemma EventCell(row: Row, column: string)
    requires row == Filled(EVENT_COLUMNS, "true") && column in EVENT_COLUMNS
    ensures column in row && Cell(row, column) == Word(row, column) == "true"
  {
    PlainCell(row, column, "true");
  }

  lemma EventRead(row: Row)
    requires row == Filled(EVENT_COLUMNS, "true")
    ensures var e := EventOf(row);
            e.verdict == Verified && e.complete && !e.labelPending && e.namesRegime && e.namesSector
  {
    forall k | 0 <= k < |LOOKAHEAD|
      ensures Cell(row, LOOKAHEAD[k]) != ""
    {
      EventCell(row, LOOKAHEAD[k]);
    }
    assert LOOKAHEAD[3] == "label_generated_ts";
    EventCell(row, "label_generated_ts");
    EventCell(row, "is_independent_sample");
    EventCell(row, "market_regime");
    EventCell(row, "sector");
  }

  lemma EventColumns(row: Row)
    requires row == Filled(EVENT_COLUMNS, "true")
    ensures HasAllColumns([row], LOOKAHEAD) && HasColumn([row], "entry_eligible_ts")
  {
    assert [row][0] == row;
    assert LOOKAHEAD[2] == "entry_eligible_ts";
  }

  lemma TradeRead(row: Row)
    requires row == Filled(COST_COLUMNS + {"trade_id"}, "1")
    ensures TradeOf(row) == Trade("1", true, true)
  {
    forall c | c in COST_COLUMNS + {"trade_id"}
      ensures Cell(row, c) == "1"
    {
      PlainCell(row, c, "1");
    }
  }

  lemma FillRead(row: Row)
    requires row == Filled({"trade_id"}, "1")
    ensures Cell(row, "trade_id") == "1"
  {
    PlainCell(row, "trade_id", "1");
  }

  /** The gate reads row by row. */
  lemma ReadOneByOne(t: Tables, number: Reader)
    requires |t.catalog| == |t.events| == |t.trades| == 1 && t.metrics == [] && t.experiments == [] && t.fills != []
    ensures var p := Read(t, number);
            && p.catalog == [PatternOf(t.catalog[0])] && p.events == [EventOf(t.events[0])]
            && p.trades == [TradeOf(t.trades[0])] && p.metrics == [] && p.experiments == []
            && |p.fillIds| == |t.fills| && Cell(t.fills[0], "trade_id") in p.fillIds
            && p.columns == ColumnsOf(t)
  {
    assert Read(t, number).fillIds[0] == Cell(t.fills[0], "trade_id");
  }

  lemma ColumnsRead(t: Tables)
    requires |t.events| == 1 && t.events[0] == Filled(EVENT_COLUMNS, "true")
    ensures ColumnsOf(t).lookahead && ColumnsOf(t).entryEligible
  {
    EventColumns(t.events[0]);
    assert t.events == [t.events[0]];
  }

  lemma QuietTables(fills: nat, number: Reader, limits: Limits)
    requires fills > 0 && limits.minFills <= fills && limits.maxShare >= 0.0
    ensures Quiet(Read(Untraded(fills), number), limits)
  {
    var t := Untraded(fills);
    ReadOneByOne(t, number);
    PatternRead();
    EventRead(t.events[0]);
    ColumnsRead(t);
    TradeRead(t.trades[0]);
    FillRead(t.fills[0]);
  }

  lemma NoPatternNamed(row: Row)
    requires row == Filled(COST_COLUMNS + {"trade_id"}, "1")
    ensures Get(row, "pattern_id") == ""
  {
    assert |"pattern_id"| == 10;
    assert forall c :: c in COST_COLUMNS + {"trade_id"} ==> c[0] != 'p';
  }

  lemma PatternPromoted(t: Tables)
    requires t.catalog == [PATTERN]
    ensures IsPromoted(t, "p")
  {
    PatternRead();
    assert LastRowOf(t.catalog, 0, "p");
  }

  lemma BlankTrades(t: Tables)
    requires |t.trades| == 1 && Get(t.trades[0], "pattern_id") == ""
    ensures KnownPatterns(t) && RowsOf(t.trades, "p") == {}
  {
  }

  /**
    The gate, the coherence check and the reference check are silent about it, whatever the number of
    trades required, yet its pattern is promoted and has no trade.
    */
  lemma SilentAndUntraded(fills: nat, number: Reader, limits: Limits)
    requires fills > 0
    ensures limits.minFills <= fills && limits.maxShare >= 0.0 ==> AllSilent(Untraded(fills), number, limits)
    ensures IsPromoted(Untraded(fills), "p") && RowsOf(Untraded(fills).trades, "p") == {}
  {
    var t := Untraded(fills);
    PatternPromoted(t);
    NoPatternNamed(t.trades[0]);
    BlankTrades(t);
    if limits.minFills <= fills && limits.maxShare >= 0.0 {
      QuietTables(fills, number, limits);
      QuietIsSilent(Read(t, number), limits);
    }
  }
}
