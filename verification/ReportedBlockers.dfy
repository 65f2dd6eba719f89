/**
  The blockers of the director gate read off the table rows: for each one the cells that make it
  due, and the report as exactly those due, in the order of the report.
  */
module ReportedBlockers {
  import opened Wrappers
  import opened PyText
  import opened GateRows
  import opened RowReadings
  import opened DirectorGate
  import AuditDuplicates

  // ----- the order of the report

  /** No blocker twice, and all in the order of the list. */
  ghost predicate InReportOrder(blockers: seq<Blocker>) {
    forall i, j :: 0 <= i < j < |blockers| ==> Rank(blockers[i]) < Rank(blockers[j])
  }

  /** Its place in the report. */
  ghost function Rank(b: Blocker): nat {
    match b
    case NoCatalog => 0 case NoEvents => 1 case NoTrades => 2 case NoFills => 3 case UnknownStatuses => 4
    case PromotedWithoutTrades => 5 case PromotedWithoutFills => 6 case ResearchMetricsInColumns => 7
    case LookaheadColumnsMissing => 8 case LookaheadBlank => 9 case CloseEntryWithoutProof => 10
    case DuplicatesExceed => 11 case PendingLabelsPromoted => 12 case NotIndependent => 13
    case IndependencePending => 14 case SampleCountMismatch => 15 case RegimeNotPersisted => 16
    case SectorNotPersisted => 17 case NoOutOfSample => 18 case NoTrainOnlyEvidence => 19
    case NoMultipleTesting => 20 case ContractColumnsMissing => 21 case LedgerHashMissing => 22
    case ReplayMissing => 23 case ReplayNotPassed => 24 case EdgeInflated => 25 case EdgeMissing => 26
    case DriftDegrading => 27 case BlockersActive => 28 case RegistryHashMissing => 29
    case RunManifestMissing => 30 case ChainInvalid => 31 case TradesWithoutFills => 32 case CostMissing => 33
    case SlippageMissing => 34
  }

  // ----- the reasons are those

  /** Some reading is bad if and only if some row bears the sign of it. */
  lemma SomeReading<T(!new)>(rows: seq<Row>, all: seq<T>, bad: T -> bool, sign: Row -> bool)
    requires |all| == |rows| && forall i :: 0 <= i < |rows| ==> (bad(all[i]) <==> sign(rows[i]))
    ensures (exists x :: x in all && bad(x)) <==> exists i :: 0 <= i < |rows| && sign(rows[i])
  {
    if x :| x in all && bad(x) {
      var i :| 0 <= i < |all| && all[i] == x;
    }
    if i :| 0 <= i < |rows| && sign(rows[i]) {
      assert all[i] in all && bad(all[i]);
    }
  }

  lemma SomeRow<T(!new)>(rows: seq<Row>, read: Row -> T, bad: T -> bool, sign: Row -> bool)
    requires forall i :: 0 <= i < |rows| ==> (bad(read(rows[i])) <==> sign(rows[i]))
    ensures (exists x :: x in Map(rows, read) && bad(x)) <==> exists i :: 0 <= i < |rows| && sign(rows[i])
  {
    SomeReading(rows, Map(rows, read), bad, sign);
  }

  lemma SomeBlank(rows: seq<Row>)
    ensures (exists x :: x in Map(rows, EventOf) && !x.complete)
       <==> exists i :: 0 <= i < |rows| && LacksLookahead(rows[i])
  {
    forall i | 0 <= i < |rows|
      ensures !EventOf(rows[i]).complete <==> LacksLookahead(rows[i])
    {
      LabelIs(rows[i]);
    }
    SomeRow(rows, EventOf, (x: Event) => !x.complete, row => LacksLookahead(row));
  }

  lemma SomePending(rows: seq<Row>)
    ensures (exists x :: x in Map(rows, EventOf) && x.labelPending)
       <==> exists i :: 0 <= i < |rows| && IsLabelPending(rows[i])
  {
    forall i | 0 <= i < |rows|
      ensures EventOf(rows[i]).labelPending <==> IsLabelPending(rows[i])
    {
      LabelIs(rows[i]);
    }
    SomeRow(rows, EventOf, (x: Event) => x.labelPending, row => IsLabelPending(row));
  }

  lemma SomeDependent(rows: seq<Row>)
    ensures (exists x :: x in Map(rows, EventOf) && x.verdict != Verified)
       <==> exists i :: 0 <= i < |rows| && !IsIndependent(rows[i])
  {
    forall i | 0 <= i < |rows|
      ensures EventOf(rows[i]).verdict != Verified <==> !IsIndependent(rows[i])
    {
      VerdictIs(rows[i]);
    }
    SomeRow(rows, EventOf, (x: Event) => x.verdict != Verified, row => !IsIndependent(row));
  }

  lemma SomeUnsettled(rows: seq<Row>)
    ensures (exists x :: x in Map(rows, EventOf) && x.verdict == Unsettled)
       <==> exists i :: 0 <= i < |rows| && IsUnsettled(rows[i])
  {
    forall i | 0 <= i < |rows|
      ensures EventOf(rows[i]).verdict == Unsettled <==> IsUnsettled(rows[i])
    {
      VerdictIs(rows[i]);
    }
    SomeRow(rows, EventOf, (x: Event) => x.verdict == Unsettled, row => IsUnsettled(row));
  }

  lemma SomeRegime(rows: seq<Row>)
    ensures (exists x :: x in Map(rows, EventOf) && x.namesRegime)
       <==> exists i :: 0 <= i < |rows| && !IsUnnamed(rows[i], "market_regime")
  {
    forall i | 0 <= i < |rows|
      ensures EventOf(rows[i]).namesRegime <==> !IsUnnamed(rows[i], "market_regime")
    {
      NameIs(rows[i], "market_regime");
    }
    SomeRow(rows, EventOf, (x: Event) => x.namesRegime, row => !IsUnnamed(row, "market_regime"));
  }

  lemma SomeSector(rows: seq<Row>)
    ensures (exists x :: x in Map(rows, EventOf) && x.namesSector)
       <==> exists i :: 0 <= i < |rows| && !IsUnnamed(rows[i], "sector")
  {
    forall i | 0 <= i < |rows|
      ensures EventOf(rows[i]).namesSector <==> !IsUnnamed(rows[i], "sector")
    {
      NameIs(rows[i], "sector");
    }
    SomeRow(rows, EventOf, (x: Event) => x.namesSector, row => !IsUnnamed(row, "sector"));
  }

  lemma SomeBounds(rows: seq<Row>)
    ensures (exists x :: x in Map(rows, ExperimentOf) && x.hasOosBounds)
       <==> exists i :: 0 <= i < |rows| && HasBounds(rows[i])
  {
    forall i | 0 <= i < |rows|
      ensures ExperimentOf(rows[i]).hasOosBounds <==> HasBounds(rows[i])
    {
      ExperimentIs(rows[i]);
    }
    SomeRow(rows, ExperimentOf, (x: Experiment) => x.hasOosBounds, row => HasBounds(row));
  }

  lemma SomeWithoutLedger(rows: seq<Row>)
    ensures (exists x :: x in Map(rows, ExperimentOf) && !x.hasLedgerHash)
       <==> exists i :: 0 <= i < |rows| && Entry(rows[i], "event_ledger_hash") == ""
  {
    forall i | 0 <= i < |rows|
      ensures !ExperimentOf(rows[i]).hasLedgerHash <==> Entry(rows[i], "event_ledger_hash") == ""
    {
      ExperimentIs(rows[i]);
    }
    SomeRow(rows, ExperimentOf, (x: Experiment) => !x.hasLedgerHash, row => Entry(row, "event_ledger_hash") == "");
  }

  lemma SomeWithoutReplay(rows: seq<Row>)
    ensures (exists x :: x in Map(rows, ExperimentOf) && x.replay == Missing)
       <==> exists i :: 0 <= i < |rows| && LacksReplay(rows[i])
  {
    forall i | 0 <= i < |rows|
      ensures ExperimentOf(rows[i]).replay == Missing <==> LacksReplay(rows[i])
    {
      ReplayIs(rows[i]);
    }
    SomeRow(rows, ExperimentOf, (x: Experiment) => x.replay == Missing, row => LacksReplay(row));
  }

  lemma SomeFailedReplay(rows: seq<Row>)
    ensures (exists x :: x in Map(rows, ExperimentOf) && x.replay == NotPassed)
       <==> exists i :: 0 <= i < |rows| && FailsReplay(rows[i])
  {
    forall i | 0 <= i < |rows|
      ensures ExperimentOf(rows[i]).replay == NotPassed <==> FailsReplay(rows[i])
    {
      ReplayIs(rows[i]);
    }
    SomeRow(rows, ExperimentOf, (x: Experiment) => x.replay == NotPassed, row => FailsReplay(row));
  }

  lemma SomeInflated(rows: seq<Row>)
    ensures (exists x :: x in Map(rows, ExperimentOf) && x.edge == Inflated)
       <==> exists i :: 0 <= i < |rows| && IsInflated(rows[i])
  {
    forall i | 0 <= i < |rows|
      ensures ExperimentOf(rows[i]).edge == Inflated <==> IsInflated(rows[i])
    {
      EdgeIs(rows[i]);
    }
    SomeRow(rows, ExperimentOf, (x: Experiment) => x.edge == Inflated, row => IsInflated(row));
  }

  lemma SomeWithoutEdge(rows: seq<Row>)
    ensures (exists x :: x in Map(rows, ExperimentOf) && x.edge == NoClaim)
       <==> exists i :: 0 <= i < |rows| && Entry(rows[i], "edge_claim") == ""
  {
    forall i | 0 <= i < |rows|
      ensures ExperimentOf(rows[i]).edge == NoClaim <==> Entry(rows[i], "edge_claim") == ""
    {
      EdgeIs(rows[i]);
    }
    SomeRow(rows, ExperimentOf, (x: Experiment) => x.edge == NoClaim, row => Entry(row, "edge_claim") == "");
  }

  lemma SomeDegrading(rows: seq<Row>)
    ensures (exists x :: x in Map(rows, ExperimentOf) && x.degrades)
       <==> exists i :: 0 <= i < |rows| && IsDegrading(rows[i])
  {
    forall i | 0 <= i < |rows|
      ensures ExperimentOf(rows[i]).degrades <==> IsDegrading(rows[i])
    {
      DriftIs(rows[i]);
    }
    SomeRow(rows, ExperimentOf, (x: Experiment) => x.degrades, row => IsDegrading(row));
  }

  lemma SomeActive(rows: seq<Row>)
    ensures (exists x :: x in Map(rows, ExperimentOf) && x.reportsBlockers)
       <==> exists i :: 0 <= i < |rows| && IsActive(Entry(rows[i], "active_blockers"))
  {
    forall i | 0 <= i < |rows|
      ensures ExperimentOf(rows[i]).reportsBlockers <==> IsActive(Entry(rows[i], "active_blockers"))
    {
      ExperimentIs(rows[i]);
    }
    SomeRow(rows, ExperimentOf, (x: Experiment) => x.reportsBlockers, row => IsActive(Entry(row, "active_blockers")));
  }

  lemma SomeUnregistered(rows: seq<Row>)
    ensures (exists x :: x in Map(rows, ExperimentOf) && !x.hasRegistryHash)
       <==> exists i :: 0 <= i < |rows| && Entry(rows[i], "registry_hash") == ""
  {
    forall i | 0 <= i < |rows|
      ensures !ExperimentOf(rows[i]).hasRegistryHash <==> Entry(rows[i], "registry_hash") == ""
    {
      ExperimentIs(rows[i]);
    }
    SomeRow(rows, ExperimentOf, (x: Experiment) => !x.hasRegistryHash, row => Entry(row, "registry_hash") == "");
  }

  lemma SomeWithoutManifest(rows: seq<Row>)
    ensures (exists x :: x in Map(rows, ExperimentOf) && !x.hasRunManifest)
       <==> exists i :: 0 <= i < |rows| && Entry(rows[i], "registry_run_manifest_hash") == ""
  {
    forall i | 0 <= i < |rows|
      ensures !ExperimentOf(rows[i]).hasRunManifest <==> Entry(rows[i], "registry_run_manifest_hash") == ""
    {
      ExperimentIs(rows[i]);
    }
    SomeRow(
      rows, ExperimentOf, (x: Experiment) => !x.hasRunManifest, row => Entry(row, "registry_run_manifest_hash") == "");
  }

  lemma SomeBrokenChain(rows: seq<Row>)
    ensures (exists x :: x in Map(rows, ExperimentOf) && x.chainBroken)
       <==> exists i :: 0 <= i < |rows| && HasBrokenChain(rows[i])
  {
    forall i | 0 <= i < |rows|
      ensures ExperimentOf(rows[i]).chainBroken <==> HasBrokenChain(rows[i])
    {
      DriftIs(rows[i]);
    }
    SomeRow(rows, ExperimentOf, (x: Experiment) => x.chainBroken, row => HasBrokenChain(row));
  }

  lemma SomeUncosted(rows: seq<Row>)
    ensures (exists x :: x in Map(rows, TradeOf) && !x.costed)
       <==> exists i :: 0 <= i < |rows| && LacksCosts(rows[i])
  {
    forall i | 0 <= i < |rows|
      ensures !TradeOf(rows[i]).costed <==> LacksCosts(rows[i])
    {
      TradeIs(rows[i]);
    }
    SomeRow(rows, TradeOf, (x: Trade) => !x.costed, row => LacksCosts(row));
  }

  lemma SomeWithoutSlippage(rows: seq<Row>)
    ensures (exists x :: x in Map(rows, TradeOf) && !x.hasSlippage)
       <==> exists i :: 0 <= i < |rows| && Entry(rows[i], "estimated_slippage") == ""
  {
    forall i | 0 <= i < |rows|
      ensures !TradeOf(rows[i]).hasSlippage <==> Entry(rows[i], "estimated_slippage") == ""
    {
      TradeIs(rows[i]);
    }
    SomeRow(rows, TradeOf, (x: Trade) => !x.hasSlippage, row => Entry(row, "estimated_slippage") == "");
  }

  // ----- statuses, metrics, fills and duplicates

  lemma {:induction false} LastRow(catalog: seq<Pattern>, pid: string) returns (k: nat)
    requires pid in Statuses(catalog)
    ensures k < |catalog| && catalog[k].id == pid && Statuses(catalog)[pid] == catalog[k].standing
    ensures forall j :: k < j < |catalog| ==> catalog[j].id != pid
  {
    var n := |catalog| - 1;
    k := n;
    if catalog[n].id != pid {
      k := LastRow(catalog[..n], pid);
    }
  }

  ghost predicate LastStands(rows: seq<Row>, k: int, pid: string, s: Standing) {
    IsLastOf(rows, k, pid) && PatternOf(rows[k]).standing == s
  }

  lemma StatusIs(rows: seq<Row>, pid: string, s: Standing)
    ensures Is(Statuses(Map(rows, PatternOf)), pid, s) <==> exists k :: LastStands(rows, k, pid, s)
  {
    var catalog := Map(rows, PatternOf);
    forall i | 0 <= i < |rows|
      ensures catalog[i].id == PatternId(rows[i])
    {
      StandingIs(rows[i]);
    }
    if Is(Statuses(catalog), pid, s) {
      var k := LastRow(catalog, pid);
      assert LastStands(rows, k, pid, s);
    }
    if k: nat :| LastStands(rows, k, pid, s) {
      LastRowDecides(catalog, k);
    }
  }

  lemma PromotedIs(rows: seq<Row>, pid: string)
    ensures Is(Statuses(Map(rows, PatternOf)), pid, Promotion) <==> PromotesPattern(rows, pid)
  {
    StatusIs(rows, pid, Promotion);
    if k :| LastStands(rows, k, pid, Promotion) {
      StandingIs(rows[k]);
      assert Promotes(rows, k, pid);
    }
    if k :| Promotes(rows, k, pid) {
      StandingIs(rows[k]);
      assert LastStands(rows, k, pid, Promotion);
    }
  }

  lemma AnyPromotedIs(rows: seq<Row>)
    ensures Any(Statuses(Map(rows, PatternOf)), Promotion) <==> PromotesAny(rows)
  {
    var statuses := Statuses(Map(rows, PatternOf));
    if pid :| pid in statuses.Keys && statuses[pid] == Promotion {
      PromotedIs(rows, pid);
      var k :| Promotes(rows, k, pid);
    }
    if k: nat :| k < |rows| && Promotes(rows, k, PatternId(rows[k])) {
      PromotedIs(rows, PatternId(rows[k]));
    }
  }

  lemma AnyUnknownIs(rows: seq<Row>)
    ensures Any(Statuses(Map(rows, PatternOf)), Unknown) <==> exists k :: IsStrange(rows, k)
  {
    var statuses := Statuses(Map(rows, PatternOf));
    if pid :| pid in statuses.Keys && statuses[pid] == Unknown {
      StatusIs(rows, pid, Unknown);
      var k :| LastStands(rows, k, pid, Unknown);
      StandingIs(rows[k]);
      assert IsStrange(rows, k);
    }
    if k :| IsStrange(rows, k) {
      StandingIs(rows[k]);
      assert LastStands(rows, k, PatternId(rows[k]), Unknown);
      StatusIs(rows, PatternId(rows[k]), Unknown);
    }
  }

  lemma MetricIs(row: Row, number: Reader)
    ensures var m := MetricOf(row, number);
            && m.patternId == PatternId(row) && m.trades == Count(row, "trade_count", number)
            && m.claimedSamples == Count(row, "independent_sample_count", number)
  {
    CountIs(row, "trade_count", number);
    CountIs(row, "independent_sample_count", number);
  }

  lemma ResearchIs(row: Row, number: Reader)
    ensures MetricOf(row, number).researchFilled <==> HasResearchFigure(row, number)
  {
    forall k | 0 <= k < |RESEARCH_METRICS|
      ensures NonzeroOrNonblank(row, RESEARCH_METRICS[k], number) <==> IsFigure(row, RESEARCH_METRICS[k], number)
    {
      CountIs(row, RESEARCH_METRICS[k], number);
    }
    ResearchColumns(row, number);
  }

  lemma ResearchColumns(row: Row, number: Reader)
    ensures (exists k :: 0 <= k < |RESEARCH_METRICS| && IsFigure(row, RESEARCH_METRICS[k], number))
       <==> HasResearchFigure(row, number)
  {
    var r := RESEARCH_METRICS;
    assert r[0] == "winrate" && r[1] == "avg_win" && r[2] == "avg_loss" && r[3] == "payoff_ratio";
    assert r[4] == "profit_factor" && r[5] == "expectancy" && r[6] == "max_drawdown" && r[7] == "median_trade";
  }

  lemma ShortIs(t: Tables, number: Reader, limits: Limits)
    ensures var p := Read(t, number);
            (exists m :: m in p.metrics && TooFewTrades(m, Statuses(p.catalog), limits))
            <==> exists i :: IsShort(t, i, number, limits.minTrades)
  {
    var p := Read(t, number);
    forall i | 0 <= i < |t.metrics|
      ensures TooFewTrades(p.metrics[i], Statuses(p.catalog), limits) <==> IsShort(t, i, number, limits.minTrades)
    {
      MetricIs(t.metrics[i], number);
      PromotedIs(t.catalog, PatternId(t.metrics[i]));
    }
    if m :| m in p.metrics && TooFewTrades(m, Statuses(p.catalog), limits) {
      var i :| 0 <= i < |p.metrics| && p.metrics[i] == m;
      assert IsShort(t, i, number, limits.minTrades);
    }
    if i :| IsShort(t, i, number, limits.minTrades) {
      assert p.metrics[i] in p.metrics;
    }
  }

  lemma SomeResearch(t: Tables, number: Reader)
    ensures (exists m :: m in Read(t, number).metrics && m.trades == 0 && m.researchFilled)
       <==> exists i :: 0 <= i < |t.metrics| && Count(t.metrics[i], "trade_count", number) == 0
                        && HasResearchFigure(t.metrics[i], number)
  {
    var metrics := Read(t, number).metrics;
    forall i | 0 <= i < |t.metrics|
      ensures metrics[i].trades == Count(t.metrics[i], "trade_count", number)
      ensures metrics[i].researchFilled <==> HasResearchFigure(t.metrics[i], number)
    {
      MetricIs(t.metrics[i], number);
      ResearchIs(t.metrics[i], number);
    }
    SomeReading(t.metrics, metrics, (m: Metric) => m.trades == 0 && m.researchFilled,
                row => Count(row, "trade_count", number) == 0 && HasResearchFigure(row, number));
  }

  ghost predicate IsIndependentOf(row: Row, pid: string) {
    IsIndependent(row) && PatternId(row) == pid
  }

  lemma OneMoreIndependent(rows: seq<Row>, n: nat, pid: string)
    requires n + 1 == |rows|
    ensures |IndependentRows(rows, pid)| ==
            |IndependentRows(rows[..n], pid)| + if IsIndependentOf(rows[n], pid) then 1 else 0
  {
    var before := IndependentRows(rows[..n], pid);
    assert n !in before;
    assert IndependentRows(rows, pid) == before + if IsIndependentOf(rows[n], pid) then {n} else {};
  }

  lemma OneMoreVerified(rows: seq<Row>, n: nat, pid: string)
    requires n + 1 == |rows|
    ensures VerifiedCount(Map(rows, EventOf), pid) ==
            VerifiedCount(Map(rows[..n], EventOf), pid) + if IsIndependentOf(rows[n], pid) then 1 else 0
  {
    assert Map(rows, EventOf)[..n] == Map(rows[..n], EventOf);
    VerdictIs(rows[n]);
  }

  lemma {:induction false} VerifiedIs(rows: seq<Row>, pid: string)
    ensures VerifiedCount(Map(rows, EventOf), pid) == |IndependentRows(rows, pid)|
  {
    if rows == [] {
      assert IndependentRows(rows, pid) == {};
    } else {
      var n := |rows| - 1;
      VerifiedIs(rows[..n], pid);
      OneMoreVerified(rows, n, pid);
      OneMoreIndependent(rows, n, pid);
    }
  }

  lemma TooManyIs(t: Tables, number: Reader)
    ensures var p := Read(t, number);
            (exists m :: m in p.metrics && Overclaims(m, VerifiedCount(p.events, m.patternId)))
            <==> exists i :: ClaimsTooMany(t, i, number)
  {
    var p := Read(t, number);
    forall i | 0 <= i < |t.metrics|
      ensures Overclaims(p.metrics[i], VerifiedCount(p.events, p.metrics[i].patternId)) <==> ClaimsTooMany(t, i, number)
    {
      MetricIs(t.metrics[i], number);
      VerifiedIs(t.events, PatternId(t.metrics[i]));
    }
    if m :| m in p.metrics && Overclaims(m, VerifiedCount(p.events, m.patternId)) {
      var i :| 0 <= i < |p.metrics| && p.metrics[i] == m;
      assert ClaimsTooMany(t, i, number);
    }
    if i :| ClaimsTooMany(t, i, number) {
      assert p.metrics[i] in p.metrics;
    }
  }

  lemma UnreconciledIs(t: Tables, number: Reader)
    ensures var p := Read(t, number);
            (exists x :: x in p.trades && Unfilled(x, p.fillIds)) <==> exists i :: IsUnreconciled(t, i)
  {
    var p := Read(t, number);
    forall k | 0 <= k < |t.fills|
      ensures p.fillIds[k] == Entry(t.fills[k], "trade_id")
    {
      CellIs(t.fills[k], "trade_id");
    }
    forall i | 0 <= i < |t.trades|
      ensures Unfilled(p.trades[i], p.fillIds) <==> IsUnreconciled(t, i)
    {
      TradeIs(t.trades[i]);
    }
    if x :| x in p.trades && Unfilled(x, p.fillIds) {
      var i :| 0 <= i < |p.trades| && p.trades[i] == x;
      assert IsUnreconciled(t, i);
    }
    if i :| IsUnreconciled(t, i) {
      assert p.trades[i] in p.trades;
    }
  }

  lemma RepeatedIs(t: Tables, number: Reader)
    ensures AuditDuplicates.RepeatedRows(AuditDuplicates.Labels(GroupCells(Read(t, number).events)))
         == RepeatedLabels(t.events)
  {
    var labels := AuditDuplicates.Labels(GroupCells(Read(t, number).events));
    forall i | 0 <= i < |t.events|
      ensures labels[i] == Entry(t.events[i], "duplicate_group_id")
    {
      CellIs(t.events[i], "duplicate_group_id");
    }
    forall i: nat | i < |t.events|
      ensures AuditDuplicates.Repeats(labels, i) <==> IsRepeated(t.events, i)
    {
    }
  }

  lemma CloseIs(row: Row)
    ensures PatternOf(row).entersAtClose <==> EntersAtClose(row)
  {
    MentionsIs(EntryRule(row), "close of the final bar");
    MentionsIs(EntryRule(row), "latest close as signal/entry");
  }

  lemma SomeCloseEntry(rows: seq<Row>)
    ensures (exists x :: x in Map(rows, PatternOf) && x.entersAtClose) <==>
            exists i :: 0 <= i < |rows| && EntersAtClose(rows[i])
  {
    forall i | 0 <= i < |rows|
      ensures PatternOf(rows[i]).entersAtClose <==> EntersAtClose(rows[i])
    {
      CloseIs(rows[i]);
    }
    SomeRow(rows, PatternOf, (x: Pattern) => x.entersAtClose, row => EntersAtClose(row));
  }

  // ----- columns

  lemma LookaheadColumns(events: seq<Row>)
    ensures HasAllColumns(events, LOOKAHEAD) <==> !LacksLookaheadColumn(events)
  {
    var c := LOOKAHEAD;
    assert c[0] == "available_data_cutoff_ts" && c[1] == "decision_ts" && c[2] == "entry_eligible_ts";
    assert c[3] == "label_generated_ts" && c[4] == "source_bar_hash" && c[5] == "split_id";
  }

  lemma ContractColumns(experiments: seq<Row>)
    ensures HasAllColumns(experiments, CONTRACT) <==> !LacksContractColumn(experiments)
  {
    var c := CONTRACT;
    assert c[0] == "event_ledger_hash" && c[1] == "nested_discovery_replay_status";
    assert c[2] == "nested_discovery_replay_implemented" && c[3] == "nested_discovery_replay_passed";
    assert c[4] == "edge_claim" && c[5] == "drift_status" && c[6] == "active_blockers" && c[7] == "registry_hash";
    assert c[8] == "registry_run_manifest_hash" && c[9] == "registry_hash_chain_valid";
  }

  lemma TrainOnlyColumns(experiments: seq<Row>)
    ensures HasSomeColumn(experiments, TRAIN_ONLY) <==> HasTrainOnlyColumn(experiments)
  {
    var c := TRAIN_ONLY;
    assert c[0] == "fit_scope" && c[1] == "fit_on_train_only" && c[2] == "split_protocol";
    assert c[3] == "purged_embargo_applied" && c[4] == "selection_split";
  }

  lemma TestingColumns(experiments: seq<Row>)
    ensures HasSomeColumn(experiments, MULTIPLE_TESTING) <==> HasTestingColumn(experiments)
  {
    var c := MULTIPLE_TESTING;
    assert c[0] == "multiple_testing_adjusted_p_value" && c[1] == "adjusted_p_value";
    assert c[2] == "deflated_sharpe" && c[3] == "permutation_p_value";
  }

  // ----- the report stage by stage

  /** The stage that looks for the blocker. */
  ghost function StageOf(b: Blocker): (stage: Stage)
    ensures b in Of(stage)
  {
    if Rank(b) < 5 then Inventory
    else if Rank(b) < 8 then Promoted
    else if Rank(b) < 11 then Lookahead
    else if Rank(b) < 13 then Labels
    else if Rank(b) < 18 then Sampling
    else if Rank(b) < 21 then Evidence
    else Contract
  }

  lemma {:induction false} JoinedHas(parts: seq<seq<Blocker>>, b: Blocker)
    ensures b in Joined(parts) <==> exists i :: 0 <= i < |parts| && b in parts[i]
  {
    if parts != [] {
      var n := |parts| - 1;
      JoinedHas(parts[..n], b);
      assert parts == parts[..n] + [parts[n]];
    }
  }

  /** The ranks of a stage's blockers are those between two bounds. */
  lemma StageAt(stage: Stage, i: nat)
    requires i < |Of(stage)|
    ensures StageOf(Of(stage)[i]) == stage
  {
  }

  lemma OnlyAtItsStage(b: Blocker, stage: Stage)
    ensures b in Of(stage) <==> stage == StageOf(b)
  {
    if b in Of(stage) {
      var i :| 0 <= i < |Of(stage)| && Of(stage)[i] == b;
      StageAt(stage, i);
    }
  }

  lemma StageListed(stage: Stage)
    ensures stage in STAGES
  {
    match stage {
      case _ =>
    }
  }

  lemma SectionOf(p: Package, limits: Limits, i: nat)
    requires i < |STAGES|
    ensures |Sections(STAGES, p, limits)| == |STAGES|
    ensures Sections(STAGES, p, limits)[i] == Raised(STAGES[i], p, limits)
  {
  }

  lemma RaisedAtItsStage(p: Package, limits: Limits, b: Blocker, i: nat)
    requires i < |STAGES| && b in Raised(STAGES[i], p, limits)
    ensures STAGES[i] == StageOf(b)
  {
    OnlyAtItsStage(b, STAGES[i]);
  }

  lemma RaisedIsReported(p: Package, limits: Limits, b: Blocker)
    requires b in Raised(StageOf(b), p, limits)
    ensures b in Blockers(p, limits)
  {
    var parts := Sections(STAGES, p, limits);
    StageListed(StageOf(b));
    var k :| 0 <= k < |STAGES| && STAGES[k] == StageOf(b);
    SectionOf(p, limits, k);
    JoinedHas(parts, b);
  }

  lemma ReportedIsRaised(p: Package, limits: Limits, b: Blocker)
    requires b in Blockers(p, limits)
    ensures b in Raised(StageOf(b), p, limits)
  {
    var parts := Sections(STAGES, p, limits);
    JoinedHas(parts, b);
    var i :| 0 <= i < |parts| && b in parts[i];
    SectionOf(p, limits, i);
    RaisedAtItsStage(p, limits, b, i);
  }

  /** Each blocker is reported for its own reason. */
  lemma ReportedFor(p: Package, limits: Limits, stage: Stage, i: nat)
    requires i < |Of(stage)|
    ensures Of(stage)[i] in Blockers(p, limits) <==> Reasons(stage, p, limits)[i]
  {
    var b := Of(stage)[i];
    OnlyAtItsStage(b, stage);
    if b in Blockers(p, limits) {
      ReportedIsRaised(p, limits, b);
    }
    if b in Raised(stage, p, limits) {
      RaisedIsReported(p, limits, b);
    }
    forall k | 0 <= k < |Of(stage)| && Of(stage)[k] == b
      ensures k == i
    {
      RanksIncrease(stage, k, i);
      RanksIncrease(stage, i, k);
    }
  }

  lemma RanksIncrease(stage: Stage, i: nat, j: nat)
    requires i < |Of(stage)| && j < |Of(stage)|
    ensures i < j ==> Rank(Of(stage)[i]) < Rank(Of(stage)[j])
  {
    RankAt(stage, i);
    RankAt(stage, j);
  }

  /** The places of a stage's blockers follow each other. */
  lemma RankAt(stage: Stage, i: nat)
    requires i < |Of(stage)|
    ensures Rank(Of(stage)[i]) == Rank(Of(stage)[0]) + i
  {
    if stage == Contract {
      ContractRankAt(i);
    }
  }

  lemma ContractRankAt(i: nat)
    requires i < |Of(Contract)|
    ensures Rank(Of(Contract)[i]) == 21 + i
  {
    var d, r, e := OfDiscovery(), OfRegistry(), OfExecution();
    if i < 6 {
      assert Of(Contract)[i] == d[i];
    } else if i < 11 {
      assert Of(Contract)[i] == r[i - 6];
    } else {
      assert Of(Contract)[i] == e[i - 11];
    }
  }

  lemma DiscoveryReported(p: Package, limits: Limits, i: nat)
    requires i < 6
    ensures OfDiscovery()[i] in Blockers(p, limits) <==> DiscoveryReasons(p)[i]
  {
    ReportedFor(p, limits, Contract, i);
    assert Of(Contract)[i] == OfDiscovery()[i];
  }

  lemma RegistryReported(p: Package, limits: Limits, i: nat)
    requires i < 5
    ensures OfRegistry()[i] in Blockers(p, limits) <==> RegistryReasons(p)[i]
  {
    ReportedFor(p, limits, Contract, 6 + i);
    assert Of(Contract)[6 + i] == OfRegistry()[i];
  }

  lemma ExecutionReported(p: Package, limits: Limits, i: nat)
    requires i < 3
    ensures OfExecution()[i] in Blockers(p, limits) <==> ExecutionReasons(p)[i]
  {
    ReportedFor(p, limits, Contract, 11 + i);
    assert Of(Contract)[11 + i] == OfExecution()[i];
  }

  // ----- the report in order

  lemma {:induction false} RaisedInOrder(asked: seq<Blocker>, found: seq<bool>)
    requires |asked| == |found| && InReportOrder(asked)
    ensures InReportOrder(Raise(asked, found))
  {
    if asked != [] {
      var n := |asked| - 1;
      var before := Raise(asked[..n], found[..n]);
      RaisedInOrder(asked[..n], found[..n]);
      forall i | 0 <= i < |before|
        ensures Rank(before[i]) < Rank(asked[n])
      {
        assert before[i] in before;
      }
    }
  }

  /** Where a stage's part of the report starts. */
  ghost function Start(stage: Stage): nat {
    match stage
    case Inventory => 0 case Promoted => 5 case Lookahead => 8 case Labels => 11 case Sampling => 13
    case Evidence => 18 case Contract => 21
  }

  lemma RankInStage(b: Blocker)
    ensures Start(StageOf(b)) <= Rank(b) < Start(StageOf(b)) + |Of(StageOf(b))|
  {
  }

  /** Every stage reports behind the stages before it. */
  lemma StagesInOrder(k: nat, l: nat, b: Blocker, c: Blocker)
    requires k < l < |STAGES| && STAGES[k] == StageOf(b) && STAGES[l] == StageOf(c)
    ensures Rank(b) < Rank(c)
  {
    RankInStage(b);
    RankInStage(c);
    StartsInOrder(k, l);
  }

  lemma StartsInOrder(k: nat, l: nat)
    requires k < l < |STAGES|
    ensures Start(STAGES[k]) + |Of(STAGES[k])| <= Start(STAGES[l])
  {
  }

  ghost predicate IsOfFirst(k: nat, b: Blocker)
    requires k <= |STAGES|
  {
    exists i :: 0 <= i < k && STAGES[i] == StageOf(b)
  }

  lemma StageBehind(before: seq<Blocker>, more: seq<Blocker>, k: nat)
    requires k < |STAGES| && InReportOrder(before) && InReportOrder(more)
    requires forall b :: b in before ==> IsOfFirst(k, b)
    requires forall b :: b in more ==> StageOf(b) == STAGES[k]
    ensures InReportOrder(before + more)
    ensures forall b :: b in before + more ==> IsOfFirst(k + 1, b)
  {
    forall i, j | 0 <= i < |before| && 0 <= j < |more|
      ensures Rank(before[i]) < Rank(more[j])
    {
      assert before[i] in before && more[j] in more;
      var l :| 0 <= l < k && STAGES[l] == StageOf(before[i]);
      StagesInOrder(l, k, before[i], more[j]);
    }
  }

  lemma StagePart(p: Package, limits: Limits, stage: Stage)
    ensures InReportOrder(Raised(stage, p, limits))
    ensures forall b :: b in Raised(stage, p, limits) ==> StageOf(b) == stage
  {
    StageInOrder(stage);
    RaisedInOrder(Of(stage), Reasons(stage, p, limits));
    forall b | b in Raised(stage, p, limits)
      ensures StageOf(b) == stage
    {
      OnlyAtItsStage(b, stage);
    }
  }

  lemma {:induction false} SectionsInOrder(p: Package, limits: Limits, k: nat)
    requires k <= |STAGES|
    ensures InReportOrder(Joined(Sections(STAGES, p, limits)[..k]))
    ensures forall b :: b in Joined(Sections(STAGES, p, limits)[..k]) ==> IsOfFirst(k, b)
  {
    var parts := Sections(STAGES, p, limits);
    if k > 0 {
      SectionsInOrder(p, limits, k - 1);
      JoinedOneMore(parts, k - 1);
      SectionOf(p, limits, k - 1);
      StagePart(p, limits, STAGES[k - 1]);
      StageBehind(Joined(parts[..k - 1]), parts[k - 1], k - 1);
    }
  }

  lemma StageInOrder(stage: Stage)
    ensures InReportOrder(Of(stage))
  {
    forall i, j | 0 <= i < j < |Of(stage)|
      ensures Rank(Of(stage)[i]) < Rank(Of(stage)[j])
    {
      RanksIncrease(stage, i, j);
    }
  }

  /** The report holds no blocker twice, in its fixed order. */
  lemma ReportInOrder(p: Package, limits: Limits)
    ensures InReportOrder(Blockers(p, limits))
  {
    var parts := Sections(STAGES, p, limits);
    SectionsInOrder(p, limits, |STAGES|);
    assert parts[..|STAGES|] == parts;
  }

  // ----- each blocker for its reason, and the reason by the rows

  lemma EmptyTablesIff(t: Tables, number: Reader, limits: Limits)
    ensures var blockers := Blockers(Read(t, number), limits);
            && (NoCatalog in blockers <==> t.catalog == []) && (NoEvents in blockers <==> t.events == [])
            && (NoTrades in blockers <==> t.trades == []) && (NoFills in blockers <==> t.fills == [])
  {
    var p := Read(t, number);
    ReportedFor(p, limits, Inventory, 0);
    ReportedFor(p, limits, Inventory, 1);
    ReportedFor(p, limits, Inventory, 2);
    ReportedFor(p, limits, Inventory, 3);
  }

  lemma UnknownStatusesIff(t: Tables, number: Reader, limits: Limits)
    ensures UnknownStatuses in Blockers(Read(t, number), limits) <==>
            exists k :: IsStrange(t.catalog, k)
  {
    ReportedFor(Read(t, number), limits, Inventory, 4);
    AnyUnknownIs(t.catalog);
  }

  lemma PromotedWithoutTradesIff(t: Tables, number: Reader, limits: Limits)
    ensures PromotedWithoutTrades in Blockers(Read(t, number), limits) <==>
            exists i :: IsShort(t, i, number, limits.minTrades)
  {
    ReportedFor(Read(t, number), limits, Promoted, 0);
    ShortIs(t, number, limits);
  }

  lemma PromotedWithoutFillsIff(t: Tables, number: Reader, limits: Limits)
    ensures PromotedWithoutFills in Blockers(Read(t, number), limits) <==>
            PromotesAny(t.catalog) && |t.fills| < limits.minFills
  {
    ReportedFor(Read(t, number), limits, Promoted, 1);
    AnyPromotedIs(t.catalog);
  }

  lemma ResearchMetricsInColumnsIff(t: Tables, number: Reader, limits: Limits)
    ensures ResearchMetricsInColumns in Blockers(Read(t, number), limits) <==>
            exists i :: 0 <= i < |t.metrics| && Count(t.metrics[i], "trade_count", number) == 0
                        && HasResearchFigure(t.metrics[i], number)
  {
    ReportedFor(Read(t, number), limits, Promoted, 2);
    SomeResearch(t, number);
  }

  lemma LookaheadColumnsMissingIff(t: Tables, number: Reader, limits: Limits)
    ensures LookaheadColumnsMissing in Blockers(Read(t, number), limits) <==>
            LacksLookaheadColumn(t.events)
  {
    ReportedFor(Read(t, number), limits, Lookahead, 0);
    LookaheadColumns(t.events);
  }

  lemma LookaheadBlankIff(t: Tables, number: Reader, limits: Limits)
    ensures LookaheadBlank in Blockers(Read(t, number), limits) <==>
            !LacksLookaheadColumn(t.events) && exists i :: 0 <= i < |t.events| && LacksLookahead(t.events[i])
  {
    ReportedFor(Read(t, number), limits, Lookahead, 1);
    LookaheadColumns(t.events);
    SomeBlank(t.events);
  }

  lemma CloseEntryWithoutProofIff(t: Tables, number: Reader, limits: Limits)
    ensures CloseEntryWithoutProof in Blockers(Read(t, number), limits) <==>
            && !SomeRowHas(t.events, "entry_eligible_ts")
            && exists i :: 0 <= i < |t.catalog| && EntersAtClose(t.catalog[i])
  {
    ReportedFor(Read(t, number), limits, Lookahead, 2);
    SomeCloseEntry(t.catalog);
  }

  lemma DuplicatesExceedIff(t: Tables, number: Reader, limits: Limits)
    ensures DuplicatesExceed in Blockers(Read(t, number), limits) <==>
            RepeatedShare(t.events) > limits.maxShare
  {
    ReportedFor(Read(t, number), limits, Labels, 0);
    RepeatedIs(t, number);
  }

  lemma PendingLabelsPromotedIff(t: Tables, number: Reader, limits: Limits)
    ensures PendingLabelsPromoted in Blockers(Read(t, number), limits) <==>
            PromotesAny(t.catalog) && exists i :: 0 <= i < |t.events| && IsLabelPending(t.events[i])
  {
    ReportedFor(Read(t, number), limits, Labels, 1);
    AnyPromotedIs(t.catalog);
    SomePending(t.events);
  }

  lemma NotIndependentIff(t: Tables, number: Reader, limits: Limits)
    ensures NotIndependent in Blockers(Read(t, number), limits) <==>
            exists i :: 0 <= i < |t.events| && !IsIndependent(t.events[i])
  {
    ReportedFor(Read(t, number), limits, Sampling, 0);
    SomeDependent(t.events);
  }

  lemma IndependencePendingIff(t: Tables, number: Reader, limits: Limits)
    ensures IndependencePending in Blockers(Read(t, number), limits) <==>
            exists i :: 0 <= i < |t.events| && IsUnsettled(t.events[i])
  {
    ReportedFor(Read(t, number), limits, Sampling, 1);
    SomeUnsettled(t.events);
  }

  lemma SampleCountMismatchIff(t: Tables, number: Reader, limits: Limits)
    ensures SampleCountMismatch in Blockers(Read(t, number), limits) <==>
            exists i :: ClaimsTooMany(t, i, number)
  {
    ReportedFor(Read(t, number), limits, Sampling, 2);
    TooManyIs(t, number);
  }

  lemma RegimeNotPersistedIff(t: Tables, number: Reader, limits: Limits)
    ensures RegimeNotPersisted in Blockers(Read(t, number), limits) <==>
            forall i :: 0 <= i < |t.events| ==> IsUnnamed(t.events[i], "market_regime")
  {
    ReportedFor(Read(t, number), limits, Sampling, 3);
    SomeRegime(t.events);
  }

  lemma SectorNotPersistedIff(t: Tables, number: Reader, limits: Limits)
    ensures SectorNotPersisted in Blockers(Read(t, number), limits) <==>
            forall i :: 0 <= i < |t.events| ==> IsUnnamed(t.events[i], "sector")
  {
    ReportedFor(Read(t, number), limits, Sampling, 4);
    SomeSector(t.events);
  }

  lemma NoOutOfSampleIff(t: Tables, number: Reader, limits: Limits)
    ensures NoOutOfSample in Blockers(Read(t, number), limits) <==>
            t.experiments != [] && forall i :: 0 <= i < |t.experiments| ==> !HasBounds(t.experiments[i])
  {
    ReportedFor(Read(t, number), limits, Evidence, 0);
    SomeBounds(t.experiments);
  }

  lemma NoTrainOnlyEvidenceIff(t: Tables, number: Reader, limits: Limits)
    ensures NoTrainOnlyEvidence in Blockers(Read(t, number), limits) <==>
            t.experiments != [] && !HasTrainOnlyColumn(t.experiments)
  {
    ReportedFor(Read(t, number), limits, Evidence, 1);
    TrainOnlyColumns(t.experiments);
  }

  lemma NoMultipleTestingIff(t: Tables, number: Reader, limits: Limits)
    ensures NoMultipleTesting in Blockers(Read(t, number), limits) <==>
            |t.experiments| >= 20 && !HasTestingColumn(t.experiments)
  {
    ReportedFor(Read(t, number), limits, Evidence, 2);
    TestingColumns(t.experiments);
  }

  lemma ContractColumnsMissingReported(p: Package, limits: Limits)
    ensures ContractColumnsMissing in Blockers(p, limits) <==>
            p.experiments != [] && !p.columns.contract
  {
    DiscoveryReported(p, limits, 0);
  }

  lemma ContractColumnsMissingIff(t: Tables, number: Reader, limits: Limits)
    ensures ContractColumnsMissing in Blockers(Read(t, number), limits) <==>
            t.experiments != [] && LacksContractColumn(t.experiments)
  {
    ContractColumnsMissingReported(Read(t, number), limits);
    ContractColumns(t.experiments);
  }

  lemma LedgerHashMissingReported(p: Package, limits: Limits)
    ensures LedgerHashMissing in Blockers(p, limits) <==>
            exists x :: x in p.experiments && !x.hasLedgerHash
  {
    DiscoveryReported(p, limits, 1);
  }

  lemma LedgerHashMissingIff(t: Tables, number: Reader, limits: Limits)
    ensures LedgerHashMissing in Blockers(Read(t, number), limits) <==>
            exists i :: 0 <= i < |t.experiments| && Entry(t.experiments[i], "event_ledger_hash") == ""
  {
    LedgerHashMissingReported(Read(t, number), limits);
    SomeWithoutLedger(t.experiments);
  }

  lemma ReplayMissingReported(p: Package, limits: Limits)
    ensures ReplayMissing in Blockers(p, limits) <==>
            exists x :: x in p.experiments && x.replay == Missing
  {
    DiscoveryReported(p, limits, 2);
  }

  lemma ReplayMissingIff(t: Tables, number: Reader, limits: Limits)
    ensures ReplayMissing in Blockers(Read(t, number), limits) <==>
            exists i :: 0 <= i < |t.experiments| && LacksReplay(t.experiments[i])
  {
    ReplayMissingReported(Read(t, number), limits);
    SomeWithoutReplay(t.experiments);
  }

  lemma ReplayNotPassedReported(p: Package, limits: Limits)
    ensures ReplayNotPassed in Blockers(p, limits) <==>
            exists x :: x in p.experiments && x.replay == NotPassed
  {
    DiscoveryReported(p, limits, 3);
  }

  lemma ReplayNotPassedIff(t: Tables, number: Reader, limits: Limits)
    ensures ReplayNotPassed in Blockers(Read(t, number), limits) <==>
            exists i :: 0 <= i < |t.experiments| && FailsReplay(t.experiments[i])
  {
    ReplayNotPassedReported(Read(t, number), limits);
    SomeFailedReplay(t.experiments);
  }

  lemma EdgeInflatedReported(p: Package, limits: Limits)
    ensures EdgeInflated in Blockers(p, limits) <==>
            exists x :: x in p.experiments && x.edge == Inflated
  {
    DiscoveryReported(p, limits, 4);
  }

  lemma EdgeInflatedIff(t: Tables, number: Reader, limits: Limits)
    ensures EdgeInflated in Blockers(Read(t, number), limits) <==>
            exists i :: 0 <= i < |t.experiments| && IsInflated(t.experiments[i])
  {
    EdgeInflatedReported(Read(t, number), limits);
    SomeInflated(t.experiments);
  }

  lemma EdgeMissingReported(p: Package, limits: Limits)
    ensures EdgeMissing in Blockers(p, limits) <==>
            exists x :: x in p.experiments && x.edge == NoClaim
  {
    DiscoveryReported(p, limits, 5);
  }

  lemma EdgeMissingIff(t: Tables, number: Reader, limits: Limits)
    ensures EdgeMissing in Blockers(Read(t, number), limits) <==>
            exists i :: 0 <= i < |t.experiments| && Entry(t.experiments[i], "edge_claim") == ""
  {
    EdgeMissingReported(Read(t, number), limits);
    SomeWithoutEdge(t.experiments);
  }

  lemma DriftDegradingReported(p: Package, limits: Limits)
    ensures DriftDegrading in Blockers(p, limits) <==>
            exists x :: x in p.experiments && x.degrades
  {
    RegistryReported(p, limits, 0);
  }

  lemma DriftDegradingIff(t: Tables, number: Reader, limits: Limits)
    ensures DriftDegrading in Blockers(Read(t, number), limits) <==>
            exists i :: 0 <= i < |t.experiments| && IsDegrading(t.experiments[i])
  {
    DriftDegradingReported(Read(t, number), limits);
    SomeDegrading(t.experiments);
  }

  lemma BlockersActiveReported(p: Package, limits: Limits)
    ensures BlockersActive in Blockers(p, limits) <==>
            exists x :: x in p.experiments && x.reportsBlockers
  {
    RegistryReported(p, limits, 1);
  }

  lemma BlockersActiveIff(t: Tables, number: Reader, limits: Limits)
    ensures BlockersActive in Blockers(Read(t, number), limits) <==>
            exists i :: 0 <= i < |t.experiments| && IsActive(Entry(t.experiments[i], "active_blockers"))
  {
    BlockersActiveReported(Read(t, number), limits);
    SomeActive(t.experiments);
  }

  lemma RegistryHashMissingReported(p: Package, limits: Limits)
    ensures RegistryHashMissing in Blockers(p, limits) <==>
            exists x :: x in p.experiments && !x.hasRegistryHash
  {
    RegistryReported(p, limits, 2);
  }

  lemma RegistryHashMissingIff(t: Tables, number: Reader, limits: Limits)
    ensures RegistryHashMissing in Blockers(Read(t, number), limits) <==>
            exists i :: 0 <= i < |t.experiments| && Entry(t.experiments[i], "registry_hash") == ""
  {
    RegistryHashMissingReported(Read(t, number), limits);
    SomeUnregistered(t.experiments);
  }

  lemma RunManifestMissingReported(p: Package, limits: Limits)
    ensures RunManifestMissing in Blockers(p, limits) <==>
            exists x :: x in p.experiments && !x.hasRunManifest
  {
    RegistryReported(p, limits, 3);
  }

  lemma RunManifestMissingIff(t: Tables, number: Reader, limits: Limits)
    ensures RunManifestMissing in Blockers(Read(t, number), limits) <==>
            exists i :: 0 <= i < |t.experiments| && Entry(t.experiments[i], "registry_run_manifest_hash") == ""
  {
    RunManifestMissingReported(Read(t, number), limits);
    SomeWithoutManifest(t.experiments);
  }

  lemma ChainInvalidReported(p: Package, limits: Limits)
    ensures ChainInvalid in Blockers(p, limits) <==>
            exists x :: x in p.experiments && x.chainBroken
  {
    RegistryReported(p, limits, 4);
  }

  lemma ChainInvalidIff(t: Tables, number: Reader, limits: Limits)
    ensures ChainInvalid in Blockers(Read(t, number), limits) <==>
            exists i :: 0 <= i < |t.experiments| && HasBrokenChain(t.experiments[i])
  {
    ChainInvalidReported(Read(t, number), limits);
    SomeBrokenChain(t.experiments);
  }

  lemma TradesWithoutFillsReported(p: Package, limits: Limits)
    ensures TradesWithoutFills in Blockers(p, limits) <==>
            exists x :: x in p.trades && Unfilled(x, p.fillIds)
  {
    ExecutionReported(p, limits, 0);
  }

  lemma TradesWithoutFillsIff(t: Tables, number: Reader, limits: Limits)
    ensures TradesWithoutFills in Blockers(Read(t, number), limits) <==>
            exists i :: IsUnreconciled(t, i)
  {
    TradesWithoutFillsReported(Read(t, number), limits);
    UnreconciledIs(t, number);
  }

  lemma CostMissingReported(p: Package, limits: Limits)
    ensures CostMissing in Blockers(p, limits) <==>
            exists x :: x in p.trades && !x.costed
  {
    ExecutionReported(p, limits, 1);
  }

  lemma CostMissingIff(t: Tables, number: Reader, limits: Limits)
    ensures CostMissing in Blockers(Read(t, number), limits) <==>
            exists i :: 0 <= i < |t.trades| && LacksCosts(t.trades[i])
  {
    CostMissingReported(Read(t, number), limits);
    SomeUncosted(t.trades);
  }

  lemma SlippageMissingReported(p: Package, limits: Limits)
    ensures SlippageMissing in Blockers(p, limits) <==>
            exists x :: x in p.trades && !x.hasSlippage
  {
    ExecutionReported(p, limits, 2);
  }

  lemma SlippageMissingIff(t: Tables, number: Reader, limits: Limits)
    ensures SlippageMissing in Blockers(Read(t, number), limits) <==>
            exists i :: 0 <= i < |t.trades| && Entry(t.trades[i], "estimated_slippage") == ""
  {
    SlippageMissingReported(Read(t, number), limits);
    SomeWithoutSlippage(t.trades);
  }
}
