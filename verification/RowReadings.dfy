/**
  The package rows read column by column: what a cell says, what a row is, and that the facts the
  gate takes from a row are these.
  */
module RowReadings {
  import opened Wrappers
  import opened PyText
  import opened GateRows

  // ----- reading a cell

  /** The stripped cell, "" without one. */
  ghost function Entry(row: Row, column: string): string {
    if column in row then Strip(row[column]) else ""
  }

  /** The entry in lower case. */
  ghost function Said(row: Row, column: string): string {
    LowerCase(Entry(row, column))
  }

  ghost predicate SaysYes(row: Row, column: string) {
    Said(row, column) == "true" || Said(row, column) == "1" || Said(row, column) == "yes" || Said(row, column) == "y"
  }

  ghost predicate IsFilled(row: Row, column: string) {
    column in row && row[column] != ""
  }

  /** Zero for a blank or unreadable cell, fractions cut off. */
  ghost function Count(row: Row, column: string, number: Reader): int {
    if Entry(row, column) == "" || number(Entry(row, column)).None? then 0
    else
      var x := number(Entry(row, column)).value;
      if x >= 0.0 || x.Floor as real == x then x.Floor else x.Floor + 1
  }

  ghost predicate IsFigure(row: Row, column: string, number: Reader) {
    && Entry(row, column) != ""
    && (number(Entry(row, column)).Some? ==> number(Entry(row, column)).value != 0.0)
  }

  ghost predicate SomeRowHas(rows: seq<Row>, column: string) {
    exists i :: 0 <= i < |rows| && column in rows[i]
  }

  // ----- what the rows say

  /** The last catalog row of the pattern. */
  ghost predicate IsLastOf(catalog: seq<Row>, k: int, pid: string) {
    && 0 <= k < |catalog| && PatternId(catalog[k]) == pid
    && forall j :: k < j < |catalog| ==> PatternId(catalog[j]) != pid
  }

  ghost function PatternId(row: Row): string {
    if "pattern_id" in row then row["pattern_id"] else ""
  }

  ghost predicate IsPromotion(status: string) {
    status in ["paper_candidate", "premium_candidate", "paper_limited_candidate", "paper_extended_candidate",
               "ready_for_paper_extended", "approved", "live_candidate", "production_candidate", "production"]
  }

  ghost predicate IsResearch(status: string) {
    status in ["lab", "lab_watchlist", "lab_candidate", "director_review", "needs_confirmation", "confirmed_candidate",
               "failed_confirmation", "rejected", "discard", "freeze", "refine"]
  }

  ghost predicate Promotes(catalog: seq<Row>, k: int, pid: string) {
    IsLastOf(catalog, k, pid) && IsPromotion(Said(catalog[k], "status"))
  }

  ghost predicate PromotesPattern(catalog: seq<Row>, pid: string) {
    exists k :: Promotes(catalog, k, pid)
  }

  ghost predicate PromotesAny(catalog: seq<Row>) {
    exists k: nat :: k < |catalog| && Promotes(catalog, k, PatternId(catalog[k]))
  }

  ghost predicate IsStrange(catalog: seq<Row>, k: int) {
    && 0 <= k < |catalog| && IsLastOf(catalog, k, PatternId(catalog[k]))
    && Said(catalog[k], "status") != "" && !IsPromotion(Said(catalog[k], "status"))
    && !IsResearch(Said(catalog[k], "status"))
  }

  ghost predicate IsShort(t: Tables, i: int, number: Reader, minTrades: int) {
    && 0 <= i < |t.metrics| && PromotesPattern(t.catalog, PatternId(t.metrics[i]))
    && Count(t.metrics[i], "trade_count", number) < minTrades
  }

  ghost predicate HasResearchFigure(row: Row, number: Reader) {
    || IsFigure(row, "winrate", number) || IsFigure(row, "avg_win", number) || IsFigure(row, "avg_loss", number)
    || IsFigure(row, "payoff_ratio", number) || IsFigure(row, "profit_factor", number)
    || IsFigure(row, "expectancy", number) || IsFigure(row, "max_drawdown", number)
    || IsFigure(row, "median_trade", number)
  }

  ghost predicate LacksLookaheadColumn(events: seq<Row>) {
    || !SomeRowHas(events, "available_data_cutoff_ts") || !SomeRowHas(events, "decision_ts")
    || !SomeRowHas(events, "entry_eligible_ts") || !SomeRowHas(events, "label_generated_ts")
    || !SomeRowHas(events, "source_bar_hash") || !SomeRowHas(events, "split_id")
  }

  ghost predicate LacksLookahead(row: Row) {
    || Entry(row, "available_data_cutoff_ts") == "" || Entry(row, "decision_ts") == ""
    || Entry(row, "entry_eligible_ts") == "" || Entry(row, "label_generated_ts") == ""
    || Entry(row, "source_bar_hash") == "" || Entry(row, "split_id") == ""
  }

  ghost predicate Mentions(text: string, part: string) {
    exists a, b :: text == a + part + b
  }

  ghost function EntryRule(row: Row): string {
    LowerCase(if "entry_rule_plaintext" in row then row["entry_rule_plaintext"] else "")
  }

  ghost predicate EntersAtClose(row: Row) {
    Mentions(EntryRule(row), "close of the final bar") || Mentions(EntryRule(row), "latest close as signal/entry")
  }

  /** Rows whose group label stands on another row as well. */
  ghost function RepeatedLabels(events: seq<Row>): set<nat> {
    set i: nat | i < |events| && IsRepeated(events, i)
  }

  ghost predicate IsRepeated(events: seq<Row>, i: nat)
    requires i < |events|
  {
    && Entry(events[i], "duplicate_group_id") != ""
    && exists j :: 0 <= j < |events| && j != i
                   && Entry(events[j], "duplicate_group_id") == Entry(events[i], "duplicate_group_id")
  }

  ghost predicate IsLabelPending(row: Row) {
    || Said(row, "label_generated_ts") == "pending_forward_label"
    || Said(row, "label_generated_ts") == "not_recorded_legacy_label"
  }

  ghost predicate IsIndependent(row: Row) {
    Said(row, "is_independent_sample") == "true"
  }

  ghost predicate IsUnsettled(row: Row) {
    && !IsIndependent(row) && Said(row, "is_independent_sample") != "false"
    && Said(row, "is_independent_sample") != "0" && Said(row, "is_independent_sample") != "no"
  }

  ghost function IndependentRows(events: seq<Row>, pid: string): set<nat> {
    set i: nat | i < |events| && IsIndependent(events[i]) && PatternId(events[i]) == pid
  }

  ghost predicate ClaimsTooMany(t: Tables, i: int, number: Reader) {
    && 0 <= i < |t.metrics|
    && var seen := |IndependentRows(t.events, PatternId(t.metrics[i]))|;
       Count(t.metrics[i], "independent_sample_count", number) > seen > 0
  }

  ghost predicate IsUnnamed(row: Row, column: string) {
    || !IsFilled(row, column) || Said(row, column) == "not_persisted" || Said(row, column) == "unknown"
    || Said(row, column) == "none"
  }

  ghost predicate HasBounds(row: Row) {
    Entry(row, "out_of_sample_start") != "" && Entry(row, "out_of_sample_end") != ""
  }

  ghost predicate IsInflated(row: Row) {
    Entry(row, "edge_claim") != "" && Entry(row, "edge_claim") != "NO_DEMOSTRADO"
  }

  ghost predicate IsDegrading(row: Row) {
    || Said(row, "drift_status") == "degrading" || Said(row, "drift_status") == "regressing"
    || Said(row, "drift_status") == "deteriorating"
  }

  ghost predicate HasBrokenChain(row: Row) {
    IsFilled(row, "registry_hash_chain_valid") && !SaysYes(row, "registry_hash_chain_valid")
  }

  ghost predicate LacksCosts(row: Row) {
    Entry(row, "commission") == "" || Entry(row, "estimated_spread_cost") == ""
  }

  ghost predicate LacksReplay(row: Row) {
    && Entry(row, "nested_discovery_replay_status") == "" && Entry(row, "nested_discovery_replay_implemented") == ""
    && Entry(row, "nested_discovery_replay_passed") == ""
  }

  ghost predicate IsExempt(row: Row) {
    Said(row, "nested_discovery_replay_status") in [
      "not_finalist", "not_applicable", "not_applicable_non_finalist", "not_required", "not_required_for_research_only"]
  }

  ghost predicate HasPassedReplay(row: Row) {
    && SaysYes(row, "nested_discovery_replay_implemented")
    && (SaysYes(row, "nested_discovery_replay_passed") || Said(row, "nested_discovery_replay_status") == "passed")
  }

  ghost predicate FailsReplay(row: Row) {
    !LacksReplay(row) && !IsExempt(row) && !HasPassedReplay(row)
  }

  ghost predicate IsActive(text: string) {
    text != "" && text != "[]" && text != "{}" && text != "null" && text != "None" && text != "none"
  }

  ghost predicate LacksContractColumn(experiments: seq<Row>) {
    || !SomeRowHas(experiments, "event_ledger_hash") || !SomeRowHas(experiments, "nested_discovery_replay_status")
    || !SomeRowHas(experiments, "nested_discovery_replay_implemented")
    || !SomeRowHas(experiments, "nested_discovery_replay_passed") || !SomeRowHas(experiments, "edge_claim")
    || !SomeRowHas(experiments, "drift_status") || !SomeRowHas(experiments, "active_blockers")
    || !SomeRowHas(experiments, "registry_hash") || !SomeRowHas(experiments, "registry_run_manifest_hash")
    || !SomeRowHas(experiments, "registry_hash_chain_valid")
  }

  ghost predicate HasTrainOnlyColumn(experiments: seq<Row>) {
    || SomeRowHas(experiments, "fit_scope") || SomeRowHas(experiments, "fit_on_train_only")
    || SomeRowHas(experiments, "split_protocol") || SomeRowHas(experiments, "purged_embargo_applied")
    || SomeRowHas(experiments, "selection_split")
  }

  ghost predicate HasTestingColumn(experiments: seq<Row>) {
    || SomeRowHas(experiments, "multiple_testing_adjusted_p_value") || SomeRowHas(experiments, "adjusted_p_value")
    || SomeRowHas(experiments, "deflated_sharpe") || SomeRowHas(experiments, "permutation_p_value")
  }

  ghost predicate IsUnreconciled(t: Tables, i: int) {
    && 0 <= i < |t.trades| && Entry(t.trades[i], "trade_id") != ""
    && forall k :: 0 <= k < |t.fills| ==> Entry(t.fills[k], "trade_id") != Entry(t.trades[i], "trade_id")
  }

  /** The share of the event rows that repeat a label. */
  ghost function RepeatedShare(events: seq<Row>): real {
    if events == [] then 0.0 else |RepeatedLabels(events)| as real / |events| as real
  }

  // ----- the gate's readings are these

  lemma EntryIs(row: Row, column: string)
    ensures Cell(row, column) == Entry(row, column)
  {
  }

  lemma CellIs(row: Row, column: string)
    ensures Cell(row, column) == Entry(row, column) && Word(row, column) == Said(row, column)
    ensures Truthy(row, column) <==> SaysYes(row, column)
    ensures Get(row, column) != "" <==> IsFilled(row, column)
  {
  }

  lemma CountIs(row: Row, column: string, number: Reader)
    ensures AsInt(row, column, number) == Count(row, column, number)
    ensures NonzeroOrNonblank(row, column, number) <==> IsFigure(row, column, number)
  {
    CellIs(row, column);
  }

  lemma SixHold(columns: seq<string>, p: string -> bool)
    requires |columns| == 6
    ensures (forall k :: 0 <= k < |columns| ==> p(columns[k])) <==>
            && p(columns[0]) && p(columns[1]) && p(columns[2]) && p(columns[3]) && p(columns[4]) && p(columns[5])
  {
  }

  lemma CompleteIs(row: Row, columns: seq<string>)
    ensures Complete(row, columns) <==> forall k :: 0 <= k < |columns| ==> HasEntry(row)(columns[k])
  {
    forall k | 0 <= k < |columns|
      ensures HasEntry(row)(columns[k]) <==> Cell(row, columns[k]) != ""
    {
      EntryIs(row, columns[k]);
    }
  }

  ghost function HasEntry(row: Row): string -> bool {
    column => Entry(row, column) != ""
  }

  lemma LookaheadCells(row: Row)
    ensures Complete(row, LOOKAHEAD) <==> !LacksLookahead(row)
  {
    CompleteIs(row, LOOKAHEAD);
    SixHold(LOOKAHEAD, HasEntry(row));
  }

  lemma LabelIs(row: Row)
    ensures EventOf(row).complete <==> !LacksLookahead(row)
    ensures EventOf(row).labelPending <==> IsLabelPending(row)
  {
    LookaheadCells(row);
    CellIs(row, "label_generated_ts");
  }

  lemma VerdictIs(row: Row)
    ensures EventOf(row).verdict == Verified <==> IsIndependent(row)
    ensures EventOf(row).verdict == Unsettled <==> IsUnsettled(row)
  {
    CellIs(row, "is_independent_sample");
  }

  lemma NameIs(row: Row, column: string)
    ensures NamesSomething(row, column) <==> !IsUnnamed(row, column)
  {
    CellIs(row, column);
  }

  lemma ExperimentIs(row: Row)
    ensures var x := ExperimentOf(row);
            && (x.hasLedgerHash <==> Entry(row, "event_ledger_hash") != "")
            && (x.hasRegistryHash <==> Entry(row, "registry_hash") != "")
            && (x.hasRunManifest <==> Entry(row, "registry_run_manifest_hash") != "")
            && (x.hasOosBounds <==> HasBounds(row))
            && (x.reportsBlockers <==> IsActive(Entry(row, "active_blockers")))
  {
    CellIs(row, "event_ledger_hash");
    CellIs(row, "registry_hash");
    CellIs(row, "registry_run_manifest_hash");
    CellIs(row, "out_of_sample_start");
    CellIs(row, "out_of_sample_end");
    CellIs(row, "active_blockers");
  }

  lemma EdgeIs(row: Row)
    ensures EdgeOf(Cell(row, "edge_claim")) == NoClaim <==> Entry(row, "edge_claim") == ""
    ensures EdgeOf(Cell(row, "edge_claim")) == Inflated <==> IsInflated(row)
  {
    CellIs(row, "edge_claim");
  }

  lemma ExemptIs(row: Row)
    ensures Word(row, "nested_discovery_replay_status") in NONBLOCKING <==> IsExempt(row)
  {
    CellIs(row, "nested_discovery_replay_status");
  }

  lemma PassedIs(row: Row)
    ensures Truthy(row, "nested_discovery_replay_implemented")
            && (Truthy(row, "nested_discovery_replay_passed")
                || Word(row, "nested_discovery_replay_status") == "passed")
       <==> HasPassedReplay(row)
  {
    CellIs(row, "nested_discovery_replay_status");
    CellIs(row, "nested_discovery_replay_implemented");
    CellIs(row, "nested_discovery_replay_passed");
  }

  lemma LacksReplayIs(row: Row)
    ensures Cell(row, "nested_discovery_replay_status") == "" && Cell(row, "nested_discovery_replay_implemented") == ""
            && Cell(row, "nested_discovery_replay_passed") == ""
       <==> LacksReplay(row)
  {
    CellIs(row, "nested_discovery_replay_status");
    CellIs(row, "nested_discovery_replay_implemented");
    CellIs(row, "nested_discovery_replay_passed");
  }

  lemma ReplayIs(row: Row)
    ensures ReplayOf(row) == Missing <==> LacksReplay(row)
    ensures ReplayOf(row) == NotPassed <==> FailsReplay(row)
  {
    ExemptIs(row);
    PassedIs(row);
    LacksReplayIs(row);
  }

  lemma DriftIs(row: Row)
    ensures ExperimentOf(row).degrades <==> IsDegrading(row)
    ensures ExperimentOf(row).chainBroken <==> HasBrokenChain(row)
  {
    CellIs(row, "drift_status");
    CellIs(row, "registry_hash_chain_valid");
  }

  lemma TradeIs(row: Row)
    ensures var x := TradeOf(row);
            && x.id == Entry(row, "trade_id") && (x.hasSlippage <==> Entry(row, "estimated_slippage") != "")
            && (x.costed <==> !LacksCosts(row))
  {
    CellIs(row, "trade_id");
    CellIs(row, "commission");
    CellIs(row, "estimated_spread_cost");
    CellIs(row, "estimated_slippage");
  }

  lemma StandingIs(row: Row)
    ensures PatternOf(row).id == PatternId(row)
    ensures PatternOf(row).standing == Promotion <==> IsPromotion(Said(row, "status"))
    ensures PatternOf(row).standing == Unknown <==>
            Said(row, "status") != "" && !IsPromotion(Said(row, "status")) && !IsResearch(Said(row, "status"))
  {
    CellIs(row, "status");
  }

  lemma MentionsIs(text: string, part: string)
    ensures Contains(text, part) <==> Mentions(text, part)
  {
    if i :| 0 <= i <= |text| && part <= text[i..] {
      assert text == text[..i] + part + text[i..][|part|..];
    }
    if a, b :| text == a + part + b {
      assert text[|a|..] == part + b;
    }
  }
}
