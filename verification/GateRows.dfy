/**
  The package tables as the director gate reads them. Each CSV row is read once into the facts
  the gate asks of it; what a cell must say for a fact to hold is fixed here.
  */
module GateRows {
  import opened Wrappers
  import opened PyText

  /** One CSV row by column name. A column the table lacks is not in the map; a cell a short row lacks reads as "". */
  type Row = map<string, string>

  datatype Tables = Tables(
    catalog: seq<Row>,
    events: seq<Row>,
    trades: seq<Row>,
    fills: seq<Row>,
    experiments: seq<Row>,
    metrics: seq<Row>,
    byRegime: seq<Row>,
    byVariant: seq<Row>)

  /** How float() reads a stripped text: None where it raises. Finite numbers only. */
  type Reader = string -> Option<real>

  // ----- cells

  function Get(row: Row, column: string): string {
    if column in row then row[column] else ""
  }

  function Cell(row: Row, column: string): string {
    Strip(Get(row, column))
  }

  function Word(row: Row, column: string): string {
    LowerCase(Cell(row, column))
  }

  predicate Truthy(row: Row, column: string) {
    Word(row, column) in {"true", "1", "yes", "y"}
  }

  function AsFloat(row: Row, column: string, number: Reader): real {
    var text := Cell(row, column);
    if text == "" then 0.0 else number(text).GetOr(0.0)
  }

  /** int(float(text)) truncates toward zero. */
  function AsInt(row: Row, column: string, number: Reader): int {
    var x := AsFloat(row, column, number);
    if x < 0.0 then -((-x).Floor) else x.Floor
  }

  predicate NonzeroOrNonblank(row: Row, column: string, number: Reader) {
    var text := Cell(row, column);
    text != "" && number(text).GetOr(1.0) != 0.0
  }

  predicate HasColumn(rows: seq<Row>, column: string) {
    exists i :: 0 <= i < |rows| && column in rows[i]
  }

  predicate HasAllColumns(rows: seq<Row>, columns: seq<string>) {
    forall k :: 0 <= k < |columns| ==> HasColumn(rows, columns[k])
  }

  predicate HasSomeColumn(rows: seq<Row>, columns: seq<string>) {
    exists k :: 0 <= k < |columns| && HasColumn(rows, columns[k])
  }

  /** Every one of the columns is filled in. */
  predicate Complete(row: Row, columns: seq<string>) {
    forall k :: 0 <= k < |columns| ==> Cell(row, columns[k]) != ""
  }

  const LOOKAHEAD: seq<string> := [
    "available_data_cutoff_ts", "decision_ts", "entry_eligible_ts", "label_generated_ts", "source_bar_hash", "split_id"]

  const CONTRACT: seq<string> := [
    "event_ledger_hash", "nested_discovery_replay_status", "nested_discovery_replay_implemented",
    "nested_discovery_replay_passed", "edge_claim", "drift_status", "active_blockers", "registry_hash",
    "registry_run_manifest_hash", "registry_hash_chain_valid"]

  const TRAIN_ONLY: seq<string> := [
    "fit_scope", "fit_on_train_only", "split_protocol", "purged_embargo_applied", "selection_split"]

  const RESEARCH_METRICS: seq<string> := [
    "winrate", "avg_win", "avg_loss", "payoff_ratio", "profit_factor", "expectancy", "max_drawdown", "median_trade"]

  const MULTIPLE_TESTING: seq<string> := [
    "multiple_testing_adjusted_p_value", "adjusted_p_value", "deflated_sharpe", "permutation_p_value"]

  // ----- catalog

  datatype Standing = NoStatus | Promotion | ResearchOnly | Unknown

  const PROMOTION: set<string> := {
    "paper_candidate", "premium_candidate", "paper_limited_candidate", "paper_extended_candidate",
    "ready_for_paper_extended", "approved", "live_candidate", "production_candidate", "production" }

  const RESEARCH_ONLY: set<string> := {
    "lab", "lab_watchlist", "lab_candidate", "director_review", "needs_confirmation", "confirmed_candidate",
    "failed_confirmation", "rejected", "discard", "freeze", "refine" }

  function StandingOf(status: string): Standing {
    if status == "" then NoStatus
    else if status in PROMOTION then Promotion
    else if status in RESEARCH_ONLY then ResearchOnly
    else Unknown
  }

  datatype Pattern = Pattern(id: string, standing: Standing, entersAtClose: bool)

  predicate Contains(text: string, part: string) {
    exists i :: 0 <= i <= |text| && part <= text[i..]
  }

  function PatternOf(row: Row): Pattern {
    var rule := LowerCase(Get(row, "entry_rule_plaintext"));
    Pattern(Get(row, "pattern_id"), StandingOf(Word(row, "status")),
            Contains(rule, "close of the final bar") || Contains(rule, "latest close as signal/entry"))
  }

  // ----- events

  /** What a row says about its independence. */
  datatype Verdict = Verified | Denied | Unsettled

  datatype Event = Event(
    patternId: string,
    verdict: Verdict,
    complete: bool,
    labelPending: bool,
    namesRegime: bool,
    namesSector: bool,
    groupCell: string)

  function VerdictOf(word: string): Verdict {
    if word == "true" then Verified else if word in {"false", "0", "no"} then Denied else Unsettled
  }

  predicate NamesSomething(row: Row, column: string) {
    Get(row, column) != "" && Word(row, column) !in {"not_persisted", "unknown", "none"}
  }

  function EventOf(row: Row): Event {
    Event(Get(row, "pattern_id"), VerdictOf(Word(row, "is_independent_sample")), Complete(row, LOOKAHEAD),
          Word(row, "label_generated_ts") in {"pending_forward_label", "not_recorded_legacy_label"},
          NamesSomething(row, "market_regime"), NamesSomething(row, "sector"), Get(row, "duplicate_group_id"))
  }

  // ----- metrics

  datatype Metric = Metric(patternId: string, trades: int, claimedSamples: int, researchFilled: bool)

  function MetricOf(row: Row, number: Reader): Metric {
    Metric(Get(row, "pattern_id"), AsInt(row, "trade_count", number), AsInt(row, "independent_sample_count", number),
           exists k :: 0 <= k < |RESEARCH_METRICS| && NonzeroOrNonblank(row, RESEARCH_METRICS[k], number))
  }

  // ----- experiments

  /** How the replay loop classifies an experiment. */
  datatype Replay = Missing | Exempt | Passed | NotPassed

  datatype EdgeClaim = NoClaim | Undemonstrated | Inflated

  datatype Experiment = Experiment(
    replay: Replay,
    edge: EdgeClaim,
    hasLedgerHash: bool,
    hasRegistryHash: bool,
    hasRunManifest: bool,
    chainBroken: bool,
    degrades: bool,
    reportsBlockers: bool,
    hasOosBounds: bool)

  const NONBLOCKING: set<string> := {
    "not_finalist", "not_applicable", "not_applicable_non_finalist", "not_required", "not_required_for_research_only" }

  function ReplayOf(row: Row): Replay {
    var status := Word(row, "nested_discovery_replay_status");
    var passed := Truthy(row, "nested_discovery_replay_passed") || status == "passed";
    if Cell(row, "nested_discovery_replay_status") == ""
       && Cell(row, "nested_discovery_replay_implemented") == ""
       && Cell(row, "nested_discovery_replay_passed") == "" then Missing
    else if status in NONBLOCKING then Exempt
    else if !Truthy(row, "nested_discovery_replay_implemented") || !passed then NotPassed
    else Passed
  }

  function EdgeOf(claim: string): EdgeClaim {
    if claim == "" then NoClaim else if claim == "NO_DEMOSTRADO" then Undemonstrated else Inflated
  }

  function ExperimentOf(row: Row): Experiment {
    Experiment(ReplayOf(row), EdgeOf(Cell(row, "edge_claim")),
               Cell(row, "event_ledger_hash") != "", Cell(row, "registry_hash") != "",
               Cell(row, "registry_run_manifest_hash") != "",
               Get(row, "registry_hash_chain_valid") != "" && !Truthy(row, "registry_hash_chain_valid"),
               Word(row, "drift_status") in {"degrading", "regressing", "deteriorating"},
               Cell(row, "active_blockers") !in {"", "[]", "{}", "null", "None", "none"},
               Cell(row, "out_of_sample_start") != "" && Cell(row, "out_of_sample_end") != "")
  }

  // ----- trades

  datatype Trade = Trade(id: string, costed: bool, hasSlippage: bool)

  function TradeOf(row: Row): Trade {
    Trade(Cell(row, "trade_id"), Cell(row, "commission") != "" && Cell(row, "estimated_spread_cost") != "",
          Cell(row, "estimated_slippage") != "")
  }

  // ----- the package

  datatype Package = Package(
    catalog: seq<Pattern>,
    events: seq<Event>,
    trades: seq<Trade>,
    fillIds: seq<string>,
    experiments: seq<Experiment>,
    metrics: seq<Metric>,
    columns: Columns)

  /** Which of the required columns the tables have. */
  datatype Columns = Columns(
    lookahead: bool,
    entryEligible: bool,
    contract: bool,
    trainOnly: bool,
    multipleTesting: bool)

  function Map<T, U>(rows: seq<T>, f: T -> U): (r: seq<U>)
    ensures |r| == |rows|
    ensures forall i :: 0 <= i < |rows| ==> r[i] == f(rows[i])
  {
    seq(|rows|, i requires 0 <= i < |rows| => f(rows[i]))
  }

  function ColumnsOf(t: Tables): Columns {
    Columns(HasAllColumns(t.events, LOOKAHEAD), HasColumn(t.events, "entry_eligible_ts"),
            HasAllColumns(t.experiments, CONTRACT), HasSomeColumn(t.experiments, TRAIN_ONLY),
            HasSomeColumn(t.experiments, MULTIPLE_TESTING))
  }

  function Read(t: Tables, number: Reader): Package {
    Package(Map(t.catalog, PatternOf), Map(t.events, EventOf), Map(t.trades, TradeOf),
            Map(t.fills, row => Cell(row, "trade_id")), Map(t.experiments, ExperimentOf),
            Map(t.metrics, row => MetricOf(row, number)), ColumnsOf(t))
  }
}
