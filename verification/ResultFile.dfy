/**
  The gate's result file as a JSON object: what the gate writes, what the validator demands of
  it, and what the validator's report says about promotion.
  */
module ResultFile {
  import opened PyText
  import opened GateRows
  import DirectorGate
  import opened GateResult

  datatype Json =
    | Null
    | Bool(b: bool)
    | Number(n: real)
    | Text(s: string)
    | List(items: seq<Json>)
    | Object(fields: map<string, Json>)

  type Fields = map<string, Json>

  /** get(key): an absent key reads as null. */
  function At(o: Fields, key: string): Json {
    if key in o then o[key] else Null
  }

  predicate IsTruthy(j: Json) {
    match j
    case Null => false
    case Bool(b) => b
    case Number(n) => n != 0.0
    case Text(s) => s != ""
    case List(items) => items != []
    case Object(fields) => fields != map[]
  }

  /** str(): of a number, list or object only that its text is neither blank nor a status matters. */
  function PyStr(j: Json): string {
    match j
    case Text(s) => s
    case Null => "None"
    case Bool(b) => if b then "True" else "False"
    case _ => "?"
  }

  function SetDefault(o: Fields, key: string, value: Json): Fields {
    if key in o then o else o[key := value]
  }

  // ----- what the gate writes

  function BucketJson(b: Bucket): Json {
    Object(map["pattern_id" := Text(b.patternId), "bucket" := Text(b.name), "trade_count" := Number(b.trades as real),
               "net_pnl" := Number(b.net), "expectancy_r" := Number(b.expectancy), "winrate" := Number(b.winrate),
               "profit_factor" := Number(b.profitFactor), "max_drawdown" := Number(b.drawdown)])
  }

  function BreakdownJson(d: Breakdown): Json {
    match d
    case Missing(reason) =>
      Object(map["available" := Bool(false), "buckets" := List([]), "empty_reason" := Text(reason)])
    case Found(count, best, worst, buckets) =>
      Object(map["available" := Bool(true), "buckets" := List(Map(buckets, BucketJson)), "empty_reason" := Text(""),
                 "bucket_count" := Number(count as real), "best" := BucketJson(best), "worst" := BucketJson(worst)])
  }

  function VerdictEntries(blockers: nat): Fields {
    var verdict := Text(if blockers != 0 then "blocked" else "passed");
    map["director_gate" := verdict, "director_gate_status" := verdict,
        "schema_valid" := Bool(true), "package_valid" := Bool(true),
        "promotion_allowed" := Bool(blockers == 0), "active_blocker_count" := Number(blockers as real)]
  }

  /** The summary of an evaluated package; `figures` are its other entries. */
  function Summary(figures: Fields, byRegime: Breakdown, byVariant: Breakdown, blockers: nat): Fields {
    figures + VerdictEntries(blockers)
    + map["by_regime" := BreakdownJson(byRegime), "by_entry_variant" := BreakdownJson(byVariant)]
  }

  predicate PromotionOf(status: string, blockers: seq<Json>) {
    status != "invalid" && status == "passed" && blockers == []
  }

  function CompleteSummary(status: string, blockers: seq<Json>, summary: Fields): Fields {
    var valid := Bool(status != "invalid");
    var s1 := SetDefault(summary, "schema_valid", valid);
    var s2 := SetDefault(s1, "package_valid", valid);
    var s3 := SetDefault(s2, "director_gate_status", Text(status));
    SetDefault(s3, "promotion_allowed", Bool(PromotionOf(status, blockers)))
  }

  function BasePayload(
      createdAt: string, package: string, status: string, blockers: seq<Json>, complete: Fields): Fields
  {
    var valid := Bool(status != "invalid");
    map["created_at" := Text(createdAt), "package" := Text(package), "status" := Text(status),
        "schema_valid" := valid, "package_valid" := valid, "director_gate_status" := Text(status),
        "promotion_allowed" := Bool(PromotionOf(status, blockers)), "blockers" := List(blockers),
        "summary" := Object(complete)]
  }

  /** if source.get(from): o[key] = source[from] */
  function CopyIfAny(o: Fields, key: string, source: Fields, from: string): Fields {
    if IsTruthy(At(source, from)) then o[key := At(source, from)] else o
  }

  function ResultPayload(
      createdAt: string, package: string, status: string, blockers: seq<Json>, summary: Fields): Fields
  {
    var complete := CompleteSummary(status, blockers, summary);
    var payload := BasePayload(createdAt, package, status, blockers, complete);
    var withActions := CopyIfAny(payload, "recommendations", complete, "actionable_recommendations");
    CopyIfAny(withActions, "pattern_recommendations", complete, "pattern_recommendations")
  }

  // ----- what the validator checks

  datatype Section = ByRegime | ByVariant

  function SectionName(s: Section): string {
    if s.ByRegime? then "by_regime" else "by_entry_variant"
  }

  datatype Flag = SchemaValid | PackageValid | PromotionAllowed

  function FlagName(f: Flag): string {
    match f
    case SchemaValid => "schema_valid"
    case PackageValid => "package_valid"
    case PromotionAllowed => "promotion_allowed"
  }

  datatype GateError =
    | BadStatus | StatusMismatch | NotBoolean(flag: Flag) | PromotionWithoutPass
    | SummaryMissing | BadVerdict | SummaryPromotionNotBoolean
    | SectionMissing(section: Section) | ReasonMissing(section: Section) | BucketsMissing(section: Section)

  predicate IsStatus(j: Json) {
    j in {Text("passed"), Text("blocked"), Text("invalid")}
  }

  /** Present but not true or false. */
  predicate Unboolean(o: Fields, key: string) {
    key in o && !o[key].Bool?
  }

  /** Available without buckets, or unavailable without a reason. */
  predicate LacksReason(value: Fields) {
    At(value, "available") == Bool(false)
    && Strip(if "empty_reason" in value then PyStr(value["empty_reason"]) else "") == ""
  }

  predicate LacksBuckets(value: Fields) {
    At(value, "available") == Bool(true) && !(At(value, "buckets").List? && At(value, "buckets").items != [])
  }

  /** What each error says of a result object. */
  predicate Faulty(e: GateError, o: Fields) {
    match e
    case BadStatus => !IsStatus(At(o, "status"))
    case StatusMismatch => At(o, "director_gate_status") != Null && At(o, "director_gate_status") != At(o, "status")
    case NotBoolean(f) => Unboolean(o, FlagName(f))
    case PromotionWithoutPass => At(o, "promotion_allowed") == Bool(true) && At(o, "status") != Text("passed")
    case SummaryMissing => !At(o, "summary").Object?
    case _ => At(o, "summary").Object? && FaultySummary(e, At(o, "summary").fields)
  }

  predicate FaultySummary(e: GateError, summary: Fields) {
    match e
    case BadVerdict => !IsStatus(At(summary, "director_gate"))
    case SummaryPromotionNotBoolean => Unboolean(summary, "promotion_allowed")
    case SectionMissing(s) => !At(summary, SectionName(s)).Object?
    case ReasonMissing(s) => At(summary, SectionName(s)).Object? && LacksReason(At(summary, SectionName(s)).fields)
    case BucketsMissing(s) => At(summary, SectionName(s)).Object? && LacksBuckets(At(summary, SectionName(s)).fields)
    case _ => false
  }

  method CheckSection(summary: Fields, s: Section) returns (errors: seq<GateError>)
    ensures forall e :: e in errors <==>
              e in [SectionMissing(s), ReasonMissing(s), BucketsMissing(s)] && FaultySummary(e, summary)
  {
    errors := [];
    var value := At(summary, SectionName(s));
    if !value.Object? {
      return [SectionMissing(s)];
    }
    if LacksReason(value.fields) {
      errors := errors + [ReasonMissing(s)];
    }
    if LacksBuckets(value.fields) {
      errors := errors + [BucketsMissing(s)];
    }
  }

  method CheckSummary(summary: Fields) returns (errors: seq<GateError>)
    ensures forall e :: e in errors <==> FaultySummary(e, summary)
  {
    errors := [];
    if !IsStatus(At(summary, "director_gate")) {
      errors := errors + [BadVerdict];
    }
    if Unboolean(summary, "promotion_allowed") {
      errors := errors + [SummaryPromotionNotBoolean];
    }
    var regime := CheckSection(summary, ByRegime);
    var variant := CheckSection(summary, ByVariant);
    errors := errors + regime + variant;
  }

  /** The validator's list holds exactly the errors the object is at fault for. */
  method CheckDirectorGateResult(o: Fields) returns (errors: seq<GateError>)
    ensures forall e :: e in errors <==> Faulty(e, o)
  {
    errors := [];
    var status := At(o, "status");
    if !IsStatus(status) {
      errors := errors + [BadStatus];
    }
    if At(o, "director_gate_status") != Null && At(o, "director_gate_status") != status {
      errors := errors + [StatusMismatch];
    }
    if Unboolean(o, FlagName(SchemaValid)) {
      errors := errors + [NotBoolean(SchemaValid)];
    }
    if Unboolean(o, FlagName(PackageValid)) {
      errors := errors + [NotBoolean(PackageValid)];
    }
    if Unboolean(o, FlagName(PromotionAllowed)) {
      errors := errors + [NotBoolean(PromotionAllowed)];
    }
    if At(o, "promotion_allowed") == Bool(true) && status != Text("passed") {
      errors := errors + [PromotionWithoutPass];
    }
    if !At(o, "summary").Object? {
      errors := errors + [SummaryMissing];
      return;
    }
    var more := CheckSummary(At(o, "summary").fields);
    errors := errors + more;
  }

  // ----- what the validator reports

  /** status.strip().lower() of the file, from the first entry that has one. */
  function StatusValue(file: Json): string {
    if !file.Object? then "missing"
    else
      var o := file.fields;
      var own := if IsTruthy(At(o, "director_gate_status")) then At(o, "director_gate_status") else At(o, "status");
      if IsTruthy(own) && Strip(PyStr(own)) != "" then LowerCase(Strip(PyStr(own)))
      else if !At(o, "summary").Object? then "missing"
      else
        var summary := At(o, "summary").fields;
        var inner := if IsTruthy(At(summary, "director_gate_status")) then At(summary, "director_gate_status")
                     else At(summary, "director_gate");
        if IsTruthy(inner) && Strip(PyStr(inner)) != "" then LowerCase(Strip(PyStr(inner))) else "missing"
  }

  predicate AllowsPromotion(file: Json) {
    if !file.Object? then false
    else if "promotion_allowed" in file.fields then IsTruthy(file.fields["promotion_allowed"])
    else
      var summary := At(file.fields, "summary");
      if summary.Object? && "promotion_allowed" in summary.fields then IsTruthy(summary.fields["promotion_allowed"])
      else StatusValue(file) == "passed"
  }

  /** The promotion entry of the validation report; `errors` counts all errors of the package. */
  predicate ReportsPromotion(file: Json, errors: nat) {
    errors == 0 && AllowsPromotion(file)
  }

  ghost predicate Accepted(o: Fields) {
    forall e :: !Faulty(e, o)
  }

  // ----- writer and validator agree

  /** What a breakdown of the gate's own making looks like. */
  predicate WellMade(d: Breakdown) {
    match d
    case Missing(reason) => Strip(reason) != ""
    case Found(_, _, _, buckets) => buckets != []
  }

  lemma WellMadeSection(d: Breakdown)
    requires WellMade(d)
    ensures BreakdownJson(d).Object? && !LacksReason(BreakdownJson(d).fields) && !LacksBuckets(BreakdownJson(d).fields)
  {
  }

  lemma SetDefaultKeeps(o: Fields, key: string, value: Json, other: string)
    requires other != key
    ensures At(SetDefault(o, key, value), other) == At(o, other)
    ensures other in SetDefault(o, key, value) <==> other in o
  {
  }

  /** Completing the summary leaves every entry the validator reads, and types the promotion entry. */
  lemma CompletedSummary(status: string, blockers: seq<Json>, summary: Fields)
    ensures var complete := CompleteSummary(status, blockers, summary);
            && At(complete, "director_gate") == At(summary, "director_gate")
            && At(complete, "by_regime") == At(summary, "by_regime")
            && At(complete, "by_entry_variant") == At(summary, "by_entry_variant")
            && (Unboolean(complete, "promotion_allowed") <==> Unboolean(summary, "promotion_allowed"))
  {
    var valid := Bool(status != "invalid");
    var s1 := SetDefault(summary, "schema_valid", valid);
    var s2 := SetDefault(s1, "package_valid", valid);
    var s3 := SetDefault(s2, "director_gate_status", Text(status));
    forall key | key in ["director_gate", "by_regime", "by_entry_variant", "promotion_allowed"]
      ensures At(s3, key) == At(summary, key) && (key in s3 <==> key in summary)
    {
      SetDefaultKeeps(summary, "schema_valid", valid, key);
      SetDefaultKeeps(s1, "package_valid", valid, key);
      SetDefaultKeeps(s2, "director_gate_status", Text(status), key);
    }
  }

  lemma PayloadFlags(createdAt: string, package: string, status: string, blockers: seq<Json>, summary: Fields)
    ensures var o := ResultPayload(createdAt, package, status, blockers, summary);
            && "schema_valid" in o && "package_valid" in o && "promotion_allowed" in o
            && o["schema_valid"].Bool? && o["package_valid"].Bool?
            && o["promotion_allowed"] == Bool(PromotionOf(status, blockers))
  {
  }

  lemma PayloadEntries(createdAt: string, package: string, status: string, blockers: seq<Json>, summary: Fields)
    ensures var o := ResultPayload(createdAt, package, status, blockers, summary);
            && At(o, "status") == Text(status) && At(o, "director_gate_status") == Text(status)
            && At(o, "summary") == Object(CompleteSummary(status, blockers, summary))
            && At(o, "blockers") == List(blockers)
  {
  }

  /** A written result is accepted exactly when its status is one of the three and its summary is in order. */
  lemma PayloadAcceptedIff(createdAt: string, package: string, status: string, blockers: seq<Json>, summary: Fields)
    ensures Accepted(ResultPayload(createdAt, package, status, blockers, summary)) <==>
            IsStatus(Text(status)) && forall e :: !FaultySummary(e, summary)
  {
    var o := ResultPayload(createdAt, package, status, blockers, summary);
    var complete := CompleteSummary(status, blockers, summary);
    PayloadEntries(createdAt, package, status, blockers, summary);
    PayloadFlags(createdAt, package, status, blockers, summary);
    CompletedSummary(status, blockers, summary);
    forall e
      ensures FaultySummary(e, complete) <==> FaultySummary(e, summary)
    {
    }
    forall e
      ensures Faulty(e, o) <==> (e == BadStatus && !IsStatus(Text(status))) || FaultySummary(e, summary)
    {
    }
    assert !IsStatus(Text(status)) ==> Faulty(BadStatus, o);
  }

  /** How the reason starts that the gate falls back on when a table names none. */
  function FallbackReason(s: Section): string {
    match s
    case ByRegime => "metrics_by_regime.csv" + " is missing or empty"
    case ByVariant => "metrics_by_entry_variant.csv" + " is missing or empty"
  }

  lemma FallbackNotBlank(s: Section)
    ensures Strip(FallbackReason(s)) != ""
  {
    assert "metrics_by_regime.csv"[0] == 'm' && "metrics_by_entry_variant.csv"[0] == 'm';
    StripNonblank(FallbackReason(s));
  }

  lemma {:induction false} FirstReasonIsStripped(entries: seq<Entry>)
    ensures Strip(FirstReason(entries)) == FirstReason(entries)
  {
    if entries != [] {
      StripTwice(entries[0].reason);
      FirstReasonIsStripped(entries[1..]);
    } else {
      TrimOfDropped("", IsSpace);
    }
  }

  /** A row that can be shown as a bucket. */
  predicate IsUsable(row: Row, number: Reader) {
    Truthy(row, "analysis_available") && AsInt(row, "trade_count", number) > 0
  }

  lemma SomeAvailableIff(rows: seq<Row>, column: string, number: Reader)
    ensures (exists e :: e in Entries(rows, column, number) && e.available)
       <==> exists i :: 0 <= i < |rows| && IsUsable(rows[i], number)
  {
    var entries := Entries(rows, column, number);
    forall i | 0 <= i < |rows|
      ensures entries[i] in entries && (entries[i].available <==> IsUsable(rows[i], number))
    {
    }
  }

  lemma MadeWell(d: Breakdown, entries: seq<Entry>, s: Section)
    requires d.Missing? ==> d.reason == if FirstReason(entries) == "" then FallbackReason(s) else FirstReason(entries)
    requires d.Found? ==> d.buckets != []
    ensures WellMade(d)
  {
    FallbackNotBlank(s);
    FirstReasonIsStripped(entries);
  }

  /** Every breakdown the gate makes is usable for the validator. */
  method SectionBreakdown(rows: seq<Row>, s: Section, number: Reader) returns (d: Breakdown)
    ensures IsBreakdown(d, Entries(rows, BucketColumn(s), number), FallbackReason(s))
    ensures WellMade(d)
    ensures d.Found? <==> exists i :: 0 <= i < |rows| && IsUsable(rows[i], number)
  {
    var entries := Entries(rows, BucketColumn(s), number);
    d := BucketBreakdown(entries, FallbackReason(s));
    MadeWell(d, entries, s);
    SomeAvailableIff(rows, BucketColumn(s), number);
  }

  function BucketColumn(s: Section): string {
    if s.ByRegime? then "market_regime" else "entry_variant_id"
  }

  /** The file the gate writes of an evaluated package. */
  ghost predicate IsResult(
      o: Fields, createdAt: string, package: string, blockers: seq<Json>, figures: Fields,
      byRegime: Breakdown, byVariant: Breakdown)
  {
    o == ResultPayload(createdAt, package, if blockers == [] then "passed" else "blocked", blockers,
                       Summary(figures, byRegime, byVariant, |blockers|))
  }

  lemma SummaryEntries(figures: Fields, byRegime: Breakdown, byVariant: Breakdown, blockers: nat)
    ensures var summary := Summary(figures, byRegime, byVariant, blockers);
            && At(summary, "by_regime") == BreakdownJson(byRegime)
            && At(summary, "by_entry_variant") == BreakdownJson(byVariant)
            && IsStatus(At(summary, "director_gate"))
            && !Unboolean(summary, "promotion_allowed")
  {
    var verdict := VerdictEntries(blockers);
    assert IsStatus(At(verdict, "director_gate")) && "director_gate" in verdict;
    assert "promotion_allowed" in verdict && verdict["promotion_allowed"].Bool?;
  }

  lemma SummaryInOrder(figures: Fields, byRegime: Breakdown, byVariant: Breakdown, blockers: nat)
    requires WellMade(byRegime) && WellMade(byVariant)
    ensures forall e :: !FaultySummary(e, Summary(figures, byRegime, byVariant, blockers))
  {
    var summary := Summary(figures, byRegime, byVariant, blockers);
    SummaryEntries(figures, byRegime, byVariant, blockers);
    SectionsInOrder(summary, byRegime, byVariant);
  }

  lemma SectionsInOrder(summary: Fields, byRegime: Breakdown, byVariant: Breakdown)
    requires WellMade(byRegime) && WellMade(byVariant)
    requires At(summary, "by_regime") == BreakdownJson(byRegime)
    requires At(summary, "by_entry_variant") == BreakdownJson(byVariant)
    requires IsStatus(At(summary, "director_gate")) && !Unboolean(summary, "promotion_allowed")
    ensures forall e :: !FaultySummary(e, summary)
  {
    WellMadeSection(byRegime);
    WellMadeSection(byVariant);
  }

  /** What the validator reads from a written result about promotion is what the gate decided. */
  lemma PayloadPromotion(createdAt: string, package: string, status: string, blockers: seq<Json>, summary: Fields)
    ensures AllowsPromotion(Object(ResultPayload(createdAt, package, status, blockers, summary)))
            <==> status == "passed" && blockers == []
  {
    PayloadEntries(createdAt, package, status, blockers, summary);
    PayloadFlags(createdAt, package, status, blockers, summary);
  }

  /** A gate run on readable tables: its file raises no error, and allows promotion exactly without blockers. */
  method RunGate(
      t: Tables, number: Reader, limits: DirectorGate.Limits, createdAt: string, package: string,
      figures: Fields, describe: DirectorGate.Blocker -> Json)
    returns (o: Fields, ghost byRegime: Breakdown, ghost byVariant: Breakdown)
    ensures IsResult(o, createdAt, package, Map(DirectorGate.Blockers(Read(t, number), limits), describe), figures,
                     byRegime, byVariant)
    ensures IsBreakdown(byRegime, Entries(t.byRegime, "market_regime", number), FallbackReason(ByRegime))
    ensures IsBreakdown(byVariant, Entries(t.byVariant, "entry_variant_id", number), FallbackReason(ByVariant))
    ensures Accepted(o)
    ensures At(o, "status") == Text("passed") <==> DirectorGate.Blockers(Read(t, number), limits) == []
    ensures At(o, "status") == Text("passed") && limits.maxShare == 0.0 ==> DirectorGate.SoundRows(t)
    ensures At(o, "blockers") == List(Map(DirectorGate.Blockers(Read(t, number), limits), describe))
    ensures forall errors: nat ::
              ReportsPromotion(Object(o), errors) <==>
              errors == 0 && DirectorGate.Blockers(Read(t, number), limits) == []
  {
    var blockers, regimes, variants := EvaluateTables(t, number, limits);
    o := WriteResult(createdAt, package, Map(blockers, describe), figures, regimes, variants);
    byRegime, byVariant := regimes, variants;
  }

  /** The blockers and the two sections of the tables. */
  method EvaluateTables(t: Tables, number: Reader, limits: DirectorGate.Limits)
    returns (blockers: seq<DirectorGate.Blocker>, byRegime: Breakdown, byVariant: Breakdown)
    ensures blockers == DirectorGate.Blockers(Read(t, number), limits)
    ensures blockers == [] && limits.maxShare == 0.0 ==> DirectorGate.SoundRows(t)
    ensures IsBreakdown(byRegime, Entries(t.byRegime, "market_regime", number), FallbackReason(ByRegime))
    ensures IsBreakdown(byVariant, Entries(t.byVariant, "entry_variant_id", number), FallbackReason(ByVariant))
    ensures WellMade(byRegime) && WellMade(byVariant)
  {
    blockers := DirectorGate.Evaluate(Read(t, number), limits);
    DirectorGate.GateSoundness(t, number, limits);
    byRegime := SectionBreakdown(t.byRegime, ByRegime, number);
    byVariant := SectionBreakdown(t.byVariant, ByVariant, number);
  }

  method WriteResult(
      createdAt: string, package: string, blockers: seq<Json>, figures: Fields,
      byRegime: Breakdown, byVariant: Breakdown)
    returns (o: Fields)
    requires WellMade(byRegime) && WellMade(byVariant)
    ensures IsResult(o, createdAt, package, blockers, figures, byRegime, byVariant)
    ensures Accepted(o)
    ensures At(o, "status") == Text("passed") <==> blockers == []
    ensures At(o, "blockers") == List(blockers)
    ensures AllowsPromotion(Object(o)) <==> blockers == []
  {
    var summary := Summary(figures, byRegime, byVariant, |blockers|);
    var status := if blockers != [] then "blocked" else "passed";
    o := ResultPayload(createdAt, package, status, blockers, summary);
    SummaryInOrder(figures, byRegime, byVariant, |blockers|);
    PayloadAcceptedIff(createdAt, package, status, blockers, summary);
    PayloadEntries(createdAt, package, status, blockers, summary);
    PayloadFlags(createdAt, package, status, blockers, summary);
    PayloadPromotion(createdAt, package, status, blockers, summary);
  }

  /** A gate run on unreadable tables writes a file its own validator rejects: both sections are missing. */
  method RunGateInvalid(createdAt: string, package: string, reason: string) returns (o: Fields)
    ensures o == ResultPayload(createdAt, package, "invalid", [Text(reason)], map["director_gate" := Text("invalid")])
    ensures forall e :: Faulty(e, o) <==> e in [SectionMissing(ByRegime), SectionMissing(ByVariant)]
    ensures !AllowsPromotion(Object(o))
  {
    var summary := map["director_gate" := Text("invalid")];
    o := ResultPayload(createdAt, package, "invalid", [Text(reason)], summary);
    PayloadEntries(createdAt, package, "invalid", [Text(reason)], summary);
    PayloadFlags(createdAt, package, "invalid", [Text(reason)], summary);
    CompletedSummary("invalid", [Text(reason)], summary);
    InvalidSummary(summary);
    PayloadPromotion(createdAt, package, "invalid", [Text(reason)], summary);
  }

  lemma InvalidSummary(summary: Fields)
    requires summary == map["director_gate" := Text("invalid")]
    ensures forall e :: FaultySummary(e, summary) <==> e in [SectionMissing(ByRegime), SectionMissing(ByVariant)]
  {
  }

  // ----- a gap in the validator

  lemma AcceptedStatus(o: Fields)
    requires Accepted(o)
    ensures IsStatus(At(o, "status")) && At(o, "summary").Object?
    ensures StatusValue(Object(o)) == At(o, "status").s
  {
    assert !Faulty(BadStatus, o) && !Faulty(StatusMismatch, o) && !Faulty(SummaryMissing, o);
    var s := At(o, "status").s;
    StatusesAreClean(s);
    CleanStatusIsReported(o, s);
  }

  lemma CleanStatusIsReported(o: Fields, s: string)
    requires At(o, "status") == Text(s) && At(o, "director_gate_status") in {Null, Text(s)}
    requires LowerCase(Strip(s)) == s && Strip(s) == s != ""
    ensures StatusValue(Object(o)) == s
  {
  }

  lemma LowerStays(s: string)
    requires forall i :: 0 <= i < |s| ==> !('A' <= s[i] <= 'Z')
    ensures LowerCase(s) == s
  {
  }

  lemma StatusesAreClean(s: string)
    requires s in ["passed", "blocked", "invalid"]
    ensures LowerCase(Strip(s)) == s && Strip(s) == s != ""
  {
    TrimOf("", s, "", IsSpace);
    assert "" + s + "" == s;
    LowerStays(s);
  }

  lemma AcceptedFlags(o: Fields)
    requires Accepted(o)
    ensures At(o, "summary").Object?
    ensures !Unboolean(o, "promotion_allowed") && !Unboolean(At(o, "summary").fields, "promotion_allowed")
    ensures At(o, "promotion_allowed") == Bool(true) ==> At(o, "status") == Text("passed")
  {
    assert !Faulty(SummaryMissing, o) && !Faulty(PromotionWithoutPass, o) && !Faulty(NotBoolean(PromotionAllowed), o);
    assert !Faulty(SummaryPromotionNotBoolean, o);
  }

  /** Among accepted files, promotion is allowed without a pass exactly when the file leaves its own
      promotion entry out and its summary has a true one. */
  lemma AcceptedPromotionWithoutPass(o: Fields)
    requires Accepted(o)
    ensures At(o, "summary").Object?
    ensures (AllowsPromotion(Object(o)) && At(o, "status") != Text("passed")) <==>
            (&& At(o, "status") != Text("passed")
             && "promotion_allowed" !in o
             && At(At(o, "summary").fields, "promotion_allowed") == Bool(true))
  {
    AcceptedStatus(o);
    AcceptedFlags(o);
  }

  /** Such a file: blocked, accepted, and read as allowing promotion. */
  function BlockedButPromoting(sections: Json): Fields {
    var summary := map["director_gate" := Text("blocked"), "promotion_allowed" := Bool(true),
                       "by_regime" := sections, "by_entry_variant" := sections];
    map["status" := Text("blocked"), "summary" := Object(summary)]
  }

  lemma BlockedFileCanAllowPromotion(reason: string)
    requires Strip(reason) != ""
    ensures var o := BlockedButPromoting(BreakdownJson(Breakdown.Missing(reason)));
            Accepted(o) && At(o, "status") == Text("blocked") && AllowsPromotion(Object(o))
  {
    var d := Breakdown.Missing(reason);
    var o := BlockedButPromoting(BreakdownJson(d));
    SectionsInOrder(At(o, "summary").fields, d, d);
    assert At(o, "director_gate_status") == Null && At(o, "promotion_allowed") == Null;
  }
}
