/**
  The validator's side of the result file read off the object alone: which entries are at fault,
  and when the report says that promotion is allowed.
  */
module ReportedFaults {
  import opened PyText
  import opened ResultFile

  // ----- faults

  ghost predicate IsAbsent(o: Fields, key: string) {
    key !in o || o[key] == Null
  }

  ghost predicate IsVerdict(o: Fields, key: string) {
    key in o && (o[key] == Text("passed") || o[key] == Text("blocked") || o[key] == Text("invalid"))
  }

  ghost predicate IsFlag(o: Fields, key: string) {
    key in o && (o[key] == Bool(true) || o[key] == Bool(false))
  }

  ghost predicate HasObject(o: Fields, key: string) {
    key in o && o[key].Object?
  }

  ghost predicate Says(o: Fields, key: string, value: Json) {
    key in o && o[key] == value
  }

  /** A text of blanks, or none; every other value is shown as some text. */
  ghost predicate GivesNoReason(section: Fields) {
    "empty_reason" !in section || (section["empty_reason"].Text? && All(section["empty_reason"].s, IsSpace))
  }

  ghost predicate HasBuckets(section: Fields) {
    "buckets" in section && section["buckets"].List? && |section["buckets"].items| > 0
  }

  ghost function NameOf(s: Section): string {
    match s
    case ByRegime => "by_regime"
    case ByVariant => "by_entry_variant"
  }

  /** What is wrong with the object, fault by fault; without a summary, nothing is said about its entries. */
  ghost predicate IsFault(e: GateError, o: Fields) {
    match e
    case BadStatus => !IsVerdict(o, "status")
    case StatusMismatch =>
      !IsAbsent(o, "director_gate_status") && !("status" in o && o["status"] == o["director_gate_status"])
    case NotBoolean(SchemaValid) => "schema_valid" in o && !IsFlag(o, "schema_valid")
    case NotBoolean(PackageValid) => "package_valid" in o && !IsFlag(o, "package_valid")
    case NotBoolean(PromotionAllowed) => "promotion_allowed" in o && !IsFlag(o, "promotion_allowed")
    case PromotionWithoutPass => Says(o, "promotion_allowed", Bool(true)) && !Says(o, "status", Text("passed"))
    case SummaryMissing => !HasObject(o, "summary")
    case _ => HasObject(o, "summary") && IsSummaryFault(e, o["summary"].fields)
  }

  ghost predicate IsSummaryFault(e: GateError, summary: Fields) {
    match e
    case BadVerdict => !IsVerdict(summary, "director_gate")
    case SummaryPromotionNotBoolean => "promotion_allowed" in summary && !IsFlag(summary, "promotion_allowed")
    case SectionMissing(s) => !HasObject(summary, NameOf(s))
    case ReasonMissing(s) =>
      && HasObject(summary, NameOf(s))
      && Says(summary[NameOf(s)].fields, "available", Bool(false)) && GivesNoReason(summary[NameOf(s)].fields)
    case BucketsMissing(s) =>
      && HasObject(summary, NameOf(s))
      && Says(summary[NameOf(s)].fields, "available", Bool(true)) && !HasBuckets(summary[NameOf(s)].fields)
    case _ => false
  }

  lemma BlankIff(s: string)
    ensures Strip(s) == "" <==> All(s, IsSpace)
  {
    var a, b := TrimParts(s, IsSpace);
    if All(s, IsSpace) {
      TrimOfDropped(s, IsSpace);
    }
  }

  lemma ShownTextIsNotBlank(j: Json)
    ensures !j.Text? ==> Strip(PyStr(j)) != ""
  {
    if !j.Text? {
      StripNonblank(PyStr(j));
    }
  }

  lemma NoReasonIff(section: Fields)
    ensures LacksReason(section) <==> Says(section, "available", Bool(false)) && GivesNoReason(section)
  {
    BlankIff("");
    if "empty_reason" in section {
      ShownTextIsNotBlank(section["empty_reason"]);
      if section["empty_reason"].Text? {
        BlankIff(section["empty_reason"].s);
      }
    }
  }

  lemma NoBucketsIff(section: Fields)
    ensures LacksBuckets(section) <==> Says(section, "available", Bool(true)) && !HasBuckets(section)
  {
  }

  lemma SummaryFaultIff(e: GateError, summary: Fields)
    ensures FaultySummary(e, summary) <==> IsSummaryFault(e, summary)
  {
    if e.ReasonMissing? && At(summary, SectionName(e.section)).Object? {
      NoReasonIff(At(summary, SectionName(e.section)).fields);
    }
    if e.BucketsMissing? && At(summary, SectionName(e.section)).Object? {
      NoBucketsIff(At(summary, SectionName(e.section)).fields);
    }
  }

  /** The validator's errors are these faults. */
  lemma FaultIff(e: GateError, o: Fields)
    ensures Faulty(e, o) <==> IsFault(e, o)
  {
    if At(o, "summary").Object? {
      SummaryFaultIff(e, At(o, "summary").fields);
    }
  }

  // ----- promotion

  /** Python's bool(): everything but null, false, zero and what is empty. */
  ghost predicate Counts(j: Json) {
    j !in [Null, Bool(false), Number(0.0), Text(""), List([]), Object(map[])]
  }

  /** The first of the two entries that counts; Null if neither does. */
  ghost function FirstOf(o: Fields, key: string, other: string): Json {
    if key in o && Counts(o[key]) then o[key]
    else if other in o && Counts(o[other]) then o[other]
    else Null
  }

  ghost predicate Names(j: Json, status: string) {
    Counts(j) && Strip(PyStr(j)) != "" && status == LowerCase(Strip(PyStr(j)))
  }

  /** The file's own status, else the summary's, else `missing`. */
  ghost predicate IsReportedStatus(file: Json, status: string) {
    if !file.Object? then status == "missing"
    else
      var own := FirstOf(file.fields, "director_gate_status", "status");
      if exists s :: Names(own, s) then Names(own, status)
      else if !HasObject(file.fields, "summary") then status == "missing"
      else
        var inner := FirstOf(file.fields["summary"].fields, "director_gate_status", "director_gate");
        if exists s :: Names(inner, s) then Names(inner, status) else status == "missing"
  }

  /** The file's own entry decides, else the summary's, else the reported status. */
  ghost predicate LetsPromote(file: Json) {
    file.Object? &&
    if "promotion_allowed" in file.fields then Counts(file.fields["promotion_allowed"])
    else if HasObject(file.fields, "summary") && "promotion_allowed" in file.fields["summary"].fields
    then Counts(file.fields["summary"].fields["promotion_allowed"])
    else IsReportedStatus(file, "passed")
  }

  lemma CountsIs(j: Json)
    ensures IsTruthy(j) <==> Counts(j)
  {
  }

  lemma FirstIs(o: Fields, key: string, other: string)
    ensures var j := if IsTruthy(At(o, key)) then At(o, key) else At(o, other);
            FirstOf(o, key, other) == if IsTruthy(j) then j else Null
  {
    CountsIs(At(o, key));
    CountsIs(At(o, other));
  }

  lemma NamesOne(j: Json)
    ensures (exists s :: Names(j, s)) <==> IsTruthy(j) && Strip(PyStr(j)) != ""
  {
    CountsIs(j);
    if IsTruthy(j) && Strip(PyStr(j)) != "" {
      assert Names(j, LowerCase(Strip(PyStr(j))));
    }
  }

  lemma StatusIff(file: Json, status: string)
    ensures IsReportedStatus(file, status) <==> status == StatusValue(file)
  {
    if file.Object? {
      FirstIs(file.fields, "director_gate_status", "status");
      NamesOne(FirstOf(file.fields, "director_gate_status", "status"));
      if HasObject(file.fields, "summary") {
        FirstIs(file.fields["summary"].fields, "director_gate_status", "director_gate");
        NamesOne(FirstOf(file.fields["summary"].fields, "director_gate_status", "director_gate"));
      }
    }
  }

  /** The report allows promotion for exactly these files, given no error in the package. */
  lemma PromotionIff(file: Json, errors: nat)
    ensures ReportsPromotion(file, errors) <==> errors == 0 && LetsPromote(file)
  {
    StatusIff(file, "passed");
    if file.Object? {
      CountsIs(At(file.fields, "promotion_allowed"));
      if HasObject(file.fields, "summary") {
        CountsIs(At(file.fields["summary"].fields, "promotion_allowed"));
      }
    }
  }
}
