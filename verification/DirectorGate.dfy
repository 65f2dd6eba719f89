/**
  The director gate: it looks for reasons against promoting a package and passes the package
  when there are none.
  */
module DirectorGate {
  import opened GateRows
  import AuditDuplicates

  datatype Limits = Limits(minTrades: int, minFills: int, maxShare: real)

  datatype Blocker =
    | NoCatalog | NoEvents | NoTrades | NoFills | UnknownStatuses
    | PromotedWithoutTrades | PromotedWithoutFills | ResearchMetricsInColumns
    | LookaheadColumnsMissing | LookaheadBlank | CloseEntryWithoutProof | DuplicatesExceed | PendingLabelsPromoted
    | NotIndependent | IndependencePending | SampleCountMismatch | RegimeNotPersisted | SectorNotPersisted
    | NoOutOfSample | NoTrainOnlyEvidence | NoMultipleTesting
    | ContractColumnsMissing | LedgerHashMissing | ReplayMissing | ReplayNotPassed | EdgeInflated | EdgeMissing
    | DriftDegrading | BlockersActive | RegistryHashMissing | RunManifestMissing | ChainInvalid
    | TradesWithoutFills | CostMissing | SlippageMissing

  // ----- statuses

  /** {pattern_id: status}: the last row of an id wins. */
  function Statuses(catalog: seq<Pattern>): (r: map<string, Standing>)
    ensures forall i :: 0 <= i < |catalog| ==> catalog[i].id in r
  {
    if catalog == [] then map[]
    else
      var row := catalog[|catalog| - 1];
      Statuses(catalog[..|catalog| - 1])[row.id := row.standing]
  }

  predicate Is(statuses: map<string, Standing>, pid: string, s: Standing) {
    pid in statuses && statuses[pid] == s
  }

  predicate Any(statuses: map<string, Standing>, s: Standing) {
    exists pid :: pid in statuses.Keys && statuses[pid] == s
  }

  // ----- independence counts

  function VerifiedCount(events: seq<Event>, pid: string): nat {
    if events == [] then 0
    else
      var last := events[|events| - 1];
      VerifiedCount(events[..|events| - 1], pid) + if last.verdict == Verified && last.patternId == pid then 1 else 0
  }

  function VerdictCount(events: seq<Event>, v: Verdict): nat {
    if events == [] then 0
    else VerdictCount(events[..|events| - 1], v) + if events[|events| - 1].verdict == v then 1 else 0
  }

  lemma {:induction false} NoneCountedIff(events: seq<Event>, v: Verdict)
    ensures VerdictCount(events, v) == 0 <==> forall i :: 0 <= i < |events| ==> events[i].verdict != v
  {
    if events != [] {
      var n := |events| - 1;
      NoneCountedIff(events[..n], v);
      assert events == events[..n] + [events[n]];
    }
  }

  /** The event loop: verified rows per pattern, and the two row counters. */
  method CountIndependence(events: seq<Event>)
    returns (byPattern: map<string, nat>, notIndependent: nat, pending: nat)
    ensures forall pid :: VerifiedCount(events, pid) == if pid in byPattern then byPattern[pid] else 0
    ensures notIndependent == VerdictCount(events, Denied) + VerdictCount(events, Unsettled)
    ensures pending == VerdictCount(events, Unsettled)
  {
    byPattern, notIndependent, pending := map[], 0, 0;
    for i := 0 to |events|
      invariant forall pid :: VerifiedCount(events[..i], pid) == if pid in byPattern then byPattern[pid] else 0
      invariant notIndependent == VerdictCount(events[..i], Denied) + VerdictCount(events[..i], Unsettled)
      invariant pending == VerdictCount(events[..i], Unsettled)
    {
      assert events[..i + 1][..i] == events[..i];
      var pid := events[i].patternId;
      if events[i].verdict == Verified {
        byPattern := byPattern[pid := (if pid in byPattern then byPattern[pid] else 0) + 1];
      } else {
        notIndependent := notIndependent + 1;
        if events[i].verdict == Unsettled {
          pending := pending + 1;
        }
      }
    }
    assert events[..|events|] == events;
  }

  // ----- the reasons

  predicate TooFewTrades(m: Metric, statuses: map<string, Standing>, limits: Limits) {
    Is(statuses, m.patternId, Promotion) && m.trades < limits.minTrades
  }

  /** The metric row claims more independent samples than the events show, when they show any. */
  predicate Overclaims(m: Metric, observed: nat) {
    m.claimedSamples != 0 && observed != 0 && m.claimedSamples > observed
  }

  predicate Unfilled(trade: Trade, fillIds: seq<string>) {
    trade.id != "" && trade.id !in fillIds
  }

  function GroupCells(events: seq<Event>): (r: seq<string>)
    ensures |r| == |events|
  {
    Map(events, (e: Event) => e.groupCell)
  }

  /** Rows whose non-blank group label occurs on another row, as a share of all rows. */
  function DuplicateShare(events: seq<Event>): real {
    if events == [] then 0.0
    else |AuditDuplicates.RepeatedRows(AuditDuplicates.Labels(GroupCells(events)))| as real / |events| as real
  }

  /** The blockers a stage of the run looks for, in the order it reports them. */
  datatype Stage = Inventory | Promoted | Lookahead | Labels | Sampling | Evidence | Contract

  function Of(stage: Stage): seq<Blocker> {
    match stage
    case Inventory => [NoCatalog, NoEvents, NoTrades, NoFills, UnknownStatuses]
    case Promoted => [PromotedWithoutTrades, PromotedWithoutFills, ResearchMetricsInColumns]
    case Lookahead => [LookaheadColumnsMissing, LookaheadBlank, CloseEntryWithoutProof]
    case Labels => [DuplicatesExceed, PendingLabelsPromoted]
    case Sampling => [NotIndependent, IndependencePending, SampleCountMismatch, RegimeNotPersisted, SectorNotPersisted]
    case Evidence => [NoOutOfSample, NoTrainOnlyEvidence, NoMultipleTesting]
    case Contract => OfDiscovery() + OfRegistry() + OfExecution()
  }

  function OfDiscovery(): seq<Blocker> {
    [ContractColumnsMissing, LedgerHashMissing, ReplayMissing, ReplayNotPassed, EdgeInflated, EdgeMissing]
  }

  function OfRegistry(): seq<Blocker> {
    [DriftDegrading, BlockersActive, RegistryHashMissing, RunManifestMissing, ChainInvalid]
  }

  function OfExecution(): seq<Blocker> {
    [TradesWithoutFills, CostMissing, SlippageMissing]
  }

  function PromotedReasons(p: Package, limits: Limits): (r: seq<bool>)
    ensures |r| == 3
  {
    var statuses := Statuses(p.catalog);
    [exists m :: m in p.metrics && TooFewTrades(m, statuses, limits),
     Any(statuses, Promotion) && |p.fillIds| < limits.minFills,
     exists m :: m in p.metrics && m.trades == 0 && m.researchFilled]
  }

  function LookaheadReasons(p: Package): (r: seq<bool>)
    ensures |r| == 3
  {
    [!p.columns.lookahead,
     p.columns.lookahead && exists e :: e in p.events && !e.complete,
     !p.columns.entryEligible && exists c :: c in p.catalog && c.entersAtClose]
  }

  function LabelReasons(p: Package, limits: Limits): (r: seq<bool>)
    ensures |r| == 2
  {
    [DuplicateShare(p.events) > limits.maxShare,
     Any(Statuses(p.catalog), Promotion) && exists e :: e in p.events && e.labelPending]
  }

  function SamplingReasons(p: Package): (r: seq<bool>)
    ensures |r| == 5
  {
    [exists e :: e in p.events && e.verdict != Verified,
     exists e :: e in p.events && e.verdict == Unsettled,
     exists m :: m in p.metrics && Overclaims(m, VerifiedCount(p.events, m.patternId)),
     forall e :: e in p.events ==> !e.namesRegime,
     forall e :: e in p.events ==> !e.namesSector]
  }

  function EvidenceReasons(p: Package): (r: seq<bool>)
    ensures |r| == 3
  {
    [p.experiments != [] && forall x :: x in p.experiments ==> !x.hasOosBounds,
     p.experiments != [] && !p.columns.trainOnly,
     |p.experiments| >= 20 && !p.columns.multipleTesting]
  }

  function DiscoveryReasons(p: Package): (r: seq<bool>)
    ensures |r| == 6
  {
    [p.experiments != [] && !p.columns.contract,
     exists x :: x in p.experiments && !x.hasLedgerHash,
     exists x :: x in p.experiments && x.replay == Missing,
     exists x :: x in p.experiments && x.replay == NotPassed,
     exists x :: x in p.experiments && x.edge == Inflated,
     exists x :: x in p.experiments && x.edge == NoClaim]
  }

  function RegistryReasons(p: Package): (r: seq<bool>)
    ensures |r| == 5
  {
    [exists x :: x in p.experiments && x.degrades,
     exists x :: x in p.experiments && x.reportsBlockers,
     exists x :: x in p.experiments && !x.hasRegistryHash,
     exists x :: x in p.experiments && !x.hasRunManifest,
     exists x :: x in p.experiments && x.chainBroken]
  }

  function ExecutionReasons(p: Package): (r: seq<bool>)
    ensures |r| == 3
  {
    [exists t :: t in p.trades && Unfilled(t, p.fillIds),
     exists t :: t in p.trades && !t.costed,
     exists t :: t in p.trades && !t.hasSlippage]
  }

  /** Why each of a stage's blockers is raised, in the same order. */
  function Reasons(stage: Stage, p: Package, limits: Limits): (r: seq<bool>)
    ensures |r| == |Of(stage)|
  {
    match stage
    case Inventory => [
      p.catalog == [], p.events == [], p.trades == [], p.fillIds == [], Any(Statuses(p.catalog), Unknown)]
    case Promoted => PromotedReasons(p, limits)
    case Lookahead => LookaheadReasons(p)
    case Labels => LabelReasons(p, limits)
    case Sampling => SamplingReasons(p)
    case Evidence => EvidenceReasons(p)
    case Contract => DiscoveryReasons(p) + RegistryReasons(p) + ExecutionReasons(p)
  }

  // ----- the gate

  /** The blockers of a stage whose reason the run found, given one answer for each. */
  function Raise(asked: seq<Blocker>, found: seq<bool>): (r: seq<Blocker>)
    requires |asked| == |found|
    ensures forall b :: b in r <==> exists i :: 0 <= i < |asked| && asked[i] == b && found[i]
  {
    if asked == [] then []
    else
      var n := |asked| - 1;
      Raise(asked[..n], found[..n]) + if found[n] then [asked[n]] else []
  }

  /** What one stage reports. */
  function Raised(stage: Stage, p: Package, limits: Limits): seq<Blocker> {
    Raise(Of(stage), Reasons(stage, p, limits))
  }

  /** Metrics rows of promoted patterns with too few trades. */
  method ZeroTradePromotions(metrics: seq<Metric>, statuses: map<string, Standing>, limits: Limits)
    returns (offenders: seq<string>)
    ensures forall pid :: pid in offenders <==>
              exists m :: m in metrics && m.patternId == pid && TooFewTrades(m, statuses, limits)
  {
    offenders := [];
    for i := 0 to |metrics|
      invariant forall pid :: pid in offenders <==>
              exists m :: m in metrics[..i] && m.patternId == pid && TooFewTrades(m, statuses, limits)
    {
      assert metrics[..i + 1] == metrics[..i] + [metrics[i]];
      var pid := metrics[i].patternId;
      if !Is(statuses, pid, Promotion) {
        continue;
      }
      if metrics[i].trades < limits.minTrades {
        offenders := offenders + [pid];
      }
    }
    assert metrics[..|metrics|] == metrics;
  }

  /** Patterns whose metrics row claims more than the ledger shows. */
  method SampleMismatches(metrics: seq<Metric>, events: seq<Event>, byPattern: map<string, nat>)
    returns (offenders: seq<string>)
    requires forall pid :: VerifiedCount(events, pid) == if pid in byPattern then byPattern[pid] else 0
    ensures offenders != [] <==> exists m :: m in metrics && Overclaims(m, VerifiedCount(events, m.patternId))
  {
    offenders := [];
    for i := 0 to |metrics|
      invariant offenders != [] <==> exists m :: m in metrics[..i] && Overclaims(m, VerifiedCount(events, m.patternId))
    {
      assert metrics[..i + 1] == metrics[..i] + [metrics[i]];
      var pid := metrics[i].patternId;
      var observed := if pid in byPattern then byPattern[pid] else 0;
      if Overclaims(metrics[i], observed) {
        offenders := offenders + [pid];
      }
    }
    assert metrics[..|metrics|] == metrics;
  }

  /** The experiment loop of the evidence section. */
  method CountMissingOos(experiments: seq<Experiment>) returns (missing: nat)
    ensures missing == |experiments| <==> forall x :: x in experiments ==> !x.hasOosBounds
  {
    missing := 0;
    for i := 0 to |experiments|
      invariant 0 <= missing <= i
      invariant missing == i <==> forall x :: x in experiments[..i] ==> !x.hasOosBounds
    {
      assert experiments[..i + 1] == experiments[..i] + [experiments[i]];
      if !experiments[i].hasOosBounds {
        missing := missing + 1;
      }
    }
    assert experiments[..|experiments|] == experiments;
  }

  function ReplayCount(experiments: seq<Experiment>, r: Replay): nat {
    if experiments == [] then 0
    else ReplayCount(experiments[..|experiments| - 1], r) + if experiments[|experiments| - 1].replay == r then 1 else 0
  }

  lemma {:induction false} NoReplayIff(experiments: seq<Experiment>, r: Replay)
    ensures ReplayCount(experiments, r) == 0 <==> forall x :: x in experiments ==> x.replay != r
  {
    if experiments != [] {
      var n := |experiments| - 1;
      NoReplayIff(experiments[..n], r);
      assert experiments == experiments[..n] + [experiments[n]];
    }
  }

  /** The replay loop; every experiment falls in exactly one class. */
  method CountReplays(experiments: seq<Experiment>) returns (missing: nat, passed: nat, notPassed: nat, exempt: nat)
    ensures missing == ReplayCount(experiments, Missing) && passed == ReplayCount(experiments, Passed)
    ensures notPassed == ReplayCount(experiments, NotPassed) && exempt == ReplayCount(experiments, Exempt)
    ensures missing + passed + notPassed + exempt == |experiments|
  {
    missing, passed, notPassed, exempt := 0, 0, 0, 0;
    for i := 0 to |experiments|
      invariant missing == ReplayCount(experiments[..i], Missing) && passed == ReplayCount(experiments[..i], Passed)
      invariant notPassed == ReplayCount(experiments[..i], NotPassed) && exempt == ReplayCount(experiments[..i], Exempt)
      invariant missing + passed + notPassed + exempt == i
    {
      assert experiments[..i + 1][..i] == experiments[..i];
      match experiments[i].replay {
        case Missing => missing := missing + 1;
        case Exempt => exempt := exempt + 1;
        case NotPassed => notPassed := notPassed + 1;
        case Passed => passed := passed + 1;
      }
    }
    assert experiments[..|experiments|] == experiments;
  }

  /** The contract's blockers and its replay figures; without blockers every replay has passed or is exempt. */
  method ScientificContractStatus(p: Package, limits: Limits)
    returns (blockers: seq<Blocker>, passed: nat, exempt: nat, notPassed: nat)
    ensures blockers == Raised(Contract, p, limits)
    ensures passed == ReplayCount(p.experiments, Passed) && exempt == ReplayCount(p.experiments, Exempt)
    ensures notPassed == ReplayCount(p.experiments, NotPassed)
    ensures blockers == [] ==> passed + exempt == |p.experiments| && notPassed == 0
  {
    var missing;
    missing, passed, notPassed, exempt := CountReplays(p.experiments);
    NoReplayIff(p.experiments, Missing);
    NoReplayIff(p.experiments, NotPassed);
    var discovery := DiscoveryReasons(p)[2 := missing != 0][3 := notPassed != 0];
    assert discovery == DiscoveryReasons(p);
    blockers := Raise(Of(Contract), discovery + RegistryReasons(p) + ExecutionReasons(p));
    if blockers == [] {
      ContractClear(p, limits);
    }
  }

  method PromotionFinding(p: Package, limits: Limits) returns (some: bool)
    ensures some == PromotedReasons(p, limits)[0]
  {
    var statuses := Statuses(p.catalog);
    var offenders := ZeroTradePromotions(p.metrics, statuses, limits);
    some := offenders != [];
    assert some ==> offenders[0] in offenders;
    assert forall m :: m in p.metrics && TooFewTrades(m, statuses, limits) ==> m.patternId in offenders;
  }

  method SamplingFindings(p: Package) returns (notIndependent: bool, pending: bool, mismatch: bool)
    ensures [notIndependent, pending, mismatch] == SamplingReasons(p)[..3]
  {
    var byPattern, unverified, unsettled := CountIndependence(p.events);
    NoneCountedIff(p.events, Denied);
    NoneCountedIff(p.events, Unsettled);
    var mismatches := SampleMismatches(p.metrics, p.events, byPattern);
    notIndependent, pending, mismatch := unverified != 0, unsettled != 0, mismatches != [];
  }

  /** One stage: what a loop has counted stands in for the reason it decides. */
  method RunStage(stage: Stage, p: Package, limits: Limits) returns (blockers: seq<Blocker>)
    ensures blockers == Raised(stage, p, limits)
  {
    var found := Reasons(stage, p, limits);
    match stage {
      case Promoted =>
        var offending := PromotionFinding(p, limits);
        found := found[0 := offending];
      case Labels =>
        var share := AuditDuplicates.DuplicateShareBlocks(GroupCells(p.events), limits.maxShare);
        found := found[0 := share];
      case Sampling =>
        var notIndependent, pending, mismatch := SamplingFindings(p);
        found := [notIndependent, pending, mismatch] + found[3..];
      case Evidence =>
        var missing := CountMissingOos(p.experiments);
        found := found[0 := p.experiments != [] && missing == |p.experiments|];
      case Contract =>
        var passed, exempt, notPassed;
        blockers, passed, exempt, notPassed := ScientificContractStatus(p, limits);
        return;
      case _ =>
    }
    assert found == Reasons(stage, p, limits);
    blockers := Raise(Of(stage), found);
  }

  const STAGES: seq<Stage> := [Inventory, Promoted, Lookahead, Labels, Sampling, Evidence, Contract]

  function Joined(parts: seq<seq<Blocker>>): seq<Blocker> {
    if parts == [] then [] else Joined(parts[..|parts| - 1]) + parts[|parts| - 1]
  }

  function Sections(stages: seq<Stage>, p: Package, limits: Limits): (r: seq<seq<Blocker>>)
    ensures |r| == |stages|
  {
    seq(|stages|, i requires 0 <= i < |stages| => Raised(stages[i], p, limits))
  }

  /** All blockers of a package in the order of the report. */
  function Report(stages: seq<Stage>, p: Package, limits: Limits): seq<Blocker> {
    Joined(Sections(stages, p, limits))
  }

  function Blockers(p: Package, limits: Limits): seq<Blocker> {
    Report(STAGES, p, limits)
  }

  lemma JoinedOneMore(parts: seq<seq<Blocker>>, k: nat)
    requires k < |parts|
    ensures Joined(parts[..k + 1]) == Joined(parts[..k]) + parts[k]
  {
    assert parts[..k + 1][..k] == parts[..k];
  }

  method Evaluate(p: Package, limits: Limits) returns (blockers: seq<Blocker>)
    ensures blockers == Blockers(p, limits)
  {
    blockers := [];
    ghost var parts := Sections(STAGES, p, limits);
    for k := 0 to |STAGES|
      invariant blockers == Joined(parts[..k])
    {
      JoinedOneMore(parts, k);
      var more := RunStage(STAGES[k], p, limits);
      blockers := blockers + more;
    }
    assert parts[..|STAGES|] == parts;
  }

  // ----- what an unblocked package guarantees

  /** None of a stage's reasons holds. */
  ghost predicate Clear(stage: Stage, p: Package, limits: Limits) {
    forall i :: 0 <= i < |Of(stage)| ==> !Reasons(stage, p, limits)[i]
  }

  lemma {:induction false} NothingRaisedIff(asked: seq<Blocker>, found: seq<bool>)
    requires |asked| == |found|
    ensures Raise(asked, found) == [] <==> forall i :: 0 <= i < |found| ==> !found[i]
  {
    if asked != [] {
      var n := |asked| - 1;
      NothingRaisedIff(asked[..n], found[..n]);
      assert found == found[..n] + [found[n]];
    }
  }

  lemma NothingRaised(stage: Stage, p: Package, limits: Limits)
    ensures Raised(stage, p, limits) == [] <==> Clear(stage, p, limits)
  {
    NothingRaisedIff(Of(stage), Reasons(stage, p, limits));
  }

  lemma {:induction false} JoinedEmptyIff(parts: seq<seq<Blocker>>)
    ensures Joined(parts) == [] <==> forall i :: 0 <= i < |parts| ==> parts[i] == []
  {
    if parts != [] {
      var n := |parts| - 1;
      JoinedEmptyIff(parts[..n]);
      assert parts == parts[..n] + [parts[n]];
    }
  }

  /** The gate reports nothing if and only if no reason holds, at any of the stages. */
  lemma SilentIff(stages: seq<Stage>, p: Package, limits: Limits)
    ensures Report(stages, p, limits) == [] <==> forall stage :: stage in stages ==> Clear(stage, p, limits)
    ensures Report(stages, p, limits) == [] <==> forall stage :: stage in stages ==> Raised(stage, p, limits) == []
  {
    var parts := Sections(stages, p, limits);
    JoinedEmptyIff(parts);
    assert forall i :: 0 <= i < |stages| ==> parts[i] == Raised(stages[i], p, limits);
    forall stage
      ensures Raised(stage, p, limits) == [] <==> Clear(stage, p, limits)
    {
      NothingRaised(stage, p, limits);
    }
  }

  lemma SilentAt(stage: Stage, p: Package, limits: Limits)
    requires Blockers(p, limits) == []
    ensures Clear(stage, p, limits) && Raised(stage, p, limits) == []
  {
    SilentIff(STAGES, p, limits);
    assert stage in STAGES;
  }

  lemma TablesNotEmpty(p: Package, limits: Limits)
    requires Clear(Inventory, p, limits)
    ensures p.catalog != [] && p.events != [] && p.trades != [] && p.fillIds != []
  {
    var r := Reasons(Inventory, p, limits);
    assert !r[0] && !r[1] && !r[2] && !r[3];
  }

  lemma SilentAboutEvents(p: Package, limits: Limits)
    requires Clear(Lookahead, p, limits) && Clear(Sampling, p, limits)
    ensures forall e :: e in p.events ==> e.verdict == Verified && e.complete
    ensures (exists e :: e in p.events && e.namesRegime) && (exists e :: e in p.events && e.namesSector)
  {
    var looks, samples := Reasons(Lookahead, p, limits), Reasons(Sampling, p, limits);
    assert !looks[0] && !looks[1];
    assert !samples[0] && !samples[3] && !samples[4];
  }

  /** None of the three parts of the contract has a reason. */
  lemma ContractClear(p: Package, limits: Limits)
    requires Raised(Contract, p, limits) == []
    ensures forall k :: 0 <= k < 6 ==> !DiscoveryReasons(p)[k]
    ensures forall k :: 0 <= k < 5 ==> !RegistryReasons(p)[k]
    ensures forall k :: 0 <= k < 3 ==> !ExecutionReasons(p)[k]
    ensures ReplayCount(p.experiments, Missing) == 0 && ReplayCount(p.experiments, NotPassed) == 0
  {
    NothingRaised(Contract, p, limits);
    var r, d, g, e := Reasons(Contract, p, limits), DiscoveryReasons(p), RegistryReasons(p), ExecutionReasons(p);
    PartsFalse(d, g, e);
    assert !d[2] && !d[3];
    NoReplayIff(p.experiments, Missing);
    NoReplayIff(p.experiments, NotPassed);
  }

  lemma PartsFalse(a: seq<bool>, b: seq<bool>, c: seq<bool>)
    requires forall i :: 0 <= i < |a| + |b| + |c| ==> !(a + b + c)[i]
    ensures forall k :: 0 <= k < |a| ==> !a[k]
    ensures forall k :: 0 <= k < |b| ==> !b[k]
    ensures forall k :: 0 <= k < |c| ==> !c[k]
  {
    var r := a + b + c;
    assert forall k :: 0 <= k < |a| ==> a[k] == r[k];
    assert forall k :: 0 <= k < |b| ==> b[k] == r[|a| + k];
    assert forall k :: 0 <= k < |c| ==> c[k] == r[|a| + |b| + k];
  }

  lemma SilentAboutReplays(p: Package, limits: Limits)
    requires Raised(Contract, p, limits) == []
    ensures forall x :: x in p.experiments ==>
              x.hasLedgerHash && x.replay in {Passed, Exempt} && x.edge == Undemonstrated
  {
    ContractClear(p, limits);
    var r := DiscoveryReasons(p);
    assert !r[1] && !r[2] && !r[3] && !r[4] && !r[5];
  }

  lemma SilentAboutRegistry(p: Package, limits: Limits)
    requires Raised(Contract, p, limits) == []
    ensures forall x :: x in p.experiments ==> x.hasRegistryHash && x.hasRunManifest && !x.chainBroken && !x.degrades
  {
    ContractClear(p, limits);
    var r := RegistryReasons(p);
    assert !r[0] && !r[2] && !r[3] && !r[4];
  }

  lemma SilentAboutTrades(p: Package, limits: Limits)
    requires Raised(Contract, p, limits) == []
    ensures forall t :: t in p.trades ==> t.costed && t.hasSlippage && (t.id != "" ==> t.id in p.fillIds)
  {
    ContractClear(p, limits);
    var r := ExecutionReasons(p);
    assert !r[0] && !r[1] && !r[2];
    assert forall t :: t in p.trades ==> !Unfilled(t, p.fillIds);
  }

  lemma SilentAboutPromotions(p: Package, limits: Limits)
    requires Clear(Promoted, p, limits)
    ensures forall m :: m in p.metrics && Is(Statuses(p.catalog), m.patternId, Promotion) ==>
              m.trades >= limits.minTrades
  {
    assert !Reasons(Promoted, p, limits)[0];
    assert forall m :: m in p.metrics ==> !TooFewTrades(m, Statuses(p.catalog), limits);
  }

  // ----- what that says about the rows themselves

  /** A repeated id has the standing of its last row. */
  lemma {:induction false} LastRowDecides(catalog: seq<Pattern>, k: nat)
    requires k < |catalog| && forall j :: k < j < |catalog| ==> catalog[j].id != catalog[k].id
    ensures Statuses(catalog)[catalog[k].id] == catalog[k].standing
  {
    var n := |catalog| - 1;
    if k < n {
      LastRowDecides(catalog[..n], k);
    }
  }

  ghost predicate SoundEventRow(row: Row) {
    Word(row, "is_independent_sample") == "true" && Complete(row, LOOKAHEAD)
  }

  ghost predicate SoundExperimentRow(row: Row) {
    && ReplayOf(row) in {Passed, Exempt} && Cell(row, "edge_claim") == "NO_DEMOSTRADO"
    && Cell(row, "event_ledger_hash") != "" && Cell(row, "registry_hash") != ""
    && Cell(row, "registry_run_manifest_hash") != ""
    && Word(row, "drift_status") !in {"degrading", "regressing", "deteriorating"}
    && (Get(row, "registry_hash_chain_valid") != "" ==> Truthy(row, "registry_hash_chain_valid"))
  }

  /** Costed, and if the trade has an id, some fill row carries it. */
  ghost predicate SoundTradeRow(row: Row, fills: seq<Row>) {
    && Cell(row, "commission") != "" && Cell(row, "estimated_spread_cost") != ""
    && Cell(row, "estimated_slippage") != ""
    && (Cell(row, "trade_id") != "" ==>
          exists k :: 0 <= k < |fills| && Cell(fills[k], "trade_id") == Cell(row, "trade_id"))
  }

  function GroupLabel(row: Row): string {
    Cell(row, "duplicate_group_id")
  }

  /** No label in the duplicate_group_id column occurs on two rows. */
  ghost predicate NoDuplicates(events: seq<Row>) {
    forall i, j :: 0 <= i < j < |events| && GroupLabel(events[i]) == GroupLabel(events[j]) ==>
      GroupLabel(events[i]) == ""
  }

  ghost predicate SomeRowNames(events: seq<Row>, column: string) {
    exists i :: 0 <= i < |events| && NamesSomething(events[i], column)
  }

  ghost predicate SoundRows(t: Tables) {
    && t.catalog != [] && t.events != [] && t.trades != [] && t.fills != []
    && (forall i :: 0 <= i < |t.events| ==> SoundEventRow(t.events[i]))
    && (forall i :: 0 <= i < |t.experiments| ==> SoundExperimentRow(t.experiments[i]))
    && (forall i :: 0 <= i < |t.trades| ==> SoundTradeRow(t.trades[i], t.fills))
    && NoDuplicates(t.events)
    && SomeRowNames(t.events, "market_regime") && SomeRowNames(t.events, "sector")
  }

  lemma SomeRowNamesIt(events: seq<Row>, column: string, i: nat)
    requires i < |events| && NamesSomething(events[i], column)
    ensures SomeRowNames(events, column)
  {
  }

  lemma SomeEventNames(rows: seq<Row>, events: seq<Event>)
    requires |events| == |rows| && forall i :: 0 <= i < |events| ==> events[i] == EventOf(rows[i])
    ensures (exists e :: e in events && e.namesRegime) ==> SomeRowNames(rows, "market_regime")
    ensures (exists e :: e in events && e.namesSector) ==> SomeRowNames(rows, "sector")
  {
    if e :| e in events && e.namesRegime {
      var i: nat :| i < |events| && events[i] == e;
      SomeRowNamesIt(rows, "market_regime", i);
    }
    if e :| e in events && e.namesSector {
      var i: nat :| i < |events| && events[i] == e;
      SomeRowNamesIt(rows, "sector", i);
    }
  }

  lemma SoundEventRows(t: Tables, number: Reader, limits: Limits)
    ensures Blockers(Read(t, number), limits) == [] ==>
              forall i :: 0 <= i < |t.events| ==> SoundEventRow(t.events[i])
  {
    var p := Read(t, number);
    if Blockers(p, limits) == [] {
      SilentAt(Lookahead, p, limits);
      SilentAt(Sampling, p, limits);
      SilentAboutEvents(p, limits);
    }
  }

  lemma NamingRows(t: Tables, number: Reader, limits: Limits)
    ensures Blockers(Read(t, number), limits) == [] ==>
              SomeRowNames(t.events, "market_regime") && SomeRowNames(t.events, "sector")
  {
    var p := Read(t, number);
    if Blockers(p, limits) == [] {
      SilentAt(Lookahead, p, limits);
      SilentAt(Sampling, p, limits);
      SilentAboutEvents(p, limits);
      SomeEventNames(t.events, Map(t.events, EventOf));
    }
  }

  lemma SoundExperimentRows(t: Tables, number: Reader, limits: Limits)
    ensures Blockers(Read(t, number), limits) == [] ==>
              forall i :: 0 <= i < |t.experiments| ==> SoundExperimentRow(t.experiments[i])
  {
    var p := Read(t, number);
    if Blockers(p, limits) == [] {
      SilentAt(Contract, p, limits);
      SilentAboutReplays(p, limits);
      SilentAboutRegistry(p, limits);
      forall i | 0 <= i < |t.experiments|
        ensures SoundExperimentRow(t.experiments[i])
      {
        assert p.experiments[i] in p.experiments && p.experiments[i] == ExperimentOf(t.experiments[i]);
      }
    }
  }

  lemma SoundTradeRows(t: Tables, number: Reader, limits: Limits)
    ensures Blockers(Read(t, number), limits) == [] ==>
              forall i :: 0 <= i < |t.trades| ==> SoundTradeRow(t.trades[i], t.fills)
  {
    var p := Read(t, number);
    if Blockers(p, limits) == [] {
      SilentAt(Contract, p, limits);
      SilentAboutTrades(p, limits);
      forall i | 0 <= i < |t.trades|
        ensures SoundTradeRow(t.trades[i], t.fills)
      {
        assert p.trades[i] in p.trades && p.trades[i] == TradeOf(t.trades[i]);
        if p.trades[i].id != "" {
          var k :| 0 <= k < |p.fillIds| && p.fillIds[k] == p.trades[i].id;
        }
      }
    }
  }

  lemma NoShareMeansDistinct(events: seq<Event>)
    requires DuplicateShare(events) <= 0.0
    ensures AuditDuplicates.PairwiseDistinct(AuditDuplicates.Labels(GroupCells(events)))
  {
    var labels := AuditDuplicates.Labels(GroupCells(events));
    AuditDuplicates.NoneRepeatIff(labels);
    if events != [] {
      AuditDuplicates.ShareIsZeroIff(|AuditDuplicates.RepeatedRows(labels)|, |events|);
    }
  }

  lemma NoDuplicateRows(t: Tables, number: Reader, limits: Limits)
    ensures limits.maxShare == 0.0 && Blockers(Read(t, number), limits) == [] ==> NoDuplicates(t.events)
  {
    var p := Read(t, number);
    if limits.maxShare == 0.0 && Blockers(p, limits) == [] {
      SilentAt(Labels, p, limits);
      assert !Reasons(Labels, p, limits)[0];
      NoShareMeansDistinct(p.events);
      var labels := AuditDuplicates.Labels(GroupCells(p.events));
      assert forall i :: 0 <= i < |t.events| ==> labels[i] == GroupLabel(t.events[i]);
    }
  }

  /** Gate soundness, at the default duplicate share of zero: no blocker, then sound rows. */
  lemma GateSoundness(t: Tables, number: Reader, limits: Limits)
    ensures limits.maxShare == 0.0 && Blockers(Read(t, number), limits) == [] ==> SoundRows(t)
  {
    if limits.maxShare == 0.0 && Blockers(Read(t, number), limits) == [] {
      SilentAt(Inventory, Read(t, number), limits);
      TablesNotEmpty(Read(t, number), limits);
      SoundEventRows(t, number, limits);
      SoundExperimentRows(t, number, limits);
      SoundTradeRows(t, number, limits);
      NoDuplicateRows(t, number, limits);
      NamingRows(t, number, limits);
    }
  }
}
