/**
  The account part of the lab paper probe: ask the broker which accounts it manages, make the
  .env file name the single paper account, parse the file again and gate on the result.
  */
module AccountGate {
  import opened Wrappers
  import opened PyText
  import opened EnvFile

  const ACCOUNT := "TRADEO_IBKR_ACCOUNT"
  const PORT := "TRADEO_IBKR_PORT"
  const MODE := "TRADEO_TRADING_MODE"

  const LIVE_PORTS: set<int> := {4001, 7496}
  const PAPER_PORTS: set<int> := {4002, 7497, 14002}

  datatype Blocker =
    | TradingModeNotPaper
    | LivePortConfigured
    | PaperPortNotRecognized
    | ManagedAccountsEmpty
    | ManagedAccountsAmbiguous
    | ManagedAccountNotDuPaper
    | ManagedAccountMissing
    | ConnectionFailed
    | AccountAmbiguousOrMissing
    | ConfiguredAccountNotManaged
    | AccountNotDuPaper

  /** What the world answers: how int() reads a string, and the broker's accounts if it connects. */
  datatype Broker = Broker(parseInt: string -> Option<int>, accounts: Option<seq<string>>)

  datatype Probe = Probe(pass: bool, blockers: seq<Blocker>, accounts: seq<string>)

  datatype Gate = Gate(pass: bool, blockers: seq<Blocker>)

  datatype Status = Pass | Fixed | BlockedStatus

  datatype Cause = AccountMatch | ConfigAccountMismatch | AccountAmbiguous | SessionWrongAccount

  datatype Reconciliation = Reconciliation(
    status: Status,
    cause: Cause,
    blockers: seq<Blocker>,
    changedKeys: seq<string>)

  function Value(env: Env, key: string, default: string): string {
    Strip(if key in env then env[key] else default)
  }

  /** No character but A to Z lowers to a letter of "paper". */
  predicate IsPaperMode(mode: string) {
    LowerCase(mode) == "paper"
  }

  /** account.upper().startswith("DU"); no other character raises to D or U. */
  predicate IsDu(account: string) {
    |account| >= 2 && account[0] in "Dd" && account[1] in "Uu"
  }

  function OrZero(s: string): string {
    if s == "" then "0" else s
  }

  function ConfigurationBlockers(paperMode: bool, port: int): seq<Blocker> {
    (if paperMode then [] else [TradingModeNotPaper])
    + (if port in LIVE_PORTS then [LivePortConfigured] else [])
    + (if port !in PAPER_PORTS then [PaperPortNotRecognized] else [])
  }

  function AccountBlockers(accounts: seq<string>): seq<Blocker> {
    (if |accounts| == 0 then [ManagedAccountsEmpty] else [])
    + (if |accounts| > 1 then [ManagedAccountsAmbiguous] else [])
    + (if |accounts| == 1 && !IsDu(accounts[0]) then [ManagedAccountNotDuPaper] else [])
  }

  /** None when the port is not an integer: the exception is not caught. */
  function ManagedAccountProbe(env: Env, broker: Broker): Option<Probe> {
    match broker.parseInt(OrZero(Value(env, PORT, "7497")))
    case None => None
    case Some(port) =>
      var configured := ConfigurationBlockers(IsPaperMode(Value(env, MODE, "paper")), port);
      if configured != [] then Some(Probe(false, configured, []))
      else
        match broker.accounts
        case None => Some(Probe(false, [ConnectionFailed], []))
        case Some(accounts) =>
          var blockers := AccountBlockers(accounts);
          Some(Probe(blockers == [], blockers, accounts))
  }

  /** The probe passes exactly for a paper configuration and a broker with one DU account. */
  lemma ProbePassesIff(env: Env, broker: Broker)
    ensures var r := ManagedAccountProbe(env, broker);
            (r.Some? && r.value.pass)
            <==> && IsPaperMode(Value(env, MODE, "paper"))
                 && broker.parseInt(OrZero(Value(env, PORT, "7497"))).Some?
                 && broker.parseInt(OrZero(Value(env, PORT, "7497"))).value in PAPER_PORTS
                 && broker.accounts.Some? && |broker.accounts.value| == 1 && IsDu(broker.accounts.value[0])
    ensures var r := ManagedAccountProbe(env, broker);
            r.Some? && r.value.pass ==> r.value.accounts == broker.accounts.value && r.value.blockers == []
  {
  }

  function NameBlockers(configured: string, accounts: seq<string>): seq<Blocker> {
    if configured == "" then [AccountAmbiguousOrMissing]
    else if configured !in accounts then [ConfiguredAccountNotManaged]
    else if !IsDu(configured) then [AccountNotDuPaper]
    else []
  }

  function PaperAccountGate(env: Env, broker: Broker): Option<Gate> {
    match ManagedAccountProbe(env, broker)
    case None => None
    case Some(managed) =>
      var configured := Value(env, ACCOUNT, "");
      var blockers := managed.blockers + if managed.pass then NameBlockers(configured, managed.accounts) else [];
      Some(Gate(managed.pass && blockers == [], blockers))
  }

  // ----- the same in terms of the file's values and the broker's answer

  ghost function Entry(env: Env, key: string, default: string): string {
    Strip(if key in env then env[key] else default)
  }

  ghost function ConfiguredAccount(env: Env): string {
    Entry(env, "TRADEO_IBKR_ACCOUNT", "")
  }

  /** The configured port, 7497 when there is none; None if it is not an integer. */
  ghost function PortOf(env: Env, broker: Broker): Option<int> {
    var text := Entry(env, "TRADEO_IBKR_PORT", "7497");
    broker.parseInt(if text == "" then "0" else text)
  }

  /** paper, in any case. */
  ghost predicate PaperConfigured(env: Env) {
    var mode := Entry(env, "TRADEO_TRADING_MODE", "paper");
    |mode| == 5 && Either(mode[0], 'p', 'P') && Either(mode[1], 'a', 'A') && Either(mode[2], 'p', 'P')
    && Either(mode[3], 'e', 'E') && Either(mode[4], 'r', 'R')
  }

  ghost predicate Either(c: char, lower: char, upper: char) {
    c == lower || c == upper
  }

  ghost predicate IsPaperAccount(account: string) {
    |account| >= 2 && Either(account[0], 'd', 'D') && Either(account[1], 'u', 'U')
  }

  ghost predicate ConfigurationOk(env: Env, broker: Broker) {
    PaperConfigured(env) && PortOf(env, broker).Some? && PortOf(env, broker).value in {4002, 7497, 14002}
  }

  /** What the probe finds: the broker is asked only once mode and port are in order. */
  ghost predicate IsFound(b: Blocker, env: Env, broker: Broker) {
    match b
    case TradingModeNotPaper => !PaperConfigured(env)
    case LivePortConfigured => PortOf(env, broker) == Some(4001) || PortOf(env, broker) == Some(7496)
    case PaperPortNotRecognized => PortOf(env, broker).Some? && PortOf(env, broker).value !in {4002, 7497, 14002}
    case ConnectionFailed => ConfigurationOk(env, broker) && broker.accounts.None?
    case ManagedAccountsEmpty => ConfigurationOk(env, broker) && broker.accounts == Some([])
    case ManagedAccountsAmbiguous =>
      ConfigurationOk(env, broker) && broker.accounts.Some? && |broker.accounts.value| > 1
    case ManagedAccountNotDuPaper =>
      && ConfigurationOk(env, broker) && broker.accounts.Some? && |broker.accounts.value| == 1
      && !IsPaperAccount(broker.accounts.value[0])
    case _ => false
  }

  lemma PaperLetters(mode: string)
    ensures IsPaperMode(mode) <==>
              |mode| == 5 && Either(mode[0], 'p', 'P') && Either(mode[1], 'a', 'A') && Either(mode[2], 'p', 'P')
              && Either(mode[3], 'e', 'E') && Either(mode[4], 'r', 'R')
  {
    var lower := LowerCase(mode);
    if |mode| == 5 {
      assert lower == [lower[0], lower[1], lower[2], lower[3], lower[4]];
      assert "paper" == ['p', 'a', 'p', 'e', 'r'];
    }
  }

  lemma DuLetters(account: string)
    ensures IsDu(account) <==> IsPaperAccount(account)
  {
  }

  lemma ReadAlike(env: Env, broker: Broker)
    ensures IsPaperMode(Value(env, MODE, "paper")) <==> PaperConfigured(env)
    ensures broker.parseInt(OrZero(Value(env, PORT, "7497"))) == PortOf(env, broker)
  {
    PaperLetters(Entry(env, "TRADEO_TRADING_MODE", "paper"));
  }

  ghost predicate AgreesWith(r: Option<Probe>, env: Env, broker: Broker, b: Blocker) {
    && (r.None? <==> PortOf(env, broker).None?)
    && (r.Some? ==> (b in r.value.blockers <==> IsFound(b, env, broker)))
  }

  lemma ConfigurationFinds(paperMode: bool, port: int, b: Blocker)
    ensures var found := ConfigurationBlockers(paperMode, port);
            && (b in found <==>
                  || (b == TradingModeNotPaper && !paperMode)
                  || (b == LivePortConfigured && (port == 4001 || port == 7496))
                  || (b == PaperPortNotRecognized && port !in {4002, 7497, 14002}))
            && (found == [] <==> paperMode && port in {4002, 7497, 14002})
  {
  }

  lemma AccountsFind(accounts: seq<string>, b: Blocker)
    ensures var found := AccountBlockers(accounts);
            && (b in found <==>
                  || (b == ManagedAccountsEmpty && accounts == [])
                  || (b == ManagedAccountsAmbiguous && |accounts| > 1)
                  || (b == ManagedAccountNotDuPaper && |accounts| == 1 && !IsPaperAccount(accounts[0])))
            && (found == [] <==> |accounts| == 1 && IsPaperAccount(accounts[0]))
  {
    if |accounts| == 1 {
      DuLetters(accounts[0]);
    }
  }

  lemma MisconfiguredFinds(env: Env, broker: Broker, b: Blocker)
    requires !ConfigurationOk(env, broker)
    ensures var r := ManagedAccountProbe(env, broker);
            && AgreesWith(r, env, broker, b)
            && (r.Some? ==> !r.value.pass && r.value.blockers != [] && r.value.accounts == [])
  {
    ReadAlike(env, broker);
    if PortOf(env, broker).Some? {
      ConfigurationFinds(PaperConfigured(env), PortOf(env, broker).value, b);
    }
  }

  lemma ConfiguredFinds(env: Env, broker: Broker, b: Blocker)
    requires ConfigurationOk(env, broker)
    ensures var r := ManagedAccountProbe(env, broker);
            && AgreesWith(r, env, broker, b) && r.Some? && (r.value.pass <==> r.value.blockers == [])
            && r.value.accounts == if broker.accounts.Some? then broker.accounts.value else []
  {
    ReadAlike(env, broker);
    ConfigurationFinds(PaperConfigured(env), PortOf(env, broker).value, b);
    if broker.accounts.Some? {
      AccountsFind(broker.accounts.value, b);
    }
  }

  /** No probe for a port that is not an integer; otherwise its blockers are those found, and it passes without any. */
  lemma ProbeFinds(env: Env, broker: Broker, b: Blocker)
    ensures var r := ManagedAccountProbe(env, broker);
            && AgreesWith(r, env, broker, b)
            && (r.Some? ==>
                  && (r.value.pass <==> r.value.blockers == [])
                  && r.value.accounts ==
                     if ConfigurationOk(env, broker) && broker.accounts.Some? then broker.accounts.value else [])
  {
    if ConfigurationOk(env, broker) {
      ConfiguredFinds(env, broker, b);
    } else {
      MisconfiguredFinds(env, broker, b);
    }
  }

  /** The gate repeats the probe on the parsed file and adds what is wrong with the account named there. */
  lemma GateFinds(env: Env, broker: Broker, b: Blocker)
    ensures var g := PaperAccountGate(env, broker);
            && (g.None? <==> PortOf(env, broker).None?)
            && (g.Some? ==>
                  && (g.value.pass <==> g.value.blockers == [])
                  && (b in g.value.blockers <==> IsFound(b, env, broker) || IsMisnamed(b, env, broker)))
  {
    if PaperReady(env, broker) {
      GateWhenReady(env, broker);
      NameFinds(ConfiguredAccount(env), broker.accounts.value[0], b);
      NothingFoundWhenReady(env, broker, b);
    } else {
      GateOtherwise(env, broker);
      ProbeFinds(env, broker, b);
    }
  }

  lemma NothingFoundWhenReady(env: Env, broker: Broker, b: Blocker)
    requires PaperReady(env, broker)
    ensures !IsFound(b, env, broker) && PortOf(env, broker).Some?
  {
  }

  lemma GateWhenReady(env: Env, broker: Broker)
    requires PaperReady(env, broker)
    ensures var found := NameBlockers(ConfiguredAccount(env), [broker.accounts.value[0]]);
            PaperAccountGate(env, broker) == Some(Gate(found == [], found))
  {
    PassesWhenReady(env, broker);
    ProbePassesIff(env, broker);
    assert broker.accounts.value == [broker.accounts.value[0]];
    NothingAdded(NameBlockers(ConfiguredAccount(env), broker.accounts.value));
  }

  lemma NothingAdded(blockers: seq<Blocker>)
    ensures [] + blockers == blockers == blockers + []
  {
  }

  lemma GateOtherwise(env: Env, broker: Broker)
    requires !PaperReady(env, broker)
    ensures var r := ManagedAccountProbe(env, broker);
            PaperAccountGate(env, broker) == if r.None? then None else Some(Gate(false, r.value.blockers))
  {
    PassesWhenReady(env, broker);
    var r := ManagedAccountProbe(env, broker);
    if r.Some? {
      NothingAdded(r.value.blockers);
    }
  }

  lemma PassesWhenReady(env: Env, broker: Broker)
    ensures var r := ManagedAccountProbe(env, broker); r.Some? && r.value.pass <==> PaperReady(env, broker)
  {
    ProbePassesIff(env, broker);
    ReadAlike(env, broker);
    if broker.accounts.Some? && |broker.accounts.value| == 1 {
      DuLetters(broker.accounts.value[0]);
    }
  }

  lemma NameFinds(configured: string, account: string, b: Blocker)
    requires IsPaperAccount(account)
    ensures var found := NameBlockers(configured, [account]);
            && (found == [] <==> configured == account)
            && (b in found <==>
                  || (b == AccountAmbiguousOrMissing && configured == "")
                  || (b == ConfiguredAccountNotManaged && configured != "" && configured != account))
  {
    DuLetters(account);
  }

  /** Mode and port are in order and the broker manages one paper account. */
  ghost predicate PaperReady(env: Env, broker: Broker) {
    && ConfigurationOk(env, broker) && broker.accounts.Some? && |broker.accounts.value| == 1
    && IsPaperAccount(broker.accounts.value[0])
  }

  /** What is wrong with the account named, once the probe passes: none is, or not the one managed. */
  ghost predicate IsMisnamed(b: Blocker, env: Env, broker: Broker) {
    && PaperReady(env, broker)
    && match b
       case AccountAmbiguousOrMissing => ConfiguredAccount(env) == ""
       case ConfiguredAccountNotManaged =>
         ConfiguredAccount(env) != "" && ConfiguredAccount(env) != broker.accounts.value[0]
       case _ => false
  }

  ghost predicate GatePasses(env: Env, broker: Broker) {
    PaperAccountGate(env, broker).Some? && PaperAccountGate(env, broker).value.pass
  }

  /** The gate passes exactly when the probe does and the file names its one account. */
  lemma GatePassesIff(env: Env, broker: Broker)
    ensures GatePasses(env, broker)
       <==> && ManagedAccountProbe(env, broker).Some? && ManagedAccountProbe(env, broker).value.pass
            && [Value(env, ACCOUNT, "")] == ManagedAccountProbe(env, broker).value.accounts
  {
    ProbePassesIff(env, broker);
  }

  function Parsed(content: Option<string>): Env {
    if content.None? then map[] else ParseText(content.value)
  }

  /** The .env file and the copy made before it is rewritten. */
  class EnvStore {
    var content: Option<string>
    var backup: Option<string>

    constructor (content: Option<string>)
      ensures this.content == content && backup == None
    {
      this.content := content;
      backup := None;
    }

    /** Returns false when there is no file to read. */
    method SetEnvValue(key: string, value: string) returns (ok: bool)
      requires IsKey(key)
      modifies this`content
      ensures ok <==> old(content).Some?
      ensures content == if ok then Some(SetText(old(content).value, key, value)) else None
    {
      if content.None? {
        return false;
      }
      var output := RewriteLines(LinesOf(content.value), key, value);
      content := Some(JoinLines(output));
      ok := true;
    }

    method ParseEnv() returns (env: Env)
      ensures env == Parsed(content)
    {
      env := map[];
      if content.None? {
        return;
      }
      var lines := LinesOf(content.value);
      for i := 0 to |lines|
        invariant env == ParseLines(lines[..i])
      {
        ParseOneMore(lines, i);
        var binding := ParseLine(lines[i]);
        if binding.Some? {
          env := env[binding.value.0 := binding.value.1];
        }
      }
      assert lines[..|lines|] == lines;
    }

    /** None when copying the file for the backup fails because it is not there. */
    method ReconcileAccount(env: Env, probe: Probe) returns (r: Option<Reconciliation>)
      modifies this
      ensures var fixable := CanBeFixed(env, probe);
              && (r.None? <==> fixable && old(content).None?)
              && (r == Some(Reconciliation(Fixed, ConfigAccountMismatch, [], ["TRADEO_IBKR_ACCOUNT"]))
                  <==> fixable && old(content).Some?)
              && (r == Some(Reconciliation(Pass, AccountMatch, [], [])) <==> AccountAgrees(env, probe))
              && (r.Some? && r.value.status.BlockedStatus? <==> !fixable && !AccountAgrees(env, probe))
      ensures r.Some? && r.value.status.BlockedStatus? ==> IsBlocked(r.value, probe)
      // only a fix touches the file, and it keeps a copy
      ensures CanBeFixed(env, probe) && old(content).Some? ==>
                && content == Some(SetText(old(content).value, "TRADEO_IBKR_ACCOUNT", probe.accounts[0]))
                && backup == old(content)
      ensures !(CanBeFixed(env, probe) && old(content).Some?) ==> content == old(content) && backup == old(backup)
    {
      if |probe.accounts| == 1 {
        DuLetters(probe.accounts[0]);
      }
      var configured := Value(env, ACCOUNT, "");
      if !probe.pass {
        var cause := if ManagedAccountsAmbiguous in probe.blockers then AccountAmbiguous else SessionWrongAccount;
        return Some(Reconciliation(BlockedStatus, cause, probe.blockers, []));
      }
      var managed := if |probe.accounts| == 1 then probe.accounts[0] else "";
      var blockers: seq<Blocker> := [];
      if managed == "" {
        blockers := blockers + [ManagedAccountMissing];
      } else if configured == managed {
        return Some(Reconciliation(Pass, AccountMatch, [], []));
      } else if !IsDu(managed) {
        blockers := blockers + [ManagedAccountNotDuPaper];
      }
      if blockers != [] {
        return Some(Reconciliation(BlockedStatus, AccountAmbiguous, blockers, []));
      }
      if content.None? {
        return None;
      }
      backup := content;
      AccountIsKey();
      var _ := SetEnvValue(ACCOUNT, managed);
      r := Some(Reconciliation(Fixed, ConfigAccountMismatch, [], [ACCOUNT]));
    }

    /** The order of the probe: parse, probe, reconcile, parse again, gate. None when it raises. */
    method RunAccountGate(broker: Broker) returns (r: Option<Reconciliation>, gate: Option<Gate>)
      modifies this
      ensures IsOutcome(r, Parsed(old(content)), broker, old(content).Some?)
      ensures r.Some? ==> gate == PaperAccountGate(Parsed(content), broker)
      ensures r.None? ==> gate.None?
      ensures r.None? || !r.value.status.Fixed? ==> content == old(content) && backup == old(backup)
      ensures r.Some? && r.value.status.Pass? ==> gate == Some(Gate(true, []))
      ensures r.Some? && r.value.status.Fixed? ==>
                && old(content).Some? && backup == old(content) && broker.accounts.Some? && |broker.accounts.value| == 1
                && content == Some(SetText(old(content).value, "TRADEO_IBKR_ACCOUNT", broker.accounts.value[0]))
                && (gate.Some? && gate.value.pass <==> Settable(old(content).value, broker.accounts.value[0]))
      ensures r.Some? && r.value.status.Fixed? && NoBreaks(broker.accounts.value[0]) ==>
                && Value(Parsed(content), PORT, "7497") == Value(Parsed(old(content)), PORT, "7497")
                && Value(Parsed(content), MODE, "paper") == Value(Parsed(old(content)), MODE, "paper")
    {
      OutcomeOf(Parsed(content), broker);
      var env := ParseEnv();
      var probe := ManagedAccountProbe(env, broker);
      if probe.None? {
        return None, None;
      }
      ProbePassesIff(env, broker);
      r := ReconcileAccount(env, probe.value);
      if r.None? {
        return None, None;
      }
      var reconciled := ParseEnv();
      gate := PaperAccountGate(reconciled, broker);
      if r.value.status.Pass? {
        GatePassesIff(env, broker);
      } else if r.value.status.Fixed? {
        GateAfterFixIff(old(content).value, broker);
        KeepsPortAndMode(old(content).value, broker.accounts.value[0]);
      }
    }
  }

  // ----- which way the reconciliation goes

  ghost predicate OneAccount(probe: Probe) {
    |probe.accounts| == 1 && probe.accounts[0] != ""
  }

  ghost predicate AccountAgrees(env: Env, probe: Probe) {
    probe.pass && OneAccount(probe) && ConfiguredAccount(env) == probe.accounts[0]
  }

  /** The file names another account than the one paper account there is. */
  ghost predicate CanBeFixed(env: Env, probe: Probe) {
    && probe.pass && OneAccount(probe)
    && ConfiguredAccount(env) != probe.accounts[0] && IsPaperAccount(probe.accounts[0])
  }

  /** The cause and the blockers of a refusal. */
  ghost predicate IsBlocked(r: Reconciliation, probe: Probe) {
    && r.changedKeys == []
    && (!probe.pass ==> r.blockers == probe.blockers
                        && r.cause == if ManagedAccountsAmbiguous in probe.blockers then AccountAmbiguous
                                      else SessionWrongAccount)
    && (probe.pass ==> r.cause == AccountAmbiguous
                       && r.blockers == [if OneAccount(probe) then ManagedAccountNotDuPaper else ManagedAccountMissing])
  }

  /** What the run decides, given the values of the file, the broker's answer and whether there is a file. */
  ghost predicate IsOutcome(r: Option<Reconciliation>, env: Env, broker: Broker, isFile: bool) {
    if PortOf(env, broker).None? then r.None?
    else if !PaperReady(env, broker) then
      && r.Some? && r.value.status.BlockedStatus? && r.value.changedKeys == []
      && (forall b :: b in r.value.blockers <==> IsFound(b, env, broker))
      && r.value.cause ==
         if IsFound(ManagedAccountsAmbiguous, env, broker) then AccountAmbiguous else SessionWrongAccount
    else if ConfiguredAccount(env) == broker.accounts.value[0] then
      r == Some(Reconciliation(Pass, AccountMatch, [], []))
    else if isFile then
      r == Some(Reconciliation(Fixed, ConfigAccountMismatch, [], ["TRADEO_IBKR_ACCOUNT"]))
    else
      r.None?
  }

  /** The probe of the run, whatever it finds. */
  lemma OutcomeOf(env: Env, broker: Broker)
    ensures var probe := ManagedAccountProbe(env, broker);
            && (probe.None? <==> PortOf(env, broker).None?)
            && (probe.Some? ==>
                  && (probe.value.pass <==> PaperReady(env, broker))
                  && (forall b :: b in probe.value.blockers <==> IsFound(b, env, broker))
                  && (PaperReady(env, broker) ==> probe.value.accounts == broker.accounts.value))
  {
    var probe := ManagedAccountProbe(env, broker);
    forall b
      ensures probe.Some? ==> (b in probe.value.blockers <==> IsFound(b, env, broker))
    {
      ProbeFinds(env, broker, b);
    }
    ProbeFinds(env, broker, ConnectionFailed);
    NothingFound(env, broker);
    if probe.Some? && probe.value.blockers != [] {
      assert probe.value.blockers[0] in probe.value.blockers;
    }
  }

  lemma SomethingFound(env: Env, broker: Broker) returns (b: Blocker)
    requires PortOf(env, broker).Some? && !PaperReady(env, broker)
    ensures IsFound(b, env, broker)
  {
    if !PaperConfigured(env) {
      b := TradingModeNotPaper;
    } else if !ConfigurationOk(env, broker) {
      b := PaperPortNotRecognized;
    } else if broker.accounts.None? {
      b := ConnectionFailed;
    } else if broker.accounts.value == [] {
      b := ManagedAccountsEmpty;
    } else if |broker.accounts.value| > 1 {
      b := ManagedAccountsAmbiguous;
    } else {
      b := ManagedAccountNotDuPaper;
    }
  }

  lemma NothingFound(env: Env, broker: Broker)
    ensures PortOf(env, broker).Some? ==>
              ((forall b :: !IsFound(b, env, broker)) <==> PaperReady(env, broker))
  {
    if PaperReady(env, broker) {
      forall b
        ensures !IsFound(b, env, broker)
      {
        NothingFoundWhenReady(env, broker, b);
      }
    } else if PortOf(env, broker).Some? {
      var b := SomethingFound(env, broker);
    }
  }

  lemma ParseOneMore(lines: seq<string>, i: nat)
    requires i < |lines|
    ensures var before, b := ParseLines(lines[..i]), ParseLine(lines[i]);
            ParseLines(lines[..i + 1]) == if b.Some? then before[b.value.0 := b.value.1] else before
  {
    var all := ParseAll(lines[..i + 1]);
    assert all[..i] == ParseAll(lines[..i]);
    assert |all| == i + 1 && all[i] == ParseLine(lines[i]);
  }

  /** The loop's state after i lines. */
  ghost predicate Rewritten(
      lines: seq<string>, i: nat, key: string, value: string, output: seq<string>, replaced: bool)
    requires i <= |lines|
  {
    output == SetEach(lines[..i], key, value) && (replaced <==> AnyMatch(lines[..i], key))
  }

  lemma RewriteOneMore(
      lines: seq<string>, i: nat, key: string, value: string, output: seq<string>, replaced: bool)
    requires i < |lines| && Rewritten(lines, i, key, value, output, replaced)
    ensures Matches(lines[i], key) ==>
              Rewritten(lines, i + 1, key, value, output + [MatchedPrefix(lines[i], key) + value], true)
    ensures !Matches(lines[i], key) ==> Rewritten(lines, i + 1, key, value, output + [lines[i]], replaced)
  {
    SetOneMore(lines, i, key, value);
    MatchOneMore(lines, i, key);
  }

  lemma RewriteDone(lines: seq<string>, key: string, value: string, output: seq<string>, replaced: bool)
    requires Rewritten(lines, |lines|, key, value, output, replaced)
    ensures SetLines(lines, key, value) == if replaced then output else output + [key + "=" + value]
  {
    assert lines[..|lines|] == lines;
  }

  /** The loop over the lines: every match is replaced, and without one a line is appended. */
  method RewriteLines(lines: seq<string>, key: string, value: string) returns (output: seq<string>)
    ensures output == SetLines(lines, key, value)
  {
    var replaced := false;
    output := [];
    for i := 0 to |lines|
      invariant Rewritten(lines, i, key, value, output, replaced)
    {
      RewriteOneMore(lines, i, key, value, output, replaced);
      if Matches(lines[i], key) {
        output := output + [MatchedPrefix(lines[i], key) + value];
        replaced := true;
      } else {
        output := output + [lines[i]];
      }
    }
    RewriteDone(lines, key, value, output, replaced);
    if !replaced {
      output := output + [key + "=" + value];
    }
  }

  lemma SetOneMore(lines: seq<string>, i: nat, key: string, value: string)
    requires i < |lines|
    ensures SetEach(lines[..i + 1], key, value) == SetEach(lines[..i], key, value) + [SetLine(lines[i], key, value)]
  {
    assert lines[..i + 1] == lines[..i] + [lines[i]];
  }

  lemma MatchOneMore(lines: seq<string>, i: nat, key: string)
    requires i < |lines|
    ensures AnyMatch(lines[..i + 1], key) <==> AnyMatch(lines[..i], key) || Matches(lines[i], key)
  {
    assert forall k :: 0 <= k < i ==> lines[..i + 1][k] == lines[..i][k];
    assert lines[..i + 1][i] == lines[i];
  }

  lemma AccountIsKey()
    ensures IsKey(ACCOUNT)
  {
  }

  /** The file can be made to name the account: a clean name, and no line of the key hidden from the parser only. */
  ghost predicate Settable(raw: string, account: string) {
    NoBreaks(account) && Clean(account) == account && Reaches(LinesOf(raw), ACCOUNT)
  }

  /** Stripping never makes a string longer, and keeps it only when there is nothing to strip. */
  lemma TrimShortens(s: string, drop: char -> bool)
    ensures |Trim(s, drop)| <= |s|
    ensures |Trim(s, drop)| == |s| ==> Trim(s, drop) == s
  {
    var a, b := TrimParts(s, drop);
    if |Trim(s, drop)| == |s| {
      assert a == "" && b == "";
    }
  }

  lemma StrippedCleanIsClean(s: string)
    ensures Strip(Clean(s)) == s <==> Clean(s) == s
  {
    TrimShortens(s, IsSpace);
    TrimShortens(Strip(s), IsQuote);
    TrimShortens(Clean(s), IsSpace);
  }

  /** A one-line account name: everything but the account reads as before. */
  lemma OtherValuesKept(raw: string, account: string, key: string, default: string)
    requires NoBreaks(account) && key != ACCOUNT
    ensures Value(ParseText(SetText(raw, ACCOUNT, account)), key, default) == Value(ParseText(raw), key, default)
  {
    AccountIsKey();
    SetThenParse(raw, ACCOUNT, account);
  }

  /** The account the rewritten file is read to name. */
  lemma NamedAccount(raw: string, account: string)
    requires account != "" && Value(ParseText(raw), ACCOUNT, "") != account
    ensures Value(ParseText(SetText(raw, ACCOUNT, account)), ACCOUNT, "") == account <==> Settable(raw, account)
  {
    AccountIsKey();
    var after := ParseText(SetText(raw, ACCOUNT, account));
    if NoBreaks(account) {
      SetThenParse(raw, ACCOUNT, account);
      StrippedCleanIsClean(account);
      BoundIffVisible(LinesOf(raw), ACCOUNT);
    } else {
      ValuesHaveNoBreaks(LinesOf(SetText(raw, ACCOUNT, account)));
      if ACCOUNT in after {
        TrimKeepsNoBreaks(after[ACCOUNT], IsSpace);
      }
    }
  }

  lemma KeepsPortAndMode(raw: string, account: string)
    ensures NoBreaks(account) ==>
              var after := ParseText(SetText(raw, ACCOUNT, account));
              && Value(after, PORT, "7497") == Value(ParseText(raw), PORT, "7497")
              && Value(after, MODE, "paper") == Value(ParseText(raw), MODE, "paper")
  {
    if NoBreaks(account) {
      OtherValuesKept(raw, account, PORT, "7497");
      OtherValuesKept(raw, account, MODE, "paper");
    }
  }

  /** After a fix the gate passes exactly when the account could be set. */
  lemma GateAfterFixIff(raw: string, broker: Broker)
    requires var p := ManagedAccountProbe(ParseText(raw), broker); p.Some? && p.value.pass
    requires broker.accounts.Some? && |broker.accounts.value| == 1
    requires Value(ParseText(raw), ACCOUNT, "") != broker.accounts.value[0]
    ensures var account := broker.accounts.value[0];
            GatePasses(ParseText(SetText(raw, ACCOUNT, account)), broker) <==> Settable(raw, account)
  {
    var account := broker.accounts.value[0];
    var after := ParseText(SetText(raw, ACCOUNT, account));
    ProbePassesIff(ParseText(raw), broker);
    ProbePassesIff(after, broker);
    GatePassesIff(after, broker);
    NamedAccount(raw, account);
    KeepsPortAndMode(raw, account);
  }
}
