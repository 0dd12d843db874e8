/** The controller code that drives the credential protocol. Every method works on a local copy of
    the ledger, exactly as the reconciler edits its in-memory Secret, and every Secret write, status
    patch and Home Assistant call may succeed, be refused, succeed and lose its reply, or be the last
    thing that happens before a crash. The contracts say that, wherever a reconcile stops, it has only
    extended the run of module CredentialProtocol by enabled actions, and what it has achieved when
    nothing went wrong. */
module OperatorAccount {
  import opened Wrappers
  import opened CredentialProtocol
  import opened CredentialRuns

  datatype ErrorKind = IpBanned | Rejected | Forbidden | Unavailable | Conflict

  datatype Reply = Done | Error(kind: ErrorKind) | Crashed

  datatype Fate = Works | Refuses(kind: ErrorKind) | LosesReply(kind: ErrorKind) | CrashesBefore | CrashesAfter

  datatype Reason =
    | VerifiedReason
    | CredentialMissing
    | CredentialMalformed
    | CredentialRejected
    | SecretAccessDenied
    | HomeAssistantUnavailable
    | RecoveryFailed
    | RequiresElevatedRole
    | MigrationFailed
    | LegacyCredentialMissing
    | LegacyCredentialMalformed
    | LegacyCredentialRejected
    | LegacyCredentialRequiresAdmin

  /** How a reconcile ends. `Reported` means that the status patch was applied. */
  datatype Outcome = Stopped | Errored | BanRecovery | NothingToDo | Reported(reason: Reason)

  /** spec.bootstrap, and what the referenced credentials Secret is worth. */
  datatype BootstrapSpec = BootstrapSpec(
    enabled: bool,
    credentialsReferenced: bool,
    credentialsReadable: bool,
    ownerPasswordValid: bool)

  /** What ensureOperatorUser decides from the listed users. */
  datatype Selection = Adopt(id: string) | Create | Refuse

  predicate Distinct(users: seq<(string, User)>) {
    forall i, j :: 0 <= i < j < |users| ==> users[i].0 != users[j].0
  }

  predicate Listed(users: seq<(string, User)>, id: string) {
    exists i :: 0 <= i < |users| && users[i].0 == id
  }

  predicate Matches(entry: (string, User), recorded: string, name: string) {
    (recorded != "" && entry.0 == recorded) || (recorded == "" && entry.1.name == name)
  }

  /** The identity is adopted only if it is the one match and is not somebody else's; without a
      recorded id the ledger must show the intention to create it. */
  predicate Adoptable(users: seq<(string, User)>, i: nat, l: Ledger, uid: string)
    requires i < |users|
  {
    && Matches(users[i], l.user, OperatorName(uid))
    && (forall j :: 0 <= j < |users| && Matches(users[j], l.user, OperatorName(uid)) ==> j == i)
    && !users[i].1.owner && users[i].1.name == OperatorName(uid)
    && (users[i].1.username == "" || users[i].1.username == OperatorUsername(uid))
    && (l.user != "" || (l.stage.Creating? || l.stage.Recovering?))
  }

  predicate Creatable(users: seq<(string, User)>, l: Ledger, uid: string) {
    && (forall j :: 0 <= j < |users| ==> !Matches(users[j], l.user, OperatorName(uid)))
    && l.user == "" && !l.stage.Creating?
  }

  method SelectIdentity(users: seq<(string, User)>, l: Ledger, uid: string) returns (s: Selection)
    ensures s.Adopt? <==> exists i :: 0 <= i < |users| && Adoptable(users, i, l, uid)
    ensures s.Adopt? ==> exists i :: 0 <= i < |users| && Adoptable(users, i, l, uid) && users[i].0 == s.id
    ensures s.Create? <==> Creatable(users, l, uid)
  {
    var name, username := OperatorName(uid), OperatorUsername(uid);
    var found: Option<nat> := None;
    var i := 0;
    while i < |users|
      invariant 0 <= i <= |users|
      invariant found.None? ==> forall j :: 0 <= j < i ==> !Matches(users[j], l.user, name)
      invariant found.Some? ==> found.value < i && Matches(users[found.value], l.user, name)
      invariant found.Some? ==> forall j :: 0 <= j < i && Matches(users[j], l.user, name) ==> j == found.value
    {
      if (l.user != "" && users[i].0 == l.user) || (l.user == "" && users[i].1.name == name) {
        if found.Some? {
          assert Matches(users[found.value], l.user, name) && Matches(users[i], l.user, name);
          return Refuse;
        }
        found := Some(i);
      }
      i := i + 1;
    }
    if found.Some? {
      var user := users[found.value].1;
      if user.owner || user.name != name || (user.username != "" && user.username != username) {
        return Refuse;
      }
      if l.user == "" && l.stage != Creating && l.stage != Recovering {
        return Refuse;
      }
      assert Adoptable(users, found.value, l, uid);
      return Adopt(users[found.value].0);
    }
    if l.user != "" || l.stage == Creating {
      return Refuse;
    }
    return Create;
  }

  /** The actions of a reconcile that only looks at a stored token. */
  predicate Observing(a: Action) {
    a.Restart? || a.ObserveToken? || a.RoleChanged? || a.MarkVerified? || a.PublishStatus?
  }

  predicate LedgerWrite(a: Action) {
    a.ConsumeRecovery? || a.RememberOnboarding? || a.RecordLegacy? || a.IntendCreation? || a.RecordUser?
    || a.IntendIssue? || a.StoreToken? || a.MarkVerified?
  }

  // ---------- When a reconcile can succeed ----------

  /** The owner's credentials are referenced, readable and valid. */
  predicate CredentialsWork(spec: BootstrapSpec) {
    spec.credentialsReferenced && spec.credentialsReadable && spec.ownerPasswordValid
  }

  /** The dedicated user can be found or created: the recorded one exists; or none is recorded, and the ledger shows
      an intention that explains the one that exists, or one may still be created. */
  predicate IdentityAvailable(w: World, l: Ledger) {
    if l.user != "" then l.user in w.ha.users
    else l.stage.Recovering? || (l.stage.Creating? <==> OperatorUsers(w) != {})
  }

  /** Nothing stands in the way of a new credential: the identity is available, and outside a recovery it has no
      login yet. */
  predicate Provisionable(w: World, l: Ledger, recovery: bool) { IdentityAvailable(w, l) && (recovery || !HasLogin(w)) }

  /** A well-formed legacy token, stored apart from the target, that Home Assistant knows as an administrator's other
      than `user`. */
  predicate LegacyAdministrator(w: World, source: string, user: string) {
    && source != "" && source != w.target && source in w.legacy && w.legacy[source].isOpaque
    && w.legacy[source].token.Some?
    && var token := w.legacy[source].token.value;
       && WellFormedToken(token) && token in w.ha.tokens && w.ha.tokens[token] in w.ha.users
       && w.ha.users[w.ha.tokens[token]].admin && w.ha.tokens[token] != user
  }

  /** The legacy Secret that may authorise a migration: the recorded one, else the one the status advertises, else,
      once the bootstrap is complete, the default one. */
  function LegacySource(w: World, default: string, l: Ledger): string {
    var s := w.status;
    var advertised := if s.tokenSecretName == "" && s.completed then default else s.tokenSecretName;
    if l.legacy != "" then l.legacy else if advertised == w.target then "" else advertised
  }

  /** Whether a first provisioning has, or should have, a legacy token to migrate from, and from which Secret. */
  predicate Migrates(w: World, default: string, l: Ledger) {
    LegacySource(w, default, l) != "" || (w.ha.onboarded && !l.onboarding)
  }

  function MigrationSource(w: World, default: string, l: Ledger): string {
    if LegacySource(w, default, l) != "" then LegacySource(w, default, l) else default
  }

  /** A first provisioning can succeed: the identity can be had, and the migration has an administrator's token or
      the onboarding has the owner's credentials. */
  predicate FirstTimeReady(w: World, default: string, l: Ledger, spec: BootstrapSpec) {
    && Provisionable(w, l, false)
    && if Migrates(w, default, l) then LegacyAdministrator(w, MigrationSource(w, default, l), l.user)
       else CredentialsWork(spec)
  }

  /** The ledger that provisioning starts from: the stored one, or a fresh one. */
  function NextLedger(w: World): Ledger { if w.secret.Ours? then w.secret.ledger else FreshLedger(w) }

  /** The dedicated mode was never set up, or its setup stopped before any credential was touched, and a first
      provisioning can succeed. */
  predicate FirstTimePossible(w: World, default: string, spec: BootstrapSpec) {
    && !Requested(w) && !w.secret.Foreign? && (w.secret.Absent? ==> !StatusKnows(w.status))
    && (w.secret.Ours? ==> && !StatusVerified(w.status)
                           && (w.secret.ledger.stage.Provisioning? || w.secret.ledger.stage.Creating?)
                           && w.secret.ledger.recovery == "" && w.secret.ledger.token == "")
    && FirstTimeReady(w, default, NextLedger(w), spec)
  }

  /** A recovery can succeed: the recorded user, if any, still exists and the owner's credentials work. */
  predicate RecoveryReady(w: World, spec: BootstrapSpec) {
    && w.ha.onboarded && CredentialsWork(spec)
    && (NextLedger(w).user == "" || NextLedger(w).user in w.ha.users)
  }

  predicate RecoveryPossible(w: World, spec: BootstrapSpec) {
    Requested(w) && !w.secret.Foreign? && RecoveryReady(w, spec)
  }

  // ---------- What a reconcile without faults reports ----------

  /** Home Assistant knows the token as exactly the recorded user's, who is not the owner. */
  predicate BelongsToRecorded(w: World, l: Ledger) {
    && l.token in w.ha.tokens && w.ha.tokens[l.token] == l.user
    && l.user in w.ha.users && !w.ha.users[l.user].owner
  }

  /** What a look at the stored token finds. */
  function TokenFinding(w: World, l: Ledger): Reason {
    if !WellFormedToken(l.token) then CredentialMalformed
    else if !BelongsToRecorded(w, l) then CredentialRejected
    else if !w.ha.users[l.user].admin then RequiresElevatedRole
    else VerifiedReason
  }

  /** Why a legacy Secret does not authorise a migration. */
  function LegacyFinding(w: World, source: string, user: string): Option<Reason> {
    if source == "" || source == w.target then Some(LegacyCredentialMalformed)
    else if source !in w.legacy then Some(LegacyCredentialMissing)
    else
      var s := w.legacy[source];
      if !s.isOpaque || s.token.None? || !WellFormedToken(s.token.value) then Some(LegacyCredentialMalformed)
      else if s.token.value !in w.ha.tokens || w.ha.tokens[s.token.value] !in w.ha.users
              || w.ha.tokens[s.token.value] == user then Some(LegacyCredentialRejected)
      else if !w.ha.users[w.ha.tokens[s.token.value]].admin then Some(LegacyCredentialRequiresAdmin)
      else None
  }

  function CredentialVerdict(w: World, l: Ledger, recovery: bool): Reason {
    if Provisionable(w, l, recovery) then VerifiedReason
    else if !recovery && l.legacy != "" then MigrationFailed
    else RecoveryFailed
  }

  function MigrationVerdict(w: World, l: Ledger, source: string): Reason {
    var finding := LegacyFinding(w, source, l.user);
    if finding.Some? then finding.value else CredentialVerdict(w, l.(legacy := source), false)
  }

  function OwnerVerdict(w: World, l: Ledger, recovery: bool, spec: BootstrapSpec): Reason {
    if !CredentialsWork(spec) || (recovery && !w.ha.onboarded) then RecoveryFailed
    else CredentialVerdict(w, l, recovery)
  }

  function FirstTimeVerdict(w: World, default: string, l: Ledger, spec: BootstrapSpec): Reason {
    if Migrates(w, default, l) then MigrationVerdict(w, l, MigrationSource(w, default, l))
    else OwnerVerdict(w, l, false, spec)
  }

  /** The ledger in which a request has just been consumed. */
  function RecoveringLedger(w: World): Ledger {
    NextLedger(w).(recovery := w.request, result := Failed, stage := Recovering)
  }

  /** A stored ledger that stopped at a point from which only a recovery leads on. */
  predicate Stuck(w: World, l: Ledger) {
    StatusVerified(w.status) || l.stage.Verified? || l.stage.Issuing? || l.recovery != ""
  }

  function Verdict(w: World, default: string, spec: BootstrapSpec): Reason {
    if w.target == "" || w.secret.Foreign? then CredentialMalformed
    else if Requested(w) then OwnerVerdict(w, RecoveringLedger(w), true, spec)
    else if w.secret.Absent? then
      if StatusKnows(w.status) then CredentialMissing else FirstTimeVerdict(w, default, FreshLedger(w), spec)
    else
      var l := w.secret.ledger;
      if l.stage.Recovering? then RecoveryFailed
      else if l.token != "" then TokenFinding(w, l)
      else if !Stuck(w, l) then FirstTimeVerdict(w, default, l, spec)
      else if l.recovery != "" && l.result.Failed? then RecoveryFailed
      else CredentialMalformed
  }

  /** The steady state: a stored token that is exactly the recorded administrator's, and nothing asked for. */
  predicate Steady(w: World) {
    && !Requested(w) && w.secret.Ours? && !w.secret.ledger.stage.Recovering? && w.secret.ledger.token != ""
    && WellFormedToken(w.secret.ledger.token) && BelongsToRecorded(w, w.secret.ledger)
    && w.ha.users[w.secret.ledger.user].admin
  }

  lemma FirstTimeVerified(w: World, default: string, l: Ledger, spec: BootstrapSpec)
    ensures FirstTimeVerdict(w, default, l, spec) == VerifiedReason <==> FirstTimeReady(w, default, l, spec)
  {
    var source := MigrationSource(w, default, l);
    assert LegacyFinding(w, source, l.user).None? <==> LegacyAdministrator(w, source, l.user);
    assert Provisionable(w, l.(legacy := source), false) <==> Provisionable(w, l, false);
  }

  lemma RecoveryVerified(w: World, spec: BootstrapSpec)
    ensures OwnerVerdict(w, RecoveringLedger(w), true, spec) == VerifiedReason <==> RecoveryReady(w, spec)
  {
  }

  /** Without faults a reconcile ends Verified exactly in the steady state, when a requested recovery has what it
      needs, or when a first provisioning does. */
  lemma VerifiedIff(w: World, default: string, spec: BootstrapSpec)
    requires w.target != ""
    ensures Verdict(w, default, spec) == VerifiedReason <==>
              Steady(w) || RecoveryPossible(w, spec) || FirstTimePossible(w, default, spec)
  {
    FirstTimeVerified(w, default, NextLedger(w), spec);
    RecoveryVerified(w, spec);
  }

  /** The same accounts, status and legacy Secrets. */
  predicate SameSurroundings(w: World, w': World) {
    w'.ha == w.ha && w'.status == w.status && w'.legacy == w.legacy && w'.uid == w.uid && w'.target == w.target
  }

  lemma SameProvisionable(w: World, w': World, l: Ledger)
    requires SameSurroundings(w, w')
    ensures IdentityAvailable(w', l) <==> IdentityAvailable(w, l)
    ensures Provisionable(w', l, false) <==> Provisionable(w, l, false)
    ensures Provisionable(w', l, true) <==> Provisionable(w, l, true)
  {
    SameUsers(w, w');
  }

  lemma SameReadiness(w: World, w': World, default: string, l: Ledger, spec: BootstrapSpec)
    requires SameSurroundings(w, w')
    ensures FirstTimeReady(w', default, l, spec) <==> FirstTimeReady(w, default, l, spec)
  {
    SameProvisionable(w, w', l);
    assert MigrationSource(w', default, l) == MigrationSource(w, default, l);
  }

  /** What is possible does not depend on the session. */
  lemma PossibleAnew(w: World, default: string, spec: BootstrapSpec)
    ensures var w' := w.(book := w.book.(session := NewSession));
            && (FirstTimePossible(w', default, spec) <==> FirstTimePossible(w, default, spec))
            && (RecoveryPossible(w', spec) <==> RecoveryPossible(w, spec)) && (Requested(w') <==> Requested(w))
  {
    var w' := w.(book := w.book.(session := NewSession));
    assert NextLedger(w') == NextLedger(w);
    SameReadiness(w, w', default, NextLedger(w), spec);
  }

  lemma SameMigration(w: World, w': World, l: Ledger, source: string)
    requires SameSurroundings(w, w')
    ensures LegacyFinding(w', source, l.user) == LegacyFinding(w, source, l.user)
    ensures CredentialVerdict(w', l.(legacy := source), false) == CredentialVerdict(w, l.(legacy := source), false)
    ensures MigrationVerdict(w', l.(legacy := source), source) == MigrationVerdict(w, l, source)
  {
    SameProvisionable(w, w', l.(legacy := source));
  }

  lemma SameVerdicts(w: World, w': World, default: string, l: Ledger, spec: BootstrapSpec, recovery: bool)
    requires SameSurroundings(w, w')
    ensures FirstTimeVerdict(w', default, l, spec) == FirstTimeVerdict(w, default, l, spec)
    ensures OwnerVerdict(w', l, recovery, spec) == OwnerVerdict(w, l, recovery, spec)
  {
    var source := MigrationSource(w, default, l);
    SameProvisionable(w, w', l);
    SameProvisionable(w, w', l.(legacy := source));
    assert MigrationSource(w', default, l) == source;
    assert LegacyFinding(w', source, l.user) == LegacyFinding(w, source, l.user);
  }

  lemma SameVerdict(w: World, default: string, spec: BootstrapSpec)
    ensures Verdict(w.(book := w.book.(session := NewSession)), default, spec) == Verdict(w, default, spec)
  {
    var w' := w.(book := w.book.(session := NewSession));
    assert NextLedger(w') == NextLedger(w) && RecoveringLedger(w') == RecoveringLedger(w);
    SameVerdicts(w, w', default, NextLedger(w), spec, false);
    SameVerdicts(w, w', default, RecoveringLedger(w), spec, true);
  }

  class Controller {
    const uid: string
    const target: string
    const defaultLegacy: string

    var status: Status
    var secret: Secret
    var ha: HomeAssistant
    var request: string
    var legacy: map<string, TokenSecret>

    /** History, written but never read by the controller. */
    var book: Book
    ghost var start: World
    ghost var trace: seq<Action>
    ghost var faults: nat
    /** Uses of the owner's credentials so far; a method whose frame leaves this out makes none. */
    ghost var ownerUses: nat

    function State(): World
      reads this
    {
      World(uid, target, status, secret, ha, request, legacy, book)
    }

    /** The current state is reached by a run of the protocol. */
    ghost predicate Valid()
      reads this
    {
      && Initial(start) && ValidRun(start, trace) && Run(start, trace) == State()
      && ownerUses == OwnerUses(trace)
    }

    constructor (uid: string, target: string, defaultLegacy: string, status: Status, ha: HomeAssistant,
                 request: string, legacy: map<string, TokenSecret>)
      requires Initial(World(uid, target, status, Absent, ha, request, legacy, Book(NewSession, 0, 0, 0, 0, {}, false)))
      ensures Valid() && trace == []
      ensures State() == World(uid, target, status, Absent, ha, request, legacy,
              Book(NewSession, 0, 0, 0, 0, {}, false))
    {
      this.uid, this.target, this.defaultLegacy := uid, target, defaultLegacy;
      this.status, this.secret, this.ha, this.request, this.legacy := status, Absent, ha, request, legacy;
      this.book := Book(NewSession, 0, 0, 0, 0, {}, false);
      start := World(uid, target, status, Absent, ha, request, legacy, Book(NewSession, 0, 0, 0, 0, {}, false));
      trace, faults, ownerUses := [], 0, 0;
    }

    /** `a` was the one thing that happened. */
    twostate predicate Took(a: Action)
      reads this
    {
      Enabled(old(State()), a) && State() == Apply(old(State()), a) && trace == old(trace) + [a]
    }

    twostate predicate Idle()
      reads this
    {
      State() == old(State()) && trace == old(trace)
    }

    /** The run was extended, faults were only added and the constants of the run are kept. */
    twostate predicate Extends()
      reads this
    {
      && Valid() && old(trace) <= trace && start == old(start) && faults >= old(faults)
      && request == old(request) && legacy == old(legacy)
    }

    /** At most `a` was added to the run. */
    twostate predicate LogsAtMost(a: Action)
      reads this
    {
      trace == old(trace) || trace == old(trace) + [a]
    }

    // ---------- The world outside the controller ----------

    /** Performs an action on the durable state. */
    method Perform(a: Action)
      requires Valid() && Enabled(State(), a) && !UsesOwnerPassword(a)
      modifies this`status, this`secret, this`ha, this`book, this`trace, this`request, this`legacy
      ensures Valid() && Took(a)
      ensures (a.RecoveryRequested? || request == old(request)) && (a.LegacySecretsChanged? || legacy == old(legacy))
    {
      RunStep(start, trace, a);
      OwnerUsesStep(trace, a);
      BookStep(State(), a);
      var w := Apply(State(), a);
      status, secret, ha, book, request, legacy := w.status, w.secret, w.ha, w.book, w.request, w.legacy;
      trace := trace + [a];
    }

    /** One unreliable remote operation whose effect is `a`. */
    method Attempt(a: Action) returns (r: Reply)
      requires Valid() && Enabled(State(), a) && !a.RecoveryRequested? && !a.LegacySecretsChanged?
      requires !UsesOwnerPassword(a)
      modifies this`status, this`secret, this`ha, this`book, this`trace, this`faults, this`request, this`legacy
      ensures Extends() && (Took(a) || Idle())
      ensures r.Done? ==> Took(a)
      ensures r.Done? <==> faults == old(faults)
    {
      var fate: Fate := *;
      if fate.Works? || fate.LosesReply? || fate.CrashesAfter? {
        Perform(a);
      }
      if !fate.Works? {
        faults := faults + 1;
      }
      r := match fate
        case Works => Done
        case Refuses(kind) => Error(kind)
        case LosesReply(kind) => Error(kind)
        case CrashesBefore => Crashed
        case CrashesAfter => Crashed;
    }

    /** One unreliable operation with the owner's credentials. */
    method AttemptAsOwner(a: Action) returns (r: Reply)
      requires Valid() && Enabled(State(), a) && UsesOwnerPassword(a)
      modifies this`ha, this`trace, this`faults, this`ownerUses
      ensures Extends() && (Took(a) || Idle()) && ownerUses <= old(ownerUses) + 1
      ensures r.Done? ==> Took(a)
      ensures r.Done? <==> faults == old(faults)
    {
      r := *;
      var applied: bool := *;
      if r.Done? || applied {
        OwnerActions(State(), a);
        RunStep(start, trace, a);
        OwnerUsesStep(trace, a);
        ha := ha.(onboarded := ha.onboarded || a.BeginOnboarding?);
        trace, ownerUses := trace + [a], ownerUses + 1;
      }
      if !r.Done? {
        faults := faults + 1;
      }
    }

    /** A call without effect on the protocol: reading an object, probing the API, logging in with a
        password just set, applying core settings. */
    method Probe() returns (r: Reply)
      modifies this`faults
      ensures faults >= old(faults) && (r.Done? <==> faults == old(faults))
    {
      r := *;
      if !r.Done? {
        faults := faults + 1;
      }
    }

    /** Writes the controller's copy `l` of the ledger; the action it stands for is `a`. */
    method UpdateSecret(l: Ledger, a: Action) returns (r: Reply)
      requires Valid() && Enabled(State(), a) && LedgerWrite(a) && Apply(State(), a).secret == Ours(l)
      modifies this`status, this`secret, this`ha, this`book, this`trace, this`faults, this`request, this`legacy
      ensures Extends() && LogsAtMost(a) && ha == old(ha) && status == old(status)
      ensures (secret == old(secret) || secret == Ours(l)) && (r.Done? ==> secret == Ours(l))
      ensures || book.session == old(book.session)
              || (a.ConsumeRecovery? && book.session == old(book.session).(recovering := true))
      ensures r.Done? && a.ConsumeRecovery? ==> book.session.recovering
      ensures faults == old(faults) ==> r.Done?
    {
      LedgerWrites(State(), a);
      r := Attempt(a);
    }

    /** config/auth/create with the administrator group. */
    method CreateUserCall(id: string) returns (r: Reply)
      requires Valid() && Enabled(State(), CreateUser(id))
      modifies this`status, this`secret, this`ha, this`book, this`trace, this`faults, this`request, this`legacy
      ensures Extends() && secret == old(secret) && status == old(status) && book == old(book)
      ensures ha == old(ha).(users := ha.users)
      ensures r.Done? ==> ha.users == old(ha.users)[id := User(OperatorName(uid), "", false, true)]
      ensures faults == old(faults) ==> r.Done?
    {
      r := Attempt(CreateUser(id));
    }

    /** config/auth/update: assigns the administrator group. */
    method GrantRoleCall(id: string) returns (r: Reply)
      requires Valid() && Enabled(State(), GrantRole(id))
      modifies this`status, this`secret, this`ha, this`book, this`trace, this`faults, this`request, this`legacy
      ensures Extends() && secret == old(secret) && status == old(status) && book == old(book)
      ensures ha == old(ha).(users := ha.users)
      ensures id in ha.users && ha.users == old(ha.users)[id := old(ha.users[id]).(admin := ha.users[id].admin)]
      ensures r.Done? ==> ha.users[id].admin
      ensures faults == old(faults) ==> r.Done?
    {
      r := Attempt(GrantRole(id));
    }

    /** Gives the dedicated user a temporary password: attached when it has no login yet, reset otherwise. */
    method PasswordCall(id: string, a: Action) returns (r: Reply)
      requires Valid() && (a == AttachLogin(id) || a == ResetLogin(id)) && Enabled(State(), a)
      modifies this`status, this`secret, this`ha, this`book, this`trace, this`faults, this`request, this`legacy
      ensures Extends() && secret == old(secret) && status == old(status)
      ensures ha == old(ha).(users := ha.users)
      ensures id in ha.users && ha.users == old(ha.users)[id := old(ha.users[id]).(username := ha.users[id].username)]
      ensures IsOperatorUser(State(), id)
      ensures book.session == old(book.session).(attached := book.session.attached, reset := book.session.reset)
      ensures r.Done? ==> book.session.attached || book.session.reset
      ensures r.Done? && a.AttachLogin? ==> book.session.attached
      ensures faults == old(faults) ==> r.Done?
    {
      r := Attempt(a);
    }

    /** auth/long_lived_access_token, answered with `token`. */
    method IssueTokenCall(token: string) returns (r: Reply)
      requires Valid() && Enabled(State(), IssueToken(token))
      modifies this`status, this`secret, this`ha, this`book, this`trace, this`faults, this`request, this`legacy
      ensures Extends() && secret == old(secret) && status == old(status)
      ensures ha == old(ha).(tokens := ha.tokens)
      ensures r.Done? ==> && ha.tokens == old(ha.tokens)[token := old(secret).ledger.user]
                          && book.session.newToken == token
      ensures faults == old(faults) ==> r.Done?
    {
      r := Attempt(IssueToken(token));
    }

    /** The credential is Verified in the ledger and advertised by the status. */
    predicate Achieved()
      reads this
    {
      && secret.Ours? && secret.ledger.stage.Verified?
      && status.completed && status.tokenReady && status.tokenSecretName == target
      && status.account.Some? && status.account.value.phase.PhaseVerified?
      && status.account.value.user == secret.ledger.user
    }

    /** The status says that no token is ready, and keeps what it says about a completed bootstrap. */
    twostate predicate Withheld()
      reads this
    {
      !status.tokenReady && status.completed == old(status.completed)
      && status.tokenSecretName == old(status.tokenSecretName)
    }

    /** Patches the status from the controller's copy of the ledger. */
    method Report(view: Option<Ledger>, reason: Reason) returns (o: Outcome)
      requires Valid() && Enabled(State(), PublishStatus(reason.VerifiedReason?, view))
      modifies this`status, this`secret, this`ha, this`book, this`trace, this`faults, this`request, this`legacy
      ensures Extends() && LogsAtMost(PublishStatus(reason.VerifiedReason?, view))
      ensures secret == old(secret) && ha == old(ha) && book == old(book)
      ensures o == Stopped || o == Errored || o == Reported(reason)
      ensures o == Reported(VerifiedReason) ==> Achieved() && status.account.value.result == secret.ledger.result
      ensures o == Reported(reason) && !reason.VerifiedReason? ==> Withheld()
      ensures faults == old(faults) ==> o.Reported?
    {
      var r := Attempt(PublishStatus(reason.VerifiedReason?, view));
      o := if r.Done? then Reported(reason) else if r.Crashed? then Stopped else Errored;
    }

    /** Somebody may change a user's role while the controller runs. */
    method Interfere()
      requires Valid()
      modifies this`status, this`secret, this`ha, this`book, this`trace, this`faults, this`request, this`legacy
      ensures Extends() && SameButRoles()
      ensures book == old(book)
      ensures forall a <- trace[|old(trace)|..] :: a.RoleChanged?
      ensures faults == old(faults) ==> ha == old(ha)
    {
      var interference: Option<(string, bool)> := *;
      if interference.Some? && interference.value.0 in ha.users {
        RoleActions(State(), interference.value.0, interference.value.1);
        Perform(RoleChanged(interference.value.0, interference.value.1));
        faults := faults + 1;
      }
    }

    /** Nothing differs but the roles of users and the history. */
    twostate predicate SameButRoles()
      reads this
    {
      && request == old(request) && legacy == old(legacy)
      && secret == old(secret) && status == old(status)
      && ha == old(ha).(users := ha.users)
      && ha.users.Keys == old(ha.users.Keys)
      && forall k <- ha.users :: ha.users[k] == old(ha.users)[k].(admin := ha.users[k].admin)
    }

    /** Asking with the stored token is the observation that verification rests on. */
    method Observe()
      requires Valid() && secret.Ours? && secret.ledger.token != ""
      modifies this`status, this`secret, this`ha, this`book, this`trace, this`request, this`legacy
      ensures Extends() && trace == old(trace) + [ObserveToken] && SameButRoles() && ha == old(ha)
      ensures book.session == old(book.session).(checked := book.session.checked)
      ensures var token := secret.ledger.token;
              token in ha.tokens && ha.tokens[token] in ha.users
              && ha.users[ha.tokens[token]].admin && !ha.users[ha.tokens[token]].owner ==>
                book.session.checked == Some((token, ha.tokens[token]))
    {
      Perform(ObserveToken);
    }

    /** The answer to auth/current_user for the owner of `token`. */
    method Identify(token: string) returns (r: Reply, id: string, user: User)
      requires Valid()
      modifies this`status, this`secret, this`ha, this`book, this`trace, this`faults, this`request, this`legacy
      ensures Extends() && SameButRoles() && ha == old(ha)
      ensures book.session == old(book.session).(checked := book.session.checked)
      ensures trace == old(trace) || trace == old(trace) + [ObserveToken]
      ensures r.Done? ==> token in ha.tokens && id == ha.tokens[token] && id in ha.users && user == ha.users[id]
      ensures r.Done? && secret.Ours? && secret.ledger.token == token != "" && user.admin && !user.owner
              ==> book.session.checked == Some((token, id))
      ensures faults == old(faults) && token in ha.tokens && ha.tokens[token] in ha.users ==> r.Done?
      ensures faults == old(faults) && !(token in ha.tokens && ha.tokens[token] in ha.users) ==> r == Error(Rejected)
    {
      id, user := "", User("", "", false, false);
      r := Probe();
      if r.Done? {
        if token in ha.tokens && ha.tokens[token] in ha.users {
          id := ha.tokens[token];
          user := ha.users[id];
          if secret.Ours? && secret.ledger.token == token && token != "" {
            Observe();
          }
        } else {
          r := Error(Rejected);
        }
      }
    }

    /** auth/current_user, while somebody may be changing roles. */
    method CurrentUser(token: string) returns (r: Reply, id: string, user: User)
      requires Valid()
      modifies this`status, this`secret, this`ha, this`book, this`trace, this`faults, this`request, this`legacy
      ensures Extends() && SameButRoles()
      ensures book.session == old(book.session).(checked := book.session.checked)
      ensures forall a <- trace[|old(trace)|..] :: a.RoleChanged? || a.ObserveToken?
      ensures r.Done? ==> token in ha.tokens && id == ha.tokens[token] && id in ha.users && user == ha.users[id]
      ensures r.Done? && secret.Ours? && secret.ledger.token == token != "" && user.admin && !user.owner
              ==> book.session.checked == Some((token, id))
      ensures faults == old(faults) ==> ha == old(ha)
      ensures faults == old(faults) && token in ha.tokens && ha.tokens[token] in ha.users ==> r.Done?
      ensures faults == old(faults) && !(token in ha.tokens && ha.tokens[token] in ha.users) ==> r == Error(Rejected)
    {
      Interfere();
      r, id, user := Identify(token);
    }

    /** config/auth/list, in no particular order. */
    method ListUsers() returns (r: Reply, users: seq<(string, User)>)
      modifies this`faults
      ensures faults >= old(faults) && (faults == old(faults) ==> r.Done?)
      ensures Lists(State(), users)
    {
      r := Probe();
      users := [];
      var left := ha.users.Keys;
      while left != {}
        invariant left <= ha.users.Keys && Distinct(users)
        invariant forall i :: 0 <= i < |users| ==>
                  users[i].0 in ha.users.Keys - left && users[i].1 == ha.users[users[i].0]
        invariant forall id <- ha.users.Keys - left :: Listed(users, id)
      {
        var id :| id in left;
        ghost var before := users;
        users := users + [(id, ha.users[id])];
        left := left - {id};
        assert users[|before|].0 == id;
        forall k | Listed(before, k)
          ensures Listed(users, k)
        {
          var i :| 0 <= i < |before| && before[i].0 == k;
          assert users[i].0 == k;
        }
      }
    }

    // ---------- Provisioning ----------

    /** The controller's copy of the ledger may be published and agrees with the stored one on the last
        recovery request. */
    predicate Publishable(l: Ledger)
      reads this
    {
      && secret.Ours? && l.recovery == secret.ledger.recovery
      && (l.user == "" || IsOperatorUser(State(), l.user) || l.user in ha.retired)
    }

    /** Records the intention to create the dedicated user, then creates it. */
    method CreateIdentity(l: Ledger) returns (r: Reply, l': Ledger, id: string)
      requires Valid() && secret == Ours(l) && OperatorUsers(State()) == {} && l.user == ""
      requires (l.stage.Provisioning? || l.stage.Recovering?)
      modifies this`status, this`secret, this`ha, this`book, this`trace, this`faults, this`request, this`legacy
      ensures Extends() && book == old(book) && status == old(status) && ha == old(ha).(users := ha.users)
      ensures l' == l.(stage := Creating) && (secret == Ours(l) || secret == Ours(l'))
      ensures ha.users != old(ha.users) ==> secret == Ours(l')
      ensures r.Done? ==> && secret == Ours(l') && id != "" && id !in old(ha.users)
                          && ha.users == old(ha.users)[id := User(OperatorName(uid), "", false, true)]
      ensures faults == old(faults) ==> r.Done?
    {
      id := "";
      l' := l.(stage := Creating);
      ghost var was := State();
      r := UpdateSecret(l', IntendCreation);
      if !r.Done? {
        return;
      }
      SameUsers(was, State());
      id := *;
      if id == "" || id in ha.users || id in ha.retired {
        faults := faults + 1;
        return Error(Unavailable), l', id;
      }
      r := CreateUserCall(id);
    }

    /** Records the dedicated user's id and makes sure that it is an administrator. */
    method RecordIdentity(l: Ledger, id: string) returns (r: Reply, l': Ledger)
      requires Valid() && secret == Ours(l) && IsOperatorUser(State(), id)
      requires l.user == id || (l.user == "" && (l.stage.Creating? || l.stage.Recovering?))
      modifies this`status, this`secret, this`ha, this`book, this`trace, this`faults, this`request, this`legacy
      ensures Extends() && book == old(book) && status == old(status) && ha == old(ha).(users := ha.users)
      ensures l' == l.(user := id) && (secret == Ours(l) || secret == Ours(l')) && IsOperatorUser(State(), id)
      ensures id in ha.users && ha.users == old(ha.users)[id := old(ha.users[id]).(admin := ha.users[id].admin)]
      ensures r.Done? ==> secret == Ours(l') && ha.users[id].admin
      ensures faults == old(faults) ==> r.Done?
    {
      l' := l.(user := id);
      var user := ha.users[id];
      r := UpdateSecret(l', RecordUser(id));
      if r.Done? && !user.admin {
        r := GrantRoleCall(id);
      }
    }

    /** Finds or creates the dedicated user, recording the intention before creating it. */
    method EnsureUser(l: Ledger) returns (r: Reply, l': Ledger, id: string, user: User)
      requires Valid() && secret == Ours(l) && (l.stage.Provisioning? || l.stage.Creating? || l.stage.Recovering?)
      modifies this`status, this`secret, this`ha, this`book, this`trace, this`faults, this`request, this`legacy
      ensures Extends() && Publishable(l') && l'.recovery == l.recovery && l'.token == l.token && l'.legacy == l.legacy
      ensures ha == old(ha).(users := ha.users) && book == old(book) && status == old(status)
      ensures r.Done? ==> secret == Ours(l') && l'.user == id && IsOperatorUser(State(), id)
                          && user.username == ha.users[id].username && ha.users[id].admin
      ensures r.Done? ==> (user.username == "" <==> old(!HasLogin(State())))
      ensures faults == old(faults) ==> r == if old(IdentityAvailable(State(), l)) then Done else Error(Conflict)
    {
      RecordedUserKnown(start, trace);
      l', id, user := l, "", User("", "", false, false);
      var users;
      r, users := ListUsers();
      if !r.Done? {
        return;
      }
      var choice := SelectIdentity(users, l, uid);
      RefusalHasCause(start, trace, users, l);
      match choice {
        case Refuse =>
          return Error(Conflict), l', id, user;
        case Adopt(known) =>
          id := known;
          LoginOf(start, trace, id);
        case Create =>
          NobodyListed(State(), users, l);
          r, l', id := CreateIdentity(l);
          if !r.Done? {
            return;
          }
      }
      user := ha.users[id];
      r, l' := RecordIdentity(l', id);
    }

    /** Attaches or resets the temporary login, issues one long-lived token, stores it and verifies it.
        Issuing is written first, so that an interrupted attempt is never repeated unasked. */
    method IssueCredential(l: Ledger, id: string, user: User, recovery: bool) returns (r: Reply, l': Ledger)
      requires Valid() && secret == Ours(l) && l.user == id && IsOperatorUser(State(), id)
      requires user.username == ha.users[id].username && ha.onboarded && !book.session.issued
      requires recovery == book.session.recovering == (l.recovery != "")
      requires !recovery ==> l.token == ""
      modifies this`status, this`secret, this`ha, this`book, this`trace, this`faults, this`request, this`legacy
      ensures Extends() && Publishable(l') && l'.recovery == l.recovery && l'.legacy == l.legacy
              && status == old(status)
      ensures r.Done? ==> && secret == Ours(l') && l'.stage.Verified?
                          && l'.token !in old(ha.tokens) && (recovery ==> l'.result.Succeeded?)
      ensures faults == old(faults) && (recovery || user.username == "") && old(ha.users[id].admin) ==> r.Done?
      ensures faults == old(faults) && !recovery && user.username != "" ==> r == Error(Conflict)
    {
      r, l' := OpenLogin(l, id, user, recovery);
      if r.Done? {
        r, l' := IssueVerifiedToken(l', id, recovery);
      }
    }

    /** Writes Issuing before any credential changes. */
    method WriteIssuing(l: Ledger) returns (r: Reply, l': Ledger)
      requires Valid() && secret == Ours(l) && IsOperatorUser(State(), l.user)
               && (!book.session.recovering ==> l.token == "")
      modifies this`status, this`secret, this`ha, this`book, this`trace, this`faults, this`request, this`legacy
      ensures Extends() && status == old(status) && ha == old(ha) && book.session == old(book.session)
      ensures l' == l.(stage := Issuing) && (secret == Ours(l) || secret == Ours(l'))
      ensures (r.Done? ==> secret == Ours(l')) && (faults == old(faults) ==> r.Done?)
    {
      l' := l.(stage := Issuing);
      r := UpdateSecret(l', IntendIssue);
    }

    /** Writes Issuing, then logs in as the dedicated user. */
    method OpenLogin(l: Ledger, id: string, user: User, recovery: bool) returns (r: Reply, l': Ledger)
      requires Valid() && secret == Ours(l) && l.user == id && IsOperatorUser(State(), id)
      requires user.username == ha.users[id].username && !book.session.issued
      requires recovery == book.session.recovering && (!recovery ==> l.token == "")
      modifies this`status, this`secret, this`ha, this`book, this`trace, this`faults, this`request, this`legacy
      ensures Extends() && status == old(status) && ha == old(ha).(users := ha.users)
      ensures l' == l.(stage := Issuing) && (secret == Ours(l) || secret == Ours(l'))
      ensures book.session == old(book.session).(attached := book.session.attached, reset := book.session.reset)
      ensures ha != old(ha) || book.session != old(book.session) ==> secret == Ours(l')
      ensures IsOperatorUser(State(), id) && ha.users[id].admin == old(ha.users[id].admin)
      ensures r.Done? ==> secret == Ours(l') && (book.session.attached || (recovery && book.session.reset))
      ensures faults == old(faults) ==> r == if recovery || user.username == "" then Done else Error(Conflict)
    {
      r, l' := WriteIssuing(l);
      assert IsOperatorUser(State(), id);
      if !r.Done? {
        return;
      }
      r := SetPassword(l', id, user, recovery);
    }

    /** Issues, stores and verifies one token, in that order. */
    method IssueVerifiedToken(l: Ledger, id: string, recovery: bool) returns (r: Reply, l': Ledger)
      requires Valid() && secret == Ours(l) && l.stage.Issuing? && l.user == id && IsOperatorUser(State(), id)
               && ha.onboarded
      requires (book.session.attached || (book.session.recovering && book.session.reset)) && !book.session.issued
      requires recovery == (l.recovery != "")
      modifies this`status, this`secret, this`ha, this`book, this`trace, this`faults, this`request, this`legacy
      ensures Extends() && Publishable(l') && l'.recovery == l.recovery && l'.legacy == l.legacy
              && status == old(status)
      ensures r.Done? ==> && secret == Ours(l') && l'.stage.Verified?
                          && l'.token !in old(ha.tokens) && (recovery ==> l'.result.Succeeded?)
      ensures faults == old(faults) && old(ha.users[id].admin) ==> r.Done?
    {
      r, l' := StoreFreshToken(l);
      if r.Done? {
        r, l' := VerifyStoredToken(l', id, recovery);
      }
    }

    /** Gives the dedicated user a random password known only to this call and logs in with it. A login that is
        already attached is touched only by a recovery. */
    method SetPassword(l: Ledger, id: string, user: User, recovery: bool) returns (r: Reply)
      requires Valid() && secret == Ours(l) && l.user == id && IsOperatorUser(State(), id) && l.stage.Issuing?
      requires user.username == ha.users[id].username && !book.session.issued && recovery == book.session.recovering
      modifies this`status, this`secret, this`ha, this`book, this`trace, this`faults, this`request, this`legacy
      ensures Extends() && status == old(status) && secret == old(secret) && ha == old(ha).(users := ha.users)
      ensures book.session == old(book.session).(attached := book.session.attached, reset := book.session.reset)
      ensures IsOperatorUser(State(), id) && ha.users[id].admin == old(ha.users[id].admin)
      ensures r.Done? ==> book.session.attached || (recovery && book.session.reset)
      ensures faults == old(faults) ==> r == if recovery || user.username == "" then Done else Error(Conflict)
    {
      r := Probe();
      if r.Done? {
        r := ChangePassword(l, id, user, recovery);
      }
      if r.Done? {
        r := Probe();
      }
    }

    method ChangePassword(l: Ledger, id: string, user: User, recovery: bool) returns (r: Reply)
      requires Valid() && secret == Ours(l) && l.user == id && IsOperatorUser(State(), id) && l.stage.Issuing?
      requires user.username == ha.users[id].username && !book.session.issued && recovery == book.session.recovering
      modifies this`status, this`secret, this`ha, this`book, this`trace, this`faults, this`request, this`legacy
      ensures Extends() && status == old(status) && secret == old(secret) && ha == old(ha).(users := ha.users)
      ensures book.session == old(book.session).(attached := book.session.attached, reset := book.session.reset)
      ensures IsOperatorUser(State(), id) && ha.users[id].admin == old(ha.users[id].admin)
      ensures r.Done? ==> book.session.attached || (recovery && book.session.reset)
      ensures faults == old(faults) ==> r == if recovery || user.username == "" then Done else Error(Conflict)
    {
      if user.username == "" {
        r := PasswordCall(id, AttachLogin(id));
      } else if recovery {
        r := PasswordCall(id, ResetLogin(id));
      } else {
        r := Error(Conflict);
      }
    }

    /** Issues a long-lived token and stores it before anything else is asked of it. */
    method StoreFreshToken(l: Ledger) returns (r: Reply, l': Ledger)
      requires Valid() && secret == Ours(l) && l.stage.Issuing? && IsOperatorUser(State(), l.user) && ha.onboarded
      requires (book.session.attached || (book.session.recovering && book.session.reset)) && !book.session.issued
      modifies this`status, this`secret, this`ha, this`book, this`trace, this`faults, this`request, this`legacy
      ensures Extends() && status == old(status) && ha.users == old(ha.users) && ha.retired == old(ha.retired)
      ensures secret.Ours? && secret.ledger == l.(token := secret.ledger.token)
      ensures l' == l.(token := l'.token)
      ensures r.Done? ==> && secret == Ours(l') && l'.token !in old(ha.tokens) && l'.token != ""
                          && ha.tokens == old(ha.tokens)[l'.token := l.user]
      ensures faults == old(faults) ==> r.Done?
    {
      l' := l;
      var token: string := *;
      if token == "" || token in ha.tokens {
        faults := faults + 1;
        return Error(Unavailable), l';
      }
      OperatorIsNamed(start, trace, l.user);
      r := IssueTokenCall(token);
      if r.Done? {
        l' := l.(token := token);
        MayStore(State());
        r := UpdateSecret(l', StoreToken);
      }
    }

    /** Asks Home Assistant whose token was stored and marks the ledger Verified if it is the dedicated
        administrator's. */
    method VerifyStoredToken(l: Ledger, id: string, recovery: bool) returns (r: Reply, l': Ledger)
      requires Valid() && secret == Ours(l) && l.user == id && IsOperatorUser(State(), id) && l.token != ""
      requires recovery == (l.recovery != "")
      modifies this`status, this`secret, this`ha, this`book, this`trace, this`faults, this`request, this`legacy
      ensures Extends() && status == old(status) && ha.users.Keys == old(ha.users.Keys) && ha.retired == old(ha.retired)
      ensures IsOperatorUser(State(), id)
      ensures secret.Ours? && secret.ledger == l.(stage := secret.ledger.stage, result := secret.ledger.result)
      ensures l' == l.(stage := l'.stage, result := l'.result)
      ensures r.Done? ==> secret == Ours(l') && l'.stage.Verified? && (recovery ==> l'.result.Succeeded?)
      ensures faults == old(faults) && l.token in old(ha.tokens) && old(ha.tokens)[l.token] == id
              && old(ha.users[id].admin)
              ==> r.Done?
    {
      l' := l;
      r := ConfirmOwner(l, id);
      if !r.Done? {
        return;
      }
      l' := l.(stage := Verified);
      if recovery {
        l' := l'.(result := Succeeded);
      }
      r := UpdateSecret(l', MarkVerified);
    }

    /** The stored token is the dedicated administrator's, and Home Assistant is healthy. */
    method ConfirmOwner(l: Ledger, id: string) returns (r: Reply)
      requires Valid() && secret == Ours(l) && IsOperatorUser(State(), id) && l.token != ""
      modifies this`status, this`secret, this`ha, this`book, this`trace, this`faults, this`request, this`legacy
      ensures Extends() && SameButRoles() && IsOperatorUser(State(), id)
      ensures r.Done? ==> book.session.checked == Some((l.token, id))
      ensures faults == old(faults) && l.token in old(ha.tokens) && old(ha.tokens)[l.token] == id
              && old(ha.users[id].admin)
              ==> r.Done?
    {
      var owner, principal;
      r, owner, principal := CurrentUser(l.token);
      if r.Done? && (owner != id || principal.owner || !principal.admin) {
        r := Error(Conflict);
      }
      if r.Done? {
        r := Probe();
      }
    }

    /** The credential is verified and its token is a new one. */
    twostate predicate Renewed()
      reads this
    {
      Achieved() && secret.ledger.token !in old(ha.tokens)
    }

    /** Creates or finds the identity, then issues and verifies its token. */
    method ProvisionCredential(l: Ledger, recovery: bool) returns (r: Reply, l': Ledger)
      requires Valid() && secret == Ours(l) && (l.stage.Provisioning? || l.stage.Creating? || l.stage.Recovering?)
               && ha.onboarded
      requires recovery == book.session.recovering == (l.recovery != "") && (!recovery ==> l.token == "")
      requires !book.session.issued
      modifies this`status, this`secret, this`ha, this`book, this`trace, this`faults, this`request, this`legacy
      ensures Extends() && Publishable(l') && l'.recovery == l.recovery && l'.legacy == l.legacy
              && status == old(status)
      ensures r.Done? ==> && secret == Ours(l') && l'.stage.Verified?
                          && l'.token !in old(ha.tokens) && (recovery ==> l'.result.Succeeded?)
      ensures faults == old(faults) ==> r == if old(Provisionable(State(), l, recovery)) then Done else Error(Conflict)
    {
      var id, user;
      r, l', id, user := EnsureUser(l);
      if r.Done? {
        r, l' := IssueCredential(l', id, user, recovery);
      }
    }

    /** Provisions the dedicated identity with administrative access already at hand. */
    method CompleteProvisioning(l: Ledger, recovery: bool) returns (o: Outcome)
      requires Valid() && secret == Ours(l) && (l.stage.Provisioning? || l.stage.Creating? || l.stage.Recovering?)
      requires recovery == book.session.recovering == (l.recovery != "") && (!recovery ==> l.token == "")
      requires !book.session.issued && ha.onboarded
      modifies this`status, this`secret, this`ha, this`book, this`trace, this`faults, this`request, this`legacy
      ensures Extends() && secret.Ours? && secret.ledger.recovery == l.recovery
      ensures o == Reported(VerifiedReason) ==> Renewed() && (recovery ==> RecoverySucceeded())
      ensures faults == old(faults) ==> o == Reported(old(CredentialVerdict(State(), l, recovery)))
      ensures (o == Reported(MigrationFailed) ==> !recovery && l.legacy != "")
              && (o == Reported(RecoveryFailed) ==> recovery || l.legacy == "")
    {
      var r, l' := ProvisionCredential(l, recovery);
      if r.Crashed? {
        return Stopped;
      }
      if r.Error? && r.kind.IpBanned? {
        return BanRecovery;
      }
      var reason :=
        if r.Done? then VerifiedReason
        else if r.kind.Forbidden? then SecretAccessDenied
        else if !recovery && l'.legacy != "" then MigrationFailed
        else RecoveryFailed;
      o := Report(Some(l'), reason);
    }

    /** The recovery is on record as succeeded. */
    predicate RecoverySucceeded()
      reads this
    {
      && secret.Ours? && secret.ledger.result.Succeeded?
      && status.account.Some? && status.account.value.result.Succeeded?
    }

    /** A failed Home Assistant call: a ban starts ban recovery, anything else is reported. */
    method ReportCallFailure(l: Ledger, r: Reply, reason: Reason) returns (o: Outcome)
      requires Valid() && secret == Ours(l) && !r.Done? && !reason.VerifiedReason?
      modifies this`status, this`secret, this`ha, this`book, this`trace, this`faults, this`request, this`legacy
      ensures Extends() && o != Reported(VerifiedReason) && secret == old(secret) && ha == old(ha)
      ensures forall a <- trace[|old(trace)|..] :: a.PublishStatus?
      ensures o.Reported? ==> o == Reported(reason) && Withheld()
      ensures faults == old(faults) && r.Error? && !r.kind.IpBanned? ==> o == Reported(reason)
      ensures (r.Crashed? ==> o == Stopped) && (o == BanRecovery <==> r.Error? && r.kind.IpBanned?)
    {
      RecordedUserKnown(start, trace);
      if r.Crashed? {
        o := Stopped;
      } else if r.kind.IpBanned? {
        o := BanRecovery;
      } else {
        o := Report(Some(l), reason);
      }
    }

    /** A refused Secret write is only reported when permissions are missing; the controller's copy is not. */
    method SecretWriteFailure(r: Reply) returns (o: Outcome)
      requires Valid() && !r.Done?
      modifies this`status, this`secret, this`ha, this`book, this`trace, this`faults, this`request, this`legacy
      ensures Extends() && o != Reported(VerifiedReason) && secret == old(secret) && ha == old(ha)
      ensures (r.Crashed? ==> o == Stopped) && (r.Error? && !r.kind.Forbidden? ==> o == Errored)
      ensures o.Reported? ==> o == Reported(SecretAccessDenied)
      ensures r.Error? && r.kind.Forbidden? && faults == old(faults) ==> o.Reported?
    {
      if r.Crashed? {
        o := Stopped;
      } else if r.kind.Forbidden? {
        o := Report(None, SecretAccessDenied);
      } else {
        o := Errored;
      }
    }

    /** The target itself never authorises a migration. */
    method LegacySecretName(l: Ledger) returns (name: string)
      ensures name == LegacySource(State(), defaultLegacy, l)
      ensures name == target != "" ==> l.legacy == target
      ensures name == "" <==> && l.legacy == ""
                              && (if status.tokenSecretName != "" then status.tokenSecretName == target
                                  else status.completed ==> defaultLegacy == "" || defaultLegacy == target)
      ensures l.legacy == "" && status.tokenSecretName == "" && status.completed && defaultLegacy != target ==>
                name == defaultLegacy
    {
      if l.legacy != "" {
        return l.legacy;
      }
      name := status.tokenSecretName;
      if name == "" && status.completed {
        name := defaultLegacy;
      }
      if name == target {
        name := "";
      }
    }

    /** Reads the legacy Secret and asks Home Assistant whether it authorises a migration: `refusal` is
        None if the token is well formed and belongs to an administrator other than the dedicated user. */
    method LegacyAuthority(l: Ledger, source: string) returns (r: Reply, refusal: Option<Reason>)
      requires Valid() && secret == Ours(l) && source != "" && source != target
      modifies this`status, this`secret, this`ha, this`book, this`trace, this`faults, this`request, this`legacy
      ensures Extends() && SameButRoles()
      ensures book.session == old(book.session).(checked := book.session.checked)
      ensures r.Done? && refusal.None? ==> LegacyAdministrator(State(), source, l.user) && ha.onboarded
      ensures refusal != Some(VerifiedReason)
      ensures faults == old(faults) ==> ha == old(ha)
      ensures faults == old(faults) ==> refusal == old(LegacyFinding(State(), source, l.user))
      ensures !r.Done? ==> refusal.Some?
      ensures faults == old(faults) ==> r.Done? || r == Error(Rejected)
    {
      refusal := None;
      r := Probe();
      if !r.Done? {
        refusal := Some(if r.Error? && r.kind.Forbidden? then SecretAccessDenied else HomeAssistantUnavailable);
        r := if r.Crashed? then Crashed else Done;
        return;
      }
      if source !in legacy {
        refusal := Some(LegacyCredentialMissing);
        return;
      }
      var token := if legacy[source].token.Some? then legacy[source].token.value else "";
      if !legacy[source].isOpaque || !WellFormedToken(token) {
        refusal := Some(LegacyCredentialMalformed);
        return;
      }
      var id, principal;
      r, id, principal := CurrentUser(token);
      if !r.Done? {
        refusal := Some(if r.Error? && r.kind.Rejected? then LegacyCredentialRejected else HomeAssistantUnavailable);
        return;
      }
      TokensMeanOnboarded(start, trace);
      if id == l.user {
        refusal := Some(LegacyCredentialRejected);
      } else if !principal.admin {
        refusal := Some(LegacyCredentialRequiresAdmin);
      }
    }

    /** Provisions the dedicated identity with an existing administrative token instead of the owner
        password. */
    method Migrate(l: Ledger, source: string) returns (o: Outcome)
      requires Valid() && secret == Ours(l) && (l.stage.Provisioning? || l.stage.Creating?)
      requires l.recovery == "" && l.token == "" && !book.session.recovering && !book.session.issued
      modifies this`status, this`secret, this`ha, this`book, this`trace, this`faults, this`request, this`legacy
      ensures Extends()
      ensures o == Reported(VerifiedReason) ==> Renewed() && Authorised(start, trace, |old(trace)|, source, l.user)
      ensures faults == old(faults) ==> o == Reported(old(MigrationVerdict(State(), l, source)))
    {
      if source == "" || source == target {
        o := ReportCallFailure(l, Error(Unavailable), LegacyCredentialMalformed);
        return;
      }
      var l' := l.(legacy := source);
      ghost var was := State();
      if l.legacy != source {
        var w := UpdateSecret(l', RecordLegacy(source));
        if !w.Done? {
          o := SecretWriteFailure(w);
          return;
        }
      }
      SameMigration(was, State(), l, source);
      o := MigrateFrom(l', source);
    }

    /** Migrates once the source is on record. */
    method MigrateFrom(l: Ledger, source: string) returns (o: Outcome)
      requires Valid() && secret == Ours(l) && (l.stage.Provisioning? || l.stage.Creating?)
      requires l.recovery == "" && l.token == "" && !book.session.recovering && !book.session.issued
      requires source != "" && source != target && l.legacy == source
      modifies this`status, this`secret, this`ha, this`book, this`trace, this`faults, this`request, this`legacy
      ensures Extends()
      ensures o == Reported(VerifiedReason) ==> Renewed() && Authorised(start, trace, |old(trace)|, source, l.user)
      ensures faults == old(faults) ==> o == Reported(old(MigrationVerdict(State(), l, source)))
    {
      ghost var was := State();
      var problem := LegacyAccess(l, source);
      if problem.Some? {
        return problem.value;
      }
      assert l.(legacy := source) == l;
      if SameSurroundings(was, State()) {
        SameMigration(was, State(), l, source);
      }
      ghost var at := |trace|;
      o := MigrateAs(l, source);
      AuthorisedEarlier(start, trace, |old(trace)|, at, source, l.user);
    }

    /** Administrative access with the legacy token; a problem ends the reconcile. */
    method LegacyAccess(l: Ledger, source: string) returns (problem: Option<Outcome>)
      requires Valid() && secret == Ours(l) && source != "" && source != target
      modifies this`status, this`secret, this`ha, this`book, this`trace, this`faults, this`request, this`legacy
      ensures Extends() && secret == old(secret) && ha.tokens == old(ha.tokens)
      ensures problem != Some(Reported(VerifiedReason))
      ensures problem.None? ==>
                && LegacyAdministrator(State(), source, l.user) && ha.onboarded && status == old(status)
                && book.session == old(book.session).(checked := book.session.checked)
      ensures faults == old(faults) ==>
                var finding := old(LegacyFinding(State(), source, l.user));
                && ha == old(ha) && problem == (if finding.Some? then Some(Reported(finding.value)) else None)
    {
      var r, refusal := LegacyAuthority(l, source);
      if refusal.None? {
        r := Probe();
        refusal := if r.Done? then None else Some(HomeAssistantUnavailable);
      }
      if refusal.Some? {
        var o := ReportCallFailure(l, if r.Done? then Error(Unavailable) else r, refusal.value);
        return Some(o);
      }
      return None;
    }

    /** Migrates with the access of the legacy token's administrator. */
    method MigrateAs(l: Ledger, source: string) returns (o: Outcome)
      requires Valid() && secret == Ours(l) && (l.stage.Provisioning? || l.stage.Creating?) && ha.onboarded
      requires l.recovery == "" && l.token == "" && !book.session.recovering && !book.session.issued
      requires LegacyAdministrator(State(), source, l.user)
      modifies this`status, this`secret, this`ha, this`book, this`trace, this`faults, this`request, this`legacy
      ensures Extends()
      ensures o == Reported(VerifiedReason) ==> Renewed() && Authorised(start, trace, |old(trace)|, source, l.user)
      ensures faults == old(faults) ==> o == Reported(old(CredentialVerdict(State(), l, false)))
    {
      ghost var before := trace;
      o := CompleteProvisioning(l, false);
      AuthorisedAfter(start, before, trace, source, l.user);
    }

    /** Reserves the Secret name with a fresh ledger. */
    method CreateSecret(l: Ledger) returns (r: Reply)
      requires Valid() && Enabled(State(), CreateLedger) && l == FreshLedger(State())
      modifies this`status, this`secret, this`ha, this`book, this`trace, this`faults, this`request, this`legacy
      ensures Extends() && ha == old(ha) && status == old(status)
      ensures book.session == old(book.session).(created := book.session.created)
      ensures r.Done? ==> secret == Ours(l) && book.session.created
      ensures faults == old(faults) ==> r.Done?
    {
      r := Attempt(CreateLedger);
    }

    /** Creates the ledger if there is none and consumes the recovery request before any credential is
        read. `l` is the ledger as stored. */
    method OpenLedger(recovery: bool) returns (r: Reply, l: Ledger)
      requires Valid() && !secret.Foreign? && book.session == NewSession && recovery == Requested(State())
      requires !recovery && secret.Absent? ==> !StatusKnows(status)
      modifies this`status, this`secret, this`ha, this`book, this`trace, this`faults, this`request, this`legacy
      ensures Extends() && ha == old(ha) && status == old(status)
      ensures faults == old(faults) ==> r.Done?
      ensures r.Done? ==> && secret == Ours(l) && !book.session.issued && book.session.recovering == recovery
                          && l.user == old(NextLedger(State()).user)
                          && (recovery ==> l.stage.Recovering? && l.recovery == request)
                          && l == old(if recovery then RecoveringLedger(State()) else NextLedger(State()))
    {
      l := Ledger(Provisioning, "", "", NoResult, "", false, "");
      if secret.Absent? {
        if status.account.Some? {
          l := l.(user := status.account.value.user);
        }
        if status.tokenSecretName != "" && status.tokenSecretName != target {
          l := l.(legacy := status.tokenSecretName);
        }
        r := CreateSecret(l);
        if !r.Done? {
          return;
        }
      } else {
        l := secret.ledger;
        r := Done;
      }
      if recovery {
        l := l.(recovery := request, result := Failed, stage := Recovering);
        r := UpdateSecret(l, ConsumeRecovery);
      }
    }

    /** onboarding/users with the owner's credentials; `already` says that Home Assistant refused because
        onboarding is done. */
    method PerformBootstrap() returns (r: Reply, already: bool)
      requires Valid() && Enabled(State(), BeginOnboarding)
      modifies this`status, this`secret, this`ha, this`book, this`trace, this`faults, this`request, this`legacy,
               this`ownerUses
      ensures Extends() && secret == old(secret) && status == old(status) && book == old(book)
      ensures ha == old(ha).(onboarded := ha.onboarded) && (r.Done? ==> ha.onboarded)
      ensures (r.Done? ==> already == old(ha.onboarded)) && (faults == old(faults) ==> r.Done?)
    {
      already := ha.onboarded;
      r := AttemptAsOwner(BeginOnboarding);
    }

    /** Logs in with the owner's credentials. */
    method LoginAsOwner(valid: bool) returns (r: Reply)
      requires Valid() && Enabled(State(), OwnerLogin)
      modifies this`status, this`secret, this`ha, this`book, this`trace, this`faults, this`request, this`legacy,
               this`ownerUses
      ensures Extends() && State() == old(State()) && (r.Done? ==> ha.onboarded && valid)
      ensures faults == old(faults) ==> r == if valid && ha.onboarded then Done else Error(Rejected)
    {
      r := AttemptAsOwner(OwnerLogin);
      if r.Done? && !(valid && ha.onboarded) {
        r := Error(Rejected);
      }
    }

    /** onboarding status. `done` may be a false positive while Home Assistant starts, never a false
        negative. */
    method CheckOnboarding() returns (r: Reply, done: bool)
      modifies this`faults
      ensures faults >= old(faults) && (r.Done? && !done ==> !ha.onboarded)
      ensures faults == old(faults) <==> r.Done? && done == ha.onboarded
    {
      r := Probe();
      done := *;
      done := done || ha.onboarded;
      if done && !ha.onboarded {
        faults := faults + 1;
      }
    }

    /** Gets administrative access with the owner's credentials, onboarding the instance unless this is a recovery. */
    method OwnerAccess(l: Ledger, recovery: bool, spec: BootstrapSpec) returns (r: Reply, reason: Reason)
      requires Valid() && secret == Ours(l) && Enabled(State(), OwnerLogin) && recovery == book.session.recovering
      modifies this`status, this`secret, this`ha, this`book, this`trace, this`faults, this`request, this`legacy,
               this`ownerUses
      ensures Extends() && secret == old(secret) && status == old(status) && book == old(book)
      ensures ha == old(ha).(onboarded := ha.onboarded) && (r.Done? ==> ha.onboarded) && !reason.VerifiedReason?
      ensures faults == old(faults) ==>
                r == if spec.ownerPasswordValid && (recovery ==> old(ha.onboarded)) then Done else Error(Rejected)
      ensures faults == old(faults) && !r.Done? ==> reason == RecoveryFailed
    {
      var already := false;
      if !recovery {
        r, already := PerformBootstrap();
        if !r.Done? {
          return r, HomeAssistantUnavailable;
        }
      }
      r := LoginAsOwner(spec.ownerPasswordValid);
      reason := RecoveryFailed;
      if r.Done? && already {
        r := Probe();
        reason := HomeAssistantUnavailable;
      }
    }

    /** The part of provisioning that uses the owner password. */
    method ProvisionAsOwner(l: Ledger, recovery: bool, spec: BootstrapSpec) returns (o: Outcome)
      requires Valid() && secret == Ours(l) && (l.stage.Provisioning? || l.stage.Creating? || l.stage.Recovering?)
      requires recovery == book.session.recovering == (l.recovery != "") && (!recovery ==> l.token == "")
      requires !book.session.issued && Enabled(State(), OwnerLogin)
      modifies this`status, this`secret, this`ha, this`book, this`trace, this`faults, this`request, this`legacy,
               this`ownerUses
      ensures Extends() && secret.Ours? && secret.ledger.recovery == l.recovery
      ensures o == Reported(VerifiedReason) ==> Renewed() && (recovery ==> RecoverySucceeded())
      ensures faults == old(faults) ==> o == Reported(old(OwnerVerdict(State(), l, recovery, spec)))
      ensures faults == old(faults) && old(OwnerVerdict(State(), l, recovery, spec)).RecoveryFailed?
              && !(CredentialsWork(spec) && (recovery ==> old(ha.onboarded))) ==>
                secret == old(secret) && ha.tokens == old(ha.tokens)
    {
      if !spec.credentialsReferenced || !spec.credentialsReadable {
        o := ReportCallFailure(l, Error(Unavailable), RecoveryFailed);
        return;
      }
      var r, reason := OwnerAccess(l, recovery, spec);
      if !r.Done? {
        o := ReportCallFailure(l, r, reason);
        return;
      }
      o := CompleteProvisioning(l, recovery);
    }

    /** Waits for the API and asks whether onboarding is done. */
    method AskOnboarding() returns (r: Reply, done: bool)
      modifies this`faults
      ensures faults >= old(faults) && (r.Done? && !done ==> !ha.onboarded)
      ensures faults == old(faults) ==> r.Done? && done == ha.onboarded
    {
      done := true;
      r := Probe();
      if r.Done? {
        r, done := CheckOnboarding();
      }
    }

    /** Provisioning without a recovery request: a migration when there is, or should be, a legacy token;
        otherwise the onboarding of an instance this ledger saw fresh. */
    method ProvisionFirstTime(l: Ledger, spec: BootstrapSpec) returns (o: Outcome)
      requires Valid() && secret == Ours(l) && (l.stage.Provisioning? || l.stage.Creating?)
      requires l.recovery == "" && l.token == ""
      requires !book.session.recovering && !book.session.issued && !StatusVerified(status)
      modifies this`status, this`secret, this`ha, this`book, this`trace, this`faults, this`request, this`legacy,
               this`ownerUses
      ensures old(ha.onboarded) && !l.onboarding ==> ownerUses == old(ownerUses)
      ensures Extends() && (o == Reported(VerifiedReason) ==> Renewed())
      ensures faults == old(faults) ==> o == Reported(old(FirstTimeVerdict(State(), defaultLegacy, l, spec)))
    {
      var source := LegacySecretName(l);
      if source != "" {
        o := Migrate(l, source);
        return;
      }
      var r, done := AskOnboarding();
      if !r.Done? {
        o := ReportCallFailure(l, r, HomeAssistantUnavailable);
        return;
      }
      if done && !l.onboarding {
        o := Migrate(l, defaultLegacy);
        return;
      }
      o := Onboard(l, done, spec);
    }

    /** Remembers that the instance was seen fresh, then onboards it. */
    method Onboard(l: Ledger, done: bool, spec: BootstrapSpec) returns (o: Outcome)
      requires Valid() && secret == Ours(l) && (l.stage.Provisioning? || l.stage.Creating?)
      requires l.recovery == "" && l.token == "" && (if done then l.onboarding else !ha.onboarded)
      requires !book.session.recovering && !book.session.issued && !StatusVerified(status)
      modifies this`status, this`secret, this`ha, this`book, this`trace, this`faults, this`request, this`legacy,
               this`ownerUses
      ensures Extends() && (o == Reported(VerifiedReason) ==> Renewed())
      ensures faults == old(faults) ==> o == Reported(old(OwnerVerdict(State(), l, false, spec)))
    {
      var l' := l;
      if !done && !l.onboarding {
        l' := l.(onboarding := true);
        var r := UpdateSecret(l', RememberOnboarding);
        if !r.Done? {
          o := SecretWriteFailure(r);
          return;
        }
      }
      o := ProvisionAsOwner(l', false, spec);
    }

    /** Opens the ledger, then provisions the credential by recovery or for the first time. */
    method RunProvisioning(recovery: bool, spec: BootstrapSpec) returns (o: Outcome)
      requires Valid() && !secret.Foreign? && book.session == NewSession && recovery == Requested(State())
      requires !recovery ==> !StatusVerified(status) && (secret.Absent? ==> !StatusKnows(status))
      requires !recovery && secret.Ours? ==>
                 && (secret.ledger.stage.Provisioning? || secret.ledger.stage.Creating?)
                 && secret.ledger.recovery == "" && secret.ledger.token == ""
      modifies this`status, this`secret, this`ha, this`book, this`trace, this`faults, this`request, this`legacy,
               this`ownerUses
      ensures !recovery && old(book.everVerified) ==> ownerUses == old(ownerUses)
      ensures recovery && (ownerUses != old(ownerUses) || ha != old(ha)) ==>
                secret.Ours? && secret.ledger.recovery == request
      ensures Extends()
      ensures o == Reported(VerifiedReason) ==>
                Renewed() && (recovery ==> RecoverySucceeded() && secret.ledger.recovery == request)
      ensures faults == old(faults) ==>
                o == Reported(old(if recovery then OwnerVerdict(State(), RecoveringLedger(State()), true, spec)
                                  else FirstTimeVerdict(State(), defaultLegacy, NextLedger(State()), spec)))
      ensures faults == old(faults) && recovery && old(!CredentialsWork(spec) || !ha.onboarded) ==>
                secret == Ours(old(RecoveringLedger(State()))) && ha.tokens == old(ha.tokens)
    {
      RetiredOwner(start, trace);
      ghost var was := State();
      var r, l := OpenLedger(recovery);
      if !r.Done? {
        o := SecretWriteFailure(r);
        return;
      }
      SameVerdicts(was, State(), defaultLegacy, l, spec, true);
      if recovery {
        o := ProvisionAsOwner(l, true, spec);
      } else {
        o := ProvisionFirstTime(l, spec);
      }
    }

    /** Asks Home Assistant about the stored token: `refusal` is None if it belongs to exactly the recorded
        user, a non-owner administrator. */
    method CheckStoredToken(l: Ledger) returns (r: Reply, refusal: Option<Reason>)
      requires Valid() && secret == Ours(l) && l.token != ""
      modifies this`status, this`secret, this`ha, this`book, this`trace, this`faults, this`request, this`legacy
      ensures Extends() && SameButRoles() && refusal != Some(VerifiedReason) && (!r.Done? ==> refusal.Some?)
      ensures forall a <- trace[|old(trace)|..] :: a.RoleChanged? || a.ObserveToken?
      ensures refusal.None? ==> book.session.checked == Some((l.token, l.user))
      ensures faults == old(faults) ==>
                var finding := old(TokenFinding(State(), l));
                && refusal == (if finding.VerifiedReason? then None else Some(finding))
                && (r.Done? || r == Error(Rejected))
    {
      if !WellFormedToken(l.token) {
        return Done, Some(CredentialMalformed);
      }
      var id, user;
      r, id, user := CurrentUser(l.token);
      refusal :=
        if !r.Done? then Some(if r.Error? && r.kind.Rejected? then CredentialRejected else HomeAssistantUnavailable)
        else if id != l.user || user.owner then Some(CredentialRejected)
        else if !user.admin then Some(RequiresElevatedRole)
        else None;
    }

    /** Looks at the stored token; the first successful look at it marks the ledger Verified. */
    method ObserveOperatorToken(l: Ledger) returns (o: Outcome)
      requires Valid() && secret == Ours(l) && l.token != ""
      modifies this`status, this`secret, this`ha, this`book, this`trace, this`faults, this`request, this`legacy
      ensures Extends() && (o == Reported(VerifiedReason) ==> Achieved() && secret.ledger.token == l.token)
      ensures forall a <- trace[|old(trace)|..] :: Observing(a)
      ensures ha.tokens == old(ha.tokens)
      ensures faults == old(faults) ==> o == Reported(old(TokenFinding(State(), l)))
    {
      var r, refusal := CheckStoredToken(l);
      if refusal.Some? {
        o := ReportCallFailure(l, if r.Done? then Error(Unavailable) else r, refusal.value);
        return;
      }
      o := ConfirmVerified(l);
    }

    /** Marks an observed token Verified, unless it was, and advertises it. */
    method ConfirmVerified(l: Ledger) returns (o: Outcome)
      requires Valid() && secret == Ours(l) && l.token != "" && book.session.checked == Some((l.token, l.user))
      modifies this`status, this`secret, this`ha, this`book, this`trace, this`faults, this`request, this`legacy
      ensures Extends() && (o == Reported(VerifiedReason) ==> Achieved() && secret.ledger.token == l.token)
      ensures forall a <- trace[|old(trace)|..] :: Observing(a)
      ensures ha == old(ha) && (faults == old(faults) ==> o == Reported(VerifiedReason))
    {
      var r, l' := MarkObserved(l);
      if r.Done? {
        RecordedUserKnown(start, trace);
        o := Report(Some(l'), VerifiedReason);
      } else {
        o := if r.Crashed? then Stopped else Errored;
      }
    }

    /** Marks an observed token Verified, unless it was. */
    method MarkObserved(l: Ledger) returns (r: Reply, l': Ledger)
      requires Valid() && secret == Ours(l) && l.token != "" && book.session.checked == Some((l.token, l.user))
      modifies this`status, this`secret, this`ha, this`book, this`trace, this`faults, this`request, this`legacy
      ensures Extends() && LogsAtMost(MarkVerified) && ha == old(ha) && status == old(status)
      ensures l' == l.(stage := Verified, result := l'.result) && (l.stage.Verified? ==> l' == l)
      ensures (r.Done? ==> secret == Ours(l')) && (faults == old(faults) ==> r.Done?)
    {
      r, l' := Done, l;
      if !l.stage.Verified? {
        l' := l.(stage := Verified, result := if l.recovery != "" then Succeeded else l.result);
        r := UpdateSecret(l', MarkVerified);
      }
    }

    /** The credential was replaced by a fresh token and the request is on record as succeeded. */
    twostate predicate Recovered()
      reads this
    {
      Renewed() && RecoverySucceeded() && secret.ledger.recovery == request
    }

    /** What was verified: the token that was stored, or a new one where a recovery was requested or none was stored. */
    twostate predicate Confirmed()
      reads this
    {
      && Achieved()
      && if old(secret.Ours? && secret.ledger.token != "" && !Requested(State())) then
           secret.ledger.token == old(secret.ledger.token)
         else Renewed() && (old(Requested(State())) ==> Recovered())
    }

    /** The decision after the Secret was read. */
    method ReconcileLedger(spec: BootstrapSpec) returns (o: Outcome)
      requires Valid() && target != "" && !secret.Foreign? && book.session == NewSession
      modifies this`status, this`secret, this`ha, this`book, this`trace, this`faults, this`request, this`legacy,
               this`ownerUses
      ensures old(book.everVerified && !Requested(State())) ==> ownerUses == old(ownerUses)
      ensures Extends() && (o == Reported(VerifiedReason) ==> Achieved())
      ensures old(secret.Ours? && secret.ledger.token != "" && !Requested(State())) ==>
                ownerUses == old(ownerUses) && forall a <- trace[|old(trace)|..] :: Observing(a)
      ensures faults == old(faults) ==> o == Reported(old(Verdict(State(), defaultLegacy, spec)))
      ensures o == Reported(VerifiedReason) ==> Confirmed()
      ensures faults == old(faults) && old(Requested(State())) && !(CredentialsWork(spec) && old(ha.onboarded)) ==>
                secret == Ours(old(RecoveringLedger(State()))) && ha.tokens == old(ha.tokens)
    {
      var present := secret.Ours?;
      var observedRequest := "";
      var verifiedBefore := false;
      if status.account.Some? {
        observedRequest := status.account.value.recovery;
        verifiedBefore := status.account.value.phase.PhaseVerified? || status.account.value.tokenSecretName != "";
      }
      if present {
        observedRequest := secret.ledger.recovery;
        verifiedBefore := verifiedBefore || secret.ledger.stage.Verified?;
      }
      var recovery := request != "" && request != observedRequest;
      if present && !recovery && secret.ledger.stage.Recovering? {
        o := ReportCallFailure(secret.ledger, Error(Unavailable), RecoveryFailed);
        return;
      }
      if present && secret.ledger.token != "" && !recovery {
        o := ObserveOperatorToken(secret.ledger);
        return;
      }
      if !recovery && (verifiedBefore || (present && secret.ledger.stage.Issuing?) || observedRequest != "") {
        if present {
          var failed := observedRequest != "" && secret.ledger.result.Failed?;
          o := ReportCallFailure(secret.ledger, Error(Unavailable),
                                 if failed then RecoveryFailed else CredentialMalformed);
        } else {
          o := Report(None, CredentialMissing);
        }
        return;
      }
      o := RunProvisioning(recovery, spec);
    }

    /** A new reconcile knows nothing of the previous one. */
    method BeginReconcile(spec: BootstrapSpec)
      requires Valid()
      modifies this`status, this`secret, this`ha, this`book, this`trace, this`faults, this`request, this`legacy
      ensures Extends() && trace == old(trace) + [Restart] && faults == old(faults) && ha == old(ha)
      ensures State() == old(State()).(book := old(book).(session := NewSession))
      ensures Requested(State()) <==> old(Requested(State()))
      ensures RecoveryPossible(State(), spec) <==> old(RecoveryPossible(State(), spec))
      ensures FirstTimePossible(State(), defaultLegacy, spec) <==> old(FirstTimePossible(State(), defaultLegacy, spec))
      ensures Verdict(State(), defaultLegacy, spec) == old(Verdict(State(), defaultLegacy, spec))
    {
      PossibleAnew(State(), defaultLegacy, spec);
      SameVerdict(State(), defaultLegacy, spec);
      Perform(Restart);
    }

    /** One reconcile. It observes before it acts: a stored token is only looked at, a missing or rejected
        verified credential never provisions, and only a new recovery request leads back to the owner. */
    method Reconcile(spec: BootstrapSpec) returns (o: Outcome)
      requires Valid()
      modifies this`status, this`secret, this`ha, this`book, this`trace, this`faults, this`request, this`legacy,
               this`ownerUses
      ensures old(book.everVerified && !Requested(State())) ==> ownerUses == old(ownerUses)
      ensures Extends() && (o == Reported(VerifiedReason) ==> Achieved())
      ensures !spec.enabled ==> o == NothingToDo && trace == old(trace) + [Restart]
      ensures old(secret.Ours? && secret.ledger.token != "" && !Requested(State())) ==>
                ownerUses == old(ownerUses) && forall a <- trace[|old(trace)|..] :: Observing(a)
      ensures faults == old(faults) && spec.enabled && target != "" && old(RecoveryPossible(State(), spec)) ==>
                o == Reported(VerifiedReason) && Recovered()
      ensures faults == old(faults) && spec.enabled && target != ""
              && old(FirstTimePossible(State(), defaultLegacy, spec)) ==>
                o == Reported(VerifiedReason) && Renewed()
      ensures faults == old(faults) && spec.enabled && target != "" && old(Steady(State())) ==>
                o == Reported(VerifiedReason) && Achieved() && secret.ledger.token == old(secret.ledger.token)
      ensures faults == old(faults) && spec.enabled ==> o == Reported(old(Verdict(State(), defaultLegacy, spec)))
      ensures o == Reported(VerifiedReason) ==> Confirmed()
      ensures faults == old(faults) && spec.enabled && target != "" && old(Requested(State()) && !secret.Foreign?)
              && !(CredentialsWork(spec) && old(ha.onboarded)) ==>
                secret == Ours(old(RecoveringLedger(State()))) && ha.tokens == old(ha.tokens)
    {
      if target != "" {
        VerifiedIff(State(), defaultLegacy, spec);
      }
      BeginReconcile(spec);
      if !spec.enabled {
        return NothingToDo;
      }
      o := ReconcileEnabled(spec);
    }

    /** A reconcile of the dedicated mode, from reading the Secret on. */
    method ReconcileEnabled(spec: BootstrapSpec) returns (o: Outcome)
      requires Valid() && book.session == NewSession
      modifies this`status, this`secret, this`ha, this`book, this`trace, this`faults, this`request, this`legacy,
               this`ownerUses
      ensures Extends() && (o == Reported(VerifiedReason) ==> Achieved())
      ensures old(book.everVerified && !Requested(State())) ==> ownerUses == old(ownerUses)
      ensures old(secret.Ours? && secret.ledger.token != "" && !Requested(State())) ==>
                ownerUses == old(ownerUses) && forall a <- trace[|old(trace)|..] :: Observing(a)
      ensures faults == old(faults) ==> o == Reported(old(Verdict(State(), defaultLegacy, spec)))
      ensures o == Reported(VerifiedReason) ==> Confirmed()
      ensures faults == old(faults) && target != "" && old(Requested(State()) && !secret.Foreign?)
              && !(CredentialsWork(spec) && old(ha.onboarded)) ==>
                secret == Ours(old(RecoveringLedger(State()))) && ha.tokens == old(ha.tokens)
    {
      var problem := ReadSecret();
      if problem.Some? {
        return problem.value;
      }
      o := ReconcileLedger(spec);
    }

    /** Reads and validates the operator's Secret; a problem ends the reconcile. */
    method ReadSecret() returns (problem: Option<Outcome>)
      requires Valid()
      modifies this`status, this`secret, this`ha, this`book, this`trace, this`faults, this`request, this`legacy
      ensures Extends() && (forall a <- trace[|old(trace)|..] :: a.PublishStatus?)
      ensures problem != Some(Reported(VerifiedReason))
      ensures problem.None? ==> Idle() && target != "" && !secret.Foreign?
      ensures faults == old(faults) ==>
                problem == if target == "" || old(secret.Foreign?) then Some(Reported(CredentialMalformed)) else None
    {
      var reason := CredentialMalformed;
      if target != "" {
        var r := Probe();
        if r.Crashed? {
          return Some(Stopped);
        }
        if r.Error? {
          reason := if r.kind.Forbidden? then SecretAccessDenied else HomeAssistantUnavailable;
        } else if !secret.Foreign? {
          return None;
        }
      }
      var o := Report(None, reason);
      problem := Some(o);
    }
  }

  /** Once Verified was persisted, a ledger without a token does not remember an onboarding. */
  lemma RetiredOwner(start: World, trace: seq<Action>)
    requires Initial(start) && ValidRun(start, trace)
    ensures var w := Run(start, trace);
            w.book.everVerified ==> w.ha.onboarded && (w.secret.Ours? && w.secret.ledger.onboarding ==>
                                                         w.secret.ledger.token != "")
  {
    RunKeepsInv(start, trace);
  }

  /** At some point of the run, not before its first `from` steps, the legacy token was an administrator's other than
      the dedicated user's. */
  ghost predicate Authorised(start: World, trace: seq<Action>, from: nat, source: string, user: string) {
    exists k :: from <= k <= |trace| && AdministratorAt(start, trace, k, source, user)
  }

  ghost predicate AdministratorAt(start: World, trace: seq<Action>, k: nat, source: string, user: string) {
    k <= |trace| && ValidRun(start, trace[..k]) && LegacyAdministrator(Run(start, trace[..k]), source, user)
  }

  lemma AuthorisedEarlier(start: World, trace: seq<Action>, early: nat, from: nat, source: string, user: string)
    requires early <= from
    ensures Authorised(start, trace, from, source, user) ==> Authorised(start, trace, early, source, user)
  {
  }

  lemma AuthorisedAfter(start: World, before: seq<Action>, trace: seq<Action>, source: string, user: string)
    requires before <= trace && ValidRun(start, before) && LegacyAdministrator(Run(start, before), source, user)
    ensures Authorised(start, trace, |before|, source, user)
  {
    assert trace[..|before|] == before;
    assert AdministratorAt(start, trace, |before|, source, user);
  }

  /** What a write of the ledger leaves alone. */
  lemma LedgerWrites(w: World, a: Action)
    requires Enabled(w, a) && LedgerWrite(a)
    ensures var w', s := Apply(w, a), w.book.session;
            && w'.ha == w.ha && w'.status == w.status
            && w'.book.session == (if a.ConsumeRecovery? then s.(recovering := true) else s)
  {
    SecretActions(w, a);
  }

  lemma RoleActions(w: World, id: string, admin: bool)
    requires id in w.ha.users
    ensures Enabled(w, RoleChanged(id, admin))
    ensures Apply(w, RoleChanged(id, admin))
         == w.(ha := w.ha.(users := w.ha.users[id := w.ha.users[id].(admin := admin)]))
  {
  }

  lemma MayStore(w: World)
    requires w.secret.Ours? && w.secret.ledger.stage.Issuing? && w.secret.ledger.user != ""
    requires w.book.session.newToken != ""
    ensures Enabled(w, StoreToken)
    ensures Apply(w, StoreToken).secret == Ours(w.secret.ledger.(token := w.book.session.newToken))
  {
  }

  /** What the owner's credentials can change. */
  lemma OwnerActions(w: World, a: Action)
    requires Enabled(w, a) && UsesOwnerPassword(a)
    ensures Apply(w, a) == w.(ha := w.ha.(onboarded := w.ha.onboarded || a.BeginOnboarding?))
  {
  }

  lemma OperatorIsNamed(start: World, trace: seq<Action>, id: string)
    requires Initial(start) && ValidRun(start, trace) && IsOperatorUser(Run(start, trace), id)
    ensures id != ""
  {
    RunKeepsInv(start, trace);
    assert id in OperatorUsers(Run(start, trace));
  }

  lemma TokensMeanOnboarded(start: World, trace: seq<Action>)
    requires Initial(start) && ValidRun(start, trace)
    ensures Run(start, trace).ha.tokens != map[] ==> Run(start, trace).ha.onboarded
  {
    RunKeepsInv(start, trace);
  }

  lemma RefusalHasCause(start: World, trace: seq<Action>, users: seq<(string, User)>, l: Ledger)
    requires Initial(start) && ValidRun(start, trace)
    requires var w := Run(start, trace);
             && w.secret == Ours(l) && Lists(w, users)
    ensures IdentityAvailable(Run(start, trace), l) <==>
              || Creatable(users, l, Run(start, trace).uid)
              || exists i :: 0 <= i < |users| && Adoptable(users, i, l, Run(start, trace).uid)
  {
    RunKeepsInv(start, trace);
    if IdentityAvailable(Run(start, trace), l) {
      SomeChoice(Run(start, trace), users, l);
    } else {
      NoChoice(Run(start, trace), users, l);
    }
  }

  /** `users` lists Home Assistant's users. */
  predicate Lists(w: World, users: seq<(string, User)>) {
    && Distinct(users)
    && (forall i :: 0 <= i < |users| ==> users[i].0 in w.ha.users && users[i].1 == w.ha.users[users[i].0])
    && forall id <- w.ha.users :: Listed(users, id)
  }

  lemma SomeChoice(w: World, users: seq<(string, User)>, l: Ledger)
    requires Inv(w) && w.secret == Ours(l) && IdentityAvailable(w, l) && Lists(w, users)
    ensures Creatable(users, l, w.uid) || exists i :: 0 <= i < |users| && Adoptable(users, i, l, w.uid)
  {
    var name := OperatorName(w.uid);
    if l.user != "" {
      assert Listed(users, l.user);
      var i :| 0 <= i < |users| && users[i].0 == l.user;
      assert l.user in OperatorUsers(w);
      assert Adoptable(users, i, l, w.uid);
    } else if i :| 0 <= i < |users| && Matches(users[i], l.user, name) {
      assert users[i].0 in OperatorUsers(w);
      forall j | 0 <= j < |users| && Matches(users[j], l.user, name)
        ensures j == i
      {
        assert users[j].0 in OperatorUsers(w);
      }
      assert Adoptable(users, i, l, w.uid);
    }
  }

  lemma NoChoice(w: World, users: seq<(string, User)>, l: Ledger)
    requires !IdentityAvailable(w, l) && Lists(w, users)
    ensures !Creatable(users, l, w.uid) && !(exists i :: 0 <= i < |users| && Adoptable(users, i, l, w.uid))
  {
    forall i | 0 <= i < |users|
      ensures !Adoptable(users, i, l, w.uid)
    {
      assert users[i].1.name == OperatorName(w.uid) ==> users[i].0 in OperatorUsers(w);
    }
    if Creatable(users, l, w.uid) {
      NobodyListed(w, users, l);
    }
  }

  lemma LoginOf(start: World, trace: seq<Action>, id: string)
    requires Initial(start) && ValidRun(start, trace)
    ensures var w := Run(start, trace);
            IsOperatorUser(w, id) ==> (HasLogin(w) <==> w.ha.users[id].username != "")
  {
    RunKeepsInv(start, trace);
    assert IsOperatorUser(Run(start, trace), id) ==> id in OperatorUsers(Run(start, trace));
  }

  lemma NobodyListed(w: World, users: seq<(string, User)>, l: Ledger)
    requires Creatable(users, l, w.uid)
    requires Lists(w, users)
    ensures OperatorUsers(w) == {}
  {
    assert forall id <- OperatorUsers(w) :: Listed(users, id);
  }
}
