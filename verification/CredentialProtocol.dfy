/** The durable protocol behind the dedicated operator credential: the managed Secret is a
    ledger whose stage is written before each change to Home Assistant's accounts.

    This module describes the protocol as guarded atomic actions over a `World` and proves what
    every run keeps, whatever the interleaving of controller steps, restarts, status losses and
    Secret deletions. Module OperatorAccount proves that the controller's code only ever
    performs these actions when their guards hold. */
module CredentialProtocol {
  import opened Wrappers

  datatype Stage = Provisioning | Creating | Issuing | Recovering | Verified

  datatype RecoveryResult = NoResult | Failed | Succeeded

  /** Annotations and data of the managed Secret. An absent annotation is the empty string. */
  datatype Ledger = Ledger(
    stage: Stage,
    user: string,
    recovery: string,
    result: RecoveryResult,
    legacy: string,
    onboarding: bool,
    token: string)

  /** What is stored under the target Secret name: nothing, a Secret that fails validation, or
      the operator's ledger. */
  datatype Secret = Absent | Foreign | Ours(ledger: Ledger)

  datatype Phase = NoPhase | InProgress | PhaseVerified

  datatype Account = Account(
    user: string,
    phase: Phase,
    tokenSecretName: string,
    recovery: string,
    result: RecoveryResult,
    legacy: string,
    migration: Phase)

  /** status.bootstrap; a missing status is `NoStatus`. */
  datatype Status = Status(completed: bool, tokenReady: bool, tokenSecretName: string, account: Option<Account>)

  const NoStatus := Status(false, false, "", None)

  datatype User = User(name: string, username: string, owner: bool, admin: bool)

  /** Home Assistant's account store: users by id, the ids of deleted users, which are never used
      again, and the user each long-lived token belongs to. */
  datatype HomeAssistant = HomeAssistant(
    onboarded: bool,
    users: map<string, User>,
    retired: set<string>,
    tokens: map<string, string>)

  /** A plain token Secret, as used by the legacy mode. */
  datatype TokenSecret = TokenSecret(isOpaque: bool, token: Option<string>)

  /** What the current reconcile has established; a restart forgets it. */
  datatype Session = Session(
    created: bool,
    recovering: bool,
    attached: bool,
    reset: bool,
    issued: bool,
    newToken: string,
    checked: Option<(string, string)>)

  const NewSession := Session(false, false, false, false, false, "", None)

  /** History: recovery requests consumed, long-lived tokens issued, logins attached outside a
      recovery, users deleted by hand, token observations that named a non-owner administrator, and
      whether Verified was ever persisted. */
  datatype Book = Book(
    session: Session,
    consumed: nat,
    issued: nat,
    attachments: nat,
    deletions: nat,
    seen: set<(string, string)>,
    everVerified: bool)

  datatype World = World(
    uid: string,
    target: string,
    status: Status,
    secret: Secret,
    ha: HomeAssistant,
    request: string,
    legacy: map<string, TokenSecret>,
    book: Book)

  function OperatorName(uid: string): string { "Kubernetes operator " + uid }

  function OperatorUsername(uid: string): string { "ha_operator_" + uid }

  /** White space as Unicode and Go's unicode.IsSpace define it. */
  predicate IsSpace(c: char) {
    || '\t' <= c <= '\r' || c == ' ' || c == '\U{85}' || c == '\U{a0}' || c == '\U{1680}'
    || '\U{2000}' <= c <= '\U{200a}' || c == '\U{2028}' || c == '\U{2029}' || c == '\U{202f}'
    || c == '\U{205f}' || c == '\U{3000}'
  }

  /** The token check of the runtime controllers: no surrounding white space and no blank, tab or
      line break inside. */
  predicate WellFormedToken(token: string) {
    && token != ""
    && !IsSpace(token[0])
    && !IsSpace(token[|token| - 1])
    && forall c | c in token :: c !in " \r\n\t"
  }

  /** strings.TrimSpace. */
  function Trimmed(s: string): string {
    if s != "" && IsSpace(s[0]) then Trimmed(s[1..])
    else if s != "" && IsSpace(s[|s| - 1]) then Trimmed(s[..|s| - 1])
    else s
  }

  lemma {:induction false} TrimmedIsShorter(s: string)
    ensures |Trimmed(s)| <= |s|
  {
    if s != "" && IsSpace(s[0]) {
      TrimmedIsShorter(s[1..]);
    } else if s != "" && IsSpace(s[|s| - 1]) {
      TrimmedIsShorter(s[..|s| - 1]);
    }
  }

  /** So a token passes exactly if trimming leaves it as it is, and not empty, and it has no blank inside. */
  lemma WellFormedIffTrimmed(token: string)
    ensures WellFormedToken(token) <==>
            && Trimmed(token) != "" && Trimmed(token) == token
            && ' ' !in token && '\t' !in token && '\r' !in token && '\n' !in token
  {
    if token != "" && IsSpace(token[0]) {
      TrimmedIsShorter(token[1..]);
    } else if token != "" && IsSpace(token[|token| - 1]) {
      TrimmedIsShorter(token[..|token| - 1]);
    }
  }

  /** What the controller can do, one durable effect each, then what the environment can do. */
  datatype Action =
    | CreateLedger
    | ConsumeRecovery
    | RememberOnboarding
    | RecordLegacy(name: string)
    | IntendCreation
    | RecordUser(id: string)
    | IntendIssue
    | StoreToken
    | MarkVerified
    | PublishStatus(verified: bool, view: Option<Ledger>)
    | BeginOnboarding
    | OwnerLogin
    | CreateUser(id: string)
    | GrantRole(id: string)
    | AttachLogin(id: string)
    | ResetLogin(id: string)
    | IssueToken(token: string)
    | ObserveToken
    | Restart
    | StatusLost
    | SecretDeleted
    | ForeignSecretCreated
    | RecoveryRequested(request: string)
    | LegacySecretsChanged(secrets: map<string, TokenSecret>)
    | RoleChanged(id: string, admin: bool)
    | UserDeleted(id: string)
    | UserAdded(id: string, user: User)
    | OnboardedByHuman

  predicate UsesOwnerPassword(a: Action) { a.OwnerLogin? || a.BeginOnboarding? }

  /** The user ids carrying the deterministic operator name. */
  function OperatorUsers(w: World): set<string> {
    set id | id in w.ha.users && w.ha.users[id].name == OperatorName(w.uid)
  }

  predicate IsOperatorUser(w: World, id: string) {
    id in w.ha.users && w.ha.users[id].name == OperatorName(w.uid) && !w.ha.users[id].owner
    && (w.ha.users[id].username == "" || w.ha.users[id].username == OperatorUsername(w.uid))
  }

  /** The status says that a dedicated credential was verified. */
  predicate StatusVerified(s: Status) {
    s.account.Some? && (s.account.value.phase.PhaseVerified? || s.account.value.tokenSecretName != "")
  }

  /** The status alone forbids provisioning from scratch. */
  predicate StatusKnows(s: Status) {
    StatusVerified(s) || (s.account.Some? && s.account.value.recovery != "")
  }

  /** The last recovery request on record: in the ledger when there is one, else in the status. */
  function LastRecovery(w: World): string {
    if w.secret.Ours? then w.secret.ledger.recovery
    else if w.status.account.Some? then w.status.account.value.recovery
    else ""
  }

  predicate Requested(w: World) { w.request != "" && w.request != LastRecovery(w) }

  function FreshLedger(w: World): Ledger {
    Ledger(Provisioning,
           if w.status.account.Some? then w.status.account.value.user else "",
           "", NoResult,
           if w.status.tokenSecretName != w.target then w.status.tokenSecretName else "",
           false, "")
  }

  /** The status written by one status patch. `view` is the controller's copy of the ledger. */
  function NextStatus(s: Status, target: string, verified: bool, view: Option<Ledger>): Status {
    var a0 := if s.account.Some? then s.account.value else Account("", NoPhase, "", "", NoResult, "", NoPhase);
    var a1 := if view.Some? then
                a0.(user := view.value.user, recovery := view.value.recovery, result := view.value.result,
                    legacy := view.value.legacy)
              else a0;
    if verified then
      Status(true, true, target,
             Some(a1.(phase := PhaseVerified, tokenSecretName := target,
                      migration := if a1.legacy != "" then PhaseVerified else a1.migration)))
    else
      s.(tokenReady := false,
         account := Some(a1.(phase := if a1.phase.PhaseVerified? then PhaseVerified else InProgress,
                             migration := if a1.legacy != "" && !a1.phase.PhaseVerified? then InProgress
                                          else a1.migration)))
  }

  /** When an action may be taken. The environment never touches an existing ledger's contents and
      never gives a user the operator's name. */
  predicate Enabled(w: World, a: Action) {
    var s := w.book.session;
    match a
    case CreateLedger => w.secret.Absent? && (Requested(w) || !StatusKnows(w.status))
    case ConsumeRecovery =>
      && w.secret.Ours? && w.request != "" && w.request != w.secret.ledger.recovery
      && (s.created && w.status.account.Some? ==> w.request != w.status.account.value.recovery)
    case RememberOnboarding => w.secret.Ours? && !w.ha.onboarded
    case RecordLegacy(name) => w.secret.Ours? && name != "" && name != w.target && !s.recovering
    case IntendCreation =>
      && w.secret.Ours? && w.secret.ledger.user == "" && OperatorUsers(w) == {}
      && (w.secret.ledger.stage.Provisioning? || w.secret.ledger.stage.Recovering?)
    case RecordUser(id) =>
      && w.secret.Ours? && IsOperatorUser(w, id)
      && (w.secret.ledger.user == id
          || (w.secret.ledger.user == "" && (w.secret.ledger.stage.Creating? || w.secret.ledger.stage.Recovering?)))
    case IntendIssue =>
      && w.secret.Ours? && IsOperatorUser(w, w.secret.ledger.user)
      && (s.recovering || w.secret.ledger.token == "")
    case StoreToken =>
      w.secret.Ours? && w.secret.ledger.stage.Issuing? && w.secret.ledger.user != "" && s.newToken != ""
    case MarkVerified =>
      w.secret.Ours? && w.secret.ledger.token != "" && s.checked == Some((w.secret.ledger.token, w.secret.ledger.user))
    case PublishStatus(verified, view) =>
      && (view.Some? ==> w.secret.Ours? && view.value.recovery == w.secret.ledger.recovery
                         && (view.value.user == "" || IsOperatorUser(w, view.value.user)
                             || view.value.user in w.ha.retired))
      && (verified ==> view.Some? && view.value == w.secret.ledger && view.value.stage.Verified?)
    case BeginOnboarding => OwnerAuthorised(w)
    case OwnerLogin => OwnerAuthorised(w)
    case CreateUser(id) =>
      && w.secret.Ours? && w.secret.ledger.stage.Creating? && w.secret.ledger.user == ""
      && OperatorUsers(w) == {} && id != "" && id !in w.ha.users && id !in w.ha.retired
    case GrantRole(id) => w.secret.Ours? && w.secret.ledger.user == id && IsOperatorUser(w, id)
    case AttachLogin(id) =>
      && w.secret.Ours? && w.secret.ledger.stage.Issuing? && w.secret.ledger.user == id && IsOperatorUser(w, id)
      && w.ha.users[id].username == "" && !s.issued
    case ResetLogin(id) =>
      && w.secret.Ours? && w.secret.ledger.stage.Issuing? && w.secret.ledger.user == id && IsOperatorUser(w, id)
      && s.recovering
    case IssueToken(token) =>
      && w.secret.Ours? && w.secret.ledger.stage.Issuing? && IsOperatorUser(w, w.secret.ledger.user)
      && (s.attached || (s.recovering && s.reset)) && !s.issued
      && w.ha.onboarded && token !in w.ha.tokens && token != ""
    case ObserveToken => w.secret.Ours? && w.secret.ledger.token != ""
    case Restart => true
    case StatusLost => true
    case SecretDeleted => true
    case ForeignSecretCreated => w.secret.Absent?
    case RecoveryRequested(_) => true
    case LegacySecretsChanged(_) => true
    case RoleChanged(id, _) => id in w.ha.users
    case UserDeleted(id) => id in w.ha.users
    case UserAdded(id, user) => id != "" && id !in w.ha.users && id !in w.ha.retired && user.name != OperatorName(w.uid)
    case OnboardedByHuman => true
  }

  /** The owner password is used only after consuming a recovery request in the same reconcile, or
      to finish an onboarding this ledger remembers having seen unfinished. */
  predicate OwnerAuthorised(w: World) {
    w.book.session.recovering
    || (w.secret.Ours? && w.secret.ledger.onboarding && w.secret.ledger.token == "" && w.secret.ledger.recovery == ""
        && !StatusVerified(w.status))
  }

  function Write(w: World, l: Ledger): World { w.(secret := Ours(l)) }

  function Apply(w: World, a: Action): World
    requires Enabled(w, a)
  {
    var b := w.book;
    var s := b.session;
    match a
    case CreateLedger => w.(secret := Ours(FreshLedger(w)), book := b.(session := s.(created := true)))
    case ConsumeRecovery =>
      Write(w, w.secret.ledger.(recovery := w.request, result := Failed, stage := Recovering))
      .(book := b.(consumed := b.consumed + 1, session := s.(recovering := true)))
    case RememberOnboarding => Write(w, w.secret.ledger.(onboarding := true))
    case RecordLegacy(name) => Write(w, w.secret.ledger.(legacy := name))
    case IntendCreation => Write(w, w.secret.ledger.(stage := Creating))
    case RecordUser(id) => Write(w, w.secret.ledger.(user := id))
    case IntendIssue => Write(w, w.secret.ledger.(stage := Issuing))
    case StoreToken => Write(w, w.secret.ledger.(token := s.newToken))
    case MarkVerified =>
      var l := w.secret.ledger;
      Write(w, l.(stage := Verified, result := if l.recovery != "" then Succeeded else l.result))
      .(book := b.(everVerified := true))
    case PublishStatus(verified, view) => w.(status := NextStatus(w.status, w.target, verified, view))
    case BeginOnboarding => w.(ha := w.ha.(onboarded := true))
    case OwnerLogin => w
    case CreateUser(id) =>
      w.(ha := w.ha.(users := w.ha.users[id := User(OperatorName(w.uid), "", false, true)]))
    case GrantRole(id) => w.(ha := w.ha.(users := w.ha.users[id := w.ha.users[id].(admin := true)]))
    case AttachLogin(id) =>
      w.(ha := w.ha.(users := w.ha.users[id := w.ha.users[id].(username := OperatorUsername(w.uid))]),
         book := b.(attachments := if s.recovering then b.attachments else b.attachments + 1,
                    session := s.(attached := true)))
    case ResetLogin(_) => w.(book := b.(session := s.(reset := true)))
    case IssueToken(token) =>
      w.(ha := w.ha.(tokens := w.ha.tokens[token := w.secret.ledger.user]),
         book := b.(issued := b.issued + 1, session := s.(issued := true, newToken := token)))
    case ObserveToken =>
      var token := w.secret.ledger.token;
      if token in w.ha.tokens && w.ha.tokens[token] in w.ha.users
         && w.ha.users[w.ha.tokens[token]].admin && !w.ha.users[w.ha.tokens[token]].owner then
        var pair := (token, w.ha.tokens[token]);
        w.(book := b.(seen := b.seen + {pair}, session := s.(checked := Some(pair))))
      else w
    case Restart => w.(book := b.(session := NewSession))
    case StatusLost => w.(status := NoStatus)
    case SecretDeleted => w.(secret := Absent)
    case ForeignSecretCreated => w.(secret := Foreign)
    case RecoveryRequested(request) => w.(request := request)
    case LegacySecretsChanged(secrets) => w.(legacy := secrets)
    case RoleChanged(id, admin) => w.(ha := w.ha.(users := w.ha.users[id := w.ha.users[id].(admin := admin)]))
    case UserDeleted(id) =>
      w.(ha := w.ha.(users := w.ha.users - {id}, retired := w.ha.retired + {id}),
         book := b.(deletions := b.deletions + 1))
    case UserAdded(id, user) => w.(ha := w.ha.(users := w.ha.users[id := user]))
    case OnboardedByHuman => w.(ha := w.ha.(onboarded := true))
  }

  // ---------- What an action leaves alone ----------

  /** Actions on the Secret. */
  predicate OnSecret(a: Action) {
    a.CreateLedger? || a.ConsumeRecovery? || a.RememberOnboarding? || a.RecordLegacy? || a.IntendCreation?
    || a.RecordUser? || a.IntendIssue? || a.StoreToken? || a.MarkVerified? || a.SecretDeleted?
    || a.ForeignSecretCreated?
  }

  /** Actions on Home Assistant's accounts. */
  predicate OnAccounts(a: Action) {
    a.BeginOnboarding? || a.CreateUser? || a.GrantRole? || a.AttachLogin? || a.IssueToken? || a.RoleChanged?
    || a.UserDeleted? || a.UserAdded? || a.OnboardedByHuman?
  }

  lemma SecretActions(w: World, a: Action)
    requires Enabled(w, a) && OnSecret(a)
    ensures Apply(w, a).ha == w.ha && Apply(w, a).status == w.status
    ensures Apply(w, a).book.seen == w.book.seen
    ensures var s := w.book.session;
            Apply(w, a).book.session == s.(created := s.created || a.CreateLedger?,
                                           recovering := s.recovering || a.ConsumeRecovery?)
  {
  }

  lemma AccountActions(w: World, a: Action)
    requires Enabled(w, a) && OnAccounts(a)
    ensures Apply(w, a).secret == w.secret && Apply(w, a).status == w.status
    ensures Apply(w, a).book.seen == w.book.seen && Apply(w, a).book.session.checked == w.book.session.checked
    ensures Apply(w, a).book.everVerified == w.book.everVerified
  {
  }

  lemma OtherActions(w: World, a: Action)
    requires Enabled(w, a) && !OnSecret(a) && !OnAccounts(a)
    ensures Apply(w, a).secret == w.secret && Apply(w, a).ha == w.ha
    ensures a.PublishStatus? || a.StatusLost? || Apply(w, a).status == w.status
    ensures Apply(w, a).book.everVerified == w.book.everVerified
    ensures Apply(w, a).book.session.newToken == (if a.Restart? then "" else w.book.session.newToken)
  {
  }

  // ---------- The invariant ----------

  /** At most one identity carries the operator's name, it is never the owner, and a recorded user
      id names that identity or one that was deleted by hand. */
  predicate IdentityInv(w: World) {
    && (forall a, b :: a in OperatorUsers(w) && b in OperatorUsers(w) ==> a == b)
    && (forall a :: a in OperatorUsers(w) ==> a != "" && IsOperatorUser(w, a))
    && (w.secret.Ours? && w.secret.ledger.user != "" ==> w.secret.ledger.user in OperatorUsers(w) + w.ha.retired)
    && (w.status.account.Some? && w.status.account.value.user != "" ==>
          w.status.account.value.user in OperatorUsers(w) + w.ha.retired)
    && (w.ha.users.Keys !! w.ha.retired)
  }

  /** A login is attached outside a recovery at most once per identity, and each issued token is paid
      for by a consumed request or by such an attachment; an open session holds one unused permission. */
  predicate IssuanceInv(w: World) {
    && w.book.attachments <= 1 + w.book.deletions
    && (w.book.attachments == 1 + w.book.deletions ==> HasLogin(w))
    && w.book.issued + Permission(w.book.session) <= w.book.consumed + w.book.attachments
  }

  predicate HasLogin(w: World) { exists id :: id in OperatorUsers(w) && w.ha.users[id].username != "" }

  function Permission(s: Session): nat { if !s.issued && (s.recovering || s.attached) then 1 else 0 }

  /** A Verified ledger stores a token that was observed, while stored, to belong to the recorded
      user as a non-owner administrator. */
  predicate VerifiedInv(w: World) {
    && (w.secret.Ours? && w.secret.ledger.token != "" ==> w.secret.ledger.user != "")
    && (w.secret.Ours? && w.secret.ledger.stage.Verified? ==>
          (w.secret.ledger.token, w.secret.ledger.user) in w.book.seen && w.secret.ledger.token != "")
    && (w.book.session.checked.Some? ==> w.book.session.checked.value in w.book.seen)
  }

  /** Tokens exist only after onboarding. */
  predicate OnboardedInv(w: World) {
    && (w.ha.tokens != map[] ==> w.ha.onboarded)
    && (w.book.session.newToken != "" ==> w.ha.onboarded)
    && (w.secret.Ours? && w.secret.ledger.token != "" ==> w.ha.onboarded)
    && (w.book.everVerified ==> w.ha.onboarded)
  }

  /** Once Verified was persisted, a ledger that could still finish an onboarding holds a token. */
  predicate RetirementInv(w: World) {
    && OnboardedInv(w)
    && (w.book.everVerified && w.secret.Ours? && w.secret.ledger.onboarding ==> w.secret.ledger.token != "")
    && (w.secret.Ours? && w.secret.ledger.stage.Verified? ==> w.book.everVerified)
    && (w.status.account.Some? && w.status.account.value.phase.PhaseVerified? ==> w.book.everVerified)
  }

  predicate Inv(w: World) { IdentityInv(w) && IssuanceInv(w) && VerifiedInv(w) && RetirementInv(w) }

  /** A state before the dedicated mode was ever used: no ledger, nothing recorded about an operator
      account and no user with the operator's name. Human accounts and legacy tokens may exist. */
  predicate Initial(w: World) {
    && w.secret.Absent? && w.status.account.None? && OperatorUsers(w) == {}
    && w.book == Book(NewSession, 0, 0, 0, 0, {}, false)
    && (w.ha.tokens != map[] ==> w.ha.onboarded) && w.ha.users.Keys !! w.ha.retired
  }

  lemma InitialInv(w: World)
    requires Initial(w)
    ensures Inv(w)
  {
  }

  lemma SameUsers(w: World, w': World)
    requires w'.ha.users == w.ha.users && w'.uid == w.uid
    ensures OperatorUsers(w') == OperatorUsers(w) && (HasLogin(w') <==> HasLogin(w))
  {
    assert OperatorUsers(w') == OperatorUsers(w);
  }

  lemma UsersKept(w: World, a: Action)
    requires Enabled(w, a) && (a.BeginOnboarding? || a.OnboardedByHuman? || a.IssueToken?)
    ensures Apply(w, a).ha.users == w.ha.users
  {
  }

  lemma OneUserChanged(w: World, a: Action)
    requires Enabled(w, a) && (a.GrantRole? || a.AttachLogin? || a.RoleChanged?)
    ensures a.id in w.ha.users && a.id in Apply(w, a).ha.users
    ensures Apply(w, a).ha.users == w.ha.users[a.id := Apply(w, a).ha.users[a.id]]
    ensures Apply(w, a).ha.users[a.id].name == w.ha.users[a.id].name
  {
  }

  lemma NamesKept(w: World, a: Action)
    requires Enabled(w, a) && OnAccounts(a) && !a.CreateUser? && !a.UserDeleted? && !a.UserAdded?
    ensures Apply(w, a).ha.users.Keys == w.ha.users.Keys
    ensures forall id <- w.ha.users :: Apply(w, a).ha.users[id].name == w.ha.users[id].name
  {
    if a.GrantRole? || a.AttachLogin? || a.RoleChanged? {
      OneUserChanged(w, a);
    } else {
      UsersKept(w, a);
    }
  }

  lemma AccountUsersStep(w: World, a: Action)
    requires Enabled(w, a) && OnAccounts(a)
    ensures OperatorUsers(Apply(w, a))
         == match a
            case CreateUser(id) => {id}
            case UserDeleted(id) => OperatorUsers(w) - {id}
            case _ => OperatorUsers(w)
  {
    if a.CreateUser? {
      assert OperatorUsers(Apply(w, a)) == {a.id};
    } else if a.UserDeleted? {
      assert OperatorUsers(Apply(w, a)) == OperatorUsers(w) - {a.id};
    } else if a.UserAdded? {
      assert OperatorUsers(Apply(w, a)) == OperatorUsers(w);
    } else {
      NamesKept(w, a);
    }
  }

  lemma IdentityStep(w: World, a: Action)
    requires IdentityInv(w) && Enabled(w, a)
    ensures IdentityInv(Apply(w, a))
  {
    if OnSecret(a) {
      IdentityBySecret(w, a);
    } else if OnAccounts(a) {
      IdentityByAccounts(w, a);
    } else {
      IdentityByOthers(w, a);
    }
  }

  lemma IdentityBySecret(w: World, a: Action)
    requires IdentityInv(w) && Enabled(w, a) && OnSecret(a)
    ensures IdentityInv(Apply(w, a))
  {
    SecretActions(w, a);
    SameUsers(w, Apply(w, a));
  }

  lemma IdentityByAccounts(w: World, a: Action)
    requires IdentityInv(w) && Enabled(w, a) && OnAccounts(a)
    ensures IdentityInv(Apply(w, a))
  {
    AccountActions(w, a);
    AccountUsersStep(w, a);
  }

  lemma IdentityByOthers(w: World, a: Action)
    requires IdentityInv(w) && Enabled(w, a) && !OnSecret(a) && !OnAccounts(a)
    ensures IdentityInv(Apply(w, a))
  {
    OtherActions(w, a);
    SameUsers(w, Apply(w, a));
  }

  lemma LoginStep(w: World, a: Action)
    requires Enabled(w, a) && !a.UserDeleted? && (HasLogin(w) || a.AttachLogin?)
    ensures HasLogin(Apply(w, a))
  {
    if OnAccounts(a) {
      AccountLoginStep(w, a);
    } else {
      if OnSecret(a) {
        SecretActions(w, a);
      } else {
        OtherActions(w, a);
      }
      var id :| id in OperatorUsers(w) && w.ha.users[id].username != "";
      SameUsers(w, Apply(w, a));
      assert id in OperatorUsers(Apply(w, a));
    }
  }

  lemma AccountLoginStep(w: World, a: Action)
    requires Enabled(w, a) && OnAccounts(a) && !a.UserDeleted? && (HasLogin(w) || a.AttachLogin?)
    ensures HasLogin(Apply(w, a))
  {
    var w' := Apply(w, a);
    AccountUsersStep(w, a);
    if a.AttachLogin? {
      assert a.id in OperatorUsers(w') && w'.ha.users[a.id].username != "";
    } else {
      var id :| id in OperatorUsers(w) && w.ha.users[id].username != "";
      assert !a.CreateUser?;
      assert id in OperatorUsers(w') && w'.ha.users[id].username != "";
    }
  }

  /** Only one identity exists, so attaching a login means that none was attached yet. */
  lemma AttachIsFirst(w: World, a: Action)
    requires Inv(w) && Enabled(w, a) && a.AttachLogin?
    ensures !HasLogin(w)
  {
    assert a.id in OperatorUsers(w);
  }

  lemma PaymentStep(w: World, a: Action)
    requires Enabled(w, a)
    ensures var b, b' := w.book, Apply(w, a).book;
            && b'.deletions == b.deletions + (if a.UserDeleted? then 1 else 0)
            && b.attachments <= b'.attachments <= b.attachments + (if a.AttachLogin? then 1 else 0)
            && (b.issued + Permission(b.session) <= b.consumed + b.attachments ==>
                  b'.issued + Permission(b'.session) <= b'.consumed + b'.attachments)
  {
    match a
    case CreateLedger =>
    case ConsumeRecovery =>
    case RememberOnboarding =>
    case RecordLegacy(_) =>
    case IntendCreation =>
    case RecordUser(_) =>
    case IntendIssue =>
    case StoreToken =>
    case MarkVerified =>
    case PublishStatus(_, _) =>
    case BeginOnboarding =>
    case OwnerLogin =>
    case CreateUser(_) =>
    case GrantRole(_) =>
    case AttachLogin(_) =>
    case ResetLogin(_) =>
    case IssueToken(_) =>
    case ObserveToken =>
    case Restart =>
    case StatusLost =>
    case SecretDeleted =>
    case ForeignSecretCreated =>
    case RecoveryRequested(_) =>
    case LegacySecretsChanged(_) =>
    case RoleChanged(_, _) =>
    case UserDeleted(_) =>
    case UserAdded(_, _) =>
    case OnboardedByHuman =>
  }

  lemma IssuanceStep(w: World, a: Action)
    requires Inv(w) && Enabled(w, a)
    ensures IssuanceInv(Apply(w, a))
  {
    PaymentStep(w, a);
    if a.AttachLogin? {
      AttachIsFirst(w, a);
      LoginStep(w, a);
    } else if !a.UserDeleted? && HasLogin(w) {
      LoginStep(w, a);
    }
  }

  lemma SeenGrows(w: World, a: Action)
    requires Enabled(w, a)
    ensures w.book.seen <= Apply(w, a).book.seen
    ensures var c := Apply(w, a).book.session.checked;
            c.Some? ==> c == w.book.session.checked || c.value in Apply(w, a).book.seen
  {
    if OnSecret(a) {
      SecretActions(w, a);
    } else if OnAccounts(a) {
      AccountActions(w, a);
    }
  }

  lemma VerifiedStep(w: World, a: Action)
    requires Inv(w) && Enabled(w, a)
    ensures VerifiedInv(Apply(w, a))
  {
    SeenGrows(w, a);
    match a {
      case StoreToken =>
      case MarkVerified =>
      case IntendIssue =>
      case IntendCreation =>
      case ConsumeRecovery =>
      case RecordUser(_) =>
      case _ =>
    }
  }

  lemma OnboardedStep(w: World, a: Action)
    requires OnboardedInv(w) && Enabled(w, a)
    ensures OnboardedInv(Apply(w, a))
  {
    if OnSecret(a) {
      OnboardedBySecret(w, a);
    } else if OnAccounts(a) {
      AccountActions(w, a);
    } else {
      OtherActions(w, a);
    }
  }

  lemma OnboardedBySecret(w: World, a: Action)
    requires OnboardedInv(w) && Enabled(w, a) && OnSecret(a)
    ensures OnboardedInv(Apply(w, a))
  {
  }

  lemma RetirementStep(w: World, a: Action)
    requires VerifiedInv(w) && RetirementInv(w) && Enabled(w, a)
    ensures RetirementInv(Apply(w, a))
  {
    OnboardedStep(w, a);
    if OnSecret(a) {
      RetirementBySecret(w, a);
    } else if OnAccounts(a) {
      AccountActions(w, a);
    } else {
      OtherActions(w, a);
    }
  }

  lemma RetirementBySecret(w: World, a: Action)
    requires VerifiedInv(w) && RetirementInv(w) && Enabled(w, a) && OnSecret(a) && OnboardedInv(Apply(w, a))
    ensures RetirementInv(Apply(w, a))
  {
    match a {
      case StoreToken =>
      case MarkVerified =>
      case RememberOnboarding =>
      case _ =>
    }
  }

  /** Every action keeps the invariant. */
  lemma StepKeepsInv(w: World, a: Action)
    requires Inv(w) && Enabled(w, a)
    ensures Inv(Apply(w, a))
  {
    IdentityStep(w, a);
    IssuanceStep(w, a);
    VerifiedStep(w, a);
    RetirementStep(w, a);
  }
}
