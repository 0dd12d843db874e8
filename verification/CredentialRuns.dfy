/** What every run of the credential protocol keeps, from the first reconcile of a HomeAssistant
    resource that has never used the dedicated mode. A run is any sequence of enabled actions: the
    controller's atomic steps, restarts between any two of them, and the environment's actions. */
module CredentialRuns {
  import opened Wrappers
  import opened CredentialProtocol

  predicate ValidRun(w: World, trace: seq<Action>)
    decreases |trace|, 0
  {
    trace == [] ||
    (ValidRun(w, trace[..|trace| - 1]) && Enabled(Run(w, trace[..|trace| - 1]), trace[|trace| - 1]))
  }

  /** The world after the actions of `trace`. */
  function Run(w: World, trace: seq<Action>): World
    requires ValidRun(w, trace)
    decreases |trace|, 1
  {
    if trace == [] then w else Apply(Run(w, trace[..|trace| - 1]), trace[|trace| - 1])
  }

  lemma RunStep(w: World, trace: seq<Action>, a: Action)
    requires ValidRun(w, trace) && Enabled(Run(w, trace), a)
    ensures ValidRun(w, trace + [a]) && Run(w, trace + [a]) == Apply(Run(w, trace), a)
  {
    assert (trace + [a])[..|trace|] == trace;
  }

  /** The steps lead from one world to another. */
  ghost predicate Leads(w: World, steps: seq<Action>, w': World) { ValidRun(w, steps) && Run(w, steps) == w' }

  lemma LeadsOn(w: World, steps: seq<Action>, now: World, a: Action)
    requires Leads(w, steps, now) && Enabled(now, a)
    ensures Leads(w, steps + [a], Apply(now, a))
  {
    RunStep(w, steps, a);
  }

  lemma {:induction false} LeadsChain(w: World, steps: seq<Action>, now: World, more: seq<Action>, w': World)
    requires Leads(w, steps, now) && Leads(now, more, w')
    ensures Leads(w, steps + more, w')
  {
    if more == [] {
      assert steps + more == steps;
    } else {
      var k := |more| - 1;
      LeadsChain(w, steps, now, more[..k], Run(now, more[..k]));
      LeadsOn(w, steps + more[..k], Run(now, more[..k]), more[k]);
      assert steps + more == steps + more[..k] + [more[k]];
    }
  }

  lemma OneStep(w: World, a: Action, w1: World)
    requires Enabled(w, a) && w1 == Apply(w, a)
    ensures Leads(w, [a], w1)
  {
    LeadsOn(w, [], w, a);
    assert [] + [a] == [a];
  }

  lemma TwoSteps(w: World, a: Action, w1: World, b: Action, w2: World)
    requires Enabled(w, a) && w1 == Apply(w, a) && Enabled(w1, b) && w2 == Apply(w1, b)
    ensures Leads(w, [a, b], w2)
  {
    OneStep(w, a, w1);
    LeadsOn(w, [a], w1, b);
    assert [a] + [b] == [a, b];
  }

  lemma {:induction false} RunKeepsInv(w: World, trace: seq<Action>)
    requires Initial(w) && ValidRun(w, trace)
    ensures Inv(Run(w, trace))
  {
    if trace != [] {
      var before := trace[..|trace| - 1];
      RunKeepsInv(w, before);
      StepKeepsInv(Run(w, before), trace[|trace| - 1]);
    } else {
      InitialInv(w);
    }
  }

  /** The recorded user is the dedicated user or one deleted by hand. */
  lemma RecordedUserKnown(w: World, trace: seq<Action>)
    requires Initial(w) && ValidRun(w, trace)
    ensures var now := Run(w, trace);
            now.secret.Ours? && now.secret.ledger.user != "" ==>
              IsOperatorUser(now, now.secret.ledger.user) || now.secret.ledger.user in now.ha.retired
  {
    RunKeepsInv(w, trace);
  }

  /** A prefix of a run is a run. */
  lemma {:induction false} PrefixValid(w: World, trace: seq<Action>, n: nat)
    requires ValidRun(w, trace) && n <= |trace|
    ensures ValidRun(w, trace[..n])
    decreases |trace|
  {
    if n < |trace| {
      PrefixValid(w, trace[..|trace| - 1], n);
      assert trace[..|trace| - 1][..n] == trace[..n];
    } else {
      assert trace[..n] == trace;
    }
  }

  function TokensIssued(trace: seq<Action>): nat {
    if trace == [] then 0
    else TokensIssued(trace[..|trace| - 1]) + (if trace[|trace| - 1].IssueToken? then 1 else 0)
  }

  function RequestsConsumed(trace: seq<Action>): nat {
    if trace == [] then 0
    else RequestsConsumed(trace[..|trace| - 1]) + (if trace[|trace| - 1].ConsumeRecovery? then 1 else 0)
  }

  function UsersDeleted(trace: seq<Action>): nat {
    if trace == [] then 0
    else UsersDeleted(trace[..|trace| - 1]) + (if trace[|trace| - 1].UserDeleted? then 1 else 0)
  }

  /** Onboardings and logins with the owner's credentials. */
  function OwnerUses(trace: seq<Action>): nat {
    if trace == [] then 0
    else OwnerUses(trace[..|trace| - 1]) + (if UsesOwnerPassword(trace[|trace| - 1]) then 1 else 0)
  }

  lemma OwnerUsesStep(trace: seq<Action>, a: Action)
    ensures OwnerUses(trace + [a]) == OwnerUses(trace) + (if UsesOwnerPassword(a) then 1 else 0)
  {
    assert (trace + [a])[..|trace|] == trace;
  }

  // ---------- Tokens are paid for ----------

  lemma BookStep(w: World, a: Action)
    requires Enabled(w, a)
    ensures var b, b' := w.book, Apply(w, a).book;
            && b'.issued == b.issued + (if a.IssueToken? then 1 else 0)
            && b'.deletions == b.deletions + (if a.UserDeleted? then 1 else 0)
            && b'.consumed == b.consumed + (if a.ConsumeRecovery? then 1 else 0)
            && (b'.everVerified <==> b.everVerified || a.MarkVerified?)
            && (b.session.recovering || a.ConsumeRecovery? || !b'.session.recovering)
            && (a.Restart? ==> !b'.session.recovering)
    ensures var w' := Apply(w, a);
            && w'.target == w.target && w'.uid == w.uid
            && w'.request == (if a.RecoveryRequested? then a.request else w.request)
            && (!a.LegacySecretsChanged? ==> w'.legacy == w.legacy)
            && (!a.PublishStatus? && !a.StatusLost? ==> w'.status == w.status)
  {
    match a
    case CreateLedger =>
    case ConsumeRecovery =>
    case RememberOnboarding =>
    case RecordLegacy(_) =>
    case IntendCreation =>
    case RecordUser(_) =>
    case IntendIssue =>
    case StoreToken =>
    case MarkVerified =>
    case PublishStatus(_, _) =>
    case BeginOnboarding =>
    case OwnerLogin =>
    case CreateUser(_) =>
    case GrantRole(_) =>
    case AttachLogin(_) =>
    case ResetLogin(_) =>
    case IssueToken(_) =>
    case ObserveToken =>
    case Restart =>
    case StatusLost =>
    case SecretDeleted =>
    case ForeignSecretCreated =>
    case RecoveryRequested(_) =>
    case LegacySecretsChanged(_) =>
    case RoleChanged(_, _) =>
    case UserDeleted(_) =>
    case UserAdded(_, _) =>
    case OnboardedByHuman =>
  }

  lemma {:induction false} BookCounts(w: World, trace: seq<Action>)
    requires Initial(w) && ValidRun(w, trace)
    ensures Run(w, trace).book.issued == TokensIssued(trace)
    ensures Run(w, trace).book.consumed == RequestsConsumed(trace)
    ensures Run(w, trace).book.deletions == UsersDeleted(trace)
  {
    if trace != [] {
      var before := trace[..|trace| - 1];
      BookCounts(w, before);
      BookStep(Run(w, before), trace[|trace| - 1]);
    }
  }

  /** However often the controller restarts, loses its status or even its Secret, it issues at most
      one long-lived token more than the recovery requests it consumed, unless somebody deletes Home
      Assistant users: each deletion allows one more. */
  lemma TokensBoundedByRequests(w: World, trace: seq<Action>)
    requires Initial(w) && ValidRun(w, trace)
    ensures TokensIssued(trace) <= 1 + RequestsConsumed(trace) + UsersDeleted(trace)
  {
    BookCounts(w, trace);
    RunKeepsInv(w, trace);
  }

  // ---------- Requests are not replayed ----------

  /** The recovery requests consumed by a run, in order. */
  function Consumed(w: World, trace: seq<Action>): seq<string>
    requires ValidRun(w, trace)
  {
    if trace == [] then []
    else
      var before := trace[..|trace| - 1];
      Consumed(w, before) + (if trace[|trace| - 1].ConsumeRecovery? then [Run(w, before).request] else [])
  }

  lemma {:induction false} NothingMoreConsumed(w: World, trace: seq<Action>, more: seq<Action>)
    requires ValidRun(w, trace) && ValidRun(w, trace + more) && forall a <- more :: !a.ConsumeRecovery?
    ensures Consumed(w, trace + more) == Consumed(w, trace)
  {
    if more == [] {
      assert trace + more == trace;
    } else {
      var k := |more| - 1;
      assert (trace + more)[..|trace + more| - 1] == trace + more[..k];
      assert more[k] in more && forall a <- more[..k] :: a in more;
      NothingMoreConsumed(w, trace, more[..k]);
    }
  }

  lemma OneMoreConsumed(w: World, trace: seq<Action>)
    requires ValidRun(w, trace) && Enabled(Run(w, trace), ConsumeRecovery)
    ensures ValidRun(w, trace + [ConsumeRecovery])
    ensures Consumed(w, trace + [ConsumeRecovery]) == Consumed(w, trace) + [Run(w, trace).request]
  {
    RunStep(w, trace, ConsumeRecovery);
    assert (trace + [ConsumeRecovery])[..|trace|] == trace;
  }

  predicate LedgerSurvives(trace: seq<Action>) { forall a <- trace :: !a.SecretDeleted? }

  lemma LedgerStep(w: World, a: Action)
    requires Enabled(w, a) && !a.SecretDeleted?
    ensures var l, l' := w.secret, Apply(w, a).secret;
            && (a.ConsumeRecovery? ==>
                  w.request != "" && l.Ours? && l'.Ours? && l'.ledger.recovery == w.request != l.ledger.recovery)
            && (l.Ours? ==> l'.Ours? && (!a.ConsumeRecovery? ==> l'.ledger.recovery == l.ledger.recovery))
            && (!l.Ours? && l'.Ours? ==> a.CreateLedger? && l'.ledger.recovery == "")
  {
    if OnAccounts(a) {
      AccountActions(w, a);
    } else if !OnSecret(a) {
      OtherActions(w, a);
    }
  }

  /** Consecutive requests differ, and the ledger holds the last one. */
  predicate Remembers(c: seq<string>, now: World) {
    && (forall i :: 0 < i < |c| ==> c[i] != c[i - 1])
    && (forall i :: 0 <= i < |c| ==> c[i] != "")
    && (c != [] ==> now.secret.Ours?)
    && (now.secret.Ours? ==> now.secret.ledger.recovery == if c == [] then "" else c[|c| - 1])
  }

  lemma RemembersStep(c: seq<string>, now: World, a: Action)
    requires Remembers(c, now) && Enabled(now, a) && !a.SecretDeleted?
    ensures Remembers(c + (if a.ConsumeRecovery? then [now.request] else []), Apply(now, a))
  {
    LedgerStep(now, a);
    if !a.ConsumeRecovery? {
      assert c + [] == c;
    }
  }

  lemma {:induction false} LedgerRemembersLastRequest(w: World, trace: seq<Action>)
    requires Initial(w) && ValidRun(w, trace) && LedgerSurvives(trace)
    ensures Remembers(Consumed(w, trace), Run(w, trace))
  {
    if trace != [] {
      var n := |trace| - 1;
      assert trace[n] in trace && forall a <- trace[..n] :: a in trace;
      LedgerRemembersLastRequest(w, trace[..n]);
      RemembersStep(Consumed(w, trace[..n]), Run(w, trace[..n]), trace[n]);
    }
  }

  lemma {:induction false} ConsumedCount(w: World, trace: seq<Action>)
    requires ValidRun(w, trace)
    ensures |Consumed(w, trace)| == RequestsConsumed(trace)
  {
    if trace != [] {
      ConsumedCount(w, trace[..|trace| - 1]);
    }
  }

  predicate RequestsOnly(trace: seq<Action>, id: string) {
    forall a <- trace :: a.RecoveryRequested? ==> a.request == id
  }

  lemma {:induction false} RequestIs(w: World, trace: seq<Action>, id: string)
    requires ValidRun(w, trace) && RequestsOnly(trace, id) && w.request == ""
    ensures Run(w, trace).request in {"", id}
    ensures forall i :: 0 <= i < |Consumed(w, trace)| ==> Consumed(w, trace)[i] in {"", id}
  {
    if trace != [] {
      var before := trace[..|trace| - 1];
      assert forall a <- before :: a in trace;
      RequestIs(w, before, id);
      BookStep(Run(w, before), trace[|trace| - 1]);
    }
  }

  /** While the Secret is not deleted, consecutive consumed requests differ, so a request id that is
      never changed is consumed at most once and at most two tokens are issued per identity, whatever
      restarts and status losses happen. */
  lemma ConstantRequestConsumedOnce(w: World, trace: seq<Action>, id: string)
    requires Initial(w) && ValidRun(w, trace) && LedgerSurvives(trace)
    requires w.request == "" && RequestsOnly(trace, id)
    ensures RequestsConsumed(trace) <= 1
    ensures TokensIssued(trace) <= 2 + UsersDeleted(trace)
  {
    var c := Consumed(w, trace);
    var two := if |c| > 1 then [c[0], c[1]] else [];
    LedgerRemembersLastRequest(w, trace);
    RequestIs(w, trace, id);
    ConsumedCount(w, trace);
    TokensBoundedByRequests(w, trace);
  }

  /** The steps since the last consumption of a request, or all of them. */
  function SinceConsumption(trace: seq<Action>): seq<Action> {
    if trace == [] then []
    else
      var n := |trace| - 1;
      if trace[n].ConsumeRecovery? then [] else SinceConsumption(trace[..n]) + [trace[n]]
  }

  /** The steps of the current reconcile. */
  function SinceRestart(trace: seq<Action>): seq<Action> {
    if trace == [] then []
    else
      var n := |trace| - 1;
      if trace[n].Restart? then [] else SinceRestart(trace[..n]) + [trace[n]]
  }

  predicate StatusRecords(s: Status, request: string) { s.account.Some? && s.account.value.recovery == request }

  /** A ledger created since the last consumption remembers no request; any other one the last that was consumed. */
  predicate LedgerKeeps(c: seq<string>, since: seq<Action>, now: World) {
    && (now.secret.Ours? ==>
          if CreateLedger in since then now.secret.ledger.recovery == ""
          else c != [] && now.secret.ledger.recovery == c[|c| - 1])
    && (forall i :: 0 <= i < |c| ==> c[i] != "")
    && (c != [] && CreateLedger in since ==> SecretDeleted in since)
    && (c != [] && SecretDeleted !in since ==> now.secret.Ours?)
  }

  lemma LedgerKeepsStep(c: seq<string>, since: seq<Action>, now: World, a: Action)
    requires LedgerKeeps(c, since, now) && Enabled(now, a) && !a.ConsumeRecovery?
    ensures LedgerKeeps(c, since + [a], Apply(now, a))
  {
    assert forall b :: b in since + [a] <==> b in since || b == a;
    if !a.SecretDeleted? {
      LedgerStep(now, a);
    }
  }

  lemma LedgerKeepsConsumed(c: seq<string>, since: seq<Action>, now: World)
    requires LedgerKeeps(c, since, now) && Enabled(now, ConsumeRecovery)
    ensures LedgerKeeps(c + [now.request], [], Apply(now, ConsumeRecovery))
  {
    LedgerStep(now, ConsumeRecovery);
  }

  /** What the ledger remembers, over every run, deletions of the Secret included. */
  lemma {:induction false} LedgerForgetsWhenCreated(w: World, trace: seq<Action>)
    requires Initial(w) && ValidRun(w, trace)
    ensures LedgerKeeps(Consumed(w, trace), SinceConsumption(trace), Run(w, trace))
  {
    if trace != [] {
      var n := |trace| - 1;
      var before := trace[..n];
      var c, since := Consumed(w, before), SinceConsumption(before);
      LedgerForgetsWhenCreated(w, before);
      if trace[n].ConsumeRecovery? {
        LedgerKeepsConsumed(c, since, Run(w, before));
      } else {
        assert Consumed(w, trace) == c + [] == c;
        LedgerKeepsStep(c, since, Run(w, before), trace[n]);
      }
    }
  }

  lemma CreatedStep(w: World, a: Action)
    requires Enabled(w, a)
    ensures Apply(w, a).book.session.created <==> a.CreateLedger? || (w.book.session.created && !a.Restart?)
  {
    if OnSecret(a) {
      SecretActions(w, a);
    }
  }

  lemma {:induction false} CreatedInReconcile(w: World, trace: seq<Action>)
    requires Initial(w) && ValidRun(w, trace)
    ensures Run(w, trace).book.session.created <==> CreateLedger in SinceRestart(trace)
  {
    if trace != [] {
      var n := |trace| - 1;
      CreatedInReconcile(w, trace[..n]);
      CreatedStep(Run(w, trace[..n]), trace[n]);
    }
  }

  /** Over every run, exactly when the current request may be consumed: the ledger does not hold it, because another
      one was consumed last or the ledger was created since, and this reconcile did not create the ledger from a status
      that records it. */
  lemma ConsumesIff(w: World, trace: seq<Action>)
    requires Initial(w) && ValidRun(w, trace)
    ensures var now, c := Run(w, trace), Consumed(w, trace);
            Enabled(now, ConsumeRecovery) <==>
              && now.secret.Ours? && now.request != ""
              && (c == [] || now.request != c[|c| - 1] || CreateLedger in SinceConsumption(trace))
              && !(CreateLedger in SinceRestart(trace) && StatusRecords(now.status, now.request))
  {
    LedgerForgetsWhenCreated(w, trace);
    CreatedInReconcile(w, trace);
  }

  /** So the last consumed request is consumed again exactly in a ledger created since then, which takes a deletion of
      the Secret, unless this reconcile created it while the status recorded the request. The record in the status
      protects no later reconcile: a ledger created for another request, or by a reconcile that stopped, hides it. */
  lemma ReplaysIffLedgerCreatedSince(w: World, trace: seq<Action>)
    requires Initial(w) && ValidRun(w, trace) && Consumed(w, trace) != []
    requires var c := Consumed(w, trace); Run(w, trace).request == c[|c| - 1]
    ensures var now, since := Run(w, trace), SinceConsumption(trace);
            && (Enabled(now, ConsumeRecovery) <==>
                  && now.secret.Ours? && CreateLedger in since
                  && !(CreateLedger in SinceRestart(trace) && StatusRecords(now.status, now.request)))
            && (Enabled(now, ConsumeRecovery) ==> SecretDeleted in since)
  {
    LedgerForgetsWhenCreated(w, trace);
    CreatedInReconcile(w, trace);
  }

  /** The controller can create a new ledger and consume the current request in it. */
  predicate CanConsumeAfresh(w: World) {
    Enabled(w, CreateLedger) && Enabled(Apply(w, CreateLedger), ConsumeRecovery)
  }

  /** The reconcile right after a deletion of the Secret creates a ledger and consumes the current request exactly when
      the status does not record it. A restart between consuming a request and publishing it leaves such a status. */
  lemma DeletedSecretReplaysIffStatusForgot(w: World)
    requires !w.secret.Foreign?
    ensures var w' := Apply(Apply(w, SecretDeleted), Restart);
            CanConsumeAfresh(w') <==> w.request != "" && !StatusRecords(w.status, w.request)
  {
    var w' := Apply(Apply(w, SecretDeleted), Restart);
    assert LastRecovery(w') == if w.status.account.Some? then w.status.account.value.recovery else "";
  }

  // ---------- What success of a recovery means ----------

  /** Every token on record is one that Home Assistant knows. */
  predicate TokensKnown(w: World) {
    && (w.book.session.newToken != "" ==> w.book.session.newToken in w.ha.tokens)
    && (w.secret.Ours? && w.secret.ledger.token != "" ==> w.secret.ledger.token in w.ha.tokens)
  }

  lemma TokensKnownStep(w: World, a: Action)
    requires TokensKnown(w) && Enabled(w, a)
    ensures TokensKnown(Apply(w, a)) && w.ha.tokens.Keys <= Apply(w, a).ha.tokens.Keys
  {
    if OnSecret(a) {
      TokensKnownToSecret(w, a);
    } else if OnAccounts(a) {
      TokensKnownToAccounts(w, a);
    } else {
      OtherActions(w, a);
    }
  }

  lemma TokensKnownToSecret(w: World, a: Action)
    requires TokensKnown(w) && Enabled(w, a) && OnSecret(a)
    ensures TokensKnown(Apply(w, a)) && Apply(w, a).ha == w.ha
  {
    SecretActions(w, a);
  }

  lemma TokensKnownToAccounts(w: World, a: Action)
    requires TokensKnown(w) && Enabled(w, a) && OnAccounts(a)
    ensures TokensKnown(Apply(w, a)) && w.ha.tokens.Keys <= Apply(w, a).ha.tokens.Keys
  {
    AccountActions(w, a);
  }

  lemma {:induction false} TokensAlwaysKnown(w: World, trace: seq<Action>)
    requires Initial(w) && ValidRun(w, trace)
    ensures TokensKnown(Run(w, trace))
  {
    if trace != [] {
      TokensAlwaysKnown(w, trace[..|trace| - 1]);
      TokensKnownStep(Run(w, trace[..|trace| - 1]), trace[|trace| - 1]);
    }
  }

  /** A run that consumes a request after `before` and does `after` next. */
  function Recovery(before: seq<Action>, after: seq<Action>): seq<Action> { before + [ConsumeRecovery] + after }

  lemma RecoveryPrefix(w: World, before: seq<Action>, after: seq<Action>)
    requires ValidRun(w, Recovery(before, after)) && after != []
    ensures var k := |after| - 1; var full := Recovery(before, after);
            && full[..|full| - 1] == Recovery(before, after[..k]) && full[|full| - 1] == after[k]
            && ValidRun(w, Recovery(before, after[..k]))
            && Enabled(Run(w, Recovery(before, after[..k])), after[k])
            && Run(w, full) == Apply(Run(w, Recovery(before, after[..k])), after[k])
  {
    var full := Recovery(before, after);
    assert full[..|full| - 1] == Recovery(before, after[..|after| - 1]);
  }

  predicate IssuedIn(trace: seq<Action>, token: string) { exists a <- trace :: a == IssueToken(token) }

  /** The steps `after` stored a token that they had issued before. */
  predicate StoresIssued(w: World, before: seq<Action>, after: seq<Action>)
    requires ValidRun(w, Recovery(before, after))
  {
    after != [] &&
      var k := |after| - 1;
      RecoveryPrefix(w, before, after);
      || StoresIssued(w, before, after[..k])
      || (after[k].StoreToken?
          && IssuedIn(after[..k], Run(w, Recovery(before, after[..k])).book.session.newToken))
  }

  /** No other recovery, and the Secret stays. */
  predicate Undivided(after: seq<Action>) { forall a <- after :: !a.ConsumeRecovery? && !a.SecretDeleted? }

  /** What is on record since the request was consumed, compared with the tokens known at that time. */
  predicate SinceConsumed(known: set<string>, now: World, stored: bool, after: seq<Action>) {
    var session, l := now.book.session.newToken, now.secret;
    && known <= now.ha.tokens.Keys && l.Ours?
    && (session != "" && session !in known ==> IssuedIn(after, session))
    && (l.ledger.token != "" && l.ledger.token !in known <==> stored)
    && (stored ==> session == "" || session !in known)
    && forall a <- after :: a.IssueToken? ==> a.token != "" && a.token !in known
  }

  /** The stored token changes by storing the session's one, and that by issuing or a restart. */
  lemma TokensAfter(w: World, a: Action)
    requires Enabled(w, a) && w.secret.Ours? && !a.ConsumeRecovery? && !a.SecretDeleted?
    ensures var w' := Apply(w, a);
            && w'.secret.Ours?
            && w'.secret.ledger.token == (if a.StoreToken? then w.book.session.newToken else w.secret.ledger.token)
            && w'.book.session.newToken == (if a.IssueToken? then a.token else if a.Restart? then ""
                                            else w.book.session.newToken)
    ensures a.IssueToken? ==> a.token != "" && a.token !in w.ha.tokens
    ensures a.StoreToken? ==> w.book.session.newToken != ""
  {
    if OnSecret(a) {
      SecretActions(w, a);
    } else if OnAccounts(a) {
      AccountActions(w, a);
    } else {
      OtherActions(w, a);
    }
  }

  lemma SinceConsumedAppend(known: set<string>, w: World, stored: bool, after: seq<Action>, a: Action)
    requires SinceConsumed(known, w, stored, after) && Enabled(w, a) && TokensKnown(w)
    requires !a.ConsumeRecovery? && !a.SecretDeleted?
    ensures SinceConsumed(known, Apply(w, a), stored || (a.StoreToken? && IssuedIn(after, w.book.session.newToken)),
                          after + [a])
  {
    TokensAfter(w, a);
    TokensKnownStep(w, a);
    forall t | IssuedIn(after, t)
      ensures IssuedIn(after + [a], t) && t !in known && t != ""
    {
      assert IssueToken(t) in after + [a];
    }
    if a.IssueToken? {
      assert a in after + [a];
    }
  }

  lemma SinceConsumedStep(known: set<string>, w: World, stored: bool, after: seq<Action>)
    requires after != []
    requires SinceConsumed(known, w, stored, after[..|after| - 1]) && TokensKnown(w)
    requires var a := after[|after| - 1]; Enabled(w, a) && !a.ConsumeRecovery? && !a.SecretDeleted?
    ensures var k := |after| - 1;
            SinceConsumed(known, Apply(w, after[k]),
                          stored || (after[k].StoreToken? && IssuedIn(after[..k], w.book.session.newToken)), after)
  {
    var k := |after| - 1;
    SinceConsumedAppend(known, w, stored, after[..k], after[k]);
    assert after == after[..k] + [after[k]];
  }

  lemma SinceConsumedStart(now: World)
    requires TokensKnown(now) && Enabled(now, ConsumeRecovery)
    ensures SinceConsumed(now.ha.tokens.Keys, Apply(now, ConsumeRecovery), false, [])
  {
  }

  lemma RecoveryStart(w: World, before: seq<Action>)
    requires ValidRun(w, before) && ValidRun(w, Recovery(before, []))
    ensures Enabled(Run(w, before), ConsumeRecovery)
    ensures Run(w, Recovery(before, [])) == Apply(Run(w, before), ConsumeRecovery)
  {
    assert Recovery(before, []) == before + [ConsumeRecovery] && (before + [ConsumeRecovery])[..|before|] == before;
  }

  lemma {:induction false} TokensSinceConsumed(w: World, before: seq<Action>, after: seq<Action>)
    requires Initial(w) && ValidRun(w, before) && ValidRun(w, Recovery(before, after)) && Undivided(after)
    ensures SinceConsumed(Run(w, before).ha.tokens.Keys, Run(w, Recovery(before, after)),
                          StoresIssued(w, before, after), after)
  {
    if after == [] {
      RecoveryStart(w, before);
      TokensAlwaysKnown(w, before);
      SinceConsumedStart(Run(w, before));
    } else {
      var sofar := after[..|after| - 1];
      RecoveryPrefix(w, before, after);
      assert after[|after| - 1] in after && forall a <- sofar :: a in after;
      TokensSinceConsumed(w, before, sofar);
      TokensAlwaysKnown(w, Recovery(before, sofar));
      SinceConsumedStep(Run(w, before).ha.tokens.Keys, Run(w, Recovery(before, sofar)),
                        StoresIssued(w, before, sofar), after);
    }
  }

  /** A recovery is recorded as succeeded when its ledger is marked Verified. Its token was unknown when the request
      was consumed exactly if a token issued since then was stored in between; otherwise it is an old one. */
  lemma SucceededMeansNewTokenIffStored(w: World, before: seq<Action>, after: seq<Action>)
    requires Initial(w) && ValidRun(w, before) && ValidRun(w, Recovery(before, after)) && Undivided(after)
    requires Enabled(Run(w, Recovery(before, after)), MarkVerified)
    ensures var done := Apply(Run(w, Recovery(before, after)), MarkVerified);
            && done.secret.ledger.stage.Verified? && done.secret.ledger.result.Succeeded?
            && (done.secret.ledger.token !in Run(w, before).ha.tokens <==> StoresIssued(w, before, after))
  {
    TokensSinceConsumed(w, before, after);
    RecoveryStays(w, before, after);
  }

  lemma {:induction false} RecoveryStays(w: World, before: seq<Action>, after: seq<Action>)
    requires ValidRun(w, Recovery(before, after)) && Undivided(after)
    ensures var now := Run(w, Recovery(before, after)); now.secret.Ours? && now.secret.ledger.recovery != ""
  {
    var full := Recovery(before, after);
    if after == [] {
      assert full[..|before|] == before && full[|before|] == ConsumeRecovery;
      LedgerStep(Run(w, before), ConsumeRecovery);
    } else {
      var k := |after| - 1;
      RecoveryPrefix(w, before, after);
      assert after[k] in after;
      RecoveryStays(w, before, after[..k]);
      LedgerStep(Run(w, Recovery(before, after[..k])), after[k]);
    }
  }

  // ---------- One identity, verified by observation ----------

  lemma AtMostOneOperatorUser(w: World, trace: seq<Action>)
    requires Initial(w) && ValidRun(w, trace)
    ensures |OperatorUsers(Run(w, trace))| <= 1
    ensures forall id <- OperatorUsers(Run(w, trace)) :: !Run(w, trace).ha.users[id].owner
  {
    RunKeepsInv(w, trace);
    var ids := OperatorUsers(Run(w, trace));
    if ids != {} {
      var id :| id in ids;
      assert ids == {id};
    }
  }

  /** At step `i` the ledger stored `token`, and Home Assistant said that it belongs to `user`, who
      is an administrator and not the owner. */
  predicate ObservedAt(w: World, trace: seq<Action>, i: nat, token: string, user: string)
    requires ValidRun(w, trace) && i < |trace|
  {
    PrefixValid(w, trace, i);
    var now := Run(w, trace[..i]);
    && trace[i].ObserveToken? && now.secret.Ours? && now.secret.ledger.token == token
    && token in now.ha.tokens && now.ha.tokens[token] == user && user in now.ha.users
    && now.ha.users[user].admin && !now.ha.users[user].owner
  }

  lemma SeenStep(w: World, a: Action, pair: (string, string))
    requires Enabled(w, a) && pair in Apply(w, a).book.seen && pair !in w.book.seen
    ensures && a.ObserveToken? && w.secret.Ours? && w.secret.ledger.token == pair.0
            && pair.0 in w.ha.tokens && w.ha.tokens[pair.0] == pair.1 && pair.1 in w.ha.users
            && w.ha.users[pair.1].admin && !w.ha.users[pair.1].owner
  {
  }

  lemma {:induction false} SeenWasObserved(w: World, trace: seq<Action>, token: string, user: string) returns (i: nat)
    requires Initial(w) && ValidRun(w, trace)
    requires (token, user) in Run(w, trace).book.seen
    ensures i < |trace| && ObservedAt(w, trace, i, token, user)
  {
    var n := |trace| - 1;
    assert trace != [];
    var before := trace[..n];
    if (token, user) in Run(w, before).book.seen {
      i := SeenWasObserved(w, before, token, user);
      assert before[..i] == trace[..i];
    } else {
      SeenStep(Run(w, before), trace[n], (token, user));
      i := n;
    }
  }

  /** A Verified ledger holds a token that was observed, while it was stored there, to belong to
      exactly the recorded user, a non-owner administrator; unless that user was deleted since, it is
      the only one with the operator's name. */
  lemma VerifiedMeansObserved(w: World, trace: seq<Action>) returns (i: nat)
    requires Initial(w) && ValidRun(w, trace)
    requires Run(w, trace).secret.Ours? && Run(w, trace).secret.ledger.stage.Verified?
    ensures var l := Run(w, trace).secret.ledger;
            && i < |trace| && ObservedAt(w, trace, i, l.token, l.user)
            && (l.user !in Run(w, trace).ha.retired ==> OperatorUsers(Run(w, trace)) == {l.user})
  {
    RunKeepsInv(w, trace);
    var l := Run(w, trace).secret.ledger;
    i := SeenWasObserved(w, trace, l.token, l.user);
  }

  // ---------- The owner password is retired ----------

  /** The session open at the end of `trace` consumed a recovery request at step `j`. */
  predicate ConsumedInSession(trace: seq<Action>, j: nat) {
    j < |trace| && trace[j].ConsumeRecovery? && forall k :: j < k < |trace| ==> !trace[k].Restart?
  }

  lemma {:induction false} RecoveringSession(w: World, trace: seq<Action>) returns (j: nat)
    requires Initial(w) && ValidRun(w, trace) && Run(w, trace).book.session.recovering
    ensures ConsumedInSession(trace, j)
  {
    if trace == [] {
      assert false;
    }
    var n := |trace| - 1;
    var before := trace[..n];
    var now := Run(w, before);
    BookStep(now, trace[n]);
    if trace[n].ConsumeRecovery? {
      j := n;
    } else {
      assert now.book.session.recovering && !trace[n].Restart?;
      j := RecoveringSession(w, before);
      assert forall k :: j < k < n ==> before[k] == trace[k];
    }
  }

  /** The action writes Verified to the ledger or to the status. */
  predicate PersistsVerified(a: Action) { a.MarkVerified? || (a.PublishStatus? && a.verified) }

  lemma VerifiedIsRemembered(w: World, a: Action)
    requires RetirementInv(w) && Enabled(w, a) && PersistsVerified(a)
    ensures Apply(w, a).book.everVerified
  {
    BookStep(w, a);
  }

  lemma RememberedStays(w: World, a: Action)
    requires Enabled(w, a) && w.book.everVerified
    ensures Apply(w, a).book.everVerified
  {
    BookStep(w, a);
  }

  lemma OwnerNeedsRecovery(w: World, a: Action)
    requires RetirementInv(w) && Enabled(w, a) && UsesOwnerPassword(a) && w.book.everVerified
    ensures w.book.session.recovering
  {
  }

  /** Every step of a run is enabled where it is taken. */
  lemma StepOfRun(w: World, trace: seq<Action>, i: nat)
    requires ValidRun(w, trace) && i < |trace|
    ensures ValidRun(w, trace[..i]) && Enabled(Run(w, trace[..i]), trace[i])
    ensures ValidRun(w, trace[..i + 1]) && Run(w, trace[..i + 1]) == Apply(Run(w, trace[..i]), trace[i])
  {
    PrefixValid(w, trace, i);
    PrefixValid(w, trace, i + 1);
    assert trace[..i + 1][..i] == trace[..i];
  }

  lemma {:induction false} RememberedOn(w: World, trace: seq<Action>, n: nat)
    requires ValidRun(w, trace) && n <= |trace| && ValidRun(w, trace[..n]) && Run(w, trace[..n]).book.everVerified
    ensures Run(w, trace).book.everVerified
  {
    if n == |trace| {
      assert trace[..n] == trace;
    } else {
      var before := trace[..|trace| - 1];
      assert before[..n] == trace[..n];
      RememberedOn(w, before, n);
      RememberedStays(Run(w, before), trace[|trace| - 1]);
    }
  }

  lemma EverVerified(w: World, trace: seq<Action>, k: nat)
    requires Initial(w) && ValidRun(w, trace) && k < |trace| && PersistsVerified(trace[k])
    ensures Run(w, trace).book.everVerified
  {
    StepOfRun(w, trace, k);
    RunKeepsInv(w, trace[..k]);
    VerifiedIsRemembered(Run(w, trace[..k]), trace[k]);
    RememberedOn(w, trace, k + 1);
  }

  /** Once Verified was persisted, in the ledger or in the status, the owner password is never used
      again unless the same reconcile consumed a recovery request before: after failed and
      interrupted recoveries, after status losses and after deletions of the Secret alike. */
  lemma OwnerPasswordRetired(w: World, trace: seq<Action>, k: nat, i: nat) returns (j: nat)
    requires Initial(w) && ValidRun(w, trace)
    requires k < i < |trace| && PersistsVerified(trace[k]) && UsesOwnerPassword(trace[i])
    ensures ConsumedInSession(trace[..i], j)
  {
    StepOfRun(w, trace, i);
    RunKeepsInv(w, trace[..i]);
    assert trace[..i][k] == trace[k];
    EverVerified(w, trace[..i], k);
    OwnerNeedsRecovery(Run(w, trace[..i]), trace[i]);
    j := RecoveringSession(w, trace[..i]);
  }

  // ---------- What the status keeps when the Secret goes ----------

  predicate StatusUntouched(trace: seq<Action>) { forall a <- trace :: !a.PublishStatus? && !a.StatusLost? }

  lemma {:induction false} StatusStays(w: World, trace: seq<Action>)
    requires ValidRun(w, trace) && StatusUntouched(trace)
    ensures Run(w, trace).status == w.status && Run(w, trace).target == w.target
  {
    if trace != [] {
      var n := |trace| - 1;
      assert forall a <- trace[..n] :: a in trace;
      assert trace[n] in trace;
      StatusStays(w, trace[..n]);
      StatusStep(Run(w, trace[..n]), trace[n]);
    }
  }

  lemma StatusStep(w: World, a: Action)
    requires Enabled(w, a) && !a.PublishStatus? && !a.StatusLost?
    ensures Apply(w, a).status == w.status && Apply(w, a).target == w.target
  {
  }

  /** Whatever happens to the Secret after a ledger was published, the ledger created in its place has the
      same user, and the same recovery request counts as the last one. Before the migration was verified it
      also has the legacy Secret that the status advertises. */
  lemma IdentityOutlivesSecret(w: World, verified: bool, view: Ledger, trace: seq<Action>)
    requires Enabled(w, PublishStatus(verified, Some(view)))
    requires var published := Apply(w, PublishStatus(verified, Some(view)));
             && ValidRun(published, trace) && StatusUntouched(trace)
             && Enabled(Run(published, trace), CreateLedger)
    ensures var now := Run(Apply(w, PublishStatus(verified, Some(view))), trace);
            var l := Apply(now, CreateLedger).secret.ledger;
            && LastRecovery(now) == view.recovery && l.user == view.user
            && l.stage.Provisioning? && l.token == "" && l.recovery == "" && !l.onboarding
            && (!verified && w.status.tokenSecretName != w.target ==> l.legacy == w.status.tokenSecretName)
            && (verified ==> l.legacy == "" && StatusVerified(now.status) && now.status.tokenReady)
            && (!verified ==> !now.status.tokenReady && (StatusVerified(now.status) <==> StatusVerified(w.status)))
  {
    StatusStays(Apply(w, PublishStatus(verified, Some(view))), trace);
  }

  // ---------- Selecting the runtime token ----------

  /** The mode of spec.bootstrap.operatorAccount, which may be missing. */
  datatype Mode = NoAccount | Legacy | Dedicated

  datatype TokenError = LedgerMissing | LedgerMalformed | SecretNotFound | TokenKeyMissing

  /** What a reader of plain token Secrets finds under a name; the operator's ledger can be read like one. */
  function SecretAt(w: World, name: string): Option<TokenSecret> {
    if name == w.target && w.secret.Absent? then None
    else if name == w.target && w.secret.Ours? then
      Some(TokenSecret(true, if w.secret.ledger.token == "" then None else Some(w.secret.ledger.token)))
    else if name in w.legacy then Some(w.legacy[name])
    else None
  }

  /** The answer is the token of this Secret, or says what is missing. */
  predicate AnswersFrom(w: World, name: string, r: Result<string, TokenError>) {
    if SecretAt(w, name).None? then r == Failure(SecretNotFound)
    else if SecretAt(w, name).value.token.None? then r == Failure(TokenKeyMissing)
    else r == Success(SecretAt(w, name).value.token.value)
  }

  /** The migration to the dedicated credential is under way. */
  predicate Migrating(w: World) {
    && w.status.tokenSecretName != "" && w.status.tokenSecretName != w.target
    && (w.status.account.None? || !w.status.account.value.phase.PhaseVerified?)
  }

  /** The token handed to the other controllers. `specName` is spec.bootstrap.apiTokenSecretName. */
  function GetApiToken(w: World, mode: Mode, haName: string, specName: string): (r: Result<string, TokenError>)
    ensures mode.Legacy? && specName != "" ==> AnswersFrom(w, specName, r)
    ensures !mode.Dedicated? && (mode.Legacy? ==> specName == "") ==>
              && (w.status.tokenSecretName != "" ==> AnswersFrom(w, w.status.tokenSecretName, r))
              && (w.status.tokenSecretName == "" ==> AnswersFrom(w, haName + "-homeassistant-api-token", r))
    ensures mode.Dedicated? && Migrating(w) ==> AnswersFrom(w, w.status.tokenSecretName, r)
    ensures mode.Dedicated? && !Migrating(w) ==>
              && (r == Failure(LedgerMissing) <==> w.secret.Absent?)
              && (r.Success? <==> w.secret.Ours? && w.secret.ledger.stage.Verified? && w.secret.ledger.user != ""
                                  && WellFormedToken(w.secret.ledger.token))
              && (r.Success? ==> r.value == w.secret.ledger.token)
              && (r.Failure? && !w.secret.Absent? ==> r == Failure(LedgerMalformed))
  {
    var migrating := mode.Dedicated? && w.status.tokenSecretName != "" && w.status.tokenSecretName != w.target
                     && (w.status.account.None? || !w.status.account.value.phase.PhaseVerified?);
    if mode.Dedicated? && !migrating then
      match w.secret
      case Absent => Failure(LedgerMissing)
      case Foreign => Failure(LedgerMalformed)
      case Ours(l) =>
        if !l.stage.Verified? || l.user == "" || !WellFormedToken(l.token) then Failure(LedgerMalformed)
        else Success(l.token)
    else
      var recorded := if w.status.tokenSecretName != "" then w.status.tokenSecretName
                      else haName + "-homeassistant-api-token";
      var name := if mode.Legacy? && specName != "" then specName else recorded;
      var secret := SecretAt(w, name);
      if secret.None? then Failure(SecretNotFound)
      else if secret.value.token.None? then Failure(TokenKeyMissing)
      else Success(secret.value.token.value)
  }

  /** Before the migration: a legacy token Secret, distinct from the target, is recorded and readable. */
  predicate Migratable(w: World) {
    && w.status.tokenSecretName != "" && w.status.tokenSecretName != w.target
    && w.status.tokenSecretName in w.legacy && w.legacy[w.status.tokenSecretName].token.Some?
  }

  /** Nothing but the controller, restarts and Home Assistant's own users act, and no recovery
      request is consumed; the tokens Home Assistant issues contain no white space. */
  predicate Undisturbed(trace: seq<Action>) {
    forall a <- trace ::
      !a.StatusLost? && !a.SecretDeleted? && !a.ForeignSecretCreated? && !a.LegacySecretsChanged?
      && !a.ConsumeRecovery?
      && (a.IssueToken? ==> WellFormedToken(a.token))
  }

  predicate MigrationState(w: World, now: World) {
    && now.legacy == w.legacy && now.target == w.target && !now.book.session.recovering && !now.secret.Foreign?
    && (now.book.session.newToken != "" ==> WellFormedToken(now.book.session.newToken))
    && (now.secret.Ours? && now.secret.ledger.token != "" ==> WellFormedToken(now.secret.ledger.token))
    && (if now.status.account.Some? && now.status.account.value.phase.PhaseVerified? then
          now.status.tokenSecretName == w.target && now.secret.Ours? && now.secret.ledger.stage.Verified?
        else
          now.status.tokenSecretName == w.status.tokenSecretName)
  }

  lemma MigrationStep(w: World, now: World, a: Action)
    requires Inv(now) && Enabled(now, a) && MigrationState(w, now) && Undisturbed([a])
    ensures MigrationState(w, Apply(now, a))
  {
    assert a in [a];
    BookStep(now, a);
  }

  lemma {:induction false} MigrationPhases(w: World, trace: seq<Action>)
    requires Initial(w) && ValidRun(w, trace) && Migratable(w) && Undisturbed(trace)
    ensures MigrationState(w, Run(w, trace))
  {
    if trace != [] {
      var n := |trace| - 1;
      assert forall a <- trace[..n] :: a in trace;
      MigrationPhases(w, trace[..n]);
      RunKeepsInv(w, trace[..n]);
      MigrationStep(w, Run(w, trace[..n]), trace[n]);
    }
  }

  /** A migration never leaves the other controllers without a token: in every reachable state the
      selection succeeds, with the legacy token until the status says Verified and with the observed
      dedicated token from then on. */
  lemma MigrationContinuity(w: World, trace: seq<Action>, haName: string, specName: string)
    requires Initial(w) && ValidRun(w, trace) && Migratable(w) && Undisturbed(trace)
    ensures var now := Run(w, trace);
            var token := GetApiToken(now, Dedicated, haName, specName);
            if now.status.account.Some? && now.status.account.value.phase.PhaseVerified? then
              && now.secret.Ours? && token == Success(now.secret.ledger.token)
              && (now.secret.ledger.token, now.secret.ledger.user) in now.book.seen
            else
              token == Success(w.legacy[w.status.tokenSecretName].token.value)
  {
    MigrationPhases(w, trace);
    RunKeepsInv(w, trace);
  }

  /** The Secrets' environment leaves one legacy Secret as it is. */
  predicate Retained(trace: seq<Action>, name: string, secret: TokenSecret) {
    forall a <- trace :: a.LegacySecretsChanged? ==> name in a.secrets && a.secrets[name] == secret
  }

  lemma {:induction false} RetainedStays(w: World, trace: seq<Action>, name: string)
    requires ValidRun(w, trace) && name in w.legacy && Retained(trace, name, w.legacy[name])
    ensures var now := Run(w, trace);
            now.target == w.target && name in now.legacy && now.legacy[name] == w.legacy[name]
  {
    if trace != [] {
      var n := |trace| - 1;
      assert forall a <- trace[..n] :: a in trace;
      RetainedStays(w, trace[..n], name);
      LegacyStep(Run(w, trace[..n]), trace[n]);
      assert trace[n] in trace;
    }
  }

  lemma LegacyStep(w: World, a: Action)
    requires Enabled(w, a)
    ensures Apply(w, a).target == w.target
    ensures Apply(w, a).legacy == if a.LegacySecretsChanged? then a.secrets else w.legacy
  {
  }

  /** The explicit rollback hands out the retained legacy token in every reachable state, whatever the
      status says and whatever became of the ledger. */
  lemma RollbackAlwaysHasToken(w: World, trace: seq<Action>, haName: string, specName: string)
    requires ValidRun(w, trace) && specName != "" && specName != w.target
    requires specName in w.legacy && w.legacy[specName].token.Some? && Retained(trace, specName, w.legacy[specName])
    ensures GetApiToken(Run(w, trace), Legacy, haName, specName) == Success(w.legacy[specName].token.value)
  {
    RetainedStays(w, trace, specName);
  }

  /** Going back without naming a Secret, or dropping the account altogether, changes no answer: throughout
      a migration and after it every mode hands out the same token. */
  lemma ModesAgreeInMigration(w: World, trace: seq<Action>, haName: string, specName: string)
    requires Initial(w) && ValidRun(w, trace) && Migratable(w) && Undisturbed(trace) && w.target != ""
    ensures var now := Run(w, trace);
            GetApiToken(now, Legacy, haName, "") == GetApiToken(now, NoAccount, haName, specName)
            == GetApiToken(now, Dedicated, haName, specName)
  {
    MigrationPhases(w, trace);
    MigrationContinuity(w, trace, haName, specName);
    RunKeepsInv(w, trace);
  }

  /** In dedicated mode no caller ever receives a token from a ledger that is not Verified. */
  lemma SelectedTokenIsVerifiedOrLegacy(w: World, trace: seq<Action>, haName: string, specName: string)
    requires Initial(w) && ValidRun(w, trace)
    ensures var now := Run(w, trace);
            var token := GetApiToken(now, Dedicated, haName, specName);
            token.Success? ==>
              || (now.secret.Ours? && token.value == now.secret.ledger.token && now.secret.ledger.stage.Verified?
                  && (token.value, now.secret.ledger.user) in now.book.seen)
              || (now.status.tokenSecretName !in {"", now.target} && now.status.tokenSecretName in now.legacy
                  && now.legacy[now.status.tokenSecretName].token == Some(token.value))
  {
    RunKeepsInv(w, trace);
  }
}
