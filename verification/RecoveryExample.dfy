/** Runs from a fresh instance in which a recovery does not mean what it says: an interrupted one ends as succeeded with
    the old token, and a consumed request is consumed again. */
module RecoveryExample {
  import opened Wrappers
  import opened CredentialProtocol
  import opened CredentialRuns

  /** The worlds of the example: an instance with one Home Assistant user at most. */
  function Instance(secret: Secret, users: map<string, User>, tokens: map<string, string>, onboarded: bool,
                    request: string, book: Book): World
  {
    World("u", "t", NoStatus, secret, HomeAssistant(onboarded, users, {}, tokens), request, map[], book)
  }

  /** Nobody has onboarded the instance, and the dedicated mode was just switched on. */
  function Fresh(): World { Instance(Absent, map[], map[], false, "", Book(NewSession, 0, 0, 0, 0, {}, false)) }

  function Operator(username: string): User { User(OperatorName("u"), username, false, true) }

  function Users(username: string): map<string, User> { map["x" := Operator(username)] }

  const ONBOARDING: seq<Action> := [CreateLedger, RememberOnboarding]
  const OWNER: seq<Action> := [BeginOnboarding, OwnerLogin]
  const CREATION: seq<Action> := [IntendCreation, CreateUser("x")]
  const ISSUING: seq<Action> := [RecordUser("x"), IntendIssue]
  const TOKEN: seq<Action> := [AttachLogin("x"), IssueToken("k")]
  const STORING: seq<Action> := [StoreToken, ObserveToken]
  const REQUEST: seq<Action> := [MarkVerified, RecoveryRequested("r")]

  /** The interrupted recovery, up to the observation of the next reconcile. */
  const INTERRUPTED: seq<Action> := [OwnerLogin, RecordUser("x"), IntendIssue, Restart, ObserveToken]

  lemma Onboarding() returns (w: World)
    ensures Leads(Fresh(), ONBOARDING, w)
    ensures w == Instance(Ours(Ledger(Provisioning, "", "", NoResult, "", true, "")), map[], map[], false, "",
                          Book(NewSession.(created := true), 0, 0, 0, 0, {}, false))
  {
    var w1 := Apply(Fresh(), CreateLedger);
    w := Apply(w1, RememberOnboarding);
    TwoSteps(Fresh(), CreateLedger, w1, RememberOnboarding, w);
  }

  lemma OwnerAccess(w: World) returns (w': World)
    requires w.secret == Ours(Ledger(Provisioning, "", "", NoResult, "", true, "")) && !StatusVerified(w.status)
    ensures Leads(w, OWNER, w') && w' == w.(ha := w.ha.(onboarded := true))
  {
    var w1 := Apply(w, BeginOnboarding);
    w' := Apply(w1, OwnerLogin);
    TwoSteps(w, BeginOnboarding, w1, OwnerLogin, w');
  }

  lemma Creation(w: World) returns (w': World)
    requires w.secret == Ours(Ledger(Provisioning, "", "", NoResult, "", true, "")) && w.uid == "u"
    requires w.ha.users == map[] && w.ha.retired == {}
    ensures Leads(w, CREATION, w')
    ensures w' == w.(secret := Ours(w.secret.ledger.(stage := Creating)), ha := w.ha.(users := Users("")))
  {
    var w1 := Apply(w, IntendCreation);
    w' := Apply(w1, CreateUser("x"));
    TwoSteps(w, IntendCreation, w1, CreateUser("x"), w');
  }

  lemma IntentToIssue(w: World) returns (w': World)
    requires w.secret == Ours(Ledger(Creating, "", "", NoResult, "", true, "")) && w.uid == "u"
             && w.ha.users == Users("")
    ensures Leads(w, ISSUING, w')
    ensures w' == w.(secret := Ours(w.secret.ledger.(user := "x", stage := Issuing)))
  {
    var w1 := Apply(w, RecordUser("x"));
    w' := Apply(w1, IntendIssue);
    TwoSteps(w, RecordUser("x"), w1, IntendIssue, w');
  }

  lemma Token(w: World) returns (w': World)
    requires w.secret == Ours(Ledger(Issuing, "x", "", NoResult, "", true, "")) && w.uid == "u"
    requires w.ha == HomeAssistant(true, Users(""), {}, map[])
    requires w.book == Book(NewSession.(created := true), 0, 0, 0, 0, {}, false)
    ensures Leads(w, TOKEN, w')
    ensures w' == w.(ha := HomeAssistant(true, Users(OperatorUsername("u")), {}, map["k" := "x"]),
                     book := Book(NewSession.(created := true, attached := true, issued := true, newToken := "k"),
                                  0, 1, 1, 0, {}, false))
  {
    var w1 := Apply(w, AttachLogin("x"));
    w' := Apply(w1, IssueToken("k"));
    TwoSteps(w, AttachLogin("x"), w1, IssueToken("k"), w');
  }

  lemma Storing(w: World) returns (w': World)
    requires w.secret == Ours(Ledger(Issuing, "x", "", NoResult, "", true, "")) && w.book.session.newToken == "k"
    requires w.ha == HomeAssistant(true, Users(OperatorUsername("u")), {}, map["k" := "x"])
    ensures Leads(w, STORING, w')
    ensures w' == w.(secret := Ours(Ledger(Issuing, "x", "", NoResult, "", true, "k")), book := w'.book)
    ensures w'.book.session.checked == Some(("k", "x"))
  {
    var w1 := Apply(w, StoreToken);
    w' := Apply(w1, ObserveToken);
    TwoSteps(w, StoreToken, w1, ObserveToken, w');
  }

  lemma Request(w: World) returns (w': World)
    requires w.secret == Ours(Ledger(Issuing, "x", "", NoResult, "", true, "k"))
    requires w.book.session.checked == Some(("k", "x"))
    ensures Leads(w, REQUEST, w')
    ensures w' == w.(secret := Ours(Ledger(Verified, "x", "", NoResult, "", true, "k")), request := "r",
            book := w'.book)
  {
    var w1 := Apply(w, MarkVerified);
    w' := Apply(w1, RecoveryRequested("r"));
    TwoSteps(w, MarkVerified, w1, RecoveryRequested("r"), w');
  }

  /** From the fresh instance to a verified credential and a new recovery request. */
  lemma UpToRequest() returns (before: seq<Action>, w: World)
    ensures Leads(Fresh(), before, w) && w == Instance(w.secret, w.ha.users, w.ha.tokens, true, "r", w.book)
    ensures w.secret == Ours(Ledger(Verified, "x", "", NoResult, "", true, "k")) && w.book.session == NewSession
    ensures w.ha == HomeAssistant(true, Users(OperatorUsername("u")), {}, map["k" := "x"])
  {
    var w0 := Fresh();
    var w1 := Onboarding();
    var w2 := OwnerAccess(w1);
    var w3 := Creation(w2);
    var w4 := IntentToIssue(w3);
    var w5 := Token(w4);
    var w6 := Storing(w5);
    var w7 := Request(w6);
    LeadsChain(w0, ONBOARDING, w1, OWNER, w2);
    LeadsChain(w0, ONBOARDING + OWNER, w2, CREATION, w3);
    LeadsChain(w0, ONBOARDING + OWNER + CREATION, w3, ISSUING, w4);
    LeadsChain(w0, ONBOARDING + OWNER + CREATION + ISSUING, w4, TOKEN, w5);
    LeadsChain(w0, ONBOARDING + OWNER + CREATION + ISSUING + TOKEN, w5, STORING, w6);
    var steps := ONBOARDING + OWNER + CREATION + ISSUING + TOKEN + STORING;
    LeadsChain(w0, steps, w6, REQUEST, w7);
    LeadsOn(w0, steps + REQUEST, w7, Restart);
    before, w := steps + REQUEST + [Restart], Apply(w7, Restart);
  }

  lemma ConsumeAndLogin(w: World) returns (w': World)
    requires w.secret == Ours(Ledger(Verified, "x", "", NoResult, "", true, "k")) && w.request == "r"
    requires w.book.session == NewSession
    ensures Leads(w, [ConsumeRecovery, OwnerLogin], w')
    ensures w' == w.(secret := Ours(Ledger(Recovering, "x", "r", Failed, "", true, "k")), book := w'.book)
    ensures w'.book.session.recovering
  {
    var w1 := Apply(w, ConsumeRecovery);
    w' := Apply(w1, OwnerLogin);
    TwoSteps(w, ConsumeRecovery, w1, OwnerLogin, w');
  }

  lemma Intent(w: World) returns (w': World)
    requires w.secret == Ours(Ledger(Recovering, "x", "r", Failed, "", true, "k")) && w.book.session.recovering
    requires w.uid == "u" && w.ha.users == Users(OperatorUsername("u"))
    ensures Leads(w, ISSUING, w') && w' == w.(secret := Ours(Ledger(Issuing, "x", "r", Failed, "", true, "k")))
  {
    var w1 := Apply(w, RecordUser("x"));
    w' := Apply(w1, IntendIssue);
    TwoSteps(w, RecordUser("x"), w1, IntendIssue, w');
  }

  lemma NextReconcile(w: World) returns (w': World)
    requires w.secret == Ours(Ledger(Issuing, "x", "r", Failed, "", true, "k"))
    requires w.ha == HomeAssistant(true, Users(OperatorUsername("u")), {}, map["k" := "x"])
    ensures Leads(w, [Restart, ObserveToken], w') && w'.secret == w.secret && w'.ha == w.ha
    ensures w'.book.session.checked == Some(("k", "x"))
  {
    var w1 := Apply(w, Restart);
    w' := Apply(w1, ObserveToken);
    TwoSteps(w, Restart, w1, ObserveToken, w');
  }

  /** Success does not mean a new token: in this run from a fresh instance the recovery stops after writing Issuing,
      the next reconcile finds the old token working, and marks the recovery succeeded. */
  lemma SucceededMayMeanOldToken() returns (w: World, before: seq<Action>, after: seq<Action>)
    ensures Initial(w) && ValidRun(w, before) && ValidRun(w, Recovery(before, after)) && Undivided(after)
    ensures OwnerLogin in after && Enabled(Run(w, Recovery(before, after)), MarkVerified)
    ensures var done := Apply(Run(w, Recovery(before, after)), MarkVerified);
            && done.secret.ledger.stage.Verified? && done.secret.ledger.result.Succeeded?
            && done.secret.ledger.token in Run(w, before).ha.tokens && !StoresIssued(w, before, after)
  {
    var now;
    w, after := Fresh(), INTERRUPTED;
    before, now := UpToRequest();
    var w1 := ConsumeAndLogin(now);
    var w2 := Intent(w1);
    var w3 := NextReconcile(w2);
    LeadsChain(w, before, now, [ConsumeRecovery, OwnerLogin], w1);
    LeadsChain(w, before + [ConsumeRecovery, OwnerLogin], w1, ISSUING, w2);
    LeadsChain(w, before + [ConsumeRecovery, OwnerLogin] + ISSUING, w2, [Restart, ObserveToken], w3);
    assert Recovery(before, after) == before + [ConsumeRecovery, OwnerLogin] + ISSUING + [Restart, ObserveToken];
    SucceededMeansNewTokenIffStored(w, before, after);
  }

  // ---------- A request consumed twice ----------

  const FIRST: seq<Action> := [RecoveryRequested("r"), CreateLedger]
  const LOST: seq<Action> := [SecretDeleted, Restart]
  const OTHER: seq<Action> := [RecoveryRequested("s"), CreateLedger]
  const AGAIN: seq<Action> := [Restart, RecoveryRequested("r")]

  function Consuming(): Ledger { Ledger(Recovering, "", "r", Failed, "", false, "") }

  /** The status after the first request was published. */
  function Published(): Status { NextStatus(NoStatus, "t", false, Some(Consuming())) }

  const PUBLISH := PublishStatus(false, Some(Consuming()))

  lemma RequestFirst() returns (w: World)
    ensures Leads(Fresh(), FIRST, w) && Consumed(Fresh(), FIRST) == []
    ensures w == Fresh().(request := "r", secret := w.secret, book := w.book)
    ensures w.secret == Ours(Ledger(Provisioning, "", "", NoResult, "", false, ""))
  {
    var w1 := Apply(Fresh(), RecoveryRequested("r"));
    w := Apply(w1, CreateLedger);
    TwoSteps(Fresh(), RecoveryRequested("r"), w1, CreateLedger, w);
    assert [] + FIRST == FIRST;
    NothingMoreConsumed(Fresh(), [], FIRST);
  }

  /** The request is consumed and its record published in the status. */
  lemma ConsumeAndPublish() returns (w: World)
    ensures Leads(Fresh(), FIRST + [ConsumeRecovery] + [PUBLISH], w)
    ensures Consumed(Fresh(), FIRST + [ConsumeRecovery] + [PUBLISH]) == ["r"]
    ensures w.secret == Ours(Consuming()) && w.status == Published() && w.request == "r"
  {
    var w1 := RequestFirst();
    var w2 := Apply(w1, ConsumeRecovery);
    LeadsOn(Fresh(), FIRST, w1, ConsumeRecovery);
    OneMoreConsumed(Fresh(), FIRST);
    w := Apply(w2, PUBLISH);
    LeadsOn(Fresh(), FIRST + [ConsumeRecovery], w2, PUBLISH);
    NothingMoreConsumed(Fresh(), FIRST + [ConsumeRecovery], [PUBLISH]);
  }

  /** The Secret is deleted, and a ledger for another request is created by a reconcile that stops there. */
  lemma OtherLedger(w: World) returns (w': World)
    requires w.secret == Ours(Consuming()) && w.status == Published() && w.request == "r"
    ensures Leads(w, LOST + OTHER, w')
    ensures w'.secret.Ours? && w'.secret.ledger.recovery == "" && w'.status == w.status
  {
    var w1 := Apply(w, SecretDeleted);
    var w2 := Apply(w1, Restart);
    TwoSteps(w, SecretDeleted, w1, Restart, w2);
    var w3 := Apply(w2, RecoveryRequested("s"));
    w' := Apply(w3, CreateLedger);
    TwoSteps(w2, RecoveryRequested("s"), w3, CreateLedger, w');
    LeadsChain(w, LOST, w2, OTHER, w');
  }

  /** The first request is set again. */
  lemma RequestAgain(w: World) returns (w': World)
    requires w.secret.Ours? && w.secret.ledger.recovery == ""
    ensures Leads(w, AGAIN, w') && Enabled(w', ConsumeRecovery) && w'.request == "r" && w'.status == w.status
  {
    var w1 := Apply(w, Restart);
    w' := Apply(w1, RecoveryRequested("r"));
    TwoSteps(w, Restart, w1, RecoveryRequested("r"), w');
  }

  /** A run from a fresh instance that is about to consume its last consumed request again, although the status
      records it. */
  lemma RequestConsumedTwice() returns (w: World, steps: seq<Action>)
    ensures Initial(w) && ValidRun(w, steps) && Consumed(w, steps) == ["r"]
    ensures var now := Run(w, steps);
            now.request == "r" && StatusRecords(now.status, "r") && Enabled(now, ConsumeRecovery)
    ensures ValidRun(w, steps + [ConsumeRecovery]) && Consumed(w, steps + [ConsumeRecovery]) == ["r", "r"]
  {
    w := Fresh();
    var consumed, rest := FIRST + [ConsumeRecovery] + [PUBLISH], LOST + OTHER + AGAIN;
    var w1 := ConsumeAndPublish();
    var w2 := OtherLedger(w1);
    var w3 := RequestAgain(w2);
    LeadsChain(w1, LOST + OTHER, w2, AGAIN, w3);
    LeadsChain(w, consumed, w1, rest, w3);
    NothingMoreConsumed(w, consumed, rest);
    steps := consumed + rest;
    OneMoreConsumed(w, steps);
  }
}
