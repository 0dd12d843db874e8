/** What every run of the repository protocol keeps. */
module RepositoryRuns {
  import opened Wrappers
  import opened RepositoryEntries
  import opened Catalog
  import opened RepositoryProtocol

  ghost predicate ValidRun(w: World, trace: seq<Action>)
    decreases |trace|, 0
  {
    trace == [] ||
    (ValidRun(w, trace[..|trace| - 1]) && Enabled(Run(w, trace[..|trace| - 1]), trace[|trace| - 1]))
  }

  ghost function Run(w: World, trace: seq<Action>): World
    requires ValidRun(w, trace)
    decreases |trace|, 1
  {
    if trace == [] then w else Apply(Run(w, trace[..|trace| - 1]), trace[|trace| - 1])
  }

  lemma RunStep(w: World, trace: seq<Action>, a: Action)
    requires ValidRun(w, trace) && Enabled(Run(w, trace), a)
    ensures ValidRun(w, trace + [a]) && Run(w, trace + [a]) == Apply(Run(w, trace), a)
  {
    assert (trace + [a])[..|trace|] == trace;
  }

  /** The steps lead from one world to another. */
  ghost predicate Leads(w: World, steps: seq<Action>, w': World) { ValidRun(w, steps) && Run(w, steps) == w' }

  lemma LeadsOn(w: World, steps: seq<Action>, now: World, a: Action)
    requires Leads(w, steps, now) && Enabled(now, a)
    ensures Leads(w, steps + [a], Apply(now, a))
  {
    RunStep(w, steps, a);
  }

  lemma LeadsTwo(w: World, steps: seq<Action>, now: World, a: Action, b: Action)
    requires Leads(w, steps, now) && Enabled(now, a) && Enabled(Apply(now, a), b)
    ensures Leads(w, steps + [a] + [b], Apply(Apply(now, a), b))
  {
    LeadsOn(w, steps, now, a);
    LeadsOn(w, steps + [a], Apply(now, a), b);
  }

  lemma {:induction false} RunKeepsInv(w: World, trace: seq<Action>)
    requires Initial(w) && ValidRun(w, trace)
    ensures Inv(Run(w, trace))
  {
    if trace != [] {
      RunKeepsInv(w, trace[..|trace| - 1]);
      StepKeepsInv(Run(w, trace[..|trace| - 1]), trace[|trace| - 1]);
    }
  }

  // ---------- Mutual exclusion ----------

  /** Whatever crashes between the writes of a reconcile, two live resources never both occupy one component. */
  lemma MutualExclusion(w: World, trace: seq<Action>, m: string, n: string)
    requires Initial(w) && ValidRun(w, trace) && m != n
    requires var now := Run(w, trace);
             m in now.resources && n in now.resources && Active(now.resources[m]) && Active(now.resources[n])
    ensures var a, b := Run(w, trace).resources[m], Run(w, trace).resources[n];
            (a.home, a.category, a.status.target) != (b.home, b.category, b.status.target)
  {
    RunKeepsInv(w, trace);
  }

  // ---------- The settle delay ----------

  /** When the resource last entered Installing. */
  ghost function LastBegin(w: World, trace: seq<Action>, name: string): Option<nat>
    requires ValidRun(w, trace)
  {
    if trace == [] then None
    else
      var before := Run(w, trace[..|trace| - 1]);
      if trace[|trace| - 1].BeginInstalling? && before.work.value.name == name then Some(before.now)
      else LastBegin(w, trace[..|trace| - 1], name)
  }

  /** A step leaves the clock of a resource that stays in Installing alone, and only BeginInstalling starts it. */
  lemma ClockKept(w: World, a: Action, name: string)
    requires Inv(w) && Enabled(w, a)
    requires name in Apply(w, a).resources && Apply(w, a).resources[name].status.phase.Installing?
    ensures if a.BeginInstalling? && w.work.value.name == name then
              Apply(w, a).resources[name].status.since == Some(Stamp(w.now))
            else
              && name in w.resources && w.resources[name].status.phase.Installing?
              && Apply(w, a).resources[name].status.since == w.resources[name].status.since
  {
  }

  lemma {:induction false} ClockFromEntry(w: World, trace: seq<Action>, name: string)
    requires Initial(w) && ValidRun(w, trace)
    requires name in Run(w, trace).resources && Run(w, trace).resources[name].status.phase.Installing?
    ensures var t := LastBegin(w, trace, name);
            t.Some? && Run(w, trace).resources[name].status.since == Some(Stamp(t.value))
  {
    if trace != [] {
      var k := |trace| - 1;
      RunKeepsInv(w, trace[..k]);
      ClockKept(Run(w, trace[..k]), trace[k], name);
      if !(trace[k].BeginInstalling? && Run(w, trace[..k]).work.value.name == name) {
        ClockFromEntry(w, trace[..k], name);
      }
    }
  }

  /** A hot-reload component is never activated before the settle delay, up to the second that stored times lose,
      and never after the retry window. */
  lemma ActivationSettles(w: World, trace: seq<Action>, name: string)
    requires Initial(w) && ValidRun(w, trace) && Enabled(Run(w, trace), Activate(name))
    requires Run(w, trace).resources[name].category != INTEGRATION
    ensures var t := LastBegin(w, trace, name);
            && t.Some?
            && SETTLE_DELAY - 1000 < Run(w, trace).now - t.value <= SETTLE_DELAY + RETRY_WINDOW
  {
    ClockFromEntry(w, trace, name);
  }

  // ---------- Which entries of the list belong to a resource ----------

  predicate ClaimedBy(r: Resource, home: string, key: string) {
    r.home == home && r.status.target != "" && TargetKey(r) == key
  }

  /** A key is accounted for by a resource's recorded target, or by the reconcile that is replacing it. */
  predicate Claimed(w: World, home: string, key: string) {
    || (exists n <- w.resources :: ClaimedBy(w.resources[n], home, key))
    || (w.work.Some? && ReplacedKey(w, w.work.value, home, key))
  }

  predicate ReplacedKey(w: World, k: Work, home: string, key: string) {
    && k.saved && !k.published && k.previous != ""
    && k.name in w.resources && w.resources[k.name].home == home
    && EntryKey(w.resources[k.name].category, k.previous) == key
  }

  predicate Accounted(w: World) {
    forall h <- w.lists :: forall key <- Entries(w, h) :: Claimed(w, h, key)
  }

  /** Lists exist only for existing Home Assistants; only finalized resources have a target. */
  predicate HouseInv(w: World) {
    && w.lists.Keys <= w.homes.Keys
    && forall n <- w.resources :: w.resources[n].finalizer || w.resources[n].status.target == ""
  }

  lemma HouseStep(w: World, a: Action)
    requires Inv(w) && HouseInv(w) && Enabled(w, a)
    ensures HouseInv(Apply(w, a))
  {
  }

  /** The resource's entry is listed and nothing else accounts for it. */
  predicate SoleClaim(w: World, name: string)
    requires name in w.resources
  {
    var r := w.resources[name];
    && r.status.target != "" && TargetKey(r) in Entries(w, r.home)
    && forall n <- w.resources :: n != name ==> !ClaimedBy(w.resources[n], r.home, TargetKey(r))
  }

  /** The steps that leave an entry behind: a restart between recording a new target and publishing it, a deletion
      whose Home Assistant could not be read, a lost status, and publishing an empty target. */
  predicate Leaks(w: World, a: Action) {
    match a
    case Restart =>
      && w.work.Some? && w.work.value.name in w.resources
      && var k := w.work.value; var r := w.resources[k.name]; var key := EntryKey(r.category, k.previous);
         && k.saved && !k.published && k.previous != "" && key in Entries(w, r.home)
         && forall n <- w.resources :: !ClaimedBy(w.resources[n], r.home, key)
    case Release(name, _) => name in w.resources && SoleClaim(w, name)
    case StatusLost(name) => name in w.resources && SoleClaim(w, name)
    case Publish(_) =>
      && w.work.Some? && w.work.value.name in w.resources && w.work.value.target == ""
      && var r := w.resources[w.work.value.name];
         forall n <- w.resources :: !ClaimedBy(w.resources[n], r.home, EntryKey(r.category, ""))
    case _ => false
  }

  lemma PublishedList(w: World, a: Action)
    requires Enabled(w, a) && a.Publish?
    ensures var k := w.work.value; var home := w.resources[k.name].home;
            Indexed(a.entries) == Upserted(Entries(w, home), WorkEntry(w, k), k.previous)
  {
    var k := w.work.value;
    EncodeDecode(a.entries, Upserted(Entries(w, w.resources[k.name].home), WorkEntry(w, k), k.previous));
  }

  lemma PublishedEntries(w: World, a: Action, home: string)
    requires Enabled(w, a) && a.Publish?
    ensures var k := w.work.value; var r := w.resources[k.name];
            Entries(Apply(w, a), home)
            == (if home == r.home then Upserted(Entries(w, home), WorkEntry(w, k), k.previous) else Entries(w, home))
  {
    PublishedList(w, a);
  }

  lemma WithdrawnEntries(w: World, a: Action, home: string)
    requires Enabled(w, a) && a.Withdraw?
    ensures var r := w.resources[a.name];
            Entries(Apply(w, a), home)
            == (if home == r.home then Removed(Entries(w, home), r.category, r.status.target) else Entries(w, home))
  {
    var r := w.resources[a.name];
    EncodeDecode(a.entries, Removed(Entries(w, r.home), r.category, r.status.target));
  }

  predicate SlotKept(r: Resource, r': Resource) {
    r'.home == r.home && r'.category == r.category && r'.status.target == r.status.target
  }

  /** Only recording a target, removing the resource and losing its status change what it claims. */
  lemma SlotStep(w: World, a: Action, n: string)
    requires WorkInv(w) && Enabled(w, a) && n in w.resources
    ensures || (a.SaveTarget? && w.work.value.name == n)
            || ((a.Release? || a.StatusLost?) && a.name == n)
            || (a.DeletionRequested? && a.name == n && !w.resources[n].finalizer)
            || (n in Apply(w, a).resources && SlotKept(w.resources[n], Apply(w, a).resources[n]))
  {
  }

  lemma ResourceClaimKept(w: World, a: Action, n: string, home: string, key: string)
    requires WorkInv(w) && Enabled(w, a) && !a.Publish? && !Leaks(w, a)
    requires n in w.resources && ClaimedBy(w.resources[n], home, key) && key in Entries(w, home)
    requires HouseInv(w)
    ensures Claimed(Apply(w, a), home, key)
  {
    var w' := Apply(w, a);
    SlotStep(w, a, n);
    if a.SaveTarget? && n == w.work.value.name {
      assert ReplacedKey(w', w'.work.value, home, key);
    } else if n in w'.resources && SlotKept(w.resources[n], w'.resources[n]) {
      assert ClaimedBy(w'.resources[n], home, key);
    } else {
      OtherClaims(w, a, n, home, key);
    }
  }

  /** A resource that goes without leaking leaves another one that claims the same key. */
  lemma OtherClaims(w: World, a: Action, n: string, home: string, key: string)
    requires Enabled(w, a) && (a.Release? || a.StatusLost?) && a.name == n && !Leaks(w, a)
    requires n in w.resources && ClaimedBy(w.resources[n], home, key) && key in Entries(w, home)
    ensures Claimed(Apply(w, a), home, key)
  {
    var m :| m in w.resources && m != n && ClaimedBy(w.resources[m], home, key);
    assert ClaimedBy(Apply(w, a).resources[m], home, key);
  }

  lemma ClaimsKept(w: World, a: Action, home: string, key: string)
    requires Inv(w) && HouseInv(w) && Enabled(w, a) && Claimed(w, home, key) && !a.Publish?
    requires key in Entries(w, home)
    requires !Leaks(w, a)
    ensures Claimed(Apply(w, a), home, key)
  {
    if n :| n in w.resources && ClaimedBy(w.resources[n], home, key) {
      ResourceClaimKept(w, a, n, home, key);
    } else {
      assert w.work.Some? && !a.Restart?;
      assert ReplacedKey(Apply(w, a), Apply(w, a).work.value, home, key);
    }
  }

  lemma PublishClaims(w: World, a: Action, home: string, key: string)
    requires Inv(w) && HouseInv(w) && Enabled(w, a) && a.Publish? && Accounted(w) && !Leaks(w, a)
    requires key in Entries(Apply(w, a), home)
    ensures Claimed(Apply(w, a), home, key)
  {
    var w', k := Apply(w, a), w.work.value;
    var r := w.resources[k.name];
    PublishedEntries(w, a, home);
    if home == r.home && key == EntryKey(r.category, k.target) {
      if k.target == "" {
        var n :| n in w.resources && ClaimedBy(w.resources[n], home, key);
        assert ClaimedBy(w'.resources[n], home, key);
      } else {
        assert ClaimedBy(w'.resources[k.name], home, key);
      }
    } else {
      assert key in Entries(w, home);
      assert !ReplacedKey(w, k, home, key);
      var n :| n in w.resources && ClaimedBy(w.resources[n], home, key);
      assert ClaimedBy(w'.resources[n], home, key);
    }
  }

  lemma ListsKept(w: World, a: Action, home: string)
    requires Enabled(w, a) && !a.Publish? && !a.Withdraw? && a != HomeChanged(home, None)
    ensures ListOf(Apply(w, a), home) == ListOf(w, home)
    ensures home in Apply(w, a).lists <==> home in w.lists
  {
    if !a.HomeChanged? {
      assert Apply(w, a).lists == w.lists;
    }
  }

  lemma WithdrawOnlyRemoves(w: World, a: Action, home: string)
    requires Enabled(w, a) && !a.Publish?
    ensures home in Apply(w, a).lists ==> Entries(Apply(w, a), home).Keys <= Entries(w, home).Keys
  {
    if a.Withdraw? {
      WithdrawnEntries(w, a, home);
    } else if a != HomeChanged(home, None) {
      ListsKept(w, a, home);
    }
  }

  /** A leaking step leaves a key that nothing accounts for. */
  lemma LeakShows(w: World, a: Action)
    requires Inv(w) && HouseInv(w) && Enabled(w, a) && Leaks(w, a)
    ensures !Accounted(Apply(w, a))
  {
    var w' := Apply(w, a);
    match a
    case Restart =>
      var k := w.work.value;
      var r := w.resources[k.name];
      assert EntryKey(r.category, k.previous) in Entries(w', r.home);
      assert !Claimed(w', r.home, EntryKey(r.category, k.previous));
    case Publish(entries) =>
      var k := w.work.value;
      var r := w.resources[k.name];
      PublishedEntries(w, a, r.home);
      assert EntryKey(r.category, "") in Entries(w', r.home);
      assert !Claimed(w', r.home, EntryKey(r.category, ""));
    case Release(name, _) =>
      var r := w.resources[name];
      assert TargetKey(r) in Entries(w', r.home) && !Claimed(w', r.home, TargetKey(r));
    case StatusLost(name) =>
      var r := w.resources[name];
      assert TargetKey(r) in Entries(w', r.home) && !Claimed(w', r.home, TargetKey(r));
  }

  /** While every listed entry belongs to some resource, a step breaks that exactly when it is one of the leaks. The
      order of the two writes, target first and list second, is what makes the first leak possible. */
  lemma AccountedUnlessLeak(w: World, a: Action)
    requires Inv(w) && HouseInv(w) && Enabled(w, a) && Accounted(w)
    ensures Accounted(Apply(w, a)) <==> !Leaks(w, a)
  {
    if Leaks(w, a) {
      LeakShows(w, a);
    } else {
      var w' := Apply(w, a);
      forall h, key | h in w'.lists && key in Entries(w', h)
        ensures Claimed(w', h, key)
      {
        if a.Publish? {
          PublishClaims(w, a, h, key);
        } else {
          WithdrawOnlyRemoves(w, a, h);
          assert h in w.lists;
          ClaimsKept(w, a, h, key);
        }
      }
    }
  }

  lemma {:induction false} RunKeepsHouse(w: World, trace: seq<Action>)
    requires Initial(w) && ValidRun(w, trace)
    ensures HouseInv(Run(w, trace))
  {
    if trace != [] {
      RunKeepsInv(w, trace[..|trace| - 1]);
      RunKeepsHouse(w, trace[..|trace| - 1]);
      HouseStep(Run(w, trace[..|trace| - 1]), trace[|trace| - 1]);
    }
  }

  ghost predicate LeakFree(w: World, trace: seq<Action>)
    requires ValidRun(w, trace)
  {
    trace == [] || (LeakFree(w, trace[..|trace| - 1]) && !Leaks(Run(w, trace[..|trace| - 1]), trace[|trace| - 1]))
  }

  /** Without such a step every listed entry belongs to a resource, at every point of every run. */
  lemma {:induction false} NothingLeftBehind(w: World, trace: seq<Action>)
    requires Initial(w) && ValidRun(w, trace) && LeakFree(w, trace)
    ensures Accounted(Run(w, trace))
  {
    if trace != [] {
      var before := trace[..|trace| - 1];
      NothingLeftBehind(w, before);
      RunKeepsInv(w, before);
      RunKeepsHouse(w, before);
      AccountedUnlessLeak(Run(w, before), trace[|trace| - 1]);
    }
  }

  /** A step after which some resource claims the key: it records the target, or the Home Assistant goes away. */
  predicate Reclaims(w: World, a: Action, home: string, key: string) {
    || (a.SaveTarget? && w.work.Some? && w.work.value.name in w.resources
        && w.resources[w.work.value.name].home == home
        && EntryKey(w.resources[w.work.value.name].category, w.work.value.target) == key)
    || a == HomeChanged(home, None)
  }

  lemma UnclaimedPublished(w: World, a: Action, home: string, key: string)
    requires WorkInv(w) && Enabled(w, a) && a.Publish?
    requires key in Entries(w, home) && !Claimed(w, home, key)
    ensures key in Entries(Apply(w, a), home)
  {
    PublishedEntries(w, a, home);
    assert !ReplacedKey(w, w.work.value, home, key);
  }

  lemma UnclaimedListed(w: World, a: Action, home: string, key: string)
    requires Enabled(w, a) && !a.Publish?
    requires key in Entries(w, home) && !Claimed(w, home, key) && a != HomeChanged(home, None)
    ensures key in Entries(Apply(w, a), home)
  {
    if a.Withdraw? {
      assert !ClaimedBy(w.resources[a.name], home, key);
      WithdrawnEntries(w, a, home);
    } else {
      ListsKept(w, a, home);
    }
  }

  /** No step but recording a target makes a resource claim anything new. */
  lemma NoNewClaim(w: World, a: Action, n: string, home: string, key: string)
    requires WorkInv(w) && Enabled(w, a) && n in Apply(w, a).resources
    requires n in w.resources ==> !ClaimedBy(w.resources[n], home, key)
    ensures ClaimedBy(Apply(w, a).resources[n], home, key) ==> a.SaveTarget? && w.work.value.name == n
  {
    if n in w.resources {
      SlotStep(w, a, n);
    }
  }

  lemma UnclaimedStaysSo(w: World, a: Action, home: string, key: string)
    requires WorkInv(w) && Enabled(w, a) && !Claimed(w, home, key) && !Reclaims(w, a, home, key)
    ensures !Claimed(Apply(w, a), home, key)
  {
    var w' := Apply(w, a);
    forall n | n in w'.resources
      ensures !ClaimedBy(w'.resources[n], home, key)
    {
      NoNewClaim(w, a, n, home, key);
    }
    if w'.work.Some? && a.SaveTarget? {
      assert !ClaimedBy(w.resources[w.work.value.name], home, key);
    }
  }

  /** An entry left behind stays listed, whatever the controller does, until a resource resolves to it again. */
  lemma LeakIsPermanent(w: World, a: Action, home: string, key: string)
    requires Inv(w) && HouseInv(w) && Enabled(w, a)
    requires key in Entries(w, home) && !Claimed(w, home, key) && !Reclaims(w, a, home, key)
    ensures key in Entries(Apply(w, a), home) && !Claimed(Apply(w, a), home, key)
  {
    if a.Publish? {
      UnclaimedPublished(w, a, home, key);
    } else {
      UnclaimedListed(w, a, home, key);
    }
    UnclaimedStaysSo(w, a, home, key);
  }

  ghost predicate NeverReclaimed(w: World, trace: seq<Action>, home: string, key: string)
    requires ValidRun(w, trace)
  {
    trace == []
    || (&& NeverReclaimed(w, trace[..|trace| - 1], home, key)
        && !Reclaims(Run(w, trace[..|trace| - 1]), trace[|trace| - 1], home, key))
  }

  /** From any reachable world on, an entry left behind stays listed through every run in which no resource resolves
      to it and its Home Assistant stays. */
  lemma {:induction false} LeakStaysForever(w: World, trace: seq<Action>, home: string, key: string)
    requires Inv(w) && HouseInv(w) && ValidRun(w, trace) && NeverReclaimed(w, trace, home, key)
    requires key in Entries(w, home) && !Claimed(w, home, key)
    ensures Inv(Run(w, trace)) && HouseInv(Run(w, trace))
    ensures key in Entries(Run(w, trace), home) && !Claimed(Run(w, trace), home, key)
  {
    if trace != [] {
      var before := trace[..|trace| - 1];
      var now, a := Run(w, before), trace[|trace| - 1];
      LeakStaysForever(w, before, home, key);
      LeakIsPermanent(now, a, home, key);
      StepKeepsInv(now, a);
      HouseStep(now, a);
    }
  }

  // ---------- The installed version ----------

  /** The ref that the resource had when it last entered Installing. */
  ghost function EntryRef(w: World, trace: seq<Action>, name: string): Option<string>
    requires ValidRun(w, trace)
  {
    if trace == [] then None
    else
      var before, a := Run(w, trace[..|trace| - 1]), trace[|trace| - 1];
      if a.BeginInstalling? && before.work.value.name == name then Some(before.resources[name].ref)
      else EntryRef(w, trace[..|trace| - 1], name)
  }

  /** The ref of the last edit since then. */
  ghost function LastEdit(w: World, trace: seq<Action>, name: string): Option<string>
    requires ValidRun(w, trace)
  {
    if trace == [] then None
    else
      var before, a := Run(w, trace[..|trace| - 1]), trace[|trace| - 1];
      if a.BeginInstalling? && before.work.value.name == name then None
      else if a.Edited? && a.name == name then Some(a.ref)
      else LastEdit(w, trace[..|trace| - 1], name)
  }

  /** A resource keeps its ref but for edits. */
  lemma RefKept(w: World, a: Action, name: string)
    requires WorkInv(w) && Enabled(w, a) && name in w.resources && name in Apply(w, a).resources
    ensures Apply(w, a).resources[name].ref == if a.Edited? && a.name == name then a.ref else w.resources[name].ref
  {
  }

  lemma {:induction false} RefWhileInstalling(w: World, trace: seq<Action>, name: string)
    requires Initial(w) && ValidRun(w, trace)
    requires name in Run(w, trace).resources && Run(w, trace).resources[name].status.phase.Installing?
    ensures var entry, edit := EntryRef(w, trace, name), LastEdit(w, trace, name);
            entry.Some? && Run(w, trace).resources[name].ref == if edit.Some? then edit.value else entry.value
  {
    var k := |trace| - 1;
    assert trace != [];
    RunKeepsInv(w, trace[..k]);
    ClockKept(Run(w, trace[..k]), trace[k], name);
    RefKept(Run(w, trace[..k]), trace[k], name);
    if !(trace[k].BeginInstalling? && Run(w, trace[..k]).work.value.name == name) {
      RefWhileInstalling(w, trace[..k], name);
    }
  }

  /** What the list asks for when a resource enters Installing is the ref it has then. */
  lemma {:induction false} PublishedIsListed(w: World, trace: seq<Action>)
    requires Initial(w) && ValidRun(w, trace)
    ensures PublishedInv(Run(w, trace))
  {
    if trace != [] {
      var before := trace[..|trace| - 1];
      PublishedIsListed(w, before);
      RunKeepsInv(w, before);
      PublishedStep(Run(w, before), trace[|trace| - 1]);
    }
  }

  /** A published entry is listed as long as the reconcile that published it goes on. */
  predicate PublishedInv(w: World) {
    w.work.Some? && w.work.value.published && w.work.value.name in w.resources ==>
      var k := w.work.value; var r := w.resources[k.name]; var e := WorkEntry(w, k);
      KeyOf(e) in Entries(w, r.home) && Entries(w, r.home)[KeyOf(e)] == e
  }

  lemma PublishedStep(w: World, a: Action)
    requires PublishedInv(w) && WorkInv(w) && Enabled(w, a)
    ensures PublishedInv(Apply(w, a))
  {
    if a.Publish? {
      PublishedEntries(w, a, w.resources[w.work.value.name].home);
    }
  }

  /** The installed version is the ref that was validated and listed when Installing began, exactly if the last edit
      since then, if any, set that same ref. Another ref is reported as installed and counted as observed, so it is
      never validated. */
  lemma InstalledVersionIsListedRef(w: World, trace: seq<Action>, name: string)
    requires Initial(w) && ValidRun(w, trace) && Enabled(Run(w, trace), Activate(name))
    ensures var entry, edit := EntryRef(w, trace, name), LastEdit(w, trace, name);
            var after := Apply(Run(w, trace), Activate(name)).resources[name];
            && entry.Some? && after.status.observed == after.generation
            && (after.status.version == entry.value <==> edit.None? || edit == entry)
  {
    RefWhileInstalling(w, trace, name);
  }

  /** So an edit of an activating resource reaches the status without reaching the list. */
  lemma EditWhileInstallingIsSkipped(w: World, name: string, repository: string, ref: string)
    requires Enabled(w, Activate(name))
    ensures var edit := Edited(name, repository, ref);
            && Enabled(w, edit) && Enabled(Apply(w, edit), Activate(name))
            && var after := Apply(Apply(w, edit), Activate(name));
               && after.resources[name].status.phase == Installed && after.resources[name].status.version == ref
               && after.resources[name].status.observed == after.resources[name].generation
               && after.lists == w.lists
  {
  }

  /** When a resource enters Installing, its listed entry has the resource's ref. */
  lemma EntryRefIsListed(w: World, trace: seq<Action>, name: string)
    requires Initial(w) && ValidRun(w, trace + [BeginInstalling]) && ValidRun(w, trace)
    requires Enabled(Run(w, trace), BeginInstalling) && Run(w, trace).work.value.name == name
    ensures var now := Apply(Run(w, trace), BeginInstalling);
            && EntryRef(w, trace + [BeginInstalling], name) == Some(now.resources[name].ref)
            && TargetKey(now.resources[name]) in Entries(now, now.resources[name].home)
            && Entries(now, now.resources[name].home)[TargetKey(now.resources[name])].ref == now.resources[name].ref
  {
    PublishedIsListed(w, trace);
    RunKeepsInv(w, trace);
    assert (trace + [BeginInstalling])[..|trace|] == trace;
  }
}
