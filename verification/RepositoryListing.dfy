/** When the entry of an active resource is listed, and which steps take it off the list. */
module RepositoryListing {
  import opened Wrappers
  import opened RepositoryEntries
  import opened Catalog
  import opened RepositoryProtocol
  import opened RepositoryRuns

  /** Categories are the known ones, so that no key can be read in two ways. */
  predicate CategoriesKnown(w: World) { forall n <- w.resources :: SEPARATOR !in w.resources[n].category }

  lemma CategoryStep(w: World, a: Action)
    requires CategoriesKnown(w) && WorkInv(w) && Enabled(w, a)
    ensures CategoriesKnown(Apply(w, a))
  {
    var w' := Apply(w, a);
    forall n | n in w'.resources
      ensures SEPARATOR !in w'.resources[n].category
    {
      if a.Created? && a.name == n {
        KnownIsPlain(a.resource.category);
      } else {
        CategoryKept(w, a, n);
      }
    }
  }

  lemma CategoryKept(w: World, a: Action, n: string)
    requires WorkInv(w) && Enabled(w, a) && n in Apply(w, a).resources && !(a.Created? && a.name == n)
    ensures n in w.resources && Apply(w, a).resources[n].category == w.resources[n].category
  {
  }

  lemma KnownIsPlain(category: string)
    requires KnownCategory(category)
    ensures SEPARATOR !in category
  {
  }

  predicate Listed(w: World, r: Resource) { TargetKey(r) in Entries(w, r.home) }

  /** Every active resource's entry is listed. */
  predicate ActiveListed(w: World) { forall n <- w.resources :: Active(w.resources[n]) ==> Listed(w, w.resources[n]) }

  predicate ActiveAt(w: World, home: string, category: string, target: string) {
    exists n <- w.resources :: Active(w.resources[n]) && SameSlot(w.resources[n], home, category, target)
  }

  /** The steps that take an active resource's entry off the list: withdrawing the entry of a deleted resource that
      kept the same target, publishing a new target in place of one that an active resource took over meanwhile, and
      the removal of the Home Assistant. */
  predicate Unlists(w: World, a: Action) {
    match a
    case Withdraw(name, _) =>
      name in w.resources && var r := w.resources[name]; ActiveAt(w, r.home, r.category, r.status.target)
    case Publish(_) =>
      && w.work.Some? && w.work.value.name in w.resources
      && var k := w.work.value; var r := w.resources[k.name];
         k.previous != "" && k.previous != k.target && ActiveAt(w, r.home, r.category, k.previous)
    case HomeChanged(home, state) =>
      state.None? && exists n <- w.resources :: Active(w.resources[n]) && w.resources[n].home == home
    case _ => false
  }

  /** Withdrawing a deleted resource's entry takes the entry of another resource with it exactly when both name the
      same component, as a resource that lost the conflict and kept its old target does. */
  lemma WithdrawHitsSibling(w: World, a: Action, sibling: string)
    requires Enabled(w, a) && a.Withdraw? && CategoriesKnown(w)
    requires sibling in w.resources && Listed(w, w.resources[sibling])
    ensures var r, b := w.resources[a.name], w.resources[sibling];
            !Listed(Apply(w, a), b) <==> SameSlot(b, r.home, r.category, r.status.target)
  {
    var r, b := w.resources[a.name], w.resources[sibling];
    WithdrawnEntries(w, a, b.home);
    if TargetKey(r) == TargetKey(b) {
      EntryKeyInjective(r.category, r.status.target, b.category, b.status.target);
    }
  }

  /** Publishing takes the entry of a resource off the list exactly when that resource holds the target that the
      publishing one gives up. */
  lemma PublishHitsSibling(w: World, a: Action, sibling: string)
    requires Enabled(w, a) && a.Publish? && CategoriesKnown(w)
    requires sibling in w.resources && Listed(w, w.resources[sibling])
    ensures var k, b := w.work.value, w.resources[sibling]; var r := w.resources[k.name];
            !Listed(Apply(w, a), b) <==>
              k.previous != "" && k.previous != k.target && SameSlot(b, r.home, r.category, k.previous)
  {
    var k, b := w.work.value, w.resources[sibling];
    var r := w.resources[k.name];
    PublishedEntries(w, a, b.home);
    if EntryKey(r.category, k.previous) == TargetKey(b) {
      EntryKeyInjective(r.category, k.previous, b.category, b.status.target);
    }
    if k.target != k.previous && EntryKey(r.category, k.previous) == EntryKey(r.category, k.target) {
      EntryKeyInjective(r.category, k.previous, r.category, k.target);
    }
  }

  lemma ListsStay(w: World, a: Action, r: Resource)
    requires Enabled(w, a) && !a.Publish? && !a.Withdraw? && !(a.HomeChanged? && a.state.None? && a.home == r.home)
    ensures Listed(Apply(w, a), r) <==> Listed(w, r)
  {
    ListsKept(w, a, r.home);
  }

  /** The lists that a step other than the three named ones leaves behind still hold every active entry. */
  lemma ListedKept(w: World, a: Action, n: string)
    requires Inv(w) && PublishedInv(w) && CategoriesKnown(w) && ActiveListed(w) && Enabled(w, a) && !Unlists(w, a)
    requires n in Apply(w, a).resources && Active(Apply(w, a).resources[n])
    ensures Listed(Apply(w, a), Apply(w, a).resources[n])
  {
    NewlyActive(w, a, n);
    var r := w.resources[n];
    if a.Withdraw? {
      WithdrawHitsSibling(w, a, n);
    } else if a.Publish? {
      PublishHitsSibling(w, a, n);
    } else {
      ListsStay(w, a, r);
    }
  }

  lemma UnlistShows(w: World, a: Action)
    requires Inv(w) && CategoriesKnown(w) && ActiveListed(w) && Enabled(w, a) && Unlists(w, a)
    ensures !ActiveListed(Apply(w, a))
  {
    var w' := Apply(w, a);
    match a
    case Withdraw(name, _) =>
      var r := w.resources[name];
      var n :| n in w.resources && Active(w.resources[n])
               && SameSlot(w.resources[n], r.home, r.category, r.status.target);
      WithdrawHitsSibling(w, a, n);
      assert w'.resources[n] == w.resources[n];
    case Publish(_) =>
      var k := w.work.value;
      var r := w.resources[k.name];
      var n :| n in w.resources && Active(w.resources[n]) && SameSlot(w.resources[n], r.home, r.category, k.previous);
      PublishHitsSibling(w, a, n);
      assert w'.resources[n] == w.resources[n];
    case HomeChanged(home, _) =>
      var n :| n in w.resources && Active(w.resources[n]) && w.resources[n].home == home;
      assert w'.resources[n] == w.resources[n] && Entries(w', home) == map[];
  }

  /** While every active resource's entry is listed, a step ends that exactly if it is one of those. */
  lemma ActiveListedUnlessUnlisted(w: World, a: Action)
    requires Inv(w) && PublishedInv(w) && CategoriesKnown(w) && ActiveListed(w) && Enabled(w, a)
    ensures ActiveListed(Apply(w, a)) <==> !Unlists(w, a)
  {
    if Unlists(w, a) {
      UnlistShows(w, a);
    } else {
      forall n | n in Apply(w, a).resources && Active(Apply(w, a).resources[n])
        ensures Listed(Apply(w, a), Apply(w, a).resources[n])
      {
        ListedKept(w, a, n);
      }
    }
  }

  // ---------- Every run ----------

  ghost predicate NothingUnlists(w: World, trace: seq<Action>)
    requires ValidRun(w, trace)
  {
    trace == []
    || (NothingUnlists(w, trace[..|trace| - 1]) && !Unlists(Run(w, trace[..|trace| - 1]), trace[|trace| - 1]))
  }

  lemma {:induction false} CategoriesAlwaysKnown(w: World, trace: seq<Action>)
    requires Initial(w) && ValidRun(w, trace)
    ensures CategoriesKnown(Run(w, trace))
  {
    if trace != [] {
      CategoriesAlwaysKnown(w, trace[..|trace| - 1]);
      RunKeepsInv(w, trace[..|trace| - 1]);
      CategoryStep(Run(w, trace[..|trace| - 1]), trace[|trace| - 1]);
    }
  }

  /** Over every run without such a step, with restarts anywhere, each active resource's entry is listed. */
  lemma {:induction false} ActiveAlwaysListed(w: World, trace: seq<Action>)
    requires Initial(w) && ValidRun(w, trace) && NothingUnlists(w, trace)
    ensures ActiveListed(Run(w, trace))
  {
    if trace != [] {
      var before := trace[..|trace| - 1];
      ActiveAlwaysListed(w, before);
      RunKeepsInv(w, before);
      PublishedIsListed(w, before);
      CategoriesAlwaysKnown(w, before);
      ActiveListedUnlessUnlisted(Run(w, before), trace[|trace| - 1]);
    }
  }
}
