/** A run in which an active resource loses its entry to a sibling that changes its target. */
module ListingExample {
  import opened Wrappers
  import opened RepositoryEntries
  import opened Catalog
  import opened RepositoryProtocol
  import opened RepositoryRuns
  import opened RepositoryListing

  function Theme(ref: string, generation: nat, status: Status): Resource {
    Resource("h", "theme", "o/r", ref, generation, false, true, status)
  }

  function ThemeEntry(ref: string, target: string): Entry { Entry("theme", "o/r", ref, target, "s") }

  /** A world with one Home Assistant, whose list has at most one entry. */
  function Scene(resources: map<string, Resource>, list: Stored, now: nat, work: Option<Work>,
                 hash: string -> string): World
  {
    World(resources, map["h" := list], map["h" := Home(false, false)], map[], hash, now, work)
  }

  function Begin(hash: string -> string): World {
    World(map[], map[], map["h" := Home(false, false)], map[], hash, 0, None)
  }

  lemma SingleEntry(e: Entry)
    ensures Indexed([e]) == map[KeyOf(e) := e] && Lists([e], map[KeyOf(e) := e])
  {
    assert Indexed([]) == map[] && [e][..0] == [];
    assert KeysOf([e]) == [KeyOf(e)];
  }

  /** A new resource starts validating. */
  lemma Arrive(w: World, steps: seq<Action>, now: World, name: string, ref: string)
    returns (more: seq<Action>, w': World)
    requires Leads(w, steps, now) && now.work.None? && name !in now.resources
    ensures Leads(w, more, w')
    ensures var status := Status(Validating, Validation, "", "", None, 1);
            w' == now.(resources := now.resources[name := Theme(ref, 1, status)])
  {
    var create, move := Created(name, Theme(ref, 1, NO_STATUS)), Move(name, Validating, Validation);
    LeadsTwo(w, steps, now, create, move);
    more, w' := steps + [create] + [move], Apply(Apply(now, create), move);
  }

  /** Its target is checked and recorded. */
  lemma Claim(w: World, steps: seq<Action>, now: World, name: string, target: string)
    returns (more: seq<Action>, w': World)
    requires Leads(w, steps, now) && now.work.None? && name in now.resources && "h" in now.homes
    requires now.resources[name].home == "h" && !Conflicts(now, name, target)
    requires Ready(now, name) && now.resources[name].status.phase.Validating?
    ensures Leads(w, more, w')
    ensures var s := now.resources[name].status;
            w' == now.(resources := now.resources[name := now.resources[name].(status := s.(target := target))],
                       work := Some(Work(name, "s", target, s.target, true, false)))
  {
    LeadsTwo(w, steps, now, Check(name, "s", target), SaveTarget);
    more, w' := steps + [Check(name, "s", target)] + [SaveTarget],
                Apply(Apply(now, Check(name, "s", target)), SaveTarget);
  }

  /** Its entry is published as the only one, and installation begins. */
  lemma Announce(w: World, steps: seq<Action>, now: World, e: Entry) returns (more: seq<Action>, w': World)
    requires Leads(w, steps, now) && WorkInv(now) && Enabled(now, Publish([e]))
    requires now.resources[now.work.value.name].home == "h"
    ensures Leads(w, more, w') && w' == Announced(now, e)
  {
    LeadsTwo(w, steps, now, Publish([e]), BeginInstalling);
    more, w' := steps + [Publish([e])] + [BeginInstalling], Apply(Apply(now, Publish([e])), BeginInstalling);
  }

  ghost function Announced(now: World, e: Entry): World
    requires now.work.Some? && now.work.value.name in now.resources
  {
    var name := now.work.value.name;
    now.(lists := now.lists["h" := Listing([e])], work := None,
         resources := now.resources[name := now.resources[name].(status :=
           Moved(now.resources[name], Installing, Activating, now.now))])
  }

  /** The entry may be published as the only one when no other one is listed. */
  lemma MayAnnounce(w: World, name: string, e: Entry)
    requires w.work == Some(Work(name, "s", "t1", "", true, false)) && e == ThemeEntry("1", "t1")
    requires name in w.resources
             && w.resources[name] == Theme("1", 1, Status(Validating, Validation, "", "t1", None, 1))
    requires w.lists == map[] || w.lists == map["h" := Listing([e])]
    ensures Enabled(w, Publish([e]))
  {
    SingleEntry(e);
    assert Upserted(map[KeyOf(e) := e], e, "") == map[KeyOf(e) := e] == Upserted(map[], e, "");
  }

  /** The first resource installs its target, is edited and validates again. */
  lemma FirstInstalls(hash: string -> string) returns (steps: seq<Action>, w: World)
    ensures Leads(Begin(hash), steps, w)
    ensures w == Scene(map["a" := Theme("2", 2, Status(Validating, Validation, "1", "t1", None, 2))],
                       Listing([ThemeEntry("1", "t1")]), SETTLE_DELAY, None, hash)
  {
    var w0 := Begin(hash);
    var e := ThemeEntry("1", "t1");
    assert Leads(w0, [], w0);
    var s1, w1 := Arrive(w0, [], w0, "a", "1");
    var s2, w2 := Claim(w0, s1, w1, "a", "t1");
    MayAnnounce(w2, "a", e);
    var s3, w3 := Announce(w0, s2, w2, e);
    steps, w := InstalledAndEdited(w0, s3, w3);
  }

  lemma InstalledAndEdited(w: World, steps: seq<Action>, now: World) returns (more: seq<Action>, w': World)
    requires Leads(w, steps, now) && now.work.None? && now.now == 0
    requires now.resources == map["a" := Theme("1", 1, Status(Installing, Activating, "", "t1", Some(0), 1))]
    ensures Leads(w, more, w')
    ensures w' == now.(now := SETTLE_DELAY,
                       resources := map["a" := Theme("2", 2, Status(Validating, Validation, "1", "t1", None, 2))])
  {
    LeadsTwo(w, steps, now, Tick(SETTLE_DELAY), Activate("a"));
    var w2 := Apply(Apply(now, Tick(SETTLE_DELAY)), Activate("a"));
    assert w2.resources["a"] == Theme("1", 1, Status(Installed, Reason.Confirmed, "1", "t1", None, 1));
    more, w' := EditedAgain(w, steps + [Tick(SETTLE_DELAY)] + [Activate("a")], w2);
  }

  lemma EditedAgain(w: World, steps: seq<Action>, now: World) returns (more: seq<Action>, w': World)
    requires Leads(w, steps, now) && now.work.None?
    requires now.resources == map["a" := Theme("1", 1, Status(Installed, Reason.Confirmed, "1", "t1", None, 1))]
    ensures Leads(w, more, w')
    ensures w' == now.(resources := map["a" := Theme("2", 2, Status(Validating, Validation, "1", "t1", None, 2))])
  {
    LeadsTwo(w, steps, now, Edited("a", "o/r", "2"), Move("a", Validating, Validation));
    more := steps + [Edited("a", "o/r", "2")] + [Move("a", Validating, Validation)];
    w' := Apply(Apply(now, Edited("a", "o/r", "2")), Move("a", Validating, Validation));
  }

  /** The second resource takes over the target while the first one validates. */
  lemma SecondClaims(hash: string -> string) returns (steps: seq<Action>, w: World)
    ensures Leads(Begin(hash), steps, w)
    ensures w == Scene(map["a" := Theme("2", 2, Status(Validating, Validation, "1", "t1", None, 2)),
                           "b" := Theme("1", 1, Status(Validating, Validation, "", "t1", None, 1))],
                       Listing([ThemeEntry("1", "t1")]), SETTLE_DELAY,
                       Some(Work("b", "s", "t1", "", true, false)), hash)
  {
    var s1, w1 := FirstInstalls(hash);
    var s2, w2 := Arrive(Begin(hash), s1, w1, "b", "1");
    steps, w := Claim(Begin(hash), s2, w2, "b", "t1");
  }

  lemma SecondInstalls(hash: string -> string) returns (steps: seq<Action>, w: World)
    ensures Leads(Begin(hash), steps, w)
    ensures w == Scene(map["a" := Theme("2", 2, Status(Validating, Validation, "1", "t1", None, 2)),
                           "b" := Theme("1", 1, Status(Installing, Activating, "", "t1", Some(SETTLE_DELAY), 1))],
                       Listing([ThemeEntry("1", "t1")]), SETTLE_DELAY, None, hash)
  {
    var s, now := SecondClaims(hash);
    MayAnnounce(now, "b", ThemeEntry("1", "t1"));
    RunKeepsInv(Begin(hash), s);
    steps, w := Announce(Begin(hash), s, now, ThemeEntry("1", "t1"));
  }

  /** The first resource resolves to another target and is about to publish it. */
  lemma FirstMoves(hash: string -> string) returns (steps: seq<Action>, w: World)
    ensures Leads(Begin(hash), steps, w) && "a" in w.resources && "b" in w.resources
    ensures w.work == Some(Work("a", "s", "t2", "t1", true, false))
    ensures w.resources["a"] == Theme("2", 2, Status(Validating, Validation, "1", "t2", None, 2))
    ensures w.resources["b"] == Theme("1", 1, Status(Installing, Activating, "", "t1", Some(SETTLE_DELAY), 1))
    ensures w.resources.Keys == {"a", "b"} && w.lists == map["h" := Listing([ThemeEntry("1", "t1")])]
  {
    var s, now := SecondInstalls(hash);
    steps, w := Claim(Begin(hash), s, now, "a", "t2");
  }

  /** In a run from the beginning the second resource takes over the target, and the first one, resolving to another
      target, removes the entry of the second. */
  lemma ActiveEntryLost(hash: string -> string) returns (w: World, steps: seq<Action>, last: Action)
    ensures Initial(w) && ValidRun(w, steps) && Enabled(Run(w, steps), last) && last.Publish?
    ensures ActiveListed(Run(w, steps)) && Unlists(Run(w, steps), last)
    ensures !ActiveListed(Apply(Run(w, steps), last))
  {
    var now;
    w := Begin(hash);
    steps, now := FirstMoves(hash);
    var e := ThemeEntry("2", "t2");
    last := Publish([e]);
    OwnEntryReplaces(now, e);
    RunKeepsInv(w, steps);
    CategoriesAlwaysKnown(w, steps);
    PublishedIsListed(w, steps);
    assert SameSlot(now.resources["b"], "h", "theme", "t1");
    ActiveListedUnlessUnlisted(now, last);
  }

  lemma OwnEntryReplaces(w: World, e: Entry)
    requires e == ThemeEntry("2", "t2") && w.lists == map["h" := Listing([ThemeEntry("1", "t1")])]
    ensures Lists([e], Upserted(Entries(w, "h"), e, "t1"))
    ensures EntryKey("theme", "t1") in Entries(w, "h")
  {
    var before := ThemeEntry("1", "t1");
    SingleEntry(before);
    SingleEntry(e);
    EntryKeysDiffer();
    assert Upserted(Entries(w, "h"), e, "t1") == map[KeyOf(e) := e];
  }

  lemma EntryKeysDiffer()
    ensures EntryKey("theme", "t1") != EntryKey("theme", "t2")
  {
    KnownIsPlain("theme");
    if EntryKey("theme", "t1") == EntryKey("theme", "t2") {
      EntryKeyInjective("theme", "t1", "theme", "t2");
    }
  }
}
