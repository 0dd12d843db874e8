/** The life of HomeAssistantCommunityRepository resources as guarded atomic actions. Every status update and every
    ConfigMap write of a reconcile is one action, a restart may come between any two of them, and the environment
    acts between reconciles. Module CommunityRepository proves that the reconciler only takes enabled actions. */
module RepositoryProtocol {
  import opened Wrappers
  import opened RepositoryEntries
  import opened Catalog

  datatype Phase = Unset | Pending | Validating | Installing | Installed | Failed

  datatype Reason =
    | NoReason | HomeAssistantNotReady | Validation | Unreachable | CategoryMismatch | StructureInvalid
    | TargetConflict | Activating | Materializing | MaterializationFailed | ActivationTimeout | Confirmed

  /** Times are in milliseconds; a stored time keeps whole seconds only. */
  datatype Status = Status(
    phase: Phase,
    reason: Reason,
    version: string,
    target: string,
    since: Option<nat>,
    observed: nat)

  const NO_STATUS := Status(Unset, NoReason, "", "", None, 0)

  datatype Resource = Resource(
    home: string,
    category: string,
    repository: string,
    ref: string,
    generation: nat,
    deleting: bool,
    finalizer: bool,
    status: Status)

  datatype Termination = Termination(exitCode: int, message: string)

  datatype ContainerStatus = ContainerStatus(
    name: string,
    terminated: Option<Termination>,
    lastTerminated: Option<Termination>)

  datatype Pod = Pod(annotation: string, inits: seq<ContainerStatus>, ready: bool)

  datatype Home = Home(deleting: bool, hasStatefulSet: bool)

  /** What the current reconcile has found out: the conflict check passed for this target. */
  datatype Work = Work(name: string, source: string, target: string, previous: string, saved: bool, published: bool)

  datatype World = World(
    resources: map<string, Resource>,
    lists: map<string, Stored>,
    homes: map<string, Home>,
    pods: map<string, Pod>,
    hash: string -> string,
    now: nat,
    work: Option<Work>)

  const INIT_CONTAINER := "community-repository-init"
  const SETTLE_DELAY := 90000
  const RETRY_WINDOW := 6 * 20000

  predicate KnownCategory(category: string) {
    category == INTEGRATION || category == "plugin" || category == "theme" || category == "python_script"
    || category == "template"
  }

  function Stamp(t: nat): nat { t - t % 1000 }

  function ListOf(w: World, home: string): Stored { if home in w.lists then w.lists[home] else Missing }

  function Entries(w: World, home: string): map<string, Entry> { Indexed(Payload(ListOf(w, home))) }

  function TargetKey(r: Resource): string { EntryKey(r.category, r.status.target) }

  predicate Active(r: Resource) { !r.deleting && (r.status.phase.Installing? || r.status.phase.Installed?) }

  /** The same component of the same Home Assistant. */
  predicate SameSlot(r: Resource, home: string, category: string, target: string) {
    r.home == home && r.category == category && r.status.target == target
  }

  predicate Conflicts(w: World, name: string, target: string)
    requires name in w.resources
  {
    exists n <- w.resources :: n != name && Active(w.resources[n])
      && SameSlot(w.resources[n], w.resources[name].home, w.resources[name].category, target)
  }

  function DesiredHash(w: World, home: string): string {
    w.hash(Fingerprint(Integrations(Payload(ListOf(w, home)))))
  }

  /** The first init container with the materializer's name. */
  predicate FirstInit(inits: seq<ContainerStatus>, i: nat) {
    i < |inits| && inits[i].name == INIT_CONTAINER && forall j :: 0 <= j < i ==> inits[j].name != INIT_CONTAINER
  }

  /** The pod's materializer, the first init container with its name, exited with zero and reported this hash. */
  predicate Materialised(pod: Pod, hash: string) {
    && pod.annotation == hash
    && exists i :: 0 <= i < |pod.inits| && FirstInit(pod.inits, i)
         && pod.inits[i].terminated == Some(Termination(0, hash))
  }

  predicate PodMaterialised(w: World, home: string) {
    home in w.pods && Materialised(w.pods[home], DesiredHash(w, home))
  }

  /** How long the Installing phase has been active. */
  function Elapsed(w: World, r: Resource): int {
    if r.status.phase.Installing? && r.status.since.Some? then w.now - r.status.since.value else 0
  }

  /** When activation counts: the pod acknowledged the list and is ready, or the settle delay is over and the retry
      window still open. */
  predicate MayActivate(w: World, r: Resource) {
    if r.category == INTEGRATION then PodMaterialised(w, r.home) && w.pods[r.home].ready
    else SETTLE_DELAY <= Elapsed(w, r) <= SETTLE_DELAY + RETRY_WINDOW
  }

  /** Deletion may finish: the entry is off the list and, for an integration, the pod has cleaned up. */
  predicate CleanedUp(w: World, r: Resource) {
    || r.status.target == ""
    || r.home !in w.homes
    || (&& TargetKey(r) !in Entries(w, r.home)
        && (r.category == INTEGRATION ==>
              || (w.homes[r.home].deleting && !w.homes[r.home].hasStatefulSet)
              || (w.homes[r.home].hasStatefulSet && PodMaterialised(w, r.home))))
  }

  datatype Action =
    | Restart
    | AddFinalizer(name: string)
    | Move(name: string, phase: Phase, reason: Reason)
    | Check(name: string, source: string, target: string)
    | SaveTarget
    | Publish(entries: seq<Entry>)
    | BeginInstalling
    | KeepInstalling(name: string, reason: Reason)
    | Activate(name: string)
    | Withdraw(name: string, entries: seq<Entry>)
    | Release(name: string, homeUnreadable: bool)
    // environment
    | Created(name: string, resource: Resource)
    | Edited(name: string, repository: string, ref: string)
    | DeletionRequested(name: string)
    | StatusLost(name: string)
    | HomeChanged(home: string, state: Option<Home>)
    | PodChanged(home: string, pod: Option<Pod>)
    | Tick(now: nat)

  predicate Ready(w: World, name: string) {
    name in w.resources && !w.resources[name].deleting && w.resources[name].finalizer
  }

  /** The entry that the current reconcile publishes. */
  function WorkEntry(w: World, k: Work): Entry
    requires k.name in w.resources
  {
    var r := w.resources[k.name];
    Entry(r.category, r.repository, r.ref, k.target, k.source)
  }

  predicate Enabled(w: World, a: Action) {
    match a
    case Restart => true
    case AddFinalizer(name) => w.work.None? && name in w.resources && !w.resources[name].deleting
    case Move(name, phase, _) =>
      && w.work.None? && Ready(w, name)
      && (|| phase.Pending?
          || (phase.Validating? && !w.resources[name].status.phase.Installing?)
          || (phase.Failed? && (|| w.resources[name].status.phase.Validating?
                                || w.resources[name].status.phase.Installing?)))
    case Check(name, _, target) =>
      && w.work.None? && Ready(w, name) && w.resources[name].status.phase.Validating?
      && w.resources[name].home in w.homes && !Conflicts(w, name, target)
    case SaveTarget => w.work.Some? && !w.work.value.saved && Ready(w, w.work.value.name)
    case Publish(entries) =>
      && w.work.Some? && w.work.value.saved && !w.work.value.published && Ready(w, w.work.value.name)
      && var home := w.resources[w.work.value.name].home;
         Lists(entries, Upserted(Entries(w, home), WorkEntry(w, w.work.value), w.work.value.previous))
    case BeginInstalling => w.work.Some? && w.work.value.published && Ready(w, w.work.value.name)
    case KeepInstalling(name, _) =>
      && w.work.None? && Ready(w, name)
      && w.resources[name].status.phase.Installing? && w.resources[name].category == INTEGRATION
    case Activate(name) =>
      && w.work.None? && Ready(w, name)
      && w.resources[name].status.phase.Installing? && MayActivate(w, w.resources[name])
    case Withdraw(name, entries) =>
      && w.work.None? && name in w.resources && w.resources[name].deleting && w.resources[name].finalizer
      && w.resources[name].status.target != "" && w.resources[name].home in w.homes
      && Lists(entries, Removed(Entries(w, w.resources[name].home), w.resources[name].category,
                                w.resources[name].status.target))
    case Release(name, homeUnreadable) =>
      && w.work.None? && name in w.resources && w.resources[name].deleting && w.resources[name].finalizer
      && (homeUnreadable || CleanedUp(w, w.resources[name]))
    case Created(name, r) =>
      w.work.None? && name !in w.resources && r.status == NO_STATUS && !r.deleting && KnownCategory(r.category)
    case Edited(name, _, _) => w.work.None? && name in w.resources
    case DeletionRequested(name) => w.work.None? && name in w.resources
    case StatusLost(name) => w.work.None? && name in w.resources
    case HomeChanged(_, _) => w.work.None?
    case PodChanged(_, _) => true
    case Tick(now) => w.now <= now
  }

  function SetStatus(w: World, name: string, s: Status): World
    requires name in w.resources
  {
    w.(resources := w.resources[name := w.resources[name].(status := s)])
  }

  /** setPhase: the time of entering Installing is kept exactly as long as that phase lasts. */
  function Moved(r: Resource, phase: Phase, reason: Reason, now: nat): Status {
    r.status.(phase := phase, reason := reason, observed := r.generation,
              since := if !phase.Installing? then None
                       else if r.status.since.None? then Some(Stamp(now))
                       else r.status.since)
  }

  function Apply(w: World, a: Action): World
    requires Enabled(w, a)
  {
    match a
    case Restart => w.(work := None)
    case AddFinalizer(name) => w.(resources := w.resources[name := w.resources[name].(finalizer := true)])
    case Move(name, phase, reason) => SetStatus(w, name, Moved(w.resources[name], phase, reason, w.now))
    case Check(name, source, target) =>
      w.(work := Some(Work(name, source, target, w.resources[name].status.target, false, false)))
    case SaveTarget =>
      var k := w.work.value;
      SetStatus(w, k.name, w.resources[k.name].status.(target := k.target)).(work := Some(k.(saved := true)))
    case Publish(entries) =>
      var k := w.work.value;
      w.(lists := w.lists[w.resources[k.name].home := Listing(entries)], work := Some(k.(published := true)))
    case BeginInstalling =>
      var name := w.work.value.name;
      SetStatus(w, name, Moved(w.resources[name], Installing, Activating, w.now)).(work := None)
    case KeepInstalling(name, reason) => SetStatus(w, name, Moved(w.resources[name], Installing, reason, w.now))
    case Activate(name) =>
      var r := w.resources[name];
      SetStatus(w, name, Moved(r, Installed, Confirmed, w.now).(version := r.ref))
    case Withdraw(name, entries) => w.(lists := w.lists[w.resources[name].home := Listing(entries)])
    case Release(name, _) => w.(resources := w.resources - {name})
    case Created(name, r) => w.(resources := w.resources[name := r])
    case Edited(name, repository, ref) =>
      var r := w.resources[name];
      w.(resources := w.resources[name := r.(repository := repository, ref := ref, generation := r.generation + 1)])
    case DeletionRequested(name) =>
      var r := w.resources[name];
      w.(resources := if r.finalizer then w.resources[name := r.(deleting := true)] else w.resources - {name})
    case StatusLost(name) => SetStatus(w, name, NO_STATUS)
    case HomeChanged(home, state) =>
      if state.Some? then w.(homes := w.homes[home := state.value])
      else w.(homes := w.homes - {home}, lists := w.lists - {home})
    case PodChanged(home, pod) =>
      if pod.Some? then w.(pods := w.pods[home := pod.value]) else w.(pods := w.pods - {home})
    case Tick(now) => w.(now := now)
  }

  predicate Initial(w: World) { w.resources == map[] && w.lists == map[] && w.work.None? }

  // ---------- Invariants ----------

  /** No two live resources hold the same component of the same Home Assistant. */
  ghost predicate Exclusive(w: World) {
    forall m, n :: m in w.resources && n in w.resources && m != n
                   && Active(w.resources[m]) && Active(w.resources[n]) ==>
      !SameSlot(w.resources[n], w.resources[m].home, w.resources[m].category, w.resources[m].status.target)
  }

  /** The installation clock runs exactly in the Installing phase. */
  predicate ClockInv(w: World) {
    forall n <- w.resources :: w.resources[n].status.since.Some? <==> w.resources[n].status.phase.Installing?
  }

  predicate WorkInv(w: World) {
    w.work.Some? ==>
      var k := w.work.value;
      && k.name in w.resources && w.resources[k.name].status.phase.Validating? && w.resources[k.name].home in w.homes
      && !Conflicts(w, k.name, k.target)
      && (k.published ==> k.saved)
      && w.resources[k.name].status.target == (if k.saved then k.target else k.previous)
  }

  ghost predicate Inv(w: World) { Exclusive(w) && ClockInv(w) && WorkInv(w) }

  /** What is active after any other step was active before it, in the same slot. */
  lemma NewlyActive(w: World, a: Action, n: string)
    requires Inv(w) && Enabled(w, a) && n in Apply(w, a).resources && Active(Apply(w, a).resources[n])
    ensures n in w.resources && (Active(w.resources[n]) || (a.BeginInstalling? && w.work.value.name == n))
    ensures var r, r' := w.resources[n], Apply(w, a).resources[n];
            SameSlot(r', r.home, r.category, r.status.target)
  {
  }

  /** Only BeginInstalling takes a slot, after its conflict check. */
  lemma ExclusionStep(w: World, a: Action)
    requires Inv(w) && Enabled(w, a)
    ensures Exclusive(Apply(w, a))
  {
    var w' := Apply(w, a);
    forall m, n | m in w'.resources && n in w'.resources && m != n && Active(w'.resources[m]) && Active(w'.resources[n])
      ensures !SameSlot(w'.resources[n], w'.resources[m].home, w'.resources[m].category, w'.resources[m].status.target)
    {
      NewlyActive(w, a, m);
      NewlyActive(w, a, n);
      if a.BeginInstalling? {
        assert !Conflicts(w, w.work.value.name, w.work.value.target);
      }
    }
  }

  lemma ClockStep(w: World, a: Action)
    requires ClockInv(w) && Enabled(w, a)
    ensures ClockInv(Apply(w, a))
  {
  }

  lemma WorkStep(w: World, a: Action)
    requires WorkInv(w) && Enabled(w, a)
    ensures WorkInv(Apply(w, a))
  {
  }

  lemma StepKeepsInv(w: World, a: Action)
    requires Inv(w) && Enabled(w, a)
    ensures Inv(Apply(w, a))
  {
    ExclusionStep(w, a);
    ClockStep(w, a);
    WorkStep(w, a);
  }
}
