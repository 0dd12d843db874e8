/** The reconciler of community repositories. Every API call may fail, apply and lose its reply, or be followed by a
    crash; wherever a reconcile stops it has only extended a run of module RepositoryProtocol. */
module CommunityRepository {
  import opened Wrappers
  import opened RepositoryEntries
  import opened Catalog
  import opened RepositoryProtocol
  import opened RepositoryRuns

  /** What fetching and inspecting the source repository yields. */
  datatype Resolution = Unfetched | Mismatch | Malformed | Resolved(source: string, target: string)

  /** What the pod says about materialisation. */
  datatype Confirmation = Unreadable | Waiting | FailedRun | NotReady | Acknowledged

  predicate NonZero(t: Option<Termination>) { t.Some? && t.value.exitCode != 0 }

  /** The container last ended with an error; a restarted one counts until its next run ends. */
  predicate Failing(s: ContainerStatus) { NonZero(s.terminated) || (s.terminated.None? && NonZero(s.lastTerminated)) }

  /** The desired pod's materializer last ended with an error. */
  ghost predicate FailedPod(pod: Pod, desired: string) {
    pod.annotation == desired && exists i: nat :: FirstInit(pod.inits, i) && Failing(pod.inits[i])
  }

  /** Why an integration still waits. */
  ghost function WaitingReason(w: World, home: string): Reason {
    if PodMaterialised(w, home) then HomeAssistantNotReady
    else if home in w.pods && FailedPod(w.pods[home], DesiredHash(w, home)) then MaterializationFailed
    else Materializing
  }

  /** setPhase: the phase and its reason, at the current generation; a clock runs while installing. */
  predicate Entered(r: Resource, s: Status, phase: Phase, reason: Reason) {
    && s.phase == phase && s.reason == reason && s.observed == r.generation
    && s.version == r.status.version && (s.since.Some? <==> phase.Installing?)
  }

  /** A fault-free attempt that ends in Failed for this reason. */
  predicate Refused(r: Resource, s: Status, reason: Reason) {
    Entered(r, s, Failed, reason) && s.target == r.status.target
  }

  /** The activation counts: the current ref is recorded as installed. */
  predicate Completes(r: Resource, s: Status) {
    && s.phase.Installed? && s.reason == Reason.Confirmed && s.observed == r.generation
    && s.version == r.ref && s.target == r.status.target && s.since.None?
  }

  /** Where a fault-free reconcile of an integration that is being installed leads. */
  ghost predicate IntegrationMoved(w: World, r: Resource, s: Status) {
    if PodMaterialised(w, r.home) && w.pods[r.home].ready then Completes(r, s)
    else
      && Entered(r, s, Installing, WaitingReason(w, r.home)) && s.target == r.status.target
      && (r.status.since.Some? ==> s.since == r.status.since)
  }

  /** Where one of a hot-reload category leads: wait 90 seconds, then ask for two minutes. */
  predicate HotReloadMoved(w: World, r: Resource, s: Status, activated: bool) {
    var elapsed := if r.status.since.Some? then w.now - r.status.since.value else 0;
    if elapsed > 210_000 then Refused(r, s, ActivationTimeout)
    else if elapsed >= 90_000 && activated then Completes(r, s)
    else s == r.status
  }

  /** Where a fault-free validation leads. */
  ghost predicate Validated(w: World, w': World, name: string, resolution: Resolution)
    requires name in w.resources && name in w'.resources
  {
    var r, s := w.resources[name], w'.resources[name].status;
    match resolution
    case Unfetched => Refused(r, s, Unreachable) && w'.lists == w.lists
    case Mismatch => Refused(r, s, CategoryMismatch) && w'.lists == w.lists
    case Malformed => Refused(r, s, StructureInvalid) && w'.lists == w.lists
    case Resolved(source, target) =>
      if Conflicts(w, name, target) then Refused(r, s, TargetConflict) && w'.lists == w.lists
      else
        && Entered(r, s, Installing, Activating) && s.target == target
        && Entries(w', r.home)
           == Upserted(Entries(w, r.home), Entry(r.category, r.repository, r.ref, target, source), r.status.target)
  }

  /** Where a fault-free reconcile of a live resource with a readable Home Assistant leads. */
  ghost predicate PhaseDispatched(w: World, w': World, name: string, resolution: Resolution, activated: bool)
    requires name in w.resources && name in w'.resources
  {
    var r, s := w.resources[name], w'.resources[name].status;
    && w'.resources == w.resources[name := r.(status := s)]
    && (!r.status.phase.Validating? ==> w'.lists == w.lists)
    && match r.status.phase
       case Validating => Validated(w, w', name, resolution)
       case Installing =>
         if r.category == INTEGRATION then IntegrationMoved(w, r, s) else HotReloadMoved(w, r, s, activated)
       case _ =>
         if Settled(r) then s == r.status
         else Entered(r, s, Validating, Validation) && s.target == r.status.target
  }

  /** Nothing is left to do for this generation. Unreachable repositories and conflicts are tried again. */
  predicate Settled(r: Resource) {
    && r.status.observed == r.generation
    && (|| r.status.phase.Installed?
        || (r.status.phase.Failed? && r.status.reason != Unreachable && r.status.reason != TargetConflict))
  }

  /** Where a fault-free deletion leads: off the list at once, released once cleaned up. */
  ghost predicate Deleted(w: World, w': World, name: string)
    requires name in w.resources
  {
    var r := w.resources[name];
    && w'.resources == (if r.finalizer && CleanedUp(w', r) then w.resources - {name} else w.resources)
    && (if r.finalizer && r.status.target != "" && r.home in w.homes
        then Entries(w', r.home) == Removed(Entries(w, r.home), r.category, r.status.target)
        else w'.lists == w.lists)
  }

  /** A reconcile of this resource passes the hash of the list on to the StatefulSet. */
  predicate PassesHashOn(w: World, name: string)
    requires name in w.resources
  {
    var r := w.resources[name];
    && r.category == INTEGRATION && r.finalizer && r.home in w.homes
    && if r.deleting then r.status.target != "" else r.status.phase.Installing?
  }

  /** Only the resources and one Home Assistant's list may differ. */
  ghost predicate OnlyListOf(w: World, w': World, home: string) {
    w'.homes == w.homes && w'.pods == w.pods && w'.now == w.now && w'.lists - {home} == w.lists - {home}
  }

  /** Where a fault-free reconcile leads. */
  ghost predicate Dispatched(w: World, w': World, name: string, resolution: Resolution, activated: bool)
    requires name in w.resources
  {
    var r := w.resources[name];
    && OnlyListOf(w, w', r.home)
    && if r.deleting then Deleted(w, w', name)
       else
         && name in w'.resources
         && var s := w'.resources[name].status;
            if !r.finalizer then w'.resources == w.resources[name := r.(finalizer := true)] && w'.lists == w.lists
            else if r.home !in w.homes then
              && w'.resources == w.resources[name := r.(status := s)] && w'.lists == w.lists
              && Entered(r, s, Pending, Reason.HomeAssistantNotReady) && s.target == r.status.target
            else PhaseDispatched(w, w', name, resolution, activated)
  }

  /** The reason reported for an integration that is not acknowledged. */
  function ReasonFor(c: Confirmation): Reason {
    match c
    case FailedRun => MaterializationFailed
    case NotReady => HomeAssistantNotReady
    case _ => Materializing
  }

  class Reconciler {
    const hash: string -> string

    var resources: map<string, Resource>
    var lists: map<string, Stored>
    var homes: map<string, Home>
    var pods: map<string, Pod>
    var now: nat
    var work: Option<Work>
    /** The repository hash in the pod template of each StatefulSet; a change makes its pod restart. */
    var templates: map<string, string>

    ghost var start: World
    ghost var trace: seq<Action>
    ghost var faults: nat

    function State(): World
      reads this
    {
      World(resources, lists, homes, pods, hash, now, work)
    }

    ghost predicate Valid()
      reads this
    {
      Initial(start) && ValidRun(start, trace) && Run(start, trace) == State()
    }

    constructor (hash: string -> string, homes: map<string, Home>, pods: map<string, Pod>, now: nat)
      ensures Valid() && trace == [] && State() == World(map[], map[], homes, pods, hash, now, None)
    {
      this.hash, this.homes, this.pods, this.now := hash, homes, pods, now;
      this.resources, this.lists, this.work, this.templates := map[], map[], None, map[];
      this.start := World(map[], map[], homes, pods, hash, now, None);
      this.trace, this.faults := [], 0;
    }

    twostate predicate Extends()
      reads this
    {
      Valid() && old(trace) <= trace && start == old(start) && faults >= old(faults)
    }

    twostate predicate Took(a: Action)
      reads this
    {
      Enabled(old(State()), a) && State() == Apply(old(State()), a) && trace == old(trace) + [a]
    }

    twostate predicate Idle()
      reads this
    {
      State() == old(State()) && trace == old(trace)
    }

    // ---------- Unreliable steps ----------

    /** A durable write whose effect is `a`. */
    method Perform(a: Action)
      requires Valid() && Enabled(State(), a)
      modifies this`resources, this`lists, this`homes, this`pods, this`now, this`work, this`trace
      ensures Valid() && Took(a)
    {
      RunStep(start, trace, a);
      HashKept(State(), a);
      var w := Apply(State(), a);
      resources, lists, homes, pods, now, work := w.resources, w.lists, w.homes, w.pods, w.now, w.work;
      trace := trace + [a];
    }

    /** The write may be refused, or applied although an error comes back. */
    method Attempt(a: Action) returns (ok: bool)
      requires Valid() && Enabled(State(), a)
      modifies this`resources, this`lists, this`homes, this`pods, this`now, this`work, this`trace, this`faults
      ensures Extends() && (Took(a) || Idle()) && (ok ==> Took(a))
      ensures ok <==> faults == old(faults)
    {
      var applied: bool;
      ok, applied := *, *;
      if ok || applied {
        Perform(a);
      }
      if !ok {
        faults := faults + 1;
      }
    }

    /** A read, or a write outside this model. */
    method Probe() returns (ok: bool)
      modifies this`faults
      ensures faults >= old(faults) && (ok <==> faults == old(faults))
    {
      ok := *;
      if !ok {
        faults := faults + 1;
      }
    }

    /** bumpStatefulSetHash. */
    method Bump(home: string, desired: string) returns (ok: bool, found: bool)
      modifies this`templates, this`faults
      ensures faults >= old(faults) && (ok <==> faults == old(faults))
      ensures templates == old(templates) || templates == old(templates)[home := desired]
      ensures ok ==> && found == HasStatefulSet(home)
                     && (if found then home in templates && templates[home] == desired
                         else templates == old(templates))
    {
      ok := Probe();
      found := home in homes && homes[home].hasStatefulSet;
      if ok && found && !(home in templates && templates[home] == desired) {
        var applied: bool;
        ok, applied := *, *;
        if ok || applied {
          templates := templates[home := desired];
        }
        if !ok {
          faults := faults + 1;
        }
      }
    }

    predicate HasStatefulSet(home: string)
      reads this
    {
      home in homes && homes[home].hasStatefulSet
    }

    /** The StatefulSet, if there is one, has the hash of the list's integrations. */
    predicate PassedOn(home: string)
      reads this
    {
      HasStatefulSet(home) ==> home in templates && templates[home] == DesiredHash(State(), home)
    }

    // ---------- Decisions ----------

    /** findConflictingOwner, looking at the siblings in any order. */
    method ConflictingOwner(name: string, target: string) returns (found: bool)
      requires name in resources
      ensures found <==> Conflicts(State(), name, target)
    {
      var mine := resources[name];
      var rest := resources.Keys;
      while rest != {}
        invariant rest <= resources.Keys
        invariant forall n <- resources.Keys - rest ::
                    !(n != name && Active(resources[n])
                      && SameSlot(resources[n], mine.home, mine.category, target))
        decreases rest
      {
        var n :| n in rest;
        rest := rest - {n};
        var item := resources[n];
        if n != name && !item.deleting && (item.status.phase.Installed? || item.status.phase.Installing?)
           && item.home == mine.home && item.category == mine.category && item.status.target == target
        {
          return true;
        }
      }
      return false;
    }

    /** integrationMaterializationConfirmed, once the pod has been read. */
    method Inspect(pod: Option<Pod>, desired: string) returns (c: Confirmation)
      ensures c != Unreadable
      ensures c == Acknowledged <==> pod.Some? && Materialised(pod.value, desired) && pod.value.ready
      ensures c == NotReady <==> pod.Some? && Materialised(pod.value, desired) && !pod.value.ready
      ensures c == FailedRun <==> pod.Some? && FailedPod(pod.value, desired)
    {
      if pod.None? || pod.value.annotation != desired {
        return Waiting;
      }
      var inits := pod.value.inits;
      var i := 0;
      while i < |inits| && inits[i].name != INIT_CONTAINER
        invariant 0 <= i <= |inits| && forall j :: 0 <= j < i ==> inits[j].name != INIT_CONTAINER
      {
        i := i + 1;
      }
      assert forall k: nat :: FirstInit(inits, k) ==> k == i;
      if i == |inits| {
        return Waiting;
      }
      assert FirstInit(inits, i);
      var terminated := inits[i].terminated;
      if terminated.None? && inits[i].lastTerminated.Some? && inits[i].lastTerminated.value.exitCode != 0 {
        terminated := inits[i].lastTerminated;
      }
      if terminated.Some? && terminated.value.exitCode != 0 {
        return FailedRun;
      }
      if terminated.None? || terminated.value.message != desired {
        return Waiting;
      }
      return if pod.value.ready then Acknowledged else NotReady;
    }

    // ---------- Writes of one reconcile ----------

    /** A status update through setPhase. */
    method SetPhase(name: string, a: Action, status: Status) returns (ok: bool)
      requires Valid() && Enabled(State(), a) && (a.Move? || a.KeepInstalling? || a.Activate?)
      requires name in resources && Apply(State(), a) == SetStatus(State(), name, status)
      modifies this`resources, this`lists, this`homes, this`pods, this`now, this`work, this`trace, this`faults
      ensures Extends() && State() == old(State()).(resources := resources)
      ensures resources == old(resources)
              || resources == old(resources)[name := old(resources[name]).(status := status)]
      ensures ok ==> resources == old(resources)[name := old(resources[name]).(status := status)]
      ensures ok <==> faults == old(faults)
    {
      ok := Attempt(a);
    }

    /** The early status update that records the target. */
    method RecordTarget() returns (ok: bool)
      requires Valid() && Enabled(State(), SaveTarget)
      modifies this`resources, this`lists, this`homes, this`pods, this`now, this`work, this`trace, this`faults
      ensures Extends() && State() == old(State()).(resources := resources, work := work)
      ensures work.Some? && work.value == old(work.value).(saved := work.value.saved)
      ensures var name := old(work.value.name);
              && name in resources
              && resources == old(resources)[name := old(resources[name]).(status :=
                   old(resources[name].status).(target := resources[name].status.target))]
              && (ok ==> work.value.saved && resources[name].status.target == work.value.target)
      ensures ok <==> faults == old(faults)
    {
      ok := Attempt(SaveTarget);
    }

    /** upsertConfigMapEntry: the list with this resource's entry replaced is written back. */
    method UpsertEntry() returns (ok: bool)
      requires Valid() && WorkInv(State()) && work.Some? && work.value.saved && !work.value.published
      requires Ready(State(), work.value.name)
      modifies this`resources, this`lists, this`homes, this`pods, this`now, this`work, this`trace, this`faults
      ensures Extends() && State() == old(State()).(lists := lists, work := work)
      ensures work.Some? && work.value == old(work.value).(published := work.value.published)
      ensures var home := resources[old(work.value.name)].home; lists - {home} == old(lists) - {home}
      ensures ok ==>
                var k := work.value;
                k.published && Entries(State(), resources[k.name].home)
                == Upserted(Entries(old(State()), resources[k.name].home), WorkEntry(State(), k), k.previous)
      ensures ok <==> faults == old(faults)
    {
      var k := work.value;
      var r := resources[k.name];
      ok := Probe();
      if !ok {
        return;
      }
      var e := Entry(r.category, r.repository, r.ref, k.target, k.source);
      var list := UpsertList(if r.home in lists then lists[r.home] else Missing, e, k.previous);
      ListWritten(State(), Publish(list), r.home);
      ok := Attempt(Publish(list));
    }

    method EnterInstalling() returns (ok: bool)
      requires Valid() && Enabled(State(), BeginInstalling)
      modifies this`resources, this`lists, this`homes, this`pods, this`now, this`work, this`trace, this`faults
      ensures Extends() && State() == old(State()).(resources := resources, work := work)
      ensures var name := old(work.value.name);
              name in resources && resources[name].status.target == old(resources[name].status.target)
      ensures ok ==> var name := old(work.value.name);
                resources == old(resources)[name := old(resources[name]).(status :=
                               Moved(old(resources[name]), Installing, Activating, now))]
      ensures ok <==> faults == old(faults)
    {
      ok := Attempt(BeginInstalling);
    }

    /** The conflict check has passed; the target is recorded first. */
    method ClaimTarget(name: string, source: string, target: string) returns (ok: bool)
      requires Valid() && WorkInv(State()) && Enabled(State(), Check(name, source, target))
      modifies this`resources, this`lists, this`homes, this`pods, this`now, this`work, this`trace, this`faults
      ensures Extends() && State() == old(State()).(resources := resources, work := work)
      ensures ok <==> faults == old(faults)
      ensures name in resources && resources[name].status.phase == old(resources[name].status.phase)
      ensures ok ==>
                && work == Some(Work(name, source, target, old(resources[name].status.target), true, false))
                && resources == old(resources)[name := old(resources[name]).(status :=
                     old(resources[name].status).(target := target))]
    {
      Perform(Check(name, source, target));
      ok := RecordTarget();
    }

    /** The writes after a passed conflict check. */
    method Install(name: string, source: string, target: string) returns (ok: bool)
      requires Valid() && WorkInv(State()) && Enabled(State(), Check(name, source, target))
      modifies this`resources, this`lists, this`homes, this`pods, this`now, this`work, this`trace, this`faults
      ensures Extends() && now == old(now) && homes == old(homes) && pods == old(pods)
      ensures name in resources && (lists != old(lists) ==> resources[name].status.target == target)
      ensures var home := old(resources[name].home); lists - {home} == old(lists) - {home}
      ensures resources[name].status.phase.Installing? ==>
                var r := old(resources[name]);
                Entries(State(), r.home)
                == Upserted(Entries(old(State()), r.home), Entry(r.category, r.repository, r.ref, target, source),
                            r.status.target)
      ensures ok <==> faults == old(faults)
      ensures ok ==>
                var r := old(resources[name]);
                && resources == old(resources)[name := r.(status :=
                     Moved(r, Installing, Activating, now).(target := target))]
                && Entries(State(), r.home)
                   == Upserted(Entries(old(State()), r.home), Entry(r.category, r.repository, r.ref, target, source),
                               r.status.target)
    {
      ok := ClaimTarget(name, source, target);
      if ok {
        ok := Announce();
      }
    }

    /** Publishes the entry, then enters Installing. */
    method Announce() returns (ok: bool)
      requires Valid() && work.Some? && work.value.saved && !work.value.published && Ready(State(), work.value.name)
      requires !resources[work.value.name].status.phase.Installing?
      modifies this`resources, this`lists, this`homes, this`pods, this`now, this`work, this`trace, this`faults
      ensures Extends() && now == old(now) && homes == old(homes) && pods == old(pods)
      ensures var k := old(work.value); var r := old(resources[k.name]);
              && k.name in resources && resources[k.name].status.target == r.status.target
              && lists - {r.home} == old(lists) - {r.home}
              && (resources[k.name].status.phase.Installing? ==>
                    Entries(State(), r.home)
                    == Upserted(Entries(old(State()), r.home), WorkEntry(old(State()), k), k.previous))
              && (ok ==> && resources[k.name].status.phase.Installing?
                         && resources == old(resources)[k.name := r.(status := Moved(r, Installing, Activating, now))])
      ensures ok <==> faults == old(faults)
    {
      RunKeepsInv(start, trace);
      ok := UpsertEntry();
      if ok {
        ok := EnterInstalling();
      }
    }

    // ---------- Phases ----------

    method ReconcileValidating(name: string, resolution: Resolution) returns (ok: bool)
      requires Valid() && work.None? && Ready(State(), name) && resources[name].home in homes
      requires !resources[name].status.phase.Installing?
      modifies this`resources, this`lists, this`homes, this`pods, this`now, this`work, this`trace, this`faults
      ensures Extends() && (ok <==> faults == old(faults))
      ensures homes == old(homes) && pods == old(pods) && now == old(now)
      ensures var home := old(resources[name].home); lists - {home} == old(lists) - {home}
      ensures ok ==>
                var r := old(resources[name]);
                && name in resources && resources == old(resources)[name := r.(status := resources[name].status)]
                && if r.status.phase.Validating? then Validated(old(State()), State(), name, resolution)
                   else && Entered(r, resources[name].status, Validating, Validation)
                        && resources[name].status.target == r.status.target && lists == old(lists)
    {
      var r := resources[name];
      if !r.status.phase.Validating? {
        ok := SetPhase(name, Move(name, Validating, Validation), Moved(r, Validating, Validation, now));
        return;
      }
      match resolution
      case Unfetched =>
        ok := SetPhase(name, Move(name, Failed, Unreachable), Moved(r, Failed, Unreachable, now));
      case Mismatch =>
        ok := SetPhase(name, Move(name, Failed, CategoryMismatch), Moved(r, Failed, CategoryMismatch, now));
      case Malformed =>
        ok := SetPhase(name, Move(name, Failed, StructureInvalid), Moved(r, Failed, StructureInvalid, now));
      case Resolved(source, target) =>
        ok := Probe();
        if !ok {
          return;
        }
        var found := ConflictingOwner(name, target);
        if found {
          ok := SetPhase(name, Move(name, Failed, TargetConflict), Moved(r, Failed, TargetConflict, now));
        } else {
          RunKeepsInv(start, trace);
          ok := Install(name, source, target);
        }
    }

    /** Marks the resource installed, which records the current ref. */
    method MarkInstalled(name: string) returns (ok: bool)
      requires Valid() && Enabled(State(), Activate(name))
      modifies this`resources, this`lists, this`homes, this`pods, this`now, this`work, this`trace, this`faults
      ensures Extends() && State() == old(State()).(resources := resources)
      ensures ok <==> faults == old(faults)
      ensures ok ==> && name in resources && Completes(old(resources[name]), resources[name].status)
                     && resources == old(resources)[name := old(resources[name]).(status := resources[name].status)]
    {
      var r := resources[name];
      ok := SetPhase(name, Activate(name), Moved(r, Installed, Reason.Confirmed, now).(version := r.ref));
    }

    method ReconcileIntegration(name: string) returns (ok: bool)
      requires Valid() && work.None? && Ready(State(), name)
      requires resources[name].status.phase.Installing? && resources[name].category == INTEGRATION
      modifies this`resources, this`lists, this`homes, this`pods, this`now, this`work, this`trace, this`faults,
               this`templates
      ensures Extends() && (ok <==> faults == old(faults))
      ensures State() == old(State()).(resources := resources)
      ensures ok ==> && name in resources
                     && resources == old(resources)[name := old(resources[name]).(status := resources[name].status)]
                     && IntegrationMoved(old(State()), old(resources[name]), resources[name].status)
                     && PassedOn(old(resources[name].home))
    {
      var c;
      ok, c := Observe(resources[name].home);
      if ok {
        ok := Conclude(name, c);
      }
    }

    /** Passes the list's hash on to the StatefulSet and looks at the pod. */
    method Observe(home: string) returns (ok: bool, c: Confirmation)
      modifies this`faults, this`templates
      ensures faults >= old(faults) && (ok <==> faults == old(faults))
      ensures ok ==> (c == Acknowledged <==> PodMaterialised(State(), home) && pods[home].ready) && PassedOn(home)
      ensures ok && c != Acknowledged ==> ReasonFor(c) == WaitingReason(State(), home)
    {
      c := Waiting;
      var stored := if home in lists then lists[home] else Missing;
      ok := Probe();
      if !ok {
        return;
      }
      var fingerprint := GoFingerprint(Payload(stored));
      var desired := hash(fingerprint);
      var found;
      ok, found := Bump(home, desired);
      if ok {
        ok := Probe();
      }
      if ok {
        c := Inspect(if home in pods then Some(pods[home]) else None, desired);
      }
    }

    /** Records what the pod shows. */
    method Conclude(name: string, c: Confirmation) returns (ok: bool)
      requires Valid() && work.None? && Ready(State(), name)
      requires resources[name].status.phase.Installing? && resources[name].category == INTEGRATION
      requires c == Acknowledged ==> MayActivate(State(), resources[name])
      modifies this`resources, this`lists, this`homes, this`pods, this`now, this`work, this`trace, this`faults
      ensures Extends() && (ok <==> faults == old(faults))
      ensures State() == old(State()).(resources := resources)
      ensures ok ==>
                var r := old(resources[name]);
                && name in resources && resources == old(resources)[name := r.(status := resources[name].status)]
                && var s := resources[name].status;
                   if c == Acknowledged then Completes(r, s)
                   else && Entered(r, s, Installing, ReasonFor(c)) && s.target == r.status.target
                        && (r.status.since.Some? ==> s.since == r.status.since)
    {
      if c == Acknowledged {
        ok := MarkInstalled(name);
      } else {
        var r := resources[name];
        ok := SetPhase(name, KeepInstalling(name, ReasonFor(c)), Moved(r, Installing, ReasonFor(c), now));
      }
    }

    /** A hot-reload category: wait for the settle delay, then ask Home Assistant, until the window closes. */
    method ReconcileHotReload(name: string, tokenReady: bool, activated: bool) returns (ok: bool)
      requires Valid() && work.None? && Ready(State(), name)
      requires resources[name].status.phase.Installing? && resources[name].category != INTEGRATION
      modifies this`resources, this`lists, this`homes, this`pods, this`now, this`work, this`trace, this`faults
      ensures Extends() && (ok <==> faults == old(faults))
      ensures State() == old(State()).(resources := resources)
      ensures ok ==> && name in resources
                     && resources == old(resources)[name := old(resources[name]).(status := resources[name].status)]
                     && HotReloadMoved(old(State()), old(resources[name]), resources[name].status,
                                       tokenReady && activated)
    {
      var r := resources[name];
      var elapsed := Elapsed(State(), r);
      ok := true;
      if elapsed > SETTLE_DELAY + RETRY_WINDOW {
        ok := SetPhase(name, Move(name, Failed, ActivationTimeout), Moved(r, Failed, ActivationTimeout, now));
        return;
      }
      if elapsed < SETTLE_DELAY || !tokenReady || !activated {
        return;
      }
      ok := MarkInstalled(name);
    }

    // ---------- Deletion ----------

    /** removeConfigMapEntry. */
    method RemoveEntry(name: string) returns (ok: bool)
      requires Valid() && work.None? && name in resources && resources[name].deleting && resources[name].finalizer
      requires resources[name].status.target != "" && resources[name].home in homes
      modifies this`resources, this`lists, this`homes, this`pods, this`now, this`work, this`trace, this`faults
      ensures Extends() && State() == old(State()).(lists := lists)
      ensures var r := resources[name];
              && lists - {r.home} == old(lists) - {r.home}
              && (ok ==> Entries(State(), r.home)
                         == Removed(Entries(old(State()), r.home), r.category, r.status.target))
      ensures ok <==> faults == old(faults)
    {
      var r := resources[name];
      ok := Probe();
      if !ok {
        return;
      }
      var list := RemoveFromList(if r.home in lists then lists[r.home] else Missing, r.category, r.status.target);
      ListWritten(State(), Withdraw(name, list), r.home);
      ok := Attempt(Withdraw(name, list));
    }

    /** Whether the entry is off the list and the pod has cleaned up; a Home Assistant that cannot be read for any
        reason is taken as gone. */
    method HandleDeletion(name: string) returns (ok: bool, complete: bool, unreadable: bool)
      requires Valid() && work.None? && name in resources && resources[name].deleting && resources[name].finalizer
      modifies this`resources, this`lists, this`homes, this`pods, this`now, this`work, this`trace, this`faults,
               this`templates
      ensures Extends() && (ok && !unreadable <==> faults == old(faults))
      ensures State() == old(State()).(lists := lists)
      ensures var r := resources[name];
              && lists - {r.home} == old(lists) - {r.home}
              && (ok && !unreadable ==>
                    if r.status.target != "" && r.home in homes
                    then Entries(State(), r.home)
                         == Removed(Entries(old(State()), r.home), r.category, r.status.target)
                    else lists == old(lists))
      ensures var r := resources[name];
              ok && !unreadable ==>
                if r.status.target != "" && r.home in homes && r.category == INTEGRATION then PassedOn(r.home)
                else templates == old(templates)
      ensures ok && complete && !unreadable ==> CleanedUp(State(), resources[name])
      ensures ok && !unreadable && (resources[name].category != INTEGRATION || CleanedUp(State(), resources[name])) ==>
                complete
    {
      var r := resources[name];
      unreadable := false;
      if r.status.target == "" {
        return true, true, false;
      }
      var readable := Probe();
      if !readable || r.home !in homes {
        return true, true, !readable;
      }
      ok := RemoveEntry(name);
      complete := false;
      if !ok {
        return;
      }
      if r.category != INTEGRATION {
        complete := true;
        return;
      }
      var fingerprint := GoFingerprint(Payload(if r.home in lists then lists[r.home] else Missing));
      var desired, found := hash(fingerprint), false;
      ok, found := Bump(r.home, desired);
      if !ok {
        return;
      }
      if !found {
        complete := homes[r.home].deleting;
        return;
      }
      ok := Probe();
      if !ok {
        return;
      }
      var c := Inspect(if r.home in pods then Some(pods[r.home]) else None, desired);
      complete := c == Acknowledged || c == NotReady;
    }

    // ---------- Reconcile ----------

    /** One reconcile. Whatever fails and wherever it stops, the run of the protocol goes on and no two live resources
        occupy one component. */
    method Reconcile(name: string, resolution: Resolution, tokenReady: bool, activated: bool) returns (ok: bool)
      requires Valid() && work.None?
      modifies this`resources, this`lists, this`homes, this`pods, this`now, this`work, this`trace, this`faults,
               this`templates
      ensures Extends() && work.None? && Exclusive(State())
      ensures faults == old(faults) && name in old(resources) ==>
                Dispatched(old(State()), State(), name, resolution, tokenReady && activated)
      ensures faults == old(faults) && name in old(resources) ==>
                if old(PassesHashOn(State(), name)) then PassedOn(old(resources[name].home))
                else templates == old(templates)
      ensures faults == old(faults) ==> ok
    {
      ok := Probe();
      if ok && name in resources {
        ok := Dispatch(name, resolution, tokenReady, activated);
      }
      ghost var before, after := old(State()), State();
      Perform(Restart);
      if faults == old(faults) && name in before.resources {
        StopKeeps(before, after, name, resolution, tokenReady && activated);
      }
      RunIsExclusive(start, trace);
    }

    method Dispatch(name: string, resolution: Resolution, tokenReady: bool, activated: bool) returns (ok: bool)
      requires Valid() && work.None? && name in resources
      modifies this`resources, this`lists, this`homes, this`pods, this`now, this`work, this`trace, this`faults,
               this`templates
      ensures Extends()
      ensures faults == old(faults) ==> Dispatched(old(State()), State(), name, resolution, tokenReady && activated)
      ensures faults == old(faults) ==>
                if old(PassesHashOn(State(), name)) then PassedOn(old(resources[name].home))
                else templates == old(templates)
      ensures faults == old(faults) ==> ok
    {
      var r := resources[name];
      if r.deleting {
        ok := Delete(name);
      } else if !r.finalizer {
        ok := Attempt(AddFinalizer(name));
      } else {
        ok := Probe();
        if !ok || r.home !in homes {
          ok := SetPhase(name, Move(name, Pending, Reason.HomeAssistantNotReady),
                         Moved(r, Pending, Reason.HomeAssistantNotReady, now));
        } else {
          ok := ReconcilePhase(name, resolution, tokenReady, activated);
        }
      }
    }

    /** The finalizer of a resource being deleted. */
    method Delete(name: string) returns (ok: bool)
      requires Valid() && work.None? && name in resources && resources[name].deleting
      modifies this`resources, this`lists, this`homes, this`pods, this`now, this`work, this`trace, this`faults,
               this`templates
      ensures Extends()
      ensures faults == old(faults) ==>
                OnlyListOf(old(State()), State(), old(resources[name].home)) && Deleted(old(State()), State(), name)
      ensures faults == old(faults) ==>
                if old(PassesHashOn(State(), name)) then PassedOn(old(resources[name].home))
                else templates == old(templates)
      ensures faults == old(faults) ==> ok
    {
      ok := true;
      if resources[name].finalizer {
        var complete, unreadable;
        ok, complete, unreadable := HandleDeletion(name);
        if ok && complete {
          ok := Attempt(Release(name, unreadable));
        }
      }
    }

    method ReconcilePhase(name: string, resolution: Resolution, tokenReady: bool, activated: bool) returns (ok: bool)
      requires Valid() && work.None? && Ready(State(), name) && resources[name].home in homes
      modifies this`resources, this`lists, this`homes, this`pods, this`now, this`work, this`trace, this`faults,
               this`templates
      ensures Extends() && OnlyListOf(old(State()), State(), old(resources[name].home))
      ensures faults == old(faults) ==>
                name in resources && PhaseDispatched(old(State()), State(), name, resolution, tokenReady && activated)
      ensures faults == old(faults) ==>
                if old(PassesHashOn(State(), name)) then PassedOn(old(resources[name].home))
                else templates == old(templates)
      ensures faults == old(faults) ==> ok
    {
      var r := resources[name];
      ok := true;
      match r.status.phase
      case Installing =>
        if r.category == INTEGRATION {
          ok := ReconcileIntegration(name);
        } else {
          ok := ReconcileHotReload(name, tokenReady, activated);
        }
      case Installed =>
        if r.status.observed != r.generation {
          ok := ReconcileValidating(name, resolution);
        }
      case Failed =>
        var retryable := r.status.reason == Unreachable || r.status.reason == TargetConflict;
        if r.status.observed != r.generation || retryable {
          ok := ReconcileValidating(name, resolution);
        }
      case _ =>
        ok := ReconcileValidating(name, resolution);
    }
  }

  lemma HashKept(w: World, a: Action)
    requires Enabled(w, a)
    ensures Apply(w, a).hash == w.hash
  {
  }

  /** What the reconcile had found out does not matter for where it led. */
  lemma StopKeeps(w: World, w': World, name: string, resolution: Resolution, activated: bool)
    requires name in w.resources && Dispatched(w, w', name, resolution, activated)
    ensures Dispatched(w, Apply(w', Restart), name, resolution, activated)
  {
    var r, w'' := w.resources[name], Apply(w', Restart);
    if r.deleting {
      assert CleanedUp(w'', r) <==> CleanedUp(w', r);
    } else if r.finalizer && r.home in w.homes {
      assert PhaseDispatched(w, w', name, resolution, activated);
    }
  }

  lemma ListWritten(w: World, a: Action, home: string)
    requires Enabled(w, a)
    requires (a.Publish? && w.resources[w.work.value.name].home == home)
             || (a.Withdraw? && w.resources[a.name].home == home)
    ensures Apply(w, a).lists - {home} == w.lists - {home}
  {
  }

  lemma RunIsExclusive(start: World, trace: seq<Action>)
    requires Initial(start) && ValidRun(start, trace)
    ensures Exclusive(Run(start, trace))
  {
    RunKeepsInv(start, trace);
  }

  // ---------- Successive reconciles ----------

  /** Fault-free reconciles of a live resource whose Home Assistant is there. In between everything else may change. */
  ghost predicate Turns(befores: seq<World>, afters: seq<World>, name: string, resolution: Resolution,
                        activated: bool)
  {
    && |befores| == |afters|
    && (forall i :: 0 <= i < |befores| ==>
          && name in befores[i].resources && !befores[i].resources[name].deleting
          && befores[i].resources[name].home in befores[i].homes
          && name in afters[i].resources && Dispatched(befores[i], afters[i], name, resolution, activated))
    && (forall i :: 0 < i < |befores| ==> befores[i].resources[name] == afters[i - 1].resources[name])
  }

  /** One reconcile each for a missing finalizer, for announcing the validation and for the validation itself. */
  function TurnsToInstall(r: Resource): nat {
    1 + (if r.finalizer then 0 else 1) + (if r.status.phase.Validating? then 0 else 1)
  }

  /** The resource waits for its installation. */
  predicate Due(r: Resource) { !Settled(r) && !r.status.phase.Installing? }

  /** Its installation has begun, and its entry is on the list. */
  predicate Begun(w: World, r: Resource, now: Resource, source: string, target: string) {
    var e := Entry(r.category, r.repository, r.ref, target, source);
    && now.status.phase.Installing? && now.status.target == target && now.status.observed == r.generation
    && KeyOf(e) in Entries(w, r.home) && Entries(w, r.home)[KeyOf(e)] == e
  }

  /** A reconcile of a waiting resource is one turn of those it needs. */
  lemma OneTurn(w: World, w': World, name: string, source: string, target: string, activated: bool)
    requires name in w.resources && name in w'.resources && !w.resources[name].deleting
    requires w.resources[name].home in w.homes && !Conflicts(w, name, target) && Due(w.resources[name])
    requires Dispatched(w, w', name, Resolved(source, target), activated)
    ensures var r, r' := w.resources[name], w'.resources[name];
            && r'.(status := r.status, finalizer := r.finalizer) == r
            && if TurnsToInstall(r) == 1 then Begun(w', r, r', source, target)
               else Due(r') && TurnsToInstall(r') == TurnsToInstall(r) - 1
  {
  }

  /** Before each of these reconciles the resource still waits, and needs one turn less. */
  lemma {:induction false} BeforeTurn(befores: seq<World>, afters: seq<World>, name: string, source: string,
                                      target: string, activated: bool, i: nat)
    requires Turns(befores, afters, name, Resolved(source, target), activated) && i < |befores|
    requires forall i :: 0 <= i < |befores| ==> !Conflicts(befores[i], name, target)
    requires var r := befores[0].resources[name]; Due(r) && |befores| == TurnsToInstall(r)
    ensures var r, r' := befores[0].resources[name], befores[i].resources[name];
            && r'.(status := r.status, finalizer := r.finalizer) == r
            && Due(r') && TurnsToInstall(r') == |befores| - i
  {
    if i > 0 {
      BeforeTurn(befores, afters, name, source, target, activated, i - 1);
      OneTurn(befores[i - 1], afters[i - 1], name, source, target, activated);
      assert befores[i].resources[name] == afters[i - 1].resources[name];
    }
  }

  /** Everything that is neither settled nor being installed gets there in at most three reconciles, once the
      repository resolves and no sibling holds the target: new, edited, waiting and transiently failed resources. */
  lemma ReachesInstalling(befores: seq<World>, afters: seq<World>, name: string, source: string, target: string,
                          activated: bool)
    requires Turns(befores, afters, name, Resolved(source, target), activated) && befores != []
    requires forall i :: 0 <= i < |befores| ==> !Conflicts(befores[i], name, target)
    requires var r := befores[0].resources[name]; Due(r) && |befores| == TurnsToInstall(r)
    ensures var n := |befores| - 1;
            && Begun(afters[n], befores[0].resources[name], afters[n].resources[name], source, target)
            && forall i :: 0 < i <= n ==> Due(befores[i].resources[name])
  {
    var n := |befores| - 1;
    forall i | 0 <= i <= n
      ensures Due(befores[i].resources[name])
    {
      BeforeTurn(befores, afters, name, source, target, activated, i);
    }
    BeforeTurn(befores, afters, name, source, target, activated, n);
    OneTurn(befores[n], afters[n], name, source, target, activated);
  }

  lemma SettledTurn(w: World, w': World, name: string, resolution: Resolution, activated: bool)
    requires name in w.resources && !w.resources[name].deleting && w.resources[name].finalizer
    requires w.resources[name].home in w.homes && Settled(w.resources[name])
    requires Dispatched(w, w', name, resolution, activated)
    ensures w'.resources == w.resources
  {
  }

  /** A settled resource stays as it is. */
  lemma {:induction false} SettledStays(befores: seq<World>, afters: seq<World>, name: string,
                                        resolution: Resolution, activated: bool, i: nat)
    requires Turns(befores, afters, name, resolution, activated) && i < |befores|
    requires Settled(befores[0].resources[name]) && befores[0].resources[name].finalizer
    ensures afters[i].resources[name] == befores[i].resources[name] == befores[0].resources[name]
  {
    if i > 0 {
      SettledStays(befores, afters, name, resolution, activated, i - 1);
      assert befores[i].resources[name] == afters[i - 1].resources[name];
    }
    SettledTurn(befores[i], afters[i], name, resolution, activated);
  }

  /** Once its cause is gone a failed, unedited resource gets another installation exactly after the two reasons that
      can go away by themselves. */
  lemma RetriedIffTransient(befores: seq<World>, afters: seq<World>, name: string, source: string, target: string,
                            activated: bool)
    requires Turns(befores, afters, name, Resolved(source, target), activated) && |befores| == 2
    requires forall i :: 0 <= i < 2 ==> !Conflicts(befores[i], name, target)
    requires var r := befores[0].resources[name];
             r.finalizer && r.status.phase.Failed? && r.status.observed == r.generation
    ensures afters[1].resources[name].status.phase.Installing? <==>
            var s := befores[0].resources[name].status; s.reason == Unreachable || s.reason == TargetConflict
  {
    if Settled(befores[0].resources[name]) {
      SettledStays(befores, afters, name, Resolved(source, target), activated, 1);
    } else {
      ReachesInstalling(befores, afters, name, source, target, activated);
    }
  }
}
