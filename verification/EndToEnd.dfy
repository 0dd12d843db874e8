/** From the resource's phase down to the files in the pod's volume. The pod publishes the materializer's exit code
    and termination message; the operator compares them with the hash of the list it wants. */
module EndToEnd {
  import opened Wrappers
  import opened RepositoryEntries
  import opened Catalog
  import opened RepositoryProtocol
  import opened Disk
  import opened MaterializerRuns
  import opened Materializer

  ghost predicate Injective(hash: string -> string) {
    forall a, b :: hash(a) == hash(b) ==> a == b
  }

  /** The zero exit that the pod reports came from this run of the init container, started with the pod's
      annotation as expected hash. */
  ghost predicate RanInPod(w: World, home: string, before: Volume, after: Volume, listing: Option<seq<Entry>>,
                           contents: seq<Option<Tree>>)
  {
    && home in w.pods && |contents| == |Listed(listing)|
    && CleanExit(before, after, listing, contents, w.pods[home].annotation, w.hash)
  }

  /** A pod that acknowledges the desired hash has materialised exactly the integrations of the list. */
  lemma AcknowledgedListIsDesired(w: World, home: string, before: Volume, after: Volume,
                                  listing: Option<seq<Entry>>, contents: seq<Option<Tree>>)
    requires Injective(w.hash) && PodMaterialised(w, home) && RanInPod(w, home, before, after, listing, contents)
    requires NulFreeEntries(Listed(listing)) && NulFreeEntries(Integrations(Payload(ListOf(w, home))))
    ensures Listed(listing) == Integrations(Payload(ListOf(w, home)))
    ensures Acknowledged(before, after, Listed(listing), contents)
            <==> Separate(Targets(Listed(listing)), OwnedTargets(before.state))
  {
    FingerprintInjective(Listed(listing), Integrations(Payload(ListOf(w, home))));
    Acknowledgement(before, Listed(listing), contents);
  }

  lemma ListedTarget(w: World, r: Resource)
    requires r.category == INTEGRATION && TargetKey(r) in Entries(w, r.home)
    requires forall e <- Payload(ListOf(w, r.home)) :: SEPARATOR !in e.category
    ensures r.status.target in Targets(Integrations(Payload(ListOf(w, r.home))))
  {
    var list := Payload(ListOf(w, r.home));
    IndexedKeys(list, TargetKey(r));
    var e := Indexed(list)[TargetKey(r)];
    EntryKeyInjective(r.category, r.status.target, e.category, e.target);
    IntegrationsSubset(list);
  }

  lemma UnlistedTarget(w: World, r: Resource)
    requires r.category == INTEGRATION && TargetKey(r) !in Entries(w, r.home)
    ensures r.status.target !in Targets(Integrations(Payload(ListOf(w, r.home))))
  {
    var list := Payload(ListOf(w, r.home));
    IntegrationsSubset(list);
    forall e | e in Integrations(list)
      ensures e.target != r.status.target
    {
      var i :| 0 <= i < |list| && list[i] == e;
      assert KeysOf(list)[i] == KeyOf(e);
      IndexedKeys(list, KeyOf(e));
    }
  }

  /** An integration is marked Installed only if the pod's volume holds exactly the integrations of the list, and the
      resource's own one if it is still listed. */
  lemma InstalledIsMaterialised(w: World, name: string, before: Volume, after: Volume,
                                listing: Option<seq<Entry>>, contents: seq<Option<Tree>>)
    requires Enabled(w, Activate(name)) && w.resources[name].category == INTEGRATION
    requires var home := w.resources[name].home;
             && Injective(w.hash) && RanInPod(w, home, before, after, listing, contents)
             && NulFreeEntries(Listed(listing)) && NulFreeEntries(Integrations(Payload(ListOf(w, home))))
             && forall e <- Payload(ListOf(w, home)) :: SEPARATOR !in e.category
    ensures var r := w.resources[name];
            && Listed(listing) == Integrations(Payload(ListOf(w, r.home)))
            && after == Completed(before, Listed(listing), contents)
            && (Separate(Targets(Listed(listing)), OwnedTargets(before.state)) ==>
                  && Acknowledged(before, after, Listed(listing), contents)
                  && (TargetKey(r) in Entries(w, r.home) ==>
                        r.status.target in after.files && after.files[r.status.target].Whole?))
  {
    var r := w.resources[name];
    AcknowledgedListIsDesired(w, r.home, before, after, listing, contents);
    if TargetKey(r) in Entries(w, r.home) {
      ListedTarget(w, r);
    }
  }

  /** A deleted integration is released, while its Home Assistant can be read and keeps its StatefulSet, only after
      the init container cleaned up: what is left at its target was there before and never recorded as owned. */
  lemma DeletionCleansVolume(w: World, name: string, before: Volume, after: Volume,
                             listing: Option<seq<Entry>>, contents: seq<Option<Tree>>)
    requires Enabled(w, Release(name, false)) && w.resources[name].category == INTEGRATION
    requires var r := w.resources[name];
             && r.status.target != "" && r.home in w.homes && w.homes[r.home].hasStatefulSet
             && Injective(w.hash) && RanInPod(w, r.home, before, after, listing, contents)
             && NulFreeEntries(Listed(listing)) && NulFreeEntries(Integrations(Payload(ListOf(w, r.home))))
    ensures var target := w.resources[name].status.target;
            target in after.files <==>
              && target in before.files && target !in OwnedTargets(before.state)
              && forall u <- Targets(Listed(listing)) + OwnedTargets(before.state) :: target != Backup(u)
  {
    var r := w.resources[name];
    AcknowledgedListIsDesired(w, r.home, before, after, listing, contents);
    UnlistedTarget(w, r);
    UnlistedUnlessKnown(before, Listed(listing), contents, r.status.target);
  }
}
