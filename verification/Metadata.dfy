/** The three-way merge of user annotations and labels into the StatefulSet and its pod template. The keys that the
    user manages are remembered, comma-separated, in two tracking annotations. */
module Metadata {
  import opened Wrappers
  import opened Catalog

  type Pairs = map<string, string>

  const USER_ANNOTATIONS := "ha.homeassistant.io/user-annotations"
  const USER_LABELS := "ha.homeassistant.io/user-labels"
  const CONFIG_HASH := "ha.homeassistant.io/config-hash"
  const REPOSITORY_HASH := "ha.homeassistant.io/community-repository-hash"
  const SECRETS_HASH := "ha.homeassistant.io/secrets-hash"

  const TRACKING := {USER_ANNOTATIONS, USER_LABELS}

  /** The annotations of the pod template through which the operator restarts the pod. */
  const HASHES := {CONFIG_HASH, REPOSITORY_HASH, SECRETS_HASH}

  datatype Spec = Spec(annotations: Pairs, labels: Pairs)

  datatype StatefulSet = StatefulSet(annotations: Pairs, labels: Pairs, podAnnotations: Pairs, podLabels: Pairs)

  // ---------- Comma-separated lists ----------

  const COMMA := ','

  predicate CommaFree(keys: set<string>) { forall k <- keys :: COMMA !in k && k != "" }

  function Joined(keys: seq<string>): string {
    if keys == [] then "" else if |keys| == 1 then keys[0] else keys[0] + [COMMA] + Joined(keys[1..])
  }

  function FirstComma(s: string): (i: nat)
    requires COMMA in s
    ensures i < |s| && s[i] == COMMA && COMMA !in s[..i]
  {
    if s[0] == COMMA then 0 else 1 + FirstComma(s[1..])
  }

  /** strings.Split: the empty string has one empty part. */
  function Split(s: string): seq<string> {
    if COMMA !in s then [s] else [s[..FirstComma(s)]] + Split(s[FirstComma(s) + 1..])
  }

  lemma {:induction false} SplitJoined(keys: seq<string>)
    requires keys != [] && forall k <- keys :: COMMA !in k
    ensures Split(Joined(keys)) == keys
  {
    assert keys[0] in keys && forall k <- keys[1..] :: k in keys;
    if |keys| > 1 {
      SplitJoined(keys[1..]);
      SplitFirst(keys[0], Joined(keys[1..]));
      assert keys == [keys[0]] + keys[1..];
    }
  }

  /** The first part ends at the first comma. */
  lemma SplitFirst(part: string, rest: string)
    requires COMMA !in part
    ensures Split(part + [COMMA] + rest) == [part] + Split(rest)
  {
    var s := part + [COMMA] + rest;
    assert s[|part|] == COMMA;
    assert forall i :: 0 <= i < |part| ==> s[i] == part[i] && s[i] != COMMA;
    assert FirstComma(s) == |part|;
    assert s[..|part|] == part && s[|part| + 1..] == rest;
  }

  function Parts(s: string): set<string> { set p <- Split(s) }

  /** The text of a tracking annotation for a set of keys. */
  ghost predicate Tracks(text: string, keys: set<string>) {
    exists ks: seq<string> :: Sorted(ks) && multiset(ks) == multiset(keys) && text == Joined(ks)
  }

  lemma TracksParts(text: string, keys: set<string>)
    requires Tracks(text, keys) && CommaFree(keys)
    ensures Parts(text) == if keys == {} then {""} else keys
  {
    var ks: seq<string> :| Sorted(ks) && multiset(ks) == multiset(keys) && text == Joined(ks);
    assert forall k :: k in ks <==> k in multiset(ks);
    assert |ks| == |multiset(ks)| == |multiset(keys)|;
    if keys != {} {
      var k :| k in keys;
      assert k in multiset(ks);
      SplitJoined(ks);
    }
  }

  lemma TracksUnique(a: string, b: string, keys: set<string>)
    requires Tracks(a, keys) && Tracks(b, keys)
    ensures a == b
  {
    var ks: seq<string> :| Sorted(ks) && multiset(ks) == multiset(keys) && a == Joined(ks);
    var ls: seq<string> :| Sorted(ls) && multiset(ls) == multiset(keys) && b == Joined(ls);
    SortedUnique(ks, ls);
  }

  // ---------- The merge ----------

  function Managed(annotations: Pairs, tracking: string): set<string> {
    if tracking in annotations then Parts(annotations[tracking]) else {}
  }

  function Merge(current: Pairs, desired: Pairs, managed: set<string>): Pairs { current - managed + desired }

  method ReconcileMaps(current: Pairs, desired: Pairs, managed: set<string>) returns (result: Pairs)
    ensures result == Merge(current, desired, managed)
  {
    result := map[];
    var rest := current.Keys;
    while rest != {}
      invariant rest <= current.Keys && result == current - managed - rest
      decreases rest
    {
      var key :| key in rest;
      rest := rest - {key};
      if key !in managed {
        result := result[key := current[key]];
      }
    }
    result := result + desired;
  }

  method ManagedKeys(annotations: Pairs, tracking: string) returns (keys: set<string>)
    ensures keys == Managed(annotations, tracking)
  {
    keys := {};
    if tracking in annotations {
      var parts := Split(annotations[tracking]);
      var i := 0;
      while i < |parts|
        invariant 0 <= i <= |parts| && keys == set p <- parts[..i]
      {
        assert parts[..i + 1] == parts[..i] + [parts[i]];
        keys := keys + {parts[i]};
        i := i + 1;
      }
      assert parts[..i] == parts;
    }
  }

  method JoinSorted(keys: set<string>) returns (text: string)
    ensures Tracks(text, keys)
  {
    var a := CollectKeys(keys);
    SortStrings(a);
    text := Joined(a[..]);
    assert multiset(a[..]) == multiset(keys);
  }

  /** What one reconcile makes of the current metadata. */
  ghost predicate Reconciled(selector: Pairs, current: StatefulSet, spec: Spec, next: StatefulSet) {
    var annotations := Managed(current.annotations, USER_ANNOTATIONS);
    var labels := Managed(current.annotations, USER_LABELS);
    && next.podAnnotations == Merge(current.podAnnotations, spec.annotations, annotations)
    && next.podLabels == Merge(current.podLabels, spec.labels, labels) + selector
    && next.labels == Merge(current.labels, spec.labels, labels) + selector
    && USER_ANNOTATIONS in next.annotations && Tracks(next.annotations[USER_ANNOTATIONS], spec.annotations.Keys)
    && USER_LABELS in next.annotations && Tracks(next.annotations[USER_LABELS], spec.labels.Keys)
    && next.annotations - TRACKING == Merge(current.annotations, spec.annotations, annotations) - TRACKING
  }

  /** Nothing but the operator's hashes on the pod template was set. */
  predicate HashesSet(merged: StatefulSet, next: StatefulSet) {
    && next == merged.(podAnnotations := next.podAnnotations)
    && next.podAnnotations - HASHES == merged.podAnnotations - HASHES
  }

  /** One reconcile, and whatever hashes the operator's controllers set after it. */
  ghost predicate Stepped(selector: Pairs, current: StatefulSet, spec: Spec, next: StatefulSet) {
    exists merged :: Reconciled(selector, current, spec, merged) && HashesSet(merged, next)
  }

  method WithTracking(annotations: Pairs, first: string, second: string) returns (r: Pairs)
    ensures r - TRACKING == annotations - TRACKING
    ensures USER_ANNOTATIONS in r && r[USER_ANNOTATIONS] == first && USER_LABELS in r && r[USER_LABELS] == second
  {
    assert |USER_ANNOTATIONS| != |USER_LABELS|;
    r := annotations[USER_ANNOTATIONS := first][USER_LABELS := second];
  }

  method ReconcileMetadata(selector: Pairs, current: StatefulSet, spec: Spec) returns (next: StatefulSet)
    ensures Reconciled(selector, current, spec, next)
  {
    var managedAnnotations := ManagedKeys(current.annotations, USER_ANNOTATIONS);
    var managedLabels := ManagedKeys(current.annotations, USER_LABELS);
    var podAnnotations := ReconcileMaps(current.podAnnotations, spec.annotations, managedAnnotations);
    var podLabels := ReconcileMaps(current.podLabels, spec.labels, managedLabels);
    var annotations := ReconcileMaps(current.annotations, spec.annotations, managedAnnotations);
    var labels := ReconcileMaps(current.labels, spec.labels, managedLabels);
    var first := JoinSorted(spec.annotations.Keys);
    var second := JoinSorted(spec.labels.Keys);
    var tracked := WithTracking(annotations, first, second);
    next := StatefulSet(tracked, labels + selector, podAnnotations, podLabels + selector);
  }

  // ---------- needsUpdateForMetadata ----------

  function At(pairs: Pairs, key: string): string { if key in pairs then pairs[key] else "" }

  function Tracked(annotations: Pairs, tracking: string, values: Pairs): Pairs {
    map k <- Parts(At(annotations, tracking)) | k != "" :: At(values, k)
  }

  predicate NeedsUpdate(current: StatefulSet, desired: StatefulSet) {
    || At(current.podAnnotations, CONFIG_HASH) != At(desired.podAnnotations, CONFIG_HASH)
    || At(current.podAnnotations, REPOSITORY_HASH) != At(desired.podAnnotations, REPOSITORY_HASH)
    || Tracked(current.annotations, USER_ANNOTATIONS, current.annotations)
       != Tracked(desired.annotations, USER_ANNOTATIONS, desired.annotations)
    || Tracked(current.annotations, USER_ANNOTATIONS, current.podAnnotations)
       != Tracked(desired.annotations, USER_ANNOTATIONS, desired.podAnnotations)
    || Tracked(current.annotations, USER_LABELS, current.labels)
       != Tracked(desired.annotations, USER_LABELS, desired.labels)
    || Tracked(current.annotations, USER_LABELS, current.podLabels)
       != Tracked(desired.annotations, USER_LABELS, desired.podLabels)
  }

  // ---------- Properties over runs of spec edits ----------

  predicate ValidSpec(spec: Spec) { CommaFree(spec.annotations.Keys) && CommaFree(spec.labels.Keys) }

  /** After a reconcile the tracked keys are those of its spec. */
  lemma TracksSpec(selector: Pairs, current: StatefulSet, spec: Spec, next: StatefulSet)
    requires ValidSpec(spec) && Reconciled(selector, current, spec, next)
    ensures forall k | k != "" ::
              && (k in Managed(next.annotations, USER_ANNOTATIONS) <==> k in spec.annotations)
              && (k in Managed(next.annotations, USER_LABELS) <==> k in spec.labels)
  {
    TracksParts(next.annotations[USER_ANNOTATIONS], spec.annotations.Keys);
    TracksParts(next.annotations[USER_LABELS], spec.labels.Keys);
  }

  /** One key of one map: its value, and whether the user's spec put it there. */
  datatype Slot = Slot(value: Option<string>, tracked: bool)

  function Get(pairs: Pairs, k: string): Option<string> { if k in pairs then Some(pairs[k]) else None }

  /** What a reconcile does to one key. */
  predicate SlotStep(slot: Slot, want: Option<string>, next: Slot) {
    next == Slot(if want.Some? then want else if slot.tracked then None else slot.value, want.Some?)
  }

  /** The maps of a StatefulSet that user metadata goes into. */
  datatype Place = OnSet | OnPod | SetLabel | PodLabel

  function MapAt(s: StatefulSet, p: Place): Pairs {
    match p
    case OnSet => s.annotations
    case OnPod => s.podAnnotations
    case SetLabel => s.labels
    case PodLabel => s.podLabels
  }

  predicate IsLabel(p: Place) { p.SetLabel? || p.PodLabel? }

  function SlotAt(s: StatefulSet, p: Place, k: string): Slot {
    Slot(Get(MapAt(s, p), k), k in Managed(s.annotations, if IsLabel(p) then USER_LABELS else USER_ANNOTATIONS))
  }

  function Wanted(spec: Spec, p: Place, k: string): Option<string> {
    Get(if IsLabel(p) then spec.labels else spec.annotations, k)
  }

  /** Keys that the merge itself sets at a place. */
  predicate Overwritten(selector: Pairs, p: Place, k: string) {
    k == "" || (p.OnSet? && k in TRACKING) || (IsLabel(p) && k in selector)
  }

  /** Keys that the operator sets at a place. */
  predicate Reserved(selector: Pairs, p: Place, k: string) { Overwritten(selector, p, k) || (p.OnPod? && k in HASHES) }

  lemma MergeAt(current: Pairs, desired: Pairs, managed: set<string>, k: string)
    ensures Get(Merge(current, desired, managed), k)
         == if Get(desired, k).Some? then Get(desired, k) else if k in managed then None else Get(current, k)
  {
  }

  lemma OverlayAt(a: Pairs, b: Pairs, k: string)
    requires k !in b
    ensures Get(a + b, k) == Get(a, k)
  {
  }

  lemma WithoutAt(a: Pairs, b: Pairs, k: string)
    requires a - TRACKING == b - TRACKING && k !in TRACKING
    ensures Get(a, k) == Get(b, k)
  {
    assert Get(a - TRACKING, k) == Get(a, k) && Get(b - TRACKING, k) == Get(b, k);
  }

  lemma ValueStep(selector: Pairs, current: StatefulSet, spec: Spec, next: StatefulSet, p: Place, k: string)
    requires Reconciled(selector, current, spec, next) && !Overwritten(selector, p, k)
    ensures Get(MapAt(next, p), k)
         == if Wanted(spec, p, k).Some? then Wanted(spec, p, k)
            else if SlotAt(current, p, k).tracked then None else Get(MapAt(current, p), k)
  {
    var desired := if IsLabel(p) then spec.labels else spec.annotations;
    var managed := Managed(current.annotations, if IsLabel(p) then USER_LABELS else USER_ANNOTATIONS);
    var merged := Merge(MapAt(current, p), desired, managed);
    MergeAt(MapAt(current, p), desired, managed, k);
    if IsLabel(p) {
      OverlayAt(merged, selector, k);
    } else if p.OnSet? {
      WithoutAt(next.annotations, merged, k);
    }
  }

  lemma KeyStep(selector: Pairs, current: StatefulSet, spec: Spec, next: StatefulSet, p: Place, k: string)
    requires ValidSpec(spec) && Reconciled(selector, current, spec, next) && !Overwritten(selector, p, k)
    ensures SlotStep(SlotAt(current, p, k), Wanted(spec, p, k), SlotAt(next, p, k))
  {
    TracksSpec(selector, current, spec, next);
    ValueStep(selector, current, spec, next, p, k);
  }

  lemma ReservedStep(selector: Pairs, current: StatefulSet, spec: Spec, next: StatefulSet, p: Place, k: string)
    requires Reconciled(selector, current, spec, next) && IsLabel(p) && k in selector
    ensures Get(MapAt(next, p), k) == Some(selector[k])
  {
  }

  /** Kubernetes allows no empty key. */
  predicate ValidKeys(s: StatefulSet) {
    "" !in s.annotations && "" !in s.labels && "" !in s.podAnnotations && "" !in s.podLabels
  }

  lemma SlotFixed(slot: Slot, want: Option<string>, next: Slot, again: Slot)
    requires SlotStep(slot, want, next) && SlotStep(next, want, again)
    ensures again == next
  {
  }

  lemma UserKeyFixed(selector: Pairs, current: StatefulSet, spec: Spec, next: StatefulSet, again: StatefulSet,
                     p: Place, k: string)
    requires ValidSpec(spec) && !Overwritten(selector, p, k)
    requires Reconciled(selector, current, spec, next) && Reconciled(selector, next, spec, again)
    ensures Get(MapAt(again, p), k) == Get(MapAt(next, p), k)
  {
    KeyStep(selector, current, spec, next, p, k);
    KeyStep(selector, next, spec, again, p, k);
    SlotFixed(SlotAt(current, p, k), Wanted(spec, p, k), SlotAt(next, p, k), SlotAt(again, p, k));
  }

  lemma TrackingFixed(selector: Pairs, current: StatefulSet, spec: Spec, next: StatefulSet, again: StatefulSet)
    requires Reconciled(selector, current, spec, next) && Reconciled(selector, next, spec, again)
    ensures forall k <- TRACKING :: Get(again.annotations, k) == Get(next.annotations, k)
  {
    TracksUnique(next.annotations[USER_ANNOTATIONS], again.annotations[USER_ANNOTATIONS], spec.annotations.Keys);
    TracksUnique(next.annotations[USER_LABELS], again.annotations[USER_LABELS], spec.labels.Keys);
  }

  lemma PlaceFixed(selector: Pairs, current: StatefulSet, spec: Spec, next: StatefulSet, again: StatefulSet, p: Place)
    requires ValidSpec(spec) && "" !in MapAt(next, p) && "" !in MapAt(again, p)
    requires Reconciled(selector, current, spec, next) && Reconciled(selector, next, spec, again)
    ensures MapAt(again, p) == MapAt(next, p)
  {
    TrackingFixed(selector, current, spec, next, again);
    forall k: string
      ensures Get(MapAt(again, p), k) == Get(MapAt(next, p), k)
    {
      if !Overwritten(selector, p, k) {
        UserKeyFixed(selector, current, spec, next, again, p, k);
      } else if IsLabel(p) && k in selector {
        ReservedStep(selector, current, spec, next, p, k);
        ReservedStep(selector, next, spec, again, p, k);
      }
    }
    SameGets(MapAt(again, p), MapAt(next, p));
  }

  lemma SameGets(a: Pairs, b: Pairs)
    requires forall k: string :: Get(a, k) == Get(b, k)
    ensures a == b
  {
    forall k: string
      ensures (k in a <==> k in b) && (k in a ==> a[k] == b[k])
    {
      assert Get(a, k) == Get(b, k);
    }
  }

  lemma NoUpdateForSame(s: StatefulSet)
    ensures !NeedsUpdate(s, s)
  {
  }

  /** Reconciling again with the same spec changes nothing and asks for no update. */
  lemma ReconcileIsFixpoint(selector: Pairs, current: StatefulSet, spec: Spec, next: StatefulSet, again: StatefulSet)
    requires ValidSpec(spec) && ValidKeys(next) && ValidKeys(again)
    requires Reconciled(selector, current, spec, next) && Reconciled(selector, next, spec, again)
    ensures again == next && !NeedsUpdate(next, again)
  {
    AnnotationsFixed(selector, current, spec, next, again);
    LabelsFixed(selector, current, spec, next, again);
    PodLabelsFixed(selector, current, spec, next, again);
    NoUpdateForSame(next);
  }

  lemma AnnotationsFixed(selector: Pairs, current: StatefulSet, spec: Spec, next: StatefulSet, again: StatefulSet)
    requires ValidSpec(spec) && ValidKeys(next) && ValidKeys(again)
    requires Reconciled(selector, current, spec, next) && Reconciled(selector, next, spec, again)
    ensures again.annotations == next.annotations && again.podAnnotations == next.podAnnotations
  {
    PlaceFixed(selector, current, spec, next, again, OnSet);
    PlaceFixed(selector, current, spec, next, again, OnPod);
  }

  lemma LabelsFixed(selector: Pairs, current: StatefulSet, spec: Spec, next: StatefulSet, again: StatefulSet)
    requires ValidSpec(spec) && ValidKeys(next) && ValidKeys(again)
    requires Reconciled(selector, current, spec, next) && Reconciled(selector, next, spec, again)
    ensures again.labels == next.labels
  {
    PlaceFixed(selector, current, spec, next, again, SetLabel);
  }

  lemma PodLabelsFixed(selector: Pairs, current: StatefulSet, spec: Spec, next: StatefulSet, again: StatefulSet)
    requires ValidSpec(spec) && ValidKeys(next) && ValidKeys(again)
    requires Reconciled(selector, current, spec, next) && Reconciled(selector, next, spec, again)
    ensures again.podLabels == next.podLabels
  {
    PlaceFixed(selector, current, spec, next, again, PodLabel);
  }

  // ---------- An update is asked for exactly when there is something to update ----------

  function Values(keys: set<string>, values: Pairs): Pairs { map k <- keys :: At(values, k) }

  predicate AgreeOn(keys: set<string>, v: Pairs, w: Pairs) { forall k <- keys :: At(v, k) == At(w, k) }

  lemma SameValues(a: set<string>, x: Pairs, b: set<string>, y: Pairs)
    ensures Values(a, x) == Values(b, y) <==> a == b && AgreeOn(a, x, y)
  {
    assert Values(a, x).Keys == a && Values(b, y).Keys == b;
    if Values(a, x) == Values(b, y) {
      assert forall k <- a :: Values(a, x)[k] == Values(b, y)[k];
    }
  }

  lemma TrackedIs(annotations: Pairs, tracking: string, keys: set<string>, values: Pairs)
    requires tracking in annotations && Tracks(annotations[tracking], keys) && CommaFree(keys)
    ensures Tracked(annotations, tracking, values) == Values(keys, values)
  {
    TracksParts(annotations[tracking], keys);
  }

  /** The compared values agree exactly if the keys and the values under them do. */
  lemma TrackedSame(tracking: string, x: Pairs, a: set<string>, v: Pairs, y: Pairs, b: set<string>, w: Pairs)
    requires tracking in x && Tracks(x[tracking], a) && CommaFree(a)
    requires tracking in y && Tracks(y[tracking], b) && CommaFree(b)
    ensures Tracked(x, tracking, v) == Tracked(y, tracking, w) <==> a == b && AgreeOn(a, v, w)
  {
    TrackedIs(x, tracking, a, v);
    TrackedIs(y, tracking, b, w);
    SameValues(a, v, b, w);
  }

  predicate AnnotationsKept(wanted: Pairs, onSet: Pairs, onPod: Pairs) {
    forall k <- wanted ::
      (k !in TRACKING ==> At(onSet, k) == wanted[k]) && (k !in HASHES ==> At(onPod, k) == wanted[k])
  }

  predicate LabelsKept(selector: Pairs, wanted: Pairs, labels: Pairs) {
    forall k <- wanted :: At(labels, k) == (if k in selector then selector[k] else wanted[k])
  }

  /** What a step leaves under the keys of its spec. */
  lemma SpecKept(selector: Pairs, current: StatefulSet, spec: Spec, next: StatefulSet)
    requires ValidSpec(spec) && Stepped(selector, current, spec, next)
    ensures USER_ANNOTATIONS in next.annotations && Tracks(next.annotations[USER_ANNOTATIONS], spec.annotations.Keys)
    ensures USER_LABELS in next.annotations && Tracks(next.annotations[USER_LABELS], spec.labels.Keys)
    ensures AnnotationsKept(spec.annotations, next.annotations, next.podAnnotations)
    ensures LabelsKept(selector, spec.labels, next.labels) && LabelsKept(selector, spec.labels, next.podLabels)
  {
    var merged :| Reconciled(selector, current, spec, merged) && HashesSet(merged, next);
    forall k | k in spec.annotations
      ensures k !in TRACKING ==> At(next.annotations, k) == spec.annotations[k]
      ensures k !in HASHES ==> At(next.podAnnotations, k) == spec.annotations[k]
    {
      assert k !in TRACKING ==> k in merged.annotations - TRACKING;
      assert k !in HASHES ==> k in merged.podAnnotations - HASHES;
    }
  }

  predicate LabelsDiffer(selector: Pairs, a: Pairs, b: Pairs) {
    a.Keys != b.Keys || exists k <- a :: k in b && k !in selector && a[k] != b[k]
  }

  /** The hashes that are compared: the third one only where the user's annotations name it. */
  predicate HashesDiffer(spec: Spec, next: StatefulSet, again: StatefulSet) {
    || At(next.podAnnotations, CONFIG_HASH) != At(again.podAnnotations, CONFIG_HASH)
    || At(next.podAnnotations, REPOSITORY_HASH) != At(again.podAnnotations, REPOSITORY_HASH)
    || (SECRETS_HASH in spec.annotations
        && At(next.podAnnotations, SECRETS_HASH) != At(again.podAnnotations, SECRETS_HASH))
  }

  predicate AnnotationsTracked(current: StatefulSet, desired: StatefulSet) {
    && Tracked(current.annotations, USER_ANNOTATIONS, current.annotations)
       == Tracked(desired.annotations, USER_ANNOTATIONS, desired.annotations)
    && Tracked(current.annotations, USER_ANNOTATIONS, current.podAnnotations)
       == Tracked(desired.annotations, USER_ANNOTATIONS, desired.podAnnotations)
  }

  predicate LabelsTracked(current: StatefulSet, desired: StatefulSet) {
    && Tracked(current.annotations, USER_LABELS, current.labels)
       == Tracked(desired.annotations, USER_LABELS, desired.labels)
    && Tracked(current.annotations, USER_LABELS, current.podLabels)
       == Tracked(desired.annotations, USER_LABELS, desired.podLabels)
  }

  lemma NoCommonKeys()
    ensures TRACKING !! HASHES
  {
    assert |USER_ANNOTATIONS| == 36 && |USER_LABELS| == 31;
    assert |CONFIG_HASH| == 31 && |REPOSITORY_HASH| == 45 && |SECRETS_HASH| == 32;
    assert USER_LABELS[20] != CONFIG_HASH[20];
  }

  /** No annotation is overwritten at both places, so an edit shows at one of them. */
  lemma EditShows(a: Pairs, b: Pairs, x: Pairs, y: Pairs, u: Pairs, v: Pairs)
    requires AnnotationsKept(a, x, u) && AnnotationsKept(b, y, v)
    requires a.Keys == b.Keys && AgreeOn(a.Keys, x, y) && AgreeOn(a.Keys, u, v)
    ensures a == b
  {
    NoCommonKeys();
    forall k | k in a
      ensures a[k] == b[k]
    {
      assert k in b && (k !in TRACKING || k !in HASHES);
    }
  }

  lemma TrackingTexts(a: Spec, next: StatefulSet, b: Spec, again: StatefulSet)
    requires USER_ANNOTATIONS in next.annotations && Tracks(next.annotations[USER_ANNOTATIONS], a.annotations.Keys)
    requires USER_LABELS in next.annotations && Tracks(next.annotations[USER_LABELS], a.labels.Keys)
    requires USER_ANNOTATIONS in again.annotations && Tracks(again.annotations[USER_ANNOTATIONS], b.annotations.Keys)
    requires USER_LABELS in again.annotations && Tracks(again.annotations[USER_LABELS], b.labels.Keys)
    requires a.annotations.Keys == b.annotations.Keys && a.labels.Keys == b.labels.Keys
    ensures AgreeOn(TRACKING, next.annotations, again.annotations)
  {
    TracksUnique(next.annotations[USER_ANNOTATIONS], again.annotations[USER_ANNOTATIONS], a.annotations.Keys);
    TracksUnique(next.annotations[USER_LABELS], again.annotations[USER_LABELS], a.labels.Keys);
  }

  lemma AnnotationsAgree(selector: Pairs, current: StatefulSet, a: Spec, next: StatefulSet, b: Spec, again: StatefulSet)
    requires ValidSpec(a) && ValidSpec(b)
    requires Stepped(selector, current, a, next) && Stepped(selector, next, b, again)
    ensures AnnotationsTracked(next, again) <==>
              && a.annotations.Keys == b.annotations.Keys
              && AgreeOn(a.annotations.Keys, next.annotations, again.annotations)
              && AgreeOn(a.annotations.Keys, next.podAnnotations, again.podAnnotations)
  {
    SpecKept(selector, current, a, next);
    SpecKept(selector, next, b, again);
    var x, y := a.annotations.Keys, b.annotations.Keys;
    TrackedSame(USER_ANNOTATIONS, next.annotations, x, next.annotations, again.annotations, y, again.annotations);
    TrackedSame(USER_ANNOTATIONS, next.annotations, x, next.podAnnotations, again.annotations, y, again.podAnnotations);
  }

  lemma AnnotationEdit(selector: Pairs, current: StatefulSet, a: Spec, next: StatefulSet, b: Spec, again: StatefulSet)
    requires ValidSpec(a) && ValidSpec(b)
    requires Stepped(selector, current, a, next) && Stepped(selector, next, b, again)
    ensures AnnotationsTracked(next, again) ==> a.annotations == b.annotations
    ensures AnnotationsTracked(next, again) && SECRETS_HASH in b.annotations ==>
              At(next.podAnnotations, SECRETS_HASH) == At(again.podAnnotations, SECRETS_HASH)
  {
    AnnotationsAgree(selector, current, a, next, b, again);
    SpecKept(selector, current, a, next);
    SpecKept(selector, next, b, again);
    if AnnotationsTracked(next, again) {
      EditShows(a.annotations, b.annotations, next.annotations, again.annotations,
                next.podAnnotations, again.podAnnotations);
    }
  }

  lemma NoAnnotationEdit(selector: Pairs, current: StatefulSet, a: Spec, next: StatefulSet, b: Spec, again: StatefulSet)
    requires ValidSpec(a) && ValidSpec(b)
    requires Stepped(selector, current, a, next) && Stepped(selector, next, b, again)
    requires a.annotations == b.annotations && a.labels.Keys == b.labels.Keys && !HashesDiffer(b, next, again)
    ensures AnnotationsTracked(next, again)
  {
    AnnotationsAgree(selector, current, a, next, b, again);
    SpecKept(selector, current, a, next);
    SpecKept(selector, next, b, again);
    TrackingTexts(a, next, b, again);
    HashesAgree(b, next, again);
    NothingShows(a.annotations, next.annotations, again.annotations, next.podAnnotations, again.podAnnotations);
  }

  lemma HashesAgree(spec: Spec, next: StatefulSet, again: StatefulSet)
    requires !HashesDiffer(spec, next, again)
    ensures AgreeOn(HASHES * spec.annotations.Keys, next.podAnnotations, again.podAnnotations)
  {
  }

  /** Without an edit the values agree, apart from those that the operator sets. */
  lemma NothingShows(a: Pairs, x: Pairs, y: Pairs, u: Pairs, v: Pairs)
    requires AnnotationsKept(a, x, u) && AnnotationsKept(a, y, v)
    requires AgreeOn(TRACKING, x, y) && AgreeOn(HASHES * a.Keys, u, v)
    ensures AgreeOn(a.Keys, x, y) && AgreeOn(a.Keys, u, v)
  {
    forall k | k in a
      ensures At(x, k) == At(y, k) && At(u, k) == At(v, k)
    {
      assert k in HASHES ==> k in HASHES * a.Keys;
    }
  }

  lemma LabelEdit(selector: Pairs, current: StatefulSet, a: Spec, next: StatefulSet, b: Spec, again: StatefulSet)
    requires ValidSpec(a) && ValidSpec(b)
    requires Stepped(selector, current, a, next) && Stepped(selector, next, b, again)
    ensures LabelsTracked(next, again) <==> !LabelsDiffer(selector, a.labels, b.labels)
  {
    SpecKept(selector, current, a, next);
    SpecKept(selector, next, b, again);
    var x, y := a.labels.Keys, b.labels.Keys;
    TrackedSame(USER_LABELS, next.annotations, x, next.labels, again.annotations, y, again.labels);
    TrackedSame(USER_LABELS, next.annotations, x, next.podLabels, again.annotations, y, again.podLabels);
    LabelsAgree(selector, a.labels, next.labels, b.labels, again.labels);
    LabelsAgree(selector, a.labels, next.podLabels, b.labels, again.podLabels);
  }

  lemma LabelsAgree(selector: Pairs, a: Pairs, x: Pairs, b: Pairs, y: Pairs)
    requires LabelsKept(selector, a, x) && LabelsKept(selector, b, y)
    ensures a.Keys == b.Keys && AgreeOn(a.Keys, x, y) <==> !LabelsDiffer(selector, a, b)
  {
    if a.Keys == b.Keys && AgreeOn(a.Keys, x, y) {
      forall k | k in a && k !in selector
        ensures a[k] == b[k]
      {
        assert At(x, k) == At(y, k) && k in b;
      }
    }
    if !LabelsDiffer(selector, a, b) {
      forall k | k in a
        ensures At(x, k) == At(y, k)
      {
        assert k in b;
      }
    }
  }

  /** Between two successive reconciles an update is asked for exactly when a hash changed, the user's annotations
      changed, or the user's labels changed in their keys or outside the selector. */
  lemma UpdateIffEdited(selector: Pairs, current: StatefulSet, a: Spec, next: StatefulSet, b: Spec, again: StatefulSet)
    requires ValidSpec(a) && ValidSpec(b)
    requires Stepped(selector, current, a, next) && Stepped(selector, next, b, again)
    ensures NeedsUpdate(next, again) <==>
              || HashesDiffer(b, next, again)
              || a.annotations != b.annotations
              || LabelsDiffer(selector, a.labels, b.labels)
  {
    AnnotationEdit(selector, current, a, next, b, again);
    LabelEdit(selector, current, a, next, b, again);
    if !HashesDiffer(b, next, again) && a.annotations == b.annotations
       && !LabelsDiffer(selector, a.labels, b.labels)
    {
      NoAnnotationEdit(selector, current, a, next, b, again);
    }
  }

  // ---------- Runs of spec edits, with nobody else editing user metadata ----------

  lemma SteppedKey(selector: Pairs, current: StatefulSet, spec: Spec, next: StatefulSet, p: Place, k: string)
    requires ValidSpec(spec) && Stepped(selector, current, spec, next) && !Reserved(selector, p, k)
    ensures SlotStep(SlotAt(current, p, k), Wanted(spec, p, k), SlotAt(next, p, k))
  {
    var merged :| Reconciled(selector, current, spec, merged) && HashesSet(merged, next);
    KeyStep(selector, current, spec, merged, p, k);
    if p.OnPod? {
      assert Get(next.podAnnotations - HASHES, k) == Get(next.podAnnotations, k);
      assert Get(merged.podAnnotations - HASHES, k) == Get(merged.podAnnotations, k);
    }
  }

  ghost predicate Run(selector: Pairs, states: seq<StatefulSet>, specs: seq<Spec>) {
    && |states| == |specs| + 1
    && (forall spec <- specs :: ValidSpec(spec))
    && forall i :: 0 <= i < |specs| ==> Stepped(selector, states[i], specs[i], states[i + 1])
  }

  ghost predicate SlotRun(slots: seq<Slot>, wants: seq<Option<string>>) {
    && |slots| == |wants| + 1
    && forall i :: 0 <= i < |wants| ==> SlotStep(slots[i], wants[i], slots[i + 1])
  }

  lemma {:induction false} SlotHistory(slots: seq<Slot>, wants: seq<Option<string>>)
    requires SlotRun(slots, wants)
    ensures var last := slots[|wants|];
            if forall i :: 0 <= i < |wants| ==> wants[i].None? then
              last.value == (if slots[0].tracked && wants != [] then None else slots[0].value)
            else last.value == wants[|wants| - 1]
  {
    if wants != [] {
      var n := |wants| - 1;
      SlotHistory(slots[..n + 1], wants[..n]);
      assert SlotStep(slots[n], wants[n], slots[n + 1]);
      if n > 0 {
        assert SlotStep(slots[n - 1], wants[n - 1], slots[n]);
      }
    }
  }

  function Slots(states: seq<StatefulSet>, p: Place, k: string): (r: seq<Slot>)
    ensures |r| == |states| && forall i :: 0 <= i < |r| ==> r[i] == SlotAt(states[i], p, k)
  {
    seq(|states|, i requires 0 <= i < |states| => SlotAt(states[i], p, k))
  }

  function Wants(specs: seq<Spec>, p: Place, k: string): (r: seq<Option<string>>)
    ensures |r| == |specs| && forall i :: 0 <= i < |r| ==> r[i] == Wanted(specs[i], p, k)
  {
    seq(|specs|, i requires 0 <= i < |specs| => Wanted(specs[i], p, k))
  }

  lemma SlotsRun(selector: Pairs, states: seq<StatefulSet>, specs: seq<Spec>, p: Place, k: string)
    requires Run(selector, states, specs) && !Reserved(selector, p, k)
    ensures SlotRun(Slots(states, p, k), Wants(specs, p, k))
  {
    forall i | 0 <= i < |specs|
      ensures SlotStep(Slots(states, p, k)[i], Wants(specs, p, k)[i], Slots(states, p, k)[i + 1])
    {
      assert specs[i] in specs;
      SteppedKey(selector, states[i], specs[i], states[i + 1], p, k);
    }
  }

  /** After any sequence of spec edits, with the operator's hashes set at will in between, at every place and for every
      key that the operator does not set itself: a key that some spec had has the last spec's value, and is gone if
      the last spec dropped it; a key that no spec had keeps its first value, unless the tracking annotation listed it
      from the start. */
  lemma MetadataAfterEdits(selector: Pairs, states: seq<StatefulSet>, specs: seq<Spec>, p: Place, k: string)
    requires Run(selector, states, specs) && !Reserved(selector, p, k)
    ensures var first, last := SlotAt(states[0], p, k), Get(MapAt(states[|specs|], p), k);
            var wants := Wants(specs, p, k);
            if exists i :: 0 <= i < |wants| && wants[i].Some? then last == wants[|wants| - 1]
            else if first.tracked && specs != [] then last == None
            else last == first.value
  {
    SlotsRun(selector, states, specs, p, k);
    var slots, wants := Slots(states, p, k), Wants(specs, p, k);
    SlotHistory(slots, wants);
    assert slots[|wants|] == SlotAt(states[|specs|], p, k) && slots[0] == SlotAt(states[0], p, k);
  }

  /** The selector labels hold after every reconcile, whatever the spec says. */
  lemma SelectorAlwaysHolds(selector: Pairs, states: seq<StatefulSet>, specs: seq<Spec>, p: Place, k: string)
    requires Run(selector, states, specs) && specs != [] && IsLabel(p) && k in selector
    ensures Get(MapAt(states[|specs|], p), k) == Some(selector[k])
  {
    var n := |specs| - 1;
    assert Stepped(selector, states[n], specs[n], states[n + 1]);
  }
}
