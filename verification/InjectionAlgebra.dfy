/** Laws of the edits to configuration.yaml. */
module InjectionAlgebra {
  import opened Wrappers
  import opened YamlConfig

  // ---------- One mapping ----------

  predicate DistinctEdits(edits: seq<Edit>) {
    forall i, j :: 0 <= i < j < |edits| ==> edits[i].key != edits[j].key
  }

  /** The edit has nothing left to do. */
  predicate InForce(fields: Fields, e: Edit) {
    Has(fields, e.key) && (e.override ==> Lookup(fields, e.key) == Some(e.node))
  }

  predicate AllInForce(fields: Fields, edits: seq<Edit>) { forall e <- edits :: InForce(fields, e) }

  function One(fields: Fields, e: Edit): Fields {
    if e.override then Override(fields, e.key, e.node) else SetField(fields, e.key, e.node)
  }

  /** The first field with a key is found at its position. */
  lemma {:induction false} PositionUnique(fields: Fields, key: string, i: nat)
    requires i < |fields| && fields[i].key == key && forall j :: 0 <= j < i ==> fields[j].key != key
    ensures Has(fields, key) && Position(fields, key) == i
  {
  }

  /** One edit leaves every other key where it was. */
  lemma OneElsewhere(fields: Fields, e: Edit, key: string)
    requires key != e.key
    ensures Has(One(fields, e), key) <==> Has(fields, key)
    ensures Lookup(One(fields, e), key) == Lookup(fields, key)
  {
    var after := One(fields, e);
    if Has(fields, key) {
      PositionUnique(after, key, Position(fields, key));
    } else {
      assert forall i :: 0 <= i < |after| ==> after[i].key != key;
    }
  }

  lemma OneInForce(fields: Fields, e: Edit)
    ensures InForce(One(fields, e), e)
  {
    var after := One(fields, e);
    if Has(fields, e.key) {
      PositionUnique(after, e.key, Position(fields, e.key));
    } else {
      PositionUnique(after, e.key, |fields|);
    }
  }

  lemma {:induction false} EditedElsewhere(fields: Fields, edits: seq<Edit>, key: string)
    requires forall e <- edits :: e.key != key
    ensures Lookup(Edited(fields, edits), key) == Lookup(fields, key)
  {
    if edits != [] {
      var k := |edits| - 1;
      EditedElsewhere(fields, edits[..k], key);
      OneElsewhere(Edited(fields, edits[..k]), edits[k], key);
    }
  }

  lemma {:induction false} EditedInForce(fields: Fields, edits: seq<Edit>)
    requires DistinctEdits(edits)
    ensures AllInForce(Edited(fields, edits), edits)
  {
    if edits != [] {
      var k := |edits| - 1;
      EditedInForce(fields, edits[..k]);
      OneInForce(Edited(fields, edits[..k]), edits[k]);
      forall e | e in edits
        ensures InForce(Edited(fields, edits), e)
      {
        if e != edits[k] {
          assert e in edits[..k];
          OneElsewhere(Edited(fields, edits[..k]), edits[k], e.key);
        }
      }
    }
  }

  /** What an edit of a mapping leaves under its own key. */
  lemma OneAt(fields: Fields, e: Edit)
    ensures Lookup(One(fields, e), e.key)
         == if e.override || !Has(fields, e.key) then Some(e.node) else Lookup(fields, e.key)
  {
    var after := One(fields, e);
    PositionUnique(after, e.key, if Has(fields, e.key) then Position(fields, e.key) else |fields|);
  }

  lemma {:induction false} EditedAt(fields: Fields, edits: seq<Edit>, e: Edit)
    requires DistinctEdits(edits) && e in edits
    ensures Lookup(Edited(fields, edits), e.key)
         == if e.override || !Has(fields, e.key) then Some(e.node) else Lookup(fields, e.key)
  {
    var k := |edits| - 1;
    if e == edits[k] {
      EditedElsewhere(fields, edits[..k], e.key);
      OneAt(Edited(fields, edits[..k]), e);
    } else {
      assert e in edits[..k];
      EditedAt(fields, edits[..k], e);
      OneElsewhere(Edited(fields, edits[..k]), edits[k], e.key);
    }
  }

  lemma {:induction false} InForceFixed(fields: Fields, edits: seq<Edit>)
    requires AllInForce(fields, edits)
    ensures Edited(fields, edits) == fields
  {
    if edits != [] {
      var k := |edits| - 1;
      InForceFixed(fields, edits[..k]);
      assert InForce(fields, edits[k]);
    }
  }

  /** Edits that only add never change an existing field or its place. */
  lemma {:induction false} AddingKeepsPrefix(fields: Fields, edits: seq<Edit>)
    requires forall e <- edits :: !e.override
    ensures fields <= Edited(fields, edits)
  {
    if edits != [] {
      AddingKeepsPrefix(fields, edits[..|edits| - 1]);
    }
  }

  // ---------- One section ----------

  /** Only the first field called name may have changed, or a new one was added at the end. */
  predicate OnlySection(root: Fields, after: Fields, name: string) {
    if Has(root, name) then
      |after| == |root| && after == root[Position(root, name) := after[Position(root, name)]]
      && after[Position(root, name)].key == name
    else after == root || (|after| == |root| + 1 && after == root + [after[|root|]] && after[|root|].key == name)
  }

  /** An injection touches its own section only: tags, order and contents of all others stay. */
  lemma InjectOnlySection(root: Fields, name: string, u: Upgrade, edits: seq<Edit>)
    ensures OnlySection(root, Inject(root, name, u, edits), name)
  {
  }

  lemma OnlySectionElsewhere(root: Fields, after: Fields, name: string, other: string)
    requires OnlySection(root, after, name) && other != name
    ensures Lookup(after, other) == Lookup(root, other)
  {
    if Has(root, other) {
      PositionUnique(after, other, Position(root, other));
    } else {
      assert forall i :: 0 <= i < |after| ==> after[i].key != other;
    }
  }

  /** Nothing left to inject. */
  predicate Settled(root: Fields, name: string, u: Upgrade, edits: seq<Edit>) {
    match Lookup(root, name)
    case None => false
    case Some(node) =>
      if Upgradable(node, u) then false else node.Mapping? ==> AllInForce(node.fields, edits)
  }

  lemma SettledFixed(root: Fields, name: string, u: Upgrade, edits: seq<Edit>)
    requires Settled(root, name, u, edits)
    ensures Inject(root, name, u, edits) == root
  {
    var node := Lookup(root, name).value;
    if node.Mapping? {
      InForceFixed(node.fields, edits);
    }
  }

  lemma InjectSettles(root: Fields, name: string, u: Upgrade, edits: seq<Edit>)
    requires DistinctEdits(edits)
    ensures Settled(Inject(root, name, u, edits), name, u, edits)
  {
    var section, after := Editable(root, name, u), Inject(root, name, u, edits);
    if section.Some? {
      EditedInForce(section.value.fields, edits);
      PositionUnique(after, name, if Has(root, name) then Position(root, name) else |root|);
    }
  }

  lemma InjectIdempotent(root: Fields, name: string, u: Upgrade, edits: seq<Edit>)
    requires DistinctEdits(edits)
    ensures var once := Inject(root, name, u, edits);
            Inject(once, name, u, edits) == once
  {
    InjectSettles(root, name, u, edits);
    SettledFixed(Inject(root, name, u, edits), name, u, edits);
  }

  /** Injecting another section keeps a section settled. */
  lemma OtherKeepsSettled(root: Fields, name: string, u: Upgrade, edits: seq<Edit>,
                          other: string, v: Upgrade, more: seq<Edit>)
    requires Settled(root, name, u, edits) && other != name
    ensures Settled(Inject(root, other, v, more), name, u, edits)
  {
    InjectOnlySection(root, other, v, more);
    OnlySectionElsewhere(root, Inject(root, other, v, more), other, name);
  }

  // ---------- The three injections ----------

  predicate Adds(edits: seq<Edit>, keys: set<string>) {
    DistinctEdits(edits) && forall e <- edits :: !e.override && e.key in keys
  }

  lemma AddsFirst(e: Edit, edits: seq<Edit>, keys: set<string>)
    requires Adds(edits, keys) && !e.override && e.key !in keys
    ensures Adds([e] + edits, keys + {e.key})
  {
    var all := [e] + edits;
    forall i, j | 0 <= i < j < |all|
      ensures all[i].key != all[j].key
    {
      assert all[j] == edits[j - 1] && edits[j - 1] in edits;
    }
  }

  function DefaultKeys(defaults: seq<Default>): set<string> { set d <- defaults :: d.key }

  lemma {:induction false} DefaultEditsDistinct(defaults: seq<Default>)
    requires forall i, j :: 0 <= i < j < |defaults| ==> defaults[i].key != defaults[j].key
    ensures Adds(DefaultEdits(defaults), DefaultKeys(defaults))
  {
    if defaults != [] {
      var d, rest := defaults[0], defaults[1..];
      DefaultEditsDistinct(rest);
      assert defaults == [d] + rest;
      assert DefaultKeys(defaults) == DefaultKeys(rest) + {d.key};
      if d.value.Some? {
        var e := Edit(d.key, Scalar(d.tag, d.value.value), false);
        AddsFirst(e, DefaultEdits(rest), DefaultKeys(rest));
      } else {
        assert DefaultEdits(defaults) == DefaultEdits(rest);
      }
    }
  }

  lemma LocationEditsDistinct(l: Location)
    ensures DistinctEdits(LocationEdits(l)) && forall e <- LocationEdits(l) :: !e.override
  {
    DefaultEditsDistinct(LocationDefaults(l));
  }

  lemma RecorderEditsDistinct(r: Recorder)
    ensures DistinctEdits(RecorderEdits(r))
  {
  }

  // ---------- What ends up under which key ----------

  /** The fields that an injection finds: those of a mapping, or none. */
  function FieldsOf(section: Option<Node>): Fields {
    if section.Some? && section.value.Mapping? then section.value.fields else []
  }

  function Written(tag: string, value: Option<string>): Option<Node> {
    if value.Some? then Some(Scalar(tag, value.value)) else None
  }

  /** The user's value stays; a missing key gets the default, if there is one. */
  predicate Defaulted(before: Fields, after: Fields, key: string, default: Option<Node>) {
    Lookup(after, key) == if Has(before, key) then Lookup(before, key) else default
  }

  /** The given value replaces the user's. */
  predicate Overridden(before: Fields, after: Fields, key: string, given: Option<Node>) {
    Lookup(after, key) == if given.Some? then given else Lookup(before, key)
  }

  lemma {:induction false} DefaultEditsMembers(defaults: seq<Default>, i: nat)
    requires i < |defaults|
    ensures defaults[i].value.Some? ==>
              Edit(defaults[i].key, Scalar(defaults[i].tag, defaults[i].value.value), false) in DefaultEdits(defaults)
    ensures defaults[i].value.None? && (forall j :: 0 <= j < |defaults| && j != i ==>
                                          defaults[j].key != defaults[i].key) ==>
              forall e <- DefaultEdits(defaults) :: e.key != defaults[i].key
  {
    if i > 0 {
      DefaultEditsMembers(defaults[1..], i - 1);
      assert forall j :: 0 <= j < |defaults| - 1 ==> defaults[1..][j] == defaults[j + 1];
    } else {
      DefaultEditsKeys(defaults[1..]);
    }
  }

  lemma {:induction false} DefaultEditsKeys(defaults: seq<Default>)
    ensures forall e <- DefaultEdits(defaults) :: exists j :: 0 <= j < |defaults| && defaults[j].key == e.key
  {
    if defaults != [] {
      DefaultEditsKeys(defaults[1..]);
      forall e | e in DefaultEdits(defaults[1..])
        ensures exists j :: 0 <= j < |defaults| && defaults[j].key == e.key
      {
        var j :| 0 <= j < |defaults| - 1 && defaults[1..][j].key == e.key;
        assert defaults[j + 1].key == e.key;
      }
    }
  }

  lemma DefaultedAt(fields: Fields, defaults: seq<Default>, i: nat)
    requires i < |defaults| && forall i, j :: 0 <= i < j < |defaults| ==> defaults[i].key != defaults[j].key
    ensures Defaulted(fields, Edited(fields, DefaultEdits(defaults)), defaults[i].key,
                      Written(defaults[i].tag, defaults[i].value))
  {
    var d := defaults[i];
    DefaultEditsMembers(defaults, i);
    DefaultEditsDistinct(defaults);
    if d.value.Some? {
      EditedAt(fields, DefaultEdits(defaults), Edit(d.key, Scalar(d.tag, d.value.value), false));
    } else {
      EditedElsewhere(fields, DefaultEdits(defaults), d.key);
    }
  }

  /** The section after an injection that may edit it. */
  lemma InjectedSection(root: Fields, name: string, u: Upgrade, edits: seq<Edit>)
    ensures var was := Lookup(root, name);
            if was.Some? && !was.value.Mapping? && !Upgradable(was.value, u) then Inject(root, name, u, edits) == root
            else
              var now := Lookup(Inject(root, name, u, edits), name);
              && now.Some? && now.value.Mapping? && now.value.fields == Edited(FieldsOf(was), edits)
              && (was.Some? && was.value.Mapping? ==> now.value.tag == was.value.tag)
  {
    var after := Inject(root, name, u, edits);
    PositionUnique(after, name, if Has(root, name) then Position(root, name) else |root|);
  }

  const LOCATION_KEYS := {
    "latitude", "longitude", "elevation", "unit_system", "time_zone", "name", "currency", "country"}

  /** Each location field is the user's or else the given one, and the section's other keys stay. A homeassistant
      section that is neither a mapping nor empty is left alone. */
  lemma LocationAfter(root: Fields, l: Location)
    ensures var was, after := Lookup(root, "homeassistant"), InjectLocation(root, l);
            if was.Some? && !was.value.Mapping? && !(was.value.Scalar? && was.value.text == "") then after == root
            else
              var b, a := FieldsOf(was), FieldsOf(Lookup(after, "homeassistant"));
              && Lookup(after, "homeassistant").Some?
              && Defaulted(b, a, "latitude", Written("!!float", l.latitude))
              && Defaulted(b, a, "longitude", Written("!!float", l.longitude))
              && Defaulted(b, a, "elevation", Written("!!int", l.elevation))
              && Defaulted(b, a, "unit_system", Written("!!str", l.unitSystem))
              && Defaulted(b, a, "time_zone", Written("!!str", l.timeZone))
              && Defaulted(b, a, "name", Written("!!str", l.name))
              && Defaulted(b, a, "currency", Written("!!str", l.currency))
              && Defaulted(b, a, "country", Written("!!str", l.country))
              && forall k: string :: k !in LOCATION_KEYS ==> Lookup(a, k) == Lookup(b, k)
  {
    InjectedSection(root, HOMEASSISTANT, AnyEmpty, LocationEdits(l));
    var b, defaults := FieldsOf(Lookup(root, "homeassistant")), LocationDefaults(l);
    forall i | 0 <= i < 8
      ensures Defaulted(b, Edited(b, DefaultEdits(defaults)), defaults[i].key,
                        Written(defaults[i].tag, defaults[i].value))
    {
      DefaultedAt(b, defaults, i);
    }
    LocationOthers(b, l);
    assert Defaulted(b, Edited(b, LocationEdits(l)), defaults[0].key, Written(defaults[0].tag, defaults[0].value));
    assert Defaulted(b, Edited(b, LocationEdits(l)), defaults[1].key, Written(defaults[1].tag, defaults[1].value));
    assert Defaulted(b, Edited(b, LocationEdits(l)), defaults[2].key, Written(defaults[2].tag, defaults[2].value));
    assert Defaulted(b, Edited(b, LocationEdits(l)), defaults[3].key, Written(defaults[3].tag, defaults[3].value));
    assert Defaulted(b, Edited(b, LocationEdits(l)), defaults[4].key, Written(defaults[4].tag, defaults[4].value));
    assert Defaulted(b, Edited(b, LocationEdits(l)), defaults[5].key, Written(defaults[5].tag, defaults[5].value));
    assert Defaulted(b, Edited(b, LocationEdits(l)), defaults[6].key, Written(defaults[6].tag, defaults[6].value));
    assert Defaulted(b, Edited(b, LocationEdits(l)), defaults[7].key, Written(defaults[7].tag, defaults[7].value));
  }

  lemma LocationOthers(fields: Fields, l: Location)
    ensures forall k: string :: k !in LOCATION_KEYS ==> Lookup(Edited(fields, LocationEdits(l)), k) == Lookup(fields, k)
  {
    forall k: string | k !in LOCATION_KEYS
      ensures Lookup(Edited(fields, LocationEdits(l)), k) == Lookup(fields, k)
    {
      DefaultEditsKeys(LocationDefaults(l));
      EditedElsewhere(fields, LocationEdits(l), k);
    }
  }

  /** How the database URL is written: as an include where it is secret. */
  function UrlNode(r: Recorder): Option<Node> {
    if r.dbUrl == "" then None
    else if r.useInclude then Some(Scalar("!include", "recorder_db_url.yaml"))
    else Some(Scalar("!!str", r.dbUrl))
  }

  lemma RecorderEdited(fields: Fields, r: Recorder)
    ensures var after := Edited(fields, RecorderEdits(r));
            && Overridden(fields, after, "db_url", UrlNode(r))
            && Overridden(fields, after, "purge_keep_days", Written("!!int", r.purgeKeepDays))
            && forall k: string :: k != "db_url" && k != "purge_keep_days" ==> Lookup(after, k) == Lookup(fields, k)
  {
    var edits := RecorderEdits(r);
    RecorderEditsDistinct(r);
    if r.dbUrl == "" {
      EditedElsewhere(fields, edits, "db_url");
    } else {
      EditedAt(fields, edits, edits[0]);
    }
    if r.purgeKeepDays.None? {
      EditedElsewhere(fields, edits, "purge_keep_days");
    } else {
      EditedAt(fields, edits, edits[|edits| - 1]);
    }
    forall k: string | k != "db_url" && k != "purge_keep_days"
      ensures Lookup(Edited(fields, edits), k) == Lookup(fields, k)
    {
      EditedElsewhere(fields, edits, k);
    }
  }

  /** The recorder's values replace the user's, and the section's other keys stay. A recorder section that is an
      include is left alone. */
  lemma RecorderAfter(root: Fields, r: Recorder)
    ensures var was, after := Lookup(root, "recorder"), InjectRecorder(root, r);
            var empty := was.Some? && was.value.Scalar? && was.value.text == ""
                         && (was.value.tag == "" || was.value.tag == "!!null");
            if !r.enabled || (r.dbUrl == "" && r.purgeKeepDays.None?)
               || (was.Some? && !was.value.Mapping? && !empty)
            then after == root
            else
              var b, a := FieldsOf(was), FieldsOf(Lookup(after, "recorder"));
              && Overridden(b, a, "db_url", UrlNode(r))
              && Overridden(b, a, "purge_keep_days", Written("!!int", r.purgeKeepDays))
              && forall k: string :: k != "db_url" && k != "purge_keep_days" ==> Lookup(a, k) == Lookup(b, k)
  {
    InjectedSection(root, RECORDER, NullOnly, RecorderEdits(r));
    RecorderEdited(FieldsOf(Lookup(root, "recorder")), r);
  }

  /** An exposed instance trusts its proxies: the user's two options stay, missing ones get the private ranges, and the
      section's other keys stay. */
  lemma ProxiesAfter(root: Fields, exposed: bool, optedOut: bool)
    ensures var was, after := Lookup(root, "http"), InjectTrustedProxies(root, exposed, optedOut);
            var empty := was.Some? && was.value.Scalar? && was.value.text == ""
                         && (was.value.tag == "" || was.value.tag == "!!null");
            if !exposed || optedOut || (was.Some? && !was.value.Mapping? && !empty) then after == root
            else
              var b, a := FieldsOf(was), FieldsOf(Lookup(after, "http"));
              && Defaulted(b, a, "use_x_forwarded_for", Some(Scalar("!!bool", "true")))
              && Defaulted(b, a, "trusted_proxies",
                           Some(Sequence("", [Scalar("!!str", "10.0.0.0/8"), Scalar("!!str", "172.16.0.0/12"),
                                              Scalar("!!str", "192.168.0.0/16")])))
              && forall k: string :: k !in {"use_x_forwarded_for", "trusted_proxies"} ==> Lookup(a, k) == Lookup(b, k)
  {
    InjectedSection(root, HTTP, NullOnly, ProxyEdits());
    var b, edits := FieldsOf(Lookup(root, "http")), ProxyEdits();
    EditedAt(b, edits, edits[0]);
    EditedAt(b, edits, edits[1]);
    assert StringList(PRIVATE_RANGES).items
        == [Scalar("!!str", "10.0.0.0/8"), Scalar("!!str", "172.16.0.0/12"), Scalar("!!str", "192.168.0.0/16")];
    forall k: string | k !in {"use_x_forwarded_for", "trusted_proxies"}
      ensures Lookup(Edited(b, edits), k) == Lookup(b, k)
    {
      EditedElsewhere(b, edits, k);
    }
  }

  // ---------- All injections ----------

  function InjectAll(root: Fields, l: Location, r: Recorder, exposed: bool, optedOut: bool): Fields {
    InjectTrustedProxies(InjectRecorder(InjectLocation(root, l), r), exposed, optedOut)
  }

  /** Each injection is idempotent, and so is all of them in a row: a second reconcile writes the same file. */
  lemma InjectAllIdempotent(root: Fields, l: Location, r: Recorder, exposed: bool, optedOut: bool)
    ensures InjectLocation(InjectLocation(root, l), l) == InjectLocation(root, l)
    ensures InjectRecorder(InjectRecorder(root, r), r) == InjectRecorder(root, r)
    ensures InjectTrustedProxies(InjectTrustedProxies(root, exposed, optedOut), exposed, optedOut)
         == InjectTrustedProxies(root, exposed, optedOut)
    ensures InjectAll(InjectAll(root, l, r, exposed, optedOut), l, r, exposed, optedOut)
         == InjectAll(root, l, r, exposed, optedOut)
  {
    var le, re, pe := LocationEdits(l), RecorderEdits(r), ProxyEdits();
    LocationEditsDistinct(l);
    RecorderEditsDistinct(r);
    InjectIdempotent(root, HOMEASSISTANT, AnyEmpty, le);
    InjectIdempotent(root, RECORDER, NullOnly, re);
    InjectIdempotent(root, HTTP, NullOnly, pe);
    var a := InjectLocation(root, l);
    var b := InjectRecorder(a, r);
    var c := InjectTrustedProxies(b, exposed, optedOut);
    InjectSettles(root, HOMEASSISTANT, AnyEmpty, le);
    InjectSettles(a, RECORDER, NullOnly, re);
    InjectSettles(b, HTTP, NullOnly, pe);
    OtherKeepsSettled(a, HOMEASSISTANT, AnyEmpty, le, RECORDER, NullOnly, re);
    OtherKeepsSettled(b, HOMEASSISTANT, AnyEmpty, le, HTTP, NullOnly, pe);
    SettledFixed(c, HOMEASSISTANT, AnyEmpty, le);
    if ShouldInjectRecorder(r) {
      OtherKeepsSettled(b, RECORDER, NullOnly, re, HTTP, NullOnly, pe);
      SettledFixed(c, RECORDER, NullOnly, re);
    }
    if exposed && !optedOut {
      SettledFixed(c, HTTP, NullOnly, pe);
    }
  }

  /** Location and proxy defaults never override what the user wrote: in a section that was a mapping, all fields keep
      their place and value, and no other section changes. */
  lemma DefaultsNeverOverride(root: Fields, l: Location, exposed: bool, optedOut: bool)
    ensures OnlySection(root, InjectLocation(root, l), HOMEASSISTANT)
    ensures OnlySection(root, InjectTrustedProxies(root, exposed, optedOut), HTTP)
            || InjectTrustedProxies(root, exposed, optedOut) == root
    ensures SectionExtended(Lookup(root, HOMEASSISTANT), Lookup(InjectLocation(root, l), HOMEASSISTANT))
    ensures SectionExtended(Lookup(root, HTTP), Lookup(InjectTrustedProxies(root, exposed, optedOut), HTTP))
  {
    LocationEditsDistinct(l);
    SectionOnlyGrows(root, HOMEASSISTANT, AnyEmpty, LocationEdits(l));
    SectionOnlyGrows(root, HTTP, NullOnly, ProxyEdits());
    InjectOnlySection(root, HOMEASSISTANT, AnyEmpty, LocationEdits(l));
    InjectOnlySection(root, HTTP, NullOnly, ProxyEdits());
  }

  predicate SectionExtended(before: Option<Node>, after: Option<Node>) {
    before.Some? && before.value.Mapping? ==>
      after.Some? && after.value.Mapping? && after.value.tag == before.value.tag
      && before.value.fields <= after.value.fields
  }

  lemma SectionOnlyGrows(root: Fields, name: string, u: Upgrade, edits: seq<Edit>)
    requires forall e <- edits :: !e.override
    ensures SectionExtended(Lookup(root, name), Lookup(Inject(root, name, u, edits), name))
  {
    if Has(root, name) && Lookup(root, name).value.Mapping? {
      AddingKeepsPrefix(Lookup(root, name).value.fields, edits);
      PositionUnique(Inject(root, name, u, edits), name, Position(root, name));
    }
  }

  /** Stripping forgets everything about the section. */
  lemma StripForgetsSection(root: Fields, after: Fields)
    requires OnlySection(root, after, HTTP)
    ensures Strip(after) == Strip(root)
  {
    if Has(root, HTTP) {
      PositionUnique(after, HTTP, Position(root, HTTP));
    } else if after != root {
      PositionUnique(after, HTTP, |root|);
    }
  }

  /** The injection does not show once http has been moved to the API: stripping gives the same file. */
  lemma StripForgetsInjection(root: Fields, exposed: bool, optedOut: bool)
    ensures Strip(InjectTrustedProxies(root, exposed, optedOut)) == Strip(root)
  {
    if exposed && !optedOut {
      InjectOnlySection(root, HTTP, NullOnly, ProxyEdits());
      StripForgetsSection(root, InjectTrustedProxies(root, exposed, optedOut));
    }
  }

  /** The fields with another key, in order. */
  function Others(fields: Fields, key: string): Fields {
    if fields == [] then []
    else if fields[0].key == key then Others(fields[1..], key)
    else [fields[0]] + Others(fields[1..], key)
  }

  lemma {:induction false} OthersConcat(a: Fields, b: Fields, key: string)
    ensures Others(a + b, key) == Others(a, key) + Others(b, key)
  {
    if a == [] {
      assert a + b == b;
    } else {
      OthersConcat(a[1..], b, key);
      assert (a + b)[1..] == a[1..] + b && (a + b)[0] == a[0];
      assert [a[0]] + (Others(a[1..], key) + Others(b, key)) == [a[0]] + Others(a[1..], key) + Others(b, key);
    }
  }

  lemma {:induction false} NoOthers(fields: Fields, key: string)
    requires !Has(fields, key)
    ensures Others(fields, key) == fields
  {
    if fields != [] {
      assert fields[0].key != key;
      assert forall i :: 0 <= i < |fields| - 1 ==> fields[1..][i] == fields[i + 1];
      NoOthers(fields[1..], key);
    }
  }

  lemma OthersAround(front: Fields, f: Field, back: Fields)
    ensures Others(front + [f] + back, f.key) == Others(front + back, f.key)
  {
    OthersConcat(front + [f], back, f.key);
    OthersConcat(front, [f], f.key);
    OthersConcat(front, back, f.key);
    assert Others([f], f.key) == [];
  }

  /** Stripping takes away one http section, the only one of a configuration that can be read, and every other section
      stays in its order. */
  lemma StripKeepsOthers(root: Fields)
    ensures Others(Strip(root), "http") == Others(root, "http")
    ensures |Strip(root)| == |root| - if Has(root, "http") then 1 else 0
    ensures Distinct(root) ==> Strip(root) == Others(root, "http")
  {
    if Has(root, HTTP) {
      var i := Position(root, HTTP);
      assert root == root[..i] + [root[i]] + root[i + 1..];
      OthersAround(root[..i], root[i], root[i + 1..]);
      if Distinct(root) {
        assert forall j :: i < j < |root| ==> root[j].key != HTTP;
        assert !Has(Strip(root), HTTP);
        NoOthers(Strip(root), HTTP);
      }
    } else {
      NoOthers(root, HTTP);
    }
  }
}
