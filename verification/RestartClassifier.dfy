/** Whether a change of configuration.yaml needs a restart of Home Assistant. */
module RestartClassifier {
  import opened Wrappers
  import opened YamlConfig
  import opened InjectionAlgebra

  /** A configuration as the classifier decodes it: nodes by key. */
  type Sections = map<string, Node>

  /** How a node prints, and what it decodes to. */
  datatype Reading = Reading(text: Node -> string, value: Node -> Node)

  const RELOADABLE_SECTIONS := {
    "automation", "script", "scene", "group", "input_boolean", "input_number", "input_select", "input_text",
    "input_datetime", "timer", "counter", "logger"}

  const CRITICAL_KEYS := {
    "name", "latitude", "longitude", "elevation", "time_zone", "unit_system", "currency", "country", "language",
    "internal_url", "external_url"}

  const RELOADABLE_KEYS := {"customize", "customize_domain", "customize_glob"}

  const CRITICAL_HTTP_KEYS := {"server_port", "ssl_certificate", "ssl_key", "ssl_profile", "ip_ban_enabled"}

  const RELOADABLE_HTTP_KEYS := {"cors_allowed_origins", "use_x_forwarded_for", "trusted_proxies"}

  function AsMap(fields: Fields): Sections {
    map i | 0 <= i < |fields| && Position(fields, fields[i].key) == i :: fields[i].key := fields[i].node
  }

  predicate Differ(was: Sections, now: Sections, key: string, r: Reading) {
    || (key in was) != (key in now)
    || (key in was && key in now && r.text(was[key]) != r.text(now[key]))
  }

  /** A section is absent or a mapping. */
  predicate Plain(sections: Sections, name: string) { name in sections ==> sections[name].Mapping? }

  function Inner(sections: Sections, name: string): Sections {
    if name in sections && sections[name].Mapping? then AsMap(sections[name].fields) else map[]
  }

  // ---------- What the parser accepts ----------

  /** The parser refuses a mapping with a repeated key, at any depth. */
  predicate Decodable(fields: Fields) {
    Distinct(fields) && forall f <- fields :: DecodableNode(f.node)
  }

  predicate DecodableNode(node: Node) {
    match node
    case Scalar(_, _) => true
    case Sequence(_, items) => forall item <- items :: DecodableNode(item)
    case Mapping(_, fields) => Decodable(fields)
  }

  // ---------- The declarative specification ----------

  ghost predicate SectionsForceRestart(was: Sections, now: Sections) {
    || (exists k :: k in now && k !in was && k !in RELOADABLE_SECTIONS && k != HTTP)
    || (exists k :: k in was && k !in now && k != HTTP)
  }

  ghost predicate HomeAssistantForcesRestart(was: Sections, now: Sections, r: Reading) {
    || !Plain(was, HOMEASSISTANT) || !Plain(now, HOMEASSISTANT)
    || exists k :: k in CRITICAL_KEYS && Differ(Inner(was, HOMEASSISTANT), Inner(now, HOMEASSISTANT), k, r)
  }

  ghost predicate HttpForcesRestart(was: Sections, now: Sections, r: Reading) {
    || !Plain(was, HTTP) || !Plain(now, HTTP)
    || exists k :: k !in RELOADABLE_HTTP_KEYS && Differ(Inner(was, HTTP), Inner(now, HTTP), k, r)
  }

  ghost predicate RestartNeeded(was: Sections, now: Sections, r: Reading) {
    SectionsForceRestart(was, now) || HomeAssistantForcesRestart(was, now, r) || HttpForcesRestart(was, now, r)
  }

  /** A configuration that cannot be read, before or after, is answered with a restart. */
  ghost predicate MustRestart(was: Fields, now: Fields, r: Reading) {
    !Decodable(was) || !Decodable(now) || RestartNeeded(AsMap(was), AsMap(now), r)
  }

  // ---------- The classifier, in any iteration order ----------

  method HttpSectionChanged(was: Sections, now: Sections, r: Reading) returns (changed: bool, critical: bool)
    ensures critical <==> exists k :: k !in RELOADABLE_HTTP_KEYS && Differ(was, now, k, r)
    ensures changed <==> exists k :: Differ(was, now, k, r)
  {
    var rest := was.Keys + now.Keys;
    changed := false;
    while rest != {}
      invariant rest <= was.Keys + now.Keys
      invariant forall k <- was.Keys + now.Keys - rest :: Differ(was, now, k, r) ==> k in RELOADABLE_HTTP_KEYS
      invariant changed <==> exists k <- was.Keys + now.Keys - rest :: Differ(was, now, k, r)
      decreases rest
    {
      var key :| key in rest;
      rest := rest - {key};
      if (key in was) == (key in now) && (key in was ==> r.text(was[key]) == r.text(now[key])) {
        assert !Differ(was, now, key, r);
      } else {
        assert Differ(was, now, key, r);
        if key in CRITICAL_HTTP_KEYS {
          return true, true;
        } else if key in RELOADABLE_HTTP_KEYS {
          changed := true;
        } else {
          return true, true;
        }
      }
    }
    return changed, false;
  }

  /** Whether some key of a fixed set differs. */
  method AnyDiffers(keys: set<string>, was: Sections, now: Sections, r: Reading) returns (found: bool)
    ensures found <==> exists k <- keys :: Differ(was, now, k, r)
  {
    var rest := keys;
    while rest != {}
      invariant rest <= keys && forall k <- keys - rest :: !Differ(was, now, k, r)
      decreases rest
    {
      var key :| key in rest;
      rest := rest - {key};
      if (key in was) != (key in now) || (key in was && r.text(was[key]) != r.text(now[key])) {
        assert Differ(was, now, key, r);
        return true;
      }
    }
    return false;
  }

  function Value(sections: Sections, key: string, r: Reading): Option<Node> {
    if key in sections then Some(r.value(sections[key])) else None
  }

  /** A reloadable part of homeassistant changed: the customizations, or the two sections that may stand in it. */
  ghost predicate ReloadableChanged(was: Sections, now: Sections, r: Reading) {
    || Differ(was, now, "customize", r) || Differ(was, now, "customize_domain", r)
    || Differ(was, now, "customize_glob", r)
    || Value(was, "logger", r) != Value(now, "logger", r)
    || Value(was, "automation", r) != Value(now, "automation", r)
  }

  method HomeAssistantSectionChanged(was: Node, now: Node, r: Reading) returns (changed: bool, critical: bool)
    ensures critical <==> !was.Mapping? || !now.Mapping?
                          || exists k <- CRITICAL_KEYS :: Differ(AsMap(was.fields), AsMap(now.fields), k, r)
    ensures changed <==> critical || ReloadableChanged(AsMap(was.fields), AsMap(now.fields), r)
  {
    if !was.Mapping? || !now.Mapping? {
      return true, true;
    }
    var o, n := AsMap(was.fields), AsMap(now.fields);
    var found := AnyDiffers(CRITICAL_KEYS, o, n, r);
    if found {
      return true, true;
    }
    found := AnyDiffers(RELOADABLE_KEYS, o, n, r);
    return found || Value(o, "logger", r) != Value(n, "logger", r)
           || Value(o, "automation", r) != Value(n, "automation", r),
           false;
  }

  method SectionChanged(was: Sections, now: Sections, section: string, r: Reading)
    returns (changed: bool, critical: bool)
    requires section == HTTP || section == HOMEASSISTANT
    ensures section == HTTP ==> (critical <==> HttpForcesRestart(was, now, r))
    ensures section == HOMEASSISTANT ==>
              (critical <==> (section in was) != (section in now) || HomeAssistantForcesRestart(was, now, r))
    ensures critical ==> changed
    ensures section !in was && section !in now ==> !changed
  {
    if section !in was && section !in now {
      return false, false;
    }
    if section == HTTP {
      if (section in was && !was[section].Mapping?) || (section in now && !now[section].Mapping?) {
        return true, true;
      }
      changed, critical := HttpSectionChanged(Inner(was, HTTP), Inner(now, HTTP), r);
      return;
    }
    if section !in was || section !in now {
      return true, true;
    }
    changed, critical := HomeAssistantSectionChanged(was[section], now[section], r);
  }

  /** The comparison of decoded configurations. */
  method Classify(was: Sections, now: Sections, r: Reading) returns (restart: bool)
    ensures restart <==> RestartNeeded(was, now, r)
  {
    var rest := now.Keys;
    while rest != {}
      invariant rest <= now.Keys
      invariant forall k <- now.Keys - rest :: k in was || k in RELOADABLE_SECTIONS || k == HTTP
      decreases rest
    {
      var key :| key in rest;
      rest := rest - {key};
      if key !in was && key !in RELOADABLE_SECTIONS && key != HTTP {
        return true;
      }
    }
    rest := was.Keys;
    while rest != {}
      invariant rest <= was.Keys
      invariant forall k <- was.Keys - rest :: k in now || k == HTTP
      decreases rest
    {
      var key :| key in rest;
      rest := rest - {key};
      if key !in now && key != HTTP {
        return true;
      }
    }
    var sections := {HOMEASSISTANT, HTTP};
    ghost var safe: set<string> := {};
    while sections != {}
      invariant sections <= {HOMEASSISTANT, HTTP} && sections + safe == {HOMEASSISTANT, HTTP}
      invariant HOMEASSISTANT in safe ==> !HomeAssistantForcesRestart(was, now, r)
      invariant HTTP in safe ==> !HttpForcesRestart(was, now, r)
      decreases sections
    {
      var section :| section in sections;
      var changed, critical := SectionChanged(was, now, section, r);
      if changed && critical {
        return true;
      }
      sections, safe := sections - {section}, safe + {section};
    }
    return false;
  }

  /** needsRestart: the answer, and whether both configurations could be read. */
  method NeedsRestart(was: Fields, now: Fields, r: Reading) returns (restart: bool, readable: bool)
    ensures restart <==> MustRestart(was, now, r)
    ensures readable <==> Decodable(was) && Decodable(now)
  {
    if !Decodable(was) || !Decodable(now) {
      return true, false;
    }
    readable := true;
    restart := Classify(AsMap(was), AsMap(now), r);
  }

  // ---------- What one edit needs ----------

  /** Sections that can be added while Home Assistant runs. */
  predicate Addable(section: string) {
    || section == "automation" || section == "script" || section == "scene" || section == "group"
    || section == "input_boolean" || section == "input_number" || section == "input_select"
    || section == "input_text" || section == "input_datetime" || section == "timer" || section == "counter"
    || section == "logger"
  }

  /** Options of homeassistant that are read at the start only. */
  predicate ReadAtStart(option: string) {
    || option == "name" || option == "latitude" || option == "longitude" || option == "elevation"
    || option == "time_zone" || option == "unit_system" || option == "currency" || option == "country"
    || option == "language" || option == "internal_url" || option == "external_url"
  }

  /** Options of http that take effect at once. */
  predicate TakesEffect(option: string) {
    option == "cors_allowed_origins" || option == "use_x_forwarded_for" || option == "trusted_proxies"
  }

  lemma AddableSections()
    ensures forall k: string :: Addable(k) <==> k in RELOADABLE_SECTIONS
  {
  }

  lemma OptionsReadAtStart()
    ensures forall k: string :: ReadAtStart(k) <==> k in CRITICAL_KEYS
  {
  }

  lemma OptionsInEffect()
    ensures forall k: string :: TakesEffect(k) <==> k in RELOADABLE_HTTP_KEYS
  {
  }

  /** Where the two special sections stay, only the others' keys count. */
  lemma OnlyKeysCount(was: Sections, now: Sections, r: Reading)
    requires Plain(was, HOMEASSISTANT) && Plain(was, HTTP)
    requires forall k :: k == HOMEASSISTANT || k == HTTP ==> (k in was <==> k in now) && (k in was ==> now[k] == was[k])
    ensures RestartNeeded(was, now, r) <==> SectionsForceRestart(was, now)
  {
    assert Inner(now, HOMEASSISTANT) == Inner(was, HOMEASSISTANT) && Inner(now, HTTP) == Inner(was, HTTP);
  }

  /** Outside homeassistant and http it counts only which sections there are: contents never ask for a restart, an
      added section does unless it can be added while Home Assistant runs, and a removed one always does. */
  lemma OtherSectionEdited(was: Sections, key: string, node: Option<Node>, r: Reading)
    requires Plain(was, HOMEASSISTANT) && Plain(was, HTTP) && key != "homeassistant" && key != "http"
    ensures var now := if node.Some? then was[key := node.value] else was - {key};
            && (RestartNeeded(was, now, r) <==>
                  || (key in was && node.None?)
                  || (key !in was && node.Some? && !Addable(key)))
  {
    var now := if node.Some? then was[key := node.value] else was - {key};
    OnlyKeysCount(was, now, r);
    AddableSections();
    assert forall k :: k != key ==> (k in now <==> k in was);
    assert key in now <==> node.Some?;
  }

  /** Of the options of homeassistant those read at the start ask for a restart when they change. */
  lemma HomeAssistantEdited(was: Sections, now: Sections, r: Reading)
    requires "homeassistant" in was && Plain(was, HOMEASSISTANT) && Plain(was, HTTP)
    requires "homeassistant" in now && Plain(now, HOMEASSISTANT) && now == was["homeassistant" := now["homeassistant"]]
    ensures RestartNeeded(was, now, r) <==>
            exists k: string :: ReadAtStart(k) && Differ(Inner(was, HOMEASSISTANT), Inner(now, HOMEASSISTANT), k, r)
  {
    assert now.Keys == was.Keys && Inner(now, HTTP) == Inner(was, HTTP);
    OptionsReadAtStart();
  }

  /** Of the options of http all but three do, known or not; the section itself may come and go. */
  lemma HttpEdited(was: Sections, node: Option<Node>, r: Reading)
    requires Plain(was, HOMEASSISTANT) && Plain(was, HTTP) && (node.Some? ==> node.value.Mapping?)
    ensures var now := if node.Some? then was["http" := node.value] else was - {"http"};
            RestartNeeded(was, now, r) <==>
              exists k: string :: !TakesEffect(k) && Differ(Inner(was, HTTP), Inner(now, HTTP), k, r)
  {
    var now := if node.Some? then was["http" := node.value] else was - {"http"};
    assert SameElsewhere(was, now);
    OnlyHttpMatters(was, now, r);
    OptionsInEffect();
  }

  // ---------- What the specification says about the operator's own edits ----------

  lemma AsMapLookup(fields: Fields, key: string)
    ensures key in AsMap(fields) <==> Has(fields, key)
    ensures Has(fields, key) ==> Lookup(fields, key) == Some(AsMap(fields)[key])
  {
    if Has(fields, key) {
      var i := Position(fields, key);
      assert fields[i].key == key;
    }
  }

  /** Sections other than http decode to the same nodes. */
  predicate SameElsewhere(was: Sections, now: Sections) {
    was - {HTTP} == now - {HTTP}
  }

  lemma ProxiesSameElsewhere(root: Fields, exposed: bool, optedOut: bool)
    ensures SameElsewhere(AsMap(root), AsMap(InjectTrustedProxies(root, exposed, optedOut)))
  {
    var after := InjectTrustedProxies(root, exposed, optedOut);
    if after != root {
      InjectOnlySection(root, HTTP, NullOnly, ProxyEdits());
      forall k: string | k != HTTP
        ensures Lookup(after, k) == Lookup(root, k)
      {
        OnlySectionElsewhere(root, after, HTTP, k);
      }
      LookupsDecide(root, after);
    }
  }

  lemma LookupsDecide(root: Fields, after: Fields)
    requires forall k: string :: k != HTTP ==> Lookup(after, k) == Lookup(root, k)
    ensures SameElsewhere(AsMap(root), AsMap(after))
  {
    var was, now := AsMap(root), AsMap(after);
    forall k: string | k != HTTP
      ensures (k in now <==> k in was) && (k in was ==> now[k] == was[k])
    {
      AsMapLookup(root, k);
      AsMapLookup(after, k);
    }
  }

  /** With the same other sections only http can ask for a restart, or a homeassistant section that is no mapping. */
  lemma OnlyHttpMatters(was: Sections, now: Sections, r: Reading)
    requires SameElsewhere(was, now)
    ensures RestartNeeded(was, now, r) <==> !Plain(was, HOMEASSISTANT) || HttpForcesRestart(was, now, r)
    ensures Plain(was, HOMEASSISTANT) <==> Plain(now, HOMEASSISTANT)
  {
    var o, n := was - {HTTP}, now - {HTTP};
    assert forall k :: k != HTTP ==> (k in o <==> k in was) && (k in n <==> k in now);
    assert forall k :: k != HTTP && k in was ==> o[k] == was[k] && n[k] == now[k];
    assert Inner(was, HOMEASSISTANT) == Inner(now, HOMEASSISTANT);
  }

  /** Nothing but reloadable keys of http mappings differs. */
  predicate SameButReloadable(was: Sections, now: Sections) {
    was - RELOADABLE_HTTP_KEYS == now - RELOADABLE_HTTP_KEYS
  }

  lemma ReloadableOnly(was: Sections, now: Sections, r: Reading)
    requires Plain(was, HTTP) && Plain(now, HTTP) && SameButReloadable(Inner(was, HTTP), Inner(now, HTTP))
    ensures !HttpForcesRestart(was, now, r)
  {
    var o, n := Inner(was, HTTP), Inner(now, HTTP);
    forall k | k !in RELOADABLE_HTTP_KEYS
      ensures !Differ(o, n, k, r)
    {
      assert k in o - RELOADABLE_HTTP_KEYS <==> k in o;
      assert k in n - RELOADABLE_HTTP_KEYS <==> k in n;
      assert k in o ==> (o - RELOADABLE_HTTP_KEYS)[k] == o[k];
      assert k in n ==> (n - RELOADABLE_HTTP_KEYS)[k] == n[k];
    }
  }

  lemma SetFieldDecodable(fields: Fields, key: string, node: Node)
    requires Decodable(fields) && DecodableNode(node)
    ensures Decodable(SetField(fields, key, node))
  {
    var after := SetField(fields, key, node);
    forall f | f in after
      ensures DecodableNode(f.node)
    {
      assert f in fields || f == Field(key, node);
    }
  }

  lemma OverrideDecodable(fields: Fields, key: string, node: Node)
    requires Decodable(fields) && DecodableNode(node)
    ensures Decodable(Override(fields, key, node))
  {
    var after := Override(fields, key, node);
    forall f | f in after
      ensures DecodableNode(f.node)
    {
      assert f in fields || f == Field(key, node);
    }
  }

  /** What the operator writes can be read when the user's configuration can. */
  lemma ProxiesDecodable(root: Fields, exposed: bool, optedOut: bool)
    requires Decodable(root)
    ensures Decodable(InjectTrustedProxies(root, exposed, optedOut))
  {
    var section := Editable(root, HTTP, NullOnly);
    if section.Some? {
      var fields := section.value.fields;
      ProxyFields(fields);
      if Has(root, HTTP) {
        assert root[Position(root, HTTP)] in root;
      }
      var forwarded := Scalar("!!bool", "true");
      SetFieldDecodable(fields, "use_x_forwarded_for", forwarded);
      SetFieldDecodable(SetField(fields, "use_x_forwarded_for", forwarded), "trusted_proxies",
                        StringList(PRIVATE_RANGES));
      OverrideDecodable(root, HTTP, Mapping(section.value.tag, Edited(fields, ProxyEdits())));
    }
  }

  /** Adding or taking away the trusted-proxy defaults needs no restart, unless the configuration could not be read
      before, or homeassistant or http was there and not a mapping. Then every change is answered with a restart. */
  lemma ProxyDefaultsNeedNoRestart(root: Fields, exposed: bool, optedOut: bool, r: Reading)
    ensures var after, was := InjectTrustedProxies(root, exposed, optedOut), AsMap(root);
            var restart := !Decodable(root) || !Plain(was, HOMEASSISTANT) || !Plain(was, HTTP);
            (MustRestart(root, after, r) <==> restart) && (MustRestart(after, root, r) <==> restart)
  {
    var after := InjectTrustedProxies(root, exposed, optedOut);
    var was, now := AsMap(root), AsMap(after);
    if Decodable(root) {
      ProxiesDecodable(root, exposed, optedOut);
    }
    ProxiesSameElsewhere(root, exposed, optedOut);
    OnlyHttpMatters(was, now, r);
    OnlyHttpMatters(now, was, r);
    if Plain(was, HTTP) {
      HttpInnerSame(root, exposed, optedOut);
      ReloadableOnly(was, now, r);
      ReloadableOnly(now, was, r);
    }
  }

  lemma EditedMapSame(before: Fields)
    ensures SameButReloadable(AsMap(before), AsMap(Edited(before, ProxyEdits())))
  {
    var fields := Edited(before, ProxyEdits());
    assert ProxyEdits()[0].key in RELOADABLE_HTTP_KEYS && ProxyEdits()[1].key in RELOADABLE_HTTP_KEYS;
    forall k: string
      ensures k in AsMap(fields) - RELOADABLE_HTTP_KEYS <==> k in AsMap(before) - RELOADABLE_HTTP_KEYS
      ensures k in AsMap(before) - RELOADABLE_HTTP_KEYS ==> k in AsMap(fields) && AsMap(fields)[k] == AsMap(before)[k]
    {
      AsMapLookup(fields, k);
      AsMapLookup(before, k);
      if k !in RELOADABLE_HTTP_KEYS {
        EditedElsewhere(before, ProxyEdits(), k);
      }
    }
  }

  /** The defaults only add reloadable keys to http. */
  lemma HttpInnerSame(root: Fields, exposed: bool, optedOut: bool)
    requires Plain(AsMap(root), HTTP)
    ensures var was, now := AsMap(root), AsMap(InjectTrustedProxies(root, exposed, optedOut));
            Plain(now, HTTP) && SameButReloadable(Inner(was, HTTP), Inner(now, HTTP))
  {
    var after := InjectTrustedProxies(root, exposed, optedOut);
    if after != root {
      AsMapLookup(root, HTTP);
      var before: Fields := if Has(root, HTTP) then Lookup(root, HTTP).value.fields else [];
      PositionUnique(after, HTTP, if Has(root, HTTP) then Position(root, HTTP) else |root|);
      AsMapLookup(after, HTTP);
      assert AsMap([]) == map[];
      EditedMapSame(before);
    }
  }
}
