/** configuration.yaml as ordered YAML nodes, and the edits that the operator makes to it. */
module YamlConfig {
  import opened Wrappers

  datatype Node =
    | Scalar(tag: string, text: string)
    | Sequence(tag: string, items: seq<Node>)
    | Mapping(tag: string, fields: Fields)

  datatype Field = Field(key: string, node: Node)

  type Fields = seq<Field>

  const NULL_TAG := "!!null"

  // ---------- Looking up ----------

  predicate Has(fields: Fields, key: string) { exists i :: 0 <= i < |fields| && fields[i].key == key }

  /** The position of the first field with this key. */
  function Position(fields: Fields, key: string): (i: nat)
    requires Has(fields, key)
    ensures i < |fields| && fields[i].key == key && forall j :: 0 <= j < i ==> fields[j].key != key
  {
    if fields[0].key == key then 0 else 1 + Position(fields[1..], key)
  }

  function Lookup(fields: Fields, key: string): Option<Node> {
    if Has(fields, key) then Some(fields[Position(fields, key)].node) else None
  }

  predicate Distinct(fields: Fields) {
    forall i, j :: 0 <= i < j < |fields| ==> fields[i].key != fields[j].key
  }

  // ---------- Edits of one mapping ----------

  function SetField(fields: Fields, key: string, node: Node): Fields {
    if Has(fields, key) then fields else fields + [Field(key, node)]
  }

  function Override(fields: Fields, key: string, node: Node): Fields {
    if Has(fields, key) then fields[Position(fields, key) := Field(key, node)] else fields + [Field(key, node)]
  }

  /** A mapping node that is edited in place. */
  class MappingNode {
    var fields: Fields

    constructor (fields: Fields)
      ensures this.fields == fields
    {
      this.fields := fields;
    }

    /** The scan shared by the lookups and setters below. */
    method Find(key: string) returns (at: Option<nat>)
      ensures at.Some? <==> Has(fields, key)
      ensures at.Some? ==> at.value == Position(fields, key)
    {
      var i := 0;
      while i < |fields|
        invariant 0 <= i <= |fields| && forall j :: 0 <= j < i ==> fields[j].key != key
      {
        if fields[i].key == key {
          return Some(i);
        }
        i := i + 1;
      }
      return None;
    }

    method NodeMappingValue(key: string) returns (node: Option<Node>)
      ensures node == Lookup(fields, key)
    {
      var at := Find(key);
      node := if at.Some? then Some(fields[at.value].node) else None;
    }

    method SetNodeField(key: string, node: Node)
      modifies this
      ensures fields == SetField(old(fields), key, node)
    {
      var existing := NodeMappingValue(key);
      if existing.Some? {
        return;
      }
      fields := fields + [Field(key, node)];
    }

    method OverrideNodeField(key: string, node: Node)
      modifies this
      ensures fields == Override(old(fields), key, node)
    {
      var at := Find(key);
      if at.Some? {
        fields := fields[at.value := Field(key, node)];
      } else {
        fields := fields + [Field(key, node)];
      }
    }

    method SetSequenceFieldIfAbsent(key: string, values: seq<string>)
      modifies this
      ensures fields == SetField(old(fields), key, StringList(values))
    {
      var existing := NodeMappingValue(key);
      if existing.Some? {
        return;
      }
      var items: seq<Node> := [];
      var i := 0;
      while i < |values|
        invariant 0 <= i <= |values| && |items| == i
        invariant fields == old(fields) && forall j :: 0 <= j < i ==> items[j] == Scalar("!!str", values[j])
      {
        items := items + [Scalar("!!str", values[i])];
        i := i + 1;
      }
      assert Sequence("", items) == StringList(values);
      fields := fields + [Field(key, Sequence("", items))];
    }
  }

  function StringList(values: seq<string>): Node {
    Sequence("", seq(|values|, i requires 0 <= i < |values| => Scalar("!!str", values[i])))
  }

  // ---------- Edits of a top-level section ----------

  /** Which sections an injection may turn into a mapping: a value that is just empty, or any empty scalar. */
  datatype Upgrade = NullOnly | AnyEmpty

  predicate Upgradable(node: Node, u: Upgrade) {
    node.Scalar? && node.text == "" && (u.AnyEmpty? || node.tag == "" || node.tag == NULL_TAG)
  }

  /** The fields that an injection starts from, or nothing when it must leave the section alone. */
  function Editable(root: Fields, name: string, u: Upgrade): Option<Node> {
    match Lookup(root, name)
    case None => Some(Mapping("", []))
    case Some(node) => if Upgradable(node, u) then Some(Mapping("", [])) else if node.Mapping? then Some(node) else None
  }

  datatype Edit = Edit(key: string, node: Node, override: bool)

  function Edited(fields: Fields, edits: seq<Edit>): Fields {
    if edits == [] then fields
    else
      var e := edits[|edits| - 1];
      var before := Edited(fields, edits[..|edits| - 1]);
      if e.override then Override(before, e.key, e.node) else SetField(before, e.key, e.node)
  }

  function Inject(root: Fields, name: string, u: Upgrade, edits: seq<Edit>): Fields {
    var section := Editable(root, name, u);
    if section.None? then root
    else Override(root, name, Mapping(section.value.tag, Edited(section.value.fields, edits)))
  }

  /** Finds or creates the section, applies the edits to it in place, and stores it back. */
  method InjectSection(root: MappingNode, name: string, u: Upgrade, edits: seq<Edit>) returns (edited: bool)
    modifies root
    ensures root.fields == Inject(old(root.fields), name, u, edits)
    ensures edited <==> Editable(old(root.fields), name, u).Some?
  {
    var existing := root.NodeMappingValue(name);
    var tag, fields: Fields := "", [];
    if existing.Some? && !Upgradable(existing.value, u) {
      if !existing.value.Mapping? {
        return false;
      }
      tag, fields := existing.value.tag, existing.value.fields;
    }
    var section := new MappingNode(fields);
    var i := 0;
    while i < |edits|
      invariant 0 <= i <= |edits| && section.fields == Edited(fields, edits[..i]) && root.fields == old(root.fields)
    {
      assert edits[..i + 1][..i] == edits[..i];
      if edits[i].override {
        section.OverrideNodeField(edits[i].key, edits[i].node);
      } else {
        section.SetNodeField(edits[i].key, edits[i].node);
      }
      i := i + 1;
    }
    assert edits[..i] == edits;
    root.OverrideNodeField(name, Mapping(tag, section.fields));
    return true;
  }

  // ---------- The injections ----------

  const HOMEASSISTANT := "homeassistant"
  const RECORDER := "recorder"
  const HTTP := "http"
  const PRIVATE_RANGES := ["10.0.0.0/8", "172.16.0.0/12", "192.168.0.0/16"]

  /** Location fields whose values are set, and valid where they must be numbers, in the order they are written. */
  datatype Location = Location(
    latitude: Option<string>, longitude: Option<string>, elevation: Option<string>, unitSystem: Option<string>,
    timeZone: Option<string>, name: Option<string>, currency: Option<string>, country: Option<string>)

  datatype Default = Default(key: string, tag: string, value: Option<string>)

  function LocationDefaults(l: Location): seq<Default> {
    [Default("latitude", "!!float", l.latitude), Default("longitude", "!!float", l.longitude),
     Default("elevation", "!!int", l.elevation), Default("unit_system", "!!str", l.unitSystem),
     Default("time_zone", "!!str", l.timeZone), Default("name", "!!str", l.name),
     Default("currency", "!!str", l.currency), Default("country", "!!str", l.country)]
  }

  /** One adding edit for every default that has a value. */
  function DefaultEdits(defaults: seq<Default>): seq<Edit> {
    if defaults == [] then []
    else
      var d := defaults[0];
      (if d.value.Some? then [Edit(d.key, Scalar(d.tag, d.value.value), false)] else []) + DefaultEdits(defaults[1..])
  }

  function LocationEdits(l: Location): seq<Edit> { DefaultEdits(LocationDefaults(l)) }

  datatype Recorder = Recorder(enabled: bool, dbUrl: string, useInclude: bool, purgeKeepDays: Option<string>)

  predicate ShouldInjectRecorder(r: Recorder) { r.enabled && (r.dbUrl != "" || r.purgeKeepDays.Some?) }

  function RecorderEdits(r: Recorder): seq<Edit> {
    (if r.dbUrl == "" then []
     else [Edit("db_url", if r.useInclude then Scalar("!include", "recorder_db_url.yaml") else Scalar("!!str", r.dbUrl),
                true)])
    + (if r.purgeKeepDays.Some? then [Edit("purge_keep_days", Scalar("!!int", r.purgeKeepDays.value), true)] else [])
  }

  function ProxyEdits(): seq<Edit> {
    [Edit("use_x_forwarded_for", Scalar("!!bool", "true"), false),
     Edit("trusted_proxies", StringList(PRIVATE_RANGES), false)]
  }

  function InjectLocation(root: Fields, l: Location): Fields { Inject(root, HOMEASSISTANT, AnyEmpty, LocationEdits(l)) }

  function InjectRecorder(root: Fields, r: Recorder): Fields {
    if ShouldInjectRecorder(r) then Inject(root, RECORDER, NullOnly, RecorderEdits(r)) else root
  }

  function InjectTrustedProxies(root: Fields, exposed: bool, optedOut: bool): Fields {
    if exposed && !optedOut then Inject(root, HTTP, NullOnly, ProxyEdits()) else root
  }

  datatype ProxyOutcome = NotExposed | OptedOut | UserManaged | AppliedDefaults

  lemma ProxyFields(fields: Fields)
    ensures Edited(fields, ProxyEdits())
         == SetField(SetField(fields, "use_x_forwarded_for", Scalar("!!bool", "true")),
                     "trusted_proxies", StringList(PRIVATE_RANGES))
  {
    var edits := ProxyEdits();
    assert edits[..1][..0] == [] && edits[..1][0] == edits[0] && edits[..|edits| - 1] == edits[..1];
    assert Edited(fields, edits[..1]) == SetField(fields, "use_x_forwarded_for", Scalar("!!bool", "true"));
  }

  /** The injection changes the configuration exactly when it may edit the section and one of its keys is missing. */
  lemma ProxiesChange(root: Fields)
    ensures Inject(root, HTTP, NullOnly, ProxyEdits()) != root <==>
            var section := Editable(root, HTTP, NullOnly);
            section.Some? && !(Has(section.value.fields, "use_x_forwarded_for")
                               && Has(section.value.fields, "trusted_proxies"))
  {
    var section := Editable(root, HTTP, NullOnly);
    if section.Some? {
      var fields := section.value.fields;
      ProxyFields(fields);
      if Has(root, HTTP) {
        var after := Inject(root, HTTP, NullOnly, ProxyEdits());
        assert after[Position(root, HTTP)].node == Mapping(section.value.tag, Edited(fields, ProxyEdits()));
      }
    }
  }

  /** injectTrustedProxies on the root mapping, and what it reports. */
  method TrustedProxies(root: MappingNode, exposed: bool, optedOut: bool) returns (o: ProxyOutcome)
    modifies root
    ensures root.fields == InjectTrustedProxies(old(root.fields), exposed, optedOut)
    ensures o == NotExposed <==> !exposed
    ensures o == OptedOut <==> exposed && optedOut
    ensures o == AppliedDefaults <==> root.fields != old(root.fields)
  {
    ProxiesChange(root.fields);
    if !exposed {
      return NotExposed;
    }
    if optedOut {
      return OptedOut;
    }
    var http := root.NodeMappingValue(HTTP);
    var hadXFF, hadProxies := false, false;
    if http.Some? && http.value.Mapping? {
      var section := new MappingNode(http.value.fields);
      var xff := section.NodeMappingValue("use_x_forwarded_for");
      var proxies := section.NodeMappingValue("trusted_proxies");
      hadXFF, hadProxies := xff.Some?, proxies.Some?;
    }
    var edited := InjectSection(root, HTTP, NullOnly, ProxyEdits());
    o := if !edited || (hadXFF && hadProxies) then UserManaged else AppliedDefaults;
  }

  /** stripHTTPSection: without the first http field. */
  function Strip(root: Fields): Fields {
    if Has(root, HTTP) then root[..Position(root, HTTP)] + root[Position(root, HTTP) + 1..] else root
  }
}
