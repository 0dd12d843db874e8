/** Home Assistant's http configuration: the three-layer merge of the desired state, and how two configurations are
    compared. */
module HttpConfig {
  import opened Networks

  /** A decoded YAML or JSON value. YAML gives whole numbers as integers, JSON gives every number as a float. A number
      that is not whole is given by its shortest text, a nested mapping by its fields in key order. */
  datatype Value =
    | Null
    | Bool(b: bool)
    | Text(s: string)
    | Int(n: int)
    | Float(n: int)
    | Fraction(text: string)
    | List(items: seq<Value>)
    | Mapping(fields: seq<Field>)

  datatype Field = Field(key: string, value: Value)

  type Config = map<string, Value>

  const TRUSTED_PROXIES := "trusted_proxies"

  /** Fields that Home Assistant attaches to a stored configuration. */
  const METADATA := {"created_at", "error", "error_message", "base_url"}

  /** The options that the operator manages. */
  const KNOWN_KEYS := {
    "server_host", "server_port", "ssl_certificate", "ssl_peer_certificate", "ssl_key", "cors_allowed_origins",
    "use_x_forwarded_for", TRUSTED_PROXIES, "login_attempts_threshold", "ip_ban_enabled", "ssl_profile",
    "use_x_frame_options"}

  // ---------- Trusted proxies ----------

  datatype Written = Block(network: Network) | Bare(address: Address) | Words

  /** How addresses and networks are read and printed. */
  datatype Notation = Notation(parse: string -> Written, text: Network -> string)

  /** Printing a canonical network and reading it gives it back. */
  ghost predicate Faithful(n: Notation) {
    && (forall s :: n.parse(s).Block? ==> ValidNetwork(n.parse(s).network))
    && (forall s :: n.parse(s).Bare? ==> IsAddress(n.parse(s).address))
    && forall net :: ValidNetwork(net) && Canonical(net) == net ==> n.parse(n.text(net)) == Block(net)
  }

  function CanonicalText(n: Notation, s: string): string {
    match n.parse(s)
    case Block(network) => if ValidNetwork(network) then n.text(Canonical(network)) else s
    case Bare(address) => n.text(Single(address))
    case Words => s
  }

  lemma CanonicalTextIdempotent(n: Notation, s: string)
    requires Faithful(n)
    ensures CanonicalText(n, CanonicalText(n, s)) == CanonicalText(n, s)
  {
    match n.parse(s)
    case Block(network) => CanonicalIdempotent(network);
    case Bare(address) => SingleIsCanonical(address);
    case Words =>
  }

  /** The network that a readable entry stands for; a bare address stands for itself alone. */
  ghost function Meant(n: Notation, s: string): (r: Network)
    requires Faithful(n) && !n.parse(s).Words?
    ensures ValidNetwork(r)
  {
    match n.parse(s)
    case Block(network) => network
    case Bare(address) => Network(address, |address|)
  }

  lemma CanonicalTextReads(n: Notation, s: string)
    requires Faithful(n) && !n.parse(s).Words?
    ensures n.parse(CanonicalText(n, s)) == Block(Canonical(Meant(n, s)))
  {
    CanonicalIdempotent(Meant(n, s));
    match n.parse(s)
    case Block(network) =>
    case Bare(address) => SingleIsCanonical(address);
  }

  /** A readable entry is rewritten to a block with the same members, and two of them to the same text exactly when
      they stand for the same members. Any other entry stays. */
  lemma CanonicalTextMeaning(n: Notation, s: string, t: string)
    requires Faithful(n)
    ensures n.parse(s).Words? ==> CanonicalText(n, s) == s
    ensures !n.parse(s).Words? ==>
              var written := n.parse(CanonicalText(n, s));
              written.Block? && SameMembers(written.network, Meant(n, s))
    ensures !n.parse(s).Words? && !n.parse(t).Words? ==>
              (CanonicalText(n, s) == CanonicalText(n, t) <==> SameMembers(Meant(n, s), Meant(n, t)))
  {
    if !n.parse(s).Words? {
      CanonicalTextReads(n, s);
      CanonicalIdempotent(Meant(n, s));
      CanonicalIffSameMembers(Canonical(Meant(n, s)), Meant(n, s));
      if !n.parse(t).Words? {
        CanonicalTextReads(n, t);
        CanonicalIffSameMembers(Meant(n, s), Meant(n, t));
        TextOfMeant(n, s);
        TextOfMeant(n, t);
      }
    }
  }

  lemma TextOfMeant(n: Notation, s: string)
    requires Faithful(n) && !n.parse(s).Words?
    ensures CanonicalText(n, s) == n.text(Canonical(Meant(n, s)))
  {
    match n.parse(s)
    case Block(network) =>
    case Bare(address) => SingleIsCanonical(address);
  }

  predicate AllText(items: seq<Value>) { forall v <- items :: v.Text? }

  function CanonicalItems(n: Notation, items: seq<Value>): (r: seq<Value>)
    requires AllText(items)
    ensures |r| == |items| && forall i :: 0 <= i < |r| ==> r[i] == Text(CanonicalText(n, items[i].s))
  {
    seq(|items|, i requires 0 <= i < |items| => Text(CanonicalText(n, items[i].s)))
  }

  function CanonicalValue(n: Notation, v: Value): Value {
    if v.List? && AllText(v.items) then List(CanonicalItems(n, v.items)) else v
  }

  function Canon(n: Notation, d: Config): Config {
    if TRUSTED_PROXIES in d then d[TRUSTED_PROXIES := CanonicalValue(n, d[TRUSTED_PROXIES])] else d
  }

  /** canonicalizeTrustedProxies: entry by entry, keeping the order; anything but a list of strings stays. */
  method CanonicalizeTrustedProxies(n: Notation, d: Config) returns (r: Config)
    ensures r == Canon(n, d)
  {
    r := d;
    if TRUSTED_PROXIES !in d || !d[TRUSTED_PROXIES].List? {
      return;
    }
    var raw := d[TRUSTED_PROXIES].items;
    var out := [];
    var i := 0;
    while i < |raw|
      invariant 0 <= i <= |raw| && |out| == i && AllText(raw[..i])
      invariant forall j :: 0 <= j < i ==> out[j] == Text(CanonicalText(n, raw[j].s))
    {
      if !raw[i].Text? {
        assert raw[i] in raw;
        return;
      }
      out := out + [Text(CanonicalText(n, raw[i].s))];
      assert raw[..i + 1] == raw[..i] + [raw[i]];
      i := i + 1;
    }
    assert raw[..i] == raw && out == CanonicalItems(n, raw);
    r := r[TRUSTED_PROXIES := List(out)];
  }

  lemma CanonicalValueIdempotent(n: Notation, v: Value)
    requires Faithful(n)
    ensures CanonicalValue(n, CanonicalValue(n, v)) == CanonicalValue(n, v)
  {
    if v.List? && AllText(v.items) {
      var once := CanonicalItems(n, v.items);
      forall i | 0 <= i < |once|
        ensures CanonicalItems(n, once)[i] == once[i]
      {
        CanonicalTextIdempotent(n, v.items[i].s);
      }
      assert CanonicalItems(n, once) == once;
    }
  }

  lemma CanonIdempotent(n: Notation, d: Config)
    requires Faithful(n)
    ensures Canon(n, Canon(n, d)) == Canon(n, d)
  {
    if TRUSTED_PROXIES in d {
      CanonicalValueIdempotent(n, d[TRUSTED_PROXIES]);
    }
  }

  /** A list of strings keeps its length, and each readable entry becomes the block of its network. */
  lemma ProxiesRewritten(n: Notation, d: Config)
    requires Faithful(n) && "trusted_proxies" in d
    requires d["trusted_proxies"].List? && AllText(d["trusted_proxies"].items)
    ensures var was, now := d["trusted_proxies"].items, Canon(n, d)["trusted_proxies"];
            && now.List? && |now.items| == |was|
            && forall i :: 0 <= i < |was| ==>
                 && now.items[i].Text?
                 && if n.parse(was[i].s).Words? then now.items[i] == was[i]
                    else n.parse(now.items[i].s) == Block(Canonical(Meant(n, was[i].s)))
  {
    var was := d["trusted_proxies"].items;
    forall i | 0 <= i < |was| && !n.parse(was[i].s).Words?
      ensures n.parse(CanonicalText(n, was[i].s)) == Block(Canonical(Meant(n, was[i].s)))
    {
      CanonicalTextReads(n, was[i].s);
    }
  }

  // ---------- The merge ----------

  function Stripped(d: Config): Config { d - METADATA }

  method StrippedMetadata(d: Config) returns (r: Config)
    ensures r == Stripped(d)
  {
    r := d;
    var keys := ["created_at", "error", "error_message", "base_url"];
    var i := 0;
    while i < |keys|
      invariant 0 <= i <= |keys|
      invariant r == d - (set j | 0 <= j < i :: keys[j])
    {
      r := r - {keys[i]};
      i := i + 1;
    }
    assert METADATA == (set j | 0 <= j < |keys| :: keys[j]) by {
      assert keys[0] in METADATA && keys[1] in METADATA && keys[2] in METADATA && keys[3] in METADATA;
    }
  }

  /** The options of a newer Home Assistant that the operator does not manage. */
  function Unknown(d: Config): Config { d - METADATA - KNOWN_KEYS }

  /** Defaults, then unmanaged options of the stable configuration, then the resource's section. */
  function Merged(default: Config, stable: Config, section: Config): Config {
    Stripped(default) + Unknown(stable) + section
  }

  /** Canonicalisation works key by key. */
  function At(n: Notation, k: string, v: Value): Value { if k == TRUSTED_PROXIES then CanonicalValue(n, v) else v }

  predicate Has(d: Config, k: string, v: Value) { k in d && d[k] == v }

  /** The three layers, key by key: the section's value, else that of an unmanaged option of the stable configuration,
      else Home Assistant's default, and no other key. */
  ghost predicate Layered(n: Notation, default: Config, stable: Config, section: Config, r: Config) {
    forall k: string ::
      if k in section then Has(r, k, At(n, k, section[k]))
      else if k in stable && k !in METADATA && k !in KNOWN_KEYS then Has(r, k, stable[k])
      else if k in default && k !in METADATA then Has(r, k, At(n, k, default[k]))
      else k !in r
  }

  lemma DesiredIsLayered(n: Notation, default: Config, stable: Config, section: Config)
    ensures Layered(n, default, stable, section, Desired(n, default, stable, section))
  {
    var m, r := Merged(default, stable, section), Desired(n, default, stable, section);
    assert r.Keys == m.Keys && forall k <- m :: r[k] == At(n, k, m[k]);
    assert TRUSTED_PROXIES in KNOWN_KEYS;
  }

  /** The layers determine the configuration. */
  lemma LayeredOnce(n: Notation, default: Config, stable: Config, section: Config, one: Config, two: Config)
    requires Layered(n, default, stable, section, one) && Layered(n, default, stable, section, two)
    ensures one == two
  {
    forall k: string
      ensures k in one <==> k in two
      ensures k in one && k in two ==> one[k] == two[k]
    {
      var managed := k in METADATA || k in KNOWN_KEYS;
      assert k in section || (k in stable && !managed) || (k in default && k !in METADATA) || k !in one;
    }
  }

  function Desired(n: Notation, default: Config, stable: Config, section: Config): Config {
    Canon(n, Merged(default, stable, section))
  }

  /** Copies one layer over another, key by key in any order. */
  method Overlay(base: Config, layer: Config, skip: set<string>) returns (r: Config)
    ensures r == base + (layer - skip)
  {
    r := base;
    var rest := layer.Keys;
    while rest != {}
      invariant rest <= layer.Keys
      invariant r == base + (layer - skip - rest)
      decreases rest
    {
      var k :| k in rest;
      rest := rest - {k};
      if k !in skip {
        r := r[k := layer[k]];
      }
    }
  }

  method DesiredHTTPConfig(n: Notation, default: Config, stable: Config, section: Config) returns (r: Config)
    ensures Layered(n, default, stable, section, r)
    ensures r == Desired(n, default, stable, section)
  {
    var base := StrippedMetadata(default);
    r := Overlay(map[], base, {});
    assert r == base;
    var current := StrippedMetadata(stable);
    r := Overlay(r, current, KNOWN_KEYS);
    assert r == base + Unknown(stable);
    r := Overlay(r, section, {});
    assert section - {} == section;
    r := CanonicalizeTrustedProxies(n, r);
    DesiredIsLayered(n, default, stable, section);
  }

  // ---------- Comparison ----------

  function Digit(k: nat): char
    requires k < 10
  {
    ['0', '1', '2', '3', '4', '5', '6', '7', '8', '9'][k]
  }

  function Digits(k: nat): (r: string)
    ensures r != "" && 'e' !in r
  {
    if k < 10 then [Digit(k)] else Digits(k / 10) + [Digit(k % 10)]
  }

  function Decimal(k: int): string { if k < 0 then "-" + Digits(-k) else Digits(k) }

  function TrimZeros(s: string): (r: string)
    ensures r <= s && (s != "" ==> r != "")
  {
    if |s| > 1 && s[|s| - 1] == '0' then TrimZeros(s[..|s| - 1]) else s
  }

  const FLOAT_LIMIT := 1000000

  function FloatFront(negative: bool, mantissa: string): string
    requires mantissa != ""
  {
    (if negative then "-" else "") + mantissa[..1] + (if |mantissa| > 1 then "." + mantissa[1..] else "")
  }

  function FloatBack(exponent: nat): string { (if exponent < 10 then "0" else "") + Digits(exponent) }

  /** A whole float prints in decimal below a million and in scientific form from there on. */
  function FloatText(k: int): string {
    if -FLOAT_LIMIT < k < FLOAT_LIMIT then Decimal(k)
    else
      var digits := Digits(if k < 0 then -k else k);
      FloatFront(k < 0, TrimZeros(digits)) + "e+" + FloatBack(|digits| - 1)
  }

  /** How a value prints; configurations are compared by this text. */
  function Render(v: Value): string {
    match v
    case Null => "<nil>"
    case Bool(b) => if b then "true" else "false"
    case Text(s) => s
    case Int(k) => Decimal(k)
    case Float(k) => FloatText(k)
    case Fraction(text) => text
    case List(items) => "[" + RenderAll(items) + "]"
    case Mapping(fields) => "map[" + RenderFields(fields) + "]"
  }

  function RenderAll(items: seq<Value>): string {
    if items == [] then ""
    else if |items| == 1 then Render(items[0])
    else Render(items[0]) + " " + RenderAll(items[1..])
  }

  function RenderFields(fields: seq<Field>): string {
    if fields == [] then ""
    else if |fields| == 1 then fields[0].key + ":" + Render(fields[0].value)
    else fields[0].key + ":" + Render(fields[0].value) + " " + RenderFields(fields[1..])
  }

  predicate SameText(a: Config, b: Config) {
    a.Keys == b.Keys && forall k <- a :: k in b && Render(a[k]) == Render(b[k])
  }

  /** httpConfigEqual: metadata aside and with canonical proxies, the same keys with the same text. */
  predicate Equal(n: Notation, a: Config, b: Config) {
    SameText(Canon(n, Stripped(a)), Canon(n, Stripped(b)))
  }

  /** Another way to write the same proxies makes no difference. */
  lemma ProxyWritingIgnored(n: Notation, d: Config, a: seq<Value>, b: seq<Value>)
    requires Faithful(n) && |a| == |b| && AllText(a) && AllText(b)
    requires forall i :: 0 <= i < |a| ==>
               || a[i] == b[i]
               || (&& !n.parse(a[i].s).Words? && !n.parse(b[i].s).Words?
                   && SameMembers(Meant(n, a[i].s), Meant(n, b[i].s)))
    ensures Equal(n, d["trusted_proxies" := List(a)], d["trusted_proxies" := List(b)])
  {
    forall i | 0 <= i < |a|
      ensures CanonicalItems(n, a)[i] == CanonicalItems(n, b)[i]
    {
      CanonicalTextMeaning(n, a[i].s, b[i].s);
    }
    assert CanonicalItems(n, a) == CanonicalItems(n, b);
    KnownIsNoMetadata();
    assert "trusted_proxies" in KNOWN_KEYS;
    var one, two := Stripped(d["trusted_proxies" := List(a)]), Stripped(d["trusted_proxies" := List(b)]);
    assert Canon(n, one) == Canon(n, two);
  }

  /** No managed option is metadata. */
  lemma KnownIsNoMetadata()
    ensures KNOWN_KEYS !! METADATA
  {
    assert "created_at" !in KNOWN_KEYS;
    assert "error" !in KNOWN_KEYS;
    assert "error_message" !in KNOWN_KEYS;
    assert "base_url" !in KNOWN_KEYS;
  }

  /** Equality of texts is not equality of configurations. */
  lemma DifferentConfigsCompareEqual(n: Notation)
    ensures var one, two := map["cors_allowed_origins" := List([Text("a b")])],
                            map["cors_allowed_origins" := List([Text("a"), Text("b")])];
            one != two && Equal(n, one, two)
  {
    var one, two: Config := map["cors_allowed_origins" := List([Text("a b")])],
                            map["cors_allowed_origins" := List([Text("a"), Text("b")])];
    assert one["cors_allowed_origins"] != two["cors_allowed_origins"];
    assert RenderAll([Text("a"), Text("b")][1..]) == "b";
    assert "a" + " " + "b" == "a b";
  }

  // ---------- What Home Assistant stores ----------

  /** A value after a round trip through JSON. */
  function Decoded(v: Value): Value {
    match v
    case Int(k) => Float(k)
    case List(items) => List(DecodedAll(items))
    case Mapping(fields) => Mapping(DecodedFields(fields))
    case _ => v
  }

  function DecodedFields(fields: seq<Field>): (r: seq<Field>)
    ensures |r| == |fields|
  {
    if fields == [] then []
    else [Field(fields[0].key, Decoded(fields[0].value))] + DecodedFields(fields[1..])
  }

  function DecodedAll(items: seq<Value>): (r: seq<Value>)
    ensures |r| == |items| && forall i :: 0 <= i < |r| ==> r[i] == Decoded(items[i])
  {
    if items == [] then [] else [Decoded(items[0])] + DecodedAll(items[1..])
  }

  function DecodedConfig(d: Config): Config { map k | k in d :: Decoded(d[k]) }

  /** The meaningful part of a configuration that Home Assistant accepted. */
  function Accepted(n: Notation, sent: Config): Config { Canon(n, DecodedConfig(Stripped(sent))) }

  /** No integer prints differently once Home Assistant has stored it. */
  predicate Plain(v: Value) {
    match v
    case Int(k) => -FLOAT_LIMIT < k < FLOAT_LIMIT
    case List(items) => PlainAll(items)
    case Mapping(fields) => PlainFields(fields)
    case _ => true
  }

  predicate PlainFields(fields: seq<Field>) {
    fields == [] || (Plain(fields[0].value) && PlainFields(fields[1..]))
  }

  predicate PlainAll(items: seq<Value>) { items == [] || (Plain(items[0]) && PlainAll(items[1..])) }

  // ---------- Which values keep their text ----------

  /** Number of e's, which tells scientific form from decimal form. */
  function Es(s: string): nat { if s == "" then 0 else (if s[0] == 'e' then 1 else 0) + Es(s[1..]) }

  lemma {:induction false} EsConcat(a: string, b: string)
    ensures Es(a + b) == Es(a) + Es(b)
  {
    if a == "" {
      assert a + b == b;
    } else {
      EsConcat(a[1..], b);
      assert (a + b)[1..] == a[1..] + b;
    }
  }

  lemma EsAround(before: string, s: string, after: string)
    ensures Es(before + s + after) == Es(before) + Es(s) + Es(after)
  {
    EsConcat(before + s, after);
    EsConcat(before, s);
  }

  lemma {:induction false} NoEs(s: string)
    requires 'e' !in s
    ensures Es(s) == 0
  {
    if s != "" {
      NoEs(s[1..]);
    }
  }

  lemma DecimalHasNoE(k: int)
    ensures 'e' !in Decimal(k)
  {
  }

  lemma ScientificHasE(k: int)
    requires !(-FLOAT_LIMIT < k < FLOAT_LIMIT)
    ensures Es(FloatText(k)) >= 1
  {
    var digits := Digits(if k < 0 then -k else k);
    EsSomewhere(FloatFront(k < 0, TrimZeros(digits)), FloatBack(|digits| - 1));
  }

  lemma EsSomewhere(front: string, back: string)
    ensures Es(front + "e+" + back) >= 1
  {
    EsConcat(front + "e+", back);
    EsConcat(front, "e+");
    assert Es("e+") == 1 + Es("e+"[1..]);
  }

  lemma {:induction false} RenderDecoded(v: Value)
    ensures Es(Render(Decoded(v))) >= Es(Render(v))
    ensures Plain(v) ==> Render(Decoded(v)) == Render(v)
    ensures !Plain(v) ==> Es(Render(Decoded(v))) > Es(Render(v))
  {
    match v
    case Int(k) =>
      DecimalHasNoE(k);
      NoEs(Decimal(k));
      if !Plain(v) {
        ScientificHasE(k);
      }
    case List(items) =>
      RenderDecodedAll(items);
      EsAround("[", RenderAll(items), "]");
      EsAround("[", RenderAll(DecodedAll(items)), "]");
    case Mapping(fields) =>
      RenderDecodedFields(fields);
      EsAround("map[", RenderFields(fields), "]");
      EsAround("map[", RenderFields(DecodedFields(fields)), "]");
    case _ =>
  }

  lemma {:induction false} RenderDecodedAll(items: seq<Value>)
    ensures Es(RenderAll(DecodedAll(items))) >= Es(RenderAll(items))
    ensures PlainAll(items) ==> RenderAll(DecodedAll(items)) == RenderAll(items)
    ensures !PlainAll(items) ==> Es(RenderAll(DecodedAll(items))) > Es(RenderAll(items))
  {
    if items != [] {
      RenderDecoded(items[0]);
      RenderDecodedAll(items[1..]);
      var decoded := DecodedAll(items);
      assert decoded[1..] == DecodedAll(items[1..]);
      if |items| > 1 {
        EsAround(Render(items[0]), " ", RenderAll(items[1..]));
        EsAround(Render(decoded[0]), " ", RenderAll(decoded[1..]));
      }
    }
  }

  lemma {:induction false} RenderDecodedFields(fields: seq<Field>)
    ensures Es(RenderFields(DecodedFields(fields))) >= Es(RenderFields(fields))
    ensures PlainFields(fields) ==> RenderFields(DecodedFields(fields)) == RenderFields(fields)
    ensures !PlainFields(fields) ==> Es(RenderFields(DecodedFields(fields))) > Es(RenderFields(fields))
  {
    if fields != [] {
      var f := fields[0];
      RenderDecoded(f.value);
      RenderDecodedFields(fields[1..]);
      var decoded := DecodedFields(fields);
      assert decoded[0] == Field(f.key, Decoded(f.value)) && decoded[1..] == DecodedFields(fields[1..]);
      EsAround(f.key, ":", Render(f.value));
      EsAround(f.key, ":", Render(Decoded(f.value)));
      if |fields| > 1 {
        EsAround(f.key + ":" + Render(f.value), " ", RenderFields(fields[1..]));
        EsAround(f.key + ":" + Render(Decoded(f.value)), " ", RenderFields(decoded[1..]));
      }
    }
  }

  /** A value prints the same after Home Assistant stored it exactly when it has no integer of a million or more. */
  lemma DecodedPrintsAlike(v: Value)
    ensures Render(Decoded(v)) == Render(v) <==> Plain(v)
  {
    RenderDecoded(v);
  }
}
