/** Delivery of the http configuration: Home Assistant holds a stable and a pending configuration, a write replaces the
    pending one as a whole, and a pending configuration goes away unless it is promoted. */
module HttpProtocol {
  import opened Wrappers
  import opened HttpConfig
  import opened HttpComparison

  datatype Slots = Slots(default: Config, stable: Config, pending: Option<Config>)

  datatype Move = Quiet | Clear | Promote | Configure(sent: Config)

  function TextAt(d: Config, k: string): string { if k in d && d[k].Text? then d[k].s else "" }

  /** The field is a text that is not empty. */
  predicate Says(d: Config, k: string) { k in d && d[k].Text? && d[k] != Text("") }

  /** The error that Home Assistant recorded on a rejected pending configuration. */
  function PendingError(pending: Option<Config>): (r: string)
    ensures r != "" <==> pending.Some? && (Says(pending.value, "error_message") || Says(pending.value, "error"))
    ensures pending.Some? && Says(pending.value, "error_message") ==> Text(r) == pending.value["error_message"]
  {
    if pending.None? then ""
    else if TextAt(pending.value, "error_message") != "" then TextAt(pending.value, "error_message")
    else TextAt(pending.value, "error")
  }

  predicate InSync(n: Notation, s: Slots, section: Config, other: Config) {
    Equal(n, Desired(n, s.default, s.stable, section), other)
  }

  /** A pending configuration that the operator neither sent nor would send. */
  predicate ForeignPending(n: Notation, s: Slots, section: Config) {
    s.pending.Some? && PendingError(s.pending) == "" && !InSync(n, s, section, s.pending.value)
  }

  /** The one write that a reconcile may issue. */
  function Plan(n: Notation, s: Slots, section: Config): Move {
    if PendingError(s.pending) != "" then Clear
    else if s.pending.Some? then if InSync(n, s, section, s.pending.value) then Promote else Quiet
    else if InSync(n, s, section, s.stable) then Quiet
    else Configure(Desired(n, s.default, s.stable, section))
  }

  /** How Home Assistant answers a write it accepts. It adds metadata of its own to a stored configuration. */
  predicate Answered(n: Notation, s: Slots, move: Move, s': Slots) {
    match move
    case Quiet => s' == s
    case Clear => s' == s.(pending := None)
    case Promote => s.pending.Some? && s' == s.(stable := s.pending.value, pending := None)
    case Configure(sent) =>
      && s'.pending.Some? && s' == s.(pending := s'.pending)
      && Stripped(s'.pending.value) == Accepted(n, sent) && PendingError(s'.pending) == ""
  }

  datatype Path = Undetermined | YamlOnly | Api

  datatype Source = NoSource | FromYaml | FromApi

  datatype Ready = Waiting | ManagedInYaml | Unreadable | Rejected | Applied | Foreign

  class HttpReconciler {
    const notation: Notation

    /** Home Assistant's two slots. */
    var slots: Slots
    /** status.httpConfigSource and the reason of the HTTPConfigReady condition. */
    var source: Source
    var ready: Ready

    constructor (notation: Notation, slots: Slots)
      ensures this.notation == notation && this.slots == slots
    {
      this.notation, this.slots, this.source, this.ready := notation, slots, NoSource, Waiting;
    }

    /** A write to Home Assistant. It may fail with or without effect, and a stored configuration may be one that Home
        Assistant marks as rejected. */
    method Send(move: Move, stored: Config) returns (ok: bool)
      requires move.Promote? ==> slots.pending.Some?
      modifies this`slots
      ensures slots == old(slots) || Performed(old(slots), move, slots)
      ensures ok ==> Performed(old(slots), move, slots)
    {
      var applied: bool;
      ok, applied := *, *;
      if ok || applied {
        match move {
          case Quiet =>
          case Clear => slots := slots.(pending := None);
          case Promote => slots := slots.(stable := slots.pending.value, pending := None);
          case Configure(_) => slots := slots.(pending := Some(stored));
        }
      }
    }

    /** Only the slot that the write is about has changed. */
    static predicate Performed(s: Slots, move: Move, s': Slots) {
      match move
      case Quiet => s' == s
      case Clear => s' == s.(pending := None)
      case Promote => s.pending.Some? && s' == s.(stable := s.pending.value, pending := None)
      case Configure(_) => s'.pending.Some? && s' == s.(pending := s'.pending)
    }

    /** httpConfigEqual. */
    method ConfigEqual(desired: Config, other: Config) returns (equal: bool)
      ensures equal == Equal(notation, desired, other)
    {
      var a := StrippedMetadata(desired);
      var b := StrippedMetadata(other);
      a := CanonicalizeTrustedProxies(notation, a);
      b := CanonicalizeTrustedProxies(notation, b);
      equal := SameText(a, b);
    }

    /** The last step of a configuration reconcile. `stored` is what Home Assistant would make of a new
        configuration. */
    method Reconcile(path: Path, section: Config, readable: bool, stored: Config) returns (move: Move, ok: bool)
      modifies this
      ensures move == if path == Api && readable then Plan(notation, old(slots), section) else Quiet
      ensures slots == old(slots) || Performed(old(slots), move, slots)
      ensures (ok ==> Performed(old(slots), move, slots)) && (move.Quiet? ==> ok)
      ensures ready == Applied <==>
              && path == Api && readable && (move.Promote? ==> ok)
              && (move.Promote? || (move.Quiet? && old(slots).pending.None?))
      ensures ready == Foreign <==> path == Api && readable && ForeignPending(notation, old(slots), section)
      ensures ready == Rejected <==> move.Clear? || (!move.Quiet? && !ok)
      ensures ready == Waiting <==> path == Undetermined || (move.Configure? && ok)
      ensures ready == ManagedInYaml <==> path == YamlOnly
      ensures ready == Unreadable <==> path == Api && !readable
      ensures source == if path.Undetermined? then old(source) else if path.Api? && readable then FromApi else FromYaml
    {
      move, ok := Quiet, true;
      if path == Undetermined {
        ready := Waiting;
        return;
      }
      if path == YamlOnly || !readable {
        source, ready := FromYaml, if path == YamlOnly then ManagedInYaml else Unreadable;
        return;
      }
      source := FromApi;
      var desired := DesiredHTTPConfig(notation, slots.default, slots.stable, section);
      if slots.pending.Some? {
        if PendingError(slots.pending) != "" {
          move := Clear;
          ok := Send(Clear, stored);
          ready := Rejected;
          return;
        }
        var equal := ConfigEqual(desired, slots.pending.value);
        if equal {
          move := Promote;
          ok := Send(Promote, stored);
          ready := if ok then Applied else Rejected;
        } else {
          ready := Foreign;
        }
        return;
      }
      var equal := ConfigEqual(desired, slots.stable);
      if equal {
        ready := Applied;
      } else {
        move := Configure(desired);
        ok := Send(move, stored);
        ready := if ok then Waiting else Rejected;
      }
    }
  }

  // ---------- The merge is a fixpoint ----------

  lemma CanonAt(n: Notation, d: Config)
    ensures Canon(n, d).Keys == d.Keys && forall k <- d :: k in Canon(n, d) && Canon(n, d)[k] == At(n, k, d[k])
  {
  }

  lemma EqualByKey(n: Notation, s: Slots, section: Config, other: Config)
    requires Faithful(n)
    ensures var m, o := Stripped(Merged(s.default, s.stable, section)), Stripped(other);
            InSync(n, s, section, other) <==>
              m.Keys == o.Keys && forall k <- m :: k in o && Render(At(n, k, m[k])) == Render(At(n, k, o[k]))
  {
    var merged := Merged(s.default, s.stable, section);
    CanonIdempotent(n, Stripped(merged));
    assert Stripped(Canon(n, merged)) == Canon(n, Stripped(merged));
    CanonAt(n, Stripped(merged));
    CanonAt(n, Stripped(other));
  }

  /** Merging over a configuration with the desired keys gives back, key by key, what was merged before or what that
      configuration holds. */
  lemma MergedAgain(s: Slots, section: Config, promoted: Config)
    requires Stripped(Merged(s.default, s.stable, section)).Keys == Stripped(promoted).Keys
    ensures var m, p, again := Stripped(Merged(s.default, s.stable, section)), Stripped(promoted),
                               Stripped(Merged(s.default, promoted, section));
            again.Keys == p.Keys && forall k <- p :: k in again && (again[k] == m[k] || again[k] == p[k])
  {
  }

  /** Promoting a configuration in sync leaves the stable one in sync: recomputing the desired configuration from it
      gives an equal one. */
  lemma PromotedStaysInSync(n: Notation, s: Slots, section: Config, promoted: Config)
    requires Faithful(n) && InSync(n, s, section, promoted)
    ensures InSync(n, s.(stable := promoted, pending := None), section, promoted)
  {
    EqualByKey(n, s, section, promoted);
    EqualByKey(n, s.(stable := promoted, pending := None), section, promoted);
    MergedAgain(s, section, promoted);
  }

  /** Values as JSON gives them. */
  predicate Json(d: Config) { forall k <- d :: Decoded(d[k]) == d[k] }

  predicate PlainSection(section: Config) { forall k <- Stripped(section) :: Plain(section[k]) }

  lemma {:induction false} TextsStay(items: seq<Value>)
    requires AllText(items)
    ensures PlainAll(items) && DecodedAll(items) == items
  {
    if items != [] {
      assert items[0] in items && forall v <- items[1..] :: v in items;
      TextsStay(items[1..]);
    }
  }

  lemma {:induction false} DecodedTexts(items: seq<Value>)
    ensures AllText(DecodedAll(items)) <==> AllText(items)
  {
    var decoded := DecodedAll(items);
    forall i | 0 <= i < |items|
      ensures decoded[i].Text? <==> items[i].Text?
    {
    }
    assert forall i :: 0 <= i < |items| ==> items[i] in items && decoded[i] in decoded;
  }

  lemma CanonicalThenDecoded(n: Notation, v: Value)
    requires Faithful(n)
    ensures var c := CanonicalValue(n, v);
            CanonicalValue(n, Decoded(c)) == Decoded(c) && (Plain(c) <==> Plain(v))
                && (Decoded(v) == v ==> Decoded(c) == c)
  {
    if v.List? {
      if AllText(v.items) {
        CanonicalValueIdempotent(n, v);
        TextsStay(v.items);
        TextsStay(CanonicalItems(n, v.items));
      } else {
        DecodedTexts(v.items);
      }
    }
  }

  lemma DesiredMeaning(n: Notation, s: Slots, section: Config)
    requires Faithful(n)
    ensures Stripped(Desired(n, s.default, s.stable, section))
            == Canon(n, Stripped(Merged(s.default, s.stable, section)))
  {
  }

  /** What is pending after Home Assistant accepted the desired configuration. */
  lemma AcceptedDesired(n: Notation, s: Slots, section: Config)
    requires Faithful(n)
    ensures var m, p := Stripped(Merged(s.default, s.stable, section)),
                        Accepted(n, Desired(n, s.default, s.stable, section));
            m.Keys == p.Keys && forall k <- m :: k in p && p[k] == Decoded(At(n, k, m[k])) && At(n, k, p[k]) == p[k]
  {
    DesiredMeaning(n, s, section);
    AcceptedCanonical(n, Stripped(Merged(s.default, s.stable, section)));
  }

  lemma AcceptedCanonical(n: Notation, m: Config)
    requires Faithful(n)
    ensures var p := Canon(n, DecodedConfig(Canon(n, m)));
            m.Keys == p.Keys && forall k <- m :: k in p && p[k] == Decoded(At(n, k, m[k])) && At(n, k, p[k]) == p[k]
  {
    CanonAt(n, m);
    CanonAt(n, DecodedConfig(Canon(n, m)));
    var p := Canon(n, DecodedConfig(Canon(n, m)));
    forall k | k in m
      ensures k in p && p[k] == Decoded(At(n, k, m[k])) && At(n, k, p[k]) == p[k]
    {
      CanonicalThenDecoded(n, m[k]);
    }
  }

  lemma AcceptedPrintsAlike(n: Notation, k: string, v: Value)
    requires Faithful(n)
    ensures var c := At(n, k, v); Render(c) == Render(At(n, k, Decoded(c))) <==> Plain(v)
  {
    CanonicalThenDecoded(n, v);
    DecodedPrintsAlike(At(n, k, v));
  }

  lemma MergedOrigin(s: Slots, section: Config)
    requires Json(s.default) && Json(s.stable)
    ensures var m := Stripped(Merged(s.default, s.stable, section));
            && (forall k <- m :: if k in section then m[k] == section[k] else Decoded(m[k]) == m[k])
            && (forall k <- Stripped(section) :: k in m)
  {
  }

  /** After a write the operator recognises its own configuration, and promotes it, exactly when the section has no
      integer of a million or more. */
  lemma OwnWriteRecognised(n: Notation, s: Slots, section: Config, s': Slots)
    requires Faithful(n) && Json(s.default) && Json(s.stable)
    requires Plan(n, s, section).Configure? && Answered(n, s, Plan(n, s, section), s')
    ensures Plan(n, s', section) == (if PlainSection(section) then Promote else Quiet)
  {
    AcceptedDesired(n, s, section);
    EqualByKey(n, s', section, s'.pending.value);
    MergedOrigin(s, section);
    var m, p := Stripped(Merged(s.default, s.stable, section)), Stripped(s'.pending.value);
    forall k | k in m
      ensures Render(At(n, k, m[k])) == Render(At(n, k, p[k])) <==> Plain(m[k])
      ensures k !in section ==> Plain(m[k])
    {
      AcceptedPrintsAlike(n, k, m[k]);
      DecodedPrintsAlike(m[k]);
    }
    assert PlainSection(section) <==> forall k <- m :: Plain(m[k]);
  }

  // ---------- What is written ----------

  /** The metadata fields, base_url among them, reach Home Assistant exactly when the section has them. */
  lemma MetadataIsSentAsWritten(n: Notation, s: Slots, section: Config, key: string)
    requires key in METADATA && Plan(n, s, section).Configure?
    ensures var sent := Plan(n, s, section).sent;
            && (key in sent <==> key in section)
            && (key in section ==> sent[key] == section[key])
  {
    assert key !in Stripped(s.default) && key !in Unknown(s.stable);
    CanonAt(n, Merged(s.default, s.stable, section));
  }

  /** Where values agree in kind, a stable configuration that is not the desired one is always rewritten. */
  lemma DifferenceIsWritten(n: Notation, s: Slots, section: Config)
    requires var desired := Desired(n, s.default, s.stable, section);
             Comparable(n, desired, s.stable) && !Same(n, desired, s.stable)
    requires s.pending.None?
    ensures Plan(n, s, section) == Configure(Desired(n, s.default, s.stable, section))
  {
    if InSync(n, s, section, s.stable) {
      EqualMeansSame(n, Desired(n, s.default, s.stable, section), s.stable);
    }
  }

  // ---------- Convergence ----------

  /** How a reconcile's turn ends: Home Assistant answers its write. A pending configuration that is not the operator's
      stays, is confirmed by the user or is reverted. */
  predicate Turn(n: Notation, s: Slots, section: Config, s': Slots) {
    if ForeignPending(n, s, section) then
      s' == s || s' == s.(pending := None) || s' == s.(stable := s.pending.value, pending := None)
    else Answered(n, s, Plan(n, s, section), s')
  }

  /** An upper bound on the writes left to do. */
  function Rank(n: Notation, s: Slots, section: Config): nat {
    if PendingError(s.pending) != "" || ForeignPending(n, s, section) then 3
    else if s.pending.Some? then 1
    else if InSync(n, s, section, s.stable) then 0
    else 2
  }

  predicate Settled(n: Notation, s: Slots, section: Config) { s.pending.None? && InSync(n, s, section, s.stable) }

  lemma RankIsBounded(n: Notation, s: Slots, section: Config)
    ensures Rank(n, s, section) <= 3
    ensures Rank(n, s, section) == 0 <==> Settled(n, s, section)
  {
  }

  /** Each turn comes closer to the settled state, unless it waits. */
  lemma RankFalls(n: Notation, s: Slots, section: Config, s': Slots)
    requires Faithful(n) && Json(s.default) && Json(s.stable) && PlainSection(section)
    requires Turn(n, s, section, s')
    ensures if s' == s then Plan(n, s, section) == Quiet else Rank(n, s', section) < Rank(n, s, section)
    ensures Settled(n, s, section) ==> s' == s
    ensures s' == s ==> Settled(n, s, section) || ForeignPending(n, s, section)
  {
    match Plan(n, s, section)
    case Promote => PromotedStaysInSync(n, s, section, s.pending.value);
    case Configure(_) => OwnWriteRecognised(n, s, section, s');
    case _ =>
  }

  /** Successive reconciles with the same section, while Home Assistant accepts every write and no other configuration
      is sent. */
  ghost predicate Reconciles(n: Notation, run: seq<Slots>, section: Config) {
    && |run| >= 1
    && (forall s <- run :: Json(s.default) && Json(s.stable))
    && forall i :: 0 <= i < |run| - 1 ==> Turn(n, run[i], section, run[i + 1])
  }

  function Writes(n: Notation, run: seq<Slots>, section: Config): nat
    requires |run| >= 1
  {
    if |run| == 1 then 0
    else (if Plan(n, run[0], section).Quiet? then 0 else 1) + Writes(n, run[1..], section)
  }

  /** The turns in which a pending configuration that is not the operator's stays. */
  function Waits(n: Notation, run: seq<Slots>, section: Config): nat
    requires |run| >= 1
  {
    if |run| == 1 then 0
    else (if ForeignPending(n, run[0], section) && run[1] == run[0] then 1 else 0) + Waits(n, run[1..], section)
  }

  lemma RunTail(n: Notation, run: seq<Slots>, section: Config)
    requires Reconciles(n, run, section) && |run| > 1
    ensures Reconciles(n, run[1..], section) && Json(run[0].default) && Json(run[0].stable)
    ensures Turn(n, run[0], section, run[1])
  {
    assert run[0] in run;
    assert forall s <- run[1..] :: s in run;
  }

  /** At most three writes, clear, configure and promote, and then none ever: apart from the turns spent waiting for
      the fate of a foreign configuration, each turn comes closer, and a settled state no longer changes. */
  lemma {:induction false} SettlesInThreeWrites(n: Notation, run: seq<Slots>, section: Config)
    requires Faithful(n) && PlainSection(section) && Reconciles(n, run, section)
    ensures Writes(n, run, section) <= Rank(n, run[0], section) <= 3
    ensures Settled(n, run[0], section) ==> run[|run| - 1] == run[0]
    ensures |run| > Rank(n, run[0], section) + Waits(n, run, section) ==> Settled(n, run[|run| - 1], section)
  {
    RankIsBounded(n, run[0], section);
    if |run| > 1 {
      RunTail(n, run, section);
      RankFalls(n, run[0], section, run[1]);
      SettlesInThreeWrites(n, run[1..], section);
    }
  }

  /** Once settled, Home Assistant holds the configuration that the resource asks for, where values agree in kind. */
  lemma SettledIsDelivered(n: Notation, run: seq<Slots>, section: Config)
    requires Faithful(n) && PlainSection(section) && Reconciles(n, run, section)
    requires |run| > Rank(n, run[0], section) + Waits(n, run, section)
    ensures var last := run[|run| - 1]; var desired := Desired(n, last.default, last.stable, section);
            Comparable(n, desired, last.stable) ==> Same(n, desired, last.stable)
  {
    SettlesInThreeWrites(n, run, section);
    var last := run[|run| - 1];
    var desired := Desired(n, last.default, last.stable, section);
    if Comparable(n, desired, last.stable) {
      EqualMeansSame(n, desired, last.stable);
    }
  }

  /** An option that the operator manages and the section no longer has is back at Home Assistant's default, or gone
      where there is none. */
  lemma DroppedOptionAtDefault(n: Notation, run: seq<Slots>, section: Config, key: string)
    requires Faithful(n) && PlainSection(section) && Reconciles(n, run, section)
    requires |run| > Rank(n, run[0], section) + Waits(n, run, section)
    requires key in KNOWN_KEYS && key !in section
    ensures var default, stable := run[|run| - 1].default, run[|run| - 1].stable;
            && (key in stable <==> key in default)
            && (key in stable ==>
                  var v, w := At(n, key, stable[key]), At(n, key, default[key]);
                  Render(v) == Render(w) && (SameKind(w, v) ==> Decoded(v) == Decoded(w)))
  {
    SettlesInThreeWrites(n, run, section);
    var last := run[|run| - 1];
    KnownIsNoMetadata();
    EqualByKey(n, last, section, last.stable);
    var m := Stripped(Merged(last.default, last.stable, section));
    assert key in m <==> key in last.default;
    assert key in m ==> m[key] == last.default[key];
    if key in m && SameKind(At(n, key, m[key]), At(n, key, last.stable[key])) {
      ValueExact(At(n, key, m[key]), At(n, key, last.stable[key]));
    }
  }

  // ---------- Every interleaving ----------

  datatype Event = Operator(section: Config) | Interface(slots: Slots) | Revert

  /** One event: a reconcile that reads and acts at once, an edit in the user interface, or an auto-revert. */
  ghost predicate Happens(s: Slots, e: Event, n: Notation, s': Slots) {
    match e
    case Operator(section) => s' == s || HttpReconciler.Performed(s, Plan(n, s, section), s')
    case Interface(slots) => s' == slots
    case Revert => s' == s.(pending := None)
  }

  /** The stable configuration changes by the operator's hand only to a pending one without error and in sync with its
      section, and a foreign pending configuration is left alone. */
  lemma OperatorPromotesOnlyDesired(n: Notation, s: Slots, section: Config, s': Slots)
    requires Happens(s, Operator(section), n, s')
    ensures s'.stable != s.stable ==>
              && s.pending == Some(s'.stable) && PendingError(s.pending) == ""
              && InSync(n, s, section, s'.stable)
    ensures ForeignPending(n, s, section) ==> s' == s
  {
  }

  ghost predicate History(n: Notation, states: seq<Slots>, events: seq<Event>) {
    && |states| == |events| + 1
    && forall i :: 0 <= i < |events| ==> Happens(states[i], events[i], n, states[i + 1])
  }

  /** In every interleaving in which the interface never touches the stable slot, each stable configuration after the
      first was in sync with the section of the reconcile that promoted it. */
  lemma {:induction false} StableCameFromOperator(n: Notation, states: seq<Slots>, events: seq<Event>)
    requires History(n, states, events)
    requires forall i :: 0 <= i < |events| && events[i].Interface? ==> events[i].slots.stable == states[i].stable
    ensures var last := states[|events|];
            || last.stable == states[0].stable
            || exists i :: 0 <= i < |events| && events[i].Operator? && states[i].pending == Some(last.stable)
                  && InSync(n, states[i], events[i].section, last.stable)
  {
    if events != [] {
      var k := |events| - 1;
      StableCameFromOperator(n, states[..k + 1], events[..k]);
      assert forall i :: 0 <= i < k ==> events[..k][i] == events[i] && states[..k + 1][i] == states[i];
      if events[k].Operator? {
        OperatorPromotesOnlyDesired(n, states[k], events[k].section, states[k + 1]);
      }
    }
  }

  // ---------- Options of a newer Home Assistant ----------

  predicate Holds(s: Slots, key: string, v: Value) {
    && key in s.stable && s.stable[key] == v
    && (s.pending.Some? ==> key in s.pending.value && s.pending.value[key] == v)
  }

  lemma UnknownOptionMerged(stable: Config, default: Config, section: Config, key: string)
    requires key !in KNOWN_KEYS && key !in METADATA && key !in section && key in stable
    ensures var m := Stripped(Merged(default, stable, section)); key in m && m[key] == stable[key]
  {
  }

  lemma UnknownOptionSent(n: Notation, s: Slots, section: Config, key: string)
    requires Faithful(n) && key !in KNOWN_KEYS && key !in METADATA && key !in section && key in s.stable
    ensures var p := Accepted(n, Desired(n, s.default, s.stable, section)); key in p && p[key] == Decoded(s.stable[key])
  {
    UnknownOptionMerged(s.stable, s.default, section, key);
    AcceptedDesired(n, s, section);
    assert key != TRUSTED_PROXIES;
  }

  /** An option that the operator does not manage keeps its value through any number of replacing writes. */
  lemma UnknownOptionStep(n: Notation, s: Slots, section: Config, s': Slots, key: string, v: Value)
    requires Faithful(n) && Json(s.stable) && Turn(n, s, section, s')
    requires key !in KNOWN_KEYS && key !in METADATA && key !in section && Holds(s, key, v)
    ensures Holds(s', key, v)
  {
    if Plan(n, s, section).Configure? {
      UnknownOptionSent(n, s, section, key);
      assert key in Stripped(s'.pending.value);
    }
  }

  lemma {:induction false} UnknownOptionKept(n: Notation, run: seq<Slots>, section: Config, key: string, v: Value)
    requires Faithful(n) && Reconciles(n, run, section)
    requires key !in KNOWN_KEYS && key !in METADATA && key !in section && Holds(run[0], key, v)
    ensures Holds(run[|run| - 1], key, v)
  {
    if |run| > 1 {
      RunTail(n, run, section);
      UnknownOptionStep(n, run[0], section, run[1], key, v);
      UnknownOptionKept(n, run[1..], section, key, v);
    }
  }
}
