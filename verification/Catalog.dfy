/** The aggregate list of one Home Assistant: repositories.json in its ConfigMap. */
module Catalog {
  import opened Wrappers
  import opened RepositoryEntries

  /** What the ConfigMap holds: nothing, text that does not parse, or a list. */
  datatype Stored = Missing | Corrupt | Listing(entries: seq<Entry>)

  function Payload(stored: Stored): seq<Entry> {
    if stored.Listing? then stored.entries else []
  }

  const SEPARATOR := '|'

  function EntryKey(category: string, target: string): string { category + [SEPARATOR] + target }

  function KeyOf(e: Entry): string { EntryKey(e.category, e.target) }

  // ---------- Order of keys ----------

  /** Byte order of UTF-8 strings, which is code point order. */
  predicate Below(a: string, b: string) {
    b != "" && (a == "" || a[0] < b[0] || (a[0] == b[0] && Below(a[1..], b[1..])))
  }

  lemma {:induction false} BelowTransitive(a: string, b: string, c: string)
    requires Below(a, b) && Below(b, c)
    ensures Below(a, c)
  {
    if a != "" && a[0] == b[0] == c[0] {
      BelowTransitive(a[1..], b[1..], c[1..]);
    }
  }

  lemma {:induction false} BelowTotal(a: string, b: string)
    ensures Below(a, b) || a == b || Below(b, a)
    ensures !(Below(a, b) && Below(b, a)) && !(a == b && Below(a, b))
  {
    if a != "" && b != "" && a[0] == b[0] {
      BelowTotal(a[1..], b[1..]);
      assert a == [a[0]] + a[1..] && b == [b[0]] + b[1..];
    }
  }

  predicate Sorted(s: seq<string>) {
    forall i, j :: 0 <= i < j < |s| ==> !Below(s[j], s[i])
  }

  /** The first element of a sorted list is below or equal to all of its elements. */
  lemma FirstIsLeast(a: seq<string>, s: string)
    requires Sorted(a) && s in multiset(a)
    ensures a != [] && !Below(s, a[0])
  {
    var i :| 0 <= i < |a| && a[i] == s;
    BelowTotal(s, s);
  }

  lemma TailsMatch(a: seq<string>, b: seq<string>)
    requires a != [] && b != [] && a[0] == b[0] && multiset(a) == multiset(b)
    ensures multiset(a[1..]) == multiset(b[1..])
    ensures a[1..] == b[1..] ==> a == b
  {
    assert a == [a[0]] + a[1..] && b == [b[0]] + b[1..];
    assert multiset(a[1..]) == multiset(a) - multiset{a[0]} == multiset(b[1..]);
  }

  /** A multiset of keys has one sorted order, so the stored text does not depend on map iteration order. */
  lemma {:induction false} SortedUnique(a: seq<string>, b: seq<string>)
    requires Sorted(a) && Sorted(b) && multiset(a) == multiset(b)
    ensures a == b
  {
    if a == [] {
      assert |multiset(b)| == 0;
    } else {
      assert a[0] in multiset(a);
      FirstIsLeast(b, a[0]);
      assert b[0] in multiset(b);
      FirstIsLeast(a, b[0]);
      BelowTotal(a[0], b[0]);
      TailsMatch(a, b);
      SortedUnique(a[1..], b[1..]);
    }
  }

  // ---------- sortStrings ----------

  /** Everything sorted except that the element at k may still have to move left. */
  predicate SortedAround(s: seq<string>, k: int) {
    forall i, j :: 0 <= i < j < |s| && j != k ==> !Below(s[j], s[i])
  }

  /** Swapping the element at k with a larger left neighbour. */
  lemma SwapLeft(s: seq<string>, k: nat)
    requires 0 < k < |s| && SortedAround(s, k) && Below(s[k], s[k - 1])
    ensures SortedAround(s[k := s[k - 1]][k - 1 := s[k]], k - 1)
    ensures multiset(s[k := s[k - 1]][k - 1 := s[k]]) == multiset(s)
  {
    var t := s[k := s[k - 1]][k - 1 := s[k]];
    BelowTotal(s[k], s[k - 1]);
    forall i, j | 0 <= i < j < |t| && j != k - 1
      ensures !Below(t[j], t[i])
    {
      if i == k - 1 && j > k {
        assert !Below(s[j], s[k]);
      }
    }
  }

  /** The element at k is in place once its left neighbour is not larger. */
  lemma InPlace(s: seq<string>, k: nat)
    requires k < |s| && SortedAround(s, k) && (k > 0 ==> !Below(s[k], s[k - 1]))
    ensures Sorted(s)
  {
    forall i | 0 <= i < k
      ensures !Below(s[k], s[i])
    {
      assert i < k - 1 ==> !Below(s[k - 1], s[i]);
      BelowTotal(s[k - 1], s[k]);
      if s[k - 1] != s[k] && Below(s[k], s[i]) {
        BelowTransitive(s[k - 1], s[k], s[i]);
      }
    }
  }

  /** The inner loop: sink the element at i into the sorted part before it. */
  method Sink(a: array<string>, i: nat)
    requires 0 < i < a.Length && Sorted(a[..i])
    modifies a
    ensures Sorted(a[..i + 1]) && multiset(a[..i + 1]) == multiset(old(a[..i + 1]))
    ensures a[i + 1..] == old(a[i + 1..])
  {
    var j := i;
    assert SortedAround(a[..i + 1], i);
    while j > 0 && Below(a[j], a[j - 1])
      invariant 0 <= j <= i && SortedAround(a[..i + 1], j)
      invariant multiset(a[..i + 1]) == multiset(old(a[..i + 1]))
      invariant a[i + 1..] == old(a[i + 1..])
    {
      ghost var s := a[..i + 1];
      SwapLeft(s, j);
      a[j], a[j - 1] := a[j - 1], a[j];
      assert a[..i + 1] == s[j := s[j - 1]][j - 1 := s[j]];
      j := j - 1;
    }
    InPlace(a[..i + 1], j);
  }

  lemma SameElements(s: seq<string>, t: seq<string>, k: nat)
    requires k <= |s| == |t| && multiset(s[..k]) == multiset(t[..k]) && s[k..] == t[k..]
    ensures multiset(s) == multiset(t)
  {
    assert s == s[..k] + s[k..] && t == t[..k] + t[k..];
  }

  method SortStrings(a: array<string>)
    modifies a
    ensures Sorted(a[..]) && multiset(a[..]) == multiset(old(a[..]))
  {
    var i := 1;
    while i < a.Length
      invariant 1 <= i && (i <= a.Length || a.Length == 0)
      invariant Sorted(a[..if i < a.Length then i else a.Length])
      invariant multiset(a[..]) == multiset(old(a[..]))
    {
      ghost var before := a[..];
      Sink(a, i);
      SameElements(before, a[..], i + 1);
      i := i + 1;
    }
    assert a[..a.Length] == a[..];
  }

  // ---------- Decoding and encoding ----------

  /** The entries by key; a later entry with the same key wins. */
  function Indexed(entries: seq<Entry>): (m: map<string, Entry>)
    ensures WellKeyed(m)
  {
    if entries == [] then map[]
    else var last := entries[|entries| - 1]; Indexed(entries[..|entries| - 1])[KeyOf(last) := last]
  }

  predicate WellKeyed(m: map<string, Entry>) { forall k <- m :: KeyOf(m[k]) == k }

  function KeysOf(entries: seq<Entry>): (keys: seq<string>)
    ensures |keys| == |entries| && forall i :: 0 <= i < |keys| ==> keys[i] == KeyOf(entries[i])
  {
    seq(|entries|, i requires 0 <= i < |entries| => KeyOf(entries[i]))
  }

  /** The list written for a map: every value once, in key order. */
  predicate Lists(entries: seq<Entry>, m: map<string, Entry>) {
    && Sorted(KeysOf(entries)) && multiset(KeysOf(entries)) == multiset(m.Keys)
    && forall e <- entries :: KeyOf(e) in m && m[KeyOf(e)] == e
  }

  method Decode(stored: Stored) returns (m: map<string, Entry>)
    ensures m == Indexed(Payload(stored))
  {
    m := map[];
    if stored.Listing? {
      var entries := stored.entries;
      var i := 0;
      while i < |entries|
        invariant 0 <= i <= |entries| && m == Indexed(entries[..i])
      {
        assert entries[..i + 1][..i] == entries[..i] && entries[..i + 1][i] == entries[i];
        m := m[KeyOf(entries[i]) := entries[i]];
        i := i + 1;
      }
      assert entries[..|entries|] == entries;
    }
  }

  /** The keys in some order. */
  method CollectKeys(keys: set<string>) returns (a: array<string>)
    ensures fresh(a) && multiset(a[..]) == multiset(keys)
  {
    var rest, s := keys, [];
    while rest != {}
      invariant rest <= keys && multiset(s) + multiset(rest) == multiset(keys)
      decreases rest
    {
      var k :| k in rest;
      assert multiset(rest) == multiset(rest - {k}) + multiset{k};
      rest, s := rest - {k}, s + [k];
    }
    a := new string[|s|](i requires 0 <= i < |s| => s[i]);
    assert a[..] == s;
  }

  method Encode(m: map<string, Entry>) returns (entries: seq<Entry>)
    requires WellKeyed(m)
    ensures Lists(entries, m)
  {
    var keys := CollectKeys(m.Keys);
    SortStrings(keys);
    ghost var sorted := keys[..];
    assert forall i :: 0 <= i < |sorted| ==> sorted[i] in multiset(sorted);
    entries := [];
    var i := 0;
    while i < keys.Length
      invariant 0 <= i <= keys.Length && |entries| == i && keys[..] == sorted
      invariant forall j :: 0 <= j < i ==> sorted[j] in m && entries[j] == m[sorted[j]]
    {
      assert sorted[i] in m.Keys;
      entries := entries + [m[keys[i]]];
      i := i + 1;
    }
    assert KeysOf(entries) == sorted;
  }

  /** The list is a function of the map. */
  lemma ListUnique(a: seq<Entry>, b: seq<Entry>, m: map<string, Entry>)
    requires Lists(a, m) && Lists(b, m)
    ensures a == b
  {
    SortedUnique(KeysOf(a), KeysOf(b));
    forall i | 0 <= i < |a|
      ensures a[i] == b[i]
    {
      assert a[i] in a && b[i] in b && KeysOf(a)[i] == KeysOf(b)[i];
    }
  }

  lemma {:induction false} IndexedKeys(entries: seq<Entry>, k: string)
    ensures k in Indexed(entries) <==> k in KeysOf(entries)
    ensures k in Indexed(entries) ==> Indexed(entries)[k] in entries
  {
    if entries != [] {
      var n := |entries| - 1;
      IndexedKeys(entries[..n], k);
      assert entries == entries[..n] + [entries[n]];
      assert KeysOf(entries) == KeysOf(entries[..n]) + [KeyOf(entries[n])];
    }
  }

  /** Writing a well-keyed map and decoding it gives the map back. */
  lemma EncodeDecode(entries: seq<Entry>, m: map<string, Entry>)
    requires Lists(entries, m)
    ensures Indexed(entries) == m
  {
    var keys := KeysOf(entries);
    forall k: string
      ensures k in Indexed(entries) <==> k in m
      ensures k in m ==> Indexed(entries)[k] == m[k]
    {
      IndexedKeys(entries, k);
      assert k in multiset(keys) <==> k in multiset(m.Keys);
    }
  }

  lemma {:induction false} EntryKeyInjective(c: string, t: string, d: string, u: string)
    requires SEPARATOR !in c && SEPARATOR !in d && EntryKey(c, t) == EntryKey(d, u)
    ensures c == d && t == u
  {
    var a, b := EntryKey(c, t), EntryKey(d, u);
    assert a[|c|] == SEPARATOR && b[|d|] == SEPARATOR;
    assert forall i :: 0 <= i < |c| ==> a[i] == c[i] && a[i] != SEPARATOR;
    assert forall i :: 0 <= i < |d| ==> b[i] == d[i] && b[i] != SEPARATOR;
    assert a[..|c|] == c && b[..|d|] == d && a[|c| + 1..] == t && b[|d| + 1..] == u;
  }

  // ---------- One resource's own entry ----------

  function Upserted(m: map<string, Entry>, e: Entry, previous: string): map<string, Entry> {
    (if previous != "" && previous != e.target then m - {EntryKey(e.category, previous)} else m)[KeyOf(e) := e]
  }

  function Removed(m: map<string, Entry>, category: string, target: string): map<string, Entry> {
    m - {EntryKey(category, target)}
  }

  /** Of several entries with one key the last one counts. */
  lemma {:induction false} LastEntryCounts(entries: seq<Entry>, i: nat)
    requires i < |entries| && forall j :: i < j < |entries| ==> KeyOf(entries[j]) != KeyOf(entries[i])
    ensures var m := Indexed(entries); KeyOf(entries[i]) in m && m[KeyOf(entries[i])] == entries[i]
  {
    if i < |entries| - 1 {
      LastEntryCounts(entries[..|entries| - 1], i);
    }
  }

  /** What replacing an entry does to each key: the old target's goes, the entry's own is set, and all others stay. */
  lemma UpsertedByKey(m: map<string, Entry>, e: Entry, previous: string, k: string)
    ensures var after := Upserted(m, e, previous);
            if k == EntryKey(e.category, e.target) then k in after && after[k] == e
            else if previous != "" && k == EntryKey(e.category, previous) then k !in after
            else (k in after <==> k in m) && (k in m ==> after[k] == m[k])
  {
    SameKeySameTarget(e.category, e.target, previous);
  }

  lemma SameKeySameTarget(category: string, t: string, u: string)
    ensures EntryKey(category, t) == EntryKey(category, u) <==> t == u
  {
    var a, b := EntryKey(category, t), EntryKey(category, u);
    assert a[|category| + 1..] == t && b[|category| + 1..] == u;
  }

  /** upsertConfigMapEntry up to the write: decode, replace the resource's entry, encode. */
  method UpsertList(stored: Stored, e: Entry, previous: string) returns (list: seq<Entry>)
    ensures Lists(list, Upserted(Indexed(Payload(stored)), e, previous))
    ensures Indexed(list) == Upserted(Indexed(Payload(stored)), e, previous)
  {
    var entries := Decode(stored);
    if previous != "" && previous != e.target {
      entries := entries - {EntryKey(e.category, previous)};
    }
    entries := entries[EntryKey(e.category, e.target) := e];
    list := Encode(entries);
    EncodeDecode(list, entries);
  }

  /** removeConfigMapEntry up to the write. */
  method RemoveFromList(stored: Stored, category: string, target: string) returns (list: seq<Entry>)
    ensures Lists(list, Removed(Indexed(Payload(stored)), category, target))
    ensures Indexed(list) == Removed(Indexed(Payload(stored)), category, target)
  {
    var entries := Decode(stored);
    entries := entries - {EntryKey(category, target)};
    list := Encode(entries);
    EncodeDecode(list, entries);
  }
}
