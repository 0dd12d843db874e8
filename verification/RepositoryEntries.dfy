/** Entries of the aggregate repositories.json and the fingerprint that ties a pod to the integration
    entries it materialises. The controller computes it in Go, the init container in Python. */
module RepositoryEntries {
  datatype Entry = Entry(category: string, repository: string, ref: string, target: string, source: string)

  const INTEGRATION := "integration"
  const NUL := '\U{00}'

  /** Field values of validated resources contain no NUL: they are repository names, refs, manifest
      domains and archive paths. */
  predicate NulFree(s: string) { NUL !in s }

  predicate NulFreeEntry(e: Entry) {
    NulFree(e.category) && NulFree(e.repository) && NulFree(e.ref) && NulFree(e.target) && NulFree(e.source)
  }

  predicate NulFreeEntries(entries: seq<Entry>) { forall e <- entries :: NulFreeEntry(e) }

  function Integrations(entries: seq<Entry>): seq<Entry> {
    if entries == [] then []
    else Integrations(entries[..|entries| - 1])
         + (if entries[|entries| - 1].category == INTEGRATION then [entries[|entries| - 1]] else [])
  }

  function Fields(e: Entry): seq<string> { [e.category, e.repository, e.ref, e.target, e.source] }

  /** Each field followed by a NUL. */
  function Terminated(fields: seq<string>): (r: string)
    ensures r == "" <==> fields == []
  {
    if fields == [] then "" else fields[0] + [NUL] + Terminated(fields[1..])
  }

  function AllFields(entries: seq<Entry>): (r: seq<string>)
    ensures |r| == 5 * |entries|
  {
    if entries == [] then [] else Fields(entries[0]) + AllFields(entries[1..])
  }

  /** The fingerprint of a list of integration entries. */
  function Fingerprint(entries: seq<Entry>): string { Terminated(AllFields(entries)) }

  // ---------- Both implementations compute it ----------

  lemma AppendAssociative<T>(a: seq<T>, b: seq<T>, c: seq<T>)
    ensures (a + b) + c == a + (b + c)
  {
  }

  lemma {:induction false} TerminatedAppend(a: seq<string>, b: seq<string>)
    ensures Terminated(a + b) == Terminated(a) + Terminated(b)
  {
    if a == [] {
      assert a + b == b;
    } else {
      assert (a + b)[1..] == a[1..] + b && (a + b)[0] == a[0];
      TerminatedAppend(a[1..], b);
      AppendAssociative(a[0] + [NUL], Terminated(a[1..]), Terminated(b));
    }
  }

  lemma {:induction false} AllFieldsAppend(a: seq<Entry>, b: seq<Entry>)
    ensures AllFields(a + b) == AllFields(a) + AllFields(b)
  {
    if a == [] {
      assert a + b == b;
    } else {
      assert (a + b)[1..] == a[1..] + b && (a + b)[0] == a[0];
      AllFieldsAppend(a[1..], b);
      AppendAssociative(Fields(a[0]), AllFields(a[1..]), AllFields(b));
    }
  }

  lemma FingerprintSnoc(entries: seq<Entry>, e: Entry)
    ensures Fingerprint(entries + [e]) == Fingerprint(entries) + Terminated(Fields(e))
  {
    AllFieldsAppend(entries, [e]);
    assert AllFields([e]) == Fields(e) + AllFields([e][1..]) == Fields(e);
    TerminatedAppend(AllFields(entries), Fields(e));
  }

  lemma IntegrationsStep(entries: seq<Entry>, i: nat)
    requires i < |entries|
    ensures Fingerprint(Integrations(entries[..i + 1]))
         == Fingerprint(Integrations(entries[..i]))
            + (if entries[i].category == INTEGRATION then Terminated(Fields(entries[i])) else "")
  {
    var s, before := entries[..i + 1], Integrations(entries[..i]);
    assert s[..i] == entries[..i] && s[i] == entries[i];
    if entries[i].category == INTEGRATION {
      FingerprintSnoc(before, entries[i]);
      assert Integrations(s) == before + [entries[i]];
    } else {
      assert Integrations(s) == before;
    }
  }

  /** The Go side's inner loop. */
  method WriteFields(buffer: string, fields: seq<string>) returns (r: string)
    ensures r == buffer + Terminated(fields)
  {
    r := buffer;
    var j := 0;
    while j < |fields|
      invariant 0 <= j <= |fields| && r == buffer + Terminated(fields[..j])
    {
      TerminatedAppend(fields[..j], [fields[j]]);
      assert fields[..j + 1] == fields[..j] + [fields[j]];
      r := r + fields[j] + [NUL];
      j := j + 1;
    }
    assert fields[..|fields|] == fields;
  }

  /** The Go side: one buffer, written field by field. */
  method GoFingerprint(entries: seq<Entry>) returns (buffer: string)
    ensures buffer == Fingerprint(Integrations(entries))
  {
    buffer := "";
    var i := 0;
    while i < |entries|
      invariant 0 <= i <= |entries| && buffer == Fingerprint(Integrations(entries[..i]))
    {
      IntegrationsStep(entries, i);
      var e := entries[i];
      if e.category == INTEGRATION {
        buffer := WriteFields(buffer, [e.category, e.repository, e.ref, e.target, e.source]);
      }
      i := i + 1;
    }
    assert entries[..|entries|] == entries;
  }

  /** Python's '\0'.join. */
  function Join(fields: seq<string>): string {
    if fields == [] then "" else if |fields| == 1 then fields[0] else fields[0] + [NUL] + Join(fields[1..])
  }

  lemma {:induction false} JoinTerminated(fields: seq<string>)
    requires fields != []
    ensures Join(fields) + [NUL] == Terminated(fields)
  {
    if |fields| > 1 {
      JoinTerminated(fields[1..]);
    }
  }

  /** The Python side: per entry the fields joined by NUL and a final NUL, all entries concatenated. */
  method PythonFingerprint(entries: seq<Entry>) returns (fingerprint: string)
    ensures fingerprint == Fingerprint(entries)
  {
    fingerprint := "";
    var i := 0;
    while i < |entries|
      invariant 0 <= i <= |entries| && fingerprint == Fingerprint(entries[..i])
    {
      var e := entries[i];
      FingerprintSnoc(entries[..i], e);
      JoinTerminated(Fields(e));
      assert entries[..i + 1] == entries[..i] + [e];
      fingerprint := fingerprint + (Join([e.category, e.repository, e.ref, e.target, e.source]) + [NUL]);
      i := i + 1;
    }
    assert entries[..|entries|] == entries;
  }

  // ---------- It identifies the entries ----------

  /** The first field ends at the first NUL, so it can be read back. */
  lemma {:induction false} FirstField(a: string, b: string, x: string, y: string)
    requires NulFree(a) && NulFree(b) && a + [NUL] + x == b + [NUL] + y
    ensures a == b && x == y
  {
    var s, t := a + [NUL] + x, b + [NUL] + y;
    assert s[|a|] == NUL && t[|b|] == NUL;
    assert forall i :: 0 <= i < |a| ==> s[i] == a[i] && s[i] != NUL;
    assert forall i :: 0 <= i < |b| ==> t[i] == b[i] && t[i] != NUL;
    assert s[..|a|] == a && t[..|b|] == b;
    assert s[|a| + 1..] == x && t[|b| + 1..] == y;
  }

  lemma {:induction false} TerminatedInjective(a: seq<string>, b: seq<string>)
    requires (forall f <- a :: NulFree(f)) && (forall f <- b :: NulFree(f))
    requires Terminated(a) == Terminated(b)
    ensures a == b
  {
    if a != [] {
      FirstField(a[0], b[0], Terminated(a[1..]), Terminated(b[1..]));
      TerminatedInjective(a[1..], b[1..]);
      assert a == [a[0]] + a[1..] && b == [b[0]] + b[1..];
    }
  }

  lemma {:induction false} AllFieldsInjective(a: seq<Entry>, b: seq<Entry>)
    requires AllFields(a) == AllFields(b)
    ensures a == b
  {
    if a != [] {
      var fa, fb := Fields(a[0]), Fields(b[0]);
      assert AllFields(a)[..5] == fa && AllFields(b)[..5] == fb;
      assert AllFields(a)[5..] == AllFields(a[1..]) && AllFields(b)[5..] == AllFields(b[1..]);
      assert fa[0] == fb[0] && fa[1] == fb[1] && fa[2] == fb[2] && fa[3] == fb[3] && fa[4] == fb[4];
      AllFieldsInjective(a[1..], b[1..]);
      assert a == [a[0]] + a[1..] && b == [b[0]] + b[1..];
    }
  }

  lemma {:induction false} AllFieldsNulFree(entries: seq<Entry>)
    requires NulFreeEntries(entries)
    ensures forall f <- AllFields(entries) :: NulFree(f)
  {
    if entries != [] {
      assert entries[0] in entries && forall e <- entries[1..] :: e in entries;
      AllFieldsNulFree(entries[1..]);
      assert AllFields(entries) == Fields(entries[0]) + AllFields(entries[1..]);
    }
  }

  /** Two lists of entries with NUL-free fields have the same fingerprint only if they are the same list. */
  lemma FingerprintInjective(a: seq<Entry>, b: seq<Entry>)
    requires NulFreeEntries(a) && NulFreeEntries(b) && Fingerprint(a) == Fingerprint(b)
    ensures a == b
  {
    AllFieldsNulFree(a);
    AllFieldsNulFree(b);
    TerminatedInjective(AllFields(a), AllFields(b));
    AllFieldsInjective(a, b);
  }

  lemma {:induction false} IntegrationsSubset(entries: seq<Entry>)
    ensures forall e :: e in Integrations(entries) <==> e in entries && e.category == INTEGRATION
  {
    if entries != [] {
      IntegrationsSubset(entries[..|entries| - 1]);
      assert entries == entries[..|entries| - 1] + [entries[|entries| - 1]];
    }
  }
}
