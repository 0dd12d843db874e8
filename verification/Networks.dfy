/** Canonical form of trusted proxies: networks with their host bits cleared, as Home Assistant stores them. */
module Networks {
  /** The bits of an address, first bit first: 32 for IPv4, 128 for IPv6. An IPv4 address may also be written in its
      IPv6-mapped form. */
  type Address = seq<bool>

  predicate IsAddress(a: Address) { |a| == 32 || |a| == 128 }

  datatype Network = Network(address: Address, prefix: nat)

  predicate ValidNetwork(n: Network) { IsAddress(n.address) && n.prefix <= |n.address| }

  function Repeat(bit: bool, k: nat): (r: seq<bool>)
    ensures |r| == k && forall i :: 0 <= i < k ==> r[i] == bit
  {
    if k == 0 then [] else [bit] + Repeat(bit, k - 1)
  }

  function MappedPrefix(): seq<bool> { Repeat(false, 80) + Repeat(true, 16) }

  predicate Mapped(a: Address) { |a| == 128 && MappedPrefix() <= a }

  /** An IPv4 address in IPv6 form begins with eighty zero bits and sixteen one bits. */
  lemma MappedByBits(a: Address)
    ensures |a| == 32 ==> IsAddress(a) && !Mapped(a)
    ensures |a| == 128 ==>
              && IsAddress(a)
              && (Mapped(a) <==> (forall i :: 0 <= i < 80 ==> !a[i]) && (forall i :: 80 <= i < 96 ==> a[i]))
  {
    var m := MappedPrefix();
    assert |m| == 96 && (forall i :: 0 <= i < 80 ==> !m[i]) && (forall i :: 80 <= i < 96 ==> m[i]);
    assert |a| == 128 ==> (m <= a <==> forall i :: 0 <= i < 96 ==> a[i] == m[i]);
  }

  /** Clears all bits after the first `keep`. */
  function Masked(a: Address, keep: nat): Address
    requires keep <= |a|
  {
    a[..keep] + Repeat(false, |a| - keep)
  }

  /** A mapped address counts as IPv4, with 96 fewer prefix bits. */
  function Unmapped(n: Network): Network {
    if Mapped(n.address) && n.prefix >= 96 then Network(n.address[96..], n.prefix - 96) else n
  }

  /** Masking, then printing, as net.ParseCIDR and IPNet.String do together. */
  function Canonical(n: Network): Network
    requires ValidNetwork(n)
  {
    Unmapped(Network(Masked(n.address, n.prefix), n.prefix))
  }

  /** A bare address stands for the network that holds only it. */
  function Single(a: Address): Network {
    if Mapped(a) then Network(a[96..], 32) else Network(a, |a|)
  }

  /** The address seen as 128 bits. */
  function Wide(a: Address): seq<bool> { if |a| == 32 then MappedPrefix() + a else a }

  function WidePrefix(n: Network): nat { if |n.address| == 32 then n.prefix + 96 else n.prefix }

  /** Membership in a network, following section 3.1 of RFC 4632: the leading bits agree. */
  predicate Contains(n: Network, a: Address)
    requires ValidNetwork(n) && IsAddress(a)
  {
    Wide(a)[..WidePrefix(n)] == Wide(n.address)[..WidePrefix(n)]
  }

  /** A masked address keeps the mapped prefix only if the mask does. */
  lemma MaskedMapped(a: Address, keep: nat)
    requires keep <= |a| && Mapped(Masked(a, keep))
    ensures keep >= 96
  {
    var m := Masked(a, keep);
    assert m[95] == MappedPrefix()[95];
  }

  /** Canonical networks are their own canonical form. */
  lemma CanonicalIdempotent(n: Network)
    requires ValidNetwork(n)
    ensures ValidNetwork(Canonical(n)) && Canonical(Canonical(n)) == Canonical(n)
  {
    var m := Masked(n.address, n.prefix);
    assert Masked(m, n.prefix) == m;
    if Mapped(m) {
      MaskedMapped(n.address, n.prefix);
      assert Masked(m[96..], n.prefix - 96) == m[96..];
    }
  }

  lemma SingleIsCanonical(a: Address)
    requires IsAddress(a)
    ensures ValidNetwork(Single(a)) && Canonical(Single(a)) == Single(a) == Canonical(Network(a, |a|))
  {
    assert Masked(a, |a|) == a;
    if Mapped(a) {
      assert Masked(a[96..], 32) == a[96..];
    }
  }

  /** The canonical network has the same members. */
  lemma CanonicalMembers(n: Network, a: Address)
    requires ValidNetwork(n) && IsAddress(a)
    ensures ValidNetwork(Canonical(n)) && (Contains(Canonical(n), a) <==> Contains(n, a))
  {
    var m := Masked(n.address, n.prefix);
    assert m[..n.prefix] == n.address[..n.prefix];
    if |n.address| == 32 {
      assert Wide(m)[..n.prefix + 96] == MappedPrefix() + m[..n.prefix];
      assert Wide(n.address)[..n.prefix + 96] == MappedPrefix() + n.address[..n.prefix];
    } else if Mapped(m) {
      MaskedMapped(n.address, n.prefix);
      assert Wide(m[96..]) == m;
    }
  }

  lemma WideLength(a: Address)
    requires IsAddress(a)
    ensures |Wide(a)| == 128 && Wide(a)[..128] == Wide(a)
  {
  }

  /** A bare address is the only member of its network. */
  lemma SingleMembers(a: Address, b: Address)
    requires IsAddress(a) && IsAddress(b)
    ensures ValidNetwork(Single(a)) && (Contains(Single(a), b) <==> Wide(a) == Wide(b))
  {
    SingleIsCanonical(a);
    WideLength(a);
    WideLength(b);
    if Mapped(a) {
      assert Wide(a[96..]) == a;
    }
    assert Wide(Single(a).address) == Wide(a) && WidePrefix(Single(a)) == 128;
  }

  /** The same addresses. */
  ghost predicate SameMembers(m: Network, n: Network)
    requires ValidNetwork(m) && ValidNetwork(n)
  {
    forall a: Address :: IsAddress(a) ==> (Contains(m, a) <==> Contains(n, a))
  }

  /** Inverts one bit. */
  function Flipped(a: Address, i: nat): (r: Address)
    requires i < |a|
    ensures |r| == |a|
  {
    a[i := !a[i]]
  }

  /** The shorter prefix admits an address that the longer one leaves out. */
  lemma ShorterAdmitsMore(m: Network, n: Network)
    requires ValidNetwork(m) && ValidNetwork(n) && WidePrefix(m) < WidePrefix(n)
    ensures !SameMembers(m, n)
  {
    var w := Wide(m.address);
    var b := Flipped(w, WidePrefix(m));
    assert |w| == 128 && b[..WidePrefix(m)] == w[..WidePrefix(m)];
    assert b[..WidePrefix(n)][WidePrefix(m)] != w[..WidePrefix(n)][WidePrefix(m)];
    assert Contains(m, w) && Contains(m, b) && (!Contains(n, w) || !Contains(n, b));
  }

  /** A canonical network has no bits after its prefix. */
  lemma CanonicalBits(n: Network, i: nat)
    requires ValidNetwork(n) && Canonical(n) == n && WidePrefix(n) <= i < 128
    ensures !Wide(n.address)[i]
  {
    var m := Masked(n.address, n.prefix);
    assert Unmapped(Network(m, n.prefix)) == n;
  }

  /** Networks have the same canonical form exactly when they have the same members. */
  lemma CanonicalIffSameMembers(m: Network, n: Network)
    requires ValidNetwork(m) && ValidNetwork(n)
    ensures Canonical(m) == Canonical(n) <==> SameMembers(m, n)
  {
    var c, d := Canonical(m), Canonical(n);
    CanonicalIdempotent(m);
    CanonicalIdempotent(n);
    forall a: Address | IsAddress(a)
      ensures Contains(c, a) <==> Contains(m, a)
      ensures Contains(d, a) <==> Contains(n, a)
    {
      CanonicalMembers(m, a);
      CanonicalMembers(n, a);
    }
    if SameMembers(m, n) {
      CanonicalUnique(c, d);
    }
  }

  lemma CanonicalUnique(c: Network, d: Network)
    requires ValidNetwork(c) && ValidNetwork(d) && SameMembers(c, d)
    requires Canonical(c) == c && Canonical(d) == d
    ensures c == d
  {
    if WidePrefix(c) != WidePrefix(d) {
      if WidePrefix(c) < WidePrefix(d) { ShorterAdmitsMore(c, d); } else { ShorterAdmitsMore(d, c); }
      assert false;
    }
    var v, w, k := Wide(c.address), Wide(d.address), WidePrefix(c);
    assert Wide(v) == v && Contains(c, v) && Contains(d, v);
    forall i | 0 <= i < 128
      ensures v[i] == w[i]
    {
      if i < k {
        assert v[..k][i] == w[..k][i];
      } else {
        CanonicalBits(c, i);
        CanonicalBits(d, i);
      }
    }
    assert v == w;
    WideForm(c);
    WideForm(d);
  }

  /** The canonical form is the short one exactly for a mapped address with its mapping in the prefix. */
  lemma WideForm(c: Network)
    requires ValidNetwork(c) && Canonical(c) == c
    ensures |c.address| == 32 <==> Mapped(Wide(c.address)) && WidePrefix(c) >= 96
    ensures c.address == if |c.address| == 32 then Wide(c.address)[96..] else Wide(c.address)
  {
    var m := Masked(c.address, c.prefix);
    assert c.prefix >= 96 ==> m[..96] == c.address[..96];
    assert Unmapped(Network(m, c.prefix)) == c;
  }
}
