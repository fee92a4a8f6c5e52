/**
 Address prefixes as the Go package `net/netip` implements them: a prefix keeps its address unmasked,
 `Masked` clears the host bits, and `Contains` and `Overlaps` shift the host bits away and compare the rest.
 RFC 4632 section 3.1 and RFC 4291 section 2.3 give the notation.
 */
module Prefixes {

  datatype Family = V4 | V6

  /** An address of either family as an unsigned number. */
  datatype Addr = Addr(family: Family, value: nat)

  datatype RawPrefix = Prefix(family: Family, addr: nat, bits: nat)

  /** What `netip.ParsePrefix` can return. */
  type Prefix = p: RawPrefix | ValidPrefix(p) witness Prefix(V4, 0, 0)

  function Pow2(n: nat): (r: nat)
    ensures r > 0
  {
    if n == 0 then 1 else 2 * Pow2(n - 1)
  }

  function ShiftRight(x: nat, n: nat): nat {
    if n == 0 then x else ShiftRight(x / 2, n - 1)
  }

  function ShiftLeft(x: nat, n: nat): nat {
    if n == 0 then x else ShiftLeft(x, n - 1) * 2
  }

  function Width(f: Family): nat {
    if f == V4 then 32 else 128
  }

  predicate ValidAddr(a: Addr) {
    a.value < Pow2(Width(a.family))
  }

  predicate ValidPrefix(p: RawPrefix) {
    p.bits <= Width(p.family) && p.addr < Pow2(Width(p.family))
  }

  /** The leading `bits` bits of an address. */
  function Leading(f: Family, x: nat, bits: nat): nat
    requires bits <= Width(f)
  {
    ShiftRight(x, Width(f) - bits)
  }

  /** `x` with its low `n` bits cleared. */
  function ClearLow(x: nat, n: nat): (r: nat)
    ensures r <= x
  {
    ShiftBackBelow(x, n);
    ShiftLeft(ShiftRight(x, n), n)
  }

  function Masked(p: Prefix): Prefix {
    p.(addr := ClearLow(p.addr, Width(p.family) - p.bits))
  }

  predicate IsHost(p: Prefix) {
    p.bits == Width(p.family)
  }

  predicate Contains(p: Prefix, a: Addr) {
    p.family == a.family && Leading(p.family, p.addr, p.bits) == Leading(p.family, a.value, p.bits)
  }

  predicate Overlaps(p: Prefix, q: Prefix) {
    && p.family == q.family
    && var bits := if p.bits <= q.bits then p.bits else q.bits;
       Leading(p.family, p.addr, bits) == Leading(p.family, q.addr, bits)
  }

  function AddrOf(p: Prefix): Addr {
    Addr(p.family, p.addr)
  }

  // ---------------------------------------------------------------- shifts

  lemma {:induction false} ShiftRightOne(x: nat, n: nat)
    ensures ShiftRight(x / 2, n) == ShiftRight(x, n) / 2
  {
    if n != 0 {
      ShiftRightOne(x / 2, n - 1);
    }
  }

  lemma {:induction false} ShiftBackBelow(x: nat, n: nat)
    ensures ShiftLeft(ShiftRight(x, n), n) <= x
  {
    if n != 0 {
      ShiftBackBelow(x / 2, n - 1);
    }
  }

  lemma {:induction false} ShiftLeftRight(x: nat, n: nat)
    ensures ShiftRight(ShiftLeft(x, n), n) == x
  {
    if n != 0 {
      ShiftLeftRight(x, n - 1);
    }
  }

  lemma {:induction false} ShiftRightAdd(x: nat, m: nat, n: nat)
    ensures ShiftRight(x, m + n) == ShiftRight(ShiftRight(x, m), n)
  {
    if m != 0 {
      ShiftRightAdd(x / 2, m - 1, n);
    }
  }

  lemma {:induction false} ShiftAllAway(x: nat, n: nat)
    requires x < Pow2(n)
    ensures ShiftRight(x, n) == 0
  {
    if n != 0 {
      ShiftAllAway(x / 2, n - 1);
    }
  }

  /** Fewer leading bits are read off more leading bits. */
  lemma FewerLeading(f: Family, x: nat, coarse: nat, fine: nat)
    requires coarse <= fine <= Width(f)
    ensures Leading(f, x, coarse) == ShiftRight(Leading(f, x, fine), fine - coarse)
  {
    ShiftRightAdd(x, Width(f) - fine, fine - coarse);
  }

  // ---------------------------------------------------------------- the prefix algebra

  /** Masking changes no membership, and masking twice is masking once. */
  lemma MaskedSound(p: Prefix)
    ensures Masked(p).bits == p.bits && Masked(p).family == p.family
    ensures Masked(Masked(p)) == Masked(p)
    ensures forall a: Addr :: Contains(Masked(p), a) <==> Contains(p, a)
  {
    ShiftLeftRight(ShiftRight(p.addr, Width(p.family) - p.bits), Width(p.family) - p.bits);
  }

  /** Two prefixes overlap exactly when some address lies in both. */
  lemma OverlapsIffShared(p: Prefix, q: Prefix)
    ensures Overlaps(p, q) <==> exists a: Addr :: ValidAddr(a) && Contains(p, a) && Contains(q, a)
  {
    if Overlaps(p, q) {
      var inner := if p.bits <= q.bits then q else p;
      assert ValidAddr(AddrOf(inner)) && Contains(p, AddrOf(inner)) && Contains(q, AddrOf(inner));
    }
    forall a: Addr | Contains(p, a) && Contains(q, a)
      ensures Overlaps(p, q)
    {
      SharedMeansOverlap(p, q, a);
    }
  }

  lemma SharedMeansOverlap(p: Prefix, q: Prefix, a: Addr)
    requires Contains(p, a) && Contains(q, a)
    ensures Overlaps(p, q)
  {
    var f := p.family;
    if p.bits <= q.bits {
      FewerLeading(f, q.addr, p.bits, q.bits);
      FewerLeading(f, a.value, p.bits, q.bits);
    } else {
      FewerLeading(f, p.addr, q.bits, p.bits);
      FewerLeading(f, a.value, q.bits, p.bits);
    }
  }

  /** Nested or disjoint: of two overlapping prefixes the one with fewer bits holds the other. */
  lemma OverlapMeansNested(outer: Prefix, inner: Prefix, a: Addr)
    requires Overlaps(outer, inner) && outer.bits <= inner.bits
    requires Contains(inner, a)
    ensures Contains(outer, a)
  {
    FewerLeading(outer.family, inner.addr, outer.bits, inner.bits);
    FewerLeading(outer.family, a.value, outer.bits, inner.bits);
  }

  lemma OverlapsSymmetric(p: Prefix, q: Prefix)
    ensures Overlaps(p, q) == Overlaps(q, p)
  {
  }

  /** A zero-bit prefix takes in its whole family. */
  lemma DefaultRouteContainsFamily(p: Prefix, a: Addr)
    requires p.bits == 0 && ValidAddr(a) && a.family == p.family
    ensures Contains(p, a)
  {
    ShiftAllAway(p.addr, Width(p.family));
    ShiftAllAway(a.value, Width(p.family));
  }
}
