/**
 IP prefixes as netip models them, the ranges sandboxes must not reach, and the exception
 list of internal/operator/controller/network/cidr.
 */
module Cidr {
  datatype Family = V4 | V6

  function Width(f: Family): nat {
    if f.V4? then 32 else 128
  }

  function Pow2(n: nat): (p: nat)
    ensures p > 0
  {
    if n == 0 then 1 else 2 * Pow2(n - 1)
  }

  datatype Addr = Addr(family: Family, value: nat)

  predicate ValidAddr(a: Addr) {
    a.value < Pow2(Width(a.family))
  }

  /** An IPv4 address mapped into IPv6: ::ffff:0:0/96. */
  predicate Is4In6(a: Addr) {
    a.family.V6? && a.value / Pow2(32) == 0xFFFF
  }

  datatype Prefix = Prefix(addr: Addr, bits: nat)

  predicate ValidPrefix(p: Prefix) {
    ValidAddr(p.addr) && p.bits <= Width(p.addr.family)
  }

  /** How many addresses the prefix covers. */
  function Size(p: Prefix): (n: nat)
    requires ValidPrefix(p)
    ensures n > 0
  {
    Pow2(Width(p.addr.family) - p.bits)
  }

  function Masked(p: Prefix): (m: Prefix)
    requires ValidPrefix(p)
    ensures ValidPrefix(m)
  {
    hide Pow2;
    p.(addr := p.addr.(value := p.addr.value - p.addr.value % Size(p)))
  }

  /** Prefix.Contains: the leading bits agree. */
  predicate Contains(p: Prefix, a: Addr)
    requires ValidPrefix(p)
  {
    p.addr.family == a.family && p.addr.value / Size(p) == a.value / Size(p)
  }

  /** The addresses of a prefix are one aligned range (section 3.1 of RFC 4632, section 2.3 of RFC 4291). */
  predicate InRange(p: Prefix, a: Addr)
    requires ValidPrefix(p)
  {
    p.addr.family == a.family && Masked(p).addr.value <= a.value < Masked(p).addr.value + Size(p)
  }

  /** Every address of inner is an address of outer. */
  ghost predicate Within(inner: Prefix, outer: Prefix)
    requires ValidPrefix(inner) && ValidPrefix(outer)
  {
    forall a: Addr :: Contains(inner, a) ==> Contains(outer, a)
  }

  // ----- Arithmetic of aligned ranges -----------------------------------------------------

  lemma DivRange(x: nat, m: nat, q: nat)
    requires m > 0
    ensures x / m == q <==> q * m <= x < q * m + m
  {
    var r := x / m;
    assert r * m <= x < r * m + m;
    if q * m <= x < q * m + m {
      if q < r { MulMono(q + 1, r, m); }
      if r < q { MulMono(r + 1, q, m); }
    }
  }

  lemma MulMono(a: nat, b: nat, m: nat)
    requires a <= b
    ensures a * m <= b * m
  {}

  lemma DivDiv(x: nat, m: nat, c: nat)
    requires m > 0 && c > 0
    ensures m * c > 0 && x / (m * c) == (x / m) / c
  {
    var q := (x / m) / c;
    DivRange(x / m, c, q);
    DivRange(x, m, x / m);
    MulMono(q * c, x / m, m);
    MulMono(x / m + 1, q * c + c, m);
    assert (q * c) * m == q * (m * c);
    assert (q * c + c) * m == q * (m * c) + m * c;
    assert m * c > 0;
    DivRange(x, m * c, q);
  }

  lemma {:induction false} Pow2Sum(a: nat, b: nat)
    ensures Pow2(a + b) == Pow2(a) * Pow2(b)
  {
    if b == 0 {
      Pow2Steps(0);
    } else {
      Pow2Sum(a, b - 1);
      Pow2Steps(b - 1);
      Pow2Steps(a + b - 1);
      hide Pow2;
      DoubleFactor(Pow2(a), Pow2(b - 1));
    }
  }

  lemma Pow2Steps(n: nat)
    ensures Pow2(n + 1) == 2 * Pow2(n) && Pow2(0) == 1
  {}

  lemma DoubleFactor(x: nat, y: nat)
    ensures x * (2 * y) == 2 * (x * y)
  {}

  /** Clearing the remainder by m. */
  lemma RoundDown(x: nat, m: nat)
    requires m > 0
    ensures x - x % m == x / m * m && (x - x % m) / m == x / m
  {
    DivRange(x / m * m, m, x / m);
  }

  lemma ContainsIffInRange(p: Prefix, a: Addr)
    requires ValidPrefix(p)
    ensures Contains(p, a) <==> InRange(p, a)
  {
    hide Size, ValidPrefix;
    RoundDown(p.addr.value, Size(p));
    DivRange(a.value, Size(p), p.addr.value / Size(p));
  }

  /** Masking clears host bits only. */
  lemma MaskedKeepsRange(p: Prefix, a: Addr)
    requires ValidPrefix(p)
    ensures Contains(Masked(p), a) <==> Contains(p, a)
  {
    SameSize(p);
    hide Size, ValidPrefix;
    RoundDown(p.addr.value, Size(p));
  }

  lemma SameSize(p: Prefix)
    requires ValidPrefix(p)
    ensures Size(Masked(p)) == Size(p)
  {}

  /** A shorter prefix contains all addresses of a longer one or none of them. */
  lemma NestedOrDisjoint(p: Prefix, q: Prefix, a: Addr)
    requires ValidPrefix(p) && ValidPrefix(q) && p.bits <= q.bits && Contains(q, a)
    ensures Contains(p, a) <==> Contains(p, q.addr)
  {
    if p.addr.family == q.addr.family {
      var c := Pow2(q.bits - p.bits);
      Pow2Sum(Width(q.addr.family) - q.bits, q.bits - p.bits);
      assert Size(p) == Size(q) * c;
      DivDiv(a.value, Size(q), c);
      DivDiv(q.addr.value, Size(q), c);
    }
  }

  // ----- prefixContains ------------------------------------------------------------------------

  predicate PrefixContains(outer: Prefix, inner: Prefix)
    requires ValidPrefix(outer) && ValidPrefix(inner)
  {
    var o, i := Masked(outer), Masked(inner);
    o.addr.family == i.addr.family && o.bits <= i.bits && Contains(o, i.addr)
  }

  /** prefixContains decides inclusion of the address sets. */
  lemma PrefixContainsIffWithin(outer: Prefix, inner: Prefix)
    requires ValidPrefix(outer) && ValidPrefix(inner)
    ensures PrefixContains(outer, inner) <==> Within(inner, outer)
  {
    OwnAddress(inner);
    if PrefixContains(outer, inner) {
      forall a: Addr | Contains(inner, a)
        ensures Contains(outer, a)
      {
        MaskedKeepsRange(outer, Masked(inner).addr);
        NestedOrDisjoint(outer, inner, a);
        NestedOrDisjoint(outer, inner, Masked(inner).addr);
      }
    }
    if Within(inner, outer) {
      MaskedKeepsRange(outer, Masked(inner).addr);
      if outer.bits > inner.bits {
        LongerCoversLess(outer, inner);
      }
    }
  }

  lemma OwnAddress(p: Prefix)
    requires ValidPrefix(p)
    ensures Contains(p, p.addr) && Contains(p, Masked(p).addr)
  {
    MaskedKeepsRange(p, p.addr);
    ContainsIffInRange(p, Masked(p).addr);
  }

  /** A longer prefix misses an address of a shorter one. */
  lemma LongerCoversLess(longer: Prefix, shorter: Prefix)
    requires ValidPrefix(longer) && ValidPrefix(shorter) && longer.bits > shorter.bits
    ensures !Within(shorter, longer)
  {
    hide Size, ValidPrefix, Pow2;
    var first := Masked(shorter).addr;
    OwnAddress(shorter);
    if longer.addr.family == shorter.addr.family {
      var second := first.(value := first.value + Size(longer));
      HalfFits(longer, shorter);
      ContainsIffInRange(shorter, second);
      NextQuotient(first.value, Size(longer));
      assert Contains(shorter, first) && Contains(shorter, second);
    } else {
      assert Contains(shorter, first) && !Contains(longer, first);
    }
  }

  lemma NextQuotient(x: nat, m: nat)
    requires m > 0
    ensures (x + m) / m == x / m + 1
  {
    DivRange(x, m, x / m);
    DivRange(x + m, m, x / m + 1);
  }

  lemma HalfFits(longer: Prefix, shorter: Prefix)
    requires ValidPrefix(longer) && ValidPrefix(shorter) && longer.bits > shorter.bits
    requires longer.addr.family == shorter.addr.family
    ensures 2 * Size(longer) <= Size(shorter)
  {
    var host, more := Width(longer.addr.family) - longer.bits, longer.bits - shorter.bits;
    Doubles(host, more);
    assert host + more == Width(shorter.addr.family) - shorter.bits;
  }

  lemma Doubles(host: nat, more: nat)
    requires more > 0
    ensures 2 * Pow2(host) <= Pow2(host + more)
    decreases more
  {
    if more > 1 {
      Doubles(host, more - 1);
    }
  }

  // ----- The blocked ranges ------------------------------------------------------------------------

  function Octets(a: nat, b: nat, c: nat, d: nat): (r: Addr)
    requires a < 0x100 && b < 0x100 && c < 0x100 && d < 0x100
    ensures r.family == V4 && ValidAddr(r)
  {
    hide Pow2;
    Pow2Values();
    Addr(V4, ((a * 0x100 + b) * 0x100 + c) * 0x100 + d)
  }

  /** An IPv6 address from its four leading 16-bit groups; the other groups are zero. */
  function Groups(a: nat, b: nat, c: nat, d: nat): (r: Addr)
    requires a < 0x1_0000 && b < 0x1_0000 && c < 0x1_0000 && d < 0x1_0000
    ensures r.family == V6 && ValidAddr(r)
  {
    hide Pow2;
    Pow2Values();
    Addr(V6, (((a * 0x1_0000 + b) * 0x1_0000 + c) * 0x1_0000 + d) * 0x1_0000_0000_0000_0000)
  }

  const BLOCKED_V4: seq<Prefix> := [
    Prefix(Octets(10, 0, 0, 0), 8),
    Prefix(Octets(100, 64, 0, 0), 10),
    Prefix(Octets(169, 254, 0, 0), 16),
    Prefix(Octets(172, 16, 0, 0), 12),
    Prefix(Octets(192, 168, 0, 0), 16),
    Prefix(Octets(198, 18, 0, 0), 15),
    Prefix(Octets(240, 0, 0, 0), 4),
    Prefix(Octets(34, 118, 224, 0), 20),
    Prefix(Octets(224, 0, 0, 0), 4),
    Prefix(Octets(192, 0, 0, 0), 24),
    Prefix(Octets(192, 0, 2, 0), 24),
    Prefix(Octets(192, 88, 99, 0), 24),
    Prefix(Octets(198, 51, 100, 0), 24),
    Prefix(Octets(203, 0, 113, 0), 24),
    Prefix(Octets(168, 63, 129, 16), 32)]

  const BLOCKED_V6: seq<Prefix> := [
    Prefix(Groups(0xfc00, 0, 0, 0), 7),
    Prefix(Groups(0xfe80, 0, 0, 0), 10),
    Prefix(Groups(0x2600, 0x2d00, 0, 4), 64),
    Prefix(Groups(0xff00, 0, 0, 0), 8),
    Prefix(Groups(0x64, 0xff9b, 1, 0), 48),
    Prefix(Groups(0x100, 0, 0, 0), 64),
    Prefix(Groups(0x100, 0, 0, 1), 64),
    Prefix(Groups(0x2001, 0, 0, 0), 32),
    Prefix(Groups(0x2001, 2, 0, 0), 48),
    Prefix(Groups(0x2001, 0xdb8, 0, 0), 32),
    Prefix(Groups(0x2002, 0, 0, 0), 16),
    Prefix(Groups(0x3fff, 0, 0, 0), 20),
    Prefix(Groups(0x5f00, 0, 0, 0), 16),
    Prefix(Groups(0x2600, 0x2d00, 0, 2), 63)]

  lemma TableV4IsValid()
    ensures forall b :: b in BLOCKED_V4 ==> ValidPrefix(b) && b.addr.family == V4
  {
    hide Octets, ValidAddr, Pow2;
  }

  lemma TableV6IsValid()
    ensures forall b :: b in BLOCKED_V6 ==> ValidPrefix(b) && b.addr.family == V6
  {
    hide Groups, ValidAddr, Pow2;
  }

  lemma Pow2Values()
    ensures Pow2(32) == 0x1_0000_0000
    ensures Pow2(128) == 0x1_0000_0000_0000_0000_0000_0000_0000_0000
  {
    hide Pow2;
    Pow2Of8();
    Pow2Sum(8, 8);
    Pow2Sum(16, 16);
    Pow2Sum(32, 32);
    Pow2Sum(64, 64);
  }

  lemma Pow2Of8()
    ensures Pow2(8) == 0x100
  {}

  function Blocked(f: Family): (ps: seq<Prefix>)
    ensures forall b :: b in ps ==> ValidPrefix(b) && b.addr.family == f
  {
    TableV4IsValid();
    TableV6IsValid();
    if f.V4? then BLOCKED_V4 else BLOCKED_V6
  }

  /** The address lies in a blocked range of its family. */
  predicate IsBlocked(a: Addr) {
    exists b :: b in Blocked(a.family) && Contains(b, a)
  }

  // ----- ComputeExcept ---------------------------------------------------------------------------------

  datatype Except = Except(ranges: seq<Prefix>) | EqualsBlocked | InsideBlocked(range: Prefix)

  /** Some blocked range covers all of the prefix. */
  ghost predicate Covered(allowed: Prefix)
    requires ValidPrefix(allowed)
  {
    exists b :: b in Blocked(allowed.addr.family) && Within(allowed, b)
  }

  /** The blocked ranges within the prefix, in the order of the table. */
  function RangesWithin(allowed: Prefix, blocked: seq<Prefix>): seq<Prefix>
    requires ValidPrefix(allowed) && forall b :: b in blocked ==> ValidPrefix(b)
  {
    if blocked == [] then []
    else
      RangesWithin(allowed, blocked[..|blocked| - 1])
      + if PrefixContains(allowed, blocked[|blocked| - 1]) then [blocked[|blocked| - 1]] else []
  }

  lemma {:induction false} RangesWithinMembers(allowed: Prefix, blocked: seq<Prefix>, b: Prefix)
    requires ValidPrefix(allowed) && forall b :: b in blocked ==> ValidPrefix(b)
    ensures b in RangesWithin(allowed, blocked) <==> b in blocked && PrefixContains(allowed, b)
    decreases |blocked|
  {
    if blocked != [] {
      RangesWithinMembers(allowed, blocked[..|blocked| - 1], b);
      assert blocked == blocked[..|blocked| - 1] + [blocked[|blocked| - 1]];
    }
  }

  /**
   ComputeExcept fails exactly when a blocked range covers the whole prefix. Otherwise an
   address of the prefix is excepted exactly when it is blocked.
   */
  method ComputeExcept(prefix: Prefix) returns (r: Except)
    requires ValidPrefix(prefix)
    ensures r.Except? <==> !Covered(prefix)
    ensures r.Except? ==> r.ranges == RangesWithin(Masked(prefix), Blocked(prefix.addr.family))
    ensures r.Except? ==> forall e :: e in r.ranges ==> ValidPrefix(e) && Within(e, prefix) && !Within(prefix, e)
    ensures r.Except? ==>
              forall a: Addr :: Contains(prefix, a) ==> (IsBlocked(a) <==> exists e :: e in r.ranges && Contains(e, a))
  {
    hide Masked, Contains, PrefixContains, Within, Blocked, ValidPrefix, IsBlocked, Covered;
    var allowed := Masked(prefix);
    SameFamily(prefix);
    var blocked := Blocked(allowed.addr.family);
    var except := [];
    for i := 0 to |blocked|
      invariant except == RangesWithin(allowed, blocked[..i])
      invariant forall j :: 0 <= j < i ==> !PrefixContains(blocked[j], allowed)
    {
      var b := blocked[i];
      if allowed == b {
        CoveredBy(prefix, b);
        return EqualsBlocked;
      }
      if PrefixContains(b, allowed) {
        CoveredBy(prefix, b);
        return InsideBlocked(b);
      }
      assert blocked[..i + 1][..i] == blocked[..i];
      if PrefixContains(allowed, b) {
        except := except + [b];
      }
    }
    assert blocked[..|blocked|] == blocked;
    NotCovered(prefix);
    ExceptsAreStrict(prefix);
    forall a: Addr | Contains(prefix, a)
      ensures IsBlocked(a) <==> exists e :: e in except && Contains(e, a)
    {
      ExceptIffBlocked(prefix, a);
    }
    return Except(except);
  }

  lemma SameFamily(prefix: Prefix)
    requires ValidPrefix(prefix)
    ensures Masked(prefix).addr.family == prefix.addr.family
  {}

  lemma CoveredBy(prefix: Prefix, b: Prefix)
    requires ValidPrefix(prefix) && b in Blocked(prefix.addr.family)
    requires Masked(prefix) == b || PrefixContains(b, Masked(prefix))
    ensures Covered(prefix)
  {
    OwnAddress(b);
    PrefixContainsIffWithin(b, b);
    SameRange(prefix, b);
  }

  /** Masking the allowed prefix changes no inclusion. */
  lemma SameRange(prefix: Prefix, b: Prefix)
    requires ValidPrefix(prefix) && ValidPrefix(b)
    ensures PrefixContains(b, Masked(prefix)) <==> Within(prefix, b)
    ensures PrefixContains(Masked(prefix), b) <==> Within(b, prefix)
  {
    PrefixContainsIffWithin(b, Masked(prefix));
    PrefixContainsIffWithin(Masked(prefix), b);
    forall a: Addr
      ensures Contains(Masked(prefix), a) <==> Contains(prefix, a)
    {
      MaskedKeepsRange(prefix, a);
    }
  }

  lemma NotCovered(prefix: Prefix)
    requires ValidPrefix(prefix)
    requires var blocked := Blocked(prefix.addr.family);
             forall j :: 0 <= j < |blocked| ==> !PrefixContains(blocked[j], Masked(prefix))
    ensures !Covered(prefix)
  {
    hide Blocked, Within, PrefixContains, ValidPrefix;
    forall b | b in Blocked(prefix.addr.family)
      ensures !Within(prefix, b)
    {
      SameRange(prefix, b);
    }
  }

  lemma ExceptsAreStrict(prefix: Prefix)
    requires ValidPrefix(prefix) && !Covered(prefix)
    ensures forall e :: e in RangesWithin(Masked(prefix), Blocked(prefix.addr.family)) ==>
              ValidPrefix(e) && Within(e, prefix) && !Within(prefix, e)
  {
    hide Blocked, Within, PrefixContains, ValidPrefix, Masked;
    SameFamily(prefix);
    forall e | e in RangesWithin(Masked(prefix), Blocked(prefix.addr.family))
      ensures ValidPrefix(e) && Within(e, prefix) && !Within(prefix, e)
    {
      RangesWithinMembers(Masked(prefix), Blocked(prefix.addr.family), e);
      SameRange(prefix, e);
    }
  }

  /** A blocked range that shares an address with the prefix lies within it. */
  lemma ExceptIffBlocked(prefix: Prefix, a: Addr)
    requires ValidPrefix(prefix) && !Covered(prefix) && Contains(prefix, a)
    ensures IsBlocked(a) <==>
              exists e ::
                e in RangesWithin(Masked(prefix), Blocked(prefix.addr.family)) && ValidPrefix(e) && Contains(e, a)
  {
    hide Blocked, PrefixContains, ValidPrefix, Masked;
    var except := RangesWithin(Masked(prefix), Blocked(prefix.addr.family));
    if IsBlocked(a) {
      var b :| b in Blocked(a.family) && Contains(b, a);
      SharedMeansNested(prefix, b, a);
      SameRange(prefix, b);
      RangesWithinMembers(Masked(prefix), Blocked(prefix.addr.family), b);
      assert b in except;
    }
    if e :| e in except && ValidPrefix(e) && Contains(e, a) {
      RangesWithinMembers(Masked(prefix), Blocked(prefix.addr.family), e);
    }
  }

  /** Two prefixes that share an address are nested. */
  lemma SharedMeansNested(p: Prefix, q: Prefix, a: Addr)
    requires ValidPrefix(p) && ValidPrefix(q) && Contains(p, a) && Contains(q, a)
    ensures Within(p, q) || Within(q, p)
  {
    if p.bits <= q.bits {
      forall x: Addr | Contains(q, x)
        ensures Contains(p, x)
      {
        NestedOrDisjoint(p, q, x);
        NestedOrDisjoint(p, q, a);
      }
    } else {
      forall x: Addr | Contains(p, x)
        ensures Contains(q, x)
      {
        NestedOrDisjoint(q, p, x);
        NestedOrDisjoint(q, p, a);
      }
    }
  }
}
