/**
 Which addresses the blocked ranges of internal/operator/controller/network/cidr give, octet by octet and
 group by group, and what that means for the metadata address of the clouds.
 */
module BlockedRanges {
  import opened Cidr
  import opened Options
  import opened NetworkPolicy

  /** The blocked IPv4 addresses in dotted notation. */
  predicate BlockedOctets(a: nat, b: nat, c: nat, d: nat) {
    || a == 10
    || (a == 100 && 64 <= b <= 127)
    || (a == 169 && b == 254)
    || (a == 172 && 16 <= b <= 31)
    || (a == 192 && b == 168)
    || (a == 198 && 18 <= b <= 19)
    || (a == 34 && b == 118 && 224 <= c <= 239)
    || 224 <= a
    || (a == 192 && b == 0 && (c == 0 || c == 2))
    || (a == 192 && b == 88 && c == 99)
    || (a == 198 && b == 51 && c == 100)
    || (a == 203 && b == 0 && c == 113)
    || (a == 168 && b == 63 && c == 129 && d == 16)
  }

  /** The blocked IPv6 addresses by their four leading groups; no blocked range looks at the others. */
  predicate BlockedGroups(a: nat, b: nat, c: nat, d: nat) {
    || 0xfc00 <= a <= 0xfdff
    || 0xfe80 <= a <= 0xfebf
    || 0xff00 <= a
    || (a == 0x2600 && b == 0x2d00 && c == 0 && 2 <= d <= 4)
    || (a == 0x64 && b == 0xff9b && c == 1)
    || (a == 0x100 && b == 0 && c == 0 && d <= 1)
    || (a == 0x2001 && (b == 0 || (b == 2 && c == 0) || b == 0xdb8))
    || a == 0x2002
    || (a == 0x3fff && b <= 0xfff)
    || a == 0x5f00
  }

  lemma SmallPowers()
    ensures Pow2(0) == 1 && Pow2(4) == 0x10 && Pow2(8) == 0x100 && Pow2(12) == 0x1000 && Pow2(16) == 0x1_0000
    ensures Pow2(17) == 0x2_0000 && Pow2(20) == 0x10_0000 && Pow2(22) == 0x40_0000 && Pow2(24) == 0x100_0000
    ensures Pow2(28) == 0x1000_0000
  {
    Pow2Of8();
    hide Pow2;
    Pow2Steps(0);
    Pow2Steps(1);
    Pow2Steps(2);
    Pow2Steps(3);
    Pow2Sum(4, 8);
    Pow2Sum(8, 8);
    Pow2Steps(16);
    Pow2Sum(4, 16);
    Pow2Steps(20);
    Pow2Steps(21);
    Pow2Sum(8, 16);
    Pow2Sum(4, 24);
  }

  lemma InPrefix(p: Prefix, x: Addr, size: nat, q: nat)
    requires ValidPrefix(p) && p.addr.family == x.family && Size(p) == size && p.addr.value == q * size
    ensures Contains(p, x) <==> q * size <= x.value < q * size + size
  {
    hide ValidPrefix, Size;
    DivRange(q * size, size, q);
    DivRange(x.value, size, q);
  }

  /** An address is blocked exactly when one of the fifteen prefixes contains it. */
  lemma AnyOfV4(x: Addr)
    requires x.family.V4?
    ensures forall i :: 0 <= i < 15 ==> ValidPrefix(BLOCKED_V4[i])
    ensures IsBlocked(x) <==> exists i :: 0 <= i < 15 && Contains(BLOCKED_V4[i], x)
  {
    hide Contains, ValidPrefix, Octets;
    TableV4IsValid();
    if IsBlocked(x) {
      var b :| b in Blocked(V4) && Contains(b, x);
      var i :| 0 <= i < 15 && BLOCKED_V4[i] == b;
    }
    if i :| 0 <= i < 15 && Contains(BLOCKED_V4[i], x) { assert BLOCKED_V4[i] in Blocked(V4); }
  }

  lemma FirstV4(a: nat, b: nat, c: nat, d: nat)
    requires a < 0x100 && b < 0x100 && c < 0x100 && d < 0x100
    requires forall i :: 0 <= i < 15 ==> ValidPrefix(BLOCKED_V4[i])
    ensures Contains(BLOCKED_V4[0], Octets(a, b, c, d)) <==> a == 10
    ensures Contains(BLOCKED_V4[1], Octets(a, b, c, d)) <==> a == 100 && 64 <= b <= 127
    ensures Contains(BLOCKED_V4[2], Octets(a, b, c, d)) <==> a == 169 && b == 254
    ensures Contains(BLOCKED_V4[3], Octets(a, b, c, d)) <==> a == 172 && 16 <= b <= 31
    ensures Contains(BLOCKED_V4[4], Octets(a, b, c, d)) <==> a == 192 && b == 168
  {
    hide Contains, ValidPrefix, Pow2;
    SmallPowers();
    var x := Octets(a, b, c, d);
    InPrefix(BLOCKED_V4[0], x, 0x1000000, 0xa);
    InPrefix(BLOCKED_V4[1], x, 0x400000, 0x191);
    InPrefix(BLOCKED_V4[2], x, 0x10000, 0xa9fe);
    InPrefix(BLOCKED_V4[3], x, 0x100000, 0xac1);
    InPrefix(BLOCKED_V4[4], x, 0x10000, 0xc0a8);
  }

  lemma SecondV4(a: nat, b: nat, c: nat, d: nat)
    requires a < 0x100 && b < 0x100 && c < 0x100 && d < 0x100
    requires forall i :: 0 <= i < 15 ==> ValidPrefix(BLOCKED_V4[i])
    ensures Contains(BLOCKED_V4[5], Octets(a, b, c, d)) <==> a == 198 && 18 <= b <= 19
    ensures Contains(BLOCKED_V4[6], Octets(a, b, c, d)) <==> 240 <= a
    ensures Contains(BLOCKED_V4[7], Octets(a, b, c, d)) <==> a == 34 && b == 118 && 224 <= c <= 239
    ensures Contains(BLOCKED_V4[8], Octets(a, b, c, d)) <==> 224 <= a <= 239
    ensures Contains(BLOCKED_V4[9], Octets(a, b, c, d)) <==> a == 192 && b == 0 && c == 0
  {
    hide Contains, ValidPrefix, Pow2;
    SmallPowers();
    var x := Octets(a, b, c, d);
    InPrefix(BLOCKED_V4[5], x, 0x20000, 0x6309);
    InPrefix(BLOCKED_V4[6], x, 0x10000000, 0xf);
    InPrefix(BLOCKED_V4[7], x, 0x1000, 0x2276e);
    InPrefix(BLOCKED_V4[8], x, 0x10000000, 0xe);
    InPrefix(BLOCKED_V4[9], x, 0x100, 0xc00000);
  }

  lemma ThirdV4(a: nat, b: nat, c: nat, d: nat)
    requires a < 0x100 && b < 0x100 && c < 0x100 && d < 0x100
    requires forall i :: 0 <= i < 15 ==> ValidPrefix(BLOCKED_V4[i])
    ensures Contains(BLOCKED_V4[10], Octets(a, b, c, d)) <==> a == 192 && b == 0 && c == 2
    ensures Contains(BLOCKED_V4[11], Octets(a, b, c, d)) <==> a == 192 && b == 88 && c == 99
    ensures Contains(BLOCKED_V4[12], Octets(a, b, c, d)) <==> a == 198 && b == 51 && c == 100
    ensures Contains(BLOCKED_V4[13], Octets(a, b, c, d)) <==> a == 203 && b == 0 && c == 113
    ensures Contains(BLOCKED_V4[14], Octets(a, b, c, d)) <==> a == 168 && b == 63 && c == 129 && d == 16
  {
    hide Contains, ValidPrefix, Pow2;
    SmallPowers();
    var x := Octets(a, b, c, d);
    InPrefix(BLOCKED_V4[10], x, 0x100, 0xc00002);
    InPrefix(BLOCKED_V4[11], x, 0x100, 0xc05863);
    InPrefix(BLOCKED_V4[12], x, 0x100, 0xc63364);
    InPrefix(BLOCKED_V4[13], x, 0x100, 0xcb0071);
    InPrefix(BLOCKED_V4[14], x, 0x1, 0xa83f8110);
  }

  /** Exactly these IPv4 addresses are blocked. */
  lemma BlockedV4(a: nat, b: nat, c: nat, d: nat)
    requires a < 0x100 && b < 0x100 && c < 0x100 && d < 0x100
    ensures IsBlocked(Octets(a, b, c, d)) <==> BlockedOctets(a, b, c, d)
  {
    hide Contains, ValidPrefix, Octets, IsBlocked;
    var x := Octets(a, b, c, d);
    AnyOfV4(x);
    FirstV4(a, b, c, d);
    SecondV4(a, b, c, d);
    ThirdV4(a, b, c, d);
    if BlockedOctets(a, b, c, d) {
      assert exists i :: 0 <= i < 15 && Contains(BLOCKED_V4[i], x) by {
        assert || Contains(BLOCKED_V4[0], x) || Contains(BLOCKED_V4[1], x) || Contains(BLOCKED_V4[2], x)
               || Contains(BLOCKED_V4[3], x) || Contains(BLOCKED_V4[4], x) || Contains(BLOCKED_V4[5], x)
               || Contains(BLOCKED_V4[6], x) || Contains(BLOCKED_V4[7], x) || Contains(BLOCKED_V4[8], x)
               || Contains(BLOCKED_V4[9], x) || Contains(BLOCKED_V4[10], x) || Contains(BLOCKED_V4[11], x)
               || Contains(BLOCKED_V4[12], x) || Contains(BLOCKED_V4[13], x) || Contains(BLOCKED_V4[14], x);
      }
    }
  }

  /** The number the four leading groups give. */
  function Leading(a: nat, b: nat, c: nat, d: nat): nat {
    ((a * 0x1_0000 + b) * 0x1_0000 + c) * 0x1_0000 + d
  }

  lemma LargePowers()
    ensures Pow2(64) == 0x1_0000_0000_0000_0000 && Pow2(65) == 2 * Pow2(64) && Pow2(80) == 0x1_0000 * Pow2(64)
    ensures Pow2(96) == 0x1_0000_0000 * Pow2(64) && Pow2(108) == 0x1000_0000_0000 * Pow2(64)
    ensures Pow2(112) == 0x1_0000_0000_0000 * Pow2(64) && Pow2(118) == 0x40_0000_0000_0000 * Pow2(64)
    ensures Pow2(120) == 0x100_0000_0000_0000 * Pow2(64) && Pow2(121) == 0x200_0000_0000_0000 * Pow2(64)
  {
    hide Pow2;
    SmallPowers();
    Pow2Sum(16, 16);
    Pow2Sum(32, 12);
    Pow2Sum(32, 16);
    Pow2Sum(32, 22);
    Pow2Sum(32, 24);
    Pow2Steps(56);
    Pow2Sum(32, 32);
    Pow2Steps(64);
    Pow2Sum(64, 16);
    Pow2Sum(64, 32);
    Pow2Sum(64, 44);
    Pow2Sum(64, 48);
    Pow2Sum(64, 54);
    Pow2Sum(64, 56);
    Pow2Sum(64, 57);
  }

  lemma InGroups(p: Prefix, x: Addr, groups: nat, low: nat, size: nat, q: nat)
    requires ValidPrefix(p) && p.addr.family == x.family && Size(p) == size * 0x1_0000_0000_0000_0000 && size > 0
    requires p.addr.value == (q * size) * 0x1_0000_0000_0000_0000
    requires x.value == groups * 0x1_0000_0000_0000_0000 + low && low < 0x1_0000_0000_0000_0000
    ensures Contains(p, x) <==> q * size <= groups < q * size + size
  {
    hide ValidPrefix, Size;
    Scaled(x.value, 0x1_0000_0000_0000_0000, size, q, groups, low);
    Scaled(p.addr.value, 0x1_0000_0000_0000_0000, size, q, q * size, 0);
  }

  lemma Scaled(x: nat, unit: nat, size: nat, q: nat, groups: nat, low: nat)
    requires x == groups * unit + low && low < unit && size > 0
    ensures size * unit > 0 && (x / (size * unit) == q <==> q * size <= groups < q * size + size)
  {
    DivDiv(x, unit, size);
    DivRange(x, unit, groups);
    DivRange(groups, size, q);
    assert size * unit == unit * size;
  }

  /** An address is blocked exactly when one of the fourteen prefixes contains it. */
  lemma AnyOfV6(x: Addr)
    requires x.family.V6?
    ensures forall i :: 0 <= i < 14 ==> ValidPrefix(BLOCKED_V6[i])
    ensures IsBlocked(x) <==> exists i :: 0 <= i < 14 && Contains(BLOCKED_V6[i], x)
  {
    hide Contains, ValidPrefix, Groups;
    TableV6IsValid();
    if IsBlocked(x) {
      var b :| b in Blocked(V6) && Contains(b, x);
      var i :| 0 <= i < 14 && BLOCKED_V6[i] == b;
    }
    if i :| 0 <= i < 14 && Contains(BLOCKED_V6[i], x) { assert BLOCKED_V6[i] in Blocked(V6); }
  }

  lemma FirstV6(a: nat, b: nat, c: nat, d: nat, x: Addr, low: nat)
    requires a < 0x1_0000 && b < 0x1_0000 && c < 0x1_0000 && d < 0x1_0000 && low < 0x1_0000_0000_0000_0000
    requires x == Addr(V6, Leading(a, b, c, d) * 0x1_0000_0000_0000_0000 + low)
    requires forall i :: 0 <= i < 14 ==> ValidPrefix(BLOCKED_V6[i])
    ensures Contains(BLOCKED_V6[0], x) <==> 0xfc00 <= a <= 0xfdff
    ensures Contains(BLOCKED_V6[1], x) <==> 0xfe80 <= a <= 0xfebf
    ensures Contains(BLOCKED_V6[2], x) <==> a == 0x2600 && b == 0x2d00 && c == 0 && d == 4
  {
    hide Contains, ValidPrefix, Pow2;
    LargePowers();
    var groups := Leading(a, b, c, d);
    InGroups(BLOCKED_V6[0], x, groups, low, 0x200000000000000, 0x7e);
    InGroups(BLOCKED_V6[1], x, groups, low, 0x40000000000000, 0x3fa);
    InGroups(BLOCKED_V6[2], x, groups, low, 0x1, 0x26002d0000000004);
  }

  lemma SecondV6(a: nat, b: nat, c: nat, d: nat, x: Addr, low: nat)
    requires a < 0x1_0000 && b < 0x1_0000 && c < 0x1_0000 && d < 0x1_0000 && low < 0x1_0000_0000_0000_0000
    requires x == Addr(V6, Leading(a, b, c, d) * 0x1_0000_0000_0000_0000 + low)
    requires forall i :: 0 <= i < 14 ==> ValidPrefix(BLOCKED_V6[i])
    ensures Contains(BLOCKED_V6[3], x) <==> 0xff00 <= a
    ensures Contains(BLOCKED_V6[4], x) <==> a == 0x64 && b == 0xff9b && c == 1
    ensures Contains(BLOCKED_V6[5], x) <==> a == 0x100 && b == 0 && c == 0 && d == 0
  {
    hide Contains, ValidPrefix, Pow2;
    LargePowers();
    var groups := Leading(a, b, c, d);
    InGroups(BLOCKED_V6[3], x, groups, low, 0x100000000000000, 0xff);
    InGroups(BLOCKED_V6[4], x, groups, low, 0x10000, 0x64ff9b0001);
    InGroups(BLOCKED_V6[5], x, groups, low, 0x1, 0x100000000000000);
  }

  lemma ThirdV6(a: nat, b: nat, c: nat, d: nat, x: Addr, low: nat)
    requires a < 0x1_0000 && b < 0x1_0000 && c < 0x1_0000 && d < 0x1_0000 && low < 0x1_0000_0000_0000_0000
    requires x == Addr(V6, Leading(a, b, c, d) * 0x1_0000_0000_0000_0000 + low)
    requires forall i :: 0 <= i < 14 ==> ValidPrefix(BLOCKED_V6[i])
    ensures Contains(BLOCKED_V6[6], x) <==> a == 0x100 && b == 0 && c == 0 && d == 1
    ensures Contains(BLOCKED_V6[7], x) <==> a == 0x2001 && b == 0
    ensures Contains(BLOCKED_V6[8], x) <==> a == 0x2001 && b == 2 && c == 0
  {
    hide Contains, ValidPrefix, Pow2;
    LargePowers();
    var groups := Leading(a, b, c, d);
    InGroups(BLOCKED_V6[6], x, groups, low, 0x1, 0x100000000000001);
    InGroups(BLOCKED_V6[7], x, groups, low, 0x100000000, 0x20010000);
    InGroups(BLOCKED_V6[8], x, groups, low, 0x10000, 0x200100020000);
  }

  lemma FourthV6(a: nat, b: nat, c: nat, d: nat, x: Addr, low: nat)
    requires a < 0x1_0000 && b < 0x1_0000 && c < 0x1_0000 && d < 0x1_0000 && low < 0x1_0000_0000_0000_0000
    requires x == Addr(V6, Leading(a, b, c, d) * 0x1_0000_0000_0000_0000 + low)
    requires forall i :: 0 <= i < 14 ==> ValidPrefix(BLOCKED_V6[i])
    ensures Contains(BLOCKED_V6[9], x) <==> a == 0x2001 && b == 0xdb8
    ensures Contains(BLOCKED_V6[10], x) <==> a == 0x2002
    ensures Contains(BLOCKED_V6[11], x) <==> a == 0x3fff && b <= 0xfff
  {
    hide Contains, ValidPrefix, Pow2;
    LargePowers();
    var groups := Leading(a, b, c, d);
    InGroups(BLOCKED_V6[9], x, groups, low, 0x100000000, 0x20010db8);
    InGroups(BLOCKED_V6[10], x, groups, low, 0x1000000000000, 0x2002);
    InGroups(BLOCKED_V6[11], x, groups, low, 0x100000000000, 0x3fff0);
  }

  lemma FifthV6(a: nat, b: nat, c: nat, d: nat, x: Addr, low: nat)
    requires a < 0x1_0000 && b < 0x1_0000 && c < 0x1_0000 && d < 0x1_0000 && low < 0x1_0000_0000_0000_0000
    requires x == Addr(V6, Leading(a, b, c, d) * 0x1_0000_0000_0000_0000 + low)
    requires forall i :: 0 <= i < 14 ==> ValidPrefix(BLOCKED_V6[i])
    ensures Contains(BLOCKED_V6[12], x) <==> a == 0x5f00
    ensures Contains(BLOCKED_V6[13], x) <==> a == 0x2600 && b == 0x2d00 && c == 0 && 2 <= d <= 3
  {
    hide Contains, ValidPrefix, Pow2;
    LargePowers();
    var groups := Leading(a, b, c, d);
    InGroups(BLOCKED_V6[12], x, groups, low, 0x1000000000000, 0x5f00);
    InGroups(BLOCKED_V6[13], x, groups, low, 0x2, 0x1300168000000001);
  }

  /** Exactly these IPv6 addresses are blocked. */
  lemma BlockedV6(a: nat, b: nat, c: nat, d: nat, low: nat)
    requires a < 0x1_0000 && b < 0x1_0000 && c < 0x1_0000 && d < 0x1_0000 && low < 0x1_0000_0000_0000_0000
    ensures IsBlocked(Addr(V6, Leading(a, b, c, d) * 0x1_0000_0000_0000_0000 + low)) <==> BlockedGroups(a, b, c, d)
  {
    hide Contains, ValidPrefix, Groups, IsBlocked, Leading;
    var x := Addr(V6, Leading(a, b, c, d) * 0x1_0000_0000_0000_0000 + low);
    AnyOfV6(x);
    FirstV6(a, b, c, d, x, low);
    SecondV6(a, b, c, d, x, low);
    ThirdV6(a, b, c, d, x, low);
    FourthV6(a, b, c, d, x, low);
    FifthV6(a, b, c, d, x, low);
    if BlockedGroups(a, b, c, d) {
      assert exists i :: 0 <= i < 14 && Contains(BLOCKED_V6[i], x) by {
        assert || Contains(BLOCKED_V6[0], x) || Contains(BLOCKED_V6[1], x) || Contains(BLOCKED_V6[2], x)
               || Contains(BLOCKED_V6[3], x) || Contains(BLOCKED_V6[4], x) || Contains(BLOCKED_V6[5], x)
               || Contains(BLOCKED_V6[6], x) || Contains(BLOCKED_V6[7], x) || Contains(BLOCKED_V6[8], x)
               || Contains(BLOCKED_V6[9], x) || Contains(BLOCKED_V6[10], x) || Contains(BLOCKED_V6[11], x)
               || Contains(BLOCKED_V6[12], x) || Contains(BLOCKED_V6[13], x);
      }
    }
  }

  /** The metadata address of the clouds is blocked; the default nameservers are not. */
  lemma MetadataIsBlocked()
    ensures IsBlocked(Octets(169, 254, 169, 254))
    ensures !IsBlocked(Octets(8, 8, 8, 8)) && !IsBlocked(Octets(1, 1, 1, 1))
  {
    hide IsBlocked, Octets;
    BlockedV4(169, 254, 169, 254);
    BlockedV4(8, 8, 8, 8);
    BlockedV4(1, 1, 1, 1);
  }

  /** Whatever is configured, a sandbox reaches the metadata address as a nameserver it was given, or not at all. */
  lemma MetadataIsOutOfReach(network: Network, protocol: Protocol, port: nat)
    requires Allowed(network, Octets(169, 254, 169, 254), protocol, port)
    ensures port == 53 && Parsed(Octets(169, 254, 169, 254)) in network.nameservers
  {
    hide IsBlocked, Pow2;
    MetadataIsBlocked();
    assert Octets(169, 254, 169, 254).value == 0xa9fe_a9fe;
    hide Octets;
    if network.nameservers == [] { DefaultNameservers(network, Octets(169, 254, 169, 254)); }
  }
}
