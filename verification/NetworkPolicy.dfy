/**
 The custom NetworkPolicy of a sandbox (internal/operator/controller/network/builder.go)
 and what it permits: set subtraction of the blocked ranges, plus DNS to the nameservers.
 */
module NetworkPolicy {
  import opened Cidr
  import opened Options

  /** A string as netip parses it. */
  datatype Text<+T> = Malformed | Parsed(value: T)

  datatype Network = Network(
    allowInternetEgress: Option<bool>,
    allowIPv6Egress: Option<bool>,
    allowClusterDNS: Option<bool>,
    allowedEgressCIDRs: seq<Text<Prefix>>,
    nameservers: seq<Text<Addr>>)

  const DEFAULT_PUBLIC_NAMESERVERS: seq<Text<Addr>> := [Parsed(Octets(8, 8, 8, 8)), Parsed(Octets(1, 1, 1, 1))]

  predicate IsTrue(b: Option<bool>) {
    b == Some(true)
  }

  /** netip hands out valid prefixes and addresses only. */
  predicate WellTyped(network: Network) {
    && (forall t :: t in network.allowedEgressCIDRs && t.Parsed? ==> ValidPrefix(t.value))
    && (forall t :: t in network.nameservers && t.Parsed? ==> ValidAddr(t.value))
  }

  function EffectiveNameservers(network: Network): seq<Text<Addr>> {
    if |network.nameservers| > 0 then network.nameservers
    else if !IsTrue(network.allowClusterDNS) &&
            (|network.allowedEgressCIDRs| > 0 || IsTrue(network.allowInternetEgress))
    then DEFAULT_PUBLIC_NAMESERVERS
    else []
  }

  // ----- Kubernetes NetworkPolicies ---------------------------------------------------------

  datatype Protocol = TCP | UDP | SCTP

  datatype PolicyPort = PolicyPort(protocol: Protocol, port: nat)

  datatype IPBlock = IPBlock(cidr: Prefix, except: seq<Prefix>)

  datatype Rule = Rule(to: seq<IPBlock>, ports: seq<PolicyPort>)

  datatype Policy = Policy(instance: string, egress: seq<Rule>)

  predicate ValidBlock(block: IPBlock) {
    ValidPrefix(block.cidr) && forall e :: e in block.except ==> ValidPrefix(e)
  }

  predicate ValidRule(rule: Rule) {
    forall block :: block in rule.to ==> ValidBlock(block)
  }

  predicate InBlock(block: IPBlock, a: Addr)
    requires ValidBlock(block)
  {
    Contains(block.cidr, a) && forall e :: e in block.except ==> !Contains(e, a)
  }

  /** A rule without peers matches every destination, one without ports every port. */
  predicate RulePermits(rule: Rule, a: Addr, protocol: Protocol, port: nat)
    requires ValidRule(rule)
  {
    && (rule.to == [] || exists block :: block in rule.to && InBlock(block, a))
    && (rule.ports == [] || PolicyPort(protocol, port) in rule.ports)
  }

  predicate Permits(rules: seq<Rule>, a: Addr, protocol: Protocol, port: nat)
    requires forall rule :: rule in rules ==> ValidRule(rule)
  {
    exists rule :: rule in rules && RulePermits(rule, a, protocol, port)
  }

  // ----- What the network configuration asks for ----------------------------------------------

  /** ParsePrefix accepts the text; IPv4-mapped addresses are rejected. */
  predicate CidrOk(t: Text<Prefix>) {
    t.Parsed? && !Is4In6(t.value.addr)
  }

  predicate NameserverOk(t: Text<Addr>) {
    t.Parsed? && !Is4In6(t.value)
  }

  predicate FamilyAllowed(network: Network, f: Family) {
    f.V4? || IsTrue(network.allowIPv6Egress)
  }

  /** The prefix comes from a listed CIDR whose family is allowed. */
  predicate Accepted(network: Network, p: Prefix) {
    exists t :: t in network.allowedEgressCIDRs && Accepts(network, t, p)
  }

  predicate Accepts(network: Network, t: Text<Prefix>, p: Prefix) {
    CidrOk(t) && FamilyAllowed(network, t.value.addr.family) && ValidPrefix(t.value) && p == Masked(t.value)
  }

  predicate AcceptedNameserver(network: Network, a: Addr) {
    FamilyAllowed(network, a.family) && Parsed(a) in EffectiveNameservers(network)
  }

  /** Some listed text makes the builder fail. */
  ghost predicate Rejected(network: Network) {
    || (exists t :: t in network.allowedEgressCIDRs && !CidrOk(t))
    || (exists p :: Accepted(network, p) && ValidPrefix(p) && Covered(p))
    || (exists t :: t in EffectiveNameservers(network) && !NameserverOk(t))
  }

  /** Some CIDR or nameserver is accepted. */
  ghost predicate AsksForAnything(network: Network) {
    (exists p :: Accepted(network, p)) || (exists a :: AcceptedNameserver(network, a))
  }

  /** The meaning the policy should have. */
  predicate Allowed(network: Network, a: Addr, protocol: Protocol, port: nat) {
    || (!IsBlocked(a) && exists t :: t in network.allowedEgressCIDRs && AllowedBy(network, t, a))
    || (port == 53 && protocol in {TCP, UDP} && AcceptedNameserver(network, a))
  }

  predicate AllowedBy(network: Network, t: Text<Prefix>, a: Addr) {
    CidrOk(t) && FamilyAllowed(network, t.value.addr.family) && ValidPrefix(t.value) && Contains(t.value, a)
  }

  /** Without nameservers of its own a sandbox that may leave the cluster, and has no cluster DNS, asks these two. */
  lemma DefaultNameservers(network: Network, a: Addr)
    requires network.nameservers == []
    ensures AcceptedNameserver(network, a) <==>
              && a in {Addr(V4, 0x0808_0808), Addr(V4, 0x0101_0101)} && network.allowClusterDNS != Some(true)
              && (network.allowedEgressCIDRs != [] || network.allowInternetEgress == Some(true))
    ensures AcceptedNameserver(network, a) ==> Allowed(network, a, UDP, 53) && Allowed(network, a, TCP, 53)
  {
    hide Pow2;
    assert Octets(8, 8, 8, 8) == Addr(V4, 0x0808_0808) && Octets(1, 1, 1, 1) == Addr(V4, 0x0101_0101);
    hide Octets;
    if AcceptedNameserver(network, a) { assert Parsed(a) in DEFAULT_PUBLIC_NAMESERVERS; }
    assert Parsed(Octets(8, 8, 8, 8)) in DEFAULT_PUBLIC_NAMESERVERS;
    assert Parsed(Octets(1, 1, 1, 1)) in DEFAULT_PUBLIC_NAMESERVERS;
  }

  // ----- The rule builders -----------------------------------------------------------------------

  datatype EgressCIDR = EgressCIDR(prefix: Prefix, except: seq<Prefix>)

  /** One address as a /32 or /128. */
  function Host(a: Addr): IPBlock {
    IPBlock(Prefix(a, if a.family.V6? then 128 else 32), [])
  }

  lemma HostIsOneAddress(a: Addr, b: Addr)
    requires ValidAddr(a)
    ensures ValidBlock(Host(a))
    ensures InBlock(Host(a), b) <==> a == b
  {
    assert Size(Host(a).cidr) == Pow2(0) == 1;
  }

  method BuildDNSServerEgressRule(servers: seq<Addr>) returns (rule: Rule)
    requires forall a :: a in servers ==> ValidAddr(a)
    ensures ValidRule(rule) && |rule.to| == |servers|
    ensures servers != [] ==> forall a: Addr, protocol, port ::
              RulePermits(rule, a, protocol, port) <==> a in servers && port == 53 && protocol in {TCP, UDP}
  {
    var peers := [];
    for i := 0 to |servers|
      invariant |peers| == i
      invariant forall j :: 0 <= j < i ==> peers[j] == Host(servers[j])
    {
      peers := peers + [Host(servers[i])];
    }
    rule := Rule(peers, [PolicyPort(UDP, 53), PolicyPort(TCP, 53)]);
    forall block | block in rule.to
      ensures ValidBlock(block)
    {
      var j :| 0 <= j < |peers| && block == peers[j];
      HostIsOneAddress(servers[j], servers[j]);
    }
    if servers != [] {
      forall a: Addr, protocol, port
        ensures RulePermits(rule, a, protocol, port) <==> a in servers && port == 53 && protocol in {TCP, UDP}
      {
        HostsPermit(servers, peers, a);
      }
    }
  }

  lemma HostsPermit(servers: seq<Addr>, peers: seq<IPBlock>, a: Addr)
    requires |peers| == |servers|
    requires forall j :: 0 <= j < |peers| ==> ValidAddr(servers[j]) && peers[j] == Host(servers[j])
    requires forall block :: block in peers ==> ValidBlock(block)
    ensures a in servers <==> exists block :: block in peers && InBlock(block, a)
  {
    if a in servers {
      var j :| 0 <= j < |servers| && servers[j] == a;
      HostIsOneAddress(a, a);
      assert peers[j] in peers;
    }
    if block :| block in peers && InBlock(block, a) {
      var j :| 0 <= j < |peers| && block == peers[j];
      HostIsOneAddress(servers[j], a);
    }
  }

  predicate ValidEgress(c: EgressCIDR) {
    ValidBlock(IPBlock(c.prefix, c.except))
  }

  predicate CidrPermits(c: EgressCIDR, a: Addr)
    requires ValidEgress(c)
  {
    InBlock(IPBlock(c.prefix, c.except), a)
  }

  method BuildEgressRules(cidrs: seq<EgressCIDR>, servers: seq<Addr>) returns (rules: seq<Rule>)
    requires forall c :: c in cidrs ==> ValidEgress(c)
    requires forall a :: a in servers ==> ValidAddr(a)
    ensures forall rule :: rule in rules ==> ValidRule(rule)
    ensures forall a: Addr, protocol, port ::
              Permits(rules, a, protocol, port) <==>
              || (exists c :: c in cidrs && CidrPermits(c, a))
              || (a in servers && port == 53 && protocol in {TCP, UDP})
  {
    hide InBlock, ValidBlock, Contains;
    rules := [];
    if |servers| > 0 {
      var dns := BuildDNSServerEgressRule(servers);
      rules := [dns];
      forall a: Addr, protocol, port
        ensures Permits([dns], a, protocol, port) <==> RulePermits(dns, a, protocol, port)
      {
        assert dns in [dns];
      }
    }
    for i := 0 to |cidrs|
      invariant forall rule :: rule in rules ==> ValidRule(rule)
      invariant forall a: Addr, protocol, port ::
                  Permits(rules, a, protocol, port) <==>
                  || (exists j :: 0 <= j < i && CidrPermits(cidrs[j], a))
                  || (a in servers && port == 53 && protocol in {TCP, UDP})
    {
      var rule := Rule([IPBlock(cidrs[i].prefix, cidrs[i].except)], []);
      assert ValidEgress(cidrs[i]);
      forall a: Addr, protocol, port
        ensures Permits(rules + [rule], a, protocol, port) <==>
                  Permits(rules, a, protocol, port) || CidrPermits(cidrs[i], a)
      {
        OneMoreRule(rules, cidrs[i], a, protocol, port);
      }
      rules := rules + [rule];
    }
  }

  lemma OneMoreRule(rules: seq<Rule>, c: EgressCIDR, a: Addr, protocol: Protocol, port: nat)
    requires (forall rule :: rule in rules ==> ValidRule(rule)) && ValidEgress(c)
    ensures var rule := Rule([IPBlock(c.prefix, c.except)], []);
            && (forall r :: r in rules + [rule] ==> ValidRule(r))
            && (Permits(rules + [rule], a, protocol, port) <==> Permits(rules, a, protocol, port) || CidrPermits(c, a))
  {
    hide InBlock, ValidBlock, Contains;
    var block := IPBlock(c.prefix, c.except);
    var rule := Rule([block], []);
    assert ValidRule(rule);
    assert block in rule.to;
    assert RulePermits(rule, a, protocol, port) <==> CidrPermits(c, a);
    if RulePermits(rule, a, protocol, port) {
      assert rule in rules + [rule];
    }
    if r :| r in rules && RulePermits(r, a, protocol, port) {
      assert r in rules + [rule];
    }
  }

  // ----- The builder ---------------------------------------------------------------------------------

  datatype Built = NoPolicy | Custom(policy: Policy) | Invalid

  /** The egress entries are the accepted prefixes, each once, each with its exceptions. */
  ghost predicate Collected(network: Network, texts: seq<Text<Prefix>>, cidrs: seq<EgressCIDR>) {
    && (forall c :: c in cidrs ==>
          && ValidPrefix(c.prefix) && !Covered(c.prefix)
          && c.except == RangesWithin(Masked(c.prefix), Blocked(c.prefix.addr.family)))
    && (forall c :: c in cidrs ==> exists t :: t in texts && Accepts(network, t, c.prefix))
    && (forall t, p :: t in texts && Accepts(network, t, p) ==> exists c :: c in cidrs && c.prefix == p)
    && (forall i, j :: 0 <= i < j < |cidrs| ==> cidrs[i].prefix != cidrs[j].prefix)
  }

  /** The loop over the CIDRs; it stops at the first one that does not parse or is covered. */
  method CollectCIDRs(network: Network) returns (ok: bool, cidrs: seq<EgressCIDR>)
    requires WellTyped(network)
    ensures ok ==> Collected(network, network.allowedEgressCIDRs, cidrs)
    ensures ok ==> forall t :: t in network.allowedEgressCIDRs ==> CidrOk(t)
    ensures !ok ==> Rejected(network)
  {
    hide Covered, RangesWithin, Masked, Within, Contains, Blocked, Is4In6;
    cidrs := [];
    var seenEgress: set<Prefix> := {};
    var texts := network.allowedEgressCIDRs;
    for i := 0 to |texts|
      invariant Collected(network, texts[..i], cidrs)
      invariant forall t :: t in texts[..i] ==> CidrOk(t)
      invariant forall p :: p in seenEgress <==> exists c :: c in cidrs && c.prefix == p
    {
      var t := texts[i];
      assert t in texts;
      assert texts[..i + 1] == texts[..i] + [t];
      if !CidrOk(t) {
        return false, [];
      }
      var prefix := Masked(t.value);
      MaskKeepsFamily(t.value);
      if prefix.addr.family.V6? && !IsTrue(network.allowIPv6Egress) {
        continue;
      }
      assert Accepts(network, t, prefix);
      if prefix in seenEgress {
        continue;
      }
      seenEgress := seenEgress + {prefix};
      var except := ComputeExcept(prefix);
      if !except.Except? {
        assert Accepted(network, prefix) && ValidPrefix(prefix) && Covered(prefix);
        return false, [];
      }
      CollectOne(network, texts[..i], cidrs, t, EgressCIDR(prefix, except.ranges));
      cidrs := cidrs + [EgressCIDR(prefix, except.ranges)];
    }
    assert texts[..|texts|] == texts;
    return true, cidrs;
  }

  lemma MaskKeepsFamily(p: Prefix)
    requires ValidPrefix(p)
    ensures ValidPrefix(Masked(p)) && Masked(p).addr.family == p.addr.family
  {}

  lemma CollectOne(network: Network, texts: seq<Text<Prefix>>, cidrs: seq<EgressCIDR>, t: Text<Prefix>, c: EgressCIDR)
    requires Collected(network, texts, cidrs) && Accepts(network, t, c.prefix)
    requires ValidPrefix(c.prefix) && !Covered(c.prefix)
    requires c.except == RangesWithin(Masked(c.prefix), Blocked(c.prefix.addr.family))
    requires !exists d :: d in cidrs && d.prefix == c.prefix
    ensures Collected(network, texts + [t], cidrs + [c])
  {
    hide Covered, RangesWithin, Masked, Within, Contains, Blocked, Is4In6, CidrOk, ValidPrefix, FamilyAllowed;
    var more, all := texts + [t], cidrs + [c];
    forall d | d in all
      ensures exists u :: u in more && Accepts(network, u, d.prefix)
    {
      if d in cidrs {
        var u :| u in texts && Accepts(network, u, d.prefix);
        assert u in more;
      } else {
        assert t in more;
      }
    }
    forall u, p | u in more && Accepts(network, u, p)
      ensures exists d :: d in all && d.prefix == p
    {
      if u in texts {
        var d :| d in cidrs && d.prefix == p;
        assert d in all;
      } else {
        assert c in all && c.prefix == p;
      }
    }
  }

  method CollectNameservers(network: Network) returns (ok: bool, addrs: seq<Addr>)
    requires WellTyped(network)
    ensures ok ==> forall a :: a in addrs <==> AcceptedNameserver(network, a)
    ensures ok ==> forall t :: t in EffectiveNameservers(network) ==> NameserverOk(t)
    ensures ok ==> forall a :: a in addrs ==> ValidAddr(a)
    ensures !ok ==> Rejected(network)
  {
    hide Is4In6, Rejected;
    addrs := [];
    var texts := EffectiveNameservers(network);
    DefaultsAreValid(network);
    for i := 0 to |texts|
      invariant forall a :: a in addrs <==> FamilyAllowed(network, a.family) && Parsed(a) in texts[..i]
      invariant forall t :: t in texts[..i] ==> NameserverOk(t)
    {
      var t := texts[i];
      assert texts[..i + 1] == texts[..i] + [t];
      if !NameserverOk(t) {
        BadNameserver(network, t);
        return false, [];
      }
      if t.value.family.V6? && !IsTrue(network.allowIPv6Egress) {
        continue;
      }
      addrs := addrs + [t.value];
    }
    assert texts[..|texts|] == texts;
    return true, addrs;
  }

  lemma BadNameserver(network: Network, t: Text<Addr>)
    requires t in EffectiveNameservers(network) && !NameserverOk(t)
    ensures Rejected(network)
  {}

  lemma DefaultsAreValid(network: Network)
    requires WellTyped(network)
    ensures forall t :: t in EffectiveNameservers(network) && t.Parsed? ==> ValidAddr(t.value)
  {
    hide ValidAddr, Octets;
  }

  /**
   BuildCustomNetworkPolicy. When internet egress is allowed the static policies cover
   everything and no custom policy is built. Otherwise the builder fails exactly when the
   configuration is to be rejected; it returns no policy exactly when nothing is accepted;
   and the policy it returns permits exactly what the configuration allows.
   */
  method BuildCustomNetworkPolicy(instance: string, network: Option<Network>) returns (r: Built)
    requires network.Some? ==> WellTyped(network.value)
    ensures network.None? || IsTrue(network.value.allowInternetEgress) ==> r.NoPolicy?
    ensures network.Some? && !IsTrue(network.value.allowInternetEgress) ==>
              && (r.Invalid? <==> Rejected(network.value))
              && (r.NoPolicy? <==> !Rejected(network.value) && !AsksForAnything(network.value))
              && (r.NoPolicy? ==> forall a: Addr, protocol, port :: !Allowed(network.value, a, protocol, port))
    ensures r.Custom? ==>
              && network.Some? && r.policy.instance == instance
              && (forall rule :: rule in r.policy.egress ==> ValidRule(rule))
              && forall a: Addr, protocol, port ::
                   Permits(r.policy.egress, a, protocol, port) <==> Allowed(network.value, a, protocol, port)
  {
    if network.None? {
      return NoPolicy;
    }
    var net := network.value;
    if IsTrue(net.allowInternetEgress) {
      return NoPolicy;
    }
    hide Covered, RangesWithin, Masked, Within, Contains, Blocked, Is4In6, Rejected, Collected, AcceptedNameserver;
    hide Allowed, IsBlocked, Accepted, AsksForAnything, CidrPermits, ValidEgress;
    var ok, cidrs := CollectCIDRs(net);
    if !ok {
      return Invalid;
    }
    var okDns, servers := CollectNameservers(net);
    if !okDns {
      return Invalid;
    }
    NotRejected(net, cidrs);
    EntriesAreValid(net, cidrs);
    forall a: Addr, protocol, port
      ensures Allowed(net, a, protocol, port) <==>
              || (exists c :: c in cidrs && CidrPermits(c, a))
              || (a in servers && port == 53 && protocol in {TCP, UDP})
    {
      EntriesMeanAllowed(net, cidrs, servers, a, protocol, port);
    }
    SomethingAccepted(net, cidrs, servers);
    if |cidrs| == 0 && |servers| == 0 {
      return NoPolicy;
    }
    var egress := BuildEgressRules(cidrs, servers);
    return Custom(Policy(instance, egress));
  }

  lemma NotRejected(network: Network, cidrs: seq<EgressCIDR>)
    requires Collected(network, network.allowedEgressCIDRs, cidrs)
    requires forall t :: t in network.allowedEgressCIDRs ==> CidrOk(t)
    requires forall t :: t in EffectiveNameservers(network) ==> NameserverOk(t)
    ensures !Rejected(network)
  {
    hide Covered, Accepted, Collected, Is4In6, CidrOk, NameserverOk, EffectiveNameservers, ValidPrefix;
    forall p | Accepted(network, p)
      ensures ValidPrefix(p) && !Covered(p)
    {
      CollectedNotCovered(network, cidrs, p);
    }
  }

  lemma CollectedNotCovered(network: Network, cidrs: seq<EgressCIDR>, p: Prefix)
    requires Collected(network, network.allowedEgressCIDRs, cidrs) && Accepted(network, p)
    ensures ValidPrefix(p) && !Covered(p)
  {
    hide Covered, RangesWithin, Masked, Within, Contains, Blocked, Is4In6, CidrOk, ValidPrefix;
    var t :| t in network.allowedEgressCIDRs && Accepts(network, t, p);
    var c :| c in cidrs && c.prefix == p;
  }

  lemma EntriesAreValid(network: Network, cidrs: seq<EgressCIDR>)
    requires Collected(network, network.allowedEgressCIDRs, cidrs)
    ensures forall c :: c in cidrs ==> ValidEgress(c)
  {
    hide Covered, Within, Contains, Blocked;
    forall c | c in cidrs
      ensures ValidEgress(c)
    {
      ExceptsAreStrict(c.prefix);
    }
  }

  lemma SomethingAccepted(network: Network, cidrs: seq<EgressCIDR>, servers: seq<Addr>)
    requires Collected(network, network.allowedEgressCIDRs, cidrs)
    requires forall a :: a in servers <==> AcceptedNameserver(network, a)
    ensures AsksForAnything(network) <==> |cidrs| > 0 || |servers| > 0
  {
    hide Covered, RangesWithin, Masked, Blocked, Accepts, AcceptedNameserver;
    if |cidrs| > 0 {
      assert cidrs[0] in cidrs;
      assert Accepted(network, cidrs[0].prefix);
    }
    if |servers| > 0 {
      assert servers[0] in servers;
    }
  }

  /** One entry permits exactly the addresses of its prefix that are not blocked. */
  lemma EntryPermits(c: EgressCIDR, a: Addr)
    requires ValidPrefix(c.prefix) && !Covered(c.prefix)
    requires c.except == RangesWithin(Masked(c.prefix), Blocked(c.prefix.addr.family))
    ensures ValidEgress(c)
    ensures CidrPermits(c, a) <==> Contains(c.prefix, a) && !IsBlocked(a)
  {
    hide Covered, Within, Blocked, IsBlocked, RangesWithin;
    ExceptsAreStrict(c.prefix);
    if Contains(c.prefix, a) {
      ExceptIffBlocked(c.prefix, a);
    }
  }

  lemma EntriesMeanAllowed(
      network: Network, cidrs: seq<EgressCIDR>, servers: seq<Addr>, a: Addr, protocol: Protocol, port: nat)
    requires Collected(network, network.allowedEgressCIDRs, cidrs)
    requires forall c :: c in cidrs ==> ValidEgress(c)
    requires forall a :: a in servers <==> AcceptedNameserver(network, a)
    ensures Allowed(network, a, protocol, port) <==>
            || (exists c :: c in cidrs && CidrPermits(c, a))
            || (a in servers && port == 53 && protocol in {TCP, UDP})
  {
    hide Covered, RangesWithin, Masked, Within, Contains, Blocked, Is4In6, FamilyAllowed, AcceptedNameserver, IsBlocked;
    hide CidrPermits, ValidEgress;
    if c :| c in cidrs && CidrPermits(c, a) {
      EntryPermits(c, a);
      var t :| t in network.allowedEgressCIDRs && Accepts(network, t, c.prefix);
      MaskedKeepsRange(t.value, a);
      assert AllowedBy(network, t, a);
    }
    if !IsBlocked(a) {
      if t :| t in network.allowedEgressCIDRs && AllowedBy(network, t, a) {
        MaskedKeepsRange(t.value, a);
        assert Accepts(network, t, Masked(t.value));
        var c :| c in cidrs && c.prefix == Masked(t.value);
        EntryPermits(c, a);
      }
    }
  }
}
