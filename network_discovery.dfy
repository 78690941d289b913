/**
 * VCN discovery (internal/discovery/discover.go): the VCNs of a compartment,
 * each with its subnets, security lists, route tables and first internet and
 * NAT gateway. The five per-VCN listings are inputs keyed by the VCN's
 * compartment and id; a failure of one of them leaves that part of the VCN
 * empty and changes nothing else, while a failure of the VCN listing itself
 * fails the whole discovery.
 */
module NetworkDiscovery {
  import opened Base
  import opened Seqs
  import opened Records
  import opened Sdk

  // ---------------------------------------------------------------------------
  // Subnets

  /** The subnet record built from one listed subnet; it is public unless public IPs are prohibited on its VNICs. */
  function SubnetOf(s: SubnetItem): Subnet
  {
    Subnet(id := s.id, displayName := SafeString(s.displayName), cidrBlock := SafeString(s.cidrBlock),
           availabilityDomain := SafeString(s.availabilityDomain), isPublic := !s.prohibitPublicIpOnVnic,
           dnsLabel := SafeString(s.dnsLabel))
  }

  function Subnets(resp: Outcome<seq<SubnetItem>>): Outcome<seq<Subnet>>
  {
    match resp
    case Err(e) => Err(e)
    case Ok(items) => Ok(Map(items, SubnetOf))
  }

  /** `discoverSubnets`: one listing call, no pagination; every subnet is converted. */
  method DiscoverSubnets(resp: Outcome<seq<SubnetItem>>) returns (r: Outcome<seq<Subnet>>)
    ensures r == Subnets(resp)
  {
    if resp.Err? {
      return Err(resp.error);
    }
    var subnets: seq<Subnet> := [];
    for i := 0 to |resp.value|
      invariant subnets == Map(resp.value[..i], SubnetOf)
    {
      var s := resp.value[i];
      MapStep(resp.value, i, SubnetOf);
      subnets := subnets + [SubnetOf(s)];
    }
    assert resp.value[..|resp.value|] == resp.value;
    return Ok(subnets);
  }

  /** One subnet per listed subnet, in order, public exactly when its VNICs may get public IPs. */
  lemma SubnetsPublicIff(resp: Outcome<seq<SubnetItem>>)
    ensures Subnets(resp).Err? <==> resp.Err?
    ensures resp.Ok? ==> |Subnets(resp).value| == |resp.value|
    ensures resp.Ok? ==> forall i :: 0 <= i < |resp.value| ==>
              && Subnets(resp).value[i].id == resp.value[i].id
              && (Subnets(resp).value[i].isPublic <==> !resp.value[i].prohibitPublicIpOnVnic)
  {
  }

  // ---------------------------------------------------------------------------
  // Security lists

  /**
   * The destination port range of a rule: the UDP range when there is one,
   * else the TCP range, else 0 to 0. The Go code assigns the TCP range first
   * and lets the UDP range overwrite it.
   */
  function RulePorts(tcp: Option<PortOptions>, udp: Option<PortOptions>): (int, int)
  {
    var ports := if tcp.Some? && tcp.value.destinationPortRange.Some?
                 then (tcp.value.destinationPortRange.value.min, tcp.value.destinationPortRange.value.max)
                 else (0, 0);
    if udp.Some? && udp.value.destinationPortRange.Some?
    then (udp.value.destinationPortRange.value.min, udp.value.destinationPortRange.value.max)
    else ports
  }

  /** An ingress rule: it has a source and no destination. */
  function IngressRuleOf(rule: IngressRuleItem): SecurityRule
  {
    var ports := RulePorts(rule.tcpOptions, rule.udpOptions);
    SecurityRule(protocol := SafeString(rule.protocol), source := SafeString(rule.source), destination := "",
                 portMin := ports.0, portMax := ports.1, description := SafeString(rule.description))
  }

  /** An egress rule: it has a destination and no source. */
  function EgressRuleOf(rule: EgressRuleItem): SecurityRule
  {
    var ports := RulePorts(rule.tcpOptions, rule.udpOptions);
    SecurityRule(protocol := SafeString(rule.protocol), source := "", destination := SafeString(rule.destination),
                 portMin := ports.0, portMax := ports.1, description := SafeString(rule.description))
  }

  function SecurityListOf(sl: SecurityListItem): SecurityList
  {
    SecurityList(id := sl.id, displayName := SafeString(sl.displayName),
                 ingressRules := Map(sl.ingressSecurityRules, IngressRuleOf),
                 egressRules := Map(sl.egressSecurityRules, EgressRuleOf))
  }

  /** The ingress-rule loop of `discoverSecurityLists`. */
  method ConvertIngressRules(rules: seq<IngressRuleItem>) returns (converted: seq<SecurityRule>)
    ensures converted == Map(rules, IngressRuleOf)
  {
    converted := [];
    for i := 0 to |rules|
      invariant converted == Map(rules[..i], IngressRuleOf)
    {
      var rule := rules[i];
      MapStep(rules, i, IngressRuleOf);
      var secRule := SecurityRule(protocol := SafeString(rule.protocol), source := SafeString(rule.source),
                                  destination := "", portMin := 0, portMax := 0, description := "");
      if rule.tcpOptions.Some? && rule.tcpOptions.value.destinationPortRange.Some? {
        secRule := secRule.(portMin := rule.tcpOptions.value.destinationPortRange.value.min,
                            portMax := rule.tcpOptions.value.destinationPortRange.value.max);
      }
      if rule.udpOptions.Some? && rule.udpOptions.value.destinationPortRange.Some? {
        secRule := secRule.(portMin := rule.udpOptions.value.destinationPortRange.value.min,
                            portMax := rule.udpOptions.value.destinationPortRange.value.max);
      }
      secRule := secRule.(description := SafeString(rule.description));
      converted := converted + [secRule];
    }
    assert rules[..|rules|] == rules;
  }

  /** The egress-rule loop of `discoverSecurityLists`. */
  method ConvertEgressRules(rules: seq<EgressRuleItem>) returns (converted: seq<SecurityRule>)
    ensures converted == Map(rules, EgressRuleOf)
  {
    converted := [];
    for i := 0 to |rules|
      invariant converted == Map(rules[..i], EgressRuleOf)
    {
      var rule := rules[i];
      MapStep(rules, i, EgressRuleOf);
      var secRule := SecurityRule(protocol := SafeString(rule.protocol), source := "",
                                  destination := SafeString(rule.destination), portMin := 0, portMax := 0,
                                  description := "");
      if rule.tcpOptions.Some? && rule.tcpOptions.value.destinationPortRange.Some? {
        secRule := secRule.(portMin := rule.tcpOptions.value.destinationPortRange.value.min,
                            portMax := rule.tcpOptions.value.destinationPortRange.value.max);
      }
      if rule.udpOptions.Some? && rule.udpOptions.value.destinationPortRange.Some? {
        secRule := secRule.(portMin := rule.udpOptions.value.destinationPortRange.value.min,
                            portMax := rule.udpOptions.value.destinationPortRange.value.max);
      }
      secRule := secRule.(description := SafeString(rule.description));
      converted := converted + [secRule];
    }
    assert rules[..|rules|] == rules;
  }

  /** `discoverSecurityLists`: drain the pages, converting every list with its ingress and egress rules. */
  method DiscoverSecurityLists(pages: Pages<SecurityListItem>) returns (r: Outcome<seq<SecurityList>>)
    ensures r == Listed(pages, SecurityListOf)
  {
    var securityLists: seq<SecurityList> := [];
    var resp := pages;
    PrependNothing(Listed(pages, SecurityListOf));
    while true
      invariant Listed(pages, SecurityListOf) == Prepend(securityLists, Listed(resp, SecurityListOf))
      decreases resp
    {
      if resp.PageError? {
        return Err(resp.error);
      }
      ghost var before := securityLists;
      for i := 0 to |resp.items|
        invariant securityLists == before + Map(resp.items[..i], SecurityListOf)
      {
        var sl := resp.items[i];
        MapStep(resp.items, i, SecurityListOf);
        AppendAssoc(before, Map(resp.items[..i], SecurityListOf), [SecurityListOf(sl)]);
        var ingress := ConvertIngressRules(sl.ingressSecurityRules);
        var egress := ConvertEgressRules(sl.egressSecurityRules);
        var secList := SecurityList(id := sl.id, displayName := SafeString(sl.displayName),
                                    ingressRules := ingress, egressRules := egress);
        securityLists := securityLists + [secList];
      }
      assert resp.items[..|resp.items|] == resp.items;
      if resp.LastPage? {
        break;
      }
      ListedNextPage(before, resp.items, resp.rest, SecurityListOf);
      resp := resp.rest;
    }
    return Ok(securityLists);
  }

  /** A UDP port range takes precedence over a TCP one; a rule without either has the range 0 to 0. */
  lemma RulePortsPrecedence(tcp: Option<PortOptions>, udp: Option<PortOptions>)
    ensures udp.Some? && udp.value.destinationPortRange.Some? ==>
              RulePorts(tcp, udp) == (udp.value.destinationPortRange.value.min, udp.value.destinationPortRange.value.max)
    ensures (udp.None? || udp.value.destinationPortRange.None?) && tcp.Some? && tcp.value.destinationPortRange.Some? ==>
              RulePorts(tcp, udp) == (tcp.value.destinationPortRange.value.min, tcp.value.destinationPortRange.value.max)
    ensures (udp.None? || udp.value.destinationPortRange.None?) && (tcp.None? || tcp.value.destinationPortRange.None?) ==>
              RulePorts(tcp, udp) == (0, 0)
  {
  }

  /**
   * Every listed security list keeps all its rules in order; ingress rules
   * carry no destination and egress rules no source.
   */
  lemma SecurityListRules(sl: SecurityListItem)
    ensures |SecurityListOf(sl).ingressRules| == |sl.ingressSecurityRules|
    ensures |SecurityListOf(sl).egressRules| == |sl.egressSecurityRules|
    ensures forall i :: 0 <= i < |sl.ingressSecurityRules| ==>
              && SecurityListOf(sl).ingressRules[i].destination == ""
              && SecurityListOf(sl).ingressRules[i].source == SafeString(sl.ingressSecurityRules[i].source)
    ensures forall i :: 0 <= i < |sl.egressSecurityRules| ==>
              && SecurityListOf(sl).egressRules[i].source == ""
              && SecurityListOf(sl).egressRules[i].destination == SafeString(sl.egressSecurityRules[i].destination)
  {
  }

  // ---------------------------------------------------------------------------
  // Route tables

  function RouteRuleOf(rule: RouteRuleItem): RouteRule
  {
    RouteRule(destination := SafeString(rule.destination), destinationType := rule.destinationType,
              networkEntityId := SafeString(rule.networkEntityId), description := SafeString(rule.description))
  }

  function RouteTableOf(rt: RouteTableItem): RouteTable
  {
    RouteTable(id := rt.id, displayName := SafeString(rt.displayName), routes := Map(rt.routeRules, RouteRuleOf))
  }

  /** The route-rule loop of `discoverRouteTables`. */
  method ConvertRouteRules(rules: seq<RouteRuleItem>) returns (routes: seq<RouteRule>)
    ensures routes == Map(rules, RouteRuleOf)
  {
    routes := [];
    for i := 0 to |rules|
      invariant routes == Map(rules[..i], RouteRuleOf)
    {
      var rule := rules[i];
      MapStep(rules, i, RouteRuleOf);
      routes := routes + [RouteRuleOf(rule)];
    }
    assert rules[..|rules|] == rules;
  }

  /** `discoverRouteTables`: drain the pages, converting every table with its rules. */
  method DiscoverRouteTables(pages: Pages<RouteTableItem>) returns (r: Outcome<seq<RouteTable>>)
    ensures r == Listed(pages, RouteTableOf)
  {
    var routeTables: seq<RouteTable> := [];
    var resp := pages;
    PrependNothing(Listed(pages, RouteTableOf));
    while true
      invariant Listed(pages, RouteTableOf) == Prepend(routeTables, Listed(resp, RouteTableOf))
      decreases resp
    {
      if resp.PageError? {
        return Err(resp.error);
      }
      ghost var before := routeTables;
      for i := 0 to |resp.items|
        invariant routeTables == before + Map(resp.items[..i], RouteTableOf)
      {
        var rt := resp.items[i];
        MapStep(resp.items, i, RouteTableOf);
        AppendAssoc(before, Map(resp.items[..i], RouteTableOf), [RouteTableOf(rt)]);
        var routes := ConvertRouteRules(rt.routeRules);
        routeTables := routeTables + [RouteTable(id := rt.id, displayName := SafeString(rt.displayName),
                                                 routes := routes)];
      }
      assert resp.items[..|resp.items|] == resp.items;
      if resp.LastPage? {
        break;
      }
      ListedNextPage(before, resp.items, resp.rest, RouteTableOf);
      resp := resp.rest;
    }
    return Ok(routeTables);
  }

  // ---------------------------------------------------------------------------
  // Gateways

  function InternetGatewayOf(g: InternetGatewayItem): InternetGateway
  {
    InternetGateway(id := g.id, displayName := SafeString(g.displayName), isEnabled := g.isEnabled)
  }

  /** `discoverInternetGateway`: the first listed gateway, none when the list is empty; a failed call is an error. */
  function DiscoverInternetGateway(resp: Outcome<seq<InternetGatewayItem>>): (r: Outcome<Option<InternetGateway>>)
    ensures r.Err? <==> resp.Err?
    ensures resp.Ok? ==> (r.value.None? <==> resp.value == [])
    ensures r.Ok? && r.value.Some? ==> r.value.value == InternetGatewayOf(resp.value[0])
  {
    match resp
    case Err(e) => Err(e)
    case Ok(items) => if |items| == 0 then Ok(None) else Ok(Some(InternetGatewayOf(items[0])))
  }

  function NatGatewayOf(g: NatGatewayItem): NatGateway
  {
    NatGateway(id := g.id, displayName := SafeString(g.displayName), publicIp := SafeString(g.natIp),
               blockTraffic := g.blockTraffic)
  }

  /** `discoverNATGateway`: the first listed NAT gateway, none when the list is empty; a failed call is an error. */
  function DiscoverNatGateway(resp: Outcome<seq<NatGatewayItem>>): (r: Outcome<Option<NatGateway>>)
    ensures r.Err? <==> resp.Err?
    ensures resp.Ok? ==> (r.value.None? <==> resp.value == [])
    ensures r.Ok? && r.value.Some? ==> r.value.value == NatGatewayOf(resp.value[0])
  {
    match resp
    case Err(e) => Err(e)
    case Ok(items) => if |items| == 0 then Ok(None) else Ok(Some(NatGatewayOf(items[0])))
  }

  // ---------------------------------------------------------------------------
  // VCNs

  /** The five per-VCN listings, each keyed by the VCN's compartment id and VCN id. */
  datatype VcnQueries = VcnQueries(
    subnets: (string, string) -> Outcome<seq<SubnetItem>>,
    securityLists: (string, string) -> Pages<SecurityListItem>,
    routeTables: (string, string) -> Pages<RouteTableItem>,
    internetGateways: (string, string) -> Outcome<seq<InternetGatewayItem>>,
    natGateways: (string, string) -> Outcome<seq<NatGatewayItem>>)

  /**
   * The VCN record built from one listed VCN: each part comes from its own
   * listing, and a part whose listing fails is left empty.
   */
  function VcnOf(q: VcnQueries): VcnItem -> Vcn
  {
    (v: VcnItem) =>
      Vcn(id := v.id, displayName := SafeString(v.displayName), cidrBlock := SafeString(v.cidrBlock),
          compartmentId := v.compartmentId, dnsLabel := SafeString(v.dnsLabel),
          subnets := OrElse(Subnets(q.subnets(v.compartmentId, v.id)), []),
          securityLists := OrElse(Listed(q.securityLists(v.compartmentId, v.id), SecurityListOf), []),
          routeTables := OrElse(Listed(q.routeTables(v.compartmentId, v.id), RouteTableOf), []),
          internetGateway := OrElse(DiscoverInternetGateway(q.internetGateways(v.compartmentId, v.id)), None),
          natGateway := OrElse(DiscoverNatGateway(q.natGateways(v.compartmentId, v.id)), None))
  }

  /** One VCN with its parts, as the body of the `discoverVCNs` item loop builds it. */
  method DiscoverVcn(v: VcnItem, q: VcnQueries) returns (vcn: Vcn)
    ensures vcn == VcnOf(q)(v)
  {
    vcn := Vcn(id := v.id, displayName := SafeString(v.displayName), cidrBlock := SafeString(v.cidrBlock),
               compartmentId := v.compartmentId, dnsLabel := SafeString(v.dnsLabel),
               subnets := [], securityLists := [], routeTables := [], internetGateway := None, natGateway := None);
    var subnets := DiscoverSubnets(q.subnets(v.compartmentId, v.id));
    if subnets.Ok? {
      vcn := vcn.(subnets := subnets.value);
    }
    var secLists := DiscoverSecurityLists(q.securityLists(v.compartmentId, v.id));
    if secLists.Ok? {
      vcn := vcn.(securityLists := secLists.value);
    }
    var routeTables := DiscoverRouteTables(q.routeTables(v.compartmentId, v.id));
    if routeTables.Ok? {
      vcn := vcn.(routeTables := routeTables.value);
    }
    var igw := DiscoverInternetGateway(q.internetGateways(v.compartmentId, v.id));
    if igw.Ok? {
      vcn := vcn.(internetGateway := igw.value);
    }
    var natGateway := DiscoverNatGateway(q.natGateways(v.compartmentId, v.id));
    if natGateway.Ok? {
      vcn := vcn.(natGateway := natGateway.value);
    }
  }

  /** `discoverVCNs`: drain the VCN pages, completing every VCN with its parts. */
  method DiscoverVcns(pages: Pages<VcnItem>, q: VcnQueries) returns (r: Outcome<seq<Vcn>>)
    ensures r == Listed(pages, VcnOf(q))
  {
    var vcns: seq<Vcn> := [];
    var resp := pages;
    PrependNothing(Listed(pages, VcnOf(q)));
    while true
      invariant Listed(pages, VcnOf(q)) == Prepend(vcns, Listed(resp, VcnOf(q)))
      decreases resp
    {
      if resp.PageError? {
        return Err(resp.error);
      }
      ghost var before := vcns;
      for i := 0 to |resp.items|
        invariant vcns == before + Map(resp.items[..i], VcnOf(q))
      {
        var v := resp.items[i];
        MapStep(resp.items, i, VcnOf(q));
        AppendAssoc(before, Map(resp.items[..i], VcnOf(q)), [VcnOf(q)(v)]);
        var vcn := DiscoverVcn(v, q);
        vcns := vcns + [vcn];
      }
      assert resp.items[..|resp.items|] == resp.items;
      if resp.LastPage? {
        break;
      }
      ListedNextPage(before, resp.items, resp.rest, VcnOf(q));
      resp := resp.rest;
    }
    return Ok(vcns);
  }

  /**
   * Only the VCN listing can fail the discovery; when it succeeds there is one
   * VCN per listed VCN, in listing order, with the listed id and compartment.
   */
  lemma VcnsListing(pages: Pages<VcnItem>, q: VcnQueries)
    ensures Listed(pages, VcnOf(q)).Err? <==> EndsInError(pages)
    ensures !EndsInError(pages) ==>
              && |Listed(pages, VcnOf(q)).value| == |Collected(pages)|
              && forall i :: 0 <= i < |Collected(pages)| ==>
                   && Listed(pages, VcnOf(q)).value[i].id == Collected(pages)[i].id
                   && Listed(pages, VcnOf(q)).value[i].compartmentId == Collected(pages)[i].compartmentId
  {
    ListedIsCollected(pages, VcnOf(q));
  }

  /**
   * A failed part listing leaves exactly that part empty: the subnets when
   * their call fails, the security lists or route tables when any of their
   * pages fails, a gateway when its call fails, and a gateway is also absent
   * when none is listed. A successful listing gives every item it returned.
   */
  lemma VcnPartsDegrade(q: VcnQueries, v: VcnItem)
    ensures var vcn, c := VcnOf(q)(v), v.compartmentId;
            && (q.subnets(c, v.id).Err? ==> vcn.subnets == [])
            && (q.subnets(c, v.id).Ok? ==> vcn.subnets == Map(q.subnets(c, v.id).value, SubnetOf))
            && (EndsInError(q.securityLists(c, v.id)) ==> vcn.securityLists == [])
            && (!EndsInError(q.securityLists(c, v.id)) ==>
                  vcn.securityLists == Map(Collected(q.securityLists(c, v.id)), SecurityListOf))
            && (EndsInError(q.routeTables(c, v.id)) ==> vcn.routeTables == [])
            && (!EndsInError(q.routeTables(c, v.id)) ==>
                  vcn.routeTables == Map(Collected(q.routeTables(c, v.id)), RouteTableOf))
            && (vcn.internetGateway.None? <==>
                  q.internetGateways(c, v.id).Err? || q.internetGateways(c, v.id).value == [])
            && (vcn.natGateway.None? <==> q.natGateways(c, v.id).Err? || q.natGateways(c, v.id).value == [])
  {
    var c := v.compartmentId;
    ListedIsCollected(q.securityLists(c, v.id), SecurityListOf);
    ListedIsCollected(q.routeTables(c, v.id), RouteTableOf);
  }

  /**
   * The parts of a VCN are independent: replacing one listing changes that
   * part of the VCN and nothing else.
   */
  lemma VcnSubnetsIndependent(q: VcnQueries, v: VcnItem, subnets: (string, string) -> Outcome<seq<SubnetItem>>)
    ensures VcnOf(q.(subnets := subnets))(v)
         == VcnOf(q)(v).(subnets := OrElse(Subnets(subnets(v.compartmentId, v.id)), []))
  {
  }
}
