/**
 * The cloud SDK as the discovery code sees it (internal/discovery/discover.go).
 * The SDK clients themselves are not part of this model: every listing call is
 * an input. A paginated listing is the finite chain of responses the service
 * returns to the drain loop (each page either carries a next-page token or is
 * the last, or the call fails); a call whose continuation token the code
 * ignores is a single `Outcome`. Optional SDK pointers are `Option`s; the
 * pointers the code dereferences without a nil check are plain fields.
 */
module Sdk {
  import opened Base
  import opened Seqs

  /** `safeString`: the pointee, or "" for a nil pointer. */
  function SafeString(s: Option<string>): (r: string)
    ensures s == None ==> r == ""
    ensures s != None ==> r == s.value
  {
    match s
    case None => ""
    case Some(v) => v
  }

  /**
   * The responses of one paginated listing: a page that has a next-page token
   * is followed by the answer to the request that carries the token.
   */
  datatype Pages<T> =
    | LastPage(items: seq<T>)
    | NextPage(items: seq<T>, rest: Pages<T>)
    | PageError(error: Error)

  /** The outcome `o` with `acc` in front of its items. */
  function Prepend<T>(acc: seq<T>, o: Outcome<seq<T>>): Outcome<seq<T>>
  {
    match o
    case Ok(v) => Ok(acc + v)
    case Err(e) => Err(e)
  }

  /**
   * A drain loop over `p` that maps every item with `f`: the pages' mapped
   * items in order, or the first error with no items.
   */
  function Listed<T, U>(p: Pages<T>, f: T -> U): Outcome<seq<U>>
  {
    match p
    case LastPage(items) => Ok(Map(items, f))
    case NextPage(items, rest) => Prepend(Map(items, f), Listed(rest, f))
    case PageError(e) => Err(e)
  }

  /** All items of the pages before the first failure (or of all pages). */
  function Collected<T>(p: Pages<T>): seq<T>
  {
    match p
    case LastPage(items) => items
    case NextPage(items, rest) => items + Collected(rest)
    case PageError(_) => []
  }

  /** The chain ends in a failed call. */
  predicate EndsInError<T>(p: Pages<T>)
  {
    match p
    case LastPage(_) => false
    case NextPage(_, rest) => EndsInError(rest)
    case PageError(_) => true
  }

  /** The error of the failed call that ends the chain. */
  function FinalError<T>(p: Pages<T>): Error
    requires EndsInError(p)
  {
    match p
    case NextPage(_, rest) => FinalError(rest)
    case PageError(e) => e
  }

  lemma PrependNothing<T>(o: Outcome<seq<T>>)
    ensures Prepend([], o) == o
  {
    if o.Ok? {
      assert [] + o.value == o.value;
    }
  }

  lemma PrependAppend<T>(a: seq<T>, b: seq<T>, o: Outcome<seq<T>>)
    ensures Prepend(a, Prepend(b, o)) == Prepend(a + b, o)
  {
    if o.Ok? {
      AppendAssoc(a, b, o.value);
    }
  }

  /**
   * A listing succeeds exactly when no call failed, and then holds every page's
   * mapped items in page order; when a call failed it holds that call's error
   * and nothing from the earlier pages.
   */
  lemma {:induction false} ListedIsCollected<T, U>(p: Pages<T>, f: T -> U)
    ensures !EndsInError(p) ==> Listed(p, f) == Ok(Map(Collected(p), f))
    ensures EndsInError(p) ==> Listed(p, f) == Err(FinalError(p))
  {
    match p
    case LastPage(items) =>
    case NextPage(items, rest) =>
      ListedIsCollected(rest, f);
      MapAppend(items, Collected(rest), f);
    case PageError(e) =>
  }

  /** One page of the drain loop: its items go after those of the earlier pages. */
  lemma ListedNextPage<T, U>(acc: seq<U>, items: seq<T>, rest: Pages<T>, f: T -> U)
    ensures Prepend(acc, Listed(NextPage(items, rest), f)) == Prepend(acc + Map(items, f), Listed(rest, f))
  {
    PrependAppend(acc, Map(items, f), Listed(rest, f));
  }

  /** One item of a loop that appends `f` of every item. */
  lemma MapStep<T, U>(s: seq<T>, i: nat, f: T -> U)
    requires i < |s|
    ensures Map(s[..i + 1], f) == Map(s[..i], f) + [f(s[i])]
  {
    assert s[..i + 1] == s[..i] + [s[i]];
    MapAppend(s[..i], [s[i]], f);
  }

  // ---------------------------------------------------------------------------
  // Response items, with the fields the discovery code reads.

  datatype CompartmentItem = CompartmentItem(
    id: string, name: string, description: Option<string>, compartmentId: Option<string>)

  datatype AvailabilityDomainItem = AvailabilityDomainItem(id: Option<string>, name: string)

  datatype FaultDomainItem = FaultDomainItem(name: string)

  datatype OcpuOptions = OcpuOptions(max: Option<real>)

  datatype MemoryOptions = MemoryOptions(maxInGbs: Option<real>)

  datatype ShapeItem = ShapeItem(
    shape: string, processorDescription: Option<string>,
    ocpus: Option<real>, memoryInGbs: Option<real>,
    ocpuOptions: Option<OcpuOptions>, memoryOptions: Option<MemoryOptions>)

  /** An image; `timeCreated` holds the text the SDK's time value renders to. */
  datatype ImageItem = ImageItem(
    id: string, displayName: Option<string>, operatingSystem: Option<string>,
    operatingSystemVersion: Option<string>, timeCreated: Option<string>, sizeInMbs: Option<int>)

  datatype VcnItem = VcnItem(
    id: string, displayName: Option<string>, cidrBlock: Option<string>,
    compartmentId: string, dnsLabel: Option<string>)

  datatype SubnetItem = SubnetItem(
    id: string, displayName: Option<string>, cidrBlock: Option<string>,
    availabilityDomain: Option<string>, prohibitPublicIpOnVnic: bool, dnsLabel: Option<string>)

  datatype PortRange = PortRange(min: int, max: int)

  datatype PortOptions = PortOptions(destinationPortRange: Option<PortRange>)

  datatype IngressRuleItem = IngressRuleItem(
    protocol: Option<string>, source: Option<string>,
    tcpOptions: Option<PortOptions>, udpOptions: Option<PortOptions>, description: Option<string>)

  datatype EgressRuleItem = EgressRuleItem(
    protocol: Option<string>, destination: Option<string>,
    tcpOptions: Option<PortOptions>, udpOptions: Option<PortOptions>, description: Option<string>)

  datatype SecurityListItem = SecurityListItem(
    id: string, displayName: Option<string>,
    ingressSecurityRules: seq<IngressRuleItem>, egressSecurityRules: seq<EgressRuleItem>)

  datatype RouteRuleItem = RouteRuleItem(
    destination: Option<string>, destinationType: string,
    networkEntityId: Option<string>, description: Option<string>)

  datatype RouteTableItem = RouteTableItem(id: string, displayName: Option<string>, routeRules: seq<RouteRuleItem>)

  datatype InternetGatewayItem = InternetGatewayItem(id: string, displayName: Option<string>, isEnabled: bool)

  datatype NatGatewayItem = NatGatewayItem(
    id: string, displayName: Option<string>, natIp: Option<string>, blockTraffic: bool)

  datatype VolumeItem = VolumeItem(
    id: string, displayName: Option<string>, availabilityDomain: Option<string>,
    sizeInGbs: Option<int>, vpusPerGb: Option<int>, isHydrated: Option<bool>)

  datatype LimitValueItem = LimitValueItem(
    name: Option<string>, scopeType: string, availabilityDomain: Option<string>, value: Option<int>)

  datatype TenancyItem = TenancyItem(
    id: string, name: Option<string>, description: Option<string>, homeRegionKey: Option<string>)
}
