/**
 * The discovery result records (internal/discovery/resources.go, network.go,
 * types.go). They are plain values without behaviour. Go's float32/float64
 * fields are carried as `real` and only copied, never computed with; Go's int
 * and int64 fields are `int`.
 */
module Records {
  import opened Base

  type Float32 = real
  type Float64 = real

  datatype Compartment = Compartment(
    id: string, name: string, description: string, parentId: string, path: string)

  datatype AvailabilityDomain = AvailabilityDomain(
    id: string, name: string, faultDomains: seq<string>)

  datatype Shape = Shape(
    name: string, processorDesc: string, ocpus: Float32, memoryGb: Float32,
    isFlexible: bool, maxOcpus: Float32, maxMemoryGb: Float32,
    availableLimit: int, availableInAds: seq<string>)

  datatype Image = Image(
    id: string, displayName: string, os: string, osVersion: string,
    timeCreated: string, sizeGb: Float64, compatibleShapes: seq<string>)

  datatype Subnet = Subnet(
    id: string, displayName: string, cidrBlock: string, availabilityDomain: string,
    isPublic: bool, dnsLabel: string)

  datatype SecurityRule = SecurityRule(
    protocol: string, source: string, destination: string,
    portMin: int, portMax: int, description: string)

  datatype SecurityList = SecurityList(
    id: string, displayName: string, ingressRules: seq<SecurityRule>, egressRules: seq<SecurityRule>)

  datatype RouteRule = RouteRule(
    destination: string, destinationType: string, networkEntityId: string, description: string)

  datatype RouteTable = RouteTable(id: string, displayName: string, routes: seq<RouteRule>)

  datatype InternetGateway = InternetGateway(id: string, displayName: string, isEnabled: bool)

  datatype NatGateway = NatGateway(
    id: string, displayName: string, publicIp: string, blockTraffic: bool)

  /** A VCN; the two gateway pointers of the Go struct are `Option`s. */
  datatype Vcn = Vcn(
    id: string, displayName: string, cidrBlock: string, compartmentId: string, dnsLabel: string,
    subnets: seq<Subnet>, securityLists: seq<SecurityList>, routeTables: seq<RouteTable>,
    internetGateway: Option<InternetGateway>, natGateway: Option<NatGateway>)

  datatype BlockVolume = BlockVolume(
    id: string, displayName: string, sizeGb: int, availabilityDomain: string,
    vpusPerGb: int, isHydrated: bool)

  datatype ServiceLimit = ServiceLimit(
    serviceName: string, limitName: string, value: int,
    availableAmt: int, usedAmt: int, scope: string)

  datatype TenancyInfo = TenancyInfo(id: string, name: string, homeRegion: string, description: string)
}
