# oci-tf-bootstrap in Dafny

`oci-tf-bootstrap` inspects an Oracle Cloud (OCI) tenancy and writes Terraform
configuration for what it finds. This project models the program's core in
Dafny and proves properties of the model. The core has three parts:

- **Discovery** (`internal/discovery/discover.go`) asks the OCI SDK for a
  tenancy's compartments, availability and fault domains, compute shapes,
  images, VCNs and their parts, block volumes, service limits and tenancy
  record, and converts each answer into the program's own records.
- **Always-free selection** (`internal/discovery/always_free.go`) picks the
  shapes and images that belong to OCI's always-free tier.
- **Terraform names** (`toTFName` in `internal/renderer/templates.go`) turn a
  display name into a Terraform identifier.

The SDK itself is not modelled; every call the code makes is an input to the
model:

- A **paginated listing** (`Sdk.Pages`) is the finite chain of responses the
  service returns to a drain loop. Each page is a next page, the last page,
  or a failed call.
- A **single call** is an `Outcome`. This includes a listing whose
  continuation token the code ignores.
- A **per-key listing** is a function from the key to its answer. This covers
  images per operating system, limits per service, fault domains per
  availability domain, and the five sub-queries per VCN.

A nil-able pointer is an `Option`.

## How the model is organised

- `base.dfy` (`Base`): `Option`, the `(value, error)` pair as `Outcome`, and
  `OrElse`.
- `seqs.dfy` (`Seqs`): the generic sequence operations the source performs
  with append loops and `seen` maps:
  - `Filter`, `Map`, `Dedup` ("first element of every key"), `KeysOf`,
    `Subseq` and `ConcatMap`, with their lemmas;
  - `Select` and `DedupMap`, the loop-shaped functions that specify the
    de-duplicating loops.
- `strings.dfy` (`Strings`): the parts of Go's `strings` package the core
  uses (ASCII `ToLower`, `Contains`, single-character `ReplaceAll`).
- `records.dfy` (`Records`): the program's records.
- `sdk.dfy` (`Sdk`): `safeString`, the page chain with its specification
  functions (`Listed`, `Collected`, `EndsInError`), and the SDK response items
  with the fields the code reads.
- `always_free.dfy` (`AlwaysFree`): `always_free.go`.
- `tf_names.dfy` (`TfNames`): `toTFName`.
- `discovery.dfy` (`Discovery`): compartments, availability domains, shapes,
  images, block volumes, limits and tenancy.
- `network_discovery.dfy` (`NetworkDiscovery`): VCNs, subnets, security
  lists, route tables and gateways.

Each Go function that loops is a `method` with the same loops. Its `ensures`
ties the result to a specification function of its inputs. Lemmas then state
what that function keeps, in which order, and what happens on an error.

Each Go function without a loop is a Dafny `function`. These are
`safeString`, `DefaultAlwaysFreeResources`, the image predicates, `toTFName`,
`discoverTenancy` and the first-gateway lookups (`discoverInternetGateway`,
`discoverNATGateway`).

A few of the source's nested loops are separate methods here. The model does
the same work in the same order:

- the rule loops inside `discoverSecurityLists` and `discoverRouteTables`;
- the body of the VCN loop in `discoverVCNs`;
- the per-OS body of `discoverImages`.

## Model

| member | source | states |
|---|---|---|
| AlwaysFree.AlwaysFreeShapesExactly | internal/discovery/always_free.go:8-11 | the always-free allow-set has exactly two shapes, `VM.Standard.A1.Flex` and `VM.Standard.E2.1.Micro`; neighbouring paid shapes are not in it |
| AlwaysFree.DefaultAlwaysFreeResourcesValues | internal/discovery/always_free.go:27-35 | the default free-tier limits are 4 OCPUs and 24 GB for A1.Flex, 2 E2.1.Micro instances, 200 GB block storage and 10 TB outbound data |
| AlwaysFree.FilterShapesForAlwaysFree | internal/discovery/always_free.go:38-46 | the one-pass loop returns the input shapes whose name is in the allow-set, in input order: a shape is returned iff it is an input shape with an allowed name, and the result is a subsequence of the input |
| AlwaysFree.FilterShapesIdempotent | internal/discovery/always_free.go:38-46 | filtering an already filtered list changes nothing |
| AlwaysFree.FilterImagesForAlwaysFree | internal/discovery/always_free.go:50-78 | the two passes sharing one seen-set compute the first pass (first ARM image per `OS-OSVersion` key) followed by the second (first non-ARM minimal image per key not yet seen) |
| AlwaysFree.TwoPasses | internal/discovery/always_free.go:52-75 | the second pass starts from the keys the first pass collected, and the two passes together equal that declarative result |
| AlwaysFree.ArmKeysMembers | internal/discovery/always_free.go:54-63 | the keys the first pass collects are exactly the keys of ARM input images: every ARM image's key is collected, and every collected key belongs to some ARM input image |
| AlwaysFree.ArmPassProps | internal/discovery/always_free.go:54-63 | the first pass returns ARM input images with pairwise distinct keys, covering every ARM key |
| AlwaysFree.X86PassProps | internal/discovery/always_free.go:65-75 | the second pass returns non-ARM minimal input images with distinct keys, none of them a key an ARM image has |
| AlwaysFree.AlwaysFreeImagesParts | internal/discovery/always_free.go:50-78 | the ARM images of the result are exactly the first pass, and its x86 minimal images the second |
| AlwaysFree.AlwaysFreeImagesSound | internal/discovery/always_free.go:50-78 | every returned image is an input image that is ARM, or minimal and not ARM |
| AlwaysFree.AlwaysFreeImagesKeysDistinct | internal/discovery/always_free.go:52-75 | no two returned images share an `OS-OSVersion` key |
| AlwaysFree.AlwaysFreeImagesArmFirst | internal/discovery/always_free.go:54-75 | every ARM image of the result comes before every x86 image |
| AlwaysFree.AlwaysFreeImagesOrder | internal/discovery/always_free.go:55-75 | each pass keeps input order: its part of the result is a subsequence of the input |
| AlwaysFree.AlwaysFreeImagesCoversKeys | internal/discovery/always_free.go:50-78 | the result's keys are exactly the keys of the input's ARM images and x86 minimal images |
| AlwaysFree.ArmKeyExcludesX86 | internal/discovery/always_free.go:65-75 | ARM precedence: an x86 image is never returned when an ARM input image has its key |
| AlwaysFree.FirstArmImageKept | internal/discovery/always_free.go:54-63 | the first ARM image with a key is returned, and it is the only returned image with that key |
| AlwaysFree.FirstX86MinimalImageKept | internal/discovery/always_free.go:67-75 | the first x86 minimal image with a key no ARM image has is returned, and it is the only returned image with that key |
| AlwaysFree.AlwaysFreeImagesIdempotent | internal/discovery/always_free.go:50-78 | filtering the filtered images again changes nothing |
| AlwaysFree.NoArmLetter | internal/discovery/always_free.go:81-85 | an image with no `h` or `H` in its version or display name is not ARM |
| AlwaysFree.NeitherArmNorMinimal | internal/discovery/always_free.go:81-92 | an image with no `h` or `m`, in either case, in its version or display name is neither ARM nor minimal |
| AlwaysFree.PlainUbuntuImage | internal/discovery/always_free_test.go:86-88 | the images `24.04` / `Ubuntu 24.04` and `22.04` / `Ubuntu 22.04` are neither ARM nor minimal |
| AlwaysFree.MinimalUbuntuImage | internal/discovery/always_free_test.go:104 | the image `24.04 Minimal` / `Ubuntu 24.04 Minimal` is minimal and not ARM |
| AlwaysFree.OnlyArmImageKept | internal/discovery/always_free.go:50-78 | of three images where only the middle one is ARM and none is minimal, the filter returns exactly the ARM image |
| AlwaysFree.PrioritizesArmImages | internal/discovery/always_free_test.go:84-100 | the test's three Ubuntu images filter to exactly the `24.04 Minimal aarch64` image |
| AlwaysFree.OnlyMinimalImageKept | internal/discovery/always_free.go:50-78 | a minimal x86 image followed by a plain one filters to exactly the minimal image |
| AlwaysFree.IncludesMinimalX86Images | internal/discovery/always_free_test.go:102-116 | the test's minimal and plain 24.04 images filter to exactly the minimal one |
| AlwaysFree.FirstOfSameKeyKept | internal/discovery/always_free.go:54-63 | of two ARM images with the same key, the filter returns exactly the first |
| AlwaysFree.DeduplicatesByKey | internal/discovery/always_free_test.go:117-125 | the test's `First` and `Second` images, sharing a key, filter to exactly `First` |
| AlwaysFree.ImagePredicatesIgnoreCase | internal/discovery/always_free.go:81-92 | both image predicates depend only on the lower-cased version and display name |
| AlwaysFree.NeitherFieldContains | internal/discovery/always_free.go:81-92 | a marker cannot be found in a field that lacks one of the marker's letters in both cases |
| AlwaysFree.ArmMarkerInVersion | internal/discovery/always_free_test.go:152 | `24.04 Minimal aarch64` as the version makes an image ARM |
| AlwaysFree.ArmMarkerInDisplayName | internal/discovery/always_free_test.go:153 | `Ubuntu-aarch64` as the display name makes an image ARM |
| AlwaysFree.ArmMarkerUpperCase | internal/discovery/always_free_test.go:156 | `AARCH64` matches regardless of case |
| AlwaysFree.NoArmMarker | internal/discovery/always_free_test.go:154-155 | the versions `24.04 Minimal` and `24.04` with an empty display name are not ARM |
| AlwaysFree.MinimalMarkerInVersion | internal/discovery/always_free_test.go:174 | `24.04 Minimal` as the version makes an image minimal |
| AlwaysFree.MinimalMarkerInDisplayName | internal/discovery/always_free_test.go:175 | `Ubuntu-Minimal` as the display name makes an image minimal |
| AlwaysFree.MinimalMarkerUpperCase | internal/discovery/always_free_test.go:177 | `MINIMAL` matches regardless of case |
| AlwaysFree.NoMinimalMarker | internal/discovery/always_free_test.go:176 | version `24.04` with an empty display name is not minimal |
| Strings.ToLower | internal/renderer/templates.go:13 | lower-casing keeps the length and lowers each ASCII upper-case letter, leaving every other character |
| Strings.ToLowerIdempotent | internal/discovery/always_free.go:82-83 | lower-casing twice is lower-casing once, and leaves no upper-case letter |
| Strings.ContainsIff | internal/discovery/always_free.go:84 | `Contains(s, sub)` holds iff `sub` occurs in `s` at some index |
| Strings.ReplaceAll | internal/renderer/templates.go:14-16 | replacing a character replaces every occurrence and nothing else, keeping the length |
| TfNames.ToTFNamePointwise | internal/renderer/templates.go:12-18 | the Terraform name has the input's length; each character is `_` for a space, dash or dot, else the lower-cased input character |
| TfNames.ToTFNameClean | internal/renderer/templates.go:12-18 | a Terraform name contains no space, dash, dot or upper-case letter |
| TfNames.ToTFNameKeeps | internal/renderer/templates.go:12-18 | every other character is kept, lower-cased |
| TfNames.ToTFNameIdempotent | internal/renderer/templates.go:12-18 | converting a Terraform name again changes nothing |
| TfNames.ToTFNameEqualIff | internal/renderer/templates.go:12-18 | two names convert to the same identifier iff they have the same length and agree position by position after conversion |
| TfNames.ToTFNameIs | internal/renderer/templates.go:12-18 | a string that agrees with the conversion at every position is the Terraform name |
| TfNames.ToTFNameCollides | internal/renderer/templates.go:12-18 | distinct names can collide: `my-vcn` and `My.Vcn` both become `my_vcn` |
| TfNames.ToTFNameShape | internal/renderer/renderer_test.go:176 | `VM.Standard.A1.Flex` becomes `vm_standard_a1_flex` |
| TfNames.ToTFNameOsName | internal/renderer/renderer_test.go:177 | `Canonical Ubuntu` becomes `canonical_ubuntu` |
| TfNames.ToTFNameWithDigit | internal/renderer/renderer_test.go:178 | `Oracle Linux 9` becomes `oracle_linux_9` |
| TfNames.ToTFNameDashes | internal/renderer/renderer_test.go:179 | `some-dashed-name` becomes `some_dashed_name` |
| TfNames.ToTFNameMixedCase | internal/renderer/renderer_test.go:180 | `MixedCase Name` becomes `mixedcase_name` |
| TfNames.ToTFNameRepeatedSpaces | internal/renderer/renderer_test.go:181 | `multiple   spaces` becomes `multiple___spaces`: each space becomes its own underscore |
| Sdk.SafeString | internal/discovery/discover.go:13-18 | a nil string pointer reads as the empty string, any other as its pointee |
| Sdk.ListedIsCollected | internal/discovery/discover.go:28-47 | a drained listing fails with the failing page's error iff some page fails; otherwise it is every item of every page, in page order |
| Discovery.DiscoverCompartments | internal/discovery/discover.go:20-49 | the drain loop returns every compartment of every page, converted, in order, or the first page error |
| Discovery.DiscoverFaultDomains | internal/discovery/discover.go:73-89 | the fault-domain names of one availability domain, in order, or the call's error |
| Discovery.DiscoverADs | internal/discovery/discover.go:51-71 | one record per listed availability domain, each with its fault domains; only the availability-domain call can fail |
| Discovery.AvailabilityDomainsFaultsSwallowed | internal/discovery/discover.go:62-69 | a failed fault-domain lookup leaves that domain's fault domains empty and keeps its name |
| Discovery.DiscoverShapes | internal/discovery/discover.go:91-139 | the drain loop with its seen-set returns the first listing of every shape name across all pages, or the failing page's error and nothing else |
| Discovery.ShapeOfFlexible | internal/discovery/discover.go:113-127 | a shape is flexible iff it has OCPU options; a non-flexible shape has no maximum OCPU count; availability fields start empty |
| Discovery.ShapesNamesUnique | internal/discovery/discover.go:105-109 | no two discovered shapes share a name |
| Discovery.ShapesCoverListed | internal/discovery/discover.go:99-138 | every shape name listed on the pages is discovered, unless a page fails |
| Discovery.ShapesFirstWins | internal/discovery/discover.go:105-109 | the first listing of a name is the one kept |
| Discovery.ShapesWithoutDuplicates | internal/discovery/discover.go:91-139 | when no name is listed twice, shape discovery is the plain drained listing |
| Discovery.DiscoverImages | internal/discovery/discover.go:141-191 | the four operating systems are queried in order and their images concatenated; image discovery never fails |
| Discovery.DiscoverFamilyImages | internal/discovery/discover.go:146-188 | one operating system's pages are drained while keeping the first image of every version, until the last page or a failed page |
| Discovery.FamilyImagesVersionsUnique | internal/discovery/discover.go:161-168 | within one operating system no two kept images share a version |
| Discovery.FamilyImagesFirstWins | internal/discovery/discover.go:161-168 | the first image listed with a version is kept |
| Discovery.FamilyImagesKeepEarlierPages | internal/discovery/discover.go:155-159 | for any chain of pages, a failed page keeps the images of all pages before it: the result is as if those pages' items had come on one last page, and every version listed on them has a kept image |
| Discovery.ImagesAllFamilies | internal/discovery/discover.go:142-145 | the result is Oracle Linux, Canonical Ubuntu, CentOS and Windows images, in that order |
| Discovery.DiscoverBlockVolumes | internal/discovery/discover.go:441-477 | every volume of every page, converted in order (absent numbers read as 0, an absent hydration flag as false), or the first page error |
| Discovery.DiscoverLimits | internal/discovery/discover.go:479-511 | the limits of `compute` then `compute-core`, a failed service contributing none; limit discovery never fails |
| Discovery.ServiceLimitsExactly | internal/discovery/discover.go:488-508 | a service's limits are exactly its listed values that are present and non-zero, tagged with the service and scoped to the availability domain when one is given, else to the scope type |
| Discovery.LimitsBothServices | internal/discovery/discover.go:480-484 | both compute services are queried, in order |
| Discovery.LimitsSound | internal/discovery/discover.go:494-508 | every discovered limit has a non-zero value and belongs to a compute service |
| Discovery.DiscoverTenancy | internal/discovery/discover.go:513-529 | tenancy discovery never fails: a failed lookup gives a record holding only the tenancy id, a successful one the listed fields |
| NetworkDiscovery.DiscoverSubnets | internal/discovery/discover.go:265-288 | one subnet per listed subnet, in order, or the call's error |
| NetworkDiscovery.SubnetsPublicIff | internal/discovery/discover.go:277-286 | a subnet is public iff public IPs are not prohibited on its VNICs |
| NetworkDiscovery.ConvertIngressRules | internal/discovery/discover.go:309-324 | every ingress rule is converted, in order |
| NetworkDiscovery.ConvertEgressRules | internal/discovery/discover.go:326-341 | every egress rule is converted, in order |
| NetworkDiscovery.DiscoverSecurityLists | internal/discovery/discover.go:290-352 | every security list of every page with all its rules, in order, or the first page error |
| NetworkDiscovery.RulePortsPrecedence | internal/discovery/discover.go:314-321 | a UDP port range overrides a TCP one; a rule with neither has the range 0 to 0 |
| NetworkDiscovery.SecurityListRules | internal/discovery/discover.go:309-341 | a list keeps all its rules; ingress rules carry a source and no destination, egress rules a destination and no source |
| NetworkDiscovery.ConvertRouteRules | internal/discovery/discover.go:373-381 | every route rule is converted, in order |
| NetworkDiscovery.DiscoverRouteTables | internal/discovery/discover.go:354-392 | every route table of every page with all its rules, in order, or the first page error |
| NetworkDiscovery.DiscoverInternetGateway | internal/discovery/discover.go:394-415 | the first listed internet gateway; its absence iff the list is empty; an error iff the call fails |
| NetworkDiscovery.DiscoverNatGateway | internal/discovery/discover.go:417-439 | the first listed NAT gateway; its absence iff the list is empty; an error iff the call fails |
| NetworkDiscovery.DiscoverVcn | internal/discovery/discover.go:206-256 | a VCN gets each part from that part's own listing; a part whose listing fails is left empty |
| NetworkDiscovery.DiscoverVcns | internal/discovery/discover.go:193-263 | every VCN of every page, each completed with its parts, or the first VCN-page error |
| NetworkDiscovery.VcnsListing | internal/discovery/discover.go:199-262 | only the VCN listing can fail VCN discovery; on success there is one VCN per listed VCN, in order, with its id and compartment |
| NetworkDiscovery.VcnPartsDegrade | internal/discovery/discover.go:214-253 | a failed part listing empties exactly that part; a gateway is absent iff its call fails or lists none; a successful listing gives all its items |
| NetworkDiscovery.VcnSubnetsIndependent | internal/discovery/discover.go:214-220 | replacing the subnet listing changes a VCN's subnets and nothing else |

## Where the model differs from the source's comments

- `discoverImages` says it skips an operating system when a call fails. In
  the code, the loop's `break` keeps the images that earlier pages of that
  operating system already appended. The model follows the code, and
  `Discovery.FamilyImagesKeepEarlierPages` states this behaviour.

## Left out

- The SDK clients, request building, the context and the per-call
  `Printf` warnings. Every SDK answer is an input, and a warning is modelled
  only as the error being swallowed.
- The service-side filters. These are the ACTIVE lifecycle filter and
  subtree flag for compartments, and the newest-first sort of image
  listings. The model sees the listings as the service returns them.
- Pagination tokens. Going on to the next page is modelled by the page
  chain. A service that never stops returning pages cannot be expressed,
  because a page chain is finite.
- `runner.go`, which runs the discovery calls concurrently and collects
  their results and errors.
- Floating point:
  - `float32` and `float64` fields are exact `real`s.
  - `Discovery.MibToGib` divides exactly, without rounding.
  - `TimeCreated.String()` is an input string.
- Go's Unicode-aware `strings.ToLower`. `Strings.ToLower` lowers ASCII
  letters only.
- Nil dereferences. The code dereferences some SDK pointers without a nil
  check (ids, names, the subnet's public-IP prohibition flag, gateway flags,
  port bounds). These are plain fields here, so the model never panics.
- Repeated per-key calls. A per-key listing is a function, so a repeated
  key (a VCN id listed twice, say) gets the same answer each time, while the
  Go code makes a fresh call that could answer differently. No stated
  property depends on this.
- Nil versus empty slices. A Go `nil` slice and an empty one are both `[]`.
- The `DefaultAlwaysFreeResources` OCPU and memory values are `float32` in
  Go and exact `real`s here.
- The renderer's file writing, templates, Terraform name tracker and
  `write*` functions, `main.go`, `context.go` and the Homebrew formula.
  Only `toTFName` is modelled from the renderer.
