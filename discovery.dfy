/**
 * The per-resource discovery listings of internal/discovery/discover.go other
 * than networking: compartments, availability and fault domains, shapes,
 * images, block volumes, service limits and the tenancy record.
 *
 * Every method drives the SDK answers it is given with the loops of the Go
 * function it models and is proved equal to a specification function; the
 * lemmas state what the listing keeps, in which order, and when an error is
 * returned or swallowed.
 */
module Discovery {
  import opened Base
  import opened Seqs
  import opened Records
  import opened Sdk

  // ---------------------------------------------------------------------------
  // Compartments

  function CompartmentOf(c: CompartmentItem): Compartment
  {
    Compartment(id := c.id, name := c.name, description := SafeString(c.description),
                parentId := SafeString(c.compartmentId), path := "")
  }

  /** `discoverCompartments`: drain the pages, converting every compartment. */
  method DiscoverCompartments(pages: Pages<CompartmentItem>) returns (r: Outcome<seq<Compartment>>)
    ensures r == Listed(pages, CompartmentOf)
  {
    var compartments: seq<Compartment> := [];
    var resp := pages;
    PrependNothing(Listed(pages, CompartmentOf));
    while true
      invariant Listed(pages, CompartmentOf) == Prepend(compartments, Listed(resp, CompartmentOf))
      decreases resp
    {
      if resp.PageError? {
        return Err(resp.error);
      }
      ghost var before := compartments;
      for i := 0 to |resp.items|
        invariant compartments == before + Map(resp.items[..i], CompartmentOf)
      {
        var c := resp.items[i];
        MapStep(resp.items, i, CompartmentOf);
        AppendAssoc(before, Map(resp.items[..i], CompartmentOf), [CompartmentOf(c)]);
        compartments := compartments + [CompartmentOf(c)];
      }
      assert resp.items[..|resp.items|] == resp.items;
      if resp.LastPage? {
        break;
      }
      ListedNextPage(before, resp.items, resp.rest, CompartmentOf);
      resp := resp.rest;
    }
    return Ok(compartments);
  }

  // ---------------------------------------------------------------------------
  // Availability and fault domains

  function FaultDomainName(fd: FaultDomainItem): string { fd.name }

  /** The names of the fault domains of one availability domain, or the call's error. */
  function FaultDomainNames(resp: Outcome<seq<FaultDomainItem>>): Outcome<seq<string>>
  {
    match resp
    case Ok(items) => Ok(Map(items, FaultDomainName))
    case Err(e) => Err(e)
  }

  /** `discoverFaultDomains`: one call, every fault domain's name. */
  method DiscoverFaultDomains(resp: Outcome<seq<FaultDomainItem>>) returns (r: Outcome<seq<string>>)
    ensures r == FaultDomainNames(resp)
  {
    if resp.Err? {
      return Err(resp.error);
    }
    var fds: seq<string> := [];
    for i := 0 to |resp.value|
      invariant fds == Map(resp.value[..i], FaultDomainName)
    {
      MapStep(resp.value, i, FaultDomainName);
      fds := fds + [resp.value[i].name];
    }
    assert resp.value[..|resp.value|] == resp.value;
    return Ok(fds);
  }

  /** An availability domain with its fault domains; a failed fault-domain call leaves the list empty. */
  function AvailabilityDomainOf(faultDomainsFor: string -> Outcome<seq<FaultDomainItem>>): AvailabilityDomainItem -> AvailabilityDomain
  {
    (ad: AvailabilityDomainItem) => AvailabilityDomain(id := SafeString(ad.id), name := ad.name,
                                                   faultDomains := OrElse(FaultDomainNames(faultDomainsFor(ad.name)), []))
  }

  function AvailabilityDomains(resp: Outcome<seq<AvailabilityDomainItem>>,
                               faultDomainsFor: string -> Outcome<seq<FaultDomainItem>>): Outcome<seq<AvailabilityDomain>>
  {
    match resp
    case Ok(items) => Ok(Map(items, AvailabilityDomainOf(faultDomainsFor)))
    case Err(e) => Err(e)
  }

  /**
   * `discoverADs`: one call listing the availability domains, then one
   * fault-domain call per domain, named by the domain. `faultDomainsFor` gives
   * the SDK's answer to the fault-domain call for a domain name.
   */
  method DiscoverADs(resp: Outcome<seq<AvailabilityDomainItem>>,
                     faultDomainsFor: string -> Outcome<seq<FaultDomainItem>>) returns (r: Outcome<seq<AvailabilityDomain>>)
    ensures r == AvailabilityDomains(resp, faultDomainsFor)
  {
    if resp.Err? {
      return Err(resp.error);
    }
    var ads: seq<AvailabilityDomain> := [];
    for i := 0 to |resp.value|
      invariant ads == Map(resp.value[..i], AvailabilityDomainOf(faultDomainsFor))
    {
      var ad := resp.value[i];
      var fds := DiscoverFaultDomains(faultDomainsFor(ad.name));
      MapStep(resp.value, i, AvailabilityDomainOf(faultDomainsFor));
      ads := ads + [AvailabilityDomain(id := SafeString(ad.id), name := ad.name, faultDomains := OrElse(fds, []))];
    }
    assert resp.value[..|resp.value|] == resp.value;
    return Ok(ads);
  }

  /**
   * Only the availability-domain call can fail the listing; each domain keeps
   * its own fault domains, and a failed fault-domain call only empties that
   * domain's list.
   */
  lemma AvailabilityDomainsFaultsSwallowed(resp: Outcome<seq<AvailabilityDomainItem>>,
                                           faultDomainsFor: string -> Outcome<seq<FaultDomainItem>>, i: nat)
    requires resp.Ok? && i < |resp.value|
    ensures var r := AvailabilityDomains(resp, faultDomainsFor);
            var ad := resp.value[i];
            && r.Ok? && |r.value| == |resp.value|
            && r.value[i].name == ad.name
            && (faultDomainsFor(ad.name).Err? ==> r.value[i].faultDomains == [])
            && (faultDomainsFor(ad.name).Ok? ==>
                  r.value[i].faultDomains == Map(faultDomainsFor(ad.name).value, FaultDomainName))
  {
  }

  // ---------------------------------------------------------------------------
  // Block volumes

  function VolumeOf(v: VolumeItem): BlockVolume
  {
    BlockVolume(id := v.id, displayName := SafeString(v.displayName),
                sizeGb := if v.sizeInGbs.Some? then v.sizeInGbs.value else 0,
                availabilityDomain := SafeString(v.availabilityDomain),
                vpusPerGb := if v.vpusPerGb.Some? then v.vpusPerGb.value else 0,
                isHydrated := if v.isHydrated.Some? then v.isHydrated.value else false)
  }

  /** `discoverBlockVolumes`: drain the pages, converting every volume; absent numbers become zero, an absent flag false. */
  method DiscoverBlockVolumes(pages: Pages<VolumeItem>) returns (r: Outcome<seq<BlockVolume>>)
    ensures r == Listed(pages, VolumeOf)
  {
    var volumes: seq<BlockVolume> := [];
    var resp := pages;
    PrependNothing(Listed(pages, VolumeOf));
    while true
      invariant Listed(pages, VolumeOf) == Prepend(volumes, Listed(resp, VolumeOf))
      decreases resp
    {
      if resp.PageError? {
        return Err(resp.error);
      }
      ghost var before := volumes;
      for i := 0 to |resp.items|
        invariant volumes == before + Map(resp.items[..i], VolumeOf)
      {
        var v := resp.items[i];
        var vol := BlockVolume(id := v.id, displayName := SafeString(v.displayName), sizeGb := 0,
                               availabilityDomain := SafeString(v.availabilityDomain), vpusPerGb := 0,
                               isHydrated := false);
        if v.sizeInGbs.Some? {
          vol := vol.(sizeGb := v.sizeInGbs.value);
        }
        if v.vpusPerGb.Some? {
          vol := vol.(vpusPerGb := v.vpusPerGb.value);
        }
        if v.isHydrated.Some? {
          vol := vol.(isHydrated := v.isHydrated.value);
        }
        MapStep(resp.items, i, VolumeOf);
        AppendAssoc(before, Map(resp.items[..i], VolumeOf), [VolumeOf(v)]);
        volumes := volumes + [vol];
      }
      assert resp.items[..|resp.items|] == resp.items;
      if resp.LastPage? {
        break;
      }
      ListedNextPage(before, resp.items, resp.rest, VolumeOf);
      resp := resp.rest;
    }
    return Ok(volumes);
  }

  // ---------------------------------------------------------------------------
  // Tenancy

  /**
   * `discoverTenancy`: the tenancy record, never an error; when the lookup
   * fails the record holds only the given tenancy id.
   */
  function DiscoverTenancy(tenancyId: string, resp: Outcome<TenancyItem>): (r: Outcome<TenancyInfo>)
    ensures r.Ok?
    ensures resp.Err? ==> r.value == TenancyInfo(id := tenancyId, name := "", homeRegion := "", description := "")
    ensures resp.Ok? ==>
              && r.value.id == resp.value.id
              && r.value.name == SafeString(resp.value.name)
              && r.value.homeRegion == SafeString(resp.value.homeRegionKey)
              && r.value.description == SafeString(resp.value.description)
  {
    match resp
    case Err(_) => Ok(TenancyInfo(id := tenancyId, name := "", homeRegion := "", description := ""))
    case Ok(t) => Ok(TenancyInfo(id := t.id, name := SafeString(t.name), homeRegion := SafeString(t.homeRegionKey),
                                 description := SafeString(t.description)))
  }

  // ---------------------------------------------------------------------------
  // Shapes

  /** The shape record built from one listed shape; an absent number stays zero. */
  function ShapeOf(s: ShapeItem): Shape
  {
    Shape(name := s.shape, processorDesc := SafeString(s.processorDescription),
          ocpus := if s.ocpus.Some? then s.ocpus.value else 0.0,
          memoryGb := if s.memoryInGbs.Some? then s.memoryInGbs.value else 0.0,
          isFlexible := s.ocpuOptions.Some?,
          maxOcpus := if s.ocpuOptions.Some? && s.ocpuOptions.value.max.Some? then s.ocpuOptions.value.max.value else 0.0,
          maxMemoryGb := if s.memoryOptions.Some? && s.memoryOptions.value.maxInGbs.Some?
                         then s.memoryOptions.value.maxInGbs.value else 0.0,
          availableLimit := 0, availableInAds := [])
  }

  /** The key shapes are de-duplicated on: their name. */
  function ShapeName(s: ShapeItem): string { s.shape }

  /**
   * What `discoverShapes` returns: a failed page discards everything;
   * otherwise the first listing of every shape name, across all pages, in
   * listing order.
   */
  function Shapes(pages: Pages<ShapeItem>): Outcome<seq<Shape>>
  {
    if EndsInError(pages) then Err(FinalError(pages))
    else Ok(Map(Dedup(Collected(pages), ShapeName, {}), ShapeOf))
  }

  method DiscoverShapes(pages: Pages<ShapeItem>) returns (r: Outcome<seq<Shape>>)
    ensures r == Shapes(pages)
  {
    var shapes: seq<Shape> := [];
    var seen: set<string> := {};
    var resp := pages;
    ghost var done: seq<ShapeItem> := [];
    assert [] + Collected(pages) == Collected(pages);
    while true
      invariant Collected(pages) == done + Collected(resp)
      invariant EndsInError(pages) == EndsInError(resp)
      invariant EndsInError(pages) ==> FinalError(pages) == FinalError(resp)
      invariant (shapes, seen) == DedupMap(done, ShapeName, ShapeOf)
      decreases resp
    {
      if resp.PageError? {
        return Err(resp.error);
      }
      assert done + resp.items[..0] == done;
      for i := 0 to |resp.items|
        invariant (shapes, seen) == DedupMap(done + resp.items[..i], ShapeName, ShapeOf)
      {
        var s := resp.items[i];
        DedupMapNext(done, resp.items, i, ShapeName, ShapeOf);
        if s.shape in seen {
          continue;
        }
        seen := seen + {s.shape};
        var shape := Shape(name := s.shape, processorDesc := SafeString(s.processorDescription),
                           ocpus := 0.0, memoryGb := 0.0, isFlexible := false, maxOcpus := 0.0,
                           maxMemoryGb := 0.0, availableLimit := 0, availableInAds := []);
        if s.ocpus.Some? {
          shape := shape.(ocpus := s.ocpus.value);
        }
        if s.memoryInGbs.Some? {
          shape := shape.(memoryGb := s.memoryInGbs.value);
        }
        if s.ocpuOptions.Some? {
          shape := shape.(isFlexible := true);
          if s.ocpuOptions.value.max.Some? {
            shape := shape.(maxOcpus := s.ocpuOptions.value.max.value);
          }
        }
        if s.memoryOptions.Some? && s.memoryOptions.value.maxInGbs.Some? {
          shape := shape.(maxMemoryGb := s.memoryOptions.value.maxInGbs.value);
        }
        assert shape == ShapeOf(s);
        shapes := shapes + [shape];
      }
      assert resp.items[..|resp.items|] == resp.items;
      if resp.LastPage? {
        done := done + resp.items;
        break;
      }
      AppendAssoc(done, resp.items, Collected(resp.rest));
      done := done + resp.items;
      resp := resp.rest;
    }
    DedupMapIsDedup(Collected(pages), ShapeName, ShapeOf);
    return Ok(shapes);
  }

  /** A shape is flexible exactly when it has OCPU options, and only a flexible shape has a maximum OCPU count. */
  lemma ShapeOfFlexible(s: ShapeItem)
    ensures ShapeOf(s).name == s.shape
    ensures ShapeOf(s).isFlexible <==> s.ocpuOptions.Some?
    ensures !ShapeOf(s).isFlexible ==> ShapeOf(s).maxOcpus == 0.0
    ensures ShapeOf(s).availableLimit == 0 && ShapeOf(s).availableInAds == []
  {
  }

  /** No two discovered shapes share a name. */
  lemma ShapesNamesUnique(pages: Pages<ShapeItem>)
    ensures Shapes(pages).Ok? ==>
              forall i, j :: 0 <= i < j < |Shapes(pages).value| ==>
                Shapes(pages).value[i].name != Shapes(pages).value[j].name
  {
    if !EndsInError(pages) {
      var d := Dedup(Collected(pages), ShapeName, {});
      DedupProps(Collected(pages), ShapeName, {});
      assert forall i :: 0 <= i < |d| ==> Shapes(pages).value[i].name == ShapeName(d[i]);
    }
  }

  /** Every shape name listed on the pages is discovered, unless a page failed. */
  lemma ShapesCoverListed(pages: Pages<ShapeItem>, x: ShapeItem)
    requires !EndsInError(pages) && x in Collected(pages)
    ensures exists y :: y in Shapes(pages).value && y.name == x.shape
  {
    var c := Collected(pages);
    var d := Dedup(c, ShapeName, {});
    assert x.shape in KeysOf(d, ShapeName) by {
      KeysOfMembers(c, ShapeName);
      DedupProps(c, ShapeName, {});
    }
    assert exists i :: 0 <= i < |d| && ShapeName(d[i]) == x.shape by {
      KeysOfMembers(d, ShapeName);
    }
    var i :| 0 <= i < |d| && ShapeName(d[i]) == x.shape;
    assert Shapes(pages).value[i] == ShapeOf(d[i]);
  }

  /** The first listing of a name wins: later listings of the same name are dropped. */
  lemma ShapesFirstWins(pages: Pages<ShapeItem>, j: nat)
    requires !EndsInError(pages) && j < |Collected(pages)|
    requires forall i :: 0 <= i < j ==> Collected(pages)[i].shape != Collected(pages)[j].shape
    ensures ShapeOf(Collected(pages)[j]) in Shapes(pages).value
  {
    var c := Collected(pages);
    DedupKeepsFirst(c, ShapeName, {}, j);
    MapMembers(Dedup(c, ShapeName, {}), ShapeOf);
  }

  /** When no name is listed twice, the shapes are exactly the pages' listing converted. */
  lemma ShapesWithoutDuplicates(pages: Pages<ShapeItem>)
    requires KeysDistinct(Collected(pages), ShapeName)
    ensures Shapes(pages) == Listed(pages, ShapeOf)
  {
    DedupOfDistinct(Collected(pages), ShapeName, {});
    ListedIsCollected(pages, ShapeOf);
  }

  // ---------------------------------------------------------------------------
  // Images

  /** The operating systems whose images are listed, in order. */
  const OsFamilies: seq<string> := ["Oracle Linux", "Canonical Ubuntu", "CentOS", "Windows"]

  /** The key images of one operating system are de-duplicated on: the OS name, a dash and the version. */
  function VersionKey(osName: string): ImageItem -> string
  {
    (img: ImageItem) => osName + "-" + SafeString(img.operatingSystemVersion)
  }

  /** An image size in MiB as GiB, in exact arithmetic. */
  function MibToGib(mb: int): Float64
  {
    mb as real / 1024.0
  }

  /** The image record built from one listed image; its size is converted from MiB to GiB. */
  function ImageOf(img: ImageItem): Image
  {
    Image(id := img.id, displayName := SafeString(img.displayName), os := SafeString(img.operatingSystem),
          osVersion := SafeString(img.operatingSystemVersion),
          timeCreated := if img.timeCreated.Some? then img.timeCreated.value else "",
          sizeGb := if img.sizeInMbs.Some? then MibToGib(img.sizeInMbs.value) else 0.0,
          compatibleShapes := [])
  }

  /**
   * The images kept for one operating system: the first image of every
   * version, over the pages read before the listing ended or failed.
   */
  function FamilyImages(osName: string, pages: Pages<ImageItem>): seq<Image>
  {
    Map(Dedup(Collected(pages), VersionKey(osName), {}), ImageOf)
  }

  function ImagesByFamily(imagesFor: string -> Pages<ImageItem>): string -> seq<Image>
  {
    (osName: string) => FamilyImages(osName, imagesFor(osName))
  }

  /**
   * `discoverImages`: for every operating system in turn, drain its pages;
   * a failed page ends that operating system's listing and the next one is
   * queried. The whole discovery never fails.
   */
  method DiscoverImages(imagesFor: string -> Pages<ImageItem>) returns (r: Outcome<seq<Image>>)
    ensures r == Ok(ConcatMap(OsFamilies, ImagesByFamily(imagesFor)))
  {
    var osList := OsFamilies;
    var images: seq<Image> := [];
    for k := 0 to |osList|
      invariant images == ConcatMap(osList[..k], ImagesByFamily(imagesFor))
    {
      var osName := osList[k];
      var family := DiscoverFamilyImages(osName, imagesFor(osName));
      ConcatMapStep(osList, k, ImagesByFamily(imagesFor));
      images := images + family;
    }
    assert osList[..|osList|] == osList;
    return Ok(images);
  }

  /**
   * The body of `discoverImages` for one operating system: drain its pages,
   * keeping the first image of every version; a failed page ends the
   * listing and keeps what the earlier pages gave.
   */
  method DiscoverFamilyImages(osName: string, pages: Pages<ImageItem>) returns (images: seq<Image>)
    ensures images == FamilyImages(osName, pages)
  {
    images := [];
    var seenVersions: set<string> := {};
    var resp := pages;
    ghost var versionKey := VersionKey(osName);
    ghost var done: seq<ImageItem> := [];
    assert [] + Collected(resp) == Collected(resp);
    while true
      invariant Collected(pages) == done + Collected(resp)
      invariant (images, seenVersions) == DedupMap(done, versionKey, ImageOf)
      decreases resp
    {
      if resp.PageError? {
        assert done + [] == done;
        break;
      }
      assert done + resp.items[..0] == done;
      for i := 0 to |resp.items|
        invariant (images, seenVersions) == DedupMap(done + resp.items[..i], versionKey, ImageOf)
      {
        var img := resp.items[i];
        DedupMapNext(done, resp.items, i, versionKey, ImageOf);
        var version := SafeString(img.operatingSystemVersion);
        var key := osName + "-" + version;
        if key in seenVersions {
          continue;
        }
        seenVersions := seenVersions + {key};
        var image := Image(id := img.id, displayName := SafeString(img.displayName),
                           os := SafeString(img.operatingSystem), osVersion := version,
                           timeCreated := "", sizeGb := 0.0, compatibleShapes := []);
        if img.timeCreated.Some? {
          image := image.(timeCreated := img.timeCreated.value);
        }
        if img.sizeInMbs.Some? {
          image := image.(sizeGb := MibToGib(img.sizeInMbs.value));
        }
        assert image == ImageOf(img);
        images := images + [image];
      }
      assert resp.items[..|resp.items|] == resp.items;
      if resp.LastPage? {
        done := done + resp.items;
        break;
      }
      AppendAssoc(done, resp.items, Collected(resp.rest));
      done := done + resp.items;
      resp := resp.rest;
    }
    DedupMapIsDedup(Collected(pages), versionKey, ImageOf);
  }

  /** Within one operating system no two kept images share a version. */
  lemma FamilyImagesVersionsUnique(osName: string, pages: Pages<ImageItem>)
    ensures forall i, j :: 0 <= i < j < |FamilyImages(osName, pages)| ==>
              FamilyImages(osName, pages)[i].osVersion != FamilyImages(osName, pages)[j].osVersion
  {
    var d := Dedup(Collected(pages), VersionKey(osName), {});
    DedupProps(Collected(pages), VersionKey(osName), {});
    forall i, j | 0 <= i < j < |d| ensures ImageOf(d[i]).osVersion != ImageOf(d[j]).osVersion {
      assert VersionKey(osName)(d[i]) != VersionKey(osName)(d[j]);
    }
  }

  /** The first image listed with a version is the one kept for that version. */
  lemma FamilyImagesFirstWins(osName: string, pages: Pages<ImageItem>, j: nat)
    requires j < |Collected(pages)|
    requires forall i :: 0 <= i < j ==>
               SafeString(Collected(pages)[i].operatingSystemVersion)
               != SafeString(Collected(pages)[j].operatingSystemVersion)
    ensures ImageOf(Collected(pages)[j]) in FamilyImages(osName, pages)
  {
    var c := Collected(pages);
    var key := VersionKey(osName);
    forall i | 0 <= i < j ensures key(c[i]) != key(c[j]) {
      assert key(c[i])[|osName| + 1..] == SafeString(c[i].operatingSystemVersion);
      assert key(c[j])[|osName| + 1..] == SafeString(c[j].operatingSystemVersion);
    }
    DedupKeepsFirst(c, key, {}, j);
    MapMembers(Dedup(c, key, {}), ImageOf);
  }

  /**
   * A failed page keeps the images of the pages before it: any chain gives
   * the images of one last page holding every item listed before the first
   * failure, and every version listed there has a kept image.
   */
  lemma FamilyImagesKeepEarlierPages(osName: string, pages: Pages<ImageItem>)
    ensures FamilyImages(osName, pages) == FamilyImages(osName, LastPage(Collected(pages)))
    ensures forall x :: x in Collected(pages) ==>
              exists y :: y in FamilyImages(osName, pages) && y.osVersion == SafeString(x.operatingSystemVersion)
  {
    var c := Collected(pages);
    var key := VersionKey(osName);
    var d := Dedup(c, key, {});
    assert KeysOf(d, key) == KeysOf(c, key) by {
      DedupProps(c, key, {});
      assert KeysOf(c, key) - {} == KeysOf(c, key);
    }
    forall x | x in c
      ensures exists y :: y in FamilyImages(osName, pages) && y.osVersion == SafeString(x.operatingSystemVersion)
    {
      assert key(x) in KeysOf(d, key) by {
        KeysOfMembers(c, key);
        var m :| 0 <= m < |c| && c[m] == x;
      }
      assert exists i :: 0 <= i < |d| && key(d[i]) == key(x) by { KeysOfMembers(d, key); }
      var i :| 0 <= i < |d| && key(d[i]) == key(x);
      assert key(d[i])[|osName| + 1..] == SafeString(d[i].operatingSystemVersion);
      assert key(x)[|osName| + 1..] == SafeString(x.operatingSystemVersion);
      assert ImageOf(d[i]) == FamilyImages(osName, pages)[i];
    }
  }

  /** Every operating system is queried, in order, and their images are concatenated. */
  lemma ImagesAllFamilies(imagesFor: string -> Pages<ImageItem>)
    ensures ConcatMap(OsFamilies, ImagesByFamily(imagesFor))
         == FamilyImages("Oracle Linux", imagesFor("Oracle Linux"))
          + FamilyImages("Canonical Ubuntu", imagesFor("Canonical Ubuntu"))
          + FamilyImages("CentOS", imagesFor("CentOS"))
          + FamilyImages("Windows", imagesFor("Windows"))
  {
    ConcatMapOfFour(OsFamilies, ImagesByFamily(imagesFor));
  }

  // ---------------------------------------------------------------------------
  // Service limits

  /** The services whose limits are listed, in order. */
  const ComputeServices: seq<string> := ["compute", "compute-core"]

  /** Only limits with a value that is present and not zero are kept. */
  predicate HasValue(l: LimitValueItem)
  {
    l.value.Some? && l.value.value != 0
  }

  /** The limit record built from one listed value; its scope is the availability domain when there is one. */
  function LimitOf(svc: string): LimitValueItem -> ServiceLimit
  {
    (l: LimitValueItem) =>
      ServiceLimit(serviceName := svc, limitName := SafeString(l.name),
                   value := if l.value.Some? then l.value.value else 0, availableAmt := 0, usedAmt := 0,
                   scope := if l.availabilityDomain.Some? then l.availabilityDomain.value else l.scopeType)
  }

  /** The limits kept for one service; a failed listing contributes none. */
  function ServiceLimits(svc: string, resp: Outcome<seq<LimitValueItem>>): seq<ServiceLimit>
  {
    match resp
    case Err(_) => []
    case Ok(items) => Map(Filter(items, HasValue), LimitOf(svc))
  }

  function LimitsByService(limitsFor: string -> Outcome<seq<LimitValueItem>>): string -> seq<ServiceLimit>
  {
    (svc: string) => ServiceLimits(svc, limitsFor(svc))
  }

  /** `discoverLimits`: list each compute service's limits, skipping a service whose listing fails; never an error. */
  method DiscoverLimits(limitsFor: string -> Outcome<seq<LimitValueItem>>) returns (r: Outcome<seq<ServiceLimit>>)
    ensures r == Ok(ConcatMap(ComputeServices, LimitsByService(limitsFor)))
  {
    var computeServices := ComputeServices;
    var limits: seq<ServiceLimit> := [];
    for k := 0 to |computeServices|
      invariant limits == ConcatMap(computeServices[..k], LimitsByService(limitsFor))
    {
      var svc := computeServices[k];
      ConcatMapStep(computeServices, k, LimitsByService(limitsFor));
      var resp := limitsFor(svc);
      if resp.Err? {
        assert limits + [] == limits;
        continue;
      }
      ghost var prior := limits;
      assert Filter(resp.value[..0], HasValue) == [];
      assert prior + [] == prior;
      for i := 0 to |resp.value|
        invariant limits == prior + Map(Filter(resp.value[..i], HasValue), LimitOf(svc))
      {
        var l := resp.value[i];
        FilterMapStep(resp.value, i, HasValue, LimitOf(svc), prior, limits);
        if l.value.None? || l.value.value == 0 {
          continue;
        }
        var limit := ServiceLimit(serviceName := svc, limitName := SafeString(l.name), value := l.value.value,
                                  availableAmt := 0, usedAmt := 0, scope := l.scopeType);
        if l.availabilityDomain.Some? {
          limit := limit.(scope := l.availabilityDomain.value);
        }
        limits := limits + [limit];
      }
      assert resp.value[..|resp.value|] == resp.value;
    }
    assert computeServices[..|computeServices|] == computeServices;
    return Ok(limits);
  }

  /**
   * The limits of one service are exactly its listed values that are
   * present and not zero, each tagged with the service, named as listed and scoped to its
   * availability domain when it has one, else to its scope type.
   */
  lemma ServiceLimitsExactly(svc: string, resp: Outcome<seq<LimitValueItem>>)
    ensures resp.Err? ==> ServiceLimits(svc, resp) == []
    ensures forall l :: l in ServiceLimits(svc, resp) ==>
              && l.serviceName == svc && l.value != 0
              && exists x :: x in resp.value && HasValue(x) && x.value.value == l.value && l.limitName == SafeString(x.name)
                             && l.scope == (if x.availabilityDomain.Some? then x.availabilityDomain.value else x.scopeType)
    ensures resp.Ok? ==> forall x :: x in resp.value && HasValue(x) ==> LimitOf(svc)(x) in ServiceLimits(svc, resp)
  {
    if resp.Ok? {
      var f := Filter(resp.value, HasValue);
      FilterMembers(resp.value, HasValue);
      MapMembers(f, LimitOf(svc));
      forall l | l in ServiceLimits(svc, resp)
        ensures && l.serviceName == svc && l.value != 0
                && exists x :: x in resp.value && HasValue(x) && x.value.value == l.value && l.limitName == SafeString(x.name)
                               && l.scope == (if x.availabilityDomain.Some? then x.availabilityDomain.value else x.scopeType)
      {
        var i :| 0 <= i < |f| && l == LimitOf(svc)(f[i]);
        assert f[i] in resp.value && HasValue(f[i]);
      }
    }
  }


  /** Both compute services are queried, in order. */
  lemma LimitsBothServices(limitsFor: string -> Outcome<seq<LimitValueItem>>)
    ensures ConcatMap(ComputeServices, LimitsByService(limitsFor))
         == ServiceLimits("compute", limitsFor("compute")) + ServiceLimits("compute-core", limitsFor("compute-core"))
  {
    ConcatMapOfTwo(ComputeServices, LimitsByService(limitsFor));
  }

  /** Every discovered limit has a non-zero value and belongs to a compute service. */
  lemma LimitsSound(limitsFor: string -> Outcome<seq<LimitValueItem>>)
    ensures forall l :: l in ConcatMap(ComputeServices, LimitsByService(limitsFor)) ==>
              l.value != 0 && l.serviceName in ComputeServices
  {
    var g := LimitsByService(limitsFor);
    ConcatMapMembers(ComputeServices, g);
    forall l: ServiceLimit | l in ConcatMap(ComputeServices, g) ensures l.value != 0 && l.serviceName in ComputeServices {
      var i :| 0 <= i < |ComputeServices| && l in g(ComputeServices[i]);
      ServiceLimitsExactly(ComputeServices[i], limitsFor(ComputeServices[i]));
    }
  }
}
