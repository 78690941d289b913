/**
 * The always-free narrowing of a discovery result
 * (internal/discovery/always_free.go): the free-tier shape allow-set, the
 * documented free-tier limits, and the two filters over shapes and images.
 */
module AlwaysFree {
  import opened Seqs
  import opened Strings
  import opened Records

  /** The shapes eligible for the always-free tier. */
  const AlwaysFreeShapes: set<string> := {"VM.Standard.A1.Flex", "VM.Standard.E2.1.Micro"}

  /** The free-tier limits of a tenancy. */
  datatype AlwaysFreeResources = AlwaysFreeResources(
    a1FlexOcpus: Float32, a1FlexMemoryGb: Float32, e2MicroInstances: int,
    blockStorageGb: int, outboundDataTb: int)

  function DefaultAlwaysFreeResources(): AlwaysFreeResources
  {
    AlwaysFreeResources(
      a1FlexOcpus := 4.0, a1FlexMemoryGb := 24.0, e2MicroInstances := 2,
      blockStorageGb := 200, outboundDataTb := 10)
  }

  lemma DefaultAlwaysFreeResourcesValues()
    ensures DefaultAlwaysFreeResources().a1FlexOcpus == 4.0
    ensures DefaultAlwaysFreeResources().a1FlexMemoryGb == 24.0
    ensures DefaultAlwaysFreeResources().e2MicroInstances == 2
    ensures DefaultAlwaysFreeResources().blockStorageGb == 200
    ensures DefaultAlwaysFreeResources().outboundDataTb == 10
  {
  }

  /** The allow-set has exactly two members, and the neighbouring paid shapes are not among them. */
  lemma AlwaysFreeShapesExactly()
    ensures |AlwaysFreeShapes| == 2
    ensures "VM.Standard.A1.Flex" in AlwaysFreeShapes && "VM.Standard.E2.1.Micro" in AlwaysFreeShapes
    ensures "VM.Standard.E4.Flex" !in AlwaysFreeShapes
    ensures "VM.Standard3.Flex" !in AlwaysFreeShapes
    ensures "BM.Standard.E4.128" !in AlwaysFreeShapes
  {
  }

  // ---------------------------------------------------------------------------
  // Shapes

  predicate IsAlwaysFreeShape(s: Shape) { s.name in AlwaysFreeShapes }

  /** `FilterShapesForAlwaysFree`: one pass appending the shapes whose name is allowed. */
  method FilterShapesForAlwaysFree(shapes: seq<Shape>) returns (filtered: seq<Shape>)
    ensures filtered == Filter(shapes, IsAlwaysFreeShape)
    ensures forall s :: s in filtered <==> s in shapes && s.name in AlwaysFreeShapes
    ensures Subseq(filtered, shapes)
  {
    filtered := [];
    for i := 0 to |shapes|
      invariant filtered == Filter(shapes[..i], IsAlwaysFreeShape)
    {
      assert shapes[..i + 1] == shapes[..i] + [shapes[i]];
      FilterSnoc(shapes[..i], shapes[i], IsAlwaysFreeShape);
      if shapes[i].name in AlwaysFreeShapes {
        filtered := filtered + [shapes[i]];
      }
    }
    assert shapes[..|shapes|] == shapes;
    FilterMembers(shapes, IsAlwaysFreeShape);
    FilterSubseq(shapes, IsAlwaysFreeShape);
  }

  /** Filtering an already filtered shape list returns it unchanged. */
  lemma FilterShapesIdempotent(shapes: seq<Shape>)
    ensures Filter(Filter(shapes, IsAlwaysFreeShape), IsAlwaysFreeShape) == Filter(shapes, IsAlwaysFreeShape)
  {
    FilterIdempotent(shapes, IsAlwaysFreeShape);
  }

  // ---------------------------------------------------------------------------
  // Images

  /** `isARM64Image`: "aarch64" in the lower-cased version or display name. */
  predicate IsArm64Image(img: Image)
  {
    Contains(ToLower(img.osVersion), "aarch64") || Contains(ToLower(img.displayName), "aarch64")
  }

  /** `isMinimalImage`: "minimal" in the lower-cased version or display name. */
  predicate IsMinimalImage(img: Image)
  {
    Contains(ToLower(img.osVersion), "minimal") || Contains(ToLower(img.displayName), "minimal")
  }

  /** The second-pass condition: a minimal image that is not ARM. */
  predicate IsX86MinimalImage(img: Image) { !IsArm64Image(img) && IsMinimalImage(img) }

  /** The deduplication key: the string `OS + "-" + OSVersion`. */
  function ImageKey(img: Image): string { img.os + "-" + img.osVersion }

  /** The keys of the ARM input images. */
  function ArmKeys(images: seq<Image>): set<string>
  {
    KeysOf(Filter(images, IsArm64Image), ImageKey)
  }

  /** The first pass: the first ARM image of every key, in input order. */
  function ArmPass(images: seq<Image>): seq<Image>
  {
    Dedup(Filter(images, IsArm64Image), ImageKey, {})
  }

  /** The second pass: the first x86 minimal image of every key no ARM image carries, in input order. */
  function X86Pass(images: seq<Image>): seq<Image>
  {
    Dedup(Filter(images, IsX86MinimalImage), ImageKey, ArmKeys(images))
  }

  /** The images the filter returns: the first pass followed by the second. */
  function AlwaysFreeImages(images: seq<Image>): seq<Image>
  {
    ArmPass(images) + X86Pass(images)
  }

  /** The two passes of the filter, the second starting from the keys the first collected, compute `AlwaysFreeImages`. */
  lemma TwoPasses(images: seq<Image>)
    ensures var (arm, armKeys) := Select(images, IsArm64Image, ImageKey, {});
            arm + Select(images, IsX86MinimalImage, ImageKey, armKeys).0 == AlwaysFreeImages(images)
  {
    SelectIsDedupFilter(images, IsArm64Image, ImageKey, {});
    var armKeys := Select(images, IsArm64Image, ImageKey, {}).1;
    assert armKeys == ArmKeys(images);
    SelectIsDedupFilter(images, IsX86MinimalImage, ImageKey, armKeys);
  }

  /** `FilterImagesForAlwaysFree`: two passes over the list sharing one seen-set of keys. */
  method FilterImagesForAlwaysFree(images: seq<Image>) returns (filtered: seq<Image>)
    ensures filtered == AlwaysFreeImages(images)
  {
    filtered := [];
    var seen: set<string> := {};

    // First pass: ARM images.
    for i := 0 to |images|
      invariant (filtered, seen) == Select(images[..i], IsArm64Image, ImageKey, {})
    {
      var img := images[i];
      SelectStep(images, i, IsArm64Image, ImageKey, {});
      if IsArm64Image(img) {
        var key := img.os + "-" + img.osVersion;
        if key !in seen {
          seen := seen + {key};
          filtered := filtered + [img];
        }
      }
    }
    ghost var first, armKeys := filtered, seen;

    // Second pass: x86 minimal images whose key is not yet taken.
    for i := 0 to |images|
      invariant filtered == first + Select(images[..i], IsX86MinimalImage, ImageKey, armKeys).0
      invariant seen == Select(images[..i], IsX86MinimalImage, ImageKey, armKeys).1
    {
      var img := images[i];
      SelectStep(images, i, IsX86MinimalImage, ImageKey, armKeys);
      AppendAssoc(first, Select(images[..i], IsX86MinimalImage, ImageKey, armKeys).0, [img]);
      if !IsArm64Image(img) && IsMinimalImage(img) {
        var key := img.os + "-" + img.osVersion;
        if key !in seen {
          seen := seen + {key};
          filtered := filtered + [img];
        }
      }
    }
    assert images[..|images|] == images;
    TwoPasses(images);
  }

  /** Neither field of an image contains `sub` once lower-cased, if `sub` has a character `c` neither field has in either case. */
  lemma NeitherFieldContains(img: Image, sub: string, c: char)
    requires 'a' <= c <= 'z' && c in sub
    requires c !in img.osVersion && (c as int - 32) as char !in img.osVersion
    requires c !in img.displayName && (c as int - 32) as char !in img.displayName
    ensures !Contains(ToLower(img.osVersion), sub) && !Contains(ToLower(img.displayName), sub)
  {
    if Contains(ToLower(img.osVersion), sub) {
      ContainsHasChar(ToLower(img.osVersion), sub, c);
      LowerCharIn(img.osVersion, c);
    }
    if Contains(ToLower(img.displayName), sub) {
      ContainsHasChar(ToLower(img.displayName), sub, c);
      LowerCharIn(img.displayName, c);
    }
  }

  // The cases of the two image predicates: either field may carry the marker, in any case.

  lemma ArmMarkerInVersion(img: Image)
    requires img.osVersion == "24.04 Minimal aarch64"
    ensures IsArm64Image(img)
  {
    var v := ToLower(img.osVersion);
    assert v[14..21] == "aarch64";
    ContainsAt(v, "aarch64", 14);
  }

  lemma ArmMarkerInDisplayName(img: Image)
    requires img.osVersion == "24.04" && img.displayName == "Ubuntu-aarch64"
    ensures IsArm64Image(img)
  {
    var v := ToLower(img.displayName);
    assert v[7..14] == "aarch64";
    ContainsAt(v, "aarch64", 7);
  }

  lemma ArmMarkerUpperCase(img: Image)
    requires img.osVersion == "AARCH64"
    ensures IsArm64Image(img)
  {
    var v := ToLower(img.osVersion);
    assert v[0..7] == "aarch64";
    ContainsAt(v, "aarch64", 0);
  }

  lemma NoArmMarker(img: Image)
    requires img.osVersion == "24.04 Minimal" || img.osVersion == "24.04"
    requires img.displayName == ""
    ensures !IsArm64Image(img)
  {
    NeitherFieldContains(img, "aarch64", 'h');
  }

  lemma MinimalMarkerInVersion(img: Image)
    requires img.osVersion == "24.04 Minimal"
    ensures IsMinimalImage(img)
  {
    var v := ToLower(img.osVersion);
    assert v[6..13] == "minimal";
    ContainsAt(v, "minimal", 6);
  }

  lemma MinimalMarkerInDisplayName(img: Image)
    requires img.osVersion == "24.04" && img.displayName == "Ubuntu-Minimal"
    ensures IsMinimalImage(img)
  {
    var v := ToLower(img.displayName);
    assert v[7..14] == "minimal";
    ContainsAt(v, "minimal", 7);
  }

  lemma MinimalMarkerUpperCase(img: Image)
    requires img.osVersion == "MINIMAL"
    ensures IsMinimalImage(img)
  {
    var v := ToLower(img.osVersion);
    assert v[0..7] == "minimal";
    ContainsAt(v, "minimal", 0);
  }

  lemma NoMinimalMarker(img: Image)
    requires img.osVersion == "24.04" && img.displayName == ""
    ensures !IsMinimalImage(img)
  {
    NeitherFieldContains(img, "minimal", 'm');
  }

  // The scenarios of the image filter's table test. Each is reduced to the
  // predicates' verdicts on the test's images, and the filter is then run on them.

  /** An image whose fields have no `h` in either case is not ARM. */
  lemma NoArmLetter(img: Image)
    requires 'h' !in img.osVersion && 'H' !in img.osVersion && 'h' !in img.displayName && 'H' !in img.displayName
    ensures !IsArm64Image(img)
  {
    NeitherFieldContains(img, "aarch64", 'h');
  }

  /** An image whose fields have neither an `h` nor an `m` in either case is neither ARM nor minimal. */
  lemma NeitherArmNorMinimal(img: Image)
    requires 'h' !in img.osVersion && 'H' !in img.osVersion && 'h' !in img.displayName && 'H' !in img.displayName
    requires 'm' !in img.osVersion && 'M' !in img.osVersion && 'm' !in img.displayName && 'M' !in img.displayName
    ensures !IsArm64Image(img) && !IsMinimalImage(img)
  {
    NoArmLetter(img);
    NeitherFieldContains(img, "minimal", 'm');
  }

  /** The test's plain Ubuntu images, 24.04 and 22.04, are neither ARM nor minimal. */
  lemma PlainUbuntuImage(img: Image)
    requires || (img.osVersion == "24.04" && img.displayName == "Ubuntu 24.04")
             || (img.osVersion == "22.04" && img.displayName == "Ubuntu 22.04")
    ensures !IsArm64Image(img) && !IsMinimalImage(img)
  {
    NeitherArmNorMinimal(img);
  }

  /** The test's minimal Ubuntu image is a minimal x86 image. */
  lemma MinimalUbuntuImage(img: Image)
    requires img.osVersion == "24.04 Minimal" && img.displayName == "Ubuntu 24.04 Minimal"
    ensures !IsArm64Image(img) && IsMinimalImage(img)
  {
    NoArmLetter(img);
    MinimalMarkerInVersion(img);
  }

  /** Of two images that are neither ARM nor minimal and one ARM image between them, only the ARM image is kept. */
  lemma OnlyArmImageKept(a: Image, b: Image, c: Image)
    requires !IsArm64Image(a) && !IsMinimalImage(a)
    requires IsArm64Image(b)
    requires !IsArm64Image(c) && !IsMinimalImage(c)
    ensures AlwaysFreeImages([a, b, c]) == [b]
  {
    var s := [a, b, c];
    assert s[..2] == [a, b] && [a, b][..1] == [a] && [a][..0] == [];
    assert Filter([a], IsArm64Image) == [] && Filter([a], IsX86MinimalImage) == [];
    assert Filter([a, b], IsArm64Image) == [b] && Filter([a, b], IsX86MinimalImage) == [];
    assert Filter(s, IsArm64Image) == [b] && Filter(s, IsX86MinimalImage) == [];
    assert KeysOf([b][..0], ImageKey) == {};
    assert Dedup([b], ImageKey, {}) == [b];
  }

  /** "prioritizes aarch64 images": of two plain x86 images and one ARM image, only the ARM image is kept. */
  lemma PrioritizesArmImages(a: Image, b: Image, c: Image)
    requires a.os == "Canonical Ubuntu" && a.osVersion == "24.04" && a.displayName == "Ubuntu 24.04"
    requires b.os == "Canonical Ubuntu" && b.osVersion == "24.04 Minimal aarch64"
    requires b.displayName == "Ubuntu 24.04 aarch64"
    requires c.os == "Canonical Ubuntu" && c.osVersion == "22.04" && c.displayName == "Ubuntu 22.04"
    ensures AlwaysFreeImages([a, b, c]) == [b]
  {
    PlainUbuntuImage(a);
    PlainUbuntuImage(c);
    ArmMarkerInVersion(b);
    OnlyArmImageKept(a, b, c);
  }

  /** A minimal x86 image followed by an image that is neither ARM nor minimal: only the first is kept. */
  lemma OnlyMinimalImageKept(m: Image, p: Image)
    requires !IsArm64Image(m) && IsMinimalImage(m)
    requires !IsArm64Image(p) && !IsMinimalImage(p)
    ensures AlwaysFreeImages([m, p]) == [m]
  {
    var s := [m, p];
    assert s[..1] == [m] && [m][..0] == [];
    assert Filter([m], IsArm64Image) == [] && Filter([m], IsX86MinimalImage) == [m];
    assert Filter(s, IsArm64Image) == [] && Filter(s, IsX86MinimalImage) == [m];
    assert ArmKeys(s) == {};
    assert KeysOf([m][..0], ImageKey) == {};
    assert Dedup([m], ImageKey, {}) == [m];
  }

  /** "includes minimal x86 images": a minimal x86 image is kept and a plain one dropped. */
  lemma IncludesMinimalX86Images(m: Image, p: Image)
    requires m.os == "Canonical Ubuntu" && m.osVersion == "24.04 Minimal" && m.displayName == "Ubuntu 24.04 Minimal"
    requires p.os == "Canonical Ubuntu" && p.osVersion == "24.04" && p.displayName == "Ubuntu 24.04"
    ensures AlwaysFreeImages([m, p]) == [m]
  {
    MinimalUbuntuImage(m);
    PlainUbuntuImage(p);
    OnlyMinimalImageKept(m, p);
  }

  /** Two ARM images with the same key: only the first is kept. */
  lemma FirstOfSameKeyKept(first: Image, second: Image)
    requires IsArm64Image(first) && IsArm64Image(second)
    requires ImageKey(first) == ImageKey(second)
    ensures AlwaysFreeImages([first, second]) == [first]
  {
    var s := [first, second];
    assert s[..1] == [first] && [first][..0] == [];
    assert Filter([first], IsArm64Image) == [first] && Filter([first], IsX86MinimalImage) == [];
    assert Filter(s, IsArm64Image) == s && Filter(s, IsX86MinimalImage) == [];
    assert KeysOf([first], ImageKey) == {ImageKey(first)};
    assert Dedup([first], ImageKey, {}) == [first];
    assert ArmPass(s) == [first];
  }

  /** "deduplicates by OS-version key": of two ARM images with the same key, only the first is kept. */
  lemma DeduplicatesByKey(first: Image, second: Image)
    requires first.os == "Canonical Ubuntu" && first.osVersion == "24.04 Minimal aarch64"
    requires first.displayName == "First"
    requires second.os == "Canonical Ubuntu" && second.osVersion == "24.04 Minimal aarch64"
    requires second.displayName == "Second"
    ensures AlwaysFreeImages([first, second]) == [first]
  {
    ArmMarkerInVersion(first);
    ArmMarkerInVersion(second);
    FirstOfSameKeyKept(first, second);
  }

  /** Upper-casing differences in the version or display name never change either predicate. */
  lemma ImagePredicatesIgnoreCase(img: Image, other: Image)
    requires ToLower(img.osVersion) == ToLower(other.osVersion)
    requires ToLower(img.displayName) == ToLower(other.displayName)
    ensures IsArm64Image(img) == IsArm64Image(other)
    ensures IsMinimalImage(img) == IsMinimalImage(other)
  {
  }

  // ---------------------------------------------------------------------------
  // Properties of the image filter

  /** `ArmKeys` holds exactly the keys of the ARM input images. */
  lemma ArmKeysMembers(images: seq<Image>)
    ensures forall y :: y in images && IsArm64Image(y) ==> ImageKey(y) in ArmKeys(images)
    ensures forall k :: k in ArmKeys(images) ==> exists y :: y in images && IsArm64Image(y) && ImageKey(y) == k
  {
    var arm := Filter(images, IsArm64Image);
    FilterMembers(images, IsArm64Image);
    KeysOfMembers(arm, ImageKey);
    forall y | y in images && IsArm64Image(y) ensures ImageKey(y) in ArmKeys(images) {
      var m :| 0 <= m < |arm| && arm[m] == y;
    }
    forall k | k in ArmKeys(images) ensures exists y :: y in images && IsArm64Image(y) && ImageKey(y) == k {
      var i :| 0 <= i < |arm| && ImageKey(arm[i]) == k;
      assert arm[i] in arm;
    }
  }

  /** The first pass returns ARM input images with distinct keys, covering every ARM key. */
  lemma ArmPassProps(images: seq<Image>)
    ensures forall x :: x in ArmPass(images) ==> x in images && IsArm64Image(x)
    ensures KeysDistinct(ArmPass(images), ImageKey)
    ensures KeysOf(ArmPass(images), ImageKey) == ArmKeys(images)
  {
    FilterMembers(images, IsArm64Image);
    DedupProps(Filter(images, IsArm64Image), ImageKey, {});
    assert ArmKeys(images) - {} == ArmKeys(images);
  }

  /** The second pass returns x86 minimal input images with distinct keys, none of them an ARM key. */
  lemma X86PassProps(images: seq<Image>)
    ensures forall x :: x in X86Pass(images) ==> x in images && IsX86MinimalImage(x)
    ensures KeysDistinct(X86Pass(images), ImageKey)
    ensures forall i :: 0 <= i < |X86Pass(images)| ==> ImageKey(X86Pass(images)[i]) !in ArmKeys(images)
    ensures KeysOf(X86Pass(images), ImageKey)
         == KeysOf(Filter(images, IsX86MinimalImage), ImageKey) - ArmKeys(images)
  {
    FilterMembers(images, IsX86MinimalImage);
    DedupProps(Filter(images, IsX86MinimalImage), ImageKey, ArmKeys(images));
  }

  /** The ARM images of the result are the first pass and its x86 minimal images the second. */
  lemma AlwaysFreeImagesParts(images: seq<Image>)
    ensures Filter(AlwaysFreeImages(images), IsArm64Image) == ArmPass(images)
    ensures Filter(AlwaysFreeImages(images), IsX86MinimalImage) == X86Pass(images)
  {
    var a, b := ArmPass(images), X86Pass(images);
    ArmPassProps(images);
    X86PassProps(images);
    FilterAppend(a, b, IsArm64Image);
    FilterAppend(a, b, IsX86MinimalImage);
    FilterAll(a, IsArm64Image);
    FilterNone(b, IsArm64Image);
    FilterNone(a, IsX86MinimalImage);
    FilterAll(b, IsX86MinimalImage);
    assert a + [] == a && [] + b == b;
  }

  /** Every returned image is an input image that is ARM, or minimal and not ARM. */
  lemma AlwaysFreeImagesSound(images: seq<Image>)
    ensures forall x :: x in AlwaysFreeImages(images) ==>
              x in images && (IsArm64Image(x) || (!IsArm64Image(x) && IsMinimalImage(x)))
  {
    ArmPassProps(images);
    X86PassProps(images);
  }

  /** No two returned images share an `OS-OSVersion` key. */
  lemma AlwaysFreeImagesKeysDistinct(images: seq<Image>)
    ensures KeysDistinct(AlwaysFreeImages(images), ImageKey)
  {
    ArmPassProps(images);
    X86PassProps(images);
    KeysDistinctAppend(ArmPass(images), X86Pass(images), ImageKey);
  }

  /** Every ARM image comes before every x86 image in the result. */
  lemma AlwaysFreeImagesArmFirst(images: seq<Image>)
    ensures var r := AlwaysFreeImages(images);
            forall i, j :: 0 <= i < j < |r| && IsArm64Image(r[j]) ==> IsArm64Image(r[i])
  {
    ArmPassProps(images);
    X86PassProps(images);
    AppendPartitioned(ArmPass(images), X86Pass(images), IsArm64Image);
  }

  /** Each pass keeps input order: the ARM part and the x86 part are subsequences of the input. */
  lemma AlwaysFreeImagesOrder(images: seq<Image>)
    ensures Subseq(Filter(AlwaysFreeImages(images), IsArm64Image), images)
    ensures Subseq(Filter(AlwaysFreeImages(images), IsX86MinimalImage), images)
  {
    AlwaysFreeImagesParts(images);
    var arm, x86 := Filter(images, IsArm64Image), Filter(images, IsX86MinimalImage);
    DedupSubseq(arm, ImageKey, {});
    FilterSubseq(images, IsArm64Image);
    SubseqTrans(ArmPass(images), arm, images);
    DedupSubseq(x86, ImageKey, ArmKeys(images));
    FilterSubseq(images, IsX86MinimalImage);
    SubseqTrans(X86Pass(images), x86, images);
  }

  /**
   * The result covers exactly the keys of the eligible images: a key is
   * returned iff some input image with that key is ARM or x86 minimal.
   */
  lemma AlwaysFreeImagesCoversKeys(images: seq<Image>)
    ensures KeysOf(AlwaysFreeImages(images), ImageKey)
         == KeysOf(Filter(images, IsArm64Image), ImageKey) + KeysOf(Filter(images, IsX86MinimalImage), ImageKey)
  {
    ArmPassProps(images);
    X86PassProps(images);
    KeysOfAppend(ArmPass(images), X86Pass(images), ImageKey);
  }

  /**
   * ARM precedence: an x86 image is never returned when some ARM input image
   * carries its key.
   */
  lemma ArmKeyExcludesX86(images: seq<Image>, x: Image, y: Image)
    requires x in AlwaysFreeImages(images) && !IsArm64Image(x)
    requires y in images && IsArm64Image(y)
    ensures ImageKey(x) != ImageKey(y)
  {
    ArmPassProps(images);
    X86PassProps(images);
    ArmKeysMembers(images);
    assert x in X86Pass(images);
    var k :| 0 <= k < |X86Pass(images)| && X86Pass(images)[k] == x;
  }

  /**
   * First wins among ARM images: the first ARM image of a key is returned, and
   * it is the only returned image with that key.
   */
  lemma FirstArmImageKept(images: seq<Image>, j: nat)
    requires j < |images| && IsArm64Image(images[j])
    requires forall i :: 0 <= i < j && IsArm64Image(images[i]) ==> ImageKey(images[i]) != ImageKey(images[j])
    ensures images[j] in AlwaysFreeImages(images)
    ensures forall y :: y in AlwaysFreeImages(images) && ImageKey(y) == ImageKey(images[j]) ==> y == images[j]
  {
    FilterDedupKeepsFirst(images, IsArm64Image, ImageKey, {}, j);
    X86PassProps(images);
    ArmKeysMembers(images);
    forall y | y in X86Pass(images) ensures ImageKey(y) != ImageKey(images[j]) {
      var k :| 0 <= k < |X86Pass(images)| && X86Pass(images)[k] == y;
    }
  }

  /**
   * First wins among x86 minimal images whose key no ARM image carries: the
   * first of them is returned, and it is the only returned image with that key.
   */
  lemma FirstX86MinimalImageKept(images: seq<Image>, j: nat)
    requires j < |images| && !IsArm64Image(images[j]) && IsMinimalImage(images[j])
    requires forall y :: y in images && IsArm64Image(y) ==> ImageKey(y) != ImageKey(images[j])
    requires forall i :: 0 <= i < j && IsX86MinimalImage(images[i]) ==> ImageKey(images[i]) != ImageKey(images[j])
    ensures images[j] in AlwaysFreeImages(images)
    ensures forall y :: y in AlwaysFreeImages(images) && ImageKey(y) == ImageKey(images[j]) ==> y == images[j]
  {
    assert ImageKey(images[j]) !in ArmKeys(images) by {
      var arm := Filter(images, IsArm64Image);
      FilterMembers(images, IsArm64Image);
      KeysOfMembers(arm, ImageKey);
      forall m | 0 <= m < |arm| ensures ImageKey(arm[m]) != ImageKey(images[j]) {
        assert arm[m] in arm;
      }
    }
    FilterDedupKeepsFirst(images, IsX86MinimalImage, ImageKey, ArmKeys(images), j);
    ArmPassProps(images);
    var a := ArmPass(images);
    KeysOfMembers(a, ImageKey);
    forall y | y in a ensures ImageKey(y) != ImageKey(images[j]) {
      var k :| 0 <= k < |a| && a[k] == y;
      assert ImageKey(a[k]) in KeysOf(a, ImageKey);
    }
  }

  /** Filtering an already filtered image list returns it unchanged. */
  lemma AlwaysFreeImagesIdempotent(images: seq<Image>)
    ensures AlwaysFreeImages(AlwaysFreeImages(images)) == AlwaysFreeImages(images)
  {
    AlwaysFreeImagesParts(images);
    ArmPassProps(images);
    X86PassProps(images);
    DedupOfDistinct(ArmPass(images), ImageKey, {});
    DedupOfDistinct(X86Pass(images), ImageKey, ArmKeys(images));
  }
}
