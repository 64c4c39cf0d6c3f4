/** The newest Ubuntu image for both architectures (pkg/providers/imagefamily/ubuntu.go). */
module UbuntuImages {
  import opened Basics
  import opened Text
  import opened ImageScan

  datatype Arch = Amd64 | Arm64

  const ARCHITECTURES := [Amd64, Arm64]

  datatype Version = Latest | Pinned(text: string) | Malformed

  /** The architecture a clean image name is for, the name prefix in scope, and the version asked for. */
  datatype Source = Source(classify: string -> Option<Arch>, prefix: string, version: Version)

  predicate HasVersion(src: Source, name: string) {
    match src.version
    case Pinned(text) => |"-" + text| <= |name| && name[|name| - |"-" + text|..] == "-" + text
    case _ => true
  }

  predicate UsableFor(src: Source, img: Image, arch: Arch) {
    Usable(img) && src.classify(img.name) == Some(arch)
  }

  /** The image is in scope, of the version asked for, and usable for the architecture. */
  predicate Matches(src: Source, img: Image, arch: Arch) {
    src.prefix <= img.name && HasVersion(src, img.name) && UsableFor(src, img, arch)
  }

  type Best = map<Arch, Image>

  function Offer(src: Source, best: Best, img: Image, arch: Arch): Best {
    if arch !in best && UsableFor(src, img, arch) then best[arch := img] else best
  }

  function Visit(src: Source, best: Best, img: Image): (Best, bool) {
    if !(src.prefix <= img.name && HasVersion(src, img.name)) then (best, false)
    else
      var best' := Offer(src, Offer(src, best, img, Amd64), img, Arm64);
      (best', |best'| == |ARCHITECTURES|)
  }

  function UbuntuVisitor(src: Source): Visitor<Best> {
    (best: Best, i: nat, img: Image) => Visit(src, best, img)
  }

  // ---------------------------------------------------------------- the flat catalog

  function First(src: Source, images: seq<Image>, n: nat, arch: Arch): (i: Option<nat>)
    requires n <= |images|
    ensures i.Some? ==> i.value < n && Matches(src, images[i.value], arch)
  {
    if n == 0 then None
    else
      var before := First(src, images, n - 1, arch);
      if before.Some? then before else if Matches(src, images[n - 1], arch) then Some(n - 1) else None
  }

  lemma {:induction false} FirstIsFirst(src: Source, images: seq<Image>, n: nat, arch: Arch)
    requires n <= |images|
    ensures var i := First(src, images, n, arch);
            forall j | 0 <= j < (if i.Some? then i.value else n) :: !Matches(src, images[j], arch)
  {
    if n > 0 { FirstIsFirst(src, images, n - 1, arch); }
  }

  /** In a listing sorted newest first, no image that matches is newer than the first. */
  lemma FirstIsNewest(src: Source, images: seq<Image>, arch: Arch)
    requires NewestFirst(images)
    ensures forall j | 0 <= j < |images| && Matches(src, images[j], arch) ::
              var i := First(src, images, |images|, arch); i.Some? && !Newer(images[j], images[i.value])
  {
    var i := First(src, images, |images|, arch);
    FirstIsFirst(src, images, |images|, arch);
    if i.Some? { NotNewerThanItself(images[i.value]); }
  }

  lemma {:induction false} FirstStays(src: Source, images: seq<Image>, n: nat, m: nat, arch: Arch)
    requires n <= m <= |images| && First(src, images, n, arch).Some?
    ensures First(src, images, m, arch) == First(src, images, n, arch)
  {
    if n < m { FirstStays(src, images, n, m - 1, arch); }
  }

  /** The map holds the first match for the architecture among the first n images. */
  predicate SumsOne(src: Source, images: seq<Image>, n: nat, best: Best, arch: Arch)
    requires n <= |images|
  {
    var first := First(src, images, n, arch);
    if first.Some? then arch in best && best[arch] == images[first.value] else arch !in best
  }

  predicate Sums(src: Source, images: seq<Image>, n: nat, best: Best)
    requires n <= |images|
  {
    SumsOne(src, images, n, best, Amd64) && SumsOne(src, images, n, best, Arm64)
  }

  lemma BothFound(best: Best)
    ensures |best| == |ARCHITECTURES| <==> Amd64 in best && Arm64 in best
  {
    var all, keys := {Amd64, Arm64}, best.Keys;
    forall a | a in keys
      ensures a in all
    {
      assert a.Amd64? || a.Arm64?;
    }
    assert |best| == |keys|;
    if Amd64 in best && Arm64 in best {
      assert keys == all;
    } else if Amd64 in best {
      assert keys == {Amd64};
    } else if Arm64 in best {
      assert keys == {Arm64};
    } else {
      assert keys == {};
    }
  }

  lemma VisitSums(src: Source, images: seq<Image>, i: nat, best: Best, best': Best, stop: bool)
    requires i < |images| && Sums(src, images, i, best) && (best', stop) == Visit(src, best, images[i])
    ensures Sums(src, images, i + 1, best')
    ensures !(Amd64 in best && Arm64 in best) ==> (stop <==> Amd64 in best' && Arm64 in best')
  {
    BothFound(best');
  }

  /** From image number i on, the scan stops once both architectures have their first match. */
  lemma {:induction false} ScanIsFirst(src: Source, images: seq<Image>, i: nat, best: Best, end: Best, stopped: bool)
    requires i <= |images| && (end, stopped) == Visited(images, i, best, UbuntuVisitor(src))
    requires Sums(src, images, i, best) && !(Amd64 in best && Arm64 in best)
    ensures Sums(src, images, |images|, end) && (stopped <==> Amd64 in end && Arm64 in end)
    decreases |images| - i
  {
    if i < |images| {
      var (best', stop) := Visit(src, best, images[i]);
      VisitSums(src, images, i, best, best', stop);
      if stop {
        FirstStays(src, images, i + 1, |images|, Amd64);
        FirstStays(src, images, i + 1, |images|, Arm64);
      } else {
        ScanIsFirst(src, images, i + 1, best', end, stopped);
      }
    }
  }

  // ---------------------------------------------------------------- resolution

  predicate Fits(src: Source, img: Image, arch: Arch) {
    UsableFor(src, img, arch) && HasVersion(src, img.name)
  }

  /** Image number k fits, no fitting one is newer, and those before it are older. */
  ghost predicate Newest(src: Source, images: seq<Image>, n: nat, arch: Arch, k: nat)
    requires n <= |images|
  {
    && k < n && Fits(src, images[k], arch)
    && (forall j | 0 <= j < n && Fits(src, images[j], arch) :: !Newer(images[j], images[k]))
    && (forall j | 0 <= j < k && Fits(src, images[j], arch) :: Newer(images[k], images[j]))
  }

  lemma NewerWins(src: Source, images: seq<Image>, n: nat, arch: Arch, k: nat)
    requires n < |images| && Newest(src, images, n, arch, k) && Fits(src, images[n], arch)
    ensures Newest(src, images, n + 1, arch, if Newer(images[n], images[k]) then n else k)
  {
    if Newer(images[n], images[k]) {
      LessEqTotal(images[n].created, images[n].created);
      LessEqTotal(images[n].created, images[k].created);
      forall j | 0 <= j < n && Fits(src, images[j], arch)
        ensures !Newer(images[j], images[n]) && Newer(images[n], images[j])
      {
        LessEqTransitive(images[j].created, images[k].created, images[n].created);
        if LessEq(images[n].created, images[j].created) {
          LessEqTransitive(images[n].created, images[j].created, images[k].created);
        }
      }
    }
  }

  /**
   The newest image usable for the architecture and of the version, the earliest in the list among equally new ones.
   */
  method SelectImage(src: Source, images: seq<Image>, arch: Arch) returns (best: Option<Image>)
    ensures match best
            case Some(img) => exists k: nat :: Newest(src, images, |images|, arch, k) && img == images[k]
            case None => forall j | 0 <= j < |images| :: !Fits(src, images[j], arch)
  {
    best := None;
    ghost var k := 0;
    for i := 0 to |images|
      invariant best.Some? ==> Newest(src, images, i, arch, k) && best.value == images[k]
      invariant best.None? ==> forall j | 0 <= j < i :: !Fits(src, images[j], arch)
    {
      var img := images[i];
      if UsableFor(src, img, arch) && HasVersion(src, img.name) {
        if best.Some? { NewerWins(src, images, i, arch, k); }
        if best.None? || Newer(img, best.value) {
          LessEqTotal(img.created, img.created);
          best, k := Some(img), i;
        }
      }
    }
  }

  datatype Problem = InvalidVersion | ListingFailed | NoImage(arch: Arch)

  /** What the flat catalog defines: the first match for both architectures, or which is missing. */
  function Resolution(src: Source, images: seq<Image>, fails: bool): Result<seq<Image>, Problem> {
    var amd, arm := First(src, images, |images|, Amd64), First(src, images, |images|, Arm64);
    if src.version.Malformed? then Err(InvalidVersion)
    else if amd.Some? && arm.Some? then Ok([images[amd.value], images[arm.value]])
    else if fails then Err(ListingFailed)
    else Err(NoImage(if amd.None? then Amd64 else Arm64))
  }

  method ListImages(listing: Listing, src: Source) returns (images: seq<Image>, ok: bool)
    ensures var flat := Flat(listing.pages);
            var amd, arm := First(src, flat, |flat|, Amd64), First(src, flat, |flat|, Arm64);
            && (ok <==> (amd.Some? && arm.Some?) || !listing.fails)
            && images == (if amd.Some? then [flat[amd.value]] else []) + (if arm.Some? then [flat[arm.value]] else [])
  {
    var none: Best := map[];
    var best, stopped, scanned := ScanImages(listing, none, UbuntuVisitor(src));
    ScanIsFirst(src, Flat(listing.pages), 0, none, best, stopped);
    ok := scanned;
    images := [];
    if Amd64 in best { images := images + [best[Amd64]]; }
    if Arm64 in best { images := images + [best[Arm64]]; }
  }

  method ResolveFirst(listing: Listing, src: Source) returns (r: Result<seq<Image>, Problem>)
    ensures r == Resolution(src, Flat(listing.pages), listing.fails)
  {
    if src.version.Malformed? { return Err(InvalidVersion); }
    var images, ok := ListImages(listing, src);
    if !ok { return Err(ListingFailed); }
    ghost var flat := Flat(listing.pages);
    var resolved := [];
    for i := 0 to |ARCHITECTURES|
      invariant |resolved| == i && forall k | 0 <= k < i ::
                  var first := First(src, flat, |flat|, ARCHITECTURES[k]);
                  first.Some? && resolved[k] == flat[first.value]
    {
      ghost var first := First(src, flat, |flat|, ARCHITECTURES[i]);
      assert ARCHITECTURES[i] == if i == 0 then Amd64 else Arm64;
      assert first.Some? ==> flat[first.value] in images;
      assert i > 0 ==> First(src, flat, |flat|, ARCHITECTURES[0]).Some?;
      var selected := SelectImage(src, images, ARCHITECTURES[i]);
      assert first.Some? ==> Fits(src, flat[first.value], ARCHITECTURES[i]);
      if selected.None? { return Err(NoImage(ARCHITECTURES[i])); }
      resolved := resolved + [selected.value];
    }
    ghost var amd, arm := First(src, flat, |flat|, ARCHITECTURES[0]), First(src, flat, |flat|, ARCHITECTURES[1]);
    assert resolved == [flat[amd.value], flat[arm.value]];
    r := Ok(resolved);
  }

  /** No image of the catalog that matches the architecture is newer than this one. */
  ghost predicate NewestMatch(src: Source, images: seq<Image>, arch: Arch, img: Image) {
    img in images && Matches(src, img, arch)
    && forall j | 0 <= j < |images| && Matches(src, images[j], arch) :: !Newer(images[j], img)
  }

  /** The image is ready and not withdrawn, of the architecture, in scope, and of the version if one is pinned. */
  ghost predicate Offered(src: Source, img: Image, arch: Arch) {
    && img.status == "READY" && img.deprecation !in {Some("DEPRECATED"), Some("OBSOLETE"), Some("DELETED")}
    && src.classify(img.name) == Some(arch) && src.prefix <= img.name
    && (src.version.Pinned? ==> exists front :: img.name == front + "-" + src.version.text)
  }

  lemma OfferedIffMatches(src: Source, img: Image, arch: Arch)
    ensures Offered(src, img, arch) <==> Matches(src, img, arch)
  {
    if src.version.Pinned? {
      var end := "-" + src.version.text;
      if |end| <= |img.name| && img.name[|img.name| - |end|..] == end {
        assert img.name == img.name[..|img.name| - |end|] + "-" + src.version.text;
      }
      if front :| img.name == front + "-" + src.version.text { assert img.name[|front|..] == end; }
    }
  }

  /** Images on offer are resolved, if both architectures have one; an architecture said to have none has none. */
  ghost predicate ResolvesOffered(src: Source, images: seq<Image>, r: Result<seq<Image>, Problem>) {
    && (r.Ok? ==> |r.value| == 2 && Offered(src, r.value[0], Amd64) && Offered(src, r.value[1], Arm64))
    && (r == Err(InvalidVersion) <==> src.version.Malformed?)
    && (r.Err? && r.error.NoImage? ==> forall img | img in images :: !Offered(src, img, r.error.arch))
  }

  lemma ResolutionIsOffered(src: Source, images: seq<Image>, fails: bool)
    ensures ResolvesOffered(src, images, Resolution(src, images, fails))
  {
    var r := Resolution(src, images, fails);
    if r.Ok? {
      OfferedIffMatches(src, r.value[0], Amd64);
      OfferedIffMatches(src, r.value[1], Arm64);
    } else if r.error.NoImage? {
      FirstIsFirst(src, images, |images|, r.error.arch);
      forall img | img in images
        ensures !Offered(src, img, r.error.arch)
      {
        OfferedIffMatches(src, img, r.error.arch);
      }
    }
  }

  /** The first match for both architectures or an error; and in a listing sorted newest first, the newest matches. */
  method ResolveImages(listing: Listing, src: Source) returns (r: Result<seq<Image>, Problem>)
    ensures r == Resolution(src, Flat(listing.pages), listing.fails) && ResolvesOffered(src, Flat(listing.pages), r)
    ensures r.Ok? && NewestFirst(Flat(listing.pages)) ==>
              && |r.value| == 2
              && NewestMatch(src, Flat(listing.pages), Amd64, r.value[0])
              && NewestMatch(src, Flat(listing.pages), Arm64, r.value[1])
  {
    r := ResolveFirst(listing, src);
    ResolutionIsOffered(src, Flat(listing.pages), listing.fails);
    if r.Ok? && NewestFirst(Flat(listing.pages)) {
      FirstIsNewest(src, Flat(listing.pages), Amd64);
      FirstIsNewest(src, Flat(listing.pages), Arm64);
    }
  }
}
