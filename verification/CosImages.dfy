/** The newest Container-Optimized OS image of every variant (pkg/providers/imagefamily/containeroptimizedos.go). */
module CosImages {
  import opened Basics
  import opened ImageScan

  datatype Variant = Amd64Cpu | Arm64Cpu | Amd64Nvidia

  const VARIANTS := [Amd64Cpu, Arm64Cpu, Amd64Nvidia]

  /** What re-reading a listed image gives. */
  datatype Lookup = Gone | Read(image: Image) | LookupFailed

  /** How names are classified, the name prefix in scope, and what re-reading the image listed as number i gives. */
  datatype Source = Source(classify: string -> Option<Variant>, scope: string, lookup: nat -> Lookup)

  function ListedVariant(src: Source, img: Image): Option<Variant> {
    if src.scope <= img.name && Usable(img) then src.classify(img.name) else None
  }

  datatype Selection = Selection(selected: map<Variant, Image>, failed: Option<string>)

  function Visit(src: Source, s: Selection, i: nat, img: Image): (Selection, bool) {
    var v := ListedVariant(src, img);
    if v.None? || v.value in s.selected then (s, false)
    else match src.lookup(i)
      case LookupFailed => (s.(failed := Some(img.name)), true)
      case Gone => (s, |s.selected| == |VARIANTS|)
      case Read(image) =>
        var s' := if Usable(image) then s.(selected := s.selected[v.value := image]) else s;
        (s', |s'.selected| == |VARIANTS|)
  }

  function CosVisitor(src: Source): Visitor<Selection> {
    (s: Selection, i: nat, img: Image) => Visit(src, s, i, img)
  }

  // ---------------------------------------------------------------- the flat catalog

  /** Image number i is of the variant, and usable both as listed and as re-read. */
  predicate Good(src: Source, images: seq<Image>, i: nat, v: Variant) {
    i < |images| && ListedVariant(src, images[i]) == Some(v) && src.lookup(i).Read? && Usable(src.lookup(i).image)
  }

  /** The first good image of the variant among the first n. */
  function First(src: Source, images: seq<Image>, n: nat, v: Variant): (i: Option<nat>)
    ensures i.Some? ==> Good(src, images, i.value, v)
  {
    if n == 0 then None
    else
      var before := First(src, images, n - 1, v);
      if before.Some? then before else if Good(src, images, n - 1, v) then Some(n - 1) else None
  }

  lemma {:induction false} FirstIsFirst(src: Source, images: seq<Image>, n: nat, v: Variant)
    ensures var i := First(src, images, n, v);
            if i.Some? then i.value < n && forall j: nat | j < i.value :: !Good(src, images, j, v)
            else forall j: nat | j < n :: !Good(src, images, j, v)
  {
    if n > 0 { FirstIsFirst(src, images, n - 1, v); }
  }

  /** In a listing sorted newest first, no good image of a variant is listed as newer than the first. */
  lemma FirstIsNewest(src: Source, images: seq<Image>, v: Variant)
    requires NewestFirst(images)
    ensures forall j: nat | Good(src, images, j, v) ::
              var i := First(src, images, |images|, v); i.Some? && !Newer(images[j], images[i.value])
  {
    var i := First(src, images, |images|, v);
    FirstIsFirst(src, images, |images|, v);
    if i.Some? { NotNewerThanItself(images[i.value]); }
  }

  /** Re-reading image number i fails, and no earlier image of its variant is good. */
  predicate Blocks(src: Source, images: seq<Image>, i: nat) {
    i < |images| && ListedVariant(src, images[i]).Some? && src.lookup(i).LookupFailed?
    && First(src, images, i, ListedVariant(src, images[i]).value).None?
  }

  /** The selection holds the first good image of the variant among the first n. */
  predicate SumsOne(src: Source, images: seq<Image>, n: nat, selected: map<Variant, Image>, v: Variant) {
    var first := First(src, images, n, v);
    if first.Some? then v in selected && selected[v] == src.lookup(first.value).image else v !in selected
  }

  ghost predicate Sums(src: Source, images: seq<Image>, n: nat, selected: map<Variant, Image>) {
    forall v: Variant :: SumsOne(src, images, n, selected, v)
  }

  ghost predicate Full(selected: map<Variant, Image>) {
    forall v: Variant :: v in selected
  }

  lemma {:induction false} SmallerSubset(a: set<Variant>, b: set<Variant>)
    requires a <= b
    ensures |a| <= |b|
  {
    if a != {} {
      var x :| x in a;
      SmallerSubset(a - {x}, b - {x});
    }
  }

  lemma AllVariants(selected: map<Variant, Image>)
    ensures |selected| == |VARIANTS| <==> Full(selected)
  {
    var all, keys := {Amd64Cpu, Arm64Cpu, Amd64Nvidia}, selected.Keys;
    forall v | v in keys
      ensures v in all
    {
      match v case Amd64Cpu => case Arm64Cpu => case Amd64Nvidia =>
    }
    assert |selected| == |keys|;
    if Full(selected) {
      assert keys == all;
    } else {
      var v: Variant :| v !in selected;
      assert v.Amd64Cpu? || v.Arm64Cpu? || v.Amd64Nvidia?;
      assert |all - {v}| == 2;
      SmallerSubset(keys, all - {v});
    }
  }

  // ---------------------------------------------------------------- the scan finds what the flat catalog defines

  lemma VisitSums(src: Source, images: seq<Image>, i: nat, s: Selection, s': Selection, stop: bool)
    requires i < |images| && Sums(src, images, i, s.selected) && (s', stop) == Visit(src, s, i, images[i])
    requires !Blocks(src, images, i)
    ensures s'.failed == s.failed && Sums(src, images, i + 1, s'.selected)
  {
    var listed := ListedVariant(src, images[i]);
    if listed.Some? { assert SumsOne(src, images, i, s.selected, listed.value); }
    var n := i + 1;
    forall v: Variant
      ensures SumsOne(src, images, n, s'.selected, v)
    {
      assert SumsOne(src, images, i, s.selected, v);
    }
  }

  lemma VisitStops(src: Source, images: seq<Image>, i: nat, s: Selection, s': Selection, stop: bool)
    requires i < |images| && Sums(src, images, i, s.selected) && (s', stop) == Visit(src, s, i, images[i])
    requires !Full(s.selected)
    ensures if Blocks(src, images, i) then stop && s' == s.(failed := Some(images[i].name))
            else stop <==> Full(s'.selected)
  {
    var listed := ListedVariant(src, images[i]);
    if listed.Some? { assert SumsOne(src, images, i, s.selected, listed.value); }
    AllVariants(s.selected);
    AllVariants(s'.selected);
  }

  /** Image number j is the first whose lookup blocks. */
  ghost predicate FirstBlock(src: Source, images: seq<Image>, j: nat) {
    Blocks(src, images, j) && forall k: nat | k < j :: !Blocks(src, images, k)
  }

  /** What the scan must come to: the first block if there is one, else all the first good images. */
  ghost predicate Found(src: Source, images: seq<Image>, end: Selection, stopped: bool) {
    match end.failed
    case Some(name) => stopped && exists j: nat :: FirstBlock(src, images, j) && name == images[j].name
    case None =>
      && (forall j: nat :: !Blocks(src, images, j))
      && Sums(src, images, |images|, end.selected)
      && (stopped <==> Full(end.selected))
  }

  lemma {:induction false} FirstStays(src: Source, images: seq<Image>, n: nat, m: nat, v: Variant)
    requires n <= m && First(src, images, n, v).Some?
    ensures First(src, images, m, v) == First(src, images, n, v)
  {
    if n < m { FirstStays(src, images, n, m - 1, v); }
  }

  /** Once every variant has its first good image, what follows changes nothing. */
  lemma AllFound(src: Source, images: seq<Image>, n: nat, selected: map<Variant, Image>)
    requires n <= |images| && Sums(src, images, n, selected) && Full(selected)
    requires forall j: nat | j < n :: !Blocks(src, images, j)
    ensures Sums(src, images, |images|, selected)
    ensures forall j: nat :: !Blocks(src, images, j)
  {
    forall v: Variant
      ensures SumsOne(src, images, |images|, selected, v)
    {
      assert SumsOne(src, images, n, selected, v);
      FirstStays(src, images, n, |images|, v);
    }
    forall j: nat
      ensures !Blocks(src, images, j)
    {
      if n <= j && j < |images| && ListedVariant(src, images[j]).Some? {
        var v := ListedVariant(src, images[j]).value;
        assert SumsOne(src, images, n, selected, v);
        FirstStays(src, images, n, j, v);
      }
    }
  }

  /** From image number i on, the scan stops at the first lookup that blocks, or once every variant is found. */
  lemma {:induction false} ScanIsFirst(src: Source, images: seq<Image>, i: nat, s: Selection, end: Selection,
                                       stopped: bool)
    requires i <= |images| && (end, stopped) == Visited(images, i, s, CosVisitor(src))
    requires Sums(src, images, i, s.selected) && s.failed.None? && !Full(s.selected)
    requires forall j: nat | j < i :: !Blocks(src, images, j)
    ensures Found(src, images, end, stopped)
    decreases |images| - i
  {
    if i < |images| {
      var (s', stop) := Visit(src, s, i, images[i]);
      VisitStops(src, images, i, s, s', stop);
      if Blocks(src, images, i) {
        assert FirstBlock(src, images, i);
      } else {
        VisitSums(src, images, i, s, s', stop);
        if stop {
          AllFound(src, images, i + 1, s'.selected);
        } else {
          ScanIsFirst(src, images, i + 1, s', end, stopped);
        }
      }
    }
  }

  // ---------------------------------------------------------------- resolution

  datatype Problem = ListingFailed | LookupError(name: string) | Unavailable

  datatype Chosen = Chosen(variant: Variant, image: Image)

  /** The images of the variants found, in the published order. */
  function InOrder(selected: map<Variant, Image>, variants: seq<Variant>): seq<Chosen> {
    if variants == [] then []
    else
      var n := |variants| - 1;
      InOrder(selected, variants[..n])
      + (if variants[n] in selected then [Chosen(variants[n], selected[variants[n]])] else [])
  }

  /**
   Per variant the first image of the flat catalog that is usable as listed and as re-read; an error when a lookup
   blocks, when the listing fails before every variant is found, or when none is.
   */
  ghost predicate Resolves(src: Source, images: seq<Image>, fails: bool, r: Result<seq<Chosen>, Problem>) {
    match r
    case Ok(chosen) =>
      && (forall j: nat :: !Blocks(src, images, j))
      && exists selected ::
           && Sums(src, images, |images|, selected) && selected != map[] && (fails ==> Full(selected))
           && chosen == InOrder(selected, VARIANTS)
    case Err(LookupError(name)) => exists j: nat :: FirstBlock(src, images, j) && name == images[j].name
    case Err(ListingFailed) =>
      fails && (forall j: nat :: !Blocks(src, images, j)) && exists v: Variant :: First(src, images, |images|, v).None?
    case Err(Unavailable) =>
      !fails && (forall j: nat :: !Blocks(src, images, j)) && forall v: Variant :: First(src, images, |images|, v).None?
  }

  method List(selected: map<Variant, Image>) returns (chosen: seq<Chosen>)
    ensures chosen == InOrder(selected, VARIANTS)
  {
    chosen := [];
    for i := 0 to |VARIANTS|
      invariant chosen == InOrder(selected, VARIANTS[..i])
    {
      assert VARIANTS[..i + 1][..i] == VARIANTS[..i];
      if VARIANTS[i] in selected { chosen := chosen + [Chosen(VARIANTS[i], selected[VARIANTS[i]])]; }
    }
    assert VARIANTS[..|VARIANTS|] == VARIANTS;
  }

  lemma NothingFound(src: Source, images: seq<Image>)
    requires Sums(src, images, |images|, map[])
    ensures forall v: Variant :: First(src, images, |images|, v).None?
  {
    forall v: Variant
      ensures First(src, images, |images|, v).None?
    {
      assert SumsOne(src, images, |images|, map[], v);
    }
  }

  lemma NotAllFound(src: Source, images: seq<Image>, selected: map<Variant, Image>)
    requires Sums(src, images, |images|, selected) && !Full(selected)
    ensures exists v: Variant :: First(src, images, |images|, v).None?
  {
    var v: Variant :| v !in selected;
    assert SumsOne(src, images, |images|, selected, v);
  }

  /** What is chosen was re-read from a good image of its variant that no other good one is newer than. */
  ghost predicate NewestGood(src: Source, images: seq<Image>, c: Chosen) {
    exists i: nat :: Good(src, images, i, c.variant) && c.image == src.lookup(i).image
      && forall j: nat | Good(src, images, j, c.variant) :: !Newer(images[j], images[i])
  }

  lemma {:induction false} ChosenAreSelected(selected: map<Variant, Image>, variants: seq<Variant>, c: Chosen)
    requires c in InOrder(selected, variants)
    ensures c.variant in selected && c.image == selected[c.variant]
  {
    var n := |variants| - 1;
    if variants[n] !in selected || c != Chosen(variants[n], selected[variants[n]]) {
      ChosenAreSelected(selected, variants[..n], c);
    }
  }

  lemma ChosenAreNewest(src: Source, images: seq<Image>, selected: map<Variant, Image>, c: Chosen)
    requires NewestFirst(images) && Sums(src, images, |images|, selected) && c in InOrder(selected, VARIANTS)
    ensures NewestGood(src, images, c)
  {
    ChosenAreSelected(selected, VARIANTS, c);
    assert SumsOne(src, images, |images|, selected, c.variant);
    FirstIsNewest(src, images, c.variant);
    var i := First(src, images, |images|, c.variant).value;
    assert Good(src, images, i, c.variant) && c.image == src.lookup(i).image;
  }

  /** The image is ready, and nobody withdrew it. */
  ghost predicate Live(img: Image) {
    img.status == "READY" && img.deprecation !in {Some("DEPRECATED"), Some("OBSOLETE"), Some("DELETED")}
  }

  /** Image number i is in scope, live as listed and as re-read, and classified as this variant. */
  ghost predicate Offered(src: Source, images: seq<Image>, i: nat, v: Variant, img: Image) {
    && i < |images| && src.scope <= images[i].name && src.classify(images[i].name) == Some(v)
    && Live(images[i]) && src.lookup(i) == Read(img) && Live(img)
  }

  /** Only images on offer are chosen, one for each variant that has any; if none is chosen, none is on offer. */
  ghost predicate ChoosesLive(src: Source, images: seq<Image>, r: Result<seq<Chosen>, Problem>) {
    && (r.Ok? ==> forall c | c in r.value :: exists i: nat :: Offered(src, images, i, c.variant, c.image))
    && (r.Ok? ==> forall i: nat, v, img | Offered(src, images, i, v, img) :: exists c | c in r.value :: c.variant == v)
    && (r == Err(Unavailable) ==> forall i: nat, v, img :: !Offered(src, images, i, v, img))
  }

  lemma OfferedIsGood(src: Source, images: seq<Image>, i: nat, v: Variant, img: Image)
    ensures Offered(src, images, i, v, img) <==> Good(src, images, i, v) && src.lookup(i).image == img
  {
  }

  lemma {:induction false} SelectedAreChosen(selected: map<Variant, Image>, variants: seq<Variant>, v: Variant)
    requires v in selected && v in variants
    ensures Chosen(v, selected[v]) in InOrder(selected, variants)
  {
    var n := |variants| - 1;
    if variants[n] != v { SelectedAreChosen(selected, variants[..n], v); }
  }

  lemma ResolvesToLive(src: Source, images: seq<Image>, fails: bool, r: Result<seq<Chosen>, Problem>)
    requires Resolves(src, images, fails, r)
    ensures ChoosesLive(src, images, r)
  {
    if r.Ok? {
      var selected :| Sums(src, images, |images|, selected) && r.value == InOrder(selected, VARIANTS);
      forall c | c in r.value
        ensures exists i: nat :: Offered(src, images, i, c.variant, c.image)
      {
        ChosenAreSelected(selected, VARIANTS, c);
        assert SumsOne(src, images, |images|, selected, c.variant);
        OfferedIsGood(src, images, First(src, images, |images|, c.variant).value, c.variant, c.image);
      }
      forall i: nat, v, img | Offered(src, images, i, v, img)
        ensures exists c | c in r.value :: c.variant == v
      {
        OfferedIsGood(src, images, i, v, img);
        FirstIsFirst(src, images, |images|, v);
        assert SumsOne(src, images, |images|, selected, v);
        assert v in VARIANTS by { assert v == VARIANTS[0] || v == VARIANTS[1] || v == VARIANTS[2]; }
        SelectedAreChosen(selected, VARIANTS, v);
      }
    } else if r == Err(Unavailable) {
      forall i: nat, v, img
        ensures !Offered(src, images, i, v, img)
      {
        OfferedIsGood(src, images, i, v, img);
        FirstIsFirst(src, images, |images|, v);
      }
    }
  }

  method ResolveScanned(listing: Listing, src: Source) returns (r: Result<seq<Chosen>, Problem>)
    ensures Resolves(src, Flat(listing.pages), listing.fails, r)
  {
    var none := Selection(map[], None);
    var s, stopped, ok := ScanImages(listing, none, CosVisitor(src));
    ghost var images := Flat(listing.pages);
    assert !Full(none.selected) by { assert Amd64Cpu !in none.selected; }
    assert Sums(src, images, 0, none.selected);
    ScanIsFirst(src, images, 0, none, s, stopped);
    if !ok {
      NotAllFound(src, images, s.selected);
      return Err(ListingFailed);
    }
    if s.failed.Some? { return Err(LookupError(s.failed.value)); }
    if |s.selected| == 0 {
      assert s.selected == map[];
      assert !Full(s.selected) by { assert Amd64Cpu !in s.selected; }
      NothingFound(src, images);
      return Err(Unavailable);
    }
    var chosen := List(s.selected);
    r := Ok(chosen);
  }

  lemma AllNewest(src: Source, images: seq<Image>, fails: bool, r: Result<seq<Chosen>, Problem>)
    requires Resolves(src, images, fails, r) && r.Ok? && NewestFirst(images)
    ensures forall c | c in r.value :: NewestGood(src, images, c)
  {
    var selected :| Sums(src, images, |images|, selected) && r.value == InOrder(selected, VARIANTS);
    forall c | c in r.value
      ensures NewestGood(src, images, c)
    {
      ChosenAreNewest(src, images, selected, c);
    }
  }

  /** Against the flat catalog; and in a listing sorted newest first, the newest good image of every variant found. */
  method ResolveLatest(listing: Listing, src: Source) returns (r: Result<seq<Chosen>, Problem>)
    ensures Resolves(src, Flat(listing.pages), listing.fails, r) && ChoosesLive(src, Flat(listing.pages), r)
    ensures r.Ok? && NewestFirst(Flat(listing.pages)) ==>
              forall c | c in r.value :: NewestGood(src, Flat(listing.pages), c)
  {
    r := ResolveScanned(listing, src);
    ResolvesToLive(src, Flat(listing.pages), listing.fails, r);
    if r.Ok? && NewestFirst(Flat(listing.pages)) { AllNewest(src, Flat(listing.pages), listing.fails, r); }
  }

  // ---------------------------------------------------------------- an exact build

  function ExactVisitor(src: Source): Visitor<Option<Image>> {
    (best: Option<Image>, i: nat, img: Image) =>
      if ListedVariant(src, img) == Some(Amd64Cpu) then (Some(img), true) else (best, false)
  }

  lemma {:induction false} ExactIsFirst(src: Source, images: seq<Image>, i: nat, best: Option<Image>, stopped: bool)
    requires i <= |images| && (best, stopped) == Visited(images, i, None, ExactVisitor(src))
    ensures stopped <==> best.Some?
    ensures match best
            case Some(img) =>
              exists j | i <= j < |images| :: images[j] == img && ListedVariant(src, img) == Some(Amd64Cpu)
                && forall k | i <= k < j :: ListedVariant(src, images[k]) != Some(Amd64Cpu)
            case None => forall k | i <= k < |images| :: ListedVariant(src, images[k]) != Some(Amd64Cpu)
    decreases |images| - i
  {
    if i < |images| && ListedVariant(src, images[i]) != Some(Amd64Cpu) {
      ExactIsFirst(src, images, i + 1, best, stopped);
    }
  }

  /** The first usable amd64 image with the build's prefix, or an error: another build is never taken instead. */
  method ResolveExactBuild(listing: Listing, src: Source) returns (r: Result<Image, Problem>)
    ensures var images := Flat(listing.pages);
            match r
            case Ok(img) =>
              && src.scope <= img.name && src.classify(img.name) == Some(Amd64Cpu) && Live(img)
              && exists j | 0 <= j < |images| ::
                   && images[j] == img && ListedVariant(src, img) == Some(Amd64Cpu)
                   && forall k | 0 <= k < j :: ListedVariant(src, images[k]) != Some(Amd64Cpu)
            case Err(problem) =>
              && problem == (if listing.fails then ListingFailed else Unavailable)
              && forall k | 0 <= k < |images| :: ListedVariant(src, images[k]) != Some(Amd64Cpu)
    ensures r.Err? ==> forall img | img in Flat(listing.pages) && Live(img) && src.scope <= img.name ::
              src.classify(img.name) != Some(Amd64Cpu)
  {
    var best, stopped, ok := ScanImages(listing, None, ExactVisitor(src));
    ExactIsFirst(src, Flat(listing.pages), 0, best, stopped);
    if !ok { return Err(ListingFailed); }
    if best.None? { return Err(Unavailable); }
    r := Ok(best.value);
  }
}
