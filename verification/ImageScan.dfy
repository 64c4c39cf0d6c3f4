/** The paged scan for node images that stops early (pkg/providers/imagefamily/image_list.go). */
module ImageScan {
  import opened Basics
  import opened Text

  datatype Image = Image(name: string, created: string, status: string, deprecation: Option<string>)

  predicate Usable(img: Image) {
    img.status == "READY"
    && (img.deprecation.Some? ==> img.deprecation.value !in {"DEPRECATED", "OBSOLETE", "DELETED"})
  }

  predicate Newer(a: Image, b: Image) {
    !LessEq(a.created, b.created)
  }

  /** Sorted by creation, newest first, as the API is asked to list. */
  ghost predicate NewestFirst(images: seq<Image>) {
    forall i, j | 0 <= i < j < |images| :: !Newer(images[j], images[i])
  }

  lemma NotNewerThanItself(img: Image)
    ensures !Newer(img, img)
  {
    LessEqTotal(img.created, img.created);
  }

  /** The pages the API serves, newest image first, and whether the call after the last of them fails. */
  datatype Listing = Listing(pages: seq<seq<Image>>, fails: bool)

  function Flat(pages: seq<seq<Image>>): seq<Image> {
    if pages == [] then [] else pages[0] + Flat(pages[1..])
  }

  /** What a visitor makes of image number i: a new state, and whether to stop. */
  type Visitor<!S> = (S, nat, Image) -> (S, bool)

  /** Visiting the images one after the other from number i on, until told to stop. */
  function Visited<S>(images: seq<Image>, i: nat, s: S, visit: Visitor<S>): (S, bool)
    requires i <= |images|
    decreases |images| - i
  {
    if i == |images| then (s, false)
    else
      var (s', stop) := visit(s, i, images[i]);
      if stop then (s', true) else Visited(images, i + 1, s', visit)
  }

  lemma {:induction false} FlatSplit(pages: seq<seq<Image>>, n: nat)
    requires n <= |pages|
    ensures Flat(pages) == Flat(pages[..n]) + Flat(pages[n..])
  {
    if n == 0 {
      assert pages[0..] == pages;
    } else {
      FlatSplit(pages[1..], n - 1);
      assert pages[1..][..n - 1] == pages[..n][1..] && pages[1..][n - 1..] == pages[n..];
    }
  }

  lemma PageInFlat(pages: seq<seq<Image>>, n: nat, start: nat)
    requires n < |pages| && start == |Flat(pages[..n])|
    ensures start + |pages[n]| == |Flat(pages[..n + 1])| <= |Flat(pages)|
    ensures forall j | 0 <= j < |pages[n]| :: Flat(pages)[start + j] == pages[n][j]
  {
    FlatSplit(pages, n);
    FlatSplit(pages, n + 1);
    FlatSplit(pages[..n + 1], n);
    assert pages[..n + 1][..n] == pages[..n] && pages[..n + 1][n..] == [pages[n]];
    assert Flat([pages[n]]) == pages[n] by { assert [pages[n]][1..] == []; }
    assert Flat(pages[n..]) == pages[n] + Flat(pages[n + 1..]) by { assert pages[n..][1..] == pages[n + 1..]; }
  }

  /** One page: the visitor is told the number of each image in the catalog. */
  method VisitPage<S>(ghost images: seq<Image>, page: seq<Image>, start: nat, s: S, visit: Visitor<S>)
    returns (s': S, stopped: bool)
    requires start + |page| <= |images| && forall j | 0 <= j < |page| :: images[start + j] == page[j]
    ensures Visited(images, start, s, visit) == if stopped then (s', true)
            else Visited(images, start + |page|, s', visit)
  {
    s', stopped := s, false;
    for j := 0 to |page|
      invariant !stopped && Visited(images, start + j, s', visit) == Visited(images, start, s, visit)
    {
      var (next, stop) := visit(s', start + j, page[j]);
      assert images[start + j] == page[j];
      s', stopped := next, stop;
      if stop { return; }
    }
  }

  /** Page by page, the visitor sees just the flat catalog; a failing page matters only if it is reached. */
  method ScanImages<S>(listing: Listing, init: S, visit: Visitor<S>) returns (s: S, stopped: bool, ok: bool)
    ensures (s, stopped) == Visited(Flat(listing.pages), 0, init, visit)
    ensures ok <==> stopped || !listing.fails
  {
    s, stopped := init, false;
    ghost var images := Flat(listing.pages);
    ghost var all := Visited(images, 0, init, visit);
    var seen := 0;
    for n := 0 to |listing.pages|
      invariant seen == |Flat(listing.pages[..n])| <= |images| && !stopped
      invariant Visited(images, seen, s, visit) == all
    {
      PageInFlat(listing.pages, n, seen);
      s, stopped := VisitPage(images, listing.pages[n], seen, s, visit);
      if stopped { return s, true, true; }
      seen := seen + |listing.pages[n]|;
    }
    assert listing.pages[..|listing.pages|] == listing.pages;
    ok := !listing.fails;
  }
}
