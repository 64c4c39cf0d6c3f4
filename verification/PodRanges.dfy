/** Pod secondary ranges: which to try and in which order (pkg/providers/instance/podrange.go). */
module PodRanges {
  import opened Basics

  type FreeIPs = map<string, int>

  /** Explicit NodeClass ranges replace the cluster's; with neither, one empty name leaves the choice to GKE. */
  function Resolved(pinned: seq<string>, cluster: seq<string>): (names: seq<string>)
    ensures names != []
    ensures |names| <= |pinned| || |names| <= |cluster| || names == [""]
  {
    if pinned != [] then pinned else if cluster != [] then cluster else [""]
  }

  /** The comparison the sort is given: known counts first, then the greater count; a missing count reads as zero. */
  predicate Before(a: string, b: string, free: FreeIPs) {
    if (a in free) != (b in free) then a in free
    else a in free && free[a] > free[b]
  }

  function Place(x: string, xs: seq<string>, free: FreeIPs): seq<string> {
    if xs == [] then [x]
    else if Before(xs[0], x, free) then [xs[0]] + Place(x, xs[1..], free)
    else [x] + xs
  }

  /** A stable sort: an element goes in front of the later ones it ties with. */
  function Ranked(names: seq<string>, free: FreeIPs): seq<string> {
    if names == [] then [] else Place(names[0], Ranked(names[1..], free), free)
  }

  predicate InRank(xs: seq<string>, free: FreeIPs) {
    forall i, j | 0 <= i < j < |xs| :: !Before(xs[j], xs[i], free)
  }

  function Count(x: string, free: FreeIPs): Option<int> {
    if x in free then Some(free[x]) else None
  }

  /** The names with one free-IP count, in the order given. */
  function WithCount(xs: seq<string>, c: Option<int>, free: FreeIPs): seq<string> {
    if xs == [] then []
    else if Count(xs[0], free) == c then [xs[0]] + WithCount(xs[1..], c, free)
    else WithCount(xs[1..], c, free)
  }

  lemma {:induction false} PlaceMembers(x: string, xs: seq<string>, free: FreeIPs)
    ensures forall y :: y in Place(x, xs, free) <==> y == x || y in xs
  {
    if xs != [] && Before(xs[0], x, free) { PlaceMembers(x, xs[1..], free); }
  }

  lemma {:induction false} PlaceInRank(x: string, xs: seq<string>, free: FreeIPs)
    requires InRank(xs, free)
    ensures InRank(Place(x, xs, free), free)
  {
    if xs != [] && Before(xs[0], x, free) {
      PlaceInRank(x, xs[1..], free);
      PlaceMembers(x, xs[1..], free);
      var rest := Place(x, xs[1..], free);
      forall j | 0 <= j < |rest|
        ensures !Before(rest[j], xs[0], free)
      {
        assert rest[j] in rest;
      }
    } else if xs != [] {
      forall j | 0 <= j < |xs|
        ensures !Before(xs[j], x, free)
      {
        assert j > 0 ==> !Before(xs[j], xs[0], free);
      }
    }
  }

  lemma {:induction false} PlaceWithCount(x: string, xs: seq<string>, c: Option<int>, free: FreeIPs)
    ensures WithCount(Place(x, xs, free), c, free)
            == (if Count(x, free) == c then [x] else []) + WithCount(xs, c, free)
  {
    if xs != [] && Before(xs[0], x, free) {
      PlaceWithCount(x, xs[1..], c, free);
      assert Place(x, xs, free)[1..] == Place(x, xs[1..], free);
    } else {
      assert Place(x, xs, free)[1..] == xs;
    }
  }

  /** The ranking: known before unknown, most free first, ties in input order. */
  lemma {:induction false} RankedIsStableSort(names: seq<string>, free: FreeIPs)
    ensures InRank(Ranked(names, free), free)
    ensures forall c :: WithCount(Ranked(names, free), c, free) == WithCount(names, c, free)
    ensures |Ranked(names, free)| == |names|
  {
    if names != [] {
      RankedIsStableSort(names[1..], free);
      PlaceInRank(names[0], Ranked(names[1..], free), free);
      forall c
        ensures WithCount(Ranked(names, free), c, free) == WithCount(names, c, free)
      {
        PlaceWithCount(names[0], Ranked(names[1..], free), c, free);
      }
      PlaceLength(names[0], Ranked(names[1..], free), free);
    }
  }

  /** A range whose count is known comes before any other, and one with more free IPs before one with fewer. */
  lemma MostFreeFirst(names: seq<string>, free: FreeIPs, ranked: seq<string>)
    requires ranked == Ranked(names, free)
    ensures forall i, j | 0 <= i < j < |ranked| && ranked[j] in free ::
              ranked[i] in free && free[ranked[i]] >= free[ranked[j]]
  {
    RankedIsStableSort(names, free);
  }

  lemma {:induction false} PlaceLength(x: string, xs: seq<string>, free: FreeIPs)
    ensures |Place(x, xs, free)| == |xs| + 1
  {
    if xs != [] { PlaceLength(x, xs[1..], free); }
  }

  lemma {:induction false} WithCountMembers(xs: seq<string>, c: Option<int>, free: FreeIPs)
    ensures forall y :: y in WithCount(xs, c, free) <==> y in xs && Count(y, free) == c
  {
    if xs != [] { WithCountMembers(xs[1..], c, free); }
  }

  /** A stable sort is unique: order and per-count subsequences leave no choice. */
  lemma {:induction false} StableSortUnique(xs: seq<string>, ys: seq<string>, free: FreeIPs)
    requires InRank(xs, free) && InRank(ys, free)
    requires forall c :: WithCount(xs, c, free) == WithCount(ys, c, free)
    ensures xs == ys
  {
    if xs == [] {
      if ys != [] { WithCountMembers(ys, Count(ys[0], free), free); }
    } else {
      SameFirst(xs, ys, free);
      forall c
        ensures WithCount(xs[1..], c, free) == WithCount(ys[1..], c, free)
      {
        assert WithCount(xs, c, free) == WithCount(ys, c, free);
        if Count(xs[0], free) == c {
          assert WithCount(xs, c, free)[1..] == WithCount(xs[1..], c, free);
          assert WithCount(ys, c, free)[1..] == WithCount(ys[1..], c, free);
        }
      }
      StableSortUnique(xs[1..], ys[1..], free);
    }
  }

  lemma SameFirst(xs: seq<string>, ys: seq<string>, free: FreeIPs)
    requires InRank(xs, free) && InRank(ys, free) && xs != []
    requires forall c :: WithCount(xs, c, free) == WithCount(ys, c, free)
    ensures ys != [] && xs[0] == ys[0]
  {
    var c := Count(xs[0], free);
    WithCountMembers(xs, c, free);
    WithCountMembers(ys, c, free);
    assert xs[0] in xs;
    assert xs[0] in ys;
    var d := Count(ys[0], free);
    WithCountMembers(xs, d, free);
    WithCountMembers(ys, d, free);
    assert ys[0] in ys;
    assert ys[0] in xs;
    assert c == d;
    assert WithCount(xs, c, free)[0] == xs[0] && WithCount(ys, c, free)[0] == ys[0];
  }

  /** The library's stable sort, by its contract, returns the ranking. */
  method RankPodRangeNames(names: seq<string>, free: FreeIPs) returns (ordered: seq<string>)
    ensures ordered == Ranked(names, free)
    ensures forall i, j | 0 <= i < j < |ordered| && ordered[j] in free ::
              ordered[i] in free && free[ordered[i]] >= free[ordered[j]]
  {
    ordered := [];
    var i := |names|;
    while i > 0
      invariant 0 <= i <= |names|
      invariant ordered == Ranked(names[i..], free)
    {
      i := i - 1;
      assert names[i..][0] == names[i] && names[i..][1..] == names[i + 1..];
      ordered := Place(names[i], ordered, free);
    }
    assert names[0..] == names;
    MostFreeFirst(names, free, ordered);
  }
}
