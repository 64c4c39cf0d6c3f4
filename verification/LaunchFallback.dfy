/** Which capacity type a launch tries first, and when it goes on to on-demand (pkg/providers/instance/instance.go). */
module LaunchFallback {
  import opened Basics
  import opened Offerings
  import opened PodRanges
  import opened Launch
  import opened LaunchDiscipline

  /** The claim allows the capacity type, and one of the types has an available offering of it in an allowed zone. */
  ghost predicate Offers(claim: Claim, types: seq<InstanceType>, cap: string) {
    && claim.capacityOk(cap)
    && exists it, o | it in types && o in it.offerings :: o.available && o.capacityType == cap && claim.zoneOk(o.zone)
  }

  /** Every type pins one SSD count, and sorting the types by price only puts them in another order. */
  ghost predicate Sortable(order: (seq<InstanceType>, string) -> seq<InstanceType>, types: seq<InstanceType>) {
    && (forall it | it in types :: it.ssdCount.Some?)
    && (forall cap :: multiset(order(types, cap)) == multiset(types))
  }

  lemma SortedTypes(r: Request, types: seq<InstanceType>, cap: string)
    requires Sortable(r.order, types) && types != []
    ensures r.order(types, cap) != [] && forall it | it in r.order(types, cap) :: it.ssdCount.Some?
  {
    var sorted := r.order(types, cap);
    assert |multiset(sorted)| == |multiset(types)|;
    forall it | it in sorted
      ensures it in types
    {
      assert it in multiset(sorted);
    }
  }

  // ---------------------------------------------------------------- what ends an attempt leaves a final event

  lemma {:induction false} RangesRetry(r: Request, log: Log, it: InstanceType, cap: string, zone: string,
                                       ranges: seq<string>, i: nat, a: Attempt)
    requires i < |ranges| && a == TryRanges(r, log, it, cap, zone, ranges, i) && NothingFinal(a.log, |log|, r.quotaTTL)
    ensures a.verdict.Retry?
    decreases |ranges| - i
  {
    var built := log + [Build(r.cloud.build(|log|))];
    assert a.log[|log|] == built[|log|];
    var answer := r.cloud.insert(|built|);
    var tried := built + [Insert(it, cap, zone, ranges[i], i == |ranges| - 1, answer)];
    assert a.log[|built|] == tried[|built|];
    if Exhausted(answer, r.quotaTTL) && i < |ranges| - 1 { RangesRetry(r, tried, it, cap, zone, ranges, i + 1, a); }
  }

  lemma {:induction false} ChecksFindNothing(r: Request, log: Log, zones: seq<string>, s: Search)
    requires s == CheckZones(r, log, zones) && NothingFinal(s.log, |log|, r.quotaTTL)
    ensures s.found == Ok(None)
    decreases |zones|
  {
    if zones != [] {
      var checked := log + [Check(zones[0], r.cloud.presence(|log|))];
      assert s.log[|log|] == checked[|log|];
      ChecksFindNothing(r, checked, zones[1..], s);
    }
  }

  lemma AttemptRetries(r: Request, log: Log, it: InstanceType, cap: string, attempted: seq<string>, t: Tried)
    requires t == TryCreate(r, log, it, cap, attempted) && it.ssdCount.Some? && NothingFinal(t.log, |log|, r.quotaTTL)
    ensures t.verdict.Retry?
  {
    var p := Prepare(r, log, it, cap);
    if p.Prepared? {
      var search := CheckZones(r, p.log, Uniq([p.zone] + attempted));
      assert forall k | |p.log| <= k < |search.log| :: t.log[k] == search.log[k];
      ChecksFindNothing(r, p.log, Uniq([p.zone] + attempted), search);
      var names := Resolved(r.nodeClass.ranges, p.cluster);
      RankedIsStableSort(names, r.free);
      var a := TryRanges(r, search.log, it, cap, p.zone, Ranked(names, r.free), 0);
      RangesRetry(r, search.log, it, cap, p.zone, Ranked(names, r.free), 0, a);
    }
  }

  lemma {:induction false} WalkRunsOut(r: Request, log: Log, types: seq<InstanceType>, cap: string,
                                       attempted: seq<string>, problems: seq<Problem>, w: Walk)
    requires w == WalkTypes(r, log, types, cap, attempted, problems)
    requires (forall it | it in types :: it.ssdCount.Some?) && NothingFinal(w.log, |log|, r.quotaTTL)
    ensures w.ending.OutOfTypes?
    decreases |types|
  {
    if types != [] {
      var t := TryCreate(r, log, types[0], cap, attempted);
      assert forall k | |log| <= k < |t.log| :: w.log[k] == t.log[k];
      AttemptRetries(r, log, types[0], cap, attempted, t);
      WalkRunsOut(r, t.log, types[1..], cap, Attempted(attempted, t.zone), problems + [t.verdict.problem], w);
    }
  }

  // ---------------------------------------------------------------- the passes of a walk

  lemma WalkStarts(r: Request, log: Log, types: seq<InstanceType>, cap: string, attempted: seq<string>,
                   problems: seq<Problem>, w: Walk)
    requires w == WalkTypes(r, log, types, cap, attempted, problems) && types != [] && types[0].ssdCount.Some?
    ensures |log| < |w.log| && w.log[|log|].Zones? && w.log[|log|].capacityType == cap
  {
    var t := TryCreate(r, log, types[0], cap, attempted);
    var c := SelectZone(r, log, types[0], cap);
    assert |log| < |c.log| && c.log[|log|].Zones? && c.log[|log|].capacityType == cap;
    assert t.log[|log|] == c.log[|log|];
    assert w.log[|log|] == t.log[|log|];
  }

  /** Every spot call that failed did so for lack of capacity, and nothing ended the launch before on-demand. */
  ghost predicate SpotRanOut(log: Log, i: nat, quotaTTL: int) {
    forall k | i <= k < |log| ::
      && (OfPass(log[k], SPOT) ==> !Foreign(log[k], quotaTTL))
      && (Final(log[k], quotaTTL) ==> exists j | i <= j < k :: OfPass(log[j], ON_DEMAND))
  }

  ghost predicate TriesOnDemand(log: Log, i: nat) {
    exists j | i <= j < |log| :: OfPass(log[j], ON_DEMAND)
  }

  lemma ForeignIsOfPass(e: Event, quotaTTL: int)
    requires Foreign(e, quotaTTL)
    ensures OfPass(e, e.capacityType)
  {
  }

  /** If on-demand is not tried although spot ran out, then every type failed on spot for lack of capacity. */
  lemma SpotFailsThroughout(r: Request, log: Log, types: seq<InstanceType>, w: Walk, full: Log)
    requires w == WalkTypes(r, log, types, SPOT, [], []) && types != [] && forall it | it in types :: it.ssdCount.Some?
    requires w.log <= full && SpotRanOut(full, |log|, r.quotaTTL) && !TriesOnDemand(full, |log|)
    ensures w.ending.OutOfTypes? && w.ending.problems != [] && AllCapacity(w.ending.problems)
  {
    assert forall k | |log| <= k < |w.log| :: full[k] == w.log[k];
    WalkRunsOut(r, log, types, SPOT, [], [], w);
    WalkIsClear(r, log, types, SPOT, [], [], w);
    WalkIsOnePass(r, log, types, SPOT, [], [], w);
    forall k | |log| <= k < |w.log|
      ensures !Foreign(w.log[k], r.quotaTTL)
    {
      if Foreign(w.log[k], r.quotaTTL) { ForeignIsOfPass(w.log[k], r.quotaTTL); }
    }
  }

  lemma SpotWalkFallsBack(r: Request, log: Log, types: seq<InstanceType>, l: Launching)
    requires l == WalkBoth(r, log, types) && types != [] && Sortable(r.order, types) && Offers(r.claim, types, SPOT)
    requires Offers(r.claim, types, ON_DEMAND) && SpotRanOut(l.log, |log|, r.quotaTTL)
    ensures TriesOnDemand(l.log, |log|)
  {
    var sorted := r.order(types, SPOT);
    SortedTypes(r, types, SPOT);
    var first := WalkTypes(r, log, sorted, SPOT, [], []);
    if !TriesOnDemand(l.log, |log|) { SpotFailsThroughout(r, log, sorted, first, l.log); }
    if FallsBack(r, types, first.ending) {
      SortedTypes(r, types, ON_DEMAND);
      var second := WalkTypes(r, first.log, r.order(types, ON_DEMAND), ON_DEMAND, first.attempted, []);
      WalkStarts(r, first.log, r.order(types, ON_DEMAND), ON_DEMAND, first.attempted, [], second);
    }
  }

  /** Where on-demand begins, if it is tried. */
  lemma OnDemandBegins(r: Request, log: Log, types: seq<InstanceType>, l: Launching) returns (n: nat)
    requires l == WalkBoth(r, log, types) && types != [] && Sortable(r.order, types) && Offers(r.claim, types, SPOT)
    requires TriesOnDemand(l.log, |log|)
    ensures Offers(r.claim, types, ON_DEMAND)
    ensures |log| <= n < |l.log| && l.log[n].Zones? && OfPass(l.log[n], ON_DEMAND)
  {
    var first := WalkTypes(r, log, r.order(types, SPOT), SPOT, [], []);
    WalkIsOnePass(r, log, r.order(types, SPOT), SPOT, [], [], first);
    assert FallsBack(r, types, first.ending);
    SortedTypes(r, types, ON_DEMAND);
    n := |first.log|;
    WalkStarts(r, first.log, r.order(types, ON_DEMAND), ON_DEMAND, first.attempted, [],
               WalkTypes(r, first.log, r.order(types, ON_DEMAND), ON_DEMAND, first.attempted, []));
  }

  lemma SpotWalkRanOut(r: Request, log: Log, types: seq<InstanceType>, l: Launching)
    requires l == WalkBoth(r, log, types) && types != [] && Sortable(r.order, types) && Offers(r.claim, types, SPOT)
    requires TriesOnDemand(l.log, |log|)
    ensures Offers(r.claim, types, ON_DEMAND) && SpotRanOut(l.log, |log|, r.quotaTTL)
  {
    var n := OnDemandBegins(r, log, types, l);
    WalkBothEnds(r, log, types, l);
    forall k | |log| <= k < |l.log|
      ensures OfPass(l.log[k], SPOT) ==> !Foreign(l.log[k], r.quotaTTL)
      ensures Final(l.log[k], r.quotaTTL) ==> n < k
    {
      if OfPass(l.log[k], SPOT) { WalkBothPasses(r, log, types, l, k, n); }
    }
  }

  lemma FirstPassOfWalk(r: Request, log: Log, types: seq<InstanceType>, l: Launching)
    requires l == WalkBoth(r, log, types) && types != [] && Sortable(r.order, types)
    ensures |log| < |l.log| && OfPass(l.log[|log|], if Offers(r.claim, types, SPOT) then SPOT else ON_DEMAND)
    ensures !Offers(r.claim, types, SPOT) ==> forall k | |log| <= k < |l.log| :: !OfPass(l.log[k], SPOT)
  {
    var cap := if Offers(r.claim, types, SPOT) then SPOT else ON_DEMAND;
    SortedTypes(r, types, cap);
    var first := WalkTypes(r, log, r.order(types, cap), cap, [], []);
    WalkStarts(r, log, r.order(types, cap), cap, [], [], first);
    WalkIsOnePass(r, log, r.order(types, cap), cap, [], [], first);
    assert l.log[|log|] == first.log[|log|];
  }

  // ---------------------------------------------------------------- main results

  /** The launch finds no VM to adopt, and has a type to launch. */
  ghost predicate Launches(r: Request, log: Log, types: seq<InstanceType>) {
    !r.cloud.adopt(|log|).VM? && Candidates(r, types) != [] && Sortable(r.order, Candidates(r, types))
  }

  lemma CreateWalksBoth(r: Request, log: Log, types: seq<InstanceType>, l: Launching, ready: Log, r': Request)
    requires l == Create(r, log, types) && Launches(r, log, types)
    requires ready == log + [Adopt(r.cloud.adopt(|log|)), FreeIPs] && r' == r.(free := r.cloud.freeIPs(|log| + 1))
    ensures l == WalkBoth(r', ready, Candidates(r, types))
  {
    assert log + [Adopt(r.cloud.adopt(|log|))] + [FreeIPs] == ready;
  }

  lemma OpeningEvents(log: Log, adopt: AdoptAnswer, full: Log, quotaTTL: int)
    requires log + [Adopt(adopt), FreeIPs] <= full
    ensures forall k | |log| <= k < |log| + 2 :: !Final(full[k], quotaTTL) && forall cap :: !OfPass(full[k], cap)
  {
    assert full[|log|] == Adopt(adopt) && full[|log| + 1] == FreeIPs;
  }

  /** The first pass, right after looking for the VM and for free IPs, is on spot exactly if spot is on offer. */
  lemma SpotFirstIffOffered(r: Request, log: Log, types: seq<InstanceType>, l: Launching)
    requires l == Create(r, log, types) && Launches(r, log, types)
    ensures |log| + 2 < |l.log|
    ensures OfPass(l.log[|log| + 2], if Offers(r.claim, Candidates(r, types), SPOT) then SPOT else ON_DEMAND)
    ensures (exists k | |log| <= k < |l.log| :: OfPass(l.log[k], SPOT)) <==> Offers(r.claim, Candidates(r, types), SPOT)
  {
    var ready := log + [Adopt(r.cloud.adopt(|log|)), FreeIPs];
    var r' := r.(free := r.cloud.freeIPs(|log| + 1));
    CreateWalksBoth(r, log, types, l, ready, r');
    OpeningEvents(log, r.cloud.adopt(|log|), l.log, r.quotaTTL);
    FirstPassOfWalk(r', ready, Candidates(r, types), l);
  }

  lemma ShiftedPasses(log: Log, i: nat, j: nat, quotaTTL: int)
    requires i <= j <= |log|
    requires forall k | i <= k < j :: !Final(log[k], quotaTTL) && forall cap :: !OfPass(log[k], cap)
    ensures TriesOnDemand(log, i) <==> TriesOnDemand(log, j)
    ensures SpotRanOut(log, i, quotaTTL) <==> SpotRanOut(log, j, quotaTTL)
  {
    if SpotRanOut(log, i, quotaTTL) {
      forall k | j <= k < |log| && Final(log[k], quotaTTL)
        ensures exists m | j <= m < k :: OfPass(log[m], ON_DEMAND)
      {
        var m :| i <= m < k && OfPass(log[m], ON_DEMAND);
        assert j <= m;
      }
    }
  }

  /**
   A launch that starts on spot goes on to on-demand exactly if on-demand is on offer, no spot call failed for another
   reason than capacity, and nothing ended the launch before: no VM found or made, no failed check or build, no resource
   that is not ready, no last pod range exhausted.
   */
  lemma FallsBackIffSpotRanOut(r: Request, log: Log, types: seq<InstanceType>, l: Launching)
    requires l == Create(r, log, types) && Launches(r, log, types) && Offers(r.claim, Candidates(r, types), SPOT)
    ensures TriesOnDemand(l.log, |log|) <==>
            Offers(r.claim, Candidates(r, types), ON_DEMAND) && SpotRanOut(l.log, |log|, r.quotaTTL)
  {
    var fitting, ready := Candidates(r, types), log + [Adopt(r.cloud.adopt(|log|)), FreeIPs];
    var r' := r.(free := r.cloud.freeIPs(|log| + 1));
    CreateWalksBoth(r, log, types, l, ready, r');
    OpeningEvents(log, r.cloud.adopt(|log|), l.log, r.quotaTTL);
    ShiftedPasses(l.log, |log|, |ready|, r.quotaTTL);
    if TriesOnDemand(l.log, |ready|) {
      SpotWalkRanOut(r', ready, fitting, l);
    } else if Offers(r.claim, fitting, ON_DEMAND) && SpotRanOut(l.log, |ready|, r.quotaTTL) {
      SpotWalkFallsBack(r', ready, fitting, l);
    }
  }

  /** In particular, if no event is foreign or final, on-demand is tried exactly if it is on offer. */
  lemma ShortageFallsBackIffOffered(r: Request, log: Log, types: seq<InstanceType>, l: Launching)
    requires l == Create(r, log, types) && Launches(r, log, types) && Offers(r.claim, Candidates(r, types), SPOT)
    requires Clear(l.log, |log|, r.quotaTTL) && NothingFinal(l.log, |log|, r.quotaTTL)
    ensures TriesOnDemand(l.log, |log|) <==> Offers(r.claim, Candidates(r, types), ON_DEMAND)
  {
    FallsBackIffSpotRanOut(r, log, types, l);
  }
}
