/** What every launch walk keeps to, whatever GCE answers (pkg/providers/instance/instance.go). */
module LaunchDiscipline {
  import opened Basics
  import opened Offerings
  import opened PodRanges
  import opened Launch

  // ---------------------------------------------------------------- when on-demand is tried after spot

  /** A failure that is not for lack of capacity, yet lets the walk go on to the next type. */
  predicate Foreign(e: Event, quotaTTL: int) {
    match e
    case Zones(_, kept) => kept.None? || kept.value == []
    case Template(_, ok) => !ok
    case Config(_, ranges) => ranges.None?
    case Insert(_, _, _, _, _, answer) => !answer.Done? && Shortage(answer, quotaTTL).None? && !NotReady(answer)
    case _ => false
  }

  /** No such failure from event number i on. */
  ghost predicate Clear(log: Log, i: nat, quotaTTL: int) {
    forall k | i <= k < |log| :: !Foreign(log[k], quotaTTL)
  }

  lemma SelectionIsClear(r: Request, log: Log, it: InstanceType, cap: string, c: Choice)
    requires c == SelectZone(r, log, it, cap)
    ensures c.zone.Ok? ==> Clear(c.log, |log|, r.quotaTTL)
    ensures c.zone.Err? ==>
              c.zone.error in {Capacity, Generic} && (c.zone.error == Capacity <==> Clear(c.log, |log|, r.quotaTTL))
  {
    assert |log| < |c.log| && c.log[|log|].Zones?;
    if c.zone == Err(Generic) { assert Foreign(c.log[|log|], r.quotaTTL); }
  }

  lemma PreparationIsClear(r: Request, log: Log, it: InstanceType, cap: string, p: Preparation)
    requires p == Prepare(r, log, it, cap)
    ensures p.Prepared? ==> Clear(p.log, |log|, r.quotaTTL)
    ensures p.Unprepared? ==>
              p.problem in {Capacity, Generic} && (p.problem == Capacity <==> Clear(p.log, |log|, r.quotaTTL))
  {
    var c := SelectZone(r, log, it, cap);
    SelectionIsClear(r, log, it, cap, c);
    if c.zone.Ok? {
      assert forall k | |log| <= k < |c.log| :: p.log[k] == c.log[k];
      if p.Unprepared? { assert Foreign(p.log[|p.log| - 1], r.quotaTTL); }
    }
  }

  lemma {:induction false} RangesAreClear(r: Request, log: Log, it: InstanceType, cap: string, zone: string,
                                          ranges: seq<string>, i: nat)
    requires i < |ranges|
    ensures var a := TryRanges(r, log, it, cap, zone, ranges, i);
            a.verdict.Retry? ==>
              a.verdict.problem in {Capacity, Generic}
                && (a.verdict.problem == Capacity <==> Clear(a.log, |log|, r.quotaTTL))
    decreases |ranges| - i
  {
    if r.cloud.build(|log|) {
      var built := log + [Build(true)];
      var answer := r.cloud.insert(|built|);
      var tried := built + [Insert(it, cap, zone, ranges[i], i == |ranges| - 1, answer)];
      if !answer.Done? {
        var a := TryRanges(r, log, it, cap, zone, ranges, i);
        assert a.log[|built|] == tried[|built|];
        if Exhausted(answer, r.quotaTTL) && i < |ranges| - 1 {
          RangesAreClear(r, tried, it, cap, zone, ranges, i + 1);
        }
      }
    }
  }

  lemma GetOrCreateIsClear(r: Request, log: Log, it: InstanceType, cap: string, zone: string, attempted: seq<string>,
                           cluster: seq<string>, a: Attempt)
    requires a == GetOrCreate(r, log, it, cap, zone, attempted, cluster)
    ensures a.verdict.Retry? ==>
              && a.verdict.problem in {Capacity, Generic}
              && (a.verdict.problem == Capacity <==> Clear(a.log, |log|, r.quotaTTL))
  {
    var search := CheckZones(r, log, Uniq([zone] + attempted));
    if search.found == Ok(None) {
      var names := Resolved(r.nodeClass.ranges, cluster);
      RankedIsStableSort(names, r.free);
      RangesAreClear(r, search.log, it, cap, zone, Ranked(names, r.free), 0);
      assert forall k | |log| <= k < |search.log| :: a.log[k] == search.log[k];
    }
  }

  lemma AttemptIsClear(r: Request, log: Log, it: InstanceType, cap: string, attempted: seq<string>, t: Tried)
    requires t == TryCreate(r, log, it, cap, attempted)
    ensures t.verdict.Retry? ==>
              && t.verdict.problem in {Capacity, Generic}
              && (t.verdict.problem == Capacity <==> Clear(t.log, |log|, r.quotaTTL))
  {
    if it.ssdCount.Some? {
      var p := Prepare(r, log, it, cap);
      PreparationIsClear(r, log, it, cap, p);
      if p.Prepared? {
        var a := GetOrCreate(r, p.log, it, cap, p.zone, attempted, p.cluster);
        GetOrCreateIsClear(r, p.log, it, cap, p.zone, attempted, p.cluster, a);
        assert forall k | |log| <= k < |p.log| :: t.log[k] == p.log[k];
      }
    }
  }

  /** The walk over the types collects only capacity errors exactly when nothing foreign happened on the way. */
  lemma {:induction false} WalkIsClear(r: Request, log: Log, types: seq<InstanceType>, cap: string,
                                       attempted: seq<string>, problems: seq<Problem>, w: Walk)
    requires w == WalkTypes(r, log, types, cap, attempted, problems)
    ensures w.ending.OutOfTypes? ==>
              && |w.ending.problems| == |problems| + |types|
              && (AllCapacity(w.ending.problems) <==> AllCapacity(problems) && Clear(w.log, |log|, r.quotaTTL))
    decreases |types|
  {
    if types != [] {
      var t := TryCreate(r, log, types[0], cap, attempted);
      AttemptIsClear(r, log, types[0], cap, attempted, t);
      if t.verdict.Retry? {
        var problems' := problems + [t.verdict.problem];
        WalkIsClear(r, t.log, types[1..], cap, Attempted(attempted, t.zone), problems', w);
        assert AllCapacity(problems') <==> AllCapacity(problems) && t.verdict.problem == Capacity by {
          assert forall i | 0 <= i < |problems| :: problems'[i] == problems[i];
          assert problems'[|problems|] == t.verdict.problem;
        }
        assert forall k | |log| <= k < |t.log| :: w.log[k] == t.log[k];
      }
    }
  }

  /** An event of the pass with one capacity type. */
  predicate OfPass(e: Event, cap: string) {
    match e
    case Zones(c, _) => c == cap
    case Select(_, c, _, _) => c == cap
    case Template(c, _) => c == cap
    case Config(c, _) => c == cap
    case Insert(_, c, _, _, _, _) => c == cap
    case _ => false
  }

  /** No event from number i on belongs to a pass with another capacity type. */
  ghost predicate OnePass(log: Log, i: nat, cap: string) {
    forall k, c | i <= k < |log| && OfPass(log[k], c) :: c == cap
  }

  lemma PreparationIsOnePass(r: Request, log: Log, it: InstanceType, cap: string)
    ensures OnePass(Prepare(r, log, it, cap).log, |log|, cap)
  {
  }

  lemma AttemptIsOnePass(r: Request, log: Log, it: InstanceType, cap: string, attempted: seq<string>, t: Tried)
    requires t == TryCreate(r, log, it, cap, attempted)
    ensures OnePass(t.log, |log|, cap)
  {
    if it.ssdCount.Some? {
      PreparationIsOnePass(r, log, it, cap);
      var p := Prepare(r, log, it, cap);
      if p.Prepared? {
        var search := CheckZones(r, p.log, Uniq([p.zone] + attempted));
        assert forall k | |log| <= k < |p.log| :: t.log[k] == p.log[k];
        assert forall k | |p.log| <= k < |search.log| :: t.log[k] == search.log[k];
      }
    }
  }

  lemma {:induction false} WalkIsOnePass(r: Request, log: Log, types: seq<InstanceType>, cap: string,
                                         attempted: seq<string>, problems: seq<Problem>, w: Walk)
    requires w == WalkTypes(r, log, types, cap, attempted, problems)
    ensures OnePass(w.log, |log|, cap)
    decreases |types|
  {
    if types != [] {
      var t := TryCreate(r, log, types[0], cap, attempted);
      AttemptIsOnePass(r, log, types[0], cap, attempted, t);
      if t.verdict.Retry? {
        WalkIsOnePass(r, t.log, types[1..], cap, Attempted(attempted, t.zone), problems + [t.verdict.problem], w);
        assert forall k | |log| <= k < |t.log| :: w.log[k] == t.log[k];
      }
    }
  }

  lemma WalkBothPasses(r: Request, log: Log, types: seq<InstanceType>, l: Launching, i: nat, j: nat)
    requires l == WalkBoth(r, log, types)
    requires |log| <= i < |l.log| && |log| <= j < |l.log| && OfPass(l.log[i], SPOT) && OfPass(l.log[j], ON_DEMAND)
    ensures i < j && !Foreign(l.log[i], r.quotaTTL)
  {
    var cap := if HasAvailable(r.claim, types, SPOT) then SPOT else ON_DEMAND;
    var first := WalkTypes(r, log, r.order(types, cap), cap, [], []);
    WalkIsOnePass(r, log, r.order(types, cap), cap, [], [], first);
    WalkIsClear(r, log, r.order(types, cap), cap, [], [], first);
    assert cap == SPOT && FallsBack(r, types, first.ending);
    var second := WalkTypes(r, first.log, r.order(types, ON_DEMAND), ON_DEMAND, first.attempted, []);
    WalkIsOnePass(r, first.log, r.order(types, ON_DEMAND), ON_DEMAND, first.attempted, [], second);
    assert forall k | 0 <= k < |first.log| :: l.log[k] == first.log[k];
  }

  // ---------------------------------------------------------------- what ends a walk

  /** The event after which a launch makes no further call. */
  predicate Final(e: Event, quotaTTL: int) {
    match e
    case Check(_, presence) => presence != Absent
    case Build(ok) => !ok
    case Insert(_, _, _, _, last, answer) =>
      || answer.Done?
      || (Exhausted(answer, quotaTTL) && last)
      || (Shortage(answer, quotaTTL).None? && NotReady(answer))
    case _ => false
  }

  /** From event number i on, only marks follow a final event. */
  ghost predicate FinalIsLast(log: Log, i: nat, quotaTTL: int) {
    forall k, m | i <= k < m < |log| && Final(log[k], quotaTTL) :: log[m].Mark?
  }

  ghost predicate NothingFinal(log: Log, i: nat, quotaTTL: int) {
    forall k | i <= k < |log| :: !Final(log[k], quotaTTL)
  }

  lemma {:induction false} RangesEndWalk(r: Request, log: Log, it: InstanceType, cap: string, zone: string,
                                         ranges: seq<string>, i: nat, a: Attempt)
    requires i < |ranges| && a == TryRanges(r, log, it, cap, zone, ranges, i)
    ensures FinalIsLast(a.log, |log|, r.quotaTTL)
    ensures a.verdict.Retry? ==> NothingFinal(a.log, |log|, r.quotaTTL)
    decreases |ranges| - i
  {
    if r.cloud.build(|log|) {
      var built := log + [Build(true)];
      var answer := r.cloud.insert(|built|);
      var tried := built + [Insert(it, cap, zone, ranges[i], i == |ranges| - 1, answer)];
      assert tried <= a.log;
      assert a.log[|log|] == tried[|log|] && a.log[|built|] == tried[|built|];
      if !answer.Done? && Exhausted(answer, r.quotaTTL) && i < |ranges| - 1 {
        RangesEndWalk(r, tried, it, cap, zone, ranges, i + 1, a);
      }
    }
  }

  lemma {:induction false} ChecksEndWalk(r: Request, log: Log, zones: seq<string>, s: Search)
    requires s == CheckZones(r, log, zones)
    ensures forall k | |log| <= k < |s.log| && Final(s.log[k], r.quotaTTL) :: k == |s.log| - 1
    ensures s.found == Ok(None) ==> NothingFinal(s.log, |log|, r.quotaTTL)
    decreases |zones|
  {
    if zones != [] {
      var checked := log + [Check(zones[0], r.cloud.presence(|log|))];
      assert s.log[|log|] == checked[|log|];
      if r.cloud.presence(|log|).Absent? { ChecksEndWalk(r, checked, zones[1..], s); }
    }
  }

  lemma AttemptEndsWalk(r: Request, log: Log, it: InstanceType, cap: string, attempted: seq<string>, t: Tried)
    requires t == TryCreate(r, log, it, cap, attempted)
    ensures FinalIsLast(t.log, |log|, r.quotaTTL)
    ensures t.verdict.Retry? ==> NothingFinal(t.log, |log|, r.quotaTTL)
  {
    if it.ssdCount.Some? {
      var p := Prepare(r, log, it, cap);
      if p.Prepared? {
        var search := CheckZones(r, p.log, Uniq([p.zone] + attempted));
        ChecksEndWalk(r, p.log, Uniq([p.zone] + attempted), search);
        assert forall k | |log| <= k < |p.log| :: t.log[k] == p.log[k] && !Final(t.log[k], r.quotaTTL);
        assert forall k | |p.log| <= k < |search.log| :: t.log[k] == search.log[k];
        if search.found == Ok(None) {
          var names := Resolved(r.nodeClass.ranges, p.cluster);
          RankedIsStableSort(names, r.free);
          var a := TryRanges(r, search.log, it, cap, p.zone, Ranked(names, r.free), 0);
          RangesEndWalk(r, search.log, it, cap, p.zone, Ranked(names, r.free), 0, a);
        }
      }
    }
  }

  lemma {:induction false} WalkEnds(r: Request, log: Log, types: seq<InstanceType>, cap: string, attempted: seq<string>,
                                    problems: seq<Problem>, w: Walk)
    requires w == WalkTypes(r, log, types, cap, attempted, problems)
    ensures FinalIsLast(w.log, |log|, r.quotaTTL)
    ensures w.ending.OutOfTypes? ==> NothingFinal(w.log, |log|, r.quotaTTL)
    decreases |types|
  {
    if types != [] {
      var t := TryCreate(r, log, types[0], cap, attempted);
      AttemptEndsWalk(r, log, types[0], cap, attempted, t);
      if t.verdict.Retry? {
        WalkEnds(r, t.log, types[1..], cap, Attempted(attempted, t.zone), problems + [t.verdict.problem], w);
        assert forall k | |log| <= k < |t.log| :: w.log[k] == t.log[k];
      }
    }
  }

  lemma WalkBothEnds(r: Request, log: Log, types: seq<InstanceType>, l: Launching)
    requires l == WalkBoth(r, log, types)
    ensures FinalIsLast(l.log, |log|, r.quotaTTL)
  {
    var cap := if HasAvailable(r.claim, types, SPOT) then SPOT else ON_DEMAND;
    var first := WalkTypes(r, log, r.order(types, cap), cap, [], []);
    WalkEnds(r, log, r.order(types, cap), cap, [], [], first);
    if cap == SPOT && FallsBack(r, types, first.ending) {
      var second := WalkTypes(r, first.log, r.order(types, ON_DEMAND), ON_DEMAND, first.attempted, []);
      WalkEnds(r, first.log, r.order(types, ON_DEMAND), ON_DEMAND, first.attempted, [], second);
      assert forall k | |log| <= k < |first.log| :: l.log[k] == first.log[k];
    }
  }

  /**
   Once a VM is found or created, a check or a build fails, a referenced resource is not ready, or the last pod range is
   exhausted, the launch makes no further call: only marks follow.
   */
  lemma FinalEventsEndLaunch(r: Request, log: Log, types: seq<InstanceType>, l: Launching)
    requires l == Create(r, log, types)
    ensures FinalIsLast(l.log, |log|, r.quotaTTL)
  {
    var fitting := Candidates(r, types);
    if types != [] && !r.cloud.adopt(|log|).VM? && fitting != [] {
      var looked := log + [Adopt(r.cloud.adopt(|log|))];
      var ready := looked + [FreeIPs];
      WalkBothEnds(r.(free := r.cloud.freeIPs(|looked|)), ready, fitting, l);
      assert forall k | |log| <= k < |ready| :: l.log[k] == ready[k];
    }
  }

  // ---------------------------------------------------------------- spot before on-demand

  lemma PassesInOrder(r: Request, log: Log, types: seq<InstanceType>, l: Launching, i: nat, j: nat)
    requires l == Create(r, log, types)
    requires |log| <= i < |l.log| && |log| <= j < |l.log| && OfPass(l.log[i], SPOT) && OfPass(l.log[j], ON_DEMAND)
    ensures i < j && !Foreign(l.log[i], r.quotaTTL)
  {
    var looked := log + [Adopt(r.cloud.adopt(|log|))];
    assert l.log[|log|] == looked[|log|];
    var ready := looked + [FreeIPs];
    assert !OfPass(l.log[|log|], SPOT) && !OfPass(l.log[|log|], ON_DEMAND);
    var fitting := Candidates(r, types);
    if !r.cloud.adopt(|log|).VM? && fitting != [] {
      assert l.log[|looked|] == ready[|looked|];
      WalkBothPasses(r.(free := r.cloud.freeIPs(|looked|)), ready, fitting, l, i, j);
    }
  }

  /**
   A launch that works on both spot and on-demand works on spot first, and no spot call failed for any other reason
   than missing capacity: no zone, template or cluster lookup failed, and every spot insert failed for capacity, where
   a quota failure counts only if its backoff is enabled.
   */
  lemma OnDemandOnlyAfterCapacityFailures(r: Request, log: Log, types: seq<InstanceType>, l: Launching, i: nat, j: nat)
    requires l == Create(r, log, types)
    requires |log| <= i < |l.log| && |log| <= j < |l.log| && OfPass(l.log[i], SPOT) && OfPass(l.log[j], ON_DEMAND)
    ensures i < j && !Foreign(l.log[i], r.quotaTTL)
    ensures l.log[i].Insert? ==> Shortage(l.log[i].answer, r.quotaTTL).Some?
  {
    PassesInOrder(r, log, types, l, i, j);
    FinalEventsEndLaunch(r, log, types, l);
    assert !Final(l.log[i], r.quotaTTL);
  }

  /** With the quota backoff disabled, nothing follows on demand once a spot insert is refused for quota. */
  lemma DisabledQuotaBlocksFallback(r: Request, log: Log, types: seq<InstanceType>, l: Launching, i: nat, d: Details)
    requires l == Create(r, log, types) && r.quotaTTL == 0
    requires |log| <= i < |l.log| && l.log[i].Insert? && l.log[i].capacityType == SPOT
    requires AnswerDetails(l.log[i].answer) == Some(d) && Quota(d)
    ensures forall j | |log| <= j < |l.log| :: !OfPass(l.log[j], ON_DEMAND)
  {
    forall j | |log| <= j < |l.log|
      ensures !OfPass(l.log[j], ON_DEMAND)
    {
      if OfPass(l.log[j], ON_DEMAND) { OnDemandOnlyAfterCapacityFailures(r, log, types, l, i, j); }
    }
  }
}
