/** What a launch reports, told from the calls it made (pkg/providers/instance/instance.go). */
module LaunchEndings {
  import opened Basics
  import opened Offerings
  import opened PodRanges
  import opened Launch
  import opened LaunchDiscipline
  import opened LaunchFallback

  /** The report that the event which ends a launch calls for. */
  predicate EndsAs(e: Event, ending: Ending, quotaTTL: int) {
    match e
    case Check(zone, presence) => ending == if presence.Present? then Created(zone) else Aborted(Generic)
    case Build(_) => ending == Aborted(Generic)
    case Insert(_, _, zone, _, _, answer) =>
      ending == if answer.Done? then Created(zone)
                else if Shortage(answer, quotaTTL).Some? then Aborted(Capacity) else Aborted(ResourceNotReady)
    case _ => false
  }

  function Reported(v: Verdict): Ending {
    match v
    case Launched(zone) => Created(zone)
    case Stop(problem) => Aborted(problem)
    case Retry(problem) => OutOfTypes([problem])
  }

  /** From event number i on, a final event is what this report says. */
  ghost predicate FinalSays(log: Log, i: nat, ending: Ending, quotaTTL: int) {
    forall k | i <= k < |log| && Final(log[k], quotaTTL) :: EndsAs(log[k], ending, quotaTTL)
  }

  lemma {:induction false} RangesSay(r: Request, log: Log, it: InstanceType, cap: string, zone: string,
                                     ranges: seq<string>, i: nat, a: Attempt)
    requires i < |ranges| && a == TryRanges(r, log, it, cap, zone, ranges, i)
    ensures FinalSays(a.log, |log|, Reported(a.verdict), r.quotaTTL)
    decreases |ranges| - i
  {
    var built := log + [Build(r.cloud.build(|log|))];
    assert a.log[|log|] == built[|log|];
    if r.cloud.build(|log|) {
      var answer := r.cloud.insert(|built|);
      var tried := built + [Insert(it, cap, zone, ranges[i], i == |ranges| - 1, answer)];
      assert a.log[|built|] == tried[|built|];
      if !answer.Done? && Exhausted(answer, r.quotaTTL) && i < |ranges| - 1 {
        RangesSay(r, tried, it, cap, zone, ranges, i + 1, a);
      }
    }
  }

  lemma {:induction false} ChecksSay(r: Request, log: Log, zones: seq<string>, s: Search)
    requires s == CheckZones(r, log, zones)
    ensures forall k | |log| <= k < |s.log| && Final(s.log[k], r.quotaTTL) ::
              s.found == if s.log[k].presence.Present? then Ok(Some(s.log[k].zone)) else Err(Generic)
    decreases |zones|
  {
    if zones != [] {
      var checked := log + [Check(zones[0], r.cloud.presence(|log|))];
      assert s.log[|log|] == checked[|log|];
      if r.cloud.presence(|log|).Absent? { ChecksSay(r, checked, zones[1..], s); }
    }
  }

  lemma GetOrCreateSays(r: Request, log: Log, it: InstanceType, cap: string, zone: string, attempted: seq<string>,
                        cluster: seq<string>, a: Attempt)
    requires a == GetOrCreate(r, log, it, cap, zone, attempted, cluster)
    ensures FinalSays(a.log, |log|, Reported(a.verdict), r.quotaTTL)
  {
    var zones := Uniq([zone] + attempted);
    var search := CheckZones(r, log, zones);
    ChecksSay(r, log, zones, search);
    assert forall k | |log| <= k < |search.log| :: a.log[k] == search.log[k];
    if search.found == Ok(None) {
      var names := Resolved(r.nodeClass.ranges, cluster);
      RankedIsStableSort(names, r.free);
      RangesSay(r, search.log, it, cap, zone, Ranked(names, r.free), 0, a);
    }
  }

  lemma AttemptSays(r: Request, log: Log, it: InstanceType, cap: string, attempted: seq<string>, t: Tried)
    requires t == TryCreate(r, log, it, cap, attempted)
    ensures FinalSays(t.log, |log|, Reported(t.verdict), r.quotaTTL)
  {
    if it.ssdCount.Some? {
      var p := Prepare(r, log, it, cap);
      assert forall k | |log| <= k < |p.log| :: t.log[k] == p.log[k];
      if p.Prepared? {
        var a := GetOrCreate(r, p.log, it, cap, p.zone, attempted, p.cluster);
        GetOrCreateSays(r, p.log, it, cap, p.zone, attempted, p.cluster, a);
      }
    }
  }

  lemma {:induction false} WalkSays(r: Request, log: Log, types: seq<InstanceType>, cap: string, attempted: seq<string>,
                                    problems: seq<Problem>, w: Walk)
    requires w == WalkTypes(r, log, types, cap, attempted, problems)
    ensures FinalSays(w.log, |log|, w.ending, r.quotaTTL)
    decreases |types|
  {
    if types != [] {
      var t := TryCreate(r, log, types[0], cap, attempted);
      AttemptSays(r, log, types[0], cap, attempted, t);
      AttemptEndsWalk(r, log, types[0], cap, attempted, t);
      assert forall k | |log| <= k < |t.log| :: w.log[k] == t.log[k];
      if t.verdict.Retry? {
        WalkSays(r, t.log, types[1..], cap, Attempted(attempted, t.zone), problems + [t.verdict.problem], w);
      }
    }
  }

  lemma SecondSays(r: Request, log: Log, types: seq<InstanceType>, first: Walk, second: Walk)
    requires log <= first.log && NothingFinal(first.log, |log|, r.quotaTTL)
    requires second == WalkTypes(r, first.log, types, ON_DEMAND, first.attempted, [])
    ensures FinalSays(second.log, |log|, second.ending, r.quotaTTL)
  {
    WalkSays(r, first.log, types, ON_DEMAND, first.attempted, [], second);
    assert forall k | |log| <= k < |first.log| :: second.log[k] == first.log[k];
  }

  lemma WalkBothSays(r: Request, log: Log, types: seq<InstanceType>, l: Launching)
    requires l == WalkBoth(r, log, types)
    ensures FinalSays(l.log, |log|, l.ending, r.quotaTTL)
  {
    var cap := if HasAvailable(r.claim, types, SPOT) then SPOT else ON_DEMAND;
    var sorted := r.order(types, cap);
    var first := WalkTypes(r, log, sorted, cap, [], []);
    WalkSays(r, log, sorted, cap, [], [], first);
    if cap == SPOT && FallsBack(r, types, first.ending) {
      WalkEnds(r, log, sorted, cap, [], [], first);
      var second := WalkTypes(r, first.log, r.order(types, ON_DEMAND), ON_DEMAND, first.attempted, []);
      SecondSays(r, log, r.order(types, ON_DEMAND), first, second);
    }
  }

  /** A launch that some call ends reports what that call calls for. */
  lemma ReportsItsFinalEvent(r: Request, log: Log, types: seq<InstanceType>, l: Launching, k: nat)
    requires l == Create(r, log, types) && |log| <= k < |l.log| && Final(l.log[k], r.quotaTTL)
    ensures EndsAs(l.log[k], l.ending, r.quotaTTL)
  {
    var looked := log + [Adopt(r.cloud.adopt(|log|))];
    assert l.log[|log|] == looked[|log|];
    var fitting := Candidates(r, types);
    if !r.cloud.adopt(|log|).VM? && fitting != [] {
      var ready := looked + [FreeIPs];
      assert l.log[|looked|] == ready[|looked|];
      WalkBothSays(r.(free := r.cloud.freeIPs(|looked|)), ready, fitting, l);
    }
  }

  // ---------------------------------------------------------------- without such a call

  lemma WalkBothRunsOut(r: Request, log: Log, types: seq<InstanceType>, l: Launching)
    requires l == WalkBoth(r, log, types) && types != [] && Sortable(r.order, types)
    requires NothingFinal(l.log, |log|, r.quotaTTL)
    ensures l.ending.OutOfTypes? && |l.ending.problems| == |types|
    ensures AllCapacity(l.ending.problems) <==> Clear(l.log, |log|, r.quotaTTL)
  {
    var cap := if HasAvailable(r.claim, types, SPOT) then SPOT else ON_DEMAND;
    var sorted := r.order(types, cap);
    SortedTypes(r, types, cap);
    SortedLength(r, types, cap);
    var first := WalkTypes(r, log, sorted, cap, [], []);
    assert forall k | |log| <= k < |first.log| :: l.log[k] == first.log[k];
    WalkRunsOut(r, log, sorted, cap, [], [], first);
    WalkIsClear(r, log, sorted, cap, [], [], first);
    if cap == SPOT && FallsBack(r, types, first.ending) { SecondRunsOut(r, log, types, first, l); }
  }

  lemma SortedLength(r: Request, types: seq<InstanceType>, cap: string)
    requires Sortable(r.order, types)
    ensures |r.order(types, cap)| == |types|
  {
    assert |multiset(r.order(types, cap))| == |multiset(types)|;
  }

  lemma SecondRunsOut(r: Request, log: Log, types: seq<InstanceType>, first: Walk, l: Launching)
    requires types != [] && Sortable(r.order, types) && NothingFinal(l.log, |log|, r.quotaTTL)
    requires log <= first.log && Clear(first.log, |log|, r.quotaTTL)
    requires var second := WalkTypes(r, first.log, r.order(types, ON_DEMAND), ON_DEMAND, first.attempted, []);
             l == Launching(second.log, second.ending)
    ensures l.ending.OutOfTypes? && |l.ending.problems| == |types|
    ensures AllCapacity(l.ending.problems) <==> Clear(l.log, |log|, r.quotaTTL)
  {
    var sorted := r.order(types, ON_DEMAND);
    SortedTypes(r, types, ON_DEMAND);
    SortedLength(r, types, ON_DEMAND);
    var second := WalkTypes(r, first.log, sorted, ON_DEMAND, first.attempted, []);
    WalkRunsOut(r, first.log, sorted, ON_DEMAND, first.attempted, [], second);
    WalkIsClear(r, first.log, sorted, ON_DEMAND, first.attempted, [], second);
    assert forall k | |log| <= k < |first.log| :: l.log[k] == first.log[k];
  }

  /**
   A launch that no call ends reports one error for each type that fits, and reports lack of capacity alone exactly if
   no call failed for another reason.
   */
  lemma ReportsEveryType(r: Request, log: Log, types: seq<InstanceType>, l: Launching)
    requires l == Create(r, log, types) && Launches(r, log, types) && NothingFinal(l.log, |log|, r.quotaTTL)
    ensures l.ending.OutOfTypes? && |l.ending.problems| == |Candidates(r, types)|
    ensures AllCapacity(l.ending.problems) <==> Clear(l.log, |log|, r.quotaTTL)
  {
    var ready := log + [Adopt(r.cloud.adopt(|log|)), FreeIPs];
    var r' := r.(free := r.cloud.freeIPs(|log| + 1));
    CreateWalksBoth(r, log, types, l, ready, r');
    OpeningIsClear(log, r.cloud.adopt(|log|), l.log, r.quotaTTL);
    WalkBothRunsOut(r', ready, Candidates(r, types), l);
  }

  lemma OpeningIsClear(log: Log, adopt: AdoptAnswer, full: Log, quotaTTL: int)
    requires log + [Adopt(adopt), FreeIPs] <= full
    ensures Clear(full, |log|, quotaTTL) <==> Clear(full, |log| + 2, quotaTTL)
  {
    assert full[|log|] == Adopt(adopt) && full[|log| + 1] == FreeIPs;
  }

  /** Before any call for a type: no types at all, a VM to adopt, or no type that fits. */
  lemma ReportsWithoutTrying(r: Request, log: Log, types: seq<InstanceType>, l: Launching)
    requires l == Create(r, log, types)
    ensures types == [] ==> l == Launching(log, Aborted(Generic))
    ensures types != [] && r.cloud.adopt(|log|).VM? ==> l.ending == Created(r.cloud.adopt(|log|).zone)
    ensures types != [] && !r.cloud.adopt(|log|).VM? && Candidates(r, types) == [] ==> l.ending == Aborted(Capacity)
    ensures types != [] && (r.cloud.adopt(|log|).VM? || Candidates(r, types) == []) ==> |l.log| == |log| + 1
  {
  }

  // ---------------------------------------------------------------- a resource that is not ready

  /** The insert failed with that reason among those the API gave, and with none that counts as missing capacity. */
  predicate SaysNotReady(e: Event, quotaTTL: int) {
    && e.Insert? && !e.answer.Done? && e.answer.err.ApiError? && "resourceNotReady" in e.answer.err.reasons
    && Shortage(e.answer, quotaTTL).None?
  }

  lemma NotReadyIsFinal(e: Event, quotaTTL: int)
    ensures SaysNotReady(e, quotaTTL) ==> Final(e, quotaTTL) && forall ending :: EndsAs(e, ending, quotaTTL) ==>
              ending == Aborted(ResourceNotReady)
    ensures Final(e, quotaTTL) && EndsAs(e, Aborted(ResourceNotReady), quotaTTL) ==> SaysNotReady(e, quotaTTL)
  {
  }

  /** A launch gives up for a resource that is not ready exactly if an insert of it failed so. */
  lemma NotReadyIffSaid(r: Request, log: Log, types: seq<InstanceType>, l: Launching)
    requires l == Create(r, log, types) && Launches(r, log, types)
    ensures l.ending == Aborted(ResourceNotReady) <==>
            exists k | |log| <= k < |l.log| :: SaysNotReady(l.log[k], r.quotaTTL)
  {
    if k :| |log| <= k < |l.log| && SaysNotReady(l.log[k], r.quotaTTL) {
      NotReadyIsFinal(l.log[k], r.quotaTTL);
      ReportsItsFinalEvent(r, log, types, l, k);
    } else if NothingFinal(l.log, |log|, r.quotaTTL) {
      ReportsEveryType(r, log, types, l);
    } else {
      var k :| |log| <= k < |l.log| && Final(l.log[k], r.quotaTTL);
      ReportsItsFinalEvent(r, log, types, l, k);
      NotReadyIsFinal(l.log[k], r.quotaTTL);
    }
  }
}
