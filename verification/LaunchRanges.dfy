/** Which pod range an insert names (pkg/providers/instance/instance.go, pkg/providers/instance/podrange.go). */
module LaunchRanges {
  import opened Basics
  import opened Offerings
  import opened PodRanges
  import opened Launch

  /**
   The cluster configuration read by event number c is the last before the insert of event number k, whose range is one
   the NodeClass pins if it pins any, else one of the cluster's, and is left open only if neither has any.
   */
  predicate ConfiguredBy(log: Log, c: nat, k: nat, pinned: seq<string>)
    requires c < k < |log| && log[k].Insert?
  {
    && log[c].Config? && log[c].ranges.Some? && (forall m | c < m < k :: !log[m].Config?)
    && (pinned != [] ==> log[k].range in pinned)
    && (pinned == [] && log[c].ranges.value != [] ==> log[k].range in log[c].ranges.value)
    && (pinned == [] && log[c].ranges.value == [] ==> log[k].range == "")
  }

  ghost predicate Configured(log: Log, i: nat, pinned: seq<string>) {
    forall k | i <= k < |log| && log[k].Insert? :: exists c | i <= c < k :: ConfiguredBy(log, c, k, pinned)
  }

  lemma ConfiguredExtends(log: Log, full: Log, i: nat, pinned: seq<string>)
    requires i <= |log| && log <= full && Configured(log, i, pinned) && Configured(full, |log|, pinned)
    ensures Configured(full, i, pinned)
  {
    forall k | i <= k < |full| && full[k].Insert?
      ensures exists c | i <= c < k :: ConfiguredBy(full, c, k, pinned)
    {
      if k < |log| {
        var c :| i <= c < k && ConfiguredBy(log, c, k, pinned);
        assert forall m | c <= m <= k :: full[m] == log[m];
        assert ConfiguredBy(full, c, k, pinned);
      } else {
        var c :| |log| <= c < k && ConfiguredBy(full, c, k, pinned);
      }
    }
  }

  lemma QuietIsConfigured(log: Log, i: nat, pinned: seq<string>)
    requires forall k | i <= k < |log| :: !log[k].Insert?
    ensures Configured(log, i, pinned)
  {
  }

  lemma {:induction false} RankedMembers(names: seq<string>, free: FreeIPs, x: string)
    ensures x in Ranked(names, free) ==> x in names
  {
    if names != [] {
      RankedMembers(names[1..], free, x);
      PlaceMembers(names[0], Ranked(names[1..], free), free);
    }
  }

  /** The inserts of an attempt name ranges of the list it was given, and it reads no configuration. */
  lemma {:induction false} RangesOfList(r: Request, log: Log, it: InstanceType, cap: string, zone: string,
                                        ranges: seq<string>, i: nat, a: Attempt)
    requires i <= |ranges| && a == TryRanges(r, log, it, cap, zone, ranges, i)
    ensures forall k | |log| <= k < |a.log| :: !a.log[k].Config? && (a.log[k].Insert? ==> a.log[k].range in ranges)
    decreases |ranges| - i
  {
    if i < |ranges| && r.cloud.build(|log|) {
      var built := log + [Build(true)];
      var answer := r.cloud.insert(|built|);
      var tried := built + [Insert(it, cap, zone, ranges[i], i == |ranges| - 1, answer)];
      assert a.log[|log|] == tried[|log|] && a.log[|built|] == tried[|built|];
      if !answer.Done? && Exhausted(answer, r.quotaTTL) && i < |ranges| - 1 {
        RangesOfList(r, tried, it, cap, zone, ranges, i + 1, a);
      }
    }
  }

  lemma GetOrCreateRanges(r: Request, log: Log, it: InstanceType, cap: string, zone: string, attempted: seq<string>,
                          cluster: seq<string>, a: Attempt)
    requires a == GetOrCreate(r, log, it, cap, zone, attempted, cluster)
    ensures forall k | |log| <= k < |a.log| ::
              !a.log[k].Config? && (a.log[k].Insert? ==> a.log[k].range in Resolved(r.nodeClass.ranges, cluster))
  {
    var search := CheckZones(r, log, Uniq([zone] + attempted));
    assert forall k | |log| <= k < |search.log| :: a.log[k] == search.log[k];
    if search.found == Ok(None) {
      var names := Resolved(r.nodeClass.ranges, cluster);
      RangesOfList(r, search.log, it, cap, zone, Ranked(names, r.free), 0, a);
      forall x | x in Ranked(names, r.free)
        ensures x in names
      {
        RankedMembers(names, r.free, x);
      }
    }
  }

  lemma PreparationConfigures(r: Request, log: Log, it: InstanceType, cap: string, p: Preparation)
    requires p == Prepare(r, log, it, cap)
    ensures p.Prepared? ==> |log| < |p.log| && p.log[|p.log| - 1] == Config(cap, Some(p.cluster))
  {
  }

  lemma AttemptIsConfigured(r: Request, log: Log, it: InstanceType, cap: string, attempted: seq<string>, t: Tried)
    requires t == TryCreate(r, log, it, cap, attempted)
    ensures Configured(t.log, |log|, r.nodeClass.ranges)
  {
    if it.ssdCount.Some? {
      var p := Prepare(r, log, it, cap);
      if p.Prepared? {
        PreparationConfigures(r, log, it, cap, p);
        GetOrCreateRanges(r, p.log, it, cap, p.zone, attempted, p.cluster,
                          GetOrCreate(r, p.log, it, cap, p.zone, attempted, p.cluster));
        assert forall k | |log| <= k < |p.log| :: t.log[k] == p.log[k];
        forall k | |log| <= k < |t.log| && t.log[k].Insert?
          ensures ConfiguredBy(t.log, |p.log| - 1, k, r.nodeClass.ranges)
        {
        }
      }
    }
  }

  lemma {:induction false} WalkIsConfigured(r: Request, log: Log, types: seq<InstanceType>, cap: string,
                                            attempted: seq<string>, problems: seq<Problem>, w: Walk)
    requires w == WalkTypes(r, log, types, cap, attempted, problems)
    ensures Configured(w.log, |log|, r.nodeClass.ranges)
    decreases |types|
  {
    if types != [] {
      var t := TryCreate(r, log, types[0], cap, attempted);
      AttemptIsConfigured(r, log, types[0], cap, attempted, t);
      if t.verdict.Retry? {
        WalkIsConfigured(r, t.log, types[1..], cap, Attempted(attempted, t.zone), problems + [t.verdict.problem], w);
        ConfiguredExtends(t.log, w.log, |log|, r.nodeClass.ranges);
      }
    }
  }

  lemma WalkBothIsConfigured(r: Request, log: Log, types: seq<InstanceType>, l: Launching)
    requires l == WalkBoth(r, log, types)
    ensures Configured(l.log, |log|, r.nodeClass.ranges)
  {
    var cap := if HasAvailable(r.claim, types, SPOT) then SPOT else ON_DEMAND;
    var first := WalkTypes(r, log, r.order(types, cap), cap, [], []);
    WalkIsConfigured(r, log, r.order(types, cap), cap, [], [], first);
    if cap == SPOT && FallsBack(r, types, first.ending) {
      var second := WalkTypes(r, first.log, r.order(types, ON_DEMAND), ON_DEMAND, first.attempted, []);
      WalkIsConfigured(r, first.log, r.order(types, ON_DEMAND), ON_DEMAND, first.attempted, [], second);
      ConfiguredExtends(first.log, second.log, |log|, r.nodeClass.ranges);
    }
  }

  /** Every insert of a launch names a range that the NodeClass pins, or else one the cluster has just reported. */
  lemma InsertsNameConfiguredRanges(r: Request, log: Log, types: seq<InstanceType>, l: Launching)
    requires l == Create(r, log, types)
    ensures Configured(l.log, |log|, r.nodeClass.ranges)
  {
    if types != [] {
      var looked := log + [Adopt(r.cloud.adopt(|log|))];
      var fitting := Candidates(r, types);
      if !r.cloud.adopt(|log|).VM? && fitting != [] {
        var ready := looked + [FreeIPs];
        QuietIsConfigured(ready, |log|, r.nodeClass.ranges);
        WalkBothIsConfigured(r.(free := r.cloud.freeIPs(|looked|)), ready, fitting, l);
        ConfiguredExtends(ready, l.log, |log|, r.nodeClass.ranges);
      }
    }
  }
}
