/** Which pod ranges an attempt tries, and how many inserts a launch makes (pkg/providers/instance/instance.go). */
module LaunchBounds {
  import opened Basics
  import opened Offerings
  import opened PodRanges
  import opened Launch

  // ---------------------------------------------------------------- pod ranges

  /** The pod ranges of the inserts from event number i on, in order. */
  function RangesTried(log: Log, i: nat): seq<string> {
    if |log| <= i then []
    else
      var n := |log| - 1;
      RangesTried(log[..n], i) + (if log[n].Insert? then [log[n].range] else [])
  }

  lemma {:induction false} RangesTriedSplit(log: Log, i: nat, j: nat)
    requires i <= j <= |log|
    ensures RangesTried(log, i) == RangesTried(log[..j], i) + RangesTried(log, j)
  {
    if j == |log| {
      assert log[..j] == log;
    } else {
      var n := |log| - 1;
      RangesTriedSplit(log[..n], i, j);
      assert log[..n][..j] == log[..j];
    }
  }

  lemma {:induction false} NoInsertNoRange(log: Log, i: nat)
    requires i <= |log| && forall k | i <= k < |log| :: !log[k].Insert?
    ensures RangesTried(log, i) == []
  {
    if i < |log| { NoInsertNoRange(log[..|log| - 1], i); }
  }

  lemma FirstRangeTried(log: Log, tried: Log, full: Log, e: Event)
    requires tried == log + [Build(true)] + [e] && e.Insert? && tried <= full
    ensures RangesTried(full, |log|) == [e.range] + RangesTried(full, |tried|)
  {
    RangesTriedSplit(full, |log|, |tried|);
    assert full[..|tried|] == tried;
    var built := log + [Build(true)];
    assert tried[..|built|] == built && built[..|log|] == log;
    assert RangesTried(tried, |log|) == RangesTried(built, |log|) + [e.range];
    assert RangesTried(built, |log|) == RangesTried(log, |log|) + [];
  }

  /** The ranges tried are a prefix of the ranking. */
  lemma {:induction false} RangesTriedInRankOrder(r: Request, log: Log, it: InstanceType, cap: string, zone: string,
                                                  ranges: seq<string>, i: nat, a: Attempt)
    requires i <= |ranges| && a == TryRanges(r, log, it, cap, zone, ranges, i)
    ensures RangesTried(a.log, |log|) <= ranges[i..]
    decreases |ranges| - i
  {
    if i == |ranges| || !r.cloud.build(|log|) {
      NoInsertNoRange(a.log, |log|);
    } else {
      var built := log + [Build(true)];
      var answer := r.cloud.insert(|built|);
      var e := Insert(it, cap, zone, ranges[i], i == |ranges| - 1, answer);
      var tried := built + [e];
      FirstRangeTried(log, tried, a.log, e);
      assert [ranges[i]] + ranges[i + 1..] == ranges[i..];
      if !answer.Done? && Exhausted(answer, r.quotaTTL) && i < |ranges| - 1 {
        RangesTriedInRankOrder(r, tried, it, cap, zone, ranges, i + 1, a);
      } else {
        NoInsertNoRange(a.log, |tried|);
      }
    }
  }

  /**
   Each range tried but the last failed because its IP space was exhausted; the first success ends the attempt, and an
   attempt that succeeds marks no offering.
   */
  lemma {:induction false} OnlyExhaustionTriesNextRange(r: Request, log: Log, it: InstanceType, cap: string,
                                                        zone: string, ranges: seq<string>, i: nat, a: Attempt)
    requires i <= |ranges| && a == TryRanges(r, log, it, cap, zone, ranges, i)
    ensures forall k, m | |log| <= k < m < |a.log| && a.log[k].Insert? && a.log[m].Insert? ::
              Exhausted(a.log[k].answer, r.quotaTTL)
    ensures forall k | |log| <= k < |a.log| && a.log[k].Insert? && a.log[k].answer.Done? ::
              k == |a.log| - 1 && a.verdict == Launched(zone)
    ensures a.verdict.Launched? ==> forall k | |log| <= k < |a.log| :: !a.log[k].Mark?
    decreases |ranges| - i
  {
    if i < |ranges| && r.cloud.build(|log|) {
      var built := log + [Build(true)];
      var answer := r.cloud.insert(|built|);
      var tried := built + [Insert(it, cap, zone, ranges[i], i == |ranges| - 1, answer)];
      assert forall k | |log| <= k < |tried| :: a.log[k] == tried[k];
      if !answer.Done? && Exhausted(answer, r.quotaTTL) && i < |ranges| - 1 {
        OnlyExhaustionTriesNextRange(r, tried, it, cap, zone, ranges, i + 1, a);
      }
    }
  }

  // ---------------------------------------------------------------- how many inserts

  function InsertSlots(log: Log): set<int> {
    set k | 0 <= k < |log| && log[k].Insert?
  }

  /** How many inserts a log holds. */
  function Inserts(log: Log): nat {
    |InsertSlots(log)|
  }

  lemma QuietInserts(log: Log, log': Log)
    requires log <= log' && forall k | |log| <= k < |log'| :: !log'[k].Insert?
    ensures Inserts(log') == Inserts(log)
  {
    assert forall k | 0 <= k < |log| :: log'[k] == log[k];
    assert InsertSlots(log') == InsertSlots(log);
  }

  lemma OneInsert(log: Log, e: Event)
    requires e.Insert?
    ensures Inserts(log + [e]) == Inserts(log) + 1
  {
    assert InsertSlots(log + [e]) == InsertSlots(log) + {|log|};
  }

  lemma {:induction false} RangeInserts(r: Request, log: Log, it: InstanceType, cap: string, zone: string,
                                        ranges: seq<string>, i: nat, a: Attempt)
    requires i <= |ranges| && a == TryRanges(r, log, it, cap, zone, ranges, i)
    ensures Inserts(a.log) <= Inserts(log) + |ranges| - i
    decreases |ranges| - i
  {
    if i == |ranges| || !r.cloud.build(|log|) {
      QuietInserts(log, a.log);
    } else {
      var built := log + [Build(true)];
      var answer := r.cloud.insert(|built|);
      var e := Insert(it, cap, zone, ranges[i], i == |ranges| - 1, answer);
      var tried := built + [e];
      QuietInserts(log, built);
      OneInsert(built, e);
      if !answer.Done? && Exhausted(answer, r.quotaTTL) && i < |ranges| - 1 {
        RangeInserts(r, tried, it, cap, zone, ranges, i + 1, a);
      } else {
        QuietInserts(tried, a.log);
      }
    }
  }

  lemma ResolvedLength(pinned: seq<string>, cluster: seq<string>, free: FreeIPs, most: nat)
    requires |pinned| <= most && |cluster| <= most && 1 <= most
    ensures |Ranked(Resolved(pinned, cluster), free)| <= most
  {
    RankedIsStableSort(Resolved(pinned, cluster), free);
  }

  lemma GetOrCreateInserts(r: Request, log: Log, it: InstanceType, cap: string, zone: string, attempted: seq<string>,
                           cluster: seq<string>, a: Attempt, most: nat)
    requires a == GetOrCreate(r, log, it, cap, zone, attempted, cluster)
    requires |r.nodeClass.ranges| <= most && |cluster| <= most && 1 <= most
    ensures Inserts(a.log) <= Inserts(log) + most
  {
    var search := CheckZones(r, log, Uniq([zone] + attempted));
    QuietInserts(log, search.log);
    if search.found == Ok(None) {
      ResolvedLength(r.nodeClass.ranges, cluster, r.free, most);
      RangeInserts(r, search.log, it, cap, zone, Ranked(Resolved(r.nodeClass.ranges, cluster), r.free), 0, a);
    }
  }

  /** The NodeClass and every cluster configuration name at most so many pod ranges. */
  ghost predicate RangesWithin(r: Request, most: nat) {
    && 1 <= most && |r.nodeClass.ranges| <= most
    && forall n: nat :: r.cloud.config(n).Some? ==> |r.cloud.config(n).value| <= most
  }

  lemma PreparationInserts(r: Request, log: Log, it: InstanceType, cap: string, p: Preparation, most: nat)
    requires p == Prepare(r, log, it, cap) && RangesWithin(r, most)
    ensures Inserts(p.log) == Inserts(log)
    ensures p.Prepared? ==> |p.cluster| <= most
  {
    QuietInserts(log, p.log);
  }

  lemma AttemptInserts(r: Request, log: Log, it: InstanceType, cap: string, attempted: seq<string>, t: Tried, most: nat)
    requires t == TryCreate(r, log, it, cap, attempted) && RangesWithin(r, most)
    ensures Inserts(t.log) <= Inserts(log) + most
  {
    if it.ssdCount.Some? {
      var p := Prepare(r, log, it, cap);
      PreparationInserts(r, log, it, cap, p, most);
      if p.Prepared? {
        var a := GetOrCreate(r, p.log, it, cap, p.zone, attempted, p.cluster);
        GetOrCreateInserts(r, p.log, it, cap, p.zone, attempted, p.cluster, a, most);
      }
    }
  }

  /** n * most, by repeated addition. */
  function Times(n: nat, most: nat): nat {
    if n == 0 then 0 else most + Times(n - 1, most)
  }

  lemma {:induction false} TimesGrows(n: nat, n': nat, most: nat)
    requires n <= n'
    ensures Times(n, most) <= Times(n', most)
  {
    if n < n' { TimesGrows(n, n' - 1, most); }
  }

  lemma {:induction false} TimesMultiplies(n: nat, most: nat)
    ensures Times(n, most) == n * most
  {
    if n > 0 { TimesMultiplies(n - 1, most); }
  }

  lemma {:induction false} WalkInserts(r: Request, log: Log, types: seq<InstanceType>, cap: string,
                                       attempted: seq<string>, problems: seq<Problem>, w: Walk, n: nat, most: nat)
    requires w == WalkTypes(r, log, types, cap, attempted, problems) && n == |types| && RangesWithin(r, most)
    ensures Inserts(w.log) <= Inserts(log) + Times(n, most)
    decreases n
  {
    if n > 0 {
      var t := TryCreate(r, log, types[0], cap, attempted);
      AttemptInserts(r, log, types[0], cap, attempted, t, most);
      if t.verdict.Retry? {
        WalkInserts(r, t.log, types[1..], cap, Attempted(attempted, t.zone),
                    problems + [t.verdict.problem], w, n - 1, most);
      }
    }
  }

  /** Sorting these types by price keeps their number. */
  predicate OrderKeepsLength(r: Request, types: seq<InstanceType>) {
    |r.order(types, SPOT)| == |types| && |r.order(types, ON_DEMAND)| == |types|
  }

  lemma WalkBothInserts(r: Request, log: Log, types: seq<InstanceType>, l: Launching, n: nat, most: nat)
    requires l == WalkBoth(r, log, types) && RangesWithin(r, most)
    requires n == |r.order(types, SPOT)| == |r.order(types, ON_DEMAND)|
    ensures Inserts(l.log) <= Inserts(log) + 2 * Times(n, most)
  {
    var cap := if HasAvailable(r.claim, types, SPOT) then SPOT else ON_DEMAND;
    var first := WalkTypes(r, log, r.order(types, cap), cap, [], []);
    WalkInserts(r, log, r.order(types, cap), cap, [], [], first, n, most);
    if cap == SPOT && FallsBack(r, types, first.ending) {
      var second := WalkTypes(r, first.log, r.order(types, ON_DEMAND), ON_DEMAND, first.attempted, []);
      WalkInserts(r, first.log, r.order(types, ON_DEMAND), ON_DEMAND, first.attempted, [], second, n, most);
    }
  }

  lemma CreateInserts(r: Request, log: Log, types: seq<InstanceType>, l: Launching, most: nat)
    requires l == Create(r, log, types) && RangesWithin(r, most) && OrderKeepsLength(r, Candidates(r, types))
    ensures Inserts(l.log) <= Inserts(log) + 2 * Times(|types|, most)
  {
    var fitting := Candidates(r, types);
    TimesGrows(|fitting|, |types|, most);
    if types != [] {
      var looked := log + [Adopt(r.cloud.adopt(|log|))];
      QuietInserts(log, looked);
      if !r.cloud.adopt(|log|).VM? && fitting != [] {
        var ready := looked + [FreeIPs];
        QuietInserts(log, ready);
        WalkBothInserts(r.(free := r.cloud.freeIPs(|looked|)), ready, fitting, l, |fitting|, most);
      }
    }
  }

  lemma TimesIsProduct(inserts: nat, before: nat, n: nat, most: nat)
    requires inserts <= before + 2 * Times(n, most)
    ensures inserts <= before + 2 * n * most
  {
    TimesMultiplies(n, most);
  }

  /** A launch makes at most two passes over the types, and at most one insert per type and pod range in each. */
  lemma InsertBound(r: Request, log: Log, types: seq<InstanceType>, l: Launching, n: nat, most: nat)
    requires l == Create(r, log, types) && RangesWithin(r, most) && OrderKeepsLength(r, Candidates(r, types))
             && n == |types|
    ensures Inserts(l.log) <= Inserts(log) + 2 * n * most
  {
    CreateInserts(r, log, types, l, most);
    TimesIsProduct(Inserts(l.log), Inserts(log), n, most);
  }
}
