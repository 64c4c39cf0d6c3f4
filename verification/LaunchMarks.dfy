/** Why a launch marks offerings unavailable, and which zones it selects (pkg/providers/instance/instance.go). */
module LaunchMarks {
  import opened Basics
  import opened Offerings
  import opened PodRanges
  import opened Launch

  // ---------------------------------------------------------------- every mark has its failed insert

  /** The insert of event number j is why event number k marks an offering, and how it marks it. */
  ghost predicate Explains(log: Log, j: nat, k: nat, quotaTTL: int)
    requires j < k < |log| && log[k].Mark?
  {
    && log[j].Insert?
    && (forall m | j < m < k :: log[m].Mark?)
    && log[k].offered.instanceType == log[j].it.name && log[k].offered.capacityType == log[j].capacityType
    && var shortage := Shortage(log[j].answer, quotaTTL);
       && shortage.Some?
       && log[k].ttl == BackoffTTL(shortage.value, quotaTTL)
       && log[k].quota == Quota(shortage.value)
       && (log[k].offered.zone == log[j].zone
           || (log[k].quota
               && log[k].offered.zone in OtherZones(log[j].it, log[j].capacityType, log[j].zone, log[j].it.offerings)))
  }

  /** From event number i on, every mark is explained by an insert from i on. */
  ghost predicate Explained(log: Log, i: nat, quotaTTL: int) {
    forall k | i <= k < |log| && log[k].Mark? :: exists j | i <= j < k :: Explains(log, j, k, quotaTTL)
  }

  lemma {:induction false} MarkedZones(log: Log, name: string, cap: string, zones: seq<string>, ttl: int, marked: Log)
    requires marked == MarkAll(log, name, cap, zones, ttl)
    ensures forall k | |log| <= k < |marked| ::
              && marked[k].Mark? && marked[k].ttl == ttl && marked[k].quota
              && marked[k].offered.instanceType == name && marked[k].offered.capacityType == cap
              && marked[k].offered.zone in zones
    ensures forall z | z in zones :: exists k | |log| <= k < |marked| ::
            marked[k] == Mark(Offered(name, z, cap), ttl, true)
    decreases |zones|
  {
    if zones != [] {
      var first := log + [Mark(Offered(name, zones[0], cap), ttl, true)];
      MarkedZones(first, name, cap, zones[1..], ttl, marked);
      assert marked[|log|] == first[|log|];
    }
  }

  lemma ConclusionIsExplained(r: Request, log: Log, e: Event, a: Attempt)
    requires e.Insert? && a == Concluded(r, log + [e], e.it, e.capacityType, e.zone, e.answer)
    ensures Explained(a.log, |log|, r.quotaTTL)
  {
    var tried := log + [e];
    assert a.log[|log|] == tried[|log|];
    var shortage := Shortage(e.answer, r.quotaTTL);
    if shortage.Some? {
      var d := shortage.value;
      var marked := tried + [Mark(Offered(e.it.name, e.zone, e.capacityType), BackoffTTL(d, r.quotaTTL), Quota(d))];
      assert a.log[|tried|] == marked[|tried|];
      if Quota(shortage.value) {
        var others := OtherZones(e.it, e.capacityType, e.zone, e.it.offerings);
        MarkedZones(marked, e.it.name, e.capacityType, others, r.quotaTTL, a.log);
      }
      forall k | |log| <= k < |a.log| && a.log[k].Mark?
        ensures exists j | |log| <= j < k :: Explains(a.log, j, k, r.quotaTTL)
      {
        assert Explains(a.log, |log|, k, r.quotaTTL);
      }
    }
  }

  lemma ExplainedExtends(log: Log, full: Log, i: nat, quotaTTL: int)
    requires i <= |log| && log <= full && Explained(log, i, quotaTTL) && Explained(full, |log|, quotaTTL)
    ensures Explained(full, i, quotaTTL)
  {
    forall k | i <= k < |full| && full[k].Mark?
      ensures exists j | i <= j < k :: Explains(full, j, k, quotaTTL)
    {
      if k < |log| {
        var j :| i <= j < k && Explains(log, j, k, quotaTTL);
        assert forall m | j <= m <= k :: full[m] == log[m];
        assert Explains(full, j, k, quotaTTL);
      } else {
        var j :| |log| <= j < k && Explains(full, j, k, quotaTTL);
      }
    }
  }

  lemma {:induction false} RangesAreExplained(r: Request, log: Log, it: InstanceType, cap: string, zone: string,
                                              ranges: seq<string>, i: nat, a: Attempt)
    requires i <= |ranges| && a == TryRanges(r, log, it, cap, zone, ranges, i)
    ensures Explained(a.log, |log|, r.quotaTTL)
    decreases |ranges| - i
  {
    if i < |ranges| && r.cloud.build(|log|) {
      var built := log + [Build(true)];
      var answer := r.cloud.insert(|built|);
      var e := Insert(it, cap, zone, ranges[i], i == |ranges| - 1, answer);
      var tried := built + [e];
      assert forall k | |log| <= k < |tried| :: a.log[k] == tried[k];
      if !answer.Done? {
        if Exhausted(answer, r.quotaTTL) && i < |ranges| - 1 {
          RangesAreExplained(r, tried, it, cap, zone, ranges, i + 1, a);
        } else {
          ConclusionIsExplained(r, built, e, a);
        }
      }
    }
  }

  // ---------------------------------------------------------------- every stockout mark has its selection

  function Chosen(e: Event): Offered
    requires e.Select?
  {
    Offered(e.it.name, e.zone, e.capacityType)
  }

  /** Event number s selected what event number k marks, and nothing was marked in between. */
  ghost predicate Leads(log: Log, s: nat, k: nat)
    requires s < k < |log| && log[k].Mark?
  {
    log[s].Select? && log[k].offered == Chosen(log[s]) && forall m | s < m < k :: !log[m].Mark?
  }

  ghost predicate Led(log: Log, i: nat) {
    forall k | i <= k < |log| && log[k].Mark? && !log[k].quota :: exists s | i <= s < k :: Leads(log, s, k)
  }

  lemma LedExtends(log: Log, full: Log, i: nat)
    requires i <= |log| && log <= full && Led(log, i) && Led(full, |log|)
    ensures Led(full, i)
  {
    forall k | i <= k < |full| && full[k].Mark? && !full[k].quota
      ensures exists s | i <= s < k :: Leads(full, s, k)
    {
      if k < |log| {
        var s :| i <= s < k && Leads(log, s, k);
        assert forall m | s <= m <= k :: full[m] == log[m];
        assert Leads(full, s, k);
      } else {
        var s :| |log| <= s < k && Leads(full, s, k);
      }
    }
  }

  /** A mark that is not for quota is the first since event number i, and marks this offering. */
  ghost predicate MarksOnce(log: Log, i: nat, offered: Offered) {
    forall k | i <= k < |log| && log[k].Mark? && !log[k].quota ::
      log[k].offered == offered && forall m | i <= m < k :: !log[m].Mark?
  }

  lemma ConclusionMarksOnce(r: Request, log: Log, it: InstanceType, cap: string, zone: string, answer: InsertAnswer,
                            a: Attempt)
    requires a == Concluded(r, log, it, cap, zone, answer)
    ensures forall k | |log| <= k < |a.log| && !a.log[k].quota ::
            k == |log| && a.log[k].offered == Offered(it.name, zone, cap)
  {
    var shortage := Shortage(answer, r.quotaTTL);
    if shortage.Some? && Quota(shortage.value) {
      var marked := log + [Mark(Offered(it.name, zone, cap), BackoffTTL(shortage.value, r.quotaTTL), true)];
      assert a.log[|log|] == marked[|log|];
      MarkedZones(marked, it.name, cap, OtherZones(it, cap, zone, it.offerings), r.quotaTTL, a.log);
    }
  }

  lemma {:induction false} RangesMarkOnce(r: Request, log: Log, it: InstanceType, cap: string, zone: string,
                                          ranges: seq<string>, i: nat, a: Attempt)
    requires i <= |ranges| && a == TryRanges(r, log, it, cap, zone, ranges, i)
    ensures MarksOnce(a.log, |log|, Offered(it.name, zone, cap))
    decreases |ranges| - i
  {
    if i < |ranges| && r.cloud.build(|log|) {
      var built := log + [Build(true)];
      var answer := r.cloud.insert(|built|);
      var tried := built + [Insert(it, cap, zone, ranges[i], i == |ranges| - 1, answer)];
      assert forall k | |log| <= k < |tried| :: a.log[k] == tried[k];
      if !answer.Done? {
        if Exhausted(answer, r.quotaTTL) && i < |ranges| - 1 {
          RangesMarkOnce(r, tried, it, cap, zone, ranges, i + 1, a);
        } else {
          ConclusionMarksOnce(r, tried, it, cap, zone, answer, a);
        }
      }
    }
  }

  // ---------------------------------------------------------------- a quota failure marks every zone of the type

  predicate QuotaFailure(answer: InsertAnswer, quotaTTL: int) {
    var shortage := Shortage(answer, quotaTTL);
    shortage.Some? && Quota(shortage.value)
  }

  /** The zones a quota failure in one zone concerns: that zone, and all that offer the type at the capacity type. */
  predicate Concerns(it: InstanceType, cap: string, zone: string, z: string) {
    z == zone || (z != "" && exists o | o in it.offerings :: o.capacityType == cap && o.zone == z)
  }

  lemma {:induction false} OtherZonesOffer(it: InstanceType, cap: string, zone: string, offerings: seq<Offering>)
    ensures forall z :: z in OtherZones(it, cap, zone, offerings) <==>
                        z != zone && z != "" && exists o | o in offerings :: o.capacityType == cap && o.zone == z
  {
    if offerings != [] {
      OtherZonesOffer(it, cap, zone, offerings[1..]);
      assert offerings == [offerings[0]] + offerings[1..];
    }
  }

  /** Directly after event number j, and before anything but a mark, the zone is marked for quota. */
  ghost predicate MarkedAfter(log: Log, j: nat, offered: Offered, quotaTTL: int) {
    exists k | j < k < |log| :: log[k] == Mark(offered, quotaTTL, true) && forall m | j < m < k :: log[m].Mark?
  }

  ghost predicate Covered(log: Log, i: nat, quotaTTL: int) {
    forall j, z | i <= j < |log| && log[j].Insert? && QuotaFailure(log[j].answer, quotaTTL)
                  && Concerns(log[j].it, log[j].capacityType, log[j].zone, z) ::
      MarkedAfter(log, j, Offered(log[j].it.name, z, log[j].capacityType), quotaTTL)
  }

  lemma CoveredExtends(log: Log, full: Log, i: nat, quotaTTL: int)
    requires i <= |log| && log <= full && Covered(log, i, quotaTTL) && Covered(full, |log|, quotaTTL)
    ensures Covered(full, i, quotaTTL)
  {
    forall j, z | i <= j < |full| && full[j].Insert? && QuotaFailure(full[j].answer, quotaTTL)
                  && Concerns(full[j].it, full[j].capacityType, full[j].zone, z)
      ensures MarkedAfter(full, j, Offered(full[j].it.name, z, full[j].capacityType), quotaTTL)
    {
      if j < |log| {
        assert log[j] == full[j];
        var offered := Offered(full[j].it.name, z, full[j].capacityType);
        assert MarkedAfter(log, j, offered, quotaTTL);
        var k :| j < k < |log| && log[k] == Mark(offered, quotaTTL, true) && forall m | j < m < k :: log[m].Mark?;
        assert forall m | j < m <= k :: full[m] == log[m];
      }
    }
  }

  lemma ConclusionCovers(r: Request, log: Log, e: Event, a: Attempt)
    requires e.Insert? && a == Concluded(r, log + [e], e.it, e.capacityType, e.zone, e.answer)
    ensures Covered(a.log, |log|, r.quotaTTL)
  {
    var tried := log + [e];
    assert a.log[|log|] == e;
    if QuotaFailure(e.answer, r.quotaTTL) {
      var first := Mark(Offered(e.it.name, e.zone, e.capacityType), r.quotaTTL, true);
      var marked := tried + [first];
      assert a.log[|tried|] == marked[|tried|] == first;
      MarkedZones(marked, e.it.name, e.capacityType, OtherZones(e.it, e.capacityType, e.zone, e.it.offerings),
                  r.quotaTTL, a.log);
      OtherZonesOffer(e.it, e.capacityType, e.zone, e.it.offerings);
      forall z | Concerns(e.it, e.capacityType, e.zone, z)
        ensures MarkedAfter(a.log, |log|, Offered(e.it.name, z, e.capacityType), r.quotaTTL)
      {
        if z != e.zone {
          assert z in OtherZones(e.it, e.capacityType, e.zone, e.it.offerings);
        }
      }
    }
  }

  lemma {:induction false} RangesAreCovered(r: Request, log: Log, it: InstanceType, cap: string, zone: string,
                                            ranges: seq<string>, i: nat, a: Attempt)
    requires i <= |ranges| && a == TryRanges(r, log, it, cap, zone, ranges, i)
    ensures Covered(a.log, |log|, r.quotaTTL)
    decreases |ranges| - i
  {
    if i < |ranges| && r.cloud.build(|log|) {
      var built := log + [Build(true)];
      var answer := r.cloud.insert(|built|);
      var e := Insert(it, cap, zone, ranges[i], i == |ranges| - 1, answer);
      var tried := built + [e];
      assert forall k | |log| <= k < |tried| :: a.log[k] == tried[k];
      if !answer.Done? {
        if Exhausted(answer, r.quotaTTL) && i < |ranges| - 1 {
          RangesAreCovered(r, tried, it, cap, zone, ranges, i + 1, a);
          assert !QuotaFailure(answer, r.quotaTTL);
        } else {
          ConclusionCovers(r, built, e, a);
        }
      }
    }
  }

  // ---------------------------------------------------------------- selections

  /** A zone selected for a compatible offering was not marked for the type; without one the zone has no name. */
  ghost predicate SelectedOpen(cloud: Cloud, log: Log, k: nat)
    requires k < |log| && log[k].Select?
  {
    if log[k].compatible then !Blocked(cloud, log[..k], Chosen(log[k])) else log[k].zone == ""
  }

  ghost predicate Selections(cloud: Cloud, log: Log, i: nat) {
    forall k | i <= k < |log| && log[k].Select? :: SelectedOpen(cloud, log, k)
  }

  lemma SelectionsExtend(cloud: Cloud, log: Log, full: Log, i: nat)
    requires i <= |log| && log <= full && Selections(cloud, log, i) && Selections(cloud, full, |log|)
    ensures Selections(cloud, full, i)
  {
    forall k | i <= k < |full| && full[k].Select?
      ensures SelectedOpen(cloud, full, k)
    {
      if k < |log| {
        assert full[k] == log[k] && full[..k] == log[..k];
        assert SelectedOpen(cloud, log, k);
      }
    }
  }

  /**
   On demand any open zone will do; otherwise some offering the claim allows must lie in a zone that is kept and open.
   */
  ghost predicate HasOpenOffering(r: Request, log: Log, it: InstanceType, cap: string, kept: seq<string>) {
    cap == ON_DEMAND
    || exists o | o in it.offerings ::
         r.claim.Allows(o) && o.zone in kept && !Blocked(r.cloud, log, Offered(it.name, o.zone, cap))
  }

  lemma SelectionIsOpen(r: Request, log: Log, it: InstanceType, cap: string, c: Choice)
    requires c == SelectZone(r, log, it, cap)
    ensures Selections(r.cloud, c.log, |log|)
    ensures c.zone.Ok? ==>
              && |c.log| == |log| + 2 && c.log[|log| + 1].Select?
              && Chosen(c.log[|log| + 1]) == Offered(it.name, c.zone.value, cap)
  {
    if c.zone.Ok? {
      var kept := Keep(r.cloud.zones(|log|).value, r.claim.zoneValues);
      var asked := log + [Zones(cap, Some(kept))];
      assert c.log[..|asked|] == asked;
      assert c.log[|asked|].compatible ==> c.zone.value in Open(r, asked, it, cap, kept);
    }
  }

  /**
   A selection counts as compatible exactly if an offering it can use is left open; and over cluster zones that all have
   names, it yields the empty zone exactly if none is.
   */
  lemma EmptyZoneIffNothingOpen(r: Request, log: Log, it: InstanceType, cap: string, c: Choice, kept: seq<string>)
    requires c == SelectZone(r, log, it, cap) && c.zone.Ok?
    requires kept == Keep(r.cloud.zones(|log|).value, r.claim.zoneValues)
    ensures |c.log| == |log| + 2 && c.log[|log|] == Zones(cap, Some(kept)) && c.log[|log| + 1].Select?
    ensures c.log[|log| + 1].compatible <==> HasOpenOffering(r, c.log[..|log| + 1], it, cap, kept)
    ensures "" !in r.cloud.zones(|log|).value ==>
            (c.zone.value == "" <==> !HasOpenOffering(r, c.log[..|log| + 1], it, cap, kept))
  {
    var asked := log + [Zones(cap, Some(kept))];
    assert c.log[..|log| + 1] == asked;
    var open := Open(r, asked, it, cap, kept);
    assert "" !in r.cloud.zones(|log|).value ==> "" !in open;
    var best := Cheapest(r.claim, open, it.offerings);
    assert cap != ON_DEMAND && best.Some? ==> HasOpenOffering(r, asked, it, cap, kept);
  }

  // ---------------------------------------------------------------- whole launches

  ghost predicate Orderly(cloud: Cloud, log: Log, i: nat, quotaTTL: int) {
    && Explained(log, i, quotaTTL)
    && Led(log, i)
    && Covered(log, i, quotaTTL)
    && Selections(cloud, log, i)
  }

  lemma OrderlyExtends(cloud: Cloud, log: Log, full: Log, i: nat, quotaTTL: int)
    requires i <= |log| && log <= full && Orderly(cloud, log, i, quotaTTL) && Orderly(cloud, full, |log|, quotaTTL)
    ensures Orderly(cloud, full, i, quotaTTL)
  {
    ExplainedExtends(log, full, i, quotaTTL);
    LedExtends(log, full, i);
    CoveredExtends(log, full, i, quotaTTL);
    SelectionsExtend(cloud, log, full, i);
  }

  lemma QuietIsOrderly(cloud: Cloud, log: Log, i: nat, quotaTTL: int)
    requires forall k | i <= k < |log| :: !log[k].Mark? && !log[k].Insert? && !log[k].Select?
    ensures Orderly(cloud, log, i, quotaTTL)
  {
  }

  lemma GetOrCreateMarks(r: Request, log: Log, it: InstanceType, cap: string, zone: string, attempted: seq<string>,
                         cluster: seq<string>, a: Attempt)
    requires a == GetOrCreate(r, log, it, cap, zone, attempted, cluster)
    ensures Explained(a.log, |log|, r.quotaTTL) && Covered(a.log, |log|, r.quotaTTL)
    ensures MarksOnce(a.log, |log|, Offered(it.name, zone, cap))
    ensures forall k | |log| <= k < |a.log| :: !a.log[k].Select?
  {
    var search := CheckZones(r, log, Uniq([zone] + attempted));
    assert forall k | |log| <= k < |search.log| :: a.log[k] == search.log[k];
    if search.found == Ok(None) {
      var ranges := Ranked(Resolved(r.nodeClass.ranges, cluster), r.free);
      RangesAreExplained(r, search.log, it, cap, zone, ranges, 0, a);
      RangesAreCovered(r, search.log, it, cap, zone, ranges, 0, a);
      RangesMarkOnce(r, search.log, it, cap, zone, ranges, 0, a);
    }
  }

  lemma PreparationSelects(r: Request, log: Log, it: InstanceType, cap: string, p: Preparation)
    requires p == Prepare(r, log, it, cap)
    ensures Selections(r.cloud, p.log, |log|)
    ensures p.Prepared? ==>
              |log| + 1 < |p.log| && p.log[|log| + 1].Select?
                && Chosen(p.log[|log| + 1]) == Offered(it.name, p.zone, cap)
  {
    var c := SelectZone(r, log, it, cap);
    SelectionIsOpen(r, log, it, cap, c);
    assert Selections(r.cloud, p.log, |c.log|);
    SelectionsExtend(r.cloud, c.log, p.log, |log|);
  }

  lemma SelectionLeads(log: Log, full: Log, s: nat, e: Event)
    requires s < |log| && log <= full && e.Select? && log[s] == e && MarksOnce(full, |log|, Chosen(e))
    requires forall k | s <= k < |log| :: !log[k].Mark?
    ensures Led(full, s)
  {
    assert forall k | s <= k < |log| :: full[k] == log[k];
    forall k | s <= k < |full| && full[k].Mark? && !full[k].quota
      ensures exists s' | s <= s' < k :: Leads(full, s', k)
    {
      assert Leads(full, s, k);
    }
  }

  lemma PreparedIsOrderly(r: Request, log: Log, ready: Log, full: Log, e: Event)
    requires log <= ready <= full && |log| + 1 < |ready| && ready[|log| + 1] == e && e.Select?
    requires forall k | |log| <= k < |ready| :: !ready[k].Mark? && !ready[k].Insert?
    requires forall k | |ready| <= k < |full| :: !full[k].Select?
    requires Selections(r.cloud, ready, |log|)
    requires Explained(full, |ready|, r.quotaTTL) && Covered(full, |ready|, r.quotaTTL)
             && MarksOnce(full, |ready|, Chosen(e))
    ensures Orderly(r.cloud, full, |log|, r.quotaTTL)
  {
    ExplainedExtends(ready, full, |log|, r.quotaTTL);
    CoveredExtends(ready, full, |log|, r.quotaTTL);
    SelectionsExtend(r.cloud, ready, full, |log|);
    SelectionLeads(ready, full, |log| + 1, e);
    assert !full[|log|].Mark? by { assert full[|log|] == ready[|log|]; }
  }

  lemma AttemptIsOrderly(r: Request, log: Log, it: InstanceType, cap: string, attempted: seq<string>, t: Tried)
    requires t == TryCreate(r, log, it, cap, attempted)
    ensures Orderly(r.cloud, t.log, |log|, r.quotaTTL)
  {
    if it.ssdCount.Some? {
      var p := Prepare(r, log, it, cap);
      PreparationSelects(r, log, it, cap, p);
      if p.Prepared? {
        var a := GetOrCreate(r, p.log, it, cap, p.zone, attempted, p.cluster);
        GetOrCreateMarks(r, p.log, it, cap, p.zone, attempted, p.cluster, a);
        PreparedIsOrderly(r, log, p.log, a.log, p.log[|log| + 1]);
      }
    }
  }

  lemma {:induction false} WalkIsOrderly(r: Request, log: Log, types: seq<InstanceType>, cap: string,
                                         attempted: seq<string>, problems: seq<Problem>, w: Walk)
    requires w == WalkTypes(r, log, types, cap, attempted, problems)
    ensures Orderly(r.cloud, w.log, |log|, r.quotaTTL)
    decreases |types|
  {
    if types != [] {
      var t := TryCreate(r, log, types[0], cap, attempted);
      AttemptIsOrderly(r, log, types[0], cap, attempted, t);
      if t.verdict.Retry? {
        WalkIsOrderly(r, t.log, types[1..], cap, Attempted(attempted, t.zone), problems + [t.verdict.problem], w);
        OrderlyExtends(r.cloud, t.log, w.log, |log|, r.quotaTTL);
      }
    }
  }

  lemma WalkBothIsOrderly(r: Request, log: Log, types: seq<InstanceType>, l: Launching)
    requires l == WalkBoth(r, log, types)
    ensures Orderly(r.cloud, l.log, |log|, r.quotaTTL)
  {
    var cap := if HasAvailable(r.claim, types, SPOT) then SPOT else ON_DEMAND;
    var first := WalkTypes(r, log, r.order(types, cap), cap, [], []);
    WalkIsOrderly(r, log, r.order(types, cap), cap, [], [], first);
    if cap == SPOT && FallsBack(r, types, first.ending) {
      var second := WalkTypes(r, first.log, r.order(types, ON_DEMAND), ON_DEMAND, first.attempted, []);
      WalkIsOrderly(r, first.log, r.order(types, ON_DEMAND), ON_DEMAND, first.attempted, [], second);
      OrderlyExtends(r.cloud, first.log, second.log, |log|, r.quotaTTL);
    }
  }

  lemma LaunchIsOrderly(r: Request, log: Log, types: seq<InstanceType>, l: Launching)
    requires l == Create(r, log, types)
    ensures Orderly(r.cloud, l.log, |log|, r.quotaTTL)
  {
    if types != [] {
      var looked := log + [Adopt(r.cloud.adopt(|log|))];
      QuietIsOrderly(r.cloud, looked, |log|, r.quotaTTL);
      var fitting := Candidates(r, types);
      if !r.cloud.adopt(|log|).VM? && fitting != [] {
        var ready := looked + [FreeIPs];
        QuietIsOrderly(r.cloud, ready, |log|, r.quotaTTL);
        WalkBothIsOrderly(r.(free := r.cloud.freeIPs(|looked|)), ready, fitting, l);
        OrderlyExtends(r.cloud, ready, l.log, |log|, r.quotaTTL);
      }
    }
  }

  /** How long a failure with these details keeps an offering away. */
  ghost predicate LastsByCode(d: Details, ttl: int, quotaTTL: int) {
    && (d.code == "QUOTA_EXCEEDED" ==> ttl == quotaTTL)
    && (d.code in {"IP_SPACE_EXHAUSTED", "IP_SPACE_EXHAUSTED_WITH_DETAILS"} ==> ttl == 30 * SECONDS)
    && (d.code == "MACHINE_TYPE_UNSUPPORTED" ==> ttl == 60 * 60 * SECONDS)
    && (d.code in {"ZONE_RESOURCE_POOL_EXHAUSTED", "ZONE_RESOURCE_POOL_EXHAUSTED_WITH_DETAILS"} ==>
          ttl == if d.reason == "configuration_availability" then 60 * 60 * SECONDS else 5 * 60 * SECONDS)
  }

  lemma BackoffLastsByCode(d: Details, quotaTTL: int)
    ensures LastsByCode(d, BackoffTTL(d, quotaTTL), quotaTTL)
  {
  }

  /** Every mark of a launch follows an insert that failed for lack of capacity, and lasts as long as its code says. */
  lemma MarksLastByCode(r: Request, log: Log, types: seq<InstanceType>, l: Launching, k: nat)
    returns (j: nat, d: Details)
    requires l == Create(r, log, types) && |log| <= k < |l.log| && l.log[k].Mark?
    ensures |log| <= j < k && l.log[j].Insert? && (forall m | j < m < k :: l.log[m].Mark?)
    ensures AnswerDetails(l.log[j].answer) == Some(d) && CapacityCode(d.code)
    ensures LastsByCode(d, l.log[k].ttl, r.quotaTTL)
    ensures d.code == "QUOTA_EXCEEDED" ==> r.quotaTTL != 0
  {
    LaunchIsOrderly(r, log, types, l);
    j :| |log| <= j < k && Explains(l.log, j, k, r.quotaTTL);
    d := AnswerDetails(l.log[j].answer).value;
    BackoffLastsByCode(d, r.quotaTTL);
    DetailsHaveCapacityCode(l.log[j].answer, d);
  }

  lemma DetailsHaveCapacityCode(answer: InsertAnswer, d: Details)
    requires AnswerDetails(answer) == Some(d)
    ensures CapacityCode(d.code)
  {
    if answer.Refused? {
      RefusalIsFirstShortage(answer.err.reasons);
    } else {
      OperationIsFirstShortage(answer.err.items);
    }
  }
}
