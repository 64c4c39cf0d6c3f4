/**
 The launch as the provider runs it: loops that grow the errors and the attempted zones, and update the cache of
 unavailable offerings (pkg/providers/instance/instance.go).  Each method refines the function of the same task in
 Launch.
 */
module Launcher {
  import opened Basics
  import opened Offerings
  import opened PodRanges
  import opened Launch

  lemma MarksAfter(cloud: Cloud, log: Log, e: Event)
    ensures MarksOf(cloud, log + [e]) == Marked(cloud, MarksOf(cloud, log), e, |log|) + cloud.others(|log| + 1)
  {
    assert (log + [e])[..|log|] == log;
  }

  lemma NextZone(log: Log, it: InstanceType, cap: string, zone: string, offerings: seq<Offering>, i: nat, ttl: int)
    requires i < |offerings|
    ensures var o := offerings[i];
            MarkAll(log, it.name, cap, OtherZones(it, cap, zone, offerings[i..]), ttl) ==
            MarkAll(if o.capacityType == cap && o.zone != "" && o.zone != zone
                    then log + [Mark(Offered(it.name, o.zone, cap), ttl, true)] else log,
                    it.name, cap, OtherZones(it, cap, zone, offerings[i + 1..]), ttl)
  {
    var o, rest := offerings[i], OtherZones(it, cap, zone, offerings[i + 1..]);
    assert offerings[i..][1..] == offerings[i + 1..];
    assert ([o.zone] + rest)[1..] == rest && [] + rest == rest;
  }

  lemma NextOpen(r: Request, log: Log, it: InstanceType, cap: string, zones: seq<string>, i: nat, open: seq<string>)
    requires i < |zones|
    ensures open + Open(r, log, it, cap, zones[i..]) ==
            (if Blocked(r.cloud, log, Offered(it.name, zones[i], cap)) then open else open + [zones[i]])
            + Open(r, log, it, cap, zones[i + 1..])
  {
    assert zones[i..][1..] == zones[i + 1..];
  }

  lemma NextType(r: Request, log: Log, types: seq<InstanceType>, i: nat, cap: string, attempted: seq<string>,
                 problems: seq<Problem>, t: Tried)
    requires i < |types| && t == TryCreate(r, log, types[i], cap, attempted)
    ensures WalkTypes(r, log, types[i..], cap, attempted, problems) ==
            if t.verdict.Launched? then Walk(t.log, Attempted(attempted, t.zone), Created(t.verdict.zone))
            else if t.verdict.Stop? then Walk(t.log, Attempted(attempted, t.zone), Aborted(t.verdict.problem))
            else WalkTypes(r, t.log, types[i + 1..], cap, Attempted(attempted, t.zone), problems + [t.verdict.problem])
  {
    assert types[i..][1..] == types[i + 1..];
  }

  predicate Plain(name: string) {
    ':' !in name
  }

  ghost predicate PlainOthers(cloud: Cloud) {
    forall n, o | o in cloud.others(n) :: PlainNames(o)
  }

  class Provider {
    const cloud: Cloud
    const offerings: UnavailableOfferings
    var log: Log

    ghost predicate Valid()
      reads this, offerings
    {
      PlainOthers(cloud) && offerings.Valid() && offerings.marks == MarksOf(cloud, log)
    }

    constructor (cloud: Cloud)
      requires PlainOthers(cloud)
      ensures Valid() && fresh(offerings) && this.cloud == cloud && log == []
    {
      this.cloud := cloud;
      offerings := new UnavailableOfferings();
      log := [];
      new;
      offerings.OthersMark(cloud.others(0));
    }

    /** A call to the outside world, with its answer. */
    method Note(e: Event)
      requires Valid() && !e.Mark?
      modifies `log, offerings
      ensures Valid() && log == old(log) + [e]
    {
      MarksAfter(cloud, log, e);
      log := log + [e];
      offerings.OthersMark(cloud.others(|log|));
    }

    method MarkUnavailable(o: Offered, ttl: int, quota: bool)
      requires Valid() && PlainNames(o)
      modifies `log, offerings
      ensures Valid() && log == old(log) + [Mark(o, ttl, quota)]
    {
      MarksAfter(cloud, log, Mark(o, ttl, quota));
      offerings.MarkUnavailableWithTTL(o, ttl, cloud.clock(|log|));
      log := log + [Mark(o, ttl, quota)];
      offerings.OthersMark(cloud.others(|log|));
    }

    /** The failed zone first, then every other zone that offers the type at the capacity type. */
    method MarkQuotaExceeded(it: InstanceType, cap: string, zone: string, ttl: int)
      requires Valid() && Plain(it.name) && Plain(cap)
      modifies `log, offerings
      ensures Valid()
      ensures log == MarkAll(old(log) + [Mark(Offered(it.name, zone, cap), ttl, true)], it.name, cap,
                             OtherZones(it, cap, zone, it.offerings), ttl)
    {
      MarkUnavailable(Offered(it.name, zone, cap), ttl, true);
      ghost var all := MarkAll(log, it.name, cap, OtherZones(it, cap, zone, it.offerings), ttl);
      assert it.offerings[0..] == it.offerings;
      for i := 0 to |it.offerings|
        invariant Valid()
        invariant MarkAll(log, it.name, cap, OtherZones(it, cap, zone, it.offerings[i..]), ttl) == all
      {
        var o := it.offerings[i];
        NextZone(log, it, cap, zone, it.offerings, i, ttl);
        if o.capacityType == cap && o.zone != "" && o.zone != zone {
          MarkUnavailable(Offered(it.name, o.zone, cap), ttl, true);
        }
      }
    }

    /** A last failure: mark what it calls for, and say whether the next type may be tried. */
    method Conclude(r: Request, it: InstanceType, cap: string, zone: string, answer: InsertAnswer)
      returns (verdict: Verdict)
      requires Valid() && r.cloud == cloud && Plain(it.name) && Plain(cap)
      modifies `log, offerings
      ensures Valid() && Attempt(log, verdict) == Concluded(r, old(log), it, cap, zone, answer)
    {
      var shortage := Shortage(answer, r.quotaTTL);
      if shortage.None? { return if NotReady(answer) then Stop(ResourceNotReady) else Retry(Generic); }
      var d := shortage.value;
      if Quota(d) {
        MarkQuotaExceeded(it, cap, zone, r.quotaTTL);
        return Retry(Capacity);
      }
      MarkUnavailable(Offered(it.name, zone, cap), BackoffTTL(d, r.quotaTTL), false);
      verdict := if IpSpace(d) then Stop(Capacity) else Retry(Capacity);
    }

    method CreateWithPodRanges(r: Request, it: InstanceType, cap: string, zone: string, cluster: seq<string>)
      returns (verdict: Verdict)
      requires Valid() && r.cloud == cloud && Plain(it.name) && Plain(cap)
      modifies `log, offerings
      ensures Valid()
      ensures Attempt(log, verdict) ==
              TryRanges(r, old(log), it, cap, zone, Ranked(Resolved(r.nodeClass.ranges, cluster), r.free), 0)
    {
      var ranges := RankPodRangeNames(Resolved(r.nodeClass.ranges, cluster), r.free);
      ghost var all := TryRanges(r, log, it, cap, zone, ranges, 0);
      for i := 0 to |ranges|
        invariant Valid() && TryRanges(r, log, it, cap, zone, ranges, i) == all
      {
        if !cloud.build(|log|) {
          Note(Build(false));
          return Stop(Generic);
        }
        Note(Build(true));
        var answer := cloud.insert(|log|);
        Note(Insert(it, cap, zone, ranges[i], i == |ranges| - 1, answer));
        if answer.Done? { return Launched(zone); }
        if !(Exhausted(answer, r.quotaTTL) && i < |ranges| - 1) {
          verdict := Conclude(r, it, cap, zone, answer);
          return;
        }
      }
      verdict := Retry(Generic);
    }

    method GetOrCreateInstance(r: Request, it: InstanceType, cap: string, zone: string, attempted: seq<string>,
                               cluster: seq<string>) returns (verdict: Verdict)
      requires Valid() && r.cloud == cloud && Plain(it.name) && Plain(cap)
      modifies `log, offerings
      ensures Valid() && Attempt(log, verdict) == GetOrCreate(r, old(log), it, cap, zone, attempted, cluster)
    {
      var zones := Uniq([zone] + attempted);
      ghost var all := CheckZones(r, log, zones);
      assert zones[0..] == zones;
      for i := 0 to |zones|
        invariant Valid() && CheckZones(r, log, zones[i..]) == all
      {
        var presence := cloud.presence(|log|);
        assert zones[i..][1..] == zones[i + 1..];
        Note(Check(zones[i], presence));
        if presence == CheckFailed { return Stop(Generic); }
        if presence == Present { return Launched(zones[i]); }
      }
      verdict := CreateWithPodRanges(r, it, cap, zone, cluster);
    }

    /** The first strictly cheapest of the allowed offerings in the zones. */
    method CheapestCompatibleZone(claim: Claim, zones: seq<string>, offers: seq<Offering>)
      returns (zone: string, found: bool)
      ensures zone == match Cheapest(claim, zones, offers) case Some(o) => o.zone case None => ""
      ensures found <==> exists o | o in offers :: Eligible(claim, zones, o)
    {
      var best: Option<Offering> := None;
      for i := 0 to |offers|
        invariant best == Cheapest(claim, zones, offers[..i])
      {
        var o := offers[i];
        assert offers[..i + 1][..i] == offers[..i];
        if o.zone in zones && claim.Allows(o) && (best.None? || o.price < best.value.price) { best := Some(o); }
      }
      assert offers[..|offers|] == offers;
      zone, found := if best.Some? then best.value.zone else "", best.Some?;
    }

    method OpenZones(r: Request, it: InstanceType, cap: string, zones: seq<string>) returns (open: seq<string>)
      requires Valid() && r.cloud == cloud && Plain(it.name) && Plain(cap)
      ensures open == Open(r, log, it, cap, zones)
    {
      open := [];
      assert zones[0..] == zones;
      for i := 0 to |zones|
        invariant open + Open(r, log, it, cap, zones[i..]) == Open(r, log, it, cap, zones)
      {
        var unavailable := offerings.IsUnavailable(Offered(it.name, zones[i], cap), cloud.clock(|log|));
        NextOpen(r, log, it, cap, zones, i, open);
        if !unavailable { open := open + [zones[i]]; }
      }
    }

    method SelectLaunchZone(r: Request, it: InstanceType, cap: string) returns (zone: Result<string, Problem>)
      requires Valid() && r.cloud == cloud && Plain(it.name) && Plain(cap)
      modifies `log, offerings
      ensures Valid() && Choice(log, zone) == SelectZone(r, old(log), it, cap)
    {
      var n := |log|;
      var zones := cloud.zones(n);
      if zones.None? {
        Note(Zones(cap, None));
        return Err(Generic);
      }
      var kept := Keep(zones.value, r.claim.zoneValues);
      Note(Zones(cap, Some(kept)));
      if kept == [] { return Err(Generic); }
      var open := OpenZones(r, it, cap, kept);
      if open == [] { return Err(Capacity); }
      var chosen, found := open[cloud.pick(n) % |open|], true;
      if cap != ON_DEMAND {
        chosen, found := CheapestCompatibleZone(r.claim, open, it.offerings);
      }
      Note(Select(it, cap, chosen, found));
      return Ok(chosen);
    }

    method TryCreateInstance(r: Request, it: InstanceType, cap: string, attempted: seq<string>)
      returns (zone: string, verdict: Verdict)
      requires Valid() && r.cloud == cloud && Plain(it.name) && Plain(cap)
      modifies `log, offerings
      ensures Valid() && Tried(log, zone, verdict) == TryCreate(r, old(log), it, cap, attempted)
    {
      if it.ssdCount.None? { return "", Stop(Generic); }
      var choice := SelectLaunchZone(r, it, cap);
      if choice.Err? { return "", Retry(choice.error); }
      zone := choice.value;
      var ok := cloud.template(|log|);
      Note(Template(cap, ok));
      if !ok { return zone, Retry(Generic); }
      var cluster := cloud.config(|log|);
      Note(Config(cap, cluster));
      if cluster.None? { return zone, Retry(Generic); }
      verdict := GetOrCreateInstance(r, it, cap, zone, attempted, cluster.value);
      if verdict.Launched? { zone := verdict.zone; }
    }

    method CreateWithCapacityType(r: Request, types: seq<InstanceType>, cap: string, zones: seq<string>)
      returns (attempted: seq<string>, ending: Ending)
      requires Valid() && r.cloud == cloud && Plain(cap) && forall it | it in types :: Plain(it.name)
      modifies `log, offerings
      ensures Valid() && Walk(log, attempted, ending) == WalkTypes(r, old(log), types, cap, zones, [])
    {
      attempted := zones;
      var problems := [];
      ghost var all := WalkTypes(r, log, types, cap, zones, []);
      assert types[0..] == types;
      for i := 0 to |types|
        invariant Valid() && WalkTypes(r, log, types[i..], cap, attempted, problems) == all
      {
        ghost var before, sofar := log, attempted;
        var zone, verdict := TryCreateInstance(r, types[i], cap, attempted);
        NextType(r, before, types, i, cap, sofar, problems, Tried(log, zone, verdict));
        if zone != "" && zone !in attempted { attempted := attempted + [zone]; }
        match verdict
        case Launched(z) => return attempted, Created(z);
        case Stop(problem) => return attempted, Aborted(problem);
        case Retry(problem) => problems := problems + [problem];
      }
      ending := OutOfTypes(problems);
    }

    method LaunchFitting(r: Request, types: seq<InstanceType>) returns (ending: Ending)
      requires Valid() && r.cloud == cloud && forall it | it in types :: Plain(it.name)
      requires forall it | it in r.order(types, SPOT) || it in r.order(types, ON_DEMAND) :: it in types
      modifies `log, offerings
      ensures Valid() && Launching(log, ending) == WalkBoth(r, old(log), types)
    {
      var cap := if HasAvailable(r.claim, types, SPOT) then SPOT else ON_DEMAND;
      var attempted;
      attempted, ending := CreateWithCapacityType(r, r.order(types, cap), cap, []);
      if cap == SPOT && FallsBack(r, types, ending) {
        attempted, ending := CreateWithCapacityType(r, r.order(types, ON_DEMAND), ON_DEMAND, attempted);
      }
    }

    method LaunchNode(r: Request, types: seq<InstanceType>) returns (ending: Ending)
      requires Valid() && r.cloud == cloud && forall it | it in types :: Plain(it.name)
      requires forall it | it in r.order(Candidates(r, types), SPOT)
                           || it in r.order(Candidates(r, types), ON_DEMAND) ::
                 it in Candidates(r, types)
      modifies `log, offerings
      ensures Valid() && Launching(log, ending) == Create(r, old(log), types)
    {
      if types == [] { return Aborted(Generic); }
      var found := cloud.adopt(|log|);
      Note(Adopt(found));
      if found.VM? { return Created(found.zone); }
      var fitting := Candidates(r, types);
      if fitting == [] { return Aborted(Capacity); }
      var request := r.(free := cloud.freeIPs(|log|));
      Note(FreeIPs);
      ending := LaunchFitting(request, fitting);
    }
  }
}
