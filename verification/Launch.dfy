/**
 Launching a VM for a NodeClaim (pkg/providers/instance/instance.go).

 GCE and GKE answer every call arbitrarily: the model takes their answers, and the clock, as functions of how many
 events came before.  A launch is then a function that extends a log of events, one per call made and one per offering
 marked unavailable, and a sequence of launches is the same log growing further.  The cache of unavailable offerings is
 what replaying the marks in the log gives, together with those that others put into it in between: preemption notices,
 and launches that run at the same time.
 */
module Launch {
  import opened Basics
  import opened Offerings
  import opened PodRanges
  import LocalSSD

  // ---------------------------------------------------------------- GCE failures

  const QUOTA_CODE := "QUOTA_EXCEEDED"
  const QUOTA_REASON := "quotaExceeded"
  const NOT_READY := "resourceNotReady"
  const IP_SPACE := {"IP_SPACE_EXHAUSTED_WITH_DETAILS", "IP_SPACE_EXHAUSTED"}
  const CAPACITY_CODES := IP_SPACE + {"ZONE_RESOURCE_POOL_EXHAUSTED_WITH_DETAILS", "ZONE_RESOURCE_POOL_EXHAUSTED",
                                      "MACHINE_TYPE_UNSUPPORTED"}

  const IP_SPACE_TTL := 30 * SECONDS
  const STOCKOUT_TTL := 5 * 60 * SECONDS
  const UNSUPPORTED_TTL := 60 * 60 * SECONDS

  /** One error of a zone operation: its code and the first structured reason attached to it. */
  datatype OperationItem = OperationItem(code: string, reason: string)

  datatype GceError =
    | ApiError(reasons: seq<string>)
    | OperationError(items: seq<OperationItem>)
    | OtherError

  datatype InsertAnswer =
    | Refused(err: GceError)            // the insert call failed
    | Failed(err: GceError)             // waiting for its operation failed
    | Done

  datatype Details = Details(code: string, reason: string)

  predicate CapacityCode(code: string) {
    code in CAPACITY_CODES || code == QUOTA_CODE
  }

  function RefusalDetails(reasons: seq<string>): Option<Details> {
    if reasons == [] then None
    else
      var code := if reasons[0] == QUOTA_REASON then QUOTA_CODE else reasons[0];
      if CapacityCode(code) then Some(Details(code, reasons[0])) else RefusalDetails(reasons[1..])
  }

  function OperationDetails(items: seq<OperationItem>): Option<Details> {
    if items == [] then None
    else if CapacityCode(items[0].code) then Some(Details(items[0].code, items[0].reason))
    else OperationDetails(items[1..])
  }

  function AnswerDetails(answer: InsertAnswer): Option<Details> {
    match answer
    case Refused(ApiError(reasons)) => RefusalDetails(reasons)
    case Failed(OperationError(items)) => OperationDetails(items)
    case _ => None
  }

  function ReasonCode(reason: string): string {
    if reason == QUOTA_REASON then QUOTA_CODE else reason
  }

  /** A refused insert is classified by its first reason that names a shortage, and by none otherwise. */
  lemma {:induction false} RefusalIsFirstShortage(reasons: seq<string>)
    ensures match RefusalDetails(reasons)
            case Some(d) =>
              exists i | 0 <= i < |reasons| :: d == Details(ReasonCode(reasons[i]), reasons[i]) && CapacityCode(d.code)
                && forall j | 0 <= j < i :: !CapacityCode(ReasonCode(reasons[j]))
            case None => forall j | 0 <= j < |reasons| :: !CapacityCode(ReasonCode(reasons[j]))
  {
    if reasons != [] && !CapacityCode(ReasonCode(reasons[0])) {
      RefusalIsFirstShortage(reasons[1..]);
      assert forall j | 1 <= j < |reasons| :: reasons[j] == reasons[1..][j - 1];
    }
  }

  /** A failed operation likewise, by the first of its errors. */
  lemma {:induction false} OperationIsFirstShortage(items: seq<OperationItem>)
    ensures match OperationDetails(items)
            case Some(d) =>
              exists i | 0 <= i < |items| :: d == Details(items[i].code, items[i].reason) && CapacityCode(d.code)
                && forall j | 0 <= j < i :: !CapacityCode(items[j].code)
            case None => forall j | 0 <= j < |items| :: !CapacityCode(items[j].code)
  {
    if items != [] && !CapacityCode(items[0].code) {
      OperationIsFirstShortage(items[1..]);
      assert forall j | 1 <= j < |items| :: items[j] == items[1..][j - 1];
    }
  }

  predicate NamesShortage(code: string) {
    code in {"QUOTA_EXCEEDED", "IP_SPACE_EXHAUSTED", "IP_SPACE_EXHAUSTED_WITH_DETAILS", "ZONE_RESOURCE_POOL_EXHAUSTED",
             "ZONE_RESOURCE_POOL_EXHAUSTED_WITH_DETAILS", "MACHINE_TYPE_UNSUPPORTED"}
  }

  /** An insert fails for lack of capacity exactly if a reason of its refusal, or an error of its operation, says so. */
  lemma ShortageIffSaid(answer: InsertAnswer)
    ensures AnswerDetails(answer).Some? <==>
            || (answer.Refused? && answer.err.ApiError?
                && exists i | 0 <= i < |answer.err.reasons| :: NamesShortage(ReasonCode(answer.err.reasons[i])))
            || (answer.Failed? && answer.err.OperationError?
                && exists i | 0 <= i < |answer.err.items| :: NamesShortage(answer.err.items[i].code))
  {
    assert forall code :: NamesShortage(code) <==> CapacityCode(code);
    if answer.Refused? && answer.err.ApiError? { RefusalIsFirstShortage(answer.err.reasons); }
    if answer.Failed? && answer.err.OperationError? { OperationIsFirstShortage(answer.err.items); }
  }

  predicate IpSpace(d: Details) {
    d.code in IP_SPACE
  }

  predicate Quota(d: Details) {
    d.code == QUOTA_CODE
  }

  predicate Unsupported(d: Details) {
    !IpSpace(d) && (d.code == "MACHINE_TYPE_UNSUPPORTED" || d.reason == "configuration_availability")
  }

  /** With the quota backoff disabled, a quota failure does not count as missing capacity. */
  function Shortage(answer: InsertAnswer, quotaTTL: int): Option<Details> {
    match AnswerDetails(answer)
    case Some(d) => if Quota(d) && quotaTTL == 0 then None else Some(d)
    case None => None
  }

  function BackoffTTL(d: Details, quotaTTL: int): int {
    if Quota(d) then quotaTTL else if IpSpace(d) then IP_SPACE_TTL
    else if Unsupported(d) then UNSUPPORTED_TTL else STOCKOUT_TTL
  }

  predicate NotReady(answer: InsertAnswer) {
    (answer.Refused? || answer.Failed?) && answer.err.ApiError? && NOT_READY in answer.err.reasons
  }

  // ---------------------------------------------------------------- requests

  datatype Offering = Offering(zone: string, capacityType: string, price: real, available: bool)

  /** ssdCount is the count the type's requirements pin, if they pin exactly one number. */
  datatype InstanceType = InstanceType(name: string, offerings: seq<Offering>, ssdCount: Option<nat>)

  datatype SsdRequest = Unset | Exact(count: int) | Unusable

  /** The requirements of a NodeClaim, as far as launching consults them. */
  datatype Claim = Claim(zoneValues: seq<string>, zoneOk: string -> bool, capacityOk: string -> bool, ssd: SsdRequest) {
    predicate Allows(o: Offering) {
      zoneOk(o.zone) && capacityOk(o.capacityType)
    }
  }

  datatype NodeClass = NodeClass(ranges: seq<string>, imageFits: InstanceType -> bool)

  // ---------------------------------------------------------------- events

  datatype AdoptAnswer = NoVM | VM(zone: string) | LookupFailed

  datatype Presence = Absent | Present | CheckFailed

  datatype Event =
    | Adopt(adopt: AdoptAnswer)
    | FreeIPs
    | Zones(capacityType: string, kept: Option<seq<string>>)        // cluster zones the claim lets through
    | Select(it: InstanceType, capacityType: string, zone: string, compatible: bool)
    | Template(capacityType: string, ok: bool)
    | Config(capacityType: string, ranges: Option<seq<string>>)
    | Check(zone: string, presence: Presence)
    | Build(ok: bool)
    | Insert(it: InstanceType, capacityType: string, zone: string, range: string, last: bool, answer: InsertAnswer)
    | Mark(offered: Offered, ttl: int, quota: bool)

  type Log = seq<Event>

  /** What the outside world answers to the call that becomes event number n, and when. */
  datatype Cloud = Cloud(
    clock: nat -> int,
    adopt: nat -> AdoptAnswer,
    freeIPs: nat -> FreeIPs,
    zones: nat -> Option<seq<string>>,
    pick: nat -> nat,
    template: nat -> bool,
    config: nat -> Option<seq<string>>,
    presence: nat -> Presence,
    build: nat -> bool,
    insert: nat -> InsertAnswer,
    others: nat -> Marks)                 // what others mark after the event before, and until when

  /** Everything a launch is given besides the log. */
  datatype Request = Request(
    cloud: Cloud, claim: Claim, nodeClass: NodeClass, quotaTTL: int, free: FreeIPs,
    order: (seq<InstanceType>, string) -> seq<InstanceType>)

  /** The marks after one event more, before others add theirs. */
  function Marked(cloud: Cloud, marks: Marks, e: Event, n: nat): Marks {
    if e.Mark? then marks[e.offered := Expires(e.ttl, cloud.clock(n))] else marks
  }

  function MarksOf(cloud: Cloud, log: Log): Marks {
    if log == [] then cloud.others(0)
    else
      var n := |log| - 1;
      Marked(cloud, MarksOf(cloud, log[..n]), log[n], n) + cloud.others(n + 1)
  }

  /** Whether the cache reports the offering unavailable at the moment the next event happens. */
  predicate Blocked(cloud: Cloud, log: Log, o: Offered) {
    Unavailable(MarksOf(cloud, log), o, cloud.clock(|log|))
  }

  // ---------------------------------------------------------------- choosing a zone

  function Keep(zones: seq<string>, values: seq<string>): (kept: seq<string>)
    ensures forall z :: z in kept <==> z in zones && (values == [] || z in values)
  {
    if values == [] then zones
    else if zones == [] then []
    else (if zones[0] in values then [zones[0]] else []) + Keep(zones[1..], values)
  }

  function Open(r: Request, log: Log, it: InstanceType, cap: string, zones: seq<string>): (open: seq<string>)
    ensures forall z :: z in open <==> z in zones && !Blocked(r.cloud, log, Offered(it.name, z, cap))
  {
    if zones == [] then []
    else (if Blocked(r.cloud, log, Offered(it.name, zones[0], cap)) then [] else [zones[0]])
         + Open(r, log, it, cap, zones[1..])
  }

  /** The cheapest allowed offering in one of the zones decides; with none, the zone is empty. */
  function Cheapest(claim: Claim, zones: seq<string>, offerings: seq<Offering>): (best: Option<Offering>)
    ensures best.Some? ==> best.value in offerings && best.value.zone in zones && claim.Allows(best.value)
    ensures forall o | o in offerings && o.zone in zones && claim.Allows(o) :: best.Some? && best.value.price <= o.price
  {
    if offerings == [] then None
    else
      var n := |offerings| - 1;
      var o, best := offerings[n], Cheapest(claim, zones, offerings[..n]);
      if o.zone in zones && claim.Allows(o) && (best.None? || o.price < best.value.price) then Some(o) else best
  }

  predicate Eligible(claim: Claim, zones: seq<string>, o: Offering) {
    o.zone in zones && claim.Allows(o)
  }

  /** Of several cheapest offerings the first counts. */
  lemma {:induction false} CheapestIsFirst(claim: Claim, zones: seq<string>, offerings: seq<Offering>) returns (i: nat)
    requires Cheapest(claim, zones, offerings).Some?
    ensures i < |offerings| && Cheapest(claim, zones, offerings) == Some(offerings[i])
    ensures forall j | 0 <= j < i && Eligible(claim, zones, offerings[j]) :: offerings[i].price < offerings[j].price
  {
    var n := |offerings| - 1;
    var before := Cheapest(claim, zones, offerings[..n]);
    assert forall j | 0 <= j < n :: offerings[j] in offerings[..n];
    if before == Cheapest(claim, zones, offerings) {
      i := CheapestIsFirst(claim, zones, offerings[..n]);
    } else {
      i := n;
    }
  }

  datatype Choice = Choice(log: Log, zone: Result<string, Problem>)

  /** The kinds of error the walk distinguishes. */
  datatype Problem = Capacity | ResourceNotReady | Generic

  function SelectZone(r: Request, log: Log, it: InstanceType, cap: string): (c: Choice)
    ensures log <= c.log
    ensures forall k | |log| <= k < |c.log| :: c.log[k].Zones? || c.log[k].Select?
  {
    var n := |log|;
    match r.cloud.zones(n)
    case None => Choice(log + [Zones(cap, None)], Err(Generic))
    case Some(zones) =>
      var kept := Keep(zones, r.claim.zoneValues);
      var asked := log + [Zones(cap, Some(kept))];
      if kept == [] then Choice(asked, Err(Generic))
      else
        var open := Open(r, asked, it, cap, kept);
        if open == [] then Choice(asked, Err(Capacity))
        else
          var best := Cheapest(r.claim, open, it.offerings);
          var zone :=
            if cap == ON_DEMAND then open[r.cloud.pick(n) % |open|] else if best.Some? then best.value.zone else "";
          Choice(asked + [Select(it, cap, zone, cap == ON_DEMAND || best.Some?)], Ok(zone))
  }

  // ---------------------------------------------------------------- one attempt

  datatype Verdict = Launched(zone: string) | Retry(problem: Problem) | Stop(problem: Problem)

  datatype Attempt = Attempt(log: Log, verdict: Verdict)

  function OtherZones(it: InstanceType, cap: string, zone: string, offerings: seq<Offering>): seq<string> {
    if offerings == [] then []
    else
      var o := offerings[0];
      (if o.capacityType != cap || o.zone == "" || o.zone == zone then [] else [o.zone])
      + OtherZones(it, cap, zone, offerings[1..])
  }

  function MarkAll(log: Log, name: string, cap: string, zones: seq<string>, ttl: int): (log': Log)
    ensures log <= log'
    ensures forall k | |log| <= k < |log'| :: log'[k].Mark?
    decreases |zones|
  {
    if zones == [] then log
    else MarkAll(log + [Mark(Offered(name, zones[0], cap), ttl, true)], name, cap, zones[1..], ttl)
  }

  /** What a failed insert leads to once no other pod range is left to try. */
  function Concluded(r: Request, log: Log, it: InstanceType, cap: string, zone: string,
                     answer: InsertAnswer): (a: Attempt)
    ensures log <= a.log && !a.verdict.Launched?
    ensures forall k | |log| <= k < |a.log| :: a.log[k].Mark?
  {
    match Shortage(answer, r.quotaTTL)
    case Some(d) =>
      var marked := log + [Mark(Offered(it.name, zone, cap), BackoffTTL(d, r.quotaTTL), Quota(d))];
      if Quota(d) then
        Attempt(MarkAll(marked, it.name, cap, OtherZones(it, cap, zone, it.offerings), r.quotaTTL), Retry(Capacity))
      else if IpSpace(d) then Attempt(marked, Stop(Capacity))
      else Attempt(marked, Retry(Capacity))
    case None =>
      if NotReady(answer) then Attempt(log, Stop(ResourceNotReady)) else Attempt(log, Retry(Generic))
  }

  predicate Exhausted(answer: InsertAnswer, quotaTTL: int) {
    match Shortage(answer, quotaTTL)
    case Some(d) => IpSpace(d)
    case None => false
  }

  /** createInstanceWithPodRanges, from range number i on. */
  function TryRanges(r: Request, log: Log, it: InstanceType, cap: string, zone: string, ranges: seq<string>,
                     i: nat): (a: Attempt)
    requires i <= |ranges|
    ensures log <= a.log
    ensures a.verdict.Launched? ==> a.verdict.zone == zone && |log| < |a.log|
    ensures forall k | |log| <= k < |a.log| ::
              && (a.log[k].Build? || a.log[k].Insert? || a.log[k].Mark?)
              && (a.log[k].Insert? ==> a.log[k].it == it && a.log[k].capacityType == cap && a.log[k].zone == zone)
    decreases |ranges| - i
  {
    if i == |ranges| then Attempt(log, Retry(Generic))
    else if !r.cloud.build(|log|) then Attempt(log + [Build(false)], Stop(Generic))
    else
      var built := log + [Build(true)];
      var answer := r.cloud.insert(|built|);
      var tried := built + [Insert(it, cap, zone, ranges[i], i == |ranges| - 1, answer)];
      if answer.Done? then Attempt(tried, Launched(zone))
      else if Exhausted(answer, r.quotaTTL) && i < |ranges| - 1 then TryRanges(r, tried, it, cap, zone, ranges, i + 1)
      else Concluded(r, tried, it, cap, zone, answer)
  }

  function Uniq(xs: seq<string>): (ys: seq<string>)
    ensures forall x :: x in ys <==> x in xs
  {
    if xs == [] then []
    else
      var n := |xs| - 1;
      if xs[n] in xs[..n] then Uniq(xs[..n]) else Uniq(xs[..n]) + [xs[n]]
  }

  /** Each is kept once, in the order in which they first occur. */
  lemma {:induction false} UniqKeepsFirsts(xs: seq<string>)
    ensures var ys := Uniq(xs);
            forall i, j | 0 <= i < j < |ys| ::
              ys[i] != ys[j] && exists k | 0 <= k < |xs| :: xs[k] == ys[i] && ys[j] !in xs[..k]
    ensures xs != [] ==> Uniq(xs) != [] && Uniq(xs)[0] == xs[0]
  {
    if xs != [] {
      var n := |xs| - 1;
      UniqKeepsFirsts(xs[..n]);
      var ys, before := Uniq(xs), Uniq(xs[..n]);
      forall i, j | 0 <= i < j < |ys|
        ensures ys[i] != ys[j] && exists k | 0 <= k < |xs| :: xs[k] == ys[i] && ys[j] !in xs[..k]
      {
        if j < |before| {
          var k :| 0 <= k < n && xs[..n][k] == before[i] && before[j] !in xs[..n][..k];
          assert xs[..n][..k] == xs[..k];
        } else {
          assert before[i] in before;
          var k :| 0 <= k < n && xs[..n][k] == before[i];
          assert forall m | 0 <= m < k :: xs[m] in xs[..n];
        }
      }
    }
  }

  /** The existence checks: the first zone that has the VM, unless a check fails before. */
  datatype Search = Search(log: Log, found: Result<Option<string>, Problem>)

  function CheckZones(r: Request, log: Log, zones: seq<string>): (s: Search)
    ensures log <= s.log
    ensures forall k | |log| <= k < |s.log| :: s.log[k].Check?
    decreases |zones|
  {
    if zones == [] then Search(log, Ok(None))
    else
      var presence := r.cloud.presence(|log|);
      var checked := log + [Check(zones[0], presence)];
      match presence
      case CheckFailed => Search(checked, Err(Generic))
      case Present => Search(checked, Ok(Some(zones[0])))
      case Absent => CheckZones(r, checked, zones[1..])
  }

  function GetOrCreate(r: Request, log: Log, it: InstanceType, cap: string, zone: string, attempted: seq<string>,
                       cluster: seq<string>): (a: Attempt)
    ensures log <= a.log
  {
    var search := CheckZones(r, log, Uniq([zone] + attempted));
    match search.found
    case Err(problem) => Attempt(search.log, Stop(problem))
    case Ok(Some(z)) => Attempt(search.log, Launched(z))
    case Ok(None) => TryRanges(r, search.log, it, cap, zone, Ranked(Resolved(r.nodeClass.ranges, cluster), r.free), 0)
  }

  /**
   What an attempt has before it looks for the VM: a zone and the cluster's pod ranges, or the reason it lacks one.
   */
  datatype Preparation =
    | Prepared(log: Log, zone: string, cluster: seq<string>)
    | Unprepared(log: Log, zone: string, problem: Problem)

  function Prepare(r: Request, log: Log, it: InstanceType, cap: string): (p: Preparation)
    ensures log <= p.log
    ensures forall k | |log| <= k < |p.log| ::
            p.log[k].Zones? || p.log[k].Select? || p.log[k].Template? || p.log[k].Config?
  {
    var choice := SelectZone(r, log, it, cap);
    match choice.zone
    case Err(problem) => Unprepared(choice.log, "", problem)
    case Ok(zone) =>
      var ok := r.cloud.template(|choice.log|);
      var templated := choice.log + [Template(cap, ok)];
      if !ok then Unprepared(templated, zone, Generic)
      else
        var cluster := r.cloud.config(|templated|);
        var configured := templated + [Config(cap, cluster)];
        if cluster.None? then Unprepared(configured, zone, Generic)
        else Prepared(configured, zone, cluster.value)
  }

  /** An attempt with one instance type, and the zone it counts as attempted. */
  datatype Tried = Tried(log: Log, zone: string, verdict: Verdict)

  function TryCreate(r: Request, log: Log, it: InstanceType, cap: string, attempted: seq<string>): (t: Tried)
    ensures log <= t.log
  {
    if it.ssdCount.None? then Tried(log, "", Stop(Generic))
    else match Prepare(r, log, it, cap)
      case Unprepared(unready, zone, problem) => Tried(unready, zone, Retry(problem))
      case Prepared(ready, zone, cluster) =>
        var a := GetOrCreate(r, ready, it, cap, zone, attempted, cluster);
        Tried(a.log, if a.verdict.Launched? then a.verdict.zone else zone, a.verdict)
  }

  // ---------------------------------------------------------------- the walk

  datatype Ending = Created(zone: string) | Aborted(problem: Problem) | OutOfTypes(problems: seq<Problem>)

  datatype Walk = Walk(log: Log, attempted: seq<string>, ending: Ending)

  function Attempted(attempted: seq<string>, zone: string): seq<string> {
    if zone != "" && zone !in attempted then attempted + [zone] else attempted
  }

  function WalkTypes(r: Request, log: Log, types: seq<InstanceType>, cap: string, attempted: seq<string>,
                     problems: seq<Problem>): (w: Walk)
    ensures log <= w.log
    decreases |types|
  {
    if types == [] then Walk(log, attempted, OutOfTypes(problems))
    else
      var t := TryCreate(r, log, types[0], cap, attempted);
      var attempted' := Attempted(attempted, t.zone);
      match t.verdict
      case Launched(zone) => Walk(t.log, attempted', Created(zone))
      case Stop(problem) => Walk(t.log, attempted', Aborted(problem))
      case Retry(problem) => WalkTypes(r, t.log, types[1..], cap, attempted', problems + [problem])
  }

  /** A configurable type is launched only with the SSD count the claim names, or none when it names none. */
  predicate MayLaunch(claim: Claim, it: InstanceType) {
    || !LocalSSD.Configurable(it.name)
    || it.ssdCount.None?
    || (claim.ssd.Unset? && it.ssdCount.value == 0)
    || (claim.ssd.Exact? && it.ssdCount.value == claim.ssd.count)
  }

  /** The types the claim may launch and an image of the NodeClass fits. */
  function Candidates(r: Request, types: seq<InstanceType>): (kept: seq<InstanceType>)
    ensures forall it :: it in kept <==> it in types && MayLaunch(r.claim, it) && r.nodeClass.imageFits(it)
    ensures forall it | it in types && r.nodeClass.imageFits(it) ::
              it in kept <==> (LocalSSD.Configurable(it.name) && it.ssdCount.Some? ==>
                                 if r.claim.ssd.Unset? then it.ssdCount.value == 0
                                 else r.claim.ssd.Exact? && it.ssdCount.value == r.claim.ssd.count)
    ensures |kept| <= |types|
  {
    if types == [] then []
    else (if MayLaunch(r.claim, types[0]) && r.nodeClass.imageFits(types[0]) then [types[0]] else [])
         + Candidates(r, types[1..])
  }

  predicate HasAvailable(claim: Claim, types: seq<InstanceType>, cap: string) {
    claim.capacityOk(cap)
    && exists it | it in types :: exists o | o in it.offerings ::
      o.available && o.capacityType == cap && claim.zoneOk(o.zone)
  }

  predicate AllCapacity(problems: seq<Problem>) {
    forall i | 0 <= i < |problems| :: problems[i] == Capacity
  }

  /** On-demand is tried after spot when every spot attempt failed for lack of capacity and the claim allows it. */
  predicate FallsBack(r: Request, types: seq<InstanceType>, spot: Ending) {
    spot.OutOfTypes? && spot.problems != [] && AllCapacity(spot.problems) && HasAvailable(r.claim, types, ON_DEMAND)
  }

  datatype Launching = Launching(log: Log, ending: Ending)

  function WalkBoth(r: Request, log: Log, types: seq<InstanceType>): (l: Launching)
    ensures log <= l.log
  {
    var cap := if HasAvailable(r.claim, types, SPOT) then SPOT else ON_DEMAND;
    var first := WalkTypes(r, log, r.order(types, cap), cap, [], []);
    if cap == SPOT && FallsBack(r, types, first.ending) then
      var second := WalkTypes(r, first.log, r.order(types, ON_DEMAND), ON_DEMAND, first.attempted, []);
      Launching(second.log, second.ending)
    else Launching(first.log, first.ending)
  }

  function Create(r: Request, log: Log, types: seq<InstanceType>): (l: Launching)
    ensures log <= l.log
  {
    if types == [] then Launching(log, Aborted(Generic))
    else
      var found := r.cloud.adopt(|log|);
      var looked := log + [Adopt(found)];
      var fitting := Candidates(r, types);
      if found.VM? then Launching(looked, Created(found.zone))
      else if fitting == [] then Launching(looked, Aborted(Capacity))
      else WalkBoth(r.(free := r.cloud.freeIPs(|looked|)), looked + [FreeIPs], fitting)
  }
}
