/** When a failure can renew a mark still in force (pkg/providers/instance/instance.go). */
module LaunchRemarks {
  import opened Basics
  import opened Offerings
  import opened PodRanges
  import opened Launch
  import opened LaunchMarks
  import opened LaunchBackoff

  const STOCKOUT := "ZONE_RESOURCE_POOL_EXHAUSTED"

  /** A spot type offered only in zone a, while the cluster has only zone b, and GCE has no capacity. */
  function StrayType(name: string, a: string): InstanceType {
    InstanceType(name, [Offering(a, SPOT, 1.0, true)], Some(0))
  }

  function Answer(): InsertAnswer {
    Refused(ApiError([STOCKOUT]))
  }

  function StrayRequest(b: string): Request {
    Request(
      Cloud(_ => 0, _ => NoVM, _ => map[], _ => Some([b]), _ => 0, _ => true, _ => Some([]), _ => Absent, _ => true,
            _ => Answer(), _ => map[]),
      Claim([], _ => true, cap => cap == SPOT, Unset),
      NodeClass([], _ => true), 0, map[], (types, _) => types)
  }

  function Opening(): Log {
    [Adopt(NoVM), FreeIPs]
  }

  function Selecting(name: string, a: string, b: string): Log {
    [Zones(SPOT, Some([b])), Select(StrayType(name, a), SPOT, "", false), Template(SPOT, true), Config(SPOT, Some([]))]
  }

  function Failing(name: string, a: string): Log {
    [Check("", Absent), Build(true), Insert(StrayType(name, a), SPOT, "", "", true, Answer()),
     Mark(Offered(name, "", SPOT), STOCKOUT_TTL, false)]
  }

  /** No mark names the cluster's zone, so it stays open. */
  ghost predicate ZoneOpen(name: string, b: string, log: Log) {
    Offered(name, b, SPOT) !in MarksOf(StrayRequest(b).cloud, log)
  }

  lemma {:induction false} QuietStaysOpen(name: string, b: string, log: Log, more: Log)
    requires ZoneOpen(name, b, log) && forall i | 0 <= i < |more| && more[i].Mark? ::
             more[i].offered != Offered(name, b, SPOT)
    ensures ZoneOpen(name, b, log + more)
  {
    if more == [] {
      assert log + more == log;
    } else {
      var n := |more| - 1;
      QuietStaysOpen(name, b, log, more[..n]);
      assert (log + more)[..|log| + n] == log + more[..n];
    }
  }

  lemma StockoutIsShortage()
    ensures Shortage(Answer(), 0) == Some(Details(STOCKOUT, STOCKOUT))
    ensures var d := Details(STOCKOUT, STOCKOUT); !Quota(d) && !IpSpace(d) && BackoffTTL(d, 0) == STOCKOUT_TTL
  {
  }

  lemma StrayPreparation(name: string, a: string, b: string, log: Log)
    requires a != b && ZoneOpen(name, b, log)
    ensures Prepare(StrayRequest(b), log, StrayType(name, a), SPOT) == Prepared(log + Selecting(name, a, b), "", [])
  {
    var r, it := StrayRequest(b), StrayType(name, a);
    var asked := log + [Zones(SPOT, Some([b]))];
    QuietStaysOpen(name, b, log, [Zones(SPOT, Some([b]))]);
    assert Open(r, asked, it, SPOT, [b]) == [b] + Open(r, asked, it, SPOT, []);
    assert Cheapest(r.claim, [b], it.offerings) == None;
    assert SelectZone(r, log, it, SPOT) == Choice(asked + [Select(it, SPOT, "", false)], Ok(""));
    assert asked + [Select(it, SPOT, "", false)] + [Template(SPOT, true)] + [Config(SPOT, Some([]))]
           == log + Selecting(name, a, b);
  }

  lemma StrayAttempt(name: string, a: string, b: string, log: Log)
    ensures GetOrCreate(StrayRequest(b), log, StrayType(name, a), SPOT, "", [], [])
            == Attempt(log + Failing(name, a), Retry(Capacity))
  {
    var r, it := StrayRequest(b), StrayType(name, a);
    assert [""] + [] == [""];
    assert Uniq([""]) == Uniq([""][..0]) + [""] == [""];
    var checked := log + [Check("", Absent)];
    assert CheckZones(r, log, [""]) == CheckZones(r, checked, [""][1..]) == Search(checked, Ok(None));
    assert Ranked([""], map[]) == [""];
    var tried := checked + [Build(true)] + [Insert(it, SPOT, "", "", true, Answer())];
    StockoutIsShortage();
    assert Concluded(r, tried, it, SPOT, "", Answer())
           == Attempt(tried + [Mark(Offered(name, "", SPOT), STOCKOUT_TTL, false)], Retry(Capacity));
    assert tried + [Mark(Offered(name, "", SPOT), STOCKOUT_TTL, false)] == log + Failing(name, a);
  }

  lemma StrayTry(name: string, a: string, b: string, log: Log)
    requires a != b && ZoneOpen(name, b, log)
    ensures TryCreate(StrayRequest(b), log, StrayType(name, a), SPOT, [])
            == Tried(log + Selecting(name, a, b) + Failing(name, a), "", Retry(Capacity))
  {
    StrayPreparation(name, a, b, log);
    StrayAttempt(name, a, b, log + Selecting(name, a, b));
  }

  lemma StrayPass(name: string, a: string, b: string, log: Log)
    requires a != b && ZoneOpen(name, b, log)
    ensures WalkTypes(StrayRequest(b), log, [StrayType(name, a)], SPOT, [], [])
            == Walk(log + Selecting(name, a, b) + Failing(name, a), [], OutOfTypes([Capacity]))
  {
    StrayTry(name, a, b, log);
    var r, it, after := StrayRequest(b), StrayType(name, a), log + Selecting(name, a, b) + Failing(name, a);
    assert [it][0] == it && [it][1..] == [] && [] + [Capacity] == [Capacity];
    assert WalkTypes(r, after, [], SPOT, [], [Capacity]) == Walk(after, [], OutOfTypes([Capacity]));
  }

  lemma StrayWalk(name: string, a: string, b: string, log: Log)
    requires a != b && ZoneOpen(name, b, log)
    ensures WalkBoth(StrayRequest(b), log, [StrayType(name, a)]).log == log + Selecting(name, a, b) + Failing(name, a)
  {
    var r, it := StrayRequest(b), StrayType(name, a);
    StrayPass(name, a, b, log);
    assert HasAvailable(r.claim, [it], SPOT) by { assert it in [it] && it.offerings[0] in it.offerings; }
    assert !HasAvailable(r.claim, [it], ON_DEMAND);
    assert r.order([it], SPOT) == [it];
  }

  lemma StrayCandidates(name: string, a: string, b: string)
    ensures Candidates(StrayRequest(b), [StrayType(name, a)]) == [StrayType(name, a)]
  {
    var r, it := StrayRequest(b), StrayType(name, a);
    assert MayLaunch(r.claim, it) && r.nodeClass.imageFits(it);
    assert Candidates(r, [it]) == [it] + Candidates(r, [it][1..]);
  }

  lemma CreateWalks(r: Request, log: Log, types: seq<InstanceType>, walked: Log)
    requires types != [] && r.cloud.adopt(|log|) == NoVM && Candidates(r, types) == types
             && r.cloud.freeIPs(|log| + 1) == r.free
    requires WalkBoth(r, log + Opening(), types).log == walked
    ensures Create(r, log, types).log == walked
  {
    assert log + [Adopt(NoVM)] + [FreeIPs] == log + Opening();
    assert r.(free := r.cloud.freeIPs(|log| + 1)) == r;
  }

  lemma StrayCreate(name: string, a: string, b: string, log: Log)
    requires a != b && ZoneOpen(name, b, log)
    ensures Create(StrayRequest(b), log, [StrayType(name, a)]).log
            == log + Opening() + Selecting(name, a, b) + Failing(name, a)
  {
    QuietStaysOpen(name, b, log, Opening());
    StrayWalk(name, a, b, log + Opening());
    StrayCandidates(name, a, b);
    CreateWalks(StrayRequest(b), log, [StrayType(name, a)], log + Opening() + Selecting(name, a, b) + Failing(name, a));
  }

  // ---------------------------------------------------------------- two such launches

  function StrayLaunch(name: string, a: string, b: string): Log {
    Opening() + Selecting(name, a, b) + Failing(name, a)
  }

  lemma RunOneMore(starts: seq<Start>, start: Start, after: Log)
    requires Create(start.request, Run(starts), start.types).log == after
    ensures Run(starts + [start]) == after
  {
    assert (starts + [start])[..|starts|] == starts;
  }

  lemma StrayStep(name: string, a: string, b: string, starts: seq<Start>, start: Start, log: Log, after: Log)
    requires a != b && ZoneOpen(name, b, log) && Run(starts) == log
    requires start == Start(StrayRequest(b), [StrayType(name, a)])
    requires after == log + Opening() + Selecting(name, a, b) + Failing(name, a)
    ensures Run(starts + [start]) == after
  {
    StrayCreate(name, a, b, log);
    RunOneMore(starts, start, after);
  }

  lemma StrayLogs(name: string, a: string, b: string, once: Log, twice: Log)
    requires b != "" && once == StrayLaunch(name, a, b) && twice == once + once
    ensures once == [] + Opening() + Selecting(name, a, b) + Failing(name, a) && ZoneOpen(name, b, [])
    ensures twice == once + Opening() + Selecting(name, a, b) + Failing(name, a) && ZoneOpen(name, b, once)
  {
    assert [] + once == once;
    QuietStaysOpen(name, b, [], once);
  }

  lemma StrayOnce(name: string, a: string, b: string, start: Start, once: Log)
    requires a != b && b != "" && start == Start(StrayRequest(b), [StrayType(name, a)])
             && once == StrayLaunch(name, a, b)
    ensures Run([] + [start]) == once
  {
    StrayLogs(name, a, b, once, once + once);
    StrayStep(name, a, b, [], start, [], once);
  }

  lemma StrayRun(name: string, a: string, b: string, start: Start, once: Log)
    requires a != b && b != "" && start == Start(StrayRequest(b), [StrayType(name, a)])
             && once == StrayLaunch(name, a, b)
    ensures Run([] + [start] + [start]) == once + once
  {
    StrayLogs(name, a, b, once, once + once);
    StrayOnce(name, a, b, start, once);
    StrayStep(name, a, b, [] + [start], start, once, once + once);
  }

  lemma {:induction false} MarkIsFiled(cloud: Cloud, log: Log, k: nat, n: nat)
    requires k < n <= |log| && log[k].Mark? && forall i | k < i < n :: !log[i].Mark?
    requires forall i :: cloud.others(i) == map[]
    ensures log[k].offered in MarksOf(cloud, log[..n])
    ensures MarksOf(cloud, log[..n])[log[k].offered] == Expires(log[k].ttl, cloud.clock(k))
  {
    assert log[..n][..n - 1] == log[..n - 1];
    if k < n - 1 { MarkIsFiled(cloud, log, k, n - 1); }
  }

  /** The mark of the first launch is in force when the second makes the same. */
  lemma StillMarked(cloud: Cloud, log: Log, k: nat, n: nat)
    requires k < n < |log| && log[k].Mark? && log[n] == log[k] && forall i | k < i < n :: !log[i].Mark?
    requires log[k].ttl > 0 && cloud.clock(n) == cloud.clock(k) && forall i :: cloud.others(i) == map[]
    ensures Blocked(cloud, log[..n], log[n].offered)
  {
    MarkIsFiled(cloud, log, k, n);
  }

  lemma StrayEvents(name: string, a: string, b: string, log: Log)
    requires log == StrayLaunch(name, a, b) + StrayLaunch(name, a, b)
    ensures |log| == 20 && log[9] == log[19] == Mark(Offered(name, "", SPOT), STOCKOUT_TTL, false)
    ensures forall i | 9 < i < 19 :: !log[i].Mark?
    ensures log[13] == Select(StrayType(name, a), SPOT, "", false)
  {
  }

  lemma StrayRuns(name: string, a: string, b: string, log: Log) returns (starts: seq<Start>, cloud: Cloud)
    requires a != b && b != "" && log == StrayLaunch(name, a, b) + StrayLaunch(name, a, b)
    ensures Share(starts, cloud, 0) && ClockRuns(cloud) && log == Run(starts)
    ensures forall n, m :: cloud.clock(n) == cloud.clock(m)
    ensures forall n :: cloud.others(n) == map[]
  {
    var start := Start(StrayRequest(b), [StrayType(name, a)]);
    starts, cloud := [] + [start] + [start], start.request.cloud;
    StrayRun(name, a, b, start, StrayLaunch(name, a, b));
  }

  /** A run of two launches whose second marks what the first has marked, while that mark is in force. */
  lemma StrayRemarks(name: string, a: string, b: string) returns (starts: seq<Start>, cloud: Cloud, log: Log)
    requires a != b && b != ""
    ensures Share(starts, cloud, 0) && ClockRuns(cloud) && log == Run(starts) && |log| == 20 && log[19].Mark?
    ensures Leads(log, 13, 19) && !log[19].quota && !log[13].compatible && Blocked(cloud, log[..19], log[19].offered)
    ensures !OthersHold(cloud, log[19].offered, 13, 19)
  {
    log := StrayLaunch(name, a, b) + StrayLaunch(name, a, b);
    StrayEvents(name, a, b, log);
    starts, cloud := StrayRuns(name, a, b, log);
    StillMarked(cloud, log, 9, 19);
  }

  // ---------------------------------------------------------------- the exact condition

  /** No failure other than quota, of a selection that was so compatible, ever renews a mark in force but by others. */
  ghost predicate NeverRemarks(compatible: bool) {
    forall starts: seq<Start>, cloud: Cloud, quotaTTL: int, log: Log, s: nat, k: nat
      | Share(starts, cloud, quotaTTL) && ClockRuns(cloud) && log == Run(starts) && s < k < |log| && log[k].Mark?
        && Leads(log, s, k) && !log[k].quota && log[s].compatible == compatible ::
        Blocked(cloud, log[..k], log[k].offered) <==> OthersHold(cloud, log[k].offered, s, k)
  }

  lemma CompatibleNeverRemarks()
    ensures NeverRemarks(true)
  {
    forall starts: seq<Start>, cloud: Cloud, quotaTTL: int, log: Log, s: nat, k: nat
      | Share(starts, cloud, quotaTTL) && ClockRuns(cloud) && log == Run(starts) && s < k < |log| && log[k].Mark?
        && Leads(log, s, k) && !log[k].quota && log[s].compatible == true
      ensures Blocked(cloud, log[..k], log[k].offered) <==> OthersHold(cloud, log[k].offered, s, k)
    {
      RunIsOrderly(starts, cloud, quotaTTL);
      StockoutRenewsOnlyOthers(cloud, log, s, k);
    }
  }

  /** Having selected for a compatible offering is just what keeps failures from renewing marks. */
  lemma NeverRemarksIffCompatible(compatible: bool)
    ensures NeverRemarks(compatible) <==> compatible
  {
    if compatible {
      CompatibleNeverRemarks();
    } else {
      var starts, cloud, log := StrayRemarks("m", "a", "b");
      assert log[13].compatible == compatible;
    }
  }
}
