/** One launch never leaves the NodeClaim's VM in two zones (pkg/providers/instance/instance.go). */
module LaunchSafety {
  import opened Basics
  import opened Offerings
  import opened PodRanges
  import opened Launch

  /**
   The zones that have a VM of the claim's name, before each event.  VMs may disappear at any time; one appears only by
   an insert, in the insert's zone, whatever that insert was reported to have done, and never in a zone without a name.
   */
  type Worlds = nat -> set<string>

  ghost predicate TruthfulEvent(before: set<string>, e: Event, after: set<string>) {
    && "" !in after
    && (if e.Insert? then after <= before + {e.zone} else after <= before)
    && match e
       case Adopt(NoVM) => before == {}
       case Adopt(VM(zone)) => zone in before
       case Check(zone, Present) => zone in before
       case Check(zone, Absent) => zone !in before
       case Insert(_, _, zone, _, _, Done) => zone in after
       case _ => true
  }

  /** Answers about existence are true when given, and an insert's VM is visible to every later check. */
  ghost predicate Truthful(worlds: Worlds, log: Log) {
    forall k | 0 <= k < |log| :: TruthfulEvent(worlds(k), log[k], worlds(k + 1))
  }

  ghost predicate AtMostOne(zones: set<string>) {
    forall a, b | a in zones && b in zones :: a == b
  }

  ghost predicate Within(zones: set<string>, attempted: seq<string>) {
    forall z | z in zones :: z in attempted
  }

  /** Over a stretch of the log whose inserts all go to one zone, nothing appears but in that zone. */
  lemma {:induction false} OnlyThereAppears(worlds: Worlds, full: Log, i: nat, j: nat, zone: string)
    requires Truthful(worlds, full) && i <= j <= |full|
    requires forall k | i <= k < j && full[k].Insert? :: full[k].zone == zone
    ensures worlds(j) <= worlds(i) + {zone}
  {
    if i < j {
      OnlyThereAppears(worlds, full, i, j - 1, zone);
      assert TruthfulEvent(worlds(j - 1), full[j - 1], worlds(j));
    }
  }

  lemma {:induction false} NothingAppears(worlds: Worlds, full: Log, i: nat, j: nat)
    requires Truthful(worlds, full) && i <= j <= |full|
    requires forall k | i <= k < j :: !full[k].Insert?
    ensures worlds(j) <= worlds(i)
  {
    if i < j {
      NothingAppears(worlds, full, i, j - 1);
      assert TruthfulEvent(worlds(j - 1), full[j - 1], worlds(j));
    }
  }

  /** Zones all reported absent one after the other are all without the VM afterwards. */
  lemma {:induction false} CheckedZonesAreEmpty(r: Request, log: Log, zones: seq<string>, worlds: Worlds, full: Log)
    requires CheckZones(r, log, zones).log <= full && Truthful(worlds, full)
    ensures var s := CheckZones(r, log, zones);
            match s.found
            case Ok(None) => forall z | z in zones :: z !in worlds(|s.log|)
            case Ok(Some(z)) => z in zones && |log| < |s.log| && z in worlds(|s.log| - 1)
            case Err(_) => true
    decreases |zones|
  {
    if zones != [] {
      var presence := r.cloud.presence(|log|);
      var checked := log + [Check(zones[0], presence)];
      var s := CheckZones(r, log, zones);
      assert full[|log|] == s.log[|log|] == checked[|log|];
      assert TruthfulEvent(worlds(|log|), full[|log|], worlds(|log| + 1));
      if presence == Absent {
        CheckedZonesAreEmpty(r, checked, zones[1..], worlds, full);
        NothingAppears(worlds, full, |checked|, |s.log|);
      }
    }
  }

  /** From a world without the VM, trying the pod ranges of one zone can only put it there. */
  lemma RangesStayInZone(r: Request, log: Log, it: InstanceType, cap: string, zone: string, ranges: seq<string>,
                         worlds: Worlds, full: Log, k: nat)
    requires var a := TryRanges(r, log, it, cap, zone, ranges, 0);
             a.log <= full && |log| <= k <= |a.log|
    requires Truthful(worlds, full) && worlds(|log|) == {}
    ensures worlds(k) <= {zone}
  {
    var a := TryRanges(r, log, it, cap, zone, ranges, 0);
    assert forall m | |log| <= m < k :: full[m] == a.log[m];
    OnlyThereAppears(worlds, full, |log|, k, zone);
  }

  lemma {:induction false} LaunchedIsInserted(r: Request, log: Log, it: InstanceType, cap: string, zone: string,
                                              ranges: seq<string>, i: nat)
    requires i <= |ranges|
    ensures var a := TryRanges(r, log, it, cap, zone, ranges, i);
            a.verdict.Launched? ==>
              var e := a.log[|a.log| - 1];
              e.Insert? && e.answer.Done? && e.zone == zone
    decreases |ranges| - i
  {
    if i < |ranges| && r.cloud.build(|log|) {
      var built := log + [Build(true)];
      var answer := r.cloud.insert(|built|);
      var tried := built + [Insert(it, cap, zone, ranges[i], i == |ranges| - 1, answer)];
      if !answer.Done? && Exhausted(answer, r.quotaTTL) && i < |ranges| - 1 {
        LaunchedIsInserted(r, tried, it, cap, zone, ranges, i + 1);
      }
    }
  }

  /** A VM really was in this zone at some moment of the stretch. */
  ghost predicate Witnessed(worlds: Worlds, i: nat, j: nat, zone: string) {
    exists k | i <= k <= j :: zone in worlds(k)
  }

  ghost predicate OneThroughout(worlds: Worlds, i: nat, j: nat) {
    forall k | i <= k <= j :: AtMostOne(worlds(k))
  }

  lemma ShrinkingStaysOne(worlds: Worlds, full: Log, i: nat, j: nat)
    requires Truthful(worlds, full) && i <= j <= |full| && AtMostOne(worlds(i))
    requires forall k | i <= k < j :: !full[k].Insert?
    ensures OneThroughout(worlds, i, j) && worlds(j) <= worlds(i)
  {
    forall k | i <= k <= j
      ensures AtMostOne(worlds(k)) && worlds(k) <= worlds(i)
    {
      NothingAppears(worlds, full, i, k);
    }
  }

  /** Every zone attempted so far is checked before inserting anywhere, so an insert finds a world without the VM. */
  lemma GetOrCreateSafe(r: Request, log: Log, it: InstanceType, cap: string, zone: string, attempted: seq<string>,
                        cluster: seq<string>, a: Attempt, worlds: Worlds, full: Log)
    requires a == GetOrCreate(r, log, it, cap, zone, attempted, cluster) && a.log <= full && Truthful(worlds, full)
    requires AtMostOne(worlds(|log|)) && Within(worlds(|log|), attempted)
    ensures OneThroughout(worlds, |log|, |a.log|)
    ensures Within(worlds(|a.log|), Attempted(attempted, zone))
    ensures a.verdict.Launched? ==> Witnessed(worlds, |log|, |a.log|, a.verdict.zone)
  {
    var candidates := Uniq([zone] + attempted);
    var search := CheckZones(r, log, candidates);
    assert forall k | |log| <= k < |search.log| :: full[k] == search.log[k];
    CheckedZonesAreEmpty(r, log, candidates, worlds, full);
    ShrinkingStaysOne(worlds, full, |log|, |search.log|);
    if search.found == Ok(None) {
      assert worlds(|search.log|) == {} by {
        assert forall z | z in worlds(|search.log|) :: z in attempted && z in candidates;
      }
      RangesSafe(r, search.log, it, cap, zone, Ranked(Resolved(r.nodeClass.ranges, cluster), r.free), a, worlds, full);
      assert OneThroughout(worlds, |search.log|, |a.log|);
    }
  }

  lemma RangesSafe(r: Request, log: Log, it: InstanceType, cap: string, zone: string, ranges: seq<string>, a: Attempt,
                   worlds: Worlds, full: Log)
    requires a == TryRanges(r, log, it, cap, zone, ranges, 0) && a.log <= full && Truthful(worlds, full)
    requires worlds(|log|) == {}
    ensures OneThroughout(worlds, |log|, |a.log|)
    ensures Within(worlds(|a.log|), if zone != "" then [zone] else [])
    ensures a.verdict.Launched? ==> Witnessed(worlds, |log|, |a.log|, a.verdict.zone)
  {
    forall k | |log| <= k <= |a.log|
      ensures worlds(k) <= {zone}
    {
      RangesStayInZone(r, log, it, cap, zone, ranges, worlds, full, k);
    }
    if |log| < |a.log| {
      var m := |a.log| - 1;
      assert full[m] == a.log[m];
      assert TruthfulEvent(worlds(m), full[m], worlds(m + 1));
      LaunchedIsInserted(r, log, it, cap, zone, ranges, 0);
      assert a.verdict.Launched? ==> zone in worlds(m + 1);
    }
  }

  lemma TryCreateSafe(r: Request, log: Log, it: InstanceType, cap: string, attempted: seq<string>, t: Tried,
                      worlds: Worlds, full: Log)
    requires t == TryCreate(r, log, it, cap, attempted) && t.log <= full && Truthful(worlds, full)
    requires AtMostOne(worlds(|log|)) && Within(worlds(|log|), attempted)
    ensures OneThroughout(worlds, |log|, |t.log|)
    ensures !t.verdict.Launched? ==> Within(worlds(|t.log|), Attempted(attempted, t.zone))
    ensures t.verdict.Launched? ==> t.zone == t.verdict.zone && Witnessed(worlds, |log|, |t.log|, t.zone)
  {
    if it.ssdCount.Some? {
      var p := Prepare(r, log, it, cap);
      assert p.log <= full;
      assert forall k | |log| <= k < |p.log| :: full[k] == p.log[k] && !full[k].Insert?;
      ShrinkingStaysOne(worlds, full, |log|, |p.log|);
      if p.Prepared? {
        var a := GetOrCreate(r, p.log, it, cap, p.zone, attempted, p.cluster);
        GetOrCreateSafe(r, p.log, it, cap, p.zone, attempted, p.cluster, a, worlds, full);
        if a.verdict.Launched? {
          var k :| |p.log| <= k <= |a.log| && a.verdict.zone in worlds(k);
          assert |log| <= k <= |t.log|;
        }
      }
    }
  }

  lemma {:induction false} WalkSafe(r: Request, log: Log, types: seq<InstanceType>, cap: string, attempted: seq<string>,
                                    problems: seq<Problem>, w: Walk, worlds: Worlds, full: Log)
    requires w == WalkTypes(r, log, types, cap, attempted, problems) && w.log <= full && Truthful(worlds, full)
    requires AtMostOne(worlds(|log|)) && Within(worlds(|log|), attempted)
    ensures OneThroughout(worlds, |log|, |w.log|)
    ensures w.ending.OutOfTypes? ==> Within(worlds(|w.log|), w.attempted)
    ensures w.ending.Created? ==> Witnessed(worlds, |log|, |w.log|, w.ending.zone)
    decreases |types|
  {
    if types != [] {
      var t := TryCreate(r, log, types[0], cap, attempted);
      assert t.log <= full;
      TryCreateSafe(r, log, types[0], cap, attempted, t, worlds, full);
      if t.verdict.Retry? {
        var attempted' := Attempted(attempted, t.zone);
        WalkSafe(r, t.log, types[1..], cap, attempted', problems + [t.verdict.problem], w, worlds, full);
        if w.ending.Created? {
          var k :| |t.log| <= k <= |w.log| && w.ending.zone in worlds(k);
          assert |log| <= k <= |w.log|;
        }
      }
    }
  }

  lemma WalkBothSafe(r: Request, log: Log, types: seq<InstanceType>, l: Launching, worlds: Worlds, full: Log)
    requires l == WalkBoth(r, log, types) && l.log <= full && Truthful(worlds, full)
    requires worlds(|log|) == {}
    ensures OneThroughout(worlds, |log|, |l.log|)
    ensures l.ending.Created? ==> Witnessed(worlds, |log|, |l.log|, l.ending.zone)
  {
    var cap := if HasAvailable(r.claim, types, SPOT) then SPOT else ON_DEMAND;
    var first := WalkTypes(r, log, r.order(types, cap), cap, [], []);
    assert first.log <= full;
    WalkSafe(r, log, r.order(types, cap), cap, [], [], first, worlds, full);
    if cap == SPOT && FallsBack(r, types, first.ending) {
      var second := WalkTypes(r, first.log, r.order(types, ON_DEMAND), ON_DEMAND, first.attempted, []);
      WalkSafe(r, first.log, r.order(types, ON_DEMAND), ON_DEMAND, first.attempted, [], second, worlds, full);
      if second.ending.Created? {
        var k :| |first.log| <= k <= |second.log| && second.ending.zone in worlds(k);
        assert |log| <= k <= |l.log|;
      }
    }
  }

  /**
   Provided the region-wide lookup at the start answers (or there is no VM yet), one Create never leaves the claim's VM
   in two zones, at any moment and whatever GCE answers; and the zone it reports is one the VM really was in.
   */
  lemma NoDuplicateVM(r: Request, log: Log, types: seq<InstanceType>, l: Launching, worlds: Worlds)
    requires l == Create(r, log, types) && Truthful(worlds, l.log)
    requires AtMostOne(worlds(|log|))
    requires r.cloud.adopt(|log|) != LookupFailed || worlds(|log|) == {}
    ensures OneThroughout(worlds, |log|, |l.log|)
    ensures l.ending.Created? ==> Witnessed(worlds, |log|, |l.log|, l.ending.zone)
  {
    if types != [] {
      var found := r.cloud.adopt(|log|);
      var looked := log + [Adopt(found)];
      assert l.log[|log|] == Adopt(found);
      assert TruthfulEvent(worlds(|log|), l.log[|log|], worlds(|log| + 1));
      var fitting := Candidates(r, types);
      if found.VM? {
        assert found.zone in worlds(|log|);
      } else if fitting != [] {
        var ready := looked + [FreeIPs];
        assert l.log[|looked|] == FreeIPs;
        assert TruthfulEvent(worlds(|looked|), l.log[|looked|], worlds(|looked| + 1));
        WalkBothSafe(r.(free := r.cloud.freeIPs(|looked|)), ready, fitting, l, worlds, l.log);
        if l.ending.Created? {
          var k :| |ready| <= k <= |l.log| && l.ending.zone in worlds(k);
          assert |log| <= k <= |l.log|;
        }
      }
    }
  }

  // ---------------------------------------------------------------- why the lookup must answer

  /** One on-demand type offered in zone b; the region-wide lookup fails and everything else goes well. */
  function UnluckyType(b: string): InstanceType {
    InstanceType("e2-small", [Offering(b, ON_DEMAND, 1.0, true)], Some(0))
  }

  function UnluckyRequest(b: string): Request {
    Request(
      Cloud(_ => 0, _ => LookupFailed, _ => map[], _ => Some([b]), _ => 0, _ => true, _ => Some([]), _ => Absent,
            _ => true, _ => Done, _ => map[]),
      Claim([], _ => true, cap => cap == ON_DEMAND, Unset),
      NodeClass([], _ => true), 0, map[], (types, _) => types)
  }

  function UnluckyLog(b: string): Log {
    var it := UnluckyType(b);
    [Adopt(LookupFailed), FreeIPs, Zones(ON_DEMAND, Some([b])), Select(it, ON_DEMAND, b, true),
     Template(ON_DEMAND, true),
     Config(ON_DEMAND, Some([])), Check(b, Absent), Build(true), Insert(it, ON_DEMAND, b, "", true, Done)]
  }

  lemma UnluckyMarks(b: string, n: nat)
    requires n <= |UnluckyLog(b)|
    ensures MarksOf(UnluckyRequest(b).cloud, UnluckyLog(b)[..n]) == map[]
  {
    if n > 0 {
      UnluckyMarks(b, n - 1);
      assert UnluckyLog(b)[..n][..n - 1] == UnluckyLog(b)[..n - 1];
    }
  }

  lemma UnluckyPreparation(b: string)
    ensures Prepare(UnluckyRequest(b), UnluckyLog(b)[..2], UnluckyType(b), ON_DEMAND)
            == Prepared(UnluckyLog(b)[..6], b, [])
  {
    var r, it, log := UnluckyRequest(b), UnluckyType(b), UnluckyLog(b);
    var asked := log[..2] + [Zones(ON_DEMAND, Some([b]))];
    assert asked == log[..3];
    UnluckyMarks(b, 3);
    assert Open(r, asked, it, ON_DEMAND, [b]) == [b] + Open(r, asked, it, ON_DEMAND, []);
    assert SelectZone(r, log[..2], it, ON_DEMAND) == Choice(log[..4], Ok(b)) by {
      assert asked + [Select(it, ON_DEMAND, b, true)] == log[..4];
    }
    assert log[..4] + [Template(ON_DEMAND, true)] == log[..5];
    assert log[..5] + [Config(ON_DEMAND, Some([]))] == log[..6];
  }

  lemma UnluckyAttempt(b: string)
    requires b != ""
    ensures GetOrCreate(UnluckyRequest(b), UnluckyLog(b)[..6], UnluckyType(b), ON_DEMAND, b, [], [])
            == Attempt(UnluckyLog(b), Launched(b))
  {
    var r, it, log := UnluckyRequest(b), UnluckyType(b), UnluckyLog(b);
    assert [b] + [] == [b];
    assert Uniq([b]) == Uniq([b][..0]) + [b] == [b];
    assert log[..6] + [Check(b, Absent)] == log[..7];
    assert CheckZones(r, log[..6], [b]) == CheckZones(r, log[..7], [b][1..]) == Search(log[..7], Ok(None));
    assert Ranked([""], map[]) == [""];
    assert log[..7] + [Build(true)] == log[..8];
    assert log[..8] + [Insert(it, ON_DEMAND, b, "", true, Done)] == log;
  }

  lemma UnluckyWalk(b: string)
    requires b != ""
    ensures WalkBoth(UnluckyRequest(b), UnluckyLog(b)[..2], [UnluckyType(b)]) == Launching(UnluckyLog(b), Created(b))
  {
    var r, it, log := UnluckyRequest(b), UnluckyType(b), UnluckyLog(b);
    UnluckyPreparation(b);
    UnluckyAttempt(b);
    assert TryCreate(r, log[..2], it, ON_DEMAND, []) == Tried(log, b, Launched(b));
  }

  lemma UnluckyCreate(b: string)
    requires b != ""
    ensures Create(UnluckyRequest(b), [], [UnluckyType(b)]) == Launching(UnluckyLog(b), Created(b))
  {
    var r, it, log := UnluckyRequest(b), UnluckyType(b), UnluckyLog(b);
    UnluckyWalk(b);
    assert [] + [Adopt(LookupFailed)] + [FreeIPs] == log[..2];
    assert Candidates(r, [it]) == [it] + Candidates(r, []);
  }

  function UnluckyWorlds(a: string, b: string): Worlds {
    k => if k <= 8 then {a} else {a, b}
  }

  lemma UnluckyIsTruthful(a: string, b: string)
    requires a != b && a != "" && b != ""
    ensures Truthful(UnluckyWorlds(a, b), UnluckyLog(b))
  {
  }

  /** The claim's VM was in zone a, the lookup failed, and the launch ends with the VM in two zones. */
  ghost predicate Duplicates(r: Request, types: seq<InstanceType>, worlds: Worlds, a: string) {
    var log := Create(r, [], types).log;
    Truthful(worlds, log) && worlds(0) == {a} && r.cloud.adopt(0) == LookupFailed && !AtMostOne(worlds(|log|))
  }

  /**
   Create carries on when the lookup fails, and then a VM left in another zone is duplicated: the condition is needed.
   */
  lemma FailedLookupCanDuplicate(a: string, b: string)
    requires a != b && a != "" && b != ""
    ensures Duplicates(UnluckyRequest(b), [UnluckyType(b)], UnluckyWorlds(a, b), a)
  {
    UnluckyCreate(b);
    UnluckyIsTruthful(a, b);
    assert |UnluckyLog(b)| == 9;
    assert a in UnluckyWorlds(a, b)(9) && b in UnluckyWorlds(a, b)(9);
  }

  /**
   Whatever the request and whatever else GCE answers, a Create that gets this answer first never duplicates the VM.
   */
  ghost predicate Safe(answer: AdoptAnswer, start: set<string>) {
    forall r: Request, types: seq<InstanceType>, worlds: Worlds
      | r.cloud.adopt(0) == answer && worlds(0) == start && Truthful(worlds, Create(r, [], types).log) ::
        OneThroughout(worlds, 0, |Create(r, [], types).log|)
  }

  lemma AnsweredIsSafe(answer: AdoptAnswer, start: set<string>)
    requires AtMostOne(start) && (answer != LookupFailed || start == {})
    ensures Safe(answer, start)
  {
    forall r: Request, types: seq<InstanceType>, worlds: Worlds
      | r.cloud.adopt(0) == answer && worlds(0) == start && Truthful(worlds, Create(r, [], types).log)
      ensures OneThroughout(worlds, 0, |Create(r, [], types).log|)
    {
      NoDuplicateVM(r, [], types, Create(r, [], types), worlds);
    }
  }

  lemma UnansweredIsUnsafe(a: string, start: set<string>)
    requires a in start && start == {a} && a != ""
    ensures !Safe(LookupFailed, start)
  {
    var b := a + "b";
    FailedLookupCanDuplicate(a, b);
    var r, types, worlds := UnluckyRequest(b), [UnluckyType(b)], UnluckyWorlds(a, b);
    var n := |Create(r, [], types).log|;
    assert !OneThroughout(worlds, 0, n) by { assert !AtMostOne(worlds(n)); }
  }

  /** The first lookup decides: no VM is ever duplicated exactly if it answers, or there was no VM to overlook. */
  lemma SafeIffLookupAnswers(answer: AdoptAnswer, start: set<string>)
    requires AtMostOne(start) && "" !in start
    ensures Safe(answer, start) <==> answer != LookupFailed || start == {}
  {
    if answer != LookupFailed || start == {} {
      AnsweredIsSafe(answer, start);
    } else {
      var a :| a in start;
      assert start == {a};
      UnansweredIsUnsafe(a, start);
    }
  }
}
