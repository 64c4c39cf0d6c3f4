/** Which launches can duplicate a VM once the first lookup failed (pkg/providers/instance/instance.go). */
module LaunchDuplicates {
  import opened Basics
  import opened Offerings
  import opened Launch
  import opened LaunchSafety
  import opened LaunchDiscipline

  // ---------------------------------------------------------------- checks and inserts

  /** Before event number k and from i on, the zone was reported absent. */
  ghost predicate ReportedAbsent(log: Log, i: nat, k: nat, zone: string)
    requires k <= |log|
  {
    exists c | i <= c < k :: log[c] == Check(zone, Absent)
  }

  /**
   From event number i on, no existence check directly follows an insert, every insert goes to a zone reported absent,
   and no region-wide lookup is made.
   */
  ghost predicate Spaced(log: Log, i: nat) {
    && (forall k | i <= k < |log| :: !log[k].Adopt?)
    && (forall k | i < k < |log| && log[k].Check? :: !log[k - 1].Insert?)
    && (forall k | i <= k < |log| && log[k].Insert? :: ReportedAbsent(log, i, k, log[k].zone))
  }

  /** What comes next at event number i, if anything, is not a check. */
  predicate OpensQuietly(log: Log, i: nat) {
    i < |log| ==> !log[i].Check?
  }

  lemma SpacedExtends(log: Log, full: Log, i: nat)
    requires i <= |log| && log <= full && Spaced(log, i) && Spaced(full, |log|) && OpensQuietly(full, |log|)
    ensures Spaced(full, i)
  {
    assert forall k | 0 <= k < |log| :: full[k] == log[k];
    forall k | i <= k < |full| && full[k].Insert?
      ensures ReportedAbsent(full, i, k, full[k].zone)
    {
      if k < |log| {
        assert ReportedAbsent(log, i, k, log[k].zone);
        var c :| i <= c < k && log[c] == Check(log[k].zone, Absent);
        assert full[c] == log[c];
      } else {
        assert ReportedAbsent(full, |log|, k, full[k].zone);
      }
    }
  }

  lemma QuietIsSpaced(log: Log, i: nat)
    requires forall k | i <= k < |log| :: !log[k].Check? && !log[k].Adopt? && !log[k].Insert?
    ensures Spaced(log, i)
  {
  }

  lemma {:induction false} AbsentAreReported(r: Request, log: Log, zones: seq<string>, s: Search, zone: string)
    requires s == CheckZones(r, log, zones) && s.found == Ok(None) && zone in zones
    ensures ReportedAbsent(s.log, |log|, |s.log|, zone)
    decreases |zones|
  {
    var checked := log + [Check(zones[0], Absent)];
    assert s.log[|log|] == checked[|log|];
    if zone != zones[0] { AbsentAreReported(r, checked, zones[1..], s, zone); }
  }

  lemma GetOrCreateIsSpaced(r: Request, log: Log, it: InstanceType, cap: string, zone: string, attempted: seq<string>,
                            cluster: seq<string>, a: Attempt)
    requires a == GetOrCreate(r, log, it, cap, zone, attempted, cluster)
    ensures Spaced(a.log, |log|)
  {
    var zones := Uniq([zone] + attempted);
    var search := CheckZones(r, log, zones);
    assert forall k | |log| <= k < |search.log| :: a.log[k] == search.log[k];
    if search.found == Ok(None) {
      AbsentAreReported(r, log, zones, search, zone);
      var c :| |log| <= c < |search.log| && search.log[c] == Check(zone, Absent);
      assert a.log[c] == Check(zone, Absent);
    }
  }

  lemma PreparationOpens(r: Request, log: Log, it: InstanceType, cap: string, p: Preparation)
    requires p == Prepare(r, log, it, cap)
    ensures |log| < |p.log| && p.log[|log|].Zones? && !p.log[|p.log| - 1].Insert?
  {
  }

  lemma PreparedIsSpaced(log: Log, ready: Log, full: Log)
    requires log < ready <= full && forall k | |log| <= k < |ready| ::
             !ready[k].Check? && !ready[k].Adopt? && !ready[k].Insert?
    requires Spaced(full, |ready|)
    ensures Spaced(full, |log|) && OpensQuietly(full, |log|)
  {
    assert forall k | |log| <= k < |ready| :: full[k] == ready[k];
    forall k | |log| <= k < |full| && full[k].Insert?
      ensures ReportedAbsent(full, |log|, k, full[k].zone)
    {
      assert ReportedAbsent(full, |ready|, k, full[k].zone);
    }
  }

  lemma AttemptIsSpaced(r: Request, log: Log, it: InstanceType, cap: string, attempted: seq<string>, t: Tried)
    requires t == TryCreate(r, log, it, cap, attempted)
    ensures Spaced(t.log, |log|) && OpensQuietly(t.log, |log|)
  {
    if it.ssdCount.Some? {
      var p := Prepare(r, log, it, cap);
      PreparationOpens(r, log, it, cap, p);
      if p.Prepared? {
        var a := GetOrCreate(r, p.log, it, cap, p.zone, attempted, p.cluster);
        GetOrCreateIsSpaced(r, p.log, it, cap, p.zone, attempted, p.cluster, a);
        PreparedIsSpaced(log, p.log, a.log);
      }
    }
  }

  lemma {:induction false} WalkIsSpaced(r: Request, log: Log, types: seq<InstanceType>, cap: string,
                                        attempted: seq<string>, problems: seq<Problem>, w: Walk)
    requires w == WalkTypes(r, log, types, cap, attempted, problems)
    ensures Spaced(w.log, |log|) && OpensQuietly(w.log, |log|)
    decreases |types|
  {
    if types != [] {
      var t := TryCreate(r, log, types[0], cap, attempted);
      AttemptIsSpaced(r, log, types[0], cap, attempted, t);
      if t.verdict.Retry? {
        WalkIsSpaced(r, t.log, types[1..], cap, Attempted(attempted, t.zone), problems + [t.verdict.problem], w);
        SpacedExtends(t.log, w.log, |log|);
        assert |log| < |t.log| ==> w.log[|log|] == t.log[|log|];
      }
    }
  }

  lemma WalkBothIsSpaced(r: Request, log: Log, types: seq<InstanceType>, l: Launching)
    requires l == WalkBoth(r, log, types)
    ensures Spaced(l.log, |log|) && OpensQuietly(l.log, |log|)
  {
    var cap := if HasAvailable(r.claim, types, SPOT) then SPOT else ON_DEMAND;
    var first := WalkTypes(r, log, r.order(types, cap), cap, [], []);
    WalkIsSpaced(r, log, r.order(types, cap), cap, [], [], first);
    if cap == SPOT && FallsBack(r, types, first.ending) {
      var second := WalkTypes(r, first.log, r.order(types, ON_DEMAND), ON_DEMAND, first.attempted, []);
      WalkIsSpaced(r, first.log, r.order(types, ON_DEMAND), ON_DEMAND, first.attempted, [], second);
      SpacedExtends(first.log, second.log, |log|);
      assert |log| < |first.log| ==> second.log[|log|] == first.log[|log|];
    }
  }

  lemma LaunchIsSpaced(r: Request, types: seq<InstanceType>, l: Launching)
    requires l == Create(r, [], types)
    ensures l.log == [] || (l.log[0] == Adopt(r.cloud.adopt(0)) && Spaced(l.log, 1))
  {
    if types != [] {
      var looked := [Adopt(r.cloud.adopt(0))];
      assert [] + looked == looked && l.log[0] == looked[0];
      var fitting := Candidates(r, types);
      if !r.cloud.adopt(0).VM? && fitting != [] {
        var ready := looked + [FreeIPs];
        QuietIsSpaced(ready, 1);
        WalkBothIsSpaced(r.(free := r.cloud.freeIPs(1)), ready, fitting, l);
        SpacedExtends(ready, l.log, 1);
      }
    }
  }

  // ---------------------------------------------------------------- a zone no answer speaks of

  function Mentioned(e: Event): string {
    match e
    case Check(zone, _) => zone
    case Insert(_, _, zone, _, _, _) => zone
    case _ => ""
  }

  function Longest(log: Log): nat {
    if log == [] then 0
    else
      var n := |log| - 1;
      var before := Longest(log[..n]);
      if |Mentioned(log[n])| > before then |Mentioned(log[n])| else before
  }

  lemma {:induction false} LongestBounds(log: Log, k: nat)
    requires k < |log|
    ensures |Mentioned(log[k])| <= Longest(log)
  {
    var n := |log| - 1;
    if k < n { LongestBounds(log[..n], k); }
  }

  function Elsewhere(log: Log): (zone: string)
    ensures zone != ""
  {
    seq(Longest(log) + 1, _ => 'x')
  }

  // ---------------------------------------------------------------- the other world

  /** As before, but with an overlooked VM elsewhere all along, and one that insert number k made for a moment. */
  function Overlooked(worlds: Worlds, elsewhere: string, k: nat, zone: string): Worlds {
    (n: nat) => worlds(n) + {elsewhere} + (if n == k + 1 then {zone} else {})
  }

  lemma OverlookedIsTruthful(worlds: Worlds, log: Log, k: nat)
    requires Truthful(worlds, log) && k < |log| && log[k].Insert? && log[k].zone != ""
    requires log[0] == Adopt(LookupFailed) && Spaced(log, 1)
    ensures Truthful(Overlooked(worlds, Elsewhere(log), k, log[k].zone), log)
  {
    var a, z := Elsewhere(log), log[k].zone;
    var other := Overlooked(worlds, a, k, z);
    forall i | 0 <= i < |log|
      ensures TruthfulEvent(other(i), log[i], other(i + 1))
    {
      assert TruthfulEvent(worlds(i), log[i], worlds(i + 1));
      LongestBounds(log, i);
      assert Mentioned(log[i]) != a;
      OverlookedEvent(worlds, log, k, i, a, z);
    }
  }

  lemma OverlookedEvent(worlds: Worlds, log: Log, k: nat, i: nat, a: string, z: string)
    requires i < |log| && TruthfulEvent(worlds(i), log[i], worlds(i + 1)) && Mentioned(log[i]) != a && a != ""
    requires k < |log| && log[k].Insert? && log[k].zone == z && z != ""
    requires log[0] == Adopt(LookupFailed) && Spaced(log, 1)
    ensures TruthfulEvent(Overlooked(worlds, a, k, z)(i), log[i], Overlooked(worlds, a, k, z)(i + 1))
  {
    assert i > 0 ==> !log[i].Adopt?;
    assert i == k + 1 ==> !log[i].Check?;
  }

  // ---------------------------------------------------------------- the exact condition

  ghost predicate InsertsSomewhere(log: Log) {
    exists k | 0 <= k < |log| :: log[k].Insert? && log[k].zone != ""
  }

  /** Some course of events that fits all answers starts with at most one VM and has two at some moment. */
  ghost predicate CanDuplicate(log: Log) {
    exists worlds: Worlds :: Truthful(worlds, log) && AtMostOne(worlds(0)) && !OneThroughout(worlds, 0, |log|)
  }

  lemma {:induction false} NothingNamedAppears(worlds: Worlds, log: Log, n: nat)
    requires Truthful(worlds, log) && !InsertsSomewhere(log) && AtMostOne(worlds(0)) && n <= |log|
    ensures AtMostOne(worlds(n))
  {
    if n > 0 {
      NothingNamedAppears(worlds, log, n - 1);
      assert TruthfulEvent(worlds(n - 1), log[n - 1], worlds(n));
      assert worlds(n) <= worlds(n - 1);
    }
  }

  lemma InsertCanDuplicate(worlds: Worlds, log: Log, k: nat)
    requires Truthful(worlds, log) && worlds(0) == {} && k < |log| && log[k].Insert? && log[k].zone != ""
    requires log[0] == Adopt(LookupFailed) && Spaced(log, 1)
    ensures CanDuplicate(log)
  {
    var a, z := Elsewhere(log), log[k].zone;
    var other := Overlooked(worlds, a, k, z);
    OverlookedIsTruthful(worlds, log, k);
    LongestBounds(log, k);
    assert k + 1 != 0 && other(0) == {a};
    assert a in other(k + 1) && z in other(k + 1) && a != z;
    assert !AtMostOne(other(k + 1));
    assert !OneThroughout(other, 0, |log|);
  }

  // ---------------------------------------------------------------- a VM there was at first

  /** The VM that was in zone p at first is still there after n events. */
  ghost predicate Stays(worlds: Worlds, p: string, n: nat) {
    forall i: nat | i <= n :: p in worlds(i)
  }

  /** As before, but without the VM there was at first. */
  ghost function Without(worlds: Worlds, p: string): Worlds {
    (n: nat) => if Stays(worlds, p, n) then worlds(n) - {p} else worlds(n)
  }

  /** An answer that says where the first VM is, while it is still there. */
  ghost predicate Reveals(worlds: Worlds, e: Event, p: string, i: nat) {
    Stays(worlds, p, i) && (e == Check(p, Present) || (e.Insert? && e.answer.Done? && e.zone == p))
  }

  lemma WithoutIsTruthful(worlds: Worlds, log: Log, p: string)
    requires Truthful(worlds, log) && log != [] && log[0] == Adopt(LookupFailed) && Spaced(log, 1)
    requires forall i | 0 <= i < |log| :: !Reveals(worlds, log[i], p, i)
    requires forall i | 0 <= i < |log| && log[i].Insert? && log[i].zone == p :: !Stays(worlds, p, i)
    ensures Truthful(Without(worlds, p), log)
  {
    var other := Without(worlds, p);
    forall i | 0 <= i < |log|
      ensures TruthfulEvent(other(i), log[i], other(i + 1))
    {
      assert TruthfulEvent(worlds(i), log[i], worlds(i + 1));
      assert Stays(worlds, p, i + 1) ==> Stays(worlds, p, i);
      assert Stays(worlds, p, i + 1) <==> Stays(worlds, p, i) && p in worlds(i + 1);
      assert !Reveals(worlds, log[i], p, i);
    }
  }

  /** An insert's own zone was reported absent, so a VM that was there at first is gone. */
  lemma InsertFindsNone(worlds: Worlds, log: Log, k: nat)
    requires Truthful(worlds, log) && log != [] && log[0] == Adopt(LookupFailed) && Spaced(log, 1)
    requires k < |log| && log[k].Insert?
    ensures !Stays(worlds, log[k].zone, k)
  {
    assert ReportedAbsent(log, 1, k, log[k].zone);
    var c :| 1 <= c < k && log[c] == Check(log[k].zone, Absent);
    assert TruthfulEvent(worlds(c), log[c], worlds(c + 1));
  }

  /** The first VM is found after the insert, so both were there at once. */
  lemma FoundCanDuplicate(worlds: Worlds, log: Log, k: nat, p: string, i: nat)
    requires Truthful(worlds, log) && AtMostOne(worlds(0)) && log != [] && log[0] == Adopt(LookupFailed)
             && Spaced(log, 1)
    requires k < i < |log| && log[k].Insert? && log[k].zone != "" && Stays(worlds, p, i)
    ensures CanDuplicate(log)
  {
    var z := log[k].zone;
    InsertFindsNone(worlds, log, k);
    assert z != p;
    var held: Worlds := (n: nat) => worlds(n) + (if n == k + 1 then {z} else {});
    forall m | 0 <= m < |log|
      ensures TruthfulEvent(held(m), log[m], held(m + 1))
    {
      assert TruthfulEvent(worlds(m), log[m], worlds(m + 1));
      assert m > 0 ==> !log[m].Adopt?;
      assert m == k + 1 ==> !log[m].Check?;
    }
    assert p in held(k + 1) && z in held(k + 1);
    assert !AtMostOne(held(k + 1));
    assert !OneThroughout(held, 0, |log|);
  }

  lemma NamedInsertCanDuplicate(worlds: Worlds, log: Log, k: nat, quotaTTL: int)
    requires Truthful(worlds, log) && AtMostOne(worlds(0)) && log != [] && log[0] == Adopt(LookupFailed)
             && Spaced(log, 1)
    requires k < |log| && log[k].Insert? && log[k].zone != "" && FinalIsLast(log, 0, quotaTTL)
    ensures CanDuplicate(log)
  {
    if worlds(0) == {} {
      InsertCanDuplicate(worlds, log, k);
    } else {
      var p :| p in worlds(0);
      assert worlds(0) == {p};
      if i :| 0 <= i < |log| && Reveals(worlds, log[i], p, i) {
        if log[i].Insert? { InsertFindsNone(worlds, log, i); }
        assert Final(log[i], quotaTTL);
        FoundCanDuplicate(worlds, log, k, p, i);
      } else {
        forall i | 0 <= i < |log| && log[i].Insert? && log[i].zone == p
          ensures !Stays(worlds, p, i)
        {
          InsertFindsNone(worlds, log, i);
        }
        WithoutIsTruthful(worlds, log, p);
        assert Stays(worlds, p, 0);
        InsertCanDuplicate(Without(worlds, p), log, k);
      }
    }
  }

  /**
   After a failed first lookup, a launch whose answers are true of some course of events can have duplicated a VM it
   overlooked exactly if it inserted in a zone that has a name.
   */
  lemma DuplicatesIffInserts(r: Request, types: seq<InstanceType>, l: Launching, worlds: Worlds)
    requires l == Create(r, [], types) && r.cloud.adopt(0) == LookupFailed
    requires Truthful(worlds, l.log) && AtMostOne(worlds(0))
    ensures CanDuplicate(l.log) <==> InsertsSomewhere(l.log)
  {
    LaunchIsSpaced(r, types, l);
    if InsertsSomewhere(l.log) {
      var k :| 0 <= k < |l.log| && l.log[k].Insert? && l.log[k].zone != "";
      FinalEventsEndLaunch(r, [], types, l);
      NamedInsertCanDuplicate(worlds, l.log, k, r.quotaTTL);
    } else {
      forall other: Worlds, n | Truthful(other, l.log) && AtMostOne(other(0)) && 0 <= n <= |l.log|
        ensures AtMostOne(other(n))
      {
        NothingNamedAppears(other, l.log, n);
      }
    }
  }
}
