/**
 The backoff that marks give, over any number of launches one after the other (pkg/providers/instance/instance.go).
 */
module LaunchBackoff {
  import opened Offerings
  import opened Launch
  import opened LaunchMarks

  datatype Start = Start(request: Request, types: seq<InstanceType>)

  /** The log of launches that follow one another. */
  function Run(starts: seq<Start>): Log {
    if starts == [] then []
    else
      var n := |starts| - 1;
      Create(starts[n].request, Run(starts[..n]), starts[n].types).log
  }

  /** All launches meet the same cloud, under the same quota backoff. */
  ghost predicate Share(starts: seq<Start>, cloud: Cloud, quotaTTL: int) {
    forall i | 0 <= i < |starts| :: starts[i].request.cloud == cloud && starts[i].request.quotaTTL == quotaTTL
  }

  lemma {:induction false} RunIsOrderly(starts: seq<Start>, cloud: Cloud, quotaTTL: int)
    requires Share(starts, cloud, quotaTTL)
    ensures Orderly(cloud, Run(starts), 0, quotaTTL)
  {
    if starts != [] {
      var n := |starts| - 1;
      var before := Run(starts[..n]);
      RunIsOrderly(starts[..n], cloud, quotaTTL);
      var l := Create(starts[n].request, before, starts[n].types);
      LaunchIsOrderly(starts[n].request, before, starts[n].types, l);
      OrderlyExtends(cloud, before, l.log, 0, quotaTTL);
    }
  }

  /** No launch ever passes the cache a lifetime that it would read as the default or as forever. */
  lemma TTLsArePositive(log: Log, k: nat, quotaTTL: int)
    requires quotaTTL >= 0 && k < |log| && log[k].Mark? && Explained(log, 0, quotaTTL)
    ensures log[k].ttl > 0 && (log[k].quota ==> log[k].ttl == quotaTTL)
  {
    var j :| 0 <= j < k && Explains(log, j, k, quotaTTL);
  }

  ghost predicate ClockRuns(cloud: Cloud) {
    forall a: nat, b: nat | a <= b :: cloud.clock(a) <= cloud.clock(b)
  }

  // ---------------------------------------------------------------- marks by others

  /** Others mark the offering after event number i, and before event number j happens. */
  ghost predicate MarkedByOthers(cloud: Cloud, o: Offered, i: nat, j: nat) {
    exists n: nat | i < n <= j :: o in cloud.others(n)
  }

  predicate Outlasts(e: Expiry, time: int) {
    e.Never? || time <= e.time
  }

  /** Without a mark for it, its own or of others, an offering keeps its entry in the cache. */
  lemma {:induction false} EntryStays(cloud: Cloud, log: Log, o: Offered, i: nat, j: nat)
    requires i <= j <= |log|
    requires forall k | i <= k < j && log[k].Mark? :: log[k].offered != o
    requires !MarkedByOthers(cloud, o, i, j)
    ensures var before, after := MarksOf(cloud, log[..i]), MarksOf(cloud, log[..j]);
            (o in after <==> o in before) && (o in after ==> after[o] == before[o])
  {
    if i < j {
      EntryStays(cloud, log, o, i, j - 1);
      assert log[..j][..j - 1] == log[..j - 1] && log[..j][j - 1] == log[j - 1];
      assert o !in cloud.others(j);
    }
  }

  /** The last mark that others make in that span is in force at its end. */
  ghost predicate OthersHold(cloud: Cloud, o: Offered, i: nat, j: nat) {
    exists n: nat | i < n <= j ::
      && o in cloud.others(n) && Outlasts(cloud.others(n)[o], cloud.clock(j))
      && !MarkedByOthers(cloud, o, n, j)
  }

  lemma {:induction false} LastByOthers(cloud: Cloud, o: Offered, i: nat, j: nat) returns (n: nat)
    requires MarkedByOthers(cloud, o, i, j)
    ensures i < n <= j && o in cloud.others(n) && !MarkedByOthers(cloud, o, n, j)
    decreases j
  {
    if o in cloud.others(j) { n := j; } else { n := LastByOthers(cloud, o, i, j - 1); }
  }

  /** The last mark decides, if it is one by others. */
  lemma OthersDecide(cloud: Cloud, log: Log, o: Offered, n: nat, m: nat)
    requires 0 < n <= m <= |log| && o in cloud.others(n) && !MarkedByOthers(cloud, o, n, m)
    requires forall k | n <= k < m && log[k].Mark? :: log[k].offered != o
    ensures Blocked(cloud, log[..m], o) <==> Outlasts(cloud.others(n)[o], cloud.clock(m))
  {
    EntryStays(cloud, log, o, n, m);
  }

  /**
   A failure for any other shortage than quota, of a selection for a compatible offering, marks an offering that is
   still marked exactly if others marked it since the selection: it was available then, and the launch marked nothing
   since.
   */
  lemma StockoutRenewsOnlyOthers(cloud: Cloud, log: Log, s: nat, k: nat)
    requires ClockRuns(cloud) && Selections(cloud, log, 0)
    requires s < k < |log| && log[k].Mark? && Leads(log, s, k) && log[s].compatible
    ensures Blocked(cloud, log[..k], log[k].offered) <==> OthersHold(cloud, log[k].offered, s, k)
  {
    assert SelectedOpen(cloud, log, s);
    var o := log[k].offered;
    if MarkedByOthers(cloud, o, s, k) {
      var n := LastByOthers(cloud, o, s, k);
      OthersDecide(cloud, log, o, n, k);
    } else {
      EntryStays(cloud, log, o, s, k);
      AvailableStaysAvailable(MarksOf(cloud, log[..s]), o, cloud.clock(s), cloud.clock(k));
    }
  }

  // ---------------------------------------------------------------- what marks do to the cache

  /** The selection of event number s led to the mark of event number k, which renews at most a mark by others. */
  ghost predicate Respects(cloud: Cloud, log: Log, s: nat, k: nat)
    requires s < k < |log| && log[k].Mark?
  {
    && Leads(log, s, k)
    && if log[s].compatible
       then Blocked(cloud, log[..k], log[k].offered) <==> OthersHold(cloud, log[k].offered, s, k)
       else log[k].offered.zone == ""
  }

  /** What a mark may do to the cache. */
  ghost predicate GentleMark(cloud: Cloud, log: Log, k: nat, quotaTTL: int)
    requires k < |log|
  {
    log[k].Mark? ==>
      && log[k].ttl > 0
      && (if log[k].quota then log[k].ttl == quotaTTL else exists s | 0 <= s < k :: Respects(cloud, log, s, k))
  }

  ghost predicate GentleMarks(cloud: Cloud, log: Log, quotaTTL: int) {
    forall k | 0 <= k < |log| :: GentleMark(cloud, log, k, quotaTTL)
  }

  lemma MarksAreGentle(cloud: Cloud, log: Log, quotaTTL: int)
    requires ClockRuns(cloud) && Orderly(cloud, log, 0, quotaTTL) && quotaTTL >= 0
    ensures GentleMarks(cloud, log, quotaTTL)
  {
    forall k | 0 <= k < |log|
      ensures GentleMark(cloud, log, k, quotaTTL)
    {
      if log[k].Mark? {
        TTLsArePositive(log, k, quotaTTL);
        if !log[k].quota {
          var s :| 0 <= s < k && Leads(log, s, k);
          assert SelectedOpen(cloud, log, s);
          if log[s].compatible { StockoutRenewsOnlyOthers(cloud, log, s, k); }
          assert Respects(cloud, log, s, k);
        }
      }
    }
  }

  /**
   Over any number of launches, every mark has a positive lifetime, and none but a quota mark renews a mark still in
   force, unless others made that mark since the selection, or nothing compatible was open and the zone is empty.
   */
  lemma RunsMarkGently(starts: seq<Start>, cloud: Cloud, quotaTTL: int)
    requires Share(starts, cloud, quotaTTL) && ClockRuns(cloud) && quotaTTL >= 0
    ensures GentleMarks(cloud, Run(starts), quotaTTL)
  {
    RunIsOrderly(starts, cloud, quotaTTL);
    MarksAreGentle(cloud, Run(starts), quotaTTL);
  }

  // ---------------------------------------------------------------- the quota backoff

  ghost predicate MarkedUntil(cloud: Cloud, log: Log, o: Offered, time: int) {
    var marks := MarksOf(cloud, log);
    o in marks && Outlasts(marks[o], time)
  }

  /** Others mark the offering in that span, for a time that ends before. */
  ghost predicate Undercut(cloud: Cloud, o: Offered, i: nat, j: nat, time: int) {
    exists n: nat | i < n <= j :: o in cloud.others(n) && !Outlasts(cloud.others(n)[o], time)
  }

  /** One event more does not shorten a quota backoff, if others do not. */
  lemma MarkedOn(cloud: Cloud, log: Log, e: Event, o: Offered, time: int)
    requires MarkedUntil(cloud, log, o, time)
    requires e.Mark? && e.offered == o ==> e.ttl > 0 && time <= cloud.clock(|log|) + e.ttl
    requires !Undercut(cloud, o, |log|, |log| + 1, time)
    ensures MarkedUntil(cloud, log + [e], o, time)
  {
    assert (log + [e])[..|log|] == log;
    var n := |log| + 1;
    assert o in cloud.others(n) ==> Outlasts(cloud.others(n)[o], time);
  }

  lemma MarkedFirst(cloud: Cloud, log: Log, k: nat, time: int)
    requires k < |log| && log[k].Mark? && log[k].ttl > 0 && time <= cloud.clock(k) + log[k].ttl
    requires !Undercut(cloud, log[k].offered, k, k + 1, time)
    ensures MarkedUntil(cloud, log[..k + 1], log[k].offered, time)
  {
    assert log[..k + 1][..k] == log[..k];
    var n := k + 1;
    assert log[k].offered in cloud.others(n) ==> Outlasts(cloud.others(n)[log[k].offered], time);
  }

  /** While an offering is marked, no mark but for quota falls on it. */
  lemma MarkedIsNotSelected(cloud: Cloud, log: Log, k: nat, s: nat, n: nat, time: int)
    requires Selections(cloud, log, 0) && k < n < |log| && s < n && log[k].Mark? && log[n].Mark?
             && Respects(cloud, log, s, n)
    requires log[n].offered == log[k].offered && log[k].offered.zone != ""
    ensures k < s && !Blocked(cloud, log[..s], log[k].offered)
  {
    assert SelectedOpen(cloud, log, s);
  }

  /**
   Whatever the launches do after a quota mark, the offering stays unavailable, as long as others do not undercut it.
   */
  lemma {:induction false} QuotaMarkLasts(cloud: Cloud, log: Log, k: nat, m: nat, quotaTTL: int, time: int)
    requires ClockRuns(cloud) && GentleMarks(cloud, log, quotaTTL) && Selections(cloud, log, 0)
    requires k < m <= |log| && log[k].Mark? && log[k].quota && log[k].offered.zone != ""
    requires cloud.clock(m) <= time <= cloud.clock(k) + quotaTTL
    requires !Undercut(cloud, log[k].offered, k, m, time)
    ensures MarkedUntil(cloud, log[..m], log[k].offered, time)
    decreases m
  {
    var n, o := m - 1, log[k].offered;
    assert GentleMark(cloud, log, k, quotaTTL) && GentleMark(cloud, log, n, quotaTTL);
    if n == k {
      MarkedFirst(cloud, log, k, time);
    } else {
      assert cloud.clock(k) <= cloud.clock(n) <= cloud.clock(m);
      QuotaMarkLasts(cloud, log, k, n, quotaTTL, time);
      if log[n].Mark? && log[n].offered == o && !log[n].quota {
        var s :| 0 <= s < n && Respects(cloud, log, s, n);
        MarkedIsNotSelected(cloud, log, k, s, n, time);
        assert cloud.clock(s) <= cloud.clock(m);
        QuotaMarkLasts(cloud, log, k, s, quotaTTL, time);
        assert false;
      }
      assert log[..m] == log[..n] + [log[n]];
      MarkedOn(cloud, log[..n], log[n], o, time);
    }
  }

  lemma OthersHaveTheLastWord(cloud: Cloud, log: Log, o: Offered, n: nat, time: int)
    requires 0 < n <= |log| && o in cloud.others(n) && !Outlasts(cloud.others(n)[o], time)
    ensures !MarkedUntil(cloud, log[..n], o, time)
  {
  }

  /**
   Up to any moment of its lifetime, a quota mark keeps the offering marked throughout exactly if nobody undercuts it.
   */
  lemma QuotaMarkLastsIff(cloud: Cloud, log: Log, k: nat, m: nat, quotaTTL: int, time: int)
    requires ClockRuns(cloud) && GentleMarks(cloud, log, quotaTTL) && Selections(cloud, log, 0)
    requires k < m <= |log| && log[k].Mark? && log[k].quota && log[k].offered.zone != ""
    requires cloud.clock(m) <= time <= cloud.clock(k) + quotaTTL
    ensures (forall n | k < n <= m :: MarkedUntil(cloud, log[..n], log[k].offered, time))
            <==> !Undercut(cloud, log[k].offered, k, m, time)
  {
    var o := log[k].offered;
    if Undercut(cloud, o, k, m, time) {
      var n: nat :| k < n <= m && o in cloud.others(n) && !Outlasts(cloud.others(n)[o], time);
      OthersHaveTheLastWord(cloud, log, o, n, time);
    } else {
      forall n | k < n <= m
        ensures MarkedUntil(cloud, log[..n], o, time)
      {
        assert cloud.clock(n) <= cloud.clock(m) && !Undercut(cloud, o, k, n, time);
        QuotaMarkLasts(cloud, log, k, n, quotaTTL, time);
      }
    }
  }

  lemma QuotaMarkFollows(log: Log, j: nat, z: string, quotaTTL: int) returns (k: nat)
    requires Covered(log, 0, quotaTTL) && j < |log| && log[j].Insert? && QuotaFailure(log[j].answer, quotaTTL)
    requires Concerns(log[j].it, log[j].capacityType, log[j].zone, z)
    ensures j < k < |log| && log[k] == Mark(Offered(log[j].it.name, z, log[j].capacityType), quotaTTL, true)
    ensures forall i | j < i < k :: log[i].Mark?
  {
    var o := Offered(log[j].it.name, z, log[j].capacityType);
    assert MarkedAfter(log, j, o, quotaTTL);
    k :| j < k < |log| && log[k] == Mark(o, quotaTTL, true) && forall i | j < i < k :: log[i].Mark?;
  }

  lemma SelectedWhileMarked(cloud: Cloud, log: Log, quotaTTL: int, k: nat, m: nat)
    requires GentleMarks(cloud, log, quotaTTL) && Selections(cloud, log, 0) && ClockRuns(cloud)
    requires k < m < |log| && log[m].Select? && log[m].zone != "" && log[k] == Mark(Chosen(log[m]), quotaTTL, true)
    ensures cloud.clock(k) + quotaTTL < cloud.clock(m) || Undercut(cloud, Chosen(log[m]), k, m, cloud.clock(m))
  {
    assert SelectedOpen(cloud, log, m);
    var now := cloud.clock(m);
    if now <= cloud.clock(k) + quotaTTL && !Undercut(cloud, Chosen(log[m]), k, m, now) {
      QuotaMarkLasts(cloud, log, k, m, quotaTTL, now);
    }
  }

  lemma SelectionAvoidsQuota(cloud: Cloud, log: Log, quotaTTL: int, j: nat, m: nat)
    requires GentleMarks(cloud, log, quotaTTL) && Selections(cloud, log, 0) && Covered(log, 0, quotaTTL)
             && ClockRuns(cloud)
    requires j < m < |log| && log[j].Insert? && QuotaFailure(log[j].answer, quotaTTL)
    requires log[m].Select? && log[m].zone != ""
    requires log[m].it.name == log[j].it.name && log[m].capacityType == log[j].capacityType
    requires Concerns(log[j].it, log[j].capacityType, log[j].zone, log[m].zone)
    ensures cloud.clock(j) + quotaTTL < cloud.clock(m) || Undercut(cloud, Chosen(log[m]), j, m, cloud.clock(m))
  {
    var k := QuotaMarkFollows(log, j, log[m].zone, quotaTTL);
    assert !log[m].Mark?;
    SelectedWhileMarked(cloud, log, quotaTTL, k, m);
    assert cloud.clock(j) <= cloud.clock(k);
  }

  /**
   After an insert fails for quota, no launch selects the failed zone, or any zone that offers the same type at the same
   capacity type, until the quota backoff is over; unless others marked just that offering for a time that has run out.
   */
  lemma QuotaStopsSelection(starts: seq<Start>, cloud: Cloud, quotaTTL: int, log: Log, j: nat, m: nat)
    requires Share(starts, cloud, quotaTTL) && log == Run(starts) && ClockRuns(cloud) && quotaTTL >= 0
    requires j < m < |log| && log[j].Insert? && QuotaFailure(log[j].answer, quotaTTL)
    requires log[m].Select? && log[m].zone != ""
    requires log[m].it.name == log[j].it.name && log[m].capacityType == log[j].capacityType
    requires Concerns(log[j].it, log[j].capacityType, log[j].zone, log[m].zone)
    ensures cloud.clock(j) + quotaTTL < cloud.clock(m) || Undercut(cloud, Chosen(log[m]), j, m, cloud.clock(m))
  {
    RunIsOrderly(starts, cloud, quotaTTL);
    RunsMarkGently(starts, cloud, quotaTTL);
    SelectionAvoidsQuota(cloud, log, quotaTTL, j, m);
  }

  /** Every mark by others lasts so long, from no earlier than the event before it. */
  ghost predicate OthersMarkFor(cloud: Cloud, ttl: int) {
    forall n: nat, o | 0 < n && o in cloud.others(n) :: Outlasts(cloud.others(n)[o], cloud.clock(n - 1) + ttl)
  }

  lemma LongMarksDoNotUndercut(cloud: Cloud, o: Offered, j: nat, m: nat, time: int, ttl: int)
    requires ClockRuns(cloud) && OthersMarkFor(cloud, ttl) && Undercut(cloud, o, j, m, time)
    ensures cloud.clock(j) + ttl < time
  {
    var n: nat :| j < n <= m && o in cloud.others(n) && !Outlasts(cloud.others(n)[o], time);
    assert cloud.clock(j) <= cloud.clock(n - 1);
  }

  /** Preemption notices mark for the default lifetime, so they leave alone a quota backoff that is not longer. */
  lemma PreemptionsKeepBackoff(starts: seq<Start>, cloud: Cloud, quotaTTL: int, log: Log, j: nat, m: nat)
    requires Share(starts, cloud, quotaTTL) && log == Run(starts) && ClockRuns(cloud)
    requires OthersMarkFor(cloud, DEFAULT_TTL) && 0 <= quotaTTL <= DEFAULT_TTL
    requires j < m < |log| && log[j].Insert? && QuotaFailure(log[j].answer, quotaTTL)
    requires log[m].Select? && log[m].zone != ""
    requires log[m].it.name == log[j].it.name && log[m].capacityType == log[j].capacityType
    requires Concerns(log[j].it, log[j].capacityType, log[j].zone, log[m].zone)
    ensures cloud.clock(j) + quotaTTL < cloud.clock(m)
  {
    QuotaStopsSelection(starts, cloud, quotaTTL, log, j, m);
    if Undercut(cloud, Chosen(log[m]), j, m, cloud.clock(m)) {
      LongMarksDoNotUndercut(cloud, Chosen(log[m]), j, m, cloud.clock(m), DEFAULT_TTL);
    }
  }
}
