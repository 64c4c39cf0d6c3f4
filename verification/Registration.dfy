/**
 Resolving a registered custom machine type, over any run of reconciles
 (pkg/controllers/gcecustommachinetype/controller.go).
 */
module Registration {
  import opened Basics

  datatype Ready = IsTrue | IsFalse | IsUnknown

  datatype Status = Status(guestCpus: int, memoryMb: int, zones: seq<string>, ready: Ready)

  const INITIAL := Status(0, 0, [], IsUnknown)
  const WITHDRAWN := Status(0, 0, [], IsFalse)

  /** What the Compute API says of the machine type in one zone; an answer without a machine type is no answer. */
  datatype Answer = Found(guestCpus: int, memoryMb: int) | NotFound | NoAnswer

  /** What one reconcile learns: that another registration supersedes this one, or an answer per cluster zone. */
  datatype Round = Superseded | Answered(answers: seq<(string, Answer)>)

  // ---------------------------------------------------------------- one reconcile

  /** A zone stays or becomes confirmed by an answer, and stays so without one if it is held already. */
  predicate Confirms(a: (string, Answer), held: seq<string>) {
    a.1.Found? || (a.1.NoAnswer? && a.0 in held)
  }

  function Resolved(answers: seq<(string, Answer)>, held: seq<string>): seq<string> {
    if answers == [] then []
    else
      var n := |answers| - 1;
      Resolved(answers[..n], held) + (if Confirms(answers[n], held) then [answers[n].0] else [])
  }

  /** The last size found, or the one given. */
  function Size(answers: seq<(string, Answer)>, size: (int, int)): (int, int) {
    if answers == [] then size
    else
      var n := |answers| - 1;
      match answers[n].1
      case Found(cpus, memory) => (cpus, memory)
      case _ => Size(answers[..n], size)
  }

  predicate Unanswered(answers: seq<(string, Answer)>) {
    exists i | 0 <= i < |answers| :: answers[i].1.NoAnswer?
  }

  predicate SomeFound(answers: seq<(string, Answer)>) {
    exists i | 0 <= i < |answers| :: answers[i].1.Found?
  }

  function Held(s: Status): seq<string> {
    if s.ready.IsTrue? then s.zones else []
  }

  function Next(s: Status, round: Round): Status {
    if round.Superseded? then WITHDRAWN
    else
      var resolved := Resolved(round.answers, Held(s));
      if resolved == [] && Unanswered(round.answers) then
        if s.zones == [] then s else s.(zones := [], ready := IsUnknown)
      else if resolved == [] then WITHDRAWN
      else
        var size := Size(round.answers, if s.ready.IsTrue? then (s.guestCpus, s.memoryMb) else (0, 0));
        Status(size.0, size.1, resolved, IsTrue)
  }

  lemma {:induction false} ResolvedZones(answers: seq<(string, Answer)>, held: seq<string>, z: string)
    ensures z in Resolved(answers, held) <==>
            exists i | 0 <= i < |answers| :: answers[i].0 == z && Confirms(answers[i], held)
  {
    if answers != [] {
      var n := |answers| - 1;
      ResolvedZones(answers[..n], held, z);
      assert forall i | 0 <= i < n :: answers[..n][i] == answers[i];
    }
  }

  /** The zones confirmed are listed in the order of the answers. */
  lemma {:induction false} ResolvedInOrder(answers: seq<(string, Answer)>, held: seq<string>, k: nat)
    requires k <= |answers|
    ensures Resolved(answers, held) == Resolved(answers[..k], held) + Resolved(answers[k..], held)
  {
    if k < |answers| {
      var n := |answers| - 1;
      ResolvedInOrder(answers[..n], held, k);
      assert answers[..n][..k] == answers[..k] && answers[..n][k..] == answers[k..][..n - k];
    } else {
      assert answers[..k] == answers;
    }
  }

  // ---------------------------------------------------------------- a run

  /** The status after the reconciles whose results were persisted. */
  function After(rounds: seq<Round>): Status {
    if rounds == [] then INITIAL
    else
      var n := |rounds| - 1;
      Next(After(rounds[..n]), rounds[n])
  }

  /** Whether the answers so far leave the zone confirmed: found at some time, and neither denied nor dropped since. */
  ghost predicate Confirmed(rounds: seq<Round>, z: string) {
    rounds != []
    && var n := |rounds| - 1;
       rounds[n].Answered?
       && exists i | 0 <= i < |rounds[n].answers| ::
            && rounds[n].answers[i].0 == z
            && (rounds[n].answers[i].1.Found? || (rounds[n].answers[i].1.NoAnswer? && Confirmed(rounds[..n], z)))
  }

  /** Over every run, Ready is true exactly while there are zones. */
  lemma {:induction false} ReadyIffZones(rounds: seq<Round>)
    ensures After(rounds).ready.IsTrue? <==> After(rounds).zones != []
  {
    if rounds != [] { ReadyIffZones(rounds[..|rounds| - 1]); }
  }

  /** Over every run, the zones are exactly the confirmed ones. */
  lemma {:induction false} ZonesAreConfirmed(rounds: seq<Round>, z: string)
    ensures z in After(rounds).zones <==> Confirmed(rounds, z)
  {
    if rounds != [] {
      var n := |rounds| - 1;
      var s, round := After(rounds[..n]), rounds[n];
      ZonesAreConfirmed(rounds[..n], z);
      ReadyIffZones(rounds[..n]);
      assert z in Held(s) <==> Confirmed(rounds[..n], z);
      if round.Answered? {
        ResolvedZones(round.answers, Held(s), z);
        assert After(rounds).zones == Resolved(round.answers, Held(s));
      }
    }
  }

  /** A zone leaves only when superseded, dropped from the cluster, or answered with not found. */
  lemma ZoneLeavesForCause(rounds: seq<Round>, round: Round, z: string)
    requires z in After(rounds).zones && z !in After(rounds + [round]).zones
    ensures round.Superseded? || forall i | 0 <= i < |round.answers| && round.answers[i].0 == z ::
            round.answers[i].1.NotFound?
  {
    var rounds' := rounds + [round];
    assert rounds'[..|rounds|] == rounds;
    ZonesAreConfirmed(rounds, z);
    ZonesAreConfirmed(rounds', z);
  }

  /** The answer at place i found a size, and none after it did. */
  ghost predicate LastFoundAt(answers: seq<(string, Answer)>, i: nat) {
    i < |answers| && answers[i].1.Found? && forall j | i < j < |answers| :: !answers[j].1.Found?
  }

  /** This is the size of the last answer that found one, in this round or before. */
  ghost predicate LastSize(rounds: seq<Round>, n: nat, i: nat, guestCpus: int, memoryMb: int) {
    && n < |rounds| && rounds[n].Answered? && LastFoundAt(rounds[n].answers, i)
    && rounds[n].answers[i].1 == Found(guestCpus, memoryMb)
    && forall m | n < m < |rounds| && rounds[m].Answered? :: !SomeFound(rounds[m].answers)
  }

  lemma {:induction false} SizeByPlace(answers: seq<(string, Answer)>, size: (int, int), guestCpus: int, memoryMb: int)
    requires (guestCpus, memoryMb) == Size(answers, size)
    ensures if SomeFound(answers)
            then exists i: nat :: LastFoundAt(answers, i) && answers[i].1 == Found(guestCpus, memoryMb)
            else (guestCpus, memoryMb) == size
  {
    if answers != [] {
      var n := |answers| - 1;
      if answers[n].1.Found? {
        assert LastFoundAt(answers, n);
      } else {
        SizeByPlace(answers[..n], size, guestCpus, memoryMb);
        assert forall i | 0 <= i < n :: answers[..n][i] == answers[i];
        if SomeFound(answers[..n]) {
          var i: nat :| LastFoundAt(answers[..n], i) && answers[..n][i].1 == Found(guestCpus, memoryMb);
          assert LastFoundAt(answers, i);
        }
      }
    }
  }

  lemma LastSizeStays(rounds: seq<Round>, n: nat, i: nat, guestCpus: int, memoryMb: int)
    requires rounds != [] && var last := rounds[|rounds| - 1]; last.Answered? ==> !SomeFound(last.answers)
    requires LastSize(rounds[..|rounds| - 1], n, i, guestCpus, memoryMb)
    ensures LastSize(rounds, n, i, guestCpus, memoryMb)
  {
  }

  lemma {:induction false} FoundResolves(answers: seq<(string, Answer)>, held: seq<string>)
    requires SomeFound(answers)
    ensures Resolved(answers, held) != []
  {
    var n := |answers| - 1;
    if !Confirms(answers[n], held) {
      var i :| 0 <= i < |answers| && answers[i].1.Found?;
      assert answers[..n][i].1.Found?;
      FoundResolves(answers[..n], held);
    }
  }

  /** Without zones held, only a found answer resolves one. */
  lemma {:induction false} NothingHeld(answers: seq<(string, Answer)>)
    requires Resolved(answers, []) != []
    ensures SomeFound(answers)
  {
    var n := |answers| - 1;
    if !answers[n].1.Found? {
      NothingHeld(answers[..n]);
      var i :| 0 <= i < n && answers[..n][i].1.Found?;
      assert answers[i].1.Found?;
    }
  }

  /** Over every run, the size is that of the last answer that found one, or unset; while ready it is never unset. */
  lemma {:induction false} SizeIsLastFound(rounds: seq<Round>)
    ensures var s := After(rounds);
            || (!s.ready.IsTrue? && (s.guestCpus, s.memoryMb) == (0, 0))
            || exists n: nat, i: nat :: LastSize(rounds, n, i, s.guestCpus, s.memoryMb)
  {
    if rounds != [] {
      var n := |rounds| - 1;
      var s, round, s' := After(rounds[..n]), rounds[n], After(rounds);
      SizeIsLastFound(rounds[..n]);
      ReadyIffZones(rounds[..n]);
      if round.Answered? && SomeFound(round.answers) {
        FoundResolves(round.answers, Held(s));
        var size := if s.ready.IsTrue? then (s.guestCpus, s.memoryMb) else (0, 0);
        SizeByPlace(round.answers, size, s'.guestCpus, s'.memoryMb);
        var i: nat :| LastFoundAt(round.answers, i) && round.answers[i].1 == Found(s'.guestCpus, s'.memoryMb);
        assert LastSize(rounds, n, i, s'.guestCpus, s'.memoryMb);
      } else {
        SizeKept(s, round);
        if m: nat, i: nat :| LastSize(rounds[..n], m, i, s.guestCpus, s.memoryMb) {
          LastSizeStays(rounds, m, i, s.guestCpus, s.memoryMb);
        }
      }
    }
  }

  /** A round that finds no size keeps the one there is, or unsets it and is not ready. */
  lemma SizeKept(s: Status, round: Round)
    requires s.ready.IsTrue? <==> s.zones != []
    requires round.Answered? ==> !SomeFound(round.answers)
    ensures var s' := Next(s, round);
            || (!s'.ready.IsTrue? && (s'.guestCpus, s'.memoryMb) == (0, 0))
            || ((s'.guestCpus, s'.memoryMb) == (s.guestCpus, s.memoryMb) && (s'.ready.IsTrue? ==> s.ready.IsTrue?))
  {
    if round.Answered? {
      var s' := Next(s, round);
      var size := if s.ready.IsTrue? then (s.guestCpus, s.memoryMb) else (0, 0);
      SizeByPlace(round.answers, size, Size(round.answers, size).0, Size(round.answers, size).1);
      if !s.ready.IsTrue? && Resolved(round.answers, []) != [] { NothingHeld(round.answers); }
    }
  }

  // ---------------------------------------------------------------- what Ready says

  /** The round settles that the machine type is not to be offered: superseded, or not found in any zone. */
  ghost predicate Denies(round: Round) {
    round.Superseded? || forall i | 0 <= i < |round.answers| :: round.answers[i].1.NotFound?
  }

  ghost predicate Settles(round: Round) {
    Denies(round) || SomeFound(round.answers)
  }

  /** Round number n denies, and nothing is settled after it. */
  ghost predicate DeniedAt(rounds: seq<Round>, n: nat) {
    n < |rounds| && Denies(rounds[n]) && forall m | n < m < |rounds| :: !Settles(rounds[m])
  }

  lemma LastRoundDenies(rounds: seq<Round>, k: nat)
    requires |rounds| == k + 1
    ensures (exists n: nat :: DeniedAt(rounds, n)) <==>
            Denies(rounds[k]) || (!Settles(rounds[k]) && exists n: nat :: DeniedAt(rounds[..k], n))
  {
    if Denies(rounds[k]) {
      assert DeniedAt(rounds, k);
    } else if !Settles(rounds[k]) {
      assert forall n: nat :: DeniedAt(rounds, n) <==> DeniedAt(rounds[..k], n);
    }
  }

  /** Over every run, Ready is false exactly if the last round that settled anything denied. */
  lemma {:induction false} FalseIffLastDenied(rounds: seq<Round>)
    ensures After(rounds).ready.IsFalse? <==> exists n: nat :: DeniedAt(rounds, n)
  {
    if rounds != [] {
      var k := |rounds| - 1;
      FalseIffLastDenied(rounds[..k]);
      ReadyIffZones(rounds[..k]);
      DenialIsFalse(After(rounds[..k]), rounds[k]);
      LastRoundDenies(rounds, k);
    }
  }

  lemma DenialIsFalse(s: Status, round: Round)
    requires s.ready.IsTrue? <==> s.zones != []
    ensures Denies(round) ==> Next(s, round) == Status(0, 0, [], IsFalse)
    ensures !Denies(round) && SomeFound(round.answers) ==> Next(s, round).ready.IsTrue?
    ensures !Settles(round) ==> (Next(s, round).ready.IsFalse? <==> s.ready.IsFalse?)
  {
    if round.Answered? {
      if SomeFound(round.answers) {
        FoundResolves(round.answers, Held(s));
      } else {
        if !s.ready.IsTrue? && Resolved(round.answers, []) != [] { NothingHeld(round.answers); }
        if Denies(round) { DeniedResolvesNothing(round.answers, Held(s)); }
      }
    }
  }

  lemma {:induction false} DeniedResolvesNothing(answers: seq<(string, Answer)>, held: seq<string>)
    requires forall i | 0 <= i < |answers| :: answers[i].1.NotFound?
    ensures Resolved(answers, held) == []
  {
    if answers != [] { DeniedResolvesNothing(answers[..|answers| - 1], held); }
  }

  // ---------------------------------------------------------------- the controller

  method ResolveZones(seen: Status, answers: seq<(string, Answer)>)
    returns (guestCpus: int, memoryMb: int, zones: seq<string>, unresolved: bool)
    ensures (guestCpus, memoryMb)
            == Size(answers, if seen.ready.IsTrue? then (seen.guestCpus, seen.memoryMb) else (0, 0))
    ensures if SomeFound(answers)
            then exists i: nat :: LastFoundAt(answers, i) && answers[i].1 == Found(guestCpus, memoryMb)
            else (guestCpus, memoryMb) == if seen.ready.IsTrue? then (seen.guestCpus, seen.memoryMb) else (0, 0)
    ensures zones == Resolved(answers, Held(seen)) && unresolved == Unanswered(answers)
  {
    guestCpus, memoryMb, zones, unresolved := 0, 0, [], false;
    if seen.ready.IsTrue? { guestCpus, memoryMb := seen.guestCpus, seen.memoryMb; }
    ghost var size := (guestCpus, memoryMb);
    for i := 0 to |answers|
      invariant (guestCpus, memoryMb) == Size(answers[..i], size)
      invariant zones == Resolved(answers[..i], Held(seen))
      invariant unresolved <==> exists j | 0 <= j < i :: answers[j].1.NoAnswer?
    {
      assert answers[..i + 1][..i] == answers[..i] && answers[..i + 1][i] == answers[i];
      match answers[i].1
      case Found(cpus, memory) =>
        guestCpus, memoryMb, zones := cpus, memory, zones + [answers[i].0];
      case NotFound =>
      case NoAnswer =>
        unresolved := true;
        if seen.ready.IsTrue? && answers[i].0 in seen.zones { zones := zones + [answers[i].0]; }
    }
    assert answers[..|answers|] == answers;
    SizeByPlace(answers, size, guestCpus, memoryMb);
  }

  /** The object in the API server, changed only through patches that name the version they were computed from. */
  class Object {
    var status: Status
    var version: nat
    ghost var history: seq<Status>          // the status at each version
    ghost var rounds: seq<Round>            // the reconciles whose patch was taken

    ghost predicate Valid()
      reads this
    {
      |history| == version + 1 && history[version] == status && status == After(rounds)
    }

    constructor ()
      ensures Valid() && rounds == []
    {
      status, version, history, rounds := INITIAL, 0, [INITIAL], [];
    }

    /** Persists the status computed from the one seen; a stale version or a failed call leaves the object alone. */
    method PatchStatus(seen: Status, seenVersion: nat, next: Status, delivered: bool, ghost round: Round)
      returns (ok: bool)
      requires Valid() && seenVersion < |history| && history[seenVersion] == seen && next == Next(seen, round)
      modifies this
      ensures Valid() && old(history) <= history
      ensures rounds == old(rounds) || (rounds == old(rounds) + [round] && seen == old(status))
      ensures status == if delivered && seenVersion == old(version) then next else old(status)
      ensures ok <==> next == seen || (delivered && seenVersion == old(version))
    {
      if next == seen { return true; }
      ok := delivered && seenVersion == version;
      if !ok { return; }
      assert (rounds + [round])[..|rounds|] == rounds;
      status, version, history, rounds := next, version + 1, history + [next], rounds + [round];
    }

    /**
     One reconcile of a copy of the object that may be out of date; round is None when the registrations or the cluster
     zones could not be listed.
     */
    method Reconcile(seen: Status, seenVersion: nat, round: Option<Round>, delivered: bool) returns (ok: bool)
      requires Valid() && seenVersion < |history| && history[seenVersion] == seen
      modifies this
      ensures Valid() && old(history) <= history
      ensures rounds == old(rounds) || (round.Some? && rounds == old(rounds) + [round.value] && seen == old(status))
      ensures status.ready.IsTrue? <==> status.zones != []
      ensures status.ready.IsTrue? ==>
                exists n: nat, i: nat :: LastSize(rounds, n, i, status.guestCpus, status.memoryMb)
      ensures status == if round.Some? && delivered && seenVersion == old(version) then Next(seen, round.value)
              else old(status)
      ensures ok <==>
              && round.Some? && (round.value.Superseded? || !Unanswered(round.value.answers))
              && (Next(seen, round.value) == seen || (delivered && seenVersion == old(version)))
    {
      ReadyIffZones(rounds);
      SizeIsLastFound(rounds);
      if round.None? { return false; }
      var next;
      var settled := true;
      if round.value.Superseded? {
        next := WITHDRAWN;
      } else {
        var guestCpus, memoryMb, zones, unresolved := ResolveZones(seen, round.value.answers);
        settled := !unresolved;
        if zones == [] && unresolved {
          next := if seen.zones == [] then seen else seen.(zones := [], ready := IsUnknown);
        } else if zones == [] {
          next := WITHDRAWN;
        } else {
          next := Status(guestCpus, memoryMb, zones, IsTrue);
        }
      }
      var patched := PatchStatus(seen, seenVersion, next, delivered, round.value);
      ReadyIffZones(rounds);
      SizeIsLastFound(rounds);
      ok := patched && settled;
    }
  }
}
