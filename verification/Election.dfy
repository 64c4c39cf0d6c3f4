/**
 Which of several registrations of one machine type counts, decided in the controller
 (pkg/controllers/gcecustommachinetype/controller.go) and in the catalog (pkg/providers/instancetype/instancetype.go).
 */
module Election {
  import opened Text

  datatype Registered = Registered(name: string, created: int, machineType: string, ready: bool)

  /** Earlier creation wins, and among equals the smaller name. */
  predicate Outranks(a: Registered, b: Registered) {
    if a.created != b.created then a.created < b.created else a.name != b.name && LessEq(a.name, b.name)
  }

  lemma OutranksTotal(a: Registered, b: Registered)
    ensures !(Outranks(a, b) && Outranks(b, a))
    ensures a.name != b.name ==> Outranks(a, b) || Outranks(b, a)
  {
    LessEqTotal(a.name, b.name);
  }

  lemma OutranksTransitive(a: Registered, b: Registered, c: Registered)
    requires Outranks(a, b) && Outranks(b, c)
    ensures Outranks(a, c)
  {
    if a.created == b.created == c.created {
      LessEqTransitive(a.name, b.name, c.name);
      LessEqTotal(a.name, b.name);
    }
  }

  ghost predicate DistinctNames(list: seq<Registered>) {
    forall i, j | 0 <= i < j < |list| :: list[i].name != list[j].name
  }

  /** Another registration of the same machine type outranks this one. */
  ghost predicate Superseded(list: seq<Registered>, obj: Registered) {
    exists other | other in list ::
      other.name != obj.name && other.machineType == obj.machineType && Outranks(other, obj)
  }

  method IsSupersededDuplicate(list: seq<Registered>, obj: Registered) returns (superseded: bool)
    ensures superseded <==> Superseded(list, obj)
    ensures superseded <==>
            exists r | r in list ::
              && r.name != obj.name && r.machineType == obj.machineType
              && (r.created < obj.created || (r.created == obj.created && LessEq(r.name, obj.name)))
  {
    for i := 0 to |list|
      invariant !Superseded(list[..i], obj)
    {
      var other := list[i];
      assert list[..i + 1] == list[..i] + [other];
      if other.name != obj.name && other.machineType == obj.machineType && Outranks(other, obj) { return true; }
    }
    assert list[..|list|] == list;
    return false;
  }

  /** This one registers the machine type and outranks all others of the list that do. */
  ghost predicate Wins(list: seq<Registered>, machineType: string, winner: Registered) {
    && winner in list && winner.machineType == machineType
    && forall r | r in list && r.machineType == machineType && r != winner :: Outranks(winner, r)
  }

  lemma WinnerIsFirst(list: seq<Registered>, machineType: string, winner: Registered)
    requires Wins(list, machineType, winner)
    ensures forall r | r in list && r.machineType == machineType ::
              winner.created < r.created || (winner.created == r.created && LessEq(winner.name, r.name))
  {
    LessEqTotal(winner.name, winner.name);
  }

  lemma WinnerIsUnique(list: seq<Registered>, machineType: string, a: Registered, b: Registered)
    requires Wins(list, machineType, a) && Wins(list, machineType, b)
    ensures a == b
  {
    OutranksTotal(a, b);
  }

  lemma {:induction false} SomeoneWins(list: seq<Registered>, machineType: string) returns (winner: Registered)
    requires DistinctNames(list) && exists r | r in list :: r.machineType == machineType
    ensures Wins(list, machineType, winner)
  {
    var n := |list| - 1;
    var last := list[n];
    assert list == list[..n] + [last];
    if exists r | r in list[..n] :: r.machineType == machineType {
      winner := SomeoneWins(list[..n], machineType);
      if last.machineType == machineType {
        OutranksTotal(winner, last);
        if Outranks(last, winner) {
          forall r | r in list && r.machineType == machineType && r != last
            ensures Outranks(last, r)
          {
            if r != winner { OutranksTransitive(last, winner, r); }
          }
          winner := last;
        }
      }
    } else {
      winner := last;
    }
  }

  /** Not being superseded and winning are the same, so exactly one registration per machine type is not superseded. */
  lemma UnsupersededIffWins(list: seq<Registered>, obj: Registered)
    requires DistinctNames(list) && obj in list
    ensures !Superseded(list, obj) <==> Wins(list, obj.machineType, obj)
    ensures !Superseded(list, obj) <==>
            forall r | r in list && r.machineType == obj.machineType ::
              obj.created < r.created || (obj.created == r.created && LessEq(obj.name, r.name))
  {
    LessEqTotal(obj.name, obj.name);
    forall r | r in list
      ensures Outranks(obj, r) || Outranks(r, obj) || r == obj
      ensures !(Outranks(obj, r) && Outranks(r, obj))
      ensures r.name == obj.name ==> r == obj
      ensures LessEq(obj.name, r.name) && LessEq(r.name, obj.name) ==> r.name == obj.name
    {
      OutranksTotal(obj, r);
      LessEqTotal(obj.name, r.name);
    }
  }

  /** Of the registrations of one machine type, exactly one is not superseded: the first by creation and name. */
  lemma ExactlyOneUnsuperseded(list: seq<Registered>, machineType: string) returns (winner: Registered)
    requires DistinctNames(list) && exists r | r in list :: r.machineType == machineType
    ensures Wins(list, machineType, winner)
    ensures forall r | r in list && r.machineType == machineType :: !Superseded(list, r) <==> r == winner
    ensures forall r | r in list && r.machineType == machineType ::
              winner.created < r.created || (winner.created == r.created && LessEq(winner.name, r.name))
  {
    winner := SomeoneWins(list, machineType);
    WinnerIsFirst(list, machineType, winner);
    forall r | r in list && r.machineType == machineType
      ensures !Superseded(list, r) <==> r == winner
    {
      UnsupersededIffWins(list, r);
      if Wins(list, machineType, r) { WinnerIsUnique(list, machineType, r, winner); }
    }
  }

  // ---------------------------------------------------------------- the catalog

  function ReadyOnes(list: seq<Registered>): (ready: seq<Registered>)
    ensures forall r :: r in ready <==> r in list && r.ready
  {
    if list == [] then []
    else
      var n := |list| - 1;
      ReadyOnes(list[..n]) + (if list[n].ready then [list[n]] else [])
  }

  /** The catalog holds, per machine type, the winner among its ready registrations. */
  ghost predicate Merged(list: seq<Registered>, winners: map<string, Registered>) {
    && (forall mt :: mt in winners <==> exists r | r in list :: r.machineType == mt)
    && (forall mt | mt in winners :: Wins(list, mt, winners[mt]))
  }

  /** The map with one more registration taken into account. */
  function Merge(winners: map<string, Registered>, obj: Registered): map<string, Registered> {
    if obj.machineType in winners && !Outranks(obj, winners[obj.machineType]) then winners
    else winners[obj.machineType := obj]
  }

  lemma BestOfTwo(list: seq<Registered>, best: Registered, obj: Registered)
    requires Wins(list, obj.machineType, best) && best.name != obj.name
    ensures Wins(list + [obj], obj.machineType, if Outranks(obj, best) then obj else best)
  {
    OutranksTotal(best, obj);
    if Outranks(obj, best) {
      forall r | r in list && r.machineType == obj.machineType && r != best
        ensures Outranks(obj, r)
      {
        OutranksTransitive(obj, best, r);
      }
    }
  }

  lemma MergeOne(list: seq<Registered>, winners: map<string, Registered>, obj: Registered)
    requires Merged(list, winners) && forall r | r in list :: r.name != obj.name
    ensures Merged(list + [obj], Merge(winners, obj))
  {
    var mt, winners' := obj.machineType, Merge(winners, obj);
    if mt in winners { BestOfTwo(list, winners[mt], obj); }
    forall m | m in winners' && m != mt
      ensures Wins(list + [obj], m, winners'[m])
    {
      assert Wins(list, m, winners[m]);
    }
    forall m
      ensures m in winners' <==> exists r | r in list + [obj] :: r.machineType == m
    {
      assert (exists r | r in list + [obj] :: r.machineType == m)
             <==> mt == m || exists r | r in list :: r.machineType == m by {
        assert obj in list + [obj];
      }
    }
  }

  /** Per machine type with a ready registration, the ready one created first, and among equals the first by name. */
  ghost predicate FirstOfEach(list: seq<Registered>, winners: map<string, Registered>) {
    && (forall r | r in list && r.ready :: r.machineType in winners)
    && (forall mt | mt in winners :: winners[mt] in list && winners[mt].ready && winners[mt].machineType == mt)
    && (forall mt, r | mt in winners && r in list && r.ready && r.machineType == mt ::
          winners[mt].created < r.created || (winners[mt].created == r.created && LessEq(winners[mt].name, r.name)))
  }

  lemma MergedAreFirst(list: seq<Registered>, winners: map<string, Registered>)
    requires Merged(ReadyOnes(list), winners)
    ensures FirstOfEach(list, winners)
  {
    forall mt, r | mt in winners && r in list && r.ready && r.machineType == mt
      ensures winners[mt].created < r.created || (winners[mt].created == r.created && LessEq(winners[mt].name, r.name))
    {
      WinnerIsFirst(ReadyOnes(list), mt, winners[mt]);
    }
  }

  function Winners(list: seq<Registered>): map<string, Registered> {
    if list == [] then map[]
    else
      var n := |list| - 1;
      if list[n].ready then Merge(Winners(list[..n]), list[n]) else Winners(list[..n])
  }

  lemma {:induction false} WinnersAreMerged(list: seq<Registered>)
    requires DistinctNames(list)
    ensures Merged(ReadyOnes(list), Winners(list))
  {
    if list != [] {
      var n := |list| - 1;
      WinnersAreMerged(list[..n]);
      if list[n].ready {
        assert forall r | r in ReadyOnes(list[..n]) :: r.name != list[n].name;
        MergeOne(ReadyOnes(list[..n]), Winners(list[..n]), list[n]);
      } else {
        assert ReadyOnes(list) == ReadyOnes(list[..n]);
      }
    }
  }

  method CustomMachineTypeWinners(list: seq<Registered>) returns (winners: map<string, Registered>)
    requires DistinctNames(list)
    ensures Merged(ReadyOnes(list), winners) && FirstOfEach(list, winners)
  {
    winners := map[];
    for i := 0 to |list|
      invariant winners == Winners(list[..i])
    {
      var obj := list[i];
      assert list[..i + 1][..i] == list[..i];
      if obj.ready && (obj.machineType !in winners || Outranks(obj, winners[obj.machineType])) {
        winners := winners[obj.machineType := obj];
      }
    }
    assert list[..|list|] == list;
    WinnersAreMerged(list);
    MergedAreFirst(list, winners);
  }

  /** Listing the same registrations in another order merges the same winners. */
  lemma OrderDoesNotMatter(list: seq<Registered>, list': seq<Registered>, winners: map<string, Registered>,
                           winners': map<string, Registered>)
    requires Merged(list, winners) && Merged(list', winners') && forall r :: r in list <==> r in list'
    ensures winners == winners'
  {
    forall mt | mt in winners
      ensures mt in winners' && winners'[mt] == winners[mt]
    {
      assert Wins(list', mt, winners[mt]);
      WinnerIsUnique(list', mt, winners[mt], winners'[mt]);
    }
  }

  /** The catalog's winner is the controller's exactly when the controller's is ready. */
  lemma AgreeIffReady(list: seq<Registered>, winners: map<string, Registered>, elected: Registered)
    requires Merged(ReadyOnes(list), winners) && Wins(list, elected.machineType, elected)
    ensures elected.ready <==> elected.machineType in winners && winners[elected.machineType] == elected
  {
    var mt := elected.machineType;
    if elected.ready {
      assert Wins(ReadyOnes(list), mt, elected);
      WinnerIsUnique(ReadyOnes(list), mt, elected, winners[mt]);
    }
  }
}
