/**
 From a local-SSD variant of the catalog to a VM and back to the variant
 (pkg/providers/instance/instance.go, pkg/providers/instancetype/instancetype.go, pkg/cloudprovider/cloudprovider.go).
 */
module SsdVariants {
  import opened Basics
  import opened Text
  import LocalSSD
  import opened Launch
  import opened Offerings

  // ---------------------------------------------------------------- numbers in labels

  predicate IsNumber(s: string) {
    s != "" && forall i | 0 <= i < |s| :: '0' <= s[i] <= '9'
  }

  /** strconv.Atoi, on numbers that fit. */
  function Atoi(s: string): Option<int> {
    if IsNumber(s) then Some(DigitsValue(s))
    else if s != "" && s[0] == '+' && IsNumber(s[1..]) then Some(DigitsValue(s[1..]))
    else if s != "" && s[0] == '-' && IsNumber(s[1..]) then Some(-DigitsValue(s[1..]))
    else None
  }

  /** The count a variant stands for: the one number its requirement pins. */
  function PinnedCount(pin: Option<string>): Option<nat> {
    if pin.None? then None
    else match Atoi(pin.value)
      case Some(n) => if n >= 0 then Some(n) else None
      case None => None
  }

  lemma PinIsItsCount(n: nat)
    ensures PinnedCount(Some(Itoa(n))) == Some(n)
  {
    DigitsRoundTrip(n);
    var s := Itoa(n);
    assert forall i | 0 <= i < |s| :: s[i] in s;
  }

  /** Reading a printed number gives it back, negative or not. */
  lemma AtoiOfItoa(n: int)
    ensures Atoi(Itoa(n)) == Some(n)
  {
    if n >= 0 {
      DigitsAreNumber(n);
    } else {
      DigitsAreNumber(-n);
      MinusIsRead(Digits(-n));
    }
  }

  lemma DigitsAreNumber(n: nat)
    ensures IsNumber(Digits(n)) && DigitsValue(Digits(n)) == n
  {
    DigitsRoundTrip(n);
    var s := Digits(n);
    assert forall i | 0 <= i < |s| :: s[i] in s;
  }

  lemma MinusIsRead(s: string)
    requires IsNumber(s)
    ensures Atoi("-" + s) == Some(-DigitsValue(s))
  {
    assert ("-" + s)[1..] == s && ("-" + s)[0] == '-';
  }

  // ---------------------------------------------------------------- the catalog

  datatype Machine = Machine(name: string, vCPUs: int, bundled: LocalSSD.Bundled)

  /** A catalog entry; the pin is the value of a single-valued In requirement on the count label. */
  datatype Variant = Variant(name: string, pin: Option<string>)

  function VariantsOf(name: string, counts: seq<nat>): (vs: seq<Variant>)
    ensures |vs| == |counts| && forall i | 0 <= i < |vs| :: vs[i] == Variant(name, Some(Itoa(counts[i])))
  {
    if counts == [] then [] else [Variant(name, Some(Itoa(counts[0])))] + VariantsOf(name, counts[1..])
  }

  function Catalog(machines: seq<Machine>): seq<Variant> {
    if machines == [] then []
    else
      var m := machines[0];
      VariantsOf(m.name, LocalSSD.CountVariants(m.name, m.vCPUs, m.bundled)) + Catalog(machines[1..])
  }

  ghost predicate Distinct(vs: seq<Variant>) {
    forall i, j | 0 <= i < j < |vs| :: vs[i] != vs[j]
  }

  ghost predicate DistinctNames(machines: seq<Machine>) {
    forall i, j | 0 <= i < j < |machines| :: machines[i].name != machines[j].name
  }

  lemma {:induction false} CatalogNames(machines: seq<Machine>, v: Variant)
    requires v in Catalog(machines)
    ensures exists m | m in machines :: m.name == v.name
    ensures exists n: nat :: v.pin == Some(Itoa(n))
  {
    var m := machines[0];
    var own := VariantsOf(m.name, LocalSSD.CountVariants(m.name, m.vCPUs, m.bundled));
    if v !in own { CatalogNames(machines[1..], v); }
  }

  /** The entry of this machine type for one of the counts it can be launched with. */
  ghost predicate EntryFor(m: Machine, v: Variant) {
    exists n | n in LocalSSD.CountVariants(m.name, m.vCPUs, m.bundled) :: v == Variant(m.name, Some(Itoa(n)))
  }

  lemma OwnEntries(m: Machine, v: Variant, counts: seq<nat>)
    requires counts == LocalSSD.CountVariants(m.name, m.vCPUs, m.bundled)
    ensures v in VariantsOf(m.name, counts) <==> EntryFor(m, v)
  {
    var own := VariantsOf(m.name, counts);
    if v in own {
      var i :| 0 <= i < |own| && own[i] == v;
      assert counts[i] in counts;
    }
    forall n | n in counts && v == Variant(m.name, Some(Itoa(n)))
      ensures v in own
    {
      var i :| 0 <= i < |counts| && counts[i] == n;
      assert own[i] == v;
    }
  }

  lemma CatalogFirst(machines: seq<Machine>, v: Variant)
    requires machines != []
    ensures v in Catalog(machines) <==> EntryFor(machines[0], v) || v in Catalog(machines[1..])
  {
    var m := machines[0];
    OwnEntries(m, v, LocalSSD.CountVariants(m.name, m.vCPUs, m.bundled));
  }

  /** The catalog has an entry for every machine type and every count it can be launched with, and no other. */
  lemma {:induction false} CatalogEntries(machines: seq<Machine>, v: Variant)
    ensures v in Catalog(machines) <==> exists m | m in machines :: EntryFor(m, v)
  {
    if machines != [] {
      CatalogFirst(machines, v);
      CatalogEntries(machines[1..], v);
      assert machines == [machines[0]] + machines[1..];
    }
  }

  lemma OwnVariantsDistinct(m: Machine, counts: seq<nat>)
    requires counts == LocalSSD.CountVariants(m.name, m.vCPUs, m.bundled)
    ensures Distinct(VariantsOf(m.name, counts))
  {
    LocalSSD.VariantsAreDistinct(m.name, m.vCPUs, m.bundled);
    forall i, j | 0 <= i < j < |counts|
      ensures Itoa(counts[i]) != Itoa(counts[j])
    {
      if Itoa(counts[i]) == Itoa(counts[j]) { ItoaInjective(counts[i], counts[j]); }
    }
  }

  /** No two entries of the catalog share both name and count. */
  lemma {:induction false} CatalogIsDistinct(machines: seq<Machine>)
    requires DistinctNames(machines)
    ensures Distinct(Catalog(machines))
  {
    if machines != [] {
      var m := machines[0];
      var own, rest := VariantsOf(m.name, LocalSSD.CountVariants(m.name, m.vCPUs, m.bundled)), Catalog(machines[1..]);
      OwnVariantsDistinct(m, LocalSSD.CountVariants(m.name, m.vCPUs, m.bundled));
      CatalogIsDistinct(machines[1..]);
      forall i, j | 0 <= i < |own| && 0 <= j < |rest|
        ensures own[i] != rest[j]
      {
        CatalogNames(machines[1..], rest[j]);
      }
    }
  }

  // ---------------------------------------------------------------- the VM

  datatype Instance = Instance(machineType: string, stamp: Option<string>, scratchDisks: nat)

  function Built(name: string, count: nat): Instance {
    Instance(name, Some(Itoa(count)), if LocalSSD.Configurable(name) then count else 0)
  }

  // ---------------------------------------------------------------- back to the variant

  predicate Answers(v: Variant, name: string, pin: Option<string>) {
    v.name == name && (pin.None? || v.pin == pin)
  }

  /** The first entry of the type, pinned so if a pin is asked for. */
  function FirstEntry(vs: seq<Variant>, name: string, pin: Option<string>): Option<nat> {
    if vs == [] then None
    else
      var n := |vs| - 1;
      var before := FirstEntry(vs[..n], name, pin);
      if before.Some? then before else if Answers(vs[n], name, pin) then Some(n) else None
  }

  lemma {:induction false} FirstEntryIs(vs: seq<Variant>, name: string, pin: Option<string>)
    ensures match FirstEntry(vs, name, pin)
            case Some(i) => i < |vs| && Answers(vs[i], name, pin) && forall j | 0 <= j < i :: !Answers(vs[j], name, pin)
            case None => forall j | 0 <= j < |vs| :: !Answers(vs[j], name, pin)
  {
    if vs != [] { FirstEntryIs(vs[..|vs| - 1], name, pin); }
  }

  /** The entry with the VM's own count if there is one; else, or without a stamp, the first of the VM's type. */
  function Matched(vs: seq<Variant>, vm: Instance): Option<nat> {
    var own := FirstEntry(vs, vm.machineType, vm.stamp);
    if own.Some? then own else FirstEntry(vs, vm.machineType, None)
  }

  lemma FirstEntryOfPrefix(vs: seq<Variant>, i: nat, name: string, pin: Option<string>)
    requires i <= |vs| && FirstEntry(vs[..i], name, pin).Some?
    ensures FirstEntry(vs, name, pin) == FirstEntry(vs[..i], name, pin)
  {
    FirstEntryIs(vs, name, pin);
    FirstEntryIs(vs[..i], name, pin);
    var k := FirstEntry(vs[..i], name, pin).value;
    assert vs[..i][k] == vs[k];
    assert forall j | 0 <= j < k :: vs[..i][j] == vs[j];
  }

  /** The matched entry, by its place in the list. */
  method MatchVariant(vs: seq<Variant>, vm: Instance) returns (found: Option<nat>)
    ensures found == Matched(vs, vm)
  {
    var fallback: Option<nat> := None;
    for i := 0 to |vs|
      invariant fallback == FirstEntry(vs[..i], vm.machineType, None)
      invariant FirstEntry(vs[..i], vm.machineType, vm.stamp).None?
    {
      var v := vs[i];
      assert vs[..i + 1][..i] == vs[..i] && vs[..i + 1][i] == v;
      if v.name == vm.machineType {
        if fallback.None? { fallback := Some(i); }
        if vm.stamp.None? || v.pin == vm.stamp {
          FirstEntryOfPrefix(vs, i + 1, vm.machineType, vm.stamp);
          return Some(i);
        }
      }
    }
    assert vs[..|vs|] == vs;
    return fallback;
  }

  /** A list whose only entry for a type and count is at this place matches a VM so stamped there. */
  lemma MatchedAtItsPlace(vs: seq<Variant>, vm: Instance, i: nat)
    requires i < |vs| && vm.stamp.Some? && vs[i] == Variant(vm.machineType, vm.stamp)
    requires forall j | 0 <= j < |vs| && vs[j] == vs[i] :: j == i
    ensures Matched(vs, vm) == Some(i)
  {
    FirstEntryIs(vs, vm.machineType, vm.stamp);
    var k := FirstEntry(vs, vm.machineType, vm.stamp);
    assert Answers(vs[i], vm.machineType, vm.stamp);
    assert vs[k.value] == Variant(vs[k.value].name, vs[k.value].pin);
  }

  lemma MatchedIsOfType(vs: seq<Variant>, vm: Instance)
    ensures match Matched(vs, vm)
            case Some(i) =>
              && i < |vs| && vs[i].name == vm.machineType
              && (vm.stamp.Some? && Variant(vm.machineType, vm.stamp) in vs ==>
                    vs[i] == Variant(vm.machineType, vm.stamp))
            case None => forall v | v in vs :: v.name != vm.machineType
  {
    FirstEntryIs(vs, vm.machineType, vm.stamp);
    FirstEntryIs(vs, vm.machineType, None);
    if vm.stamp.Some? && Variant(vm.machineType, vm.stamp) in vs {
      var j :| 0 <= j < |vs| && vs[j] == Variant(vm.machineType, vm.stamp);
      assert Answers(vs[j], vm.machineType, vm.stamp);
    }
  }

  datatype CreateError = CatalogUnavailable | CountMismatch

  function EntryAt(vs: seq<Variant>, i: Option<nat>): Option<Variant> {
    if i.Some? && i.value < |vs| then Some(vs[i.value]) else None
  }

  /** The value a requirement yields when any will do: the pinned one, if it pins one. */
  ghost predicate Yields(any: Variant -> string, vs: seq<Variant>) {
    forall v | v in vs && v.pin.Some? :: any(v) == v.pin.value
  }

  /**
   The type of a created or adopted VM, looked up among the launch candidates and then, if the count differs, in the
   whole catalog (None if the catalog cannot be listed).  A stamped VM never resolves to an entry with another count,
   resolves to its own if either list has it, and otherwise to none, unless an entry that pins no count happens to
   yield it.
   */
  method ResolveCreated(candidates: seq<Variant>, catalog: Option<seq<Variant>>, vm: Instance, any: Variant -> string)
    returns (r: Result<Option<Variant>, CreateError>)
    requires Yields(any, candidates) && (catalog.Some? ==> Yields(any, catalog.value))
    ensures vm.stamp.None? ==>
              r == Ok(EntryAt(candidates, Matched(candidates, vm)))
    ensures vm.stamp.Some? ==>
              var own := Variant(vm.machineType, vm.stamp);
              match r
              case Ok(None) => false
              case Ok(Some(v)) =>
                && (v in candidates || (catalog.Some? && v in catalog.value))
                && v.name == vm.machineType && any(v) == vm.stamp.value
                && (own in candidates ==> v == own) && (v.pin.Some? ==> v == own)
              case Err(CatalogUnavailable) => own !in candidates && catalog.None?
              case Err(CountMismatch) => own !in candidates && catalog.Some? && own !in catalog.value
  {
    var found := MatchVariant(candidates, vm);
    MatchedIsOfType(candidates, vm);
    if vm.stamp.None? || (found.Some? && any(candidates[found.value]) == vm.stamp.value) {
      return Ok(EntryAt(candidates, found));
    }
    if catalog.None? { return Err(CatalogUnavailable); }
    found := MatchVariant(catalog.value, vm);
    MatchedIsOfType(catalog.value, vm);
    if found.None? || any(catalog.value[found.value]) != vm.stamp.value { return Err(CountMismatch); }
    return Ok(Some(catalog.value[found.value]));
  }

  // ---------------------------------------------------------------- what a launch inserts

  /** From event number i on, inserts are only for one of the types, and that one pins a count. */
  ghost predicate InsertsAmong(log: Log, i: nat, types: seq<InstanceType>) {
    forall k | i <= k < |log| && log[k].Insert? :: log[k].it in types && log[k].it.ssdCount.Some?
  }

  lemma AttemptInserts(r: Request, log: Log, it: InstanceType, cap: string, attempted: seq<string>, t: Tried)
    requires t == TryCreate(r, log, it, cap, attempted)
    ensures InsertsAmong(t.log, |log|, [it])
  {
    if it.ssdCount.Some? {
      var p := Prepare(r, log, it, cap);
      if p.Prepared? {
        var search := CheckZones(r, p.log, Uniq([p.zone] + attempted));
        assert forall k | |log| <= k < |p.log| :: t.log[k] == p.log[k];
        assert forall k | |p.log| <= k < |search.log| :: t.log[k] == search.log[k];
      }
    }
  }

  lemma {:induction false} WalkInserts(r: Request, log: Log, types: seq<InstanceType>, cap: string,
                                       attempted: seq<string>, problems: seq<Problem>, w: Walk)
    requires w == WalkTypes(r, log, types, cap, attempted, problems)
    ensures InsertsAmong(w.log, |log|, types)
    decreases |types|
  {
    if types != [] {
      var t := TryCreate(r, log, types[0], cap, attempted);
      AttemptInserts(r, log, types[0], cap, attempted, t);
      if t.verdict.Retry? {
        WalkInserts(r, t.log, types[1..], cap, Attempted(attempted, t.zone), problems + [t.verdict.problem], w);
        assert forall k | |log| <= k < |t.log| :: w.log[k] == t.log[k];
      }
    }
  }

  lemma WalkBothInserts(r: Request, log: Log, types: seq<InstanceType>, l: Launching)
    requires l == WalkBoth(r, log, types)
    requires forall it | it in r.order(types, SPOT) || it in r.order(types, ON_DEMAND) :: it in types
    ensures InsertsAmong(l.log, |log|, types)
  {
    var cap := if HasAvailable(r.claim, types, SPOT) then SPOT else ON_DEMAND;
    var first := WalkTypes(r, log, r.order(types, cap), cap, [], []);
    WalkInserts(r, log, r.order(types, cap), cap, [], [], first);
    if cap == SPOT && FallsBack(r, types, first.ending) {
      var second := WalkTypes(r, first.log, r.order(types, ON_DEMAND), ON_DEMAND, first.attempted, []);
      WalkInserts(r, first.log, r.order(types, ON_DEMAND), ON_DEMAND, first.attempted, [], second);
      assert forall k | |log| <= k < |first.log| :: l.log[k] == first.log[k];
    }
  }

  /** The count the claim asks of a configurable type: the one it names, or none when it names none. */
  predicate AsksFor(claim: Claim, count: nat) {
    match claim.ssd
    case Unset => count == 0
    case Exact(n) => count == n
    case Unusable => false
  }

  /**
   Every insert of a launch is for a given type with one pinned count, and a configurable type has the count asked for.
   */
  lemma LaunchesWhatIsAsked(r: Request, log: Log, types: seq<InstanceType>, l: Launching, k: nat)
    requires l == Create(r, log, types) && |log| <= k < |l.log| && l.log[k].Insert?
    requires forall it | it in r.order(Candidates(r, types), SPOT) || it in r.order(Candidates(r, types), ON_DEMAND) ::
               it in Candidates(r, types)
    ensures l.log[k].it in types && l.log[k].it.ssdCount.Some?
    ensures LocalSSD.Configurable(l.log[k].it.name) ==> AsksFor(r.claim, l.log[k].it.ssdCount.value)
    ensures LocalSSD.Configurable(l.log[k].it.name) ==>
              if r.claim.ssd.Unset? then l.log[k].it.ssdCount == Some(0)
              else r.claim.ssd.Exact? && r.claim.ssd.count == l.log[k].it.ssdCount.value
  {
    var looked := log + [Adopt(r.cloud.adopt(|log|))];
    var ready := looked + [FreeIPs];
    var fitting := Candidates(r, types);
    assert l.log[|log|] == looked[|log|];
    if !r.cloud.adopt(|log|).VM? && fitting != [] {
      assert l.log[|looked|] == ready[|looked|];
      WalkBothInserts(r.(free := r.cloud.freeIPs(|looked|)), ready, fitting, l);
    }
  }

  // ---------------------------------------------------------------- the whole chain

  /** The launch type is the catalog entry at this place: its name, and the count its requirement pins. */
  predicate IsEntry(it: InstanceType, catalog: seq<Variant>, i: nat) {
    i < |catalog| && it.name == catalog[i].name && it.ssdCount == PinnedCount(catalog[i].pin)
  }

  ghost predicate HasEntry(it: InstanceType, machines: seq<Machine>) {
    exists i: nat :: IsEntry(it, Catalog(machines), i)
  }

  ghost predicate FromCatalog(types: seq<InstanceType>, machines: seq<Machine>) {
    forall it | it in types :: HasEntry(it, machines)
  }

  lemma StampIsPin(machines: seq<Machine>, v: Variant, count: nat)
    requires v in Catalog(machines) && PinnedCount(v.pin) == Some(count)
    ensures v.pin == Some(Itoa(count))
  {
    CatalogNames(machines, v);
    var n: nat :| v.pin == Some(Itoa(n));
    PinIsItsCount(n);
  }

  /** A VM built from a catalog entry matches that entry, at the one place where the catalog has it. */
  lemma BuiltMatchesItsEntry(machines: seq<Machine>, it: InstanceType, i: nat)
    requires DistinctNames(machines) && IsEntry(it, Catalog(machines), i) && it.ssdCount.Some?
    ensures var vm, catalog := Built(it.name, it.ssdCount.value), Catalog(machines);
            && Matched(catalog, vm) == Some(i)
            && forall j | 0 <= j < |catalog| :: IsEntry(it, catalog, j) ==> j == i
  {
    var catalog, count := Catalog(machines), it.ssdCount.value;
    var vm := Built(it.name, count);
    CatalogIsDistinct(machines);
    StampIsPin(machines, catalog[i], count);
    MatchedAtItsPlace(catalog, vm, i);
    forall j | 0 <= j < |catalog| && IsEntry(it, catalog, j)
      ensures j == i
    {
      StampIsPin(machines, catalog[j], count);
      assert catalog[j] == Variant(catalog[j].name, catalog[j].pin) == catalog[i];
    }
  }

  lemma EntryOf(it: InstanceType, machines: seq<Machine>) returns (i: nat)
    requires HasEntry(it, machines) && it.ssdCount.Some? && DistinctNames(machines)
    ensures IsEntry(it, Catalog(machines), i)
            && Matched(Catalog(machines), Built(it.name, it.ssdCount.value)) == Some(i)
    ensures forall j | 0 <= j < |Catalog(machines)| :: IsEntry(it, Catalog(machines), j) ==> j == i
    ensures PinnedCount(Built(it.name, it.ssdCount.value).stamp) == it.ssdCount
  {
    i :| IsEntry(it, Catalog(machines), i);
    BuiltMatchesItsEntry(machines, it, i);
    PinIsItsCount(it.ssdCount.value);
  }

  /**
   From catalog to VM and back: when a launch over catalog entries inserts, the VM it builds has the count the claim
   asks for as scratch disks and as stamp, if its family is configurable; and matched against the whole catalog it
   gives back the entry it was launched from, at the one place that entry has.
   */
  lemma LaunchedVMMatchesItsVariant(r: Request, log: Log, types: seq<InstanceType>, l: Launching, k: nat,
                                    machines: seq<Machine>)
    returns (i: nat)
    requires l == Create(r, log, types) && |log| <= k < |l.log| && l.log[k].Insert?
    requires forall it | it in r.order(Candidates(r, types), SPOT) || it in r.order(Candidates(r, types), ON_DEMAND) ::
               it in Candidates(r, types)
    requires DistinctNames(machines) && FromCatalog(types, machines)
    ensures l.log[k].it in types && l.log[k].it.ssdCount.Some? && IsEntry(l.log[k].it, Catalog(machines), i)
    ensures var vm := Built(l.log[k].it.name, l.log[k].it.ssdCount.value);
            && Matched(Catalog(machines), vm) == Some(i)
            && (forall j | 0 <= j < |Catalog(machines)| :: IsEntry(l.log[k].it, Catalog(machines), j) ==> j == i)
            && PinnedCount(vm.stamp) == l.log[k].it.ssdCount
            && (LocalSSD.Configurable(vm.machineType) ==>
                  vm.scratchDisks == l.log[k].it.ssdCount.value && AsksFor(r.claim, vm.scratchDisks))
            && (!LocalSSD.Configurable(vm.machineType) ==> vm.scratchDisks == 0)
  {
    LaunchesWhatIsAsked(r, log, types, l, k);
    i := EntryOf(l.log[k].it, machines);
  }
}
