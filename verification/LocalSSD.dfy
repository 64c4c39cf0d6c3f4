/** Local SSD counts and capacities per machine family (pkg/utils/localssd/localssd.go). */
module LocalSSD {
  const DEFAULT_PARTITION_GIB := 375

  function IndexOfDash(s: string): (i: int)
    ensures -1 <= i < |s|
  {
    if s == "" then -1
    else if s[0] == '-' then 0
    else
      var i := IndexOfDash(s[1..]);
      if i < 0 then -1 else i + 1
  }

  function FamilyPrefix(name: string): string {
    var i := IndexOfDash(name);
    if i > 0 then name[..i] else name
  }

  lemma {:induction false} DashFound(family: string, rest: string)
    requires '-' !in family
    ensures IndexOfDash(family + "-" + rest) == |family| && IndexOfDash(family) == -1
  {
    if family != "" {
      assert (family + "-" + rest)[1..] == family[1..] + "-" + rest;
      DashFound(family[1..], rest);
    }
  }

  /** The family of a machine type is what its name has before the first dash. */
  lemma FamilyBeforeDash(family: string, rest: string)
    requires '-' !in family && family != ""
    ensures FamilyPrefix(family + "-" + rest) == family && FamilyPrefix(family) == family
  {
    DashFound(family, rest);
    assert (family + "-" + rest)[..|family|] == family;
  }

  datatype Bracket = Bracket(minVCPUs: int, counts: seq<nat>)

  datatype Family = Fixed(counts: seq<nat>) | Brackets(brackets: seq<Bracket>)

  const N1 := Fixed([1, 2, 3, 4, 5, 6, 7, 8, 16, 24])
  const N2 := Brackets([Bracket(82, [16, 24]), Bracket(42, [8, 16, 24]), Bracket(22, [4, 8, 16, 24]),
                        Bracket(12, [2, 4, 8, 16, 24]), Bracket(2, [1, 2, 4, 8, 16, 24])])
  const N2D := Brackets([Bracket(96, [8, 16, 24]), Bracket(64, [4, 8, 16, 24]), Bracket(32, [2, 4, 8, 16, 24]),
                         Bracket(2, [1, 2, 4, 8, 16, 24])])
  const C2 := Brackets([Bracket(60, [8]), Bracket(30, [4, 8]), Bracket(16, [2, 4, 8]), Bracket(4, [1, 2, 4, 8])])
  const C2D := Brackets([Bracket(112, [8]), Bracket(56, [4, 8]), Bracket(32, [2, 4, 8]), Bracket(2, [1, 2, 4, 8])])

  function FamilyTable(): map<string, Family> {
    map["n1" := N1, "n2" := N2, "n2d" := N2D, "c2" := C2, "c2d" := C2D]
  }

  predicate Configurable(name: string) {
    FamilyPrefix(name) in FamilyTable()
  }

  function FirstBracket(brackets: seq<Bracket>, vCPUs: int): seq<nat> {
    if brackets == [] then []
    else if vCPUs >= brackets[0].minVCPUs then brackets[0].counts
    else FirstBracket(brackets[1..], vCPUs)
  }

  function AllowedCounts(name: string, vCPUs: int): seq<nat> {
    if !Configurable(name) then []
    else match FamilyTable()[FamilyPrefix(name)]
      case Fixed(counts) => counts
      case Brackets(brackets) => FirstBracket(brackets, vCPUs)
  }

  predicate Increasing(xs: seq<nat>) {
    forall i, j | 0 <= i < j < |xs| :: xs[i] < xs[j]
  }

  predicate SoundFamily(f: Family) {
    match f
    case Fixed(counts) => Increasing([0] + counts)
    case Brackets(brackets) => forall i | 0 <= i < |brackets| :: Increasing([0] + brackets[i].counts)
  }

  lemma NFamiliesAreSound()
    ensures SoundFamily(N1) && SoundFamily(N2)
  {
  }

  lemma N2DIsSound()
    ensures SoundFamily(N2D)
  {
  }

  lemma CFamiliesAreSound()
    ensures SoundFamily(C2) && SoundFamily(C2D)
  {
  }

  lemma TableIsSound(family: string)
    requires family in FamilyTable()
    ensures SoundFamily(FamilyTable()[family])
  {
    NFamiliesAreSound();
    N2DIsSound();
    CFamiliesAreSound();
    assert FamilyTable()[family] in {N1, N2, N2D, C2, C2D};
  }

  lemma {:induction false} FirstBracketSound(brackets: seq<Bracket>, vCPUs: int)
    requires forall i | 0 <= i < |brackets| :: Increasing([0] + brackets[i].counts)
    ensures Increasing([0] + FirstBracket(brackets, vCPUs))
  {
    if brackets != [] && vCPUs < brackets[0].minVCPUs { FirstBracketSound(brackets[1..], vCPUs); }
  }

  /** The brackets of a family go down in size, so that the first one reached is the largest. */
  predicate Descending(brackets: seq<Bracket>) {
    forall i, j | 0 <= i < j < |brackets| :: brackets[j].minVCPUs < brackets[i].minVCPUs
  }

  lemma {:induction false} FirstBracketReached(brackets: seq<Bracket>, vCPUs: int) returns (i: nat)
    ensures i <= |brackets| && forall j | 0 <= j < i :: vCPUs < brackets[j].minVCPUs
    ensures if i < |brackets| then brackets[i].minVCPUs <= vCPUs && FirstBracket(brackets, vCPUs) == brackets[i].counts
            else FirstBracket(brackets, vCPUs) == []
  {
    if brackets == [] || brackets[0].minVCPUs <= vCPUs {
      i := 0;
    } else {
      var k := FirstBracketReached(brackets[1..], vCPUs);
      i := k + 1;
    }
  }

  lemma TableDescends(family: string)
    requires family in FamilyTable() && FamilyTable()[family].Brackets?
    ensures Descending(FamilyTable()[family].brackets)
  {
  }

  /** Of a family with brackets, the counts are those of the largest bracket the machine type reaches, if any. */
  lemma LargestBracketCounts(name: string, vCPUs: int, brackets: seq<Bracket>, i: nat)
    requires Configurable(name) && FamilyTable()[FamilyPrefix(name)] == Brackets(brackets) && i < |brackets|
    requires brackets[i].minVCPUs <= vCPUs
    requires forall j | 0 <= j < |brackets| && brackets[j].minVCPUs <= vCPUs ::
               brackets[j].minVCPUs <= brackets[i].minVCPUs
    ensures AllowedCounts(name, vCPUs) == brackets[i].counts
  {
    TableDescends(FamilyPrefix(name));
    var k := FirstBracketReached(brackets, vCPUs);
    assert k <= i && brackets[k].minVCPUs <= brackets[i].minVCPUs;
    assert k == i;
  }

  /** No shape lists a count twice, nor zero among the non-zero counts. */
  lemma AllowedCountsIncrease(name: string, vCPUs: int)
    ensures Increasing([0] + AllowedCounts(name, vCPUs))
  {
    if Configurable(name) {
      TableIsSound(FamilyPrefix(name));
      match FamilyTable()[FamilyPrefix(name)]
      case Fixed(_) =>
      case Brackets(brackets) => FirstBracketSound(brackets, vCPUs);
    }
  }

  /** What the Compute API reports of SSDs bundled with a machine type. */
  datatype Bundled = NoBundle | UnknownCount | Partitions(count: int)

  /** One catalog variant per count a machine type can be launched with. */
  function CountVariants(name: string, vCPUs: int, bundled: Bundled): seq<nat> {
    if Configurable(name) then [0] + AllowedCounts(name, vCPUs)
    else match bundled
      case NoBundle => [0]
      case UnknownCount => []
      case Partitions(n) => if n > 0 then [n] else []
  }

  lemma VariantsAreDistinct(name: string, vCPUs: int, bundled: Bundled)
    ensures Increasing(CountVariants(name, vCPUs, bundled))
  {
    AllowedCountsIncrease(name, vCPUs);
  }

  /** What a variant may be for: none or an allowed count where SSDs are chosen, and otherwise just what is bundled. */
  lemma VariantCounts(name: string, vCPUs: int, bundled: Bundled, n: nat)
    ensures Configurable(name) ==>
              (n in CountVariants(name, vCPUs, bundled) <==> n == 0 || n in AllowedCounts(name, vCPUs))
    ensures !Configurable(name) && bundled.NoBundle? ==> (n in CountVariants(name, vCPUs, bundled) <==> n == 0)
    ensures !Configurable(name) && !bundled.NoBundle? ==>
              (n in CountVariants(name, vCPUs, bundled) <==> bundled == Partitions(n) && n > 0)
  {
  }

  function PartitionGiB(name: string): (g: int)
    ensures g >= DEFAULT_PARTITION_GIB
  {
    var family := FamilyPrefix(name);
    if family == "z3" then 3000 else if family == "z4d" then 3500 else DEFAULT_PARTITION_GIB
  }

  function TotalGiB(name: string, partitions: int): (g: int)
    ensures partitions > 0 ==> g >= DEFAULT_PARTITION_GIB
    ensures g >= 0
  {
    if name == "c4-highmem-288-lssd-metal" || name == "c4-standard-288-lssd-metal" then 18000
    else if name == "z3-highmem-192-highlssd-metal" then 72000
    else if partitions <= 0 then 0
    else
      assert partitions * PartitionGiB(name) >= PartitionGiB(name);
      partitions * PartitionGiB(name)
  }

  /** Partitions add up, but on the metal types whose total is fixed. */
  lemma PartitionsAddUp(name: string, a: nat, b: nat)
    requires name !in {"c4-highmem-288-lssd-metal", "c4-standard-288-lssd-metal", "z3-highmem-192-highlssd-metal"}
    ensures TotalGiB(name, a + b) == TotalGiB(name, a) + TotalGiB(name, b) && TotalGiB(name, 1) == PartitionGiB(name)
  {
    var g := PartitionGiB(name);
    assert (a + b) * g == a * g + b * g;
  }
}
