/** The cache of instance types without their offerings (pkg/providers/instancetype/instancetype.go, types.go). */
module StaticTypes {
  import opened Basics
  import opened Text
  import opened UnorderedHash
  import LocalSSD

  // ---------------------------------------------------------------- what a static instance type depends on

  datatype MachineType = MachineType(name: string, memoryMb: Option<int>, guestCpus: Option<int>,
                                     bundled: LocalSSD.Bundled)

  datatype Disk = Disk(boot: bool, sizeGiB: int, rest: string)

  /** The part of a NodeClass that instance types depend on. */
  datatype NodeClass = NodeClass(
    kubelet: string, disks: seq<Disk>, localSsdMode: string, gpuSharing: string, threadsPerCore: Option<nat>)

  /** An instance type without offerings, given by everything it is computed from. */
  datatype Static = Static(
    machine: MachineType, ssdCount: nat, ssdGiB: int, bootGiB: int, visibleCPUs: int,
    kubelet: string, localSsdMode: string, gpuSharing: string)

  const DEFAULT_BOOT_GIB := 100

  predicate SizedBoot(d: Disk) {
    d.boot && d.sizeGiB > 0
  }

  function BootGiB(disks: seq<Disk>): int {
    if disks == [] then DEFAULT_BOOT_GIB
    else if SizedBoot(disks[0]) then disks[0].sizeGiB
    else BootGiB(disks[1..])
  }

  function VisibleCPUs(cpus: int, threadsPerCore: Option<nat>): int {
    if threadsPerCore == Some(1) && cpus >= 2 then cpus / 2 else cpus
  }

  function Variants(mt: MachineType, counts: seq<nat>, nc: NodeClass): seq<Static>
    requires mt.guestCpus.Some?
  {
    if counts == [] then []
    else
      var n := |counts| - 1;
      Variants(mt, counts[..n], nc)
      + [Static(mt, counts[n], LocalSSD.TotalGiB(mt.name, counts[n]), BootGiB(nc.disks),
                VisibleCPUs(mt.guestCpus.value, nc.threadsPerCore), nc.kubelet, nc.localSsdMode, nc.gpuSharing)]
  }

  function TypesOf(mt: MachineType, nc: NodeClass): seq<Static> {
    if mt.name == "" || mt.memoryMb.None? || mt.guestCpus.None? then []
    else Variants(mt, LocalSSD.CountVariants(mt.name, mt.guestCpus.value, mt.bundled), nc)
  }

  function Listed(catalog: map<string, MachineType>, names: seq<string>, nc: NodeClass): seq<Static>
    requires forall x | x in names :: x in catalog
  {
    if names == [] then []
    else
      var n := |names| - 1;
      Listed(catalog, names[..n], nc) + TypesOf(catalog[names[n]], nc)
  }

  lemma NamesAreKeys(catalog: map<string, MachineType>)
    ensures forall x | x in InOrder(catalog.Keys) :: x in catalog
  {
    EnumerationMembers(InOrder(catalog.Keys), catalog.Keys);
  }

  /** The list computed from scratch: by machine name, then by SSD count. */
  ghost function Recomputed(catalog: map<string, MachineType>, nc: NodeClass): seq<Static> {
    NamesAreKeys(catalog);
    Listed(catalog, InOrder(catalog.Keys), nc)
  }

  /** The machine type is complete enough to be offered. */
  predicate Complete(mt: MachineType) {
    mt.name != "" && mt.memoryMb.Some? && mt.guestCpus.Some?
  }

  /** A static type of this machine type for this NodeClass; on one thread per core the guest sees half the CPUs. */
  predicate IsTypeOf(t: Static, mt: MachineType, nc: NodeClass)
    requires mt.guestCpus.Some?
  {
    && t.machine == mt && t.ssdGiB == LocalSSD.TotalGiB(mt.name, t.ssdCount) && t.bootGiB == BootGiB(nc.disks)
    && t.ssdCount in LocalSSD.CountVariants(mt.name, mt.guestCpus.value, mt.bundled)
    && t.kubelet == nc.kubelet && t.localSsdMode == nc.localSsdMode && t.gpuSharing == nc.gpuSharing
    && (nc.threadsPerCore == Some(1) && mt.guestCpus.value >= 2 ==>
          t.visibleCPUs * 2 == mt.guestCpus.value - mt.guestCpus.value % 2)
    && (nc.threadsPerCore != Some(1) || mt.guestCpus.value < 2 ==> t.visibleCPUs == mt.guestCpus.value)
  }

  lemma {:induction false} VariantsAreTypes(mt: MachineType, counts: seq<nat>, nc: NodeClass, all: seq<nat>)
    requires mt.guestCpus.Some? && all == LocalSSD.CountVariants(mt.name, mt.guestCpus.value, mt.bundled)
    requires forall n | n in counts :: n in all
    ensures |Variants(mt, counts, nc)| == |counts|
    ensures forall i | 0 <= i < |counts| ::
              Variants(mt, counts, nc)[i].ssdCount == counts[i] && IsTypeOf(Variants(mt, counts, nc)[i], mt, nc)
  {
    if counts != [] {
      var n := |counts| - 1;
      VariantsAreTypes(mt, counts[..n], nc, all);
      assert counts[n] in all;
    }
  }

  lemma ListedLast(catalog: map<string, MachineType>, names: seq<string>, nc: NodeClass, x: string)
    requires x in catalog && forall y | y in names :: y in catalog
    ensures Listed(catalog, names + [x], nc) == Listed(catalog, names, nc) + TypesOf(catalog[x], nc)
  {
    assert (names + [x])[..|names|] == names;
  }

  lemma AllInCatalog(catalog: map<string, MachineType>, a: seq<string>, b: seq<string>)
    requires (forall x | x in a :: x in catalog) && forall x | x in b :: x in catalog
    ensures forall x | x in a + b :: x in catalog
  {
  }

  /** Machine types are listed in the order of their names. */
  lemma {:induction false} ListedByName(catalog: map<string, MachineType>, a: seq<string>, b: seq<string>,
                                        nc: NodeClass)
    requires (forall x | x in a :: x in catalog) && forall x | x in b :: x in catalog
    ensures forall x | x in a + b :: x in catalog
    ensures Listed(catalog, a + b, nc) == Listed(catalog, a, nc) + Listed(catalog, b, nc)
  {
    AllInCatalog(catalog, a, b);
    if b == [] {
      assert a + b == a;
    } else {
      var n := |b| - 1;
      assert a + b == a + b[..n] + [b[n]];
      ListedByName(catalog, a, b[..n], nc);
      ListedLast(catalog, a + b[..n], nc, b[n]);
    }
  }

  lemma {:induction false} ListedAreTypes(catalog: map<string, MachineType>, names: seq<string>, nc: NodeClass,
                                          t: Static)
    requires forall x | x in names :: x in catalog
    ensures t in Listed(catalog, names, nc) ==>
              exists x | x in names :: Complete(catalog[x]) && IsTypeOf(t, catalog[x], nc)
  {
    if names != [] {
      var n := |names| - 1;
      ListedAreTypes(catalog, names[..n], nc, t);
      var mt := catalog[names[n]];
      if Complete(mt) {
        var counts := LocalSSD.CountVariants(mt.name, mt.guestCpus.value, mt.bundled);
        VariantsAreTypes(mt, counts, nc, counts);
        if t in Variants(mt, counts, nc) { assert IsTypeOf(t, catalog[names[n]], nc); }
      }
    }
  }

  lemma {:induction false} TypesAreListed(catalog: map<string, MachineType>, names: seq<string>, nc: NodeClass,
                                          x: string, n: nat) returns (t: Static)
    requires (forall y | y in names :: y in catalog) && x in names && Complete(catalog[x])
    requires var mt := catalog[x]; n in LocalSSD.CountVariants(mt.name, mt.guestCpus.value, mt.bundled)
    ensures t in Listed(catalog, names, nc) && t.ssdCount == n && IsTypeOf(t, catalog[x], nc)
  {
    var k := |names| - 1;
    if names[k] == x {
      t := VariantOf(catalog[x], nc, n);
    } else {
      t := TypesAreListed(catalog, names[..k], nc, x, n);
    }
  }

  lemma VariantOf(mt: MachineType, nc: NodeClass, n: nat) returns (t: Static)
    requires Complete(mt) && n in LocalSSD.CountVariants(mt.name, mt.guestCpus.value, mt.bundled)
    ensures t in TypesOf(mt, nc) && t.ssdCount == n && IsTypeOf(t, mt, nc)
  {
    var counts := LocalSSD.CountVariants(mt.name, mt.guestCpus.value, mt.bundled);
    VariantsAreTypes(mt, counts, nc, counts);
    var i :| 0 <= i < |counts| && counts[i] == n;
    t := Variants(mt, counts, nc)[i];
  }

  /** The list holds only types of complete machine types, with an SSD count they can have. */
  lemma RecomputedAreTypes(catalog: map<string, MachineType>, nc: NodeClass, t: Static)
    requires t in Recomputed(catalog, nc)
    ensures exists x | x in catalog :: Complete(catalog[x]) && IsTypeOf(t, catalog[x], nc)
  {
    NamesAreKeys(catalog);
    ListedAreTypes(catalog, InOrder(catalog.Keys), nc, t);
  }

  /** And it holds one for every complete machine type and every SSD count it can have. */
  lemma TypesAreRecomputed(catalog: map<string, MachineType>, nc: NodeClass, x: string, n: nat) returns (t: Static)
    requires x in catalog && Complete(catalog[x])
    requires var mt := catalog[x]; n in LocalSSD.CountVariants(mt.name, mt.guestCpus.value, mt.bundled)
    ensures t in Recomputed(catalog, nc) && t.ssdCount == n && IsTypeOf(t, catalog[x], nc)
  {
    NamesAreKeys(catalog);
    EnumerationMembers(InOrder(catalog.Keys), catalog.Keys);
    t := TypesAreListed(catalog, InOrder(catalog.Keys), nc, x, n);
  }

  // ---------------------------------------------------------------- the key

  /** The hash functions: of the kubelet configuration, of one disk, and of the GPU sharing. */
  datatype Hashes = Hashes(kubelet: string -> nat, disk: Disk -> nat, gpuSharing: string -> nat)

  /** Equal hashes of these two NodeClasses are no accident. */
  ghost predicate NoAccident(h: Hashes, nc: NodeClass, nc': NodeClass) {
    && (h.kubelet(nc.kubelet) == h.kubelet(nc'.kubelet) ==> nc.kubelet == nc'.kubelet)
    && (Digest(h.disk, nc.disks) == Digest(h.disk, nc'.disks) ==> Odd(nc.disks) == Odd(nc'.disks))
    && (h.gpuSharing(nc.gpuSharing) == h.gpuSharing(nc'.gpuSharing) ==> nc.gpuSharing == nc'.gpuSharing)
  }

  function Threads(nc: NodeClass): nat {
    if nc.threadsPerCore.Some? then nc.threadsPerCore.value else 0
  }

  function Dash(a: string, b: string): string {
    a + "-" + b
  }

  datatype Field = Number(n: nat) | Word(text: string)

  function FieldText(f: Field): string {
    match f
    case Number(n) => Digits(n)
    case Word(text) => text
  }

  /** The fields of a key, with dashes between them. */
  function Printed(fields: seq<Field>): string {
    if fields == [] then ""
    else if |fields| == 1 then FieldText(fields[0])
    else Dash(FieldText(fields[0]), Printed(fields[1..]))
  }

  function KeyFields(h: Hashes, seqNum: nat, nc: NodeClass): seq<Field> {
    [Number(seqNum), Number(h.kubelet(nc.kubelet)), Number(Digest(h.disk, nc.disks)), Word(nc.localSsdMode),
     Number(h.gpuSharing(nc.gpuSharing)), Number(Threads(nc))]
  }

  function Key(h: Hashes, seqNum: nat, nc: NodeClass): string {
    Printed(KeyFields(h, seqNum, nc))
  }

  lemma FirstDash(a: string, b: string, a': string, b': string)
    requires '-' !in a && '-' !in a' && Dash(a, b) == Dash(a', b')
    ensures a == a' && b == b'
  {
    var s, s' := Dash(a, b), Dash(a', b');
    assert forall i | 0 <= i < |a| :: s[i] == a[i];
    assert forall i | 0 <= i < |a'| :: s'[i] == a'[i];
    assert s[|a|] == '-' && s'[|a'|] == '-';
    assert s[..|a|] == a && s'[..|a'|] == a' && s[|a| + 1..] == b && s'[|a'| + 1..] == b';
  }

  lemma LastDash(a: string, b: string, a': string, b': string)
    requires '-' !in b && '-' !in b' && Dash(a, b) == Dash(a', b')
    ensures a == a' && b == b'
  {
    var s, s' := Dash(a, b), Dash(a', b');
    assert forall i | |a| < i < |s| :: s[i] == b[i - |a| - 1];
    assert forall i | |a'| < i < |s'| :: s'[i] == b'[i - |a'| - 1];
    assert s[|a|] == '-' && s'[|a'|] == '-';
    assert s[..|a|] == a && s'[..|a'|] == a' && s[|a| + 1..] == b && s'[|a'| + 1..] == b';
  }

  /** A number before the first dash is read back, and so is the rest. */
  lemma FirstNumber(n: nat, rest: string, n': nat, rest': string)
    requires Dash(Digits(n), rest) == Dash(Digits(n'), rest')
    ensures n == n' && rest == rest'
  {
    DigitsRoundTrip(n);
    DigitsRoundTrip(n');
    FirstDash(Digits(n), rest, Digits(n'), rest');
  }

  lemma LastNumber(front: string, n: nat, front': string, n': nat)
    requires Dash(front, Digits(n)) == Dash(front', Digits(n'))
    ensures front == front' && n == n'
  {
    DigitsRoundTrip(n);
    DigitsRoundTrip(n');
    LastDash(front, Digits(n), front', Digits(n'));
  }

  function Numbers(ns: seq<nat>): seq<Field> {
    if ns == [] then [] else [Number(ns[0])] + Numbers(ns[1..])
  }

  lemma PrintedFront(f: Field, fields: seq<Field>)
    requires fields != []
    ensures Printed([f] + fields) == Dash(FieldText(f), Printed(fields))
  {
    assert ([f] + fields)[1..] == fields;
  }

  lemma PrintedThree(mode: string, d: nat, e: nat)
    ensures Printed([Word(mode), Number(d), Number(e)]) == Dash(Dash(mode, Digits(d)), Digits(e))
  {
    PrintedFront(Word(mode), [Number(d), Number(e)]);
    PrintedFront(Number(d), [Number(e)]);
    assert [Word(mode)] + [Number(d), Number(e)] == [Word(mode), Number(d), Number(e)];
    assert [Number(d)] + [Number(e)] == [Number(d), Number(e)];
  }

  /** The fields are told apart whatever the mode is: numbers from the front, and two from the end. */
  lemma {:induction false} FieldsApart(front: seq<nat>, mode: string, d: nat, e: nat,
                                       front': seq<nat>, mode': string, d': nat, e': nat)
    requires |front| == |front'|
    requires Printed(Numbers(front) + [Word(mode), Number(d), Number(e)])
             == Printed(Numbers(front') + [Word(mode'), Number(d'), Number(e')])
    ensures front == front' && mode == mode' && d == d' && e == e'
  {
    var end, end' := [Word(mode), Number(d), Number(e)], [Word(mode'), Number(d'), Number(e')];
    if front == [] {
      assert Numbers(front) + end == end && Numbers(front') + end' == end';
      PrintedThree(mode, d, e);
      PrintedThree(mode', d', e');
      LastNumber(Dash(mode, Digits(d)), e, Dash(mode', Digits(d')), e');
      LastNumber(mode, d, mode', d');
    } else {
      var rest, rest' := Numbers(front[1..]) + end, Numbers(front'[1..]) + end';
      assert Numbers(front) + end == [Number(front[0])] + rest && Numbers(front') + end' == [Number(front'[0])] + rest';
      PrintedFront(Number(front[0]), rest);
      PrintedFront(Number(front'[0]), rest');
      FirstNumber(front[0], Printed(rest), front'[0], Printed(rest'));
      FieldsApart(front[1..], mode, d, e, front'[1..], mode', d', e');
    }
  }

  /**
   What two NodeClasses with the same key share: all but their disks, and of those the ones that occur oddly often.
   */
  predicate Alike(nc: NodeClass, nc': NodeClass) {
    && nc.kubelet == nc'.kubelet && Odd(nc.disks) == Odd(nc'.disks) && nc.localSsdMode == nc'.localSsdMode
    && nc.gpuSharing == nc'.gpuSharing && Threads(nc) == Threads(nc')
  }

  function Front(h: Hashes, seqNum: nat, nc: NodeClass): seq<nat> {
    [seqNum, h.kubelet(nc.kubelet), Digest(h.disk, nc.disks)]
  }

  lemma KeyFieldsOf(h: Hashes, seqNum: nat, nc: NodeClass)
    ensures KeyFields(h, seqNum, nc) ==
            Numbers(Front(h, seqNum, nc))
            + [Word(nc.localSsdMode), Number(h.gpuSharing(nc.gpuSharing)), Number(Threads(nc))]
  {
    var front := Front(h, seqNum, nc);
    assert front[1..] == [front[1], front[2]] && front[1..][1..] == [front[2]];
    assert Numbers([front[2]]) == [Number(front[2])] by { assert [front[2]][1..] == []; }
    assert Numbers([front[1], front[2]]) == [Number(front[1]), Number(front[2])];
  }

  /** NodeClasses that are alike share a key, whatever the hashes; and barring accidents, only they do. */
  lemma KeyIdentifies(h: Hashes, seqNum: nat, nc: NodeClass, nc': NodeClass)
    ensures Alike(nc, nc') ==> Key(h, seqNum, nc) == Key(h, seqNum, nc')
    ensures NoAccident(h, nc, nc') && Key(h, seqNum, nc) == Key(h, seqNum, nc') ==> Alike(nc, nc')
  {
    if Alike(nc, nc') {
      DigestSeesOddOnly(h.disk, nc.disks, nc'.disks);
    } else if Key(h, seqNum, nc) == Key(h, seqNum, nc') {
      KeyFieldsOf(h, seqNum, nc);
      KeyFieldsOf(h, seqNum, nc');
      var front, front' := Front(h, seqNum, nc), Front(h, seqNum, nc');
      FieldsApart(front, nc.localSsdMode, h.gpuSharing(nc.gpuSharing), Threads(nc),
                  front', nc'.localSsdMode, h.gpuSharing(nc'.gpuSharing), Threads(nc'));
      assert front[1] == front'[1] && front[2] == front'[2];
    }
  }

  // ---------------------------------------------------------------- what the key leaves out

  /** All boot disks with a size have the same size. */
  ghost predicate OneBootSize(disks: seq<Disk>) {
    forall d, e | d in disks && e in disks && SizedBoot(d) && SizedBoot(e) :: d.sizeGiB == e.sizeGiB
  }

  /** No boot disk with a size is listed twice. */
  ghost predicate Once(disks: seq<Disk>) {
    forall d | d in disks && SizedBoot(d) :: multiset(disks)[d] == 1
  }

  lemma {:induction false} BootIsAmong(disks: seq<Disk>)
    ensures (exists d | d in disks :: SizedBoot(d) && d.sizeGiB == BootGiB(disks))
            || (BootGiB(disks) == DEFAULT_BOOT_GIB && forall d | d in disks :: !SizedBoot(d))
  {
    if disks != [] && !SizedBoot(disks[0]) {
      BootIsAmong(disks[1..]);
      assert disks == [disks[0]] + disks[1..];
    }
  }

  /** Alike lists that repeat no sized boot disk have the same sized boot disks. */
  lemma SameBootDisks(disks: seq<Disk>, disks': seq<Disk>, d: Disk)
    requires Odd(disks) == Odd(disks') && Once(disks) && Once(disks') && SizedBoot(d)
    ensures d in disks <==> d in disks'
  {
    assert d in Odd(disks) <==> d in disks;
    assert d in Odd(disks') <==> d in disks';
  }

  lemma SameBootSize(disks: seq<Disk>, disks': seq<Disk>)
    requires Odd(disks) == Odd(disks') && Once(disks) && Once(disks') && OneBootSize(disks)
    ensures BootGiB(disks) == BootGiB(disks')
  {
    BootIsAmong(disks);
    BootIsAmong(disks');
    forall d | SizedBoot(d)
      ensures d in disks <==> d in disks'
    {
      SameBootDisks(disks, disks', d);
    }
  }

  /** A disk listed twice has no part in the key, but leads the list: no key fixes the boot size of all lists. */
  lemma RepeatedDiskIsOverlooked(nc: NodeClass, d: Disk)
    requires SizedBoot(d)
    ensures var nc' := nc.(disks := [d, d] + nc.disks); Alike(nc, nc') && BootGiB(nc'.disks) == d.sizeGiB
  {
    var disks' := [d, d] + nc.disks;
    assert multiset(disks') == multiset{d, d} + multiset(nc.disks);
    forall e
      ensures e in Odd(disks') <==> e in Odd(nc.disks)
    {
      assert multiset(disks')[e] == multiset{d, d}[e] + multiset(nc.disks)[e];
    }
  }

  /** The NodeClass with one disk brought to the front. */
  function Led(nc: NodeClass, i: nat): NodeClass
    requires i < |nc.disks|
  {
    nc.(disks := [nc.disks[i]] + (nc.disks[..i] + nc.disks[i + 1..]))
  }

  /** Bringing one sized boot disk to the front makes its size the boot size, and the key does not see it. */
  lemma AnyBootSizeCanLead(nc: NodeClass, i: nat)
    requires i < |nc.disks| && SizedBoot(nc.disks[i]) && Once(nc.disks)
    ensures Alike(nc, Led(nc, i)) && Once(Led(nc, i).disks) && BootGiB(Led(nc, i).disks) == nc.disks[i].sizeGiB
  {
    var a, a' := nc.disks, Led(nc, i).disks;
    assert a == a[..i] + [a[i]] + a[i + 1..];
    assert multiset(a') == multiset(a);
    assert forall d :: d in a' <==> d in multiset(a');
    assert forall d :: d in a <==> d in multiset(a);
    assert Odd(a') == Odd(a);
  }

  lemma OtherSize(disks: seq<Disk>) returns (i: nat)
    requires !OneBootSize(disks)
    ensures i < |disks| && SizedBoot(disks[i]) && disks[i].sizeGiB != BootGiB(disks)
  {
    var d, e :| d in disks && e in disks && SizedBoot(d) && SizedBoot(e) && d.sizeGiB != e.sizeGiB;
    var other := if d.sizeGiB != BootGiB(disks) then d else e;
    i :| 0 <= i < |disks| && disks[i] == other;
  }

  lemma AnotherSizeCanLead(nc: NodeClass) returns (nc': NodeClass)
    requires Once(nc.disks) && !OneBootSize(nc.disks)
    ensures Alike(nc, nc') && Once(nc'.disks) && BootGiB(nc'.disks) != BootGiB(nc.disks)
  {
    var i := OtherSize(nc.disks);
    AnyBootSizeCanLead(nc, i);
    nc' := Led(nc, i);
  }

  /**
   Among NodeClasses that repeat no sized boot disk, a key fixes the boot size exactly when those disks have one size.
   */
  lemma KeyFixesBootSizeIffOne(nc: NodeClass)
    requires Once(nc.disks)
    ensures OneBootSize(nc.disks) <==>
            forall nc' | Alike(nc, nc') && Once(nc'.disks) :: BootGiB(nc'.disks) == BootGiB(nc.disks)
  {
    if OneBootSize(nc.disks) {
      forall nc' | Alike(nc, nc') && Once(nc'.disks)
        ensures BootGiB(nc'.disks) == BootGiB(nc.disks)
      {
        SameBootSize(nc.disks, nc'.disks);
      }
    } else {
      var nc' := AnotherSizeCanLead(nc);
    }
  }

  /** Without that restriction none does, whatever the hashes: a repeated disk of another size can always lead. */
  lemma NoKeyFixesBootSize(h: Hashes, seqNum: nat, nc: NodeClass)
    ensures exists nc' :: Key(h, seqNum, nc') == Key(h, seqNum, nc) && BootGiB(nc'.disks) != BootGiB(nc.disks)
  {
    var d := Disk(true, if BootGiB(nc.disks) == 1 then 2 else 1, "");
    RepeatedDiskIsOverlooked(nc, d);
    KeyIdentifies(h, seqNum, nc, nc.(disks := [d, d] + nc.disks));
  }

  lemma {:induction false} SameVariants(mt: MachineType, counts: seq<nat>, nc: NodeClass, nc': NodeClass)
    requires mt.guestCpus.Some? && Alike(nc, nc') && BootGiB(nc.disks) == BootGiB(nc'.disks)
    ensures Variants(mt, counts, nc) == Variants(mt, counts, nc')
  {
    if counts != [] { SameVariants(mt, counts[..|counts| - 1], nc, nc'); }
  }

  lemma {:induction false} SameListed(catalog: map<string, MachineType>, names: seq<string>, nc: NodeClass,
                                      nc': NodeClass)
    requires forall x | x in names :: x in catalog
    requires Alike(nc, nc') && BootGiB(nc.disks) == BootGiB(nc'.disks)
    ensures Listed(catalog, names, nc) == Listed(catalog, names, nc')
  {
    if names != [] {
      var n := |names| - 1;
      SameListed(catalog, names[..n], nc, nc');
      var mt := catalog[names[n]];
      if mt.guestCpus.Some? {
        SameVariants(mt, LocalSSD.CountVariants(mt.name, mt.guestCpus.value, mt.bundled), nc, nc');
      }
    }
  }

  lemma Agree(nc: NodeClass, nc': NodeClass)
    requires Alike(nc, nc')
    ensures Once(nc.disks) && Once(nc'.disks) && OneBootSize(nc.disks) ==> BootGiB(nc.disks) == BootGiB(nc'.disks)
  {
    if Once(nc.disks) && Once(nc'.disks) && OneBootSize(nc.disks) { SameBootSize(nc.disks, nc'.disks); }
  }

  lemma SameRecomputed(catalog: map<string, MachineType>, nc: NodeClass, nc': NodeClass)
    requires Alike(nc, nc') && BootGiB(nc.disks) == BootGiB(nc'.disks)
    ensures Recomputed(catalog, nc) == Recomputed(catalog, nc')
  {
    NamesAreKeys(catalog);
    SameListed(catalog, InOrder(catalog.Keys), nc, nc');
  }

  // ---------------------------------------------------------------- the provider

  /** The first boot disk with a size has it, and without one the size is the default. */
  method BootDiskGiB(disks: seq<Disk>) returns (gib: int)
    ensures gib == BootGiB(disks)
    ensures forall i | 0 <= i < |disks| && disks[i].boot && disks[i].sizeGiB > 0
                       && (forall j | 0 <= j < i :: !disks[j].boot || disks[j].sizeGiB <= 0) ::
              gib == disks[i].sizeGiB
    ensures (forall i | 0 <= i < |disks| :: !disks[i].boot || disks[i].sizeGiB <= 0) ==> gib == 100
  {
    assert disks[0..] == disks;
    for i := 0 to |disks|
      invariant BootGiB(disks[i..]) == BootGiB(disks)
      invariant forall j | 0 <= j < i :: !disks[j].boot || disks[j].sizeGiB <= 0
    {
      if SizedBoot(disks[i]) { return disks[i].sizeGiB; }
      assert disks[i..][1..] == disks[i + 1..];
    }
    return DEFAULT_BOOT_GIB;
  }

  method ComputeVariants(mt: MachineType, counts: seq<nat>, nc: NodeClass, boot: int) returns (variants: seq<Static>)
    requires mt.guestCpus.Some? && boot == BootGiB(nc.disks)
    ensures variants == Variants(mt, counts, nc)
  {
    variants := [];
    for j := 0 to |counts|
      invariant variants == Variants(mt, counts[..j], nc)
    {
      assert counts[..j + 1][..j] == counts[..j];
      variants := variants + [Static(mt, counts[j], LocalSSD.TotalGiB(mt.name, counts[j]), boot,
                                     VisibleCPUs(mt.guestCpus.value, nc.threadsPerCore), nc.kubelet, nc.localSsdMode,
                                     nc.gpuSharing)];
    }
    assert counts[..|counts|] == counts;
  }

  method ComputeListed(catalog: map<string, MachineType>, names: seq<string>, nc: NodeClass)
    returns (types: seq<Static>)
    requires forall x | x in names :: x in catalog
    ensures types == Listed(catalog, names, nc)
  {
    types := [];
    var boot := BootDiskGiB(nc.disks);
    for i := 0 to |names|
      invariant types == Listed(catalog, names[..i], nc)
    {
      assert names[..i + 1][..i] == names[..i];
      var mt := catalog[names[i]];
      if mt.name != "" && mt.memoryMb.Some? && mt.guestCpus.Some? {
        var variants := ComputeVariants(mt, LocalSSD.CountVariants(mt.name, mt.guestCpus.value, mt.bundled), nc, boot);
        types := types + variants;
      }
    }
    assert names[..|names|] == names;
  }

  method Compute(catalog: map<string, MachineType>, nc: NodeClass) returns (types: seq<Static>)
    ensures types == Recomputed(catalog, nc)
  {
    var names := SortedKeys(catalog.Keys);
    NamesAreKeys(catalog);
    types := ComputeListed(catalog, names, nc);
  }

  /** Every entry was computed from the catalog, for a NodeClass with its key. */
  ghost predicate Current(h: Hashes, seqNum: nat, catalog: map<string, MachineType>, cache: map<string, seq<Static>>,
                          filedFor: map<string, NodeClass>) {
    && filedFor.Keys == cache.Keys
    && forall key | key in filedFor ::
         Key(h, seqNum, filedFor[key]) == key && cache[key] == Recomputed(catalog, filedFor[key])
  }

  /**
   A list computed for nc' is served to nc: they are alike, and it is what recomputing would give nc if their boot
   sizes are equal; so in particular if neither repeats a sized boot disk and nc has one boot size.
   */
  ghost predicate Serves(catalog: map<string, MachineType>, types: seq<Static>, nc': NodeClass, nc: NodeClass) {
    && Alike(nc, nc') && types == Recomputed(catalog, nc')
    && (BootGiB(nc.disks) == BootGiB(nc'.disks) ==> types == Recomputed(catalog, nc))
    && (Once(nc.disks) && Once(nc'.disks) && OneBootSize(nc.disks) ==> types == Recomputed(catalog, nc))
  }

  lemma HitServes(h: Hashes, seqNum: nat, catalog: map<string, MachineType>, cache: map<string, seq<Static>>,
                  filedFor: map<string, NodeClass>, nc: NodeClass, key: string)
    requires Current(h, seqNum, catalog, cache, filedFor) && key == Key(h, seqNum, nc) && key in cache
    requires NoAccident(h, nc, filedFor[key])
    ensures Serves(catalog, cache[key], filedFor[key], nc)
    ensures cache == cache[key := cache[key]]
  {
    var nc' := filedFor[key];
    KeyIdentifies(h, seqNum, nc, nc');
    Agree(nc, nc');
    if BootGiB(nc.disks) == BootGiB(nc'.disks) { SameRecomputed(catalog, nc, nc'); }
  }

  /** No NodeClass an entry was computed for repeats a sized boot disk. */
  ghost predicate NoneRepeats(filedFor: map<string, NodeClass>) {
    forall key | key in filedFor :: Once(filedFor[key].disks)
  }

  lemma FileOne(h: Hashes, seqNum: nat, catalog: map<string, MachineType>, cache: map<string, seq<Static>>,
                filedFor: map<string, NodeClass>, nc: NodeClass, key: string, types: seq<Static>)
    requires Current(h, seqNum, catalog, cache, filedFor)
    requires key == Key(h, seqNum, nc) && types == Recomputed(catalog, nc)
    ensures Current(h, seqNum, catalog, cache[key := types], filedFor[key := nc])
    ensures Serves(catalog, types, nc, nc)
    ensures NoneRepeats(filedFor) && Once(nc.disks) ==> NoneRepeats(filedFor[key := nc])
  {
  }

  class Provider {
    const hashes: Hashes
    var instanceTypesByName: map<string, MachineType>
    var instanceTypesSeqNum: nat
    var staticInstanceTypesCache: map<string, seq<Static>>
    ghost var filedFor: map<string, NodeClass>          // the NodeClass each entry was computed for

    ghost predicate Valid()
      reads this
    {
      Current(hashes, instanceTypesSeqNum, instanceTypesByName, staticInstanceTypesCache, filedFor)
    }

    constructor (hashes: Hashes)
      ensures Valid() && this.hashes == hashes && instanceTypesByName == map[] && staticInstanceTypesCache == map[]
    {
      this.hashes := hashes;
      instanceTypesByName, instanceTypesSeqNum, staticInstanceTypesCache, filedFor := map[], 0, map[], map[];
    }

    /** A new catalog; the change monitor never misses a change, but may report one where there is none. */
    method UpdateInstanceTypes(byName: map<string, MachineType>, changed: bool)
      requires Valid() && (byName != instanceTypesByName ==> changed)
      modifies this
      ensures Valid() && instanceTypesByName == byName
      ensures changed ==> instanceTypesSeqNum == old(instanceTypesSeqNum) + 1 && staticInstanceTypesCache == map[]
      ensures !changed ==> unchanged(this)
    {
      if changed {
        instanceTypesSeqNum := instanceTypesSeqNum + 1;
        staticInstanceTypesCache, filedFor := map[], map[];
      }
      instanceTypesByName := byName;
    }

    /** An entry's lifetime ends. */
    method Expire(key: string)
      requires Valid()
      modifies `staticInstanceTypesCache, `filedFor
      ensures Valid() && staticInstanceTypesCache == old(staticInstanceTypesCache) - {key}
    {
      staticInstanceTypesCache, filedFor := staticInstanceTypesCache - {key}, filedFor - {key};
    }

    /** The list computed for this key before, or now. */
    method GetStaticInstanceTypes(nc: NodeClass) returns (types: seq<Static>)
      requires Valid()
      requires var key := Key(hashes, instanceTypesSeqNum, nc);
               key in filedFor ==> NoAccident(hashes, nc, filedFor[key])
      modifies `staticInstanceTypesCache, `filedFor
      ensures Valid()
      ensures var key := Key(hashes, instanceTypesSeqNum, nc);
              && filedFor == (if key in old(filedFor) then old(filedFor) else old(filedFor)[key := nc])
              && staticInstanceTypesCache == old(staticInstanceTypesCache)[key := types]
              && Serves(instanceTypesByName, types, filedFor[key], nc)
      ensures old(NoneRepeats(filedFor)) && Once(nc.disks) ==> NoneRepeats(filedFor)
    {
      var key := Key(hashes, instanceTypesSeqNum, nc);
      if key in staticInstanceTypesCache {
        types := staticInstanceTypesCache[key];
        HitServes(hashes, instanceTypesSeqNum, instanceTypesByName, staticInstanceTypesCache, filedFor, nc, key);
      } else {
        types := Compute(instanceTypesByName, nc);
        FileOne(hashes, instanceTypesSeqNum, instanceTypesByName, staticInstanceTypesCache, filedFor, nc, key, types);
        staticInstanceTypesCache, filedFor := staticInstanceTypesCache[key := types], filedFor[key := nc];
      }
    }
  }
}
