/**
 What GKE reserves of a node's memory, CPU and storage (pkg/utils/utils.go, pkg/providers/instancetype/types.go).
 Products with decimal fractions are exact here, then truncated or rounded as the source does.
 */
module Reservation {
  import LocalSSD

  function Min(a: int, b: int): int {
    if a <= b then a else b
  }

  /** How much of x lies between lo and hi. */
  function Within(x: int, lo: int, hi: int): int
    requires lo <= hi
  {
    if x <= lo then 0 else Min(x, hi) - lo
  }

  // ---------------------------------------------------------------- memory

  const GIB := 1024
  const TINY_MIB := 255

  /** A hundred times the exact reservation: 25%, 20%, 10%, 6% and 2% of the parts below 4, 8, 16, 128 GiB and above. */
  function MemoryRate(m: int): int {
    25 * Within(m, 0, 4 * GIB) + 20 * Within(m, 4 * GIB, 8 * GIB) + 10 * Within(m, 8 * GIB, 16 * GIB)
    + 6 * Within(m, 16 * GIB, 128 * GIB) + 2 * (if m <= 128 * GIB then 0 else m - 128 * GIB)
  }

  /** A share of one part, truncated. */
  function Share(x: int, lo: int, hi: int, percent: int): int
    requires lo <= hi
  {
    Within(x, lo, hi) * percent / 100
  }

  function ReservedMemory(m: int): int {
    if m <= GIB then TINY_MIB
    else
      Share(m, 0, 4 * GIB, 25) + Share(m, 4 * GIB, 8 * GIB, 20) + Share(m, 8 * GIB, 16 * GIB, 10)
      + Share(m, 16 * GIB, 128 * GIB, 6) + (if m <= 128 * GIB then 0 else (m - 128 * GIB) * 2 / 100)
  }

  method ResolveReservedMemoryMiB(memoryMiB: int) returns (memory: int)
    ensures memory == ReservedMemory(memoryMiB)
    ensures memoryMiB <= 1024 ==> memory == 255
  {
    memory := 0;
    var left := memoryMiB;
    if left <= 1024 { return memory + 255; }
    memory := memory + Min(left, 4096) * 25 / 100;
    left := left - 4096;
    if left <= 0 { return; }
    memory := memory + Min(left, 4096) * 20 / 100;
    left := left - 4096;
    if left <= 0 { return; }
    memory := memory + Min(left, 8192) * 10 / 100;
    left := left - 8192;
    if left <= 0 { return; }
    memory := memory + Min(left, 114688) * 6 / 100;
    left := left - 114688;
    if left <= 0 { return; }
    memory := memory + left * 2 / 100;
  }

  lemma {:induction false} ProductGrows(a: int, b: int, n: nat)
    requires a <= b
    ensures a * n <= b * n
  {
    if n > 0 { ProductGrows(a, b, n - 1); }
  }

  lemma PercentGrows(a: int, b: int)
    requires a <= b
    ensures a / 100 <= b / 100
  {
  }

  lemma ShareGrows(x: int, x': int, lo: int, hi: int, percent: nat)
    requires x <= x' && lo <= hi
    ensures Share(x, lo, hi, percent) <= Share(x', lo, hi, percent)
  {
    ProductGrows(Within(x, lo, hi), Within(x', lo, hi), percent);
    PercentGrows(Within(x, lo, hi) * percent, Within(x', lo, hi) * percent);
  }

  lemma MoreOfMoreMemory(m: int, m': int)
    requires m <= m'
    ensures ReservedMemory(m) <= ReservedMemory(m')
  {
    ShareGrows(m, m', 0, 4 * GIB, 25);
    ShareGrows(m, m', 4 * GIB, 8 * GIB, 20);
    ShareGrows(m, m', 8 * GIB, 16 * GIB, 10);
    ShareGrows(m, m', 16 * GIB, 128 * GIB, 6);
    if m <= GIB < m' { ShareGrows(GIB + 1, m', 0, 4 * GIB, 25); }
  }

  lemma AtMostAQuarter(m: int)
    requires m > GIB
    ensures 4 * ReservedMemory(m) <= m
  {
  }

  /** Truncating each part loses less than 1.68 MiB of the exact rate, whatever the size. */
  lemma MemoryIsRateTruncated(m: int)
    requires m > GIB
    ensures 0 <= MemoryRate(m) - 100 * ReservedMemory(m) < 168
  {
  }

  // ---------------------------------------------------------------- CPU

  const SHARED_E2 := {"e2-micro", "e2-small", "e2-medium"}
  const SHARED_MCORE := 1060

  /** Go's conversion of a quotient to an integer. */
  function Truncate(a: int, b: int): int
    requires b > 0
  {
    if a >= 0 then a / b else -(-a / b)
  }

  /** Four hundred times the exact reservation: 6%, 1%, 0.5% and 0.25% of the parts below 1, 2 and 4 cores and above. */
  function CpuRate(c: int): int {
    24 * Within(c, 0, 1000) + 4 * Within(c, 1000, 2000) + 2 * Within(c, 2000, 4000)
      + (if c <= 4000 then 0 else c - 4000)
  }

  /** The shared-core types have a fixed reservation; otherwise it is the exact rate, truncated just once. */
  method ResolveReservedCPUMCore(instanceType: string, cpuMCore: int) returns (cpu: int)
    ensures instanceType in SHARED_E2 ==> cpu == SHARED_MCORE
    ensures instanceType !in SHARED_E2 && cpuMCore >= 0 ==> cpu == CpuRate(cpuMCore) / 400
    ensures instanceType !in SHARED_E2 && cpuMCore < 0 ==> cpu == -(-cpuMCore * 6 / 100)
  {
    if instanceType == "e2-micro" || instanceType == "e2-small" || instanceType == "e2-medium" { return 1060; }
    var left := cpuMCore;
    cpu := Truncate(Min(left, 1000) * 6, 100);
    left := left - 1000;
    if left <= 0 { return; }
    cpu := cpu + Truncate(Min(left, 1000) * 1, 100);
    left := left - 1000;
    if left <= 0 { return; }
    cpu := cpu + Truncate(Min(left, 2000) * 5, 1000);
    left := left - 2000;
    if left <= 0 { return; }
    cpu := cpu + Truncate(left * 25, 10000);
  }

  lemma MoreOfMoreCpu(c: int, c': int)
    requires 0 <= c <= c'
    ensures CpuRate(c) / 400 <= CpuRate(c') / 400 && CpuRate(c) / 400 <= c
  {
  }

  // ---------------------------------------------------------------- ephemeral storage

  /** Go's rounding of a quotient, half away from zero. */
  function Rounded(a: int, b: int): int
    requires b > 0
  {
    if a >= 0 then (2 * a + b) / (2 * b) else -((b - 2 * a) / (2 * b))
  }

  lemma RoundedParts(g: nat)
    ensures Rounded(g * 50, 100) == (g + 1) / 2
    ensures Rounded(g * 35 + 600, 100) == (35 * g + 650) / 100
    ensures Truncate(g * 10, 100) == g / 10
  {
    assert (100 * g + 100) / 200 == (g + 1) / 2;
    assert (2 * (g * 35 + 600) + 100) / 200 == (35 * g + 650) / 100;
    assert g * 10 / 100 == g / 10;
  }

  datatype Storage = Storage(eviction: int, reserved: int)

  function ReservedStorage(bootGiB: int, ssdGiB: int, ssdCount: int): Storage {
    if ssdCount > 0 && ssdGiB > 0
    then Storage(ssdGiB / 10, if ssdCount == 1 then 50 else if ssdCount == 2 then 75 else 100)
    else Storage(bootGiB / 10, Min(Min((bootGiB + 1) / 2, (35 * bootGiB + 650) / 100), 100))
  }

  /** Of the boot disk, as much is reserved as half of it, 35% and 6 GiB, and 100 GiB allow, halves counting as one. */
  lemma BootReservationIsLargest(bootGiB: int, ssdGiB: int, ssdCount: int, n: int)
    requires bootGiB >= 0 && (ssdCount <= 0 || ssdGiB <= 0)
    ensures n <= ReservedStorage(bootGiB, ssdGiB, ssdCount).reserved <==>
            n <= 100 && 2 * n <= bootGiB + 1 && 100 * n <= 35 * bootGiB + 650
    ensures var e := ReservedStorage(bootGiB, ssdGiB, ssdCount).eviction; 10 * e <= bootGiB < 10 * e + 10
  {
  }

  method ResolveReservedEphemeralStorage(bootGiB: int, ssdGiB: int, ssdCount: int) returns (s: Storage)
    ensures bootGiB >= 0 ==> s == ReservedStorage(bootGiB, ssdGiB, ssdCount)
    ensures ssdCount > 0 && ssdGiB > 0 ==> s == ReservedStorage(bootGiB, ssdGiB, ssdCount)
    ensures ssdCount > 0 && ssdGiB > 0 ==> 10 * s.eviction <= ssdGiB < 10 * s.eviction + 10
    ensures ssdCount == 1 && ssdGiB > 0 ==> s.reserved == 50
    ensures ssdCount == 2 && ssdGiB > 0 ==> s.reserved == 75
    ensures ssdCount >= 3 && ssdGiB > 0 ==> s.reserved == 100
  {
    if ssdCount > 0 && ssdGiB > 0 {
      RoundedParts(ssdGiB);
      var reserved := if ssdCount == 1 then 50 else if ssdCount == 2 then 75 else 100;
      return Storage(Truncate(ssdGiB * 10, 100), reserved);
    }
    if bootGiB >= 0 { RoundedParts(bootGiB); }
    var half, third := Rounded(bootGiB * 50, 100), Rounded(bootGiB * 35 + 600, 100);
    return Storage(Truncate(bootGiB * 10, 100), Min(Min(half, third), 100));
  }

  /** The capacity a node advertises: its local SSDs if they back ephemeral storage, else its boot disk. */
  function Capacity(name: string, bootGiB: int, ephemeral: bool, ssdCount: int): int {
    var ssdGiB := if ephemeral then LocalSSD.TotalGiB(name, ssdCount) else 0;
    if ssdGiB == 0 then bootGiB else ssdGiB
  }

  function Reserved(name: string, bootGiB: int, ephemeral: bool, ssdCount: int): Storage {
    if ephemeral then ReservedStorage(bootGiB, LocalSSD.TotalGiB(name, ssdCount), ssdCount)
    else ReservedStorage(bootGiB, 0, 0)
  }

  /**
   The SSDs have a capacity although their count is not positive, and the boot disk is so large that a tenth exceeds
   it.
   */
  predicate Outgrown(name: string, bootGiB: int, ephemeral: bool, ssdCount: int) {
    var ssdGiB := LocalSSD.TotalGiB(name, ssdCount);
    ephemeral && ssdCount <= 0 && ssdGiB > 0 && bootGiB >= 10 * (ssdGiB - 100) + 10
  }

  /** Eviction threshold and reservation together fit the advertised capacity, except in that one case. */
  lemma ReservationFits(name: string, bootGiB: int, ephemeral: bool, ssdCount: int)
    requires bootGiB >= 0
    ensures var s := Reserved(name, bootGiB, ephemeral, ssdCount);
            s.eviction + s.reserved <= Capacity(name, bootGiB, ephemeral, ssdCount)
            <==> !Outgrown(name, bootGiB, ephemeral, ssdCount)
  {
  }
}
