/** The geometry of a large FAT32 volume and its first sectors (src/format_fat32.c:134-146 and
    307-464). */
module Fat32 {
  import opened Arithmetic

  const NUM_FATS: nat := 2
  const FIRST_RESERVED: nat := 32

  /** GetFATSizeSectors */
  function FatSizeSectors(total: nat, reserved: nat, perCluster: nat, fats: nat, sector: nat): nat
    requires reserved <= total && fats > 0
  {
    (total - reserved + 2 * perCluster) / Denominator(perCluster, sector, fats) + 1
  }

  function Denominator(perCluster: nat, sector: nat, fats: nat): (r: nat)
    requires fats > 0
    ensures r > 0
  {
    assert perCluster * sector >= 0;
    perCluster * sector / 4 + fats
  }

  /** What FormatLargeFAT32 computes from the size of the volume, in sectors. */
  datatype Geometry = Geometry(fat: nat, reserved: nat, system: nat, clusters: nat)

  /** The volumes it is meant for. */
  predicate Suitable(total: nat, perCluster: nat, sector: nat)
  {
    65536 <= total < 0xFFFF_FFFF && 1 <= perCluster <= 128 && sector >= 512 && Whole(MB, sector)
  }

  /** The number of entries in a sector of the table. */
  function Entries(sector: nat): nat
  {
    sector / 4
  }

  lemma SectorIs(sector: nat)
    requires sector >= 512 && Whole(MB, sector)
    ensures sector == 4 * Entries(sector) && Entries(sector) >= 128 && sector <= MB
    ensures 1 <= MB / sector <= 2048 && MB == sector * (MB / sector)
  {
    assert Pow2(20) == MB by { PowersHere(); }
    var j := DivisorOfPow2(sector, 20);
    assert Pow2(0) == 1 && Pow2(1) == 2;
    Pow2Divides(2, j);
    assert Pow2(2) == 4;
    assert sector == 4 * (sector / 4);
    var q := MB / sector;
    assert MB == sector * q;
    if q > 2048 { OrderedTimes(512, sector, q); }
  }

  /** The sizing loop-free bounds: the table is small, and has room for one sector too many. */
  lemma FatBounds(total: nat, perCluster: nat, sector: nat, d: nat, f: nat)
    requires Suitable(total, perCluster, sector)
    requires d == perCluster * Entries(sector) + 2 && f == (total + 2 * perCluster) / d + 1
    ensures f * d > total + 2 * perCluster && f <= total / 130 + 2 && d >= 130
  {
    hide Whole, Entries;
    SectorIs(sector);
    assert d >= 130 && d >= 2 * perCluster by {
      OrderedTimes(128, Entries(sector), perCluster);
      assert Entries(sector) * perCluster == perCluster * Entries(sector);
    }
    Quotient(total + 2 * perCluster, d, f - 1);
    Bounded(total, 2 * perCluster, d, f - 1);
  }

  lemma Quotient(n: nat, d: nat, q: nat)
    requires d > 0 && q == n / d
    ensures q * d <= n < (q + 1) * d && (q + 1) * d == q * d + d
  {
    assert n == d * q + n % d;
  }

  lemma Bounded(total: nat, extra: nat, d: nat, q: nat)
    requires d >= 130 && extra <= d && q * d <= total + extra
    ensures q <= total / 130 + 1
  {
    if q > 0 {
      assert (q - 1) * d == q * d - d;
      OrderedTimes(130, d, q - 1);
      assert (q - 1) * d == d * (q - 1) && 130 * (q - 1) <= total;
    }
  }

  /** The table is large enough for the clusters that are left. */
  lemma Enough(total: nat, perCluster: nat, entries: nat, f: nat, user: nat, clusters: nat)
    requires perCluster > 0 && f * (perCluster * entries + 2) > total + 2 * perCluster
    requires user + 2 * f + FIRST_RESERVED <= total && clusters == user / perCluster
    ensures clusters + 2 < f * entries
  {
    assert f * (perCluster * entries + 2) == perCluster * (f * entries) + 2 * f by { Spread(f, perCluster, entries); }
    Quotient(user, perCluster, clusters);
    var a, b := f * entries, clusters + 2;
    assert (clusters + 2) * perCluster == clusters * perCluster + 2 * perCluster;
    assert a * perCluster == perCluster * a;
    if a <= b { OrderedTimes(a, b, perCluster); }
  }

  lemma Spread(f: nat, p: nat, e: nat)
    ensures f * (p * e + 2) == p * (f * e) + 2 * f
  {
    Distribute(f, p, e, 2);
    assert (f * p) * e == p * (f * e) by { Rotate(f, p, e); }
  }

  lemma Rotate(f: nat, p: nat, e: nat)
    ensures (f * p) * e == p * (f * e)
  {
    assert f * p == p * f;
    assert (p * f) * e == p * (f * e);
  }

  /** The geometry, as the code computes it: the table is sized while the reserved count is still 0. */
  function ComputeGeometry(total: nat, perCluster: nat, sector: nat): (g: Geometry)
    requires Suitable(total, perCluster, sector)
  {
    Layout(total, perCluster, FatSizeSectors(total, 0, perCluster, NUM_FATS, sector), AlignSectors(sector))
  }

  /** The reserved count is raised so that the data area is aligned. */
  function Layout(total: nat, perCluster: nat, fat: nat, align: nat): (g: Geometry)
    requires perCluster > 0 && align > 0
  {
    Areas(total, perCluster, fat, AlignUp(FIRST_RESERVED + NUM_FATS * fat, align))
  }

  function Areas(total: nat, perCluster: nat, fat: nat, system: nat): (g: Geometry)
    requires perCluster > 0 && NUM_FATS * fat <= system
  {
    Geometry(fat, system - NUM_FATS * fat, system, if system <= total then (total - system) / perCluster else 0)
  }

  /** The sectors of a megabyte. */
  function AlignSectors(sector: nat): (r: nat)
    requires sector >= 512 && Whole(MB, sector)
    ensures 1 <= r <= 2048
  {
    SectorIs(sector);
    MB / sector
  }

  function AlignUp(n: nat, unit: nat): (r: nat)
    requires unit > 0
    ensures n <= r < n + unit
  {
    RoundUpIs(n, unit);
    RoundUp(n, unit)
  }

  lemma Exactly(perCluster: nat, sector: nat)
    requires sector == 4 * Entries(sector)
    ensures Denominator(perCluster, sector, NUM_FATS) == perCluster * Entries(sector) + 2
  {
    assert perCluster * (4 * Entries(sector)) == 4 * (perCluster * Entries(sector));
  }

  /** A table of `fat` sectors has an entry for every cluster that the rest of the volume can have, for the
      two reserved ones, and one more. */
  predicate Covers(total: nat, perCluster: nat, sector: nat, fat: nat)
    requires perCluster > 0
  {
    NUM_FATS * fat <= total && (total - NUM_FATS * fat) / perCluster + 2 < fat * Entries(sector)
  }

  lemma CoversIs(total: nat, perCluster: nat, sector: nat, fat: nat)
    requires perCluster > 0 && NUM_FATS * fat <= total
    ensures Covers(total, perCluster, sector, fat) <==>
              fat * (perCluster * Entries(sector) + 2) > total + 2 * perCluster
  {
    hide Entries;
    var e, rest := fat * Entries(sector), total - 2 * fat;
    Spread(fat, perCluster, Entries(sector));
    Quotient(rest, perCluster, rest / perCluster);
    var k := rest / perCluster + 2;
    assert k * perCluster == rest / perCluster * perCluster + 2 * perCluster;
    assert e * perCluster == perCluster * e;
    if k < e {
      OrderedTimes(k + 1, e, perCluster);
      assert (k + 1) * perCluster == k * perCluster + perCluster;
    } else {
      OrderedTimes(e, k, perCluster);
    }
  }

  /** The table is the smallest that is large enough. */
  lemma FatLeast(total: nat, perCluster: nat, sector: nat, fat: nat)
    requires Suitable(total, perCluster, sector) && fat == FatSizeSectors(total, 0, perCluster, NUM_FATS, sector)
    ensures Covers(total, perCluster, sector, fat) && forall h: nat | h < fat :: !Covers(total, perCluster, sector, h)
  {
    hide Whole, Entries, Denominator, Covers;
    SectorIs(sector);
    Exactly(perCluster, sector);
    var d := perCluster * Entries(sector) + 2;
    FatBounds(total, perCluster, sector, d, fat);
    Quotient(total + 2 * perCluster, d, fat - 1);
    CoversIs(total, perCluster, sector, fat);
    forall h: nat | h < fat ensures !Covers(total, perCluster, sector, h) {
      OrderedTimes(h, fat - 1, d);
      CoversIs(total, perCluster, sector, h);
    }
  }

  /** The sizing is sound: the table holds an entry for every cluster and the two reserved ones, and no
      smaller one would be sure to; the reserved sectors are at least 32 and fit in 16 bits, the data area
      starts on a megabyte, and the system area is a small part of the volume. */
  lemma GeometrySound(total: nat, perCluster: nat, sector: nat)
    requires Suitable(total, perCluster, sector)
    ensures
      var g := ComputeGeometry(total, perCluster, sector);
      && g.clusters + 2 <= g.fat * Entries(sector) && Covers(total, perCluster, sector, g.fat)
      && (forall h: nat | h < g.fat :: !Covers(total, perCluster, sector, h))
      && FIRST_RESERVED <= g.reserved < 0x1_0000 && g.system == g.reserved + NUM_FATS * g.fat
      && Whole(g.system * sector, MB)
      && g.system + 4096 <= total && g.clusters == (total - g.system) / perCluster
      && 0 < g.fat < 0x1_0000_0000
  {
    hide Whole, RoundUp, Entries, Denominator, Covers;
    SectorIs(sector);
    Exactly(perCluster, sector);
    var g := ComputeGeometry(total, perCluster, sector);
    FatLeast(total, perCluster, sector, g.fat);
    var align := AlignSectors(sector);
    RoundUpIs(FIRST_RESERVED + NUM_FATS * g.fat, align);
    FatBounds(total, perCluster, sector, perCluster * Entries(sector) + 2, g.fat);
    assert g.system + 4096 <= total;
    Enough(total, perCluster, Entries(sector), g.fat, total - g.system, g.clusters);
    Megabytes(g.system, align, sector);
  }

  lemma Megabytes(system: nat, align: nat, sector: nat)
    requires align > 0 && Whole(system, align) && MB == sector * align
    ensures Whole(system * sector, MB)
  {
    var k := system / align;
    assert system == align * k;
    assert (align * k) * sector == MB * k by { Rotate(align, k, sector); assert k * (align * sector) == k * MB; }
    ModUnique(system * sector, MB, k, 0);
  }

  /** The last check before the volume is written, that the table is not too small, never fails. */
  lemma FatNeverShort(total: nat, perCluster: nat, sector: nat)
    requires Suitable(total, perCluster, sector)
    ensures
      var g := ComputeGeometry(total, perCluster, sector);
      (4 * g.clusters + sector - 1) / sector <= g.fat
  {
    hide Whole, ComputeGeometry, Entries;
    SectorIs(sector);
    GeometrySound(total, perCluster, sector);
    var g := ComputeGeometry(total, perCluster, sector);
    NeededFits(g.clusters, g.fat, Entries(sector), sector, (4 * g.clusters + sector - 1) / sector);
  }

  lemma NeededFits(clusters: nat, fat: nat, entries: nat, sector: nat, needed: nat)
    requires sector > 0 && sector == 4 * entries && clusters + 2 <= fat * entries
    requires needed == (4 * clusters + sector - 1) / sector
    ensures needed <= fat
  {
    Quotient(4 * clusters + sector - 1, sector, needed);
    assert fat * sector == 4 * (fat * entries);
    assert (fat + 1) * sector == fat * sector + sector;
    if needed > fat { OrderedTimes(fat + 1, needed, sector); }
  }

  // ----- The first sectors -----

  /** A sector, as 32-bit words. */
  type Sector = seq<nat>

  const BURST: nat := 128
  const BACKUP: nat := 6
  /** Where the FSInfo sector holds the number of free clusters and the next free one, in words. */
  const FREE_COUNT: nat := 122
  const NEXT_FREE: nat := 123

  function Blank(n: nat): (r: Sector)
    ensures |r| == n && forall k :: 0 <= k < n ==> r[k] == 0
  {
    seq(n, _ => 0)
  }

  /** The first sector of a table: two reserved entries and the root directory. */
  function FirstOfFat(n: nat): (r: Sector)
    requires n >= 128
    ensures |r| == n && r[0] == 0x0FFF_FFF8 && r[1] == 0x0FFF_FFFF && r[2] == 0x0FFF_FFFF
    ensures forall k :: 3 <= k < n ==> r[k] == 0
  {
    Blank(n)[0 := 0x0FFF_FFF8][1 := 0x0FFF_FFFF][2 := 0x0FFF_FFFF]
  }

  function FsInfo(n: nat, free: nat): (r: Sector)
    requires n >= 128
    ensures |r| == n && r[FREE_COUNT] == free && r[NEXT_FREE] == 3
  {
    Blank(n)[0 := 0x4161_5252][121 := 0x6141_7272][FREE_COUNT := free][NEXT_FREE := 3][127 := 0xAA55_0000]
  }

  /** Entry `e` of the table that starts at sector `at`. */
  function EntryOf(disk: seq<Sector>, at: nat, n: nat, e: nat): nat
    requires n > 0 && at + e / n < |disk| && |disk[at + e / n]| == n
  {
    disk[at + e / n][e % n]
  }

  /** The table at `at` is initial: its first sector, then zeros. */
  ghost predicate InitialFat(disk: seq<Sector>, at: nat, fat: nat, n: nat)
    requires n >= 128
  {
    && 0 < fat && at + fat <= |disk| && disk[at] == FirstOfFat(n)
    && forall i :: at < i < at + fat ==> disk[i] == Blank(n)
  }

  lemma InitialEntry(disk: seq<Sector>, at: nat, fat: nat, n: nat, e: nat)
    requires n >= 128 && InitialFat(disk, at, fat, n) && e < fat * n
    ensures at + e / n < |disk| && |disk[at + e / n]| == n && (EntryOf(disk, at, n, e) == 0 <==> e >= 3)
  {
    var i := e / n;
    assert e == n * i + e % n;
    assert i * n == n * i;
    if i >= fat { OrderedTimes(fat, i, n); }
    if i > 0 { OrderedTimes(1, i, n); }
  }

  /** The number of free clusters, the zero entries from 2 up to `hi`. */
  ghost function FreeEntries(disk: seq<Sector>, at: nat, fat: nat, n: nat, hi: nat): nat
    requires n >= 128 && InitialFat(disk, at, fat, n) && hi <= fat * n
  {
    if hi <= 2 then 0
    else
      InitialEntry(disk, at, fat, n, hi - 1);
      FreeEntries(disk, at, fat, n, hi - 1) + if EntryOf(disk, at, n, hi - 1) == 0 then 1 else 0
  }

  lemma {:induction false} FreeEntriesAre(disk: seq<Sector>, at: nat, fat: nat, n: nat, hi: nat)
    requires n >= 128 && InitialFat(disk, at, fat, n) && 2 < hi <= fat * n
    ensures FreeEntries(disk, at, fat, n, hi) == hi - 3
  {
    hide EntryOf, InitialFat;
    InitialEntry(disk, at, fat, n, hi - 1);
    if hi > 3 { FreeEntriesAre(disk, at, fat, n, hi - 1); }
  }

  datatype Verdict = Done | TooSmall | TooBig | BadClusterSize | WriteFault

  /** The volume, and whether a write to it failed or the user cancelled. */
  class Volume {
    const disk: array<Sector>
    var trouble: bool

    constructor (disk: array<Sector>)
      ensures this.disk == disk && !trouble
    {
      this.disk, trouble := disk, false;
    }

    /** write_sectors, always within the volume, which may fail. */
    method WriteSectors(at: nat, count: nat, data: Sector) returns (ok: bool)
      requires at + count <= disk.Length
      modifies this, disk
      ensures !ok ==> trouble
      ensures old(trouble) ==> trouble
      ensures ok ==> trouble == old(trouble)
      ensures ok ==> forall i :: 0 <= i < disk.Length ==> disk[i] == if at <= i < at + count then data else old(disk[i])
    {
      ok := *;
      if !ok { trouble := true; return; }
      for k := at to at + count
        invariant trouble == old(trouble)
        invariant forall i :: 0 <= i < disk.Length ==> disk[i] == if at <= i < k then data else old(disk[i])
      {
        disk[k] := data;
      }
    }

    /** Clear the system area and the root directory, burst by burst. */
    method ClearArea(size: nat, zero: Sector) returns (ok: bool)
      requires size + 2 * BURST <= disk.Length
      modifies this, disk
      ensures !ok ==> trouble
      ensures ok ==> trouble == old(trouble) && forall i :: 0 <= i < size ==> disk[i] == zero
    {
      var i := 0;
      while i < size + BURST - 1
        invariant 0 <= i < size + 2 * BURST && trouble == old(trouble)
        invariant forall k :: 0 <= k < i && k < disk.Length ==> disk[k] == zero
        decreases size + BURST - i
      {
        var cancel: bool := *;
        if cancel { trouble := true; return false; }
        ok := WriteSectors(i, BURST, zero);
        if !ok { return false; }
        i := i + BURST;
      }
      ok := true;
    }

    /** The boot sector and FSInfo, twice, and the first sector of each table. */
    method WriteHeads(reserved: nat, fat: nat, boot: Sector, info: Sector, first: Sector)
      requires reserved >= FIRST_RESERVED && fat > 0 && reserved + fat < disk.Length
      modifies this, disk
      ensures old(trouble) ==> trouble
      ensures !trouble ==> disk[0] == disk[BACKUP] == boot && disk[1] == disk[BACKUP + 1] == info
      ensures !trouble ==> disk[reserved] == disk[reserved + fat] == first
      ensures !trouble ==>
                forall i :: FIRST_RESERVED <= i < disk.Length && i != reserved && i != reserved + fat ==>
                  disk[i] == old(disk[i])
    {
      var a := WriteSectors(0, 1, boot);
      var b := WriteSectors(1, 1, info);
      var c := WriteSectors(BACKUP, 1, boot);
      var d := WriteSectors(BACKUP + 1, 1, info);
      var e := WriteSectors(reserved, 1, first);
      var f := WriteSectors(reserved + fat, 1, first);
    }
  }

  /** FormatLargeFAT32, up to the partition boot record: refused exactly outside the sizes it supports;
      otherwise, when no write fails, the two tables are equal and initial, the boot and FSInfo sectors
      have their backups, the free count is the number of zero entries, and the root directory is
      blank. The code does not look at the results of the last six writes. */
  method Format(volume: Volume, perCluster: nat, sector: nat, boot: Sector) returns (v: Verdict, ghost g: Geometry)
    requires 1 <= perCluster <= 128 && sector >= 512 && Whole(MB, sector) && !volume.trouble
    modifies volume, volume.disk
    ensures v == TooSmall <==> volume.disk.Length < 65536
    ensures v == TooBig <==> volume.disk.Length >= 0xFFFF_FFFF
    ensures v != TooSmall && v != TooBig ==>
              Suitable(volume.disk.Length, perCluster, sector) &&
                g == ComputeGeometry(volume.disk.Length, perCluster, sector)
    ensures v == BadClusterSize <==>
      Suitable(volume.disk.Length, perCluster, sector) && !(65536 <= g.clusters <= 0x0FFF_FFFF)
    ensures v == WriteFault ==> volume.trouble
    ensures v == Done && !volume.trouble ==> Formatted(volume.disk[..], g, perCluster, Entries(sector), boot)
  {
    hide InitialFat, Formatted;
    hide Whole, Entries, RoundUp, ComputeGeometry, Blank, FirstOfFat, FsInfo;
    var total := volume.disk.Length;
    g := Geometry(0, 0, 0, 0);
    if total < 65536 { return TooSmall, g; }
    if total >= 0xFFFF_FFFF { return TooBig, g; }
    SectorIs(sector);
    GeometrySound(total, perCluster, sector);
    var n, geo := Entries(sector), ComputeGeometry(total, perCluster, sector);
    g := geo;
    if geo.clusters > 0x0FFF_FFFF || geo.clusters < 65536 { return BadClusterSize, g; }
    var ok := volume.ClearArea(geo.system + perCluster, Blank(n));
    if !ok { return WriteFault, g; }
    volume.WriteHeads(geo.reserved, geo.fat, boot, FsInfo(n, geo.clusters - 1), FirstOfFat(n));
    v := Done;
    if !volume.trouble { FormatDone(volume.disk[..], g, perCluster, n, boot); }
  }

  /** The first sectors of a formatted volume. */
  ghost predicate Formatted(disk: seq<Sector>, g: Geometry, perCluster: nat, n: nat, boot: Sector)
  {
    && n >= 128 && g.system == g.reserved + NUM_FATS * g.fat && FIRST_RESERVED <= g.reserved
    && g.system + perCluster <= |disk|
    && InitialFat(disk, g.reserved, g.fat, n) && InitialFat(disk, g.reserved + g.fat, g.fat, n)
    && disk[g.reserved..g.reserved + g.fat] == disk[g.reserved + g.fat..g.system]
    && disk[0] == disk[BACKUP] == boot && disk[1] == disk[BACKUP + 1] && |disk[1]| == n
    && g.clusters + 2 <= g.fat * n
    && disk[1][FREE_COUNT] == FreeEntries(disk, g.reserved, g.fat, n, g.clusters + 2)
    && forall i :: g.system <= i < g.system + perCluster ==> disk[i] == Blank(n)
  }

  lemma FormatDone(disk: seq<Sector>, g: Geometry, perCluster: nat, n: nat, boot: Sector)
    requires n >= 128 && g.fat > 0 && g.clusters > 0 && g.clusters + 2 <= g.fat * n
    requires g.system == g.reserved + NUM_FATS * g.fat && FIRST_RESERVED <= g.reserved
    requires g.system + perCluster <= |disk|
    requires disk[0] == disk[BACKUP] == boot && disk[1] == disk[BACKUP + 1] == FsInfo(n, g.clusters - 1)
    requires disk[g.reserved] == disk[g.reserved + g.fat] == FirstOfFat(n)
    requires forall i :: g.reserved < i < g.system + perCluster && i != g.reserved + g.fat ==> disk[i] == Blank(n)
    ensures Formatted(disk, g, perCluster, n, boot)
  {
    hide Blank, FirstOfFat;
    FreeEntriesAre(disk, g.reserved, g.fat, n, g.clusters + 2);
  }
}
