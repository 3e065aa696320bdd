/** Finding a FAT volume on a card and working out its layout. */
module Mount {
  import opened Bytes
  import opened Geometry

  function Pow2(k: nat): (r: nat)
    ensures r >= 1
  {
    if k == 0 then 1 else 2 * Pow2(k - 1)
  }

  /** The fields of the boot block that the library uses. */
  datatype Bpb = Bpb(
    bytesPerSector: nat,
    sectorsPerCluster: nat,
    reservedSectorCount: nat,
    fatCount: nat,
    rootDirEntryCount: nat,
    totalSectors16: nat,
    sectorsPerFat16: nat,
    totalSectors32: nat,
    sectorsPerFat32: nat,
    fat32RootCluster: nat)
  {
    function SectorsPerFat(): nat {
      if sectorsPerFat16 != 0 then sectorsPerFat16 else sectorsPerFat32
    }

    function TotalSectors(): nat {
      if totalSectors16 != 0 then totalSectors16 else totalSectors32
    }

    function RootSectors(): nat {
      (32 * rootDirEntryCount + 511) / 512
    }

    function TableSectors(): nat {
      fatCount * SectorsPerFat()
    }

    /** Blocks before the data area. */
    function Overhead(): nat {
      reservedSectorCount + TableSectors() + RootSectors()
    }

    function Clusters(): nat
      requires Overhead() <= TotalSectors() && sectorsPerCluster > 0
    {
      (TotalSectors() - Overhead()) / sectorsPerCluster
    }
  }

  function BpbOf(boot: Block): Bpb {
    Bpb(Le16(boot, 11), boot[13], Le16(boot, 14), boot[16], Le16(boot, 17), Le16(boot, 19), Le16(boot, 22),
        Le32(boot, 32), Le32(boot, 36), Le32(boot, 44))
  }

  /** A boot block as its fields lie in it, one behind the other, each as its
      bytes: the packed structures of the format. */
  datatype BootSector = BootSector(
    jump: seq<byte>,
    oemName: seq<byte>,
    bytesPerSector: seq<byte>,
    sectorsPerCluster: seq<byte>,
    reservedSectorCount: seq<byte>,
    fatCount: seq<byte>,
    rootDirEntryCount: seq<byte>,
    totalSectors16: seq<byte>,
    mediaType: seq<byte>,
    sectorsPerFat16: seq<byte>,
    sectorsPerTrack: seq<byte>,
    headCount: seq<byte>,
    hiddenSectors: seq<byte>,
    totalSectors32: seq<byte>,
    sectorsPerFat32: seq<byte>,
    fat32Flags: seq<byte>,
    fat32Version: seq<byte>,
    fat32RootCluster: seq<byte>,
    rest: seq<byte>)
  {
    predicate Ok() {
      && |jump| == 3 && |oemName| == 8 && |bytesPerSector| == 2 && |sectorsPerCluster| == 1
      && |reservedSectorCount| == 2 && |fatCount| == 1 && |rootDirEntryCount| == 2 && |totalSectors16| == 2
      && |mediaType| == 1 && |sectorsPerFat16| == 2 && |sectorsPerTrack| == 2 && |headCount| == 2
      && |hiddenSectors| == 4 && |totalSectors32| == 4 && |sectorsPerFat32| == 4 && |fat32Flags| == 2
      && |fat32Version| == 2 && |fat32RootCluster| == 4 && |rest| == 464
    }

    function Front(): seq<byte> {
      jump + oemName + bytesPerSector + sectorsPerCluster + reservedSectorCount + fatCount + rootDirEntryCount
      + totalSectors16 + mediaType
    }

    function Back(): seq<byte> {
      sectorsPerFat16 + sectorsPerTrack + headCount + hiddenSectors + totalSectors32 + sectorsPerFat32 + fat32Flags
      + fat32Version + fat32RootCluster + rest
    }

    function Bytes(): (r: seq<byte>)
      ensures Ok() ==> |r| == 512
    {
      Front() + Back()
    }

    /** The numbers of the fields that matter. */
    function Params(): Bpb {
      Bpb(Number(bytesPerSector), Number(sectorsPerCluster), Number(reservedSectorCount), Number(fatCount),
          Number(rootDirEntryCount), Number(totalSectors16), Number(sectorsPerFat16), Number(totalSectors32),
          Number(sectorsPerFat32), Number(fat32RootCluster))
    }
  }

  /** The library's view of a boot block finds each field in its place. */
  lemma BootFields(f: BootSector, boot: Block)
    requires f.Ok() && boot == f.Bytes()
    ensures BpbOf(boot) == f.Params()
  {
    hide Number, Le16, Le32;
    FrontFields(f);
    BackFields(f);
    assert boot[..22] == f.Front() && boot[22..] == f.Back();
    Word(boot, f.Front(), 0, 11);
    Word(boot, f.Front(), 0, 14);
    Word(boot, f.Front(), 0, 17);
    Word(boot, f.Front(), 0, 19);
    Word(boot, f.Back(), 22, 0);
    Long(boot, f.Back(), 22, 10);
    Long(boot, f.Back(), 22, 14);
    Long(boot, f.Back(), 22, 22);
    OneByteNumber(f.sectorsPerCluster);
    OneByteNumber(f.fatCount);
    assert boot[13] == f.Front()[13] == f.Front()[13..14][0];
    assert boot[16] == f.Front()[16] == f.Front()[16..17][0];
  }

  lemma FrontFields(f: BootSector)
    requires f.Ok()
    ensures var s := f.Front();
            && |s| == 22
            && s[11..13] == f.bytesPerSector
            && s[13..14] == f.sectorsPerCluster
            && s[14..16] == f.reservedSectorCount
            && s[16..17] == f.fatCount
            && s[17..19] == f.rootDirEntryCount
            && s[19..21] == f.totalSectors16
  {
  }

  lemma BackFields(f: BootSector)
    requires f.Ok()
    ensures var s := f.Back();
            && |s| == 490
            && s[..2] == f.sectorsPerFat16
            && s[10..14] == f.totalSectors32
            && s[14..18] == f.sectorsPerFat32
            && s[22..26] == f.fat32RootCluster
  {
  }

  /** A 16-bit number in the part of the block that begins at `from`. */
  lemma Word(boot: Block, part: seq<byte>, from: nat, at: nat)
    requires from + |part| <= 512 && at + 2 <= |part| && boot[from..from + |part|] == part
    ensures Le16(boot, from + at) == Number(part[at..at + 2])
  {
    Le16IsNumber(boot, from + at);
    assert boot[from + at..from + at + 2] == boot[from..from + |part|][at..at + 2];
  }

  lemma Long(boot: Block, part: seq<byte>, from: nat, at: nat)
    requires from + |part| <= 512 && at + 4 <= |part| && boot[from..from + |part|] == part
    ensures Le32(boot, from + at) == Number(part[at..at + 4])
  {
    Le32IsNumber(boot, from + at);
    assert boot[from + at..from + at + 4] == boot[from..from + |part|][at..at + 4];
  }

  datatype FirstBlock = NoPartition | At(block: nat)

  /** The fields of a partition table entry that the library uses. */
  datatype Partition = Partition(boot: byte, first: nat, total: nat) {
    /** The boot mark is 0 or 0x80, and the partition is neither tiny nor at the
        table itself. */
    predicate Usable() {
      (boot == 0 || boot == 0x80) && total >= 100 && first != 0
    }
  }

  function PartitionAt(mbr: Block, part: nat): Partition
    requires 1 <= part <= 4
  {
    var at := 446 + 16 * (part - 1);
    Partition(mbr[at], Le32(mbr, at + 8), Le32(mbr, at + 12))
  }

  /** A partition table entry as its fields lie in it, each as its bytes. */
  datatype PartitionEntry = PartitionEntry(
    boot: seq<byte>,
    begin: seq<byte>,
    kind: seq<byte>,
    end: seq<byte>,
    firstSector: seq<byte>,
    totalSectors: seq<byte>)
  {
    predicate Ok() {
      |boot| == 1 && |begin| == 3 && |kind| == 1 && |end| == 3 && |firstSector| == 4 && |totalSectors| == 4
    }

    function Bytes(): (r: seq<byte>)
      ensures Ok() ==> |r| == 16
    {
      boot + begin + kind + end + firstSector + totalSectors
    }
  }

  /** The four entries lie behind the boot code, before the block's signature. */
  lemma PartitionFields(mbr: Block, code: seq<byte>, es: seq<PartitionEntry>, signature: seq<byte>, part: nat)
    requires |code| == 446 && |es| == 4 && (forall e | e in es :: e.Ok()) && |signature| == 2
    requires mbr == code + es[0].Bytes() + es[1].Bytes() + es[2].Bytes() + es[3].Bytes() + signature
    requires 1 <= part <= 4
    ensures var e, p := es[part - 1], PartitionAt(mbr, part);
            && |e.boot| == 1 && p.boot == e.boot[0]
            && p.first == Number(e.firstSector) && p.total == Number(e.totalSectors)
  {
    hide Number, Le32, PartitionEntry.Bytes;
    var e, at := es[part - 1], 446 + 16 * (part - 1);
    assert e in es && es[0] in es && es[1] in es && es[2] in es && es[3] in es;
    EntryFields(e);
    FourEntries(code, es[0].Bytes(), es[1].Bytes(), es[2].Bytes(), es[3].Bytes(), signature);
    assert mbr[at..at + 16] == e.Bytes();
    assert mbr[at] == mbr[at..at + 16][0] == e.Bytes()[0] == e.Bytes()[..1][0];
    Long(mbr, e.Bytes(), at, 8);
    Long(mbr, e.Bytes(), at, 12);
  }

  lemma EntryFields(e: PartitionEntry)
    requires e.Ok()
    ensures var s := e.Bytes();
            |s| == 16 && s[..1] == e.boot && s[8..12] == e.firstSector && s[12..16] == e.totalSectors
  {
  }

  lemma FourEntries(code: seq<byte>, a: seq<byte>, b: seq<byte>, c: seq<byte>, d: seq<byte>, signature: seq<byte>)
    requires |code| == 446 && |a| == |b| == |c| == |d| == 16
    ensures var s := code + a + b + c + d + signature;
            |s| >= 510 && s[446..462] == a && s[462..478] == b && s[478..494] == c && s[494..510] == d
  {
  }

  /** The partition table with entry `part` filled in. */
  function WithPartition(mbr: Block, part: nat, p: Partition): Block
    requires 1 <= part <= 4
  {
    var at := 446 + 16 * (part - 1);
    Put32(Put32(mbr[at := p.boot], at + 8, p.first), at + 12, p.total)
  }

  /** Where the volume of partition `part` starts; partition 0 is the whole card. */
  function VolumeStart(mbr: Block, part: nat): FirstBlock {
    if part == 0 then At(0)
    else if 1 <= part <= 4 && PartitionAt(mbr, part).Usable() then At(PartitionAt(mbr, part).first)
    else NoPartition
  }

  /** A partition entered into the table is found where it was put, if it is
      usable, and the others are found as before. */
  lemma PartitionFound(mbr: Block, part: nat, p: Partition, other: nat)
    requires 1 <= part <= 4 && p.first < TWO32 && p.total < TWO32 && other != part
    ensures VolumeStart(WithPartition(mbr, part, p), part) ==
              if (p.boot == 0 || p.boot == 0x80) && p.total >= 100 && p.first != 0 then At(p.first) else NoPartition
    ensures VolumeStart(WithPartition(mbr, part, p), other) == VolumeStart(mbr, other)
  {
    hide PartitionAt, WithPartition;
    ReadBack(mbr, part, p);
    if 1 <= other <= 4 {
      OtherPartition(mbr, part, p, other);
    }
  }

  lemma ReadBack(mbr: Block, part: nat, p: Partition)
    requires 1 <= part <= 4 && p.first < TWO32 && p.total < TWO32
    ensures PartitionAt(WithPartition(mbr, part, p), part) == p
  {
    hide Put32, Le32;
    var at := 446 + 16 * (part - 1);
    var once := Put32(mbr[at := p.boot], at + 8, p.first);
    SameLe32(once, Put32(once, at + 12, p.total), at + 8);
  }

  lemma OtherPartition(mbr: Block, part: nat, p: Partition, other: nat)
    requires 1 <= part <= 4 && 1 <= other <= 4 && other != part
    ensures PartitionAt(WithPartition(mbr, part, p), other) == PartitionAt(mbr, other)
  {
    hide Put32, Le32;
    var at := 446 + 16 * (other - 1);
    SameLe32(mbr, WithPartition(mbr, part, p), at + 8);
    SameLe32(mbr, WithPartition(mbr, part, p), at + 12);
  }

  lemma SameLe32(s: seq<byte>, s': seq<byte>, at: nat)
    requires at + 4 <= |s| == |s'| && forall k | at <= k < at + 4 :: s'[k] == s[k]
    ensures Le32(s', at) == Le32(s, at)
  {
  }

  method FindVolume(mbr: Block, part: nat) returns (r: FirstBlock)
    ensures r == VolumeStart(mbr, part)
  {
    var volumeStartBlock := 0;
    if part != 0 {
      if part > 4 {
        return NoPartition;
      }
      var p := 446 + 16 * (part - 1);
      var boot, firstSector, totalSectors := mbr[p], Le32(mbr, p + 8), Le32(mbr, p + 12);
      if boot as int % 0x80 != 0 || totalSectors < 100 || firstSector == 0 {
        return NoPartition;
      }
      volumeStartBlock := firstSector;
    }
    return At(volumeStartBlock);
  }

  /** Shifting left by `shift` multiplies by `n`, and `n` fits into a byte. */
  predicate IsShift(shift: nat, n: nat) {
    shift <= 7 && n == [1, 2, 4, 8, 16, 32, 64, 128][shift]
  }

  /** The shift that multiplies by the cluster size. It exists exactly for the
      powers of two a byte can hold. */
  method ClusterShift(blocksPerCluster: nat) returns (ok: bool, shift: nat)
    requires blocksPerCluster < 256
    ensures ok ==> IsShift(shift, blocksPerCluster) && Pow2(shift) == blocksPerCluster
    ensures !ok ==> forall k: nat :: !IsShift(k, blocksPerCluster)
  {
    hide IsShift;
    PowersInByte();
    shift := 0;
    while blocksPerCluster != Pow2(shift)
      invariant shift <= 8
      invariant forall k | 0 <= k < shift :: !IsShift(k, blocksPerCluster)
      decreases 8 - shift
    {
      var was := shift;
      shift := shift + 1;
      if was > 7 {
        return false, shift;
      }
    }
    return true, shift;
  }

  lemma PowersInByte()
    ensures forall k: nat, n: nat :: IsShift(k, n) ==> k <= 7 && n == Pow2(k) && 1 <= n <= 128
    ensures forall k: nat, n: nat | k <= 7 && n == Pow2(k) :: IsShift(k, n)
    ensures Pow2(8) == 256
  {
    assert Pow2(3) == 8;
    assert Pow2(6) == 64;
  }

  /** Subtraction in 32 bits. */
  function Minus32(a: nat, b: nat): nat {
    (a - b) % TWO32
  }

  datatype Volume = Invalid | Fat12 | Fat(g: Layout)

  /** Shifting right. */
  function Shifted(n: nat, k: nat): nat {
    Quotient(n, Pow2(k))
  }

  function Quotient(n: nat, d: nat): nat
    requires d >= 1
  {
    n / d
  }

  /** What the library accepts as a boot block. */
  ghost predicate Acceptable(b: Bpb) {
    && b.bytesPerSector == 512
    && b.fatCount != 0
    && b.reservedSectorCount != 0
    && exists k: nat :: IsShift(k, b.sectorsPerCluster)
  }

  /** What the library makes of any boot block it accepts, in its 32-bit
      arithmetic: where the tables and the data begin, modulo 2^32, and as many
      whole clusters as fit into what is then left of the volume's blocks. */
  ghost predicate InWords(b: Bpb, start: nat, r: Volume) {
    var left := (b.TotalSectors() - b.Overhead()) % 0x1_0000_0000;
    && (r == Fat12 <==> left < 4085 * b.sectorsPerCluster)
    && (r.Fat? ==>
          var g := r.g;
          && IsShift(g.clusterSizeShift, b.sectorsPerCluster)
          && g.blocksPerCluster == b.sectorsPerCluster
          && g.fatStartBlock == (start + b.reservedSectorCount) % 0x1_0000_0000
          && g.dataStartBlock == (start + b.Overhead()) % 0x1_0000_0000
          && g.clusterCount * b.sectorsPerCluster <= left < g.clusterCount * b.sectorsPerCluster + b.sectorsPerCluster
          && (if g.clusterCount < 65525
              then g.fatType == 16
                   && g.rootDirStart == (start + b.reservedSectorCount + b.TableSectors()) % 0x1_0000_0000
              else g.fatType == 32 && g.rootDirStart == b.fat32RootCluster))
  }

  /** The layout of the volume whose boot block is `boot`. For a volume that fits
      it is the one meant. */
  method ReadLayout(boot: Block, volumeStartBlock: nat) returns (r: Volume, ghost shift: nat)
    requires volumeStartBlock < TWO32
    ensures r != Invalid <==> Acceptable(BpbOf(boot))
    ensures r != Invalid ==> IsShift(shift, BpbOf(boot).sectorsPerCluster)
    ensures r != Invalid ==> InWords(BpbOf(boot), volumeStartBlock, r)
    ensures r != Invalid && Fits(BpbOf(boot), volumeStartBlock) ==> r == LayoutOf(BpbOf(boot), volumeStartBlock, shift)
  {
    hide Pow2, Bpb.TableSectors, Bpb.RootSectors, Shifted, IsShift, Acceptable;
    var b := BpbOf(boot);
    AcceptableSize(b);
    if b.bytesPerSector != 512 || b.fatCount == 0 || b.reservedSectorCount == 0 || b.sectorsPerCluster == 0 {
      return Invalid, 0;
    }
    var ok, clusterSizeShift := ClusterShift(b.sectorsPerCluster);
    shift := clusterSizeShift;
    if !ok {
      return Invalid, shift;
    }
    var fatStartBlock := (volumeStartBlock + b.reservedSectorCount) % TWO32;
    var rootDirStart := (fatStartBlock + b.TableSectors()) % TWO32;
    var dataStartBlock := (rootDirStart + b.RootSectors()) % TWO32;
    var dataBlocks := Minus32(b.TotalSectors(), Minus32(dataStartBlock, volumeStartBlock));
    var clusterCount := Shifted(dataBlocks, clusterSizeShift);
    ComputedInWords(b, volumeStartBlock, fatStartBlock, rootDirStart, dataStartBlock, dataBlocks);
    DividedInWord(dataBlocks, clusterSizeShift, b.sectorsPerCluster);
    if Fits(b, volumeStartBlock) {
      NoWrap(b, volumeStartBlock, fatStartBlock, rootDirStart, dataStartBlock);
    }
    if clusterCount < 4085 {
      return Fat12, shift;
    }
    var fatType, root := 16, rootDirStart;
    if clusterCount >= 65525 {
      root, fatType := b.fat32RootCluster, 32;
    }
    r := Fat(Layout(fatType, b.fatCount, b.SectorsPerFat(), fatStartBlock, root, b.rootDirEntryCount, dataStartBlock,
                    clusterSizeShift, b.sectorsPerCluster, clusterCount));
  }

  lemma AcceptableSize(b: Bpb)
    ensures Acceptable(b) <==> b.bytesPerSector == 512 && b.fatCount != 0 && b.reservedSectorCount != 0
                               && b.sectorsPerCluster != 0 && exists k: nat :: IsShift(k, b.sectorsPerCluster)
  {
  }

  lemma SumInWord(a: nat, b: nat)
    ensures (a % TWO32 + b) % TWO32 == (a + b) % TWO32
    ensures (b - a % TWO32) % TWO32 == (b - a) % TWO32
    ensures (a % TWO32 - b) % TWO32 == (a - b) % TWO32
  {
    WholeWords(a % TWO32 + b, a / TWO32);
    WholeWords(b - a, a / TWO32);
    WholeWords(a % TWO32 - b, a / TWO32);
  }

  lemma WholeWords(x: int, k: int)
    ensures (x + TWO32 * k) % TWO32 == x % TWO32
  {
  }

  lemma DividedInWord(n: nat, shift: nat, d: nat)
    requires Pow2(shift) == d
    ensures Shifted(n, shift) * d <= n < Shifted(n, shift) * d + d
    ensures Shifted(n, shift) < 4085 <==> n < 4085 * d
  {
    DividedExactly(n, d);
    FewOrMany(n, d);
  }

  lemma ComputedInWords(b: Bpb, start: nat, fat: nat, root: nat, data: nat, left: nat)
    requires start < TWO32
    requires fat == (start + b.reservedSectorCount) % TWO32
    requires root == (fat + b.TableSectors()) % TWO32
    requires data == (root + b.RootSectors()) % TWO32
    requires left == Minus32(b.TotalSectors(), Minus32(data, start))
    ensures root == (start + b.reservedSectorCount + b.TableSectors()) % TWO32
    ensures data == (start + b.Overhead()) % TWO32
    ensures left == (b.TotalSectors() - b.Overhead()) % TWO32
  {
    hide Bpb.TableSectors, Bpb.RootSectors, Bpb.TotalSectors;
    SumInWord(start + b.reservedSectorCount, b.TableSectors());
    SumInWord(start + b.reservedSectorCount + b.TableSectors(), b.RootSectors());
    LeftInWord(b.TotalSectors(), start, b.Overhead());
  }

  lemma LeftInWord(total: nat, start: nat, over: nat)
    ensures Minus32(total, Minus32((start + over) % TWO32, start)) == (total - over) % TWO32
  {
    SumInWord(start + over, start);
    SumInWord(over, total);
    assert start + over - start == over;
  }

  /** The volume's parts fit into its blocks, and its blocks into 32 bits. */
  predicate Fits(b: Bpb, start: nat) {
    b.Overhead() <= b.TotalSectors() && start + b.TotalSectors() < TWO32
  }

  lemma NoWrap(b: Bpb, start: nat, fat: nat, root: nat, data: nat)
    requires Fits(b, start)
    requires fat == (start + b.reservedSectorCount) % TWO32
    requires root == (fat + b.TableSectors()) % TWO32
    requires data == (root + b.RootSectors()) % TWO32
    ensures fat == start + b.reservedSectorCount
    ensures root == fat + b.TableSectors()
    ensures data == start + b.Overhead()
    ensures Minus32(b.TotalSectors(), Minus32(data, start)) == b.TotalSectors() - b.Overhead()
  {
    hide Bpb.TableSectors, Bpb.RootSectors;
  }

  /** The layout the volume means. */
  function LayoutOf(b: Bpb, start: nat, shift: nat): Volume
    requires b.Overhead() <= b.TotalSectors()
  {
    var fat := start + b.reservedSectorCount;
    var n := Shifted(b.TotalSectors() - b.Overhead(), shift);
    if n < 4085 then Fat12
    else
      Fat(Layout(if n < 65525 then 16 else 32, b.fatCount, b.SectorsPerFat(), fat,
                 if n < 65525 then fat + b.TableSectors() else b.fat32RootCluster,
                 b.rootDirEntryCount, start + b.Overhead(),
                 shift, b.sectorsPerCluster, n))
  }

  /** A boot block that keeps the rules of the format: the tables have an entry
      for every cluster, cluster numbers stay below the end marks, and a FAT32
      volume has no fixed root directory. */
  predicate WellFormed(b: Bpb, start: nat, size: nat) {
    && Fits(b, start)
    && start + b.TotalSectors() <= size <= NO_BLOCK
    && b.fatCount >= 1
    && b.reservedSectorCount >= 1
    && 1 <= b.sectorsPerCluster <= 128
    && var n := b.Clusters();
       && n + 2 <= (if n < 65525 then 0xFFF7 else 0x0FFF_FFF7)
       && n + 2 <= b.SectorsPerFat() * (if n < 65525 then 256 else 128)
       && (n >= 65525 ==> b.rootDirEntryCount == 0)
  }

  /** Of a well-formed volume the layout found is one whose regions are
      disjoint and lie on the card. */
  lemma LayoutIsValid(b: Bpb, start: nat, size: nat, shift: nat)
    requires WellFormed(b, start, size) && IsShift(shift, b.sectorsPerCluster)
    ensures var r := LayoutOf(b, start, shift); r.Fat? ==> r.g.Valid(size)
  {
    hide IsShift;
    PowersInByte();
    var n := b.Clusters();
    var r := LayoutOf(b, start, shift);
    if r.Fat? {
      TwoTables(b.fatCount, b.SectorsPerFat());
      BlocksOfIsProduct(r.g, n);
      Divided(b.TotalSectors() - b.Overhead(), b.sectorsPerCluster);
    }
  }

  /** Layout `g` is the one the boot block means: the tables follow the reserved
      blocks, each of the 16-bit size unless that is 0; then the least number of
      blocks that hold the root entries; then as many clusters as fit into the
      volume's blocks, of which there are the 16-bit number unless that is 0. From
      65525 clusters on it is FAT32 and the root directory a chain. */
  ghost predicate Means(b: Bpb, start: nat, g: Layout) {
    var tables := b.fatCount * g.blocksPerFat;
    var root := g.dataStartBlock - g.fatStartBlock - tables;
    var total := if b.totalSectors16 != 0 then b.totalSectors16 else b.totalSectors32;
    && g.fatCount == b.fatCount
    && g.blocksPerCluster == b.sectorsPerCluster
    && IsShift(g.clusterSizeShift, b.sectorsPerCluster)
    && g.rootDirEntryCount == b.rootDirEntryCount
    && g.blocksPerFat == (if b.sectorsPerFat16 != 0 then b.sectorsPerFat16 else b.sectorsPerFat32)
    && g.fatStartBlock == start + b.reservedSectorCount
    && 32 * b.rootDirEntryCount <= 512 * root < 32 * b.rootDirEntryCount + 512
    && g.DataEnd() <= start + total < g.DataEnd() + g.blocksPerCluster
    && 4085 <= g.clusterCount
    && (if g.clusterCount < 65525 then g.fatType == 16 && g.rootDirStart == g.fatStartBlock + tables
        else g.fatType == 32 && g.rootDirStart == b.fat32RootCluster)
  }

  /** The volume has so few clusters that it is FAT12. */
  ghost predicate IsTiny(b: Bpb, root: nat) {
    var tables := b.fatCount * (if b.sectorsPerFat16 != 0 then b.sectorsPerFat16 else b.sectorsPerFat32);
    var total := if b.totalSectors16 != 0 then b.totalSectors16 else b.totalSectors32;
    && 32 * b.rootDirEntryCount <= 512 * root < 32 * b.rootDirEntryCount + 512
    && total < b.reservedSectorCount + tables + root + 4085 * b.sectorsPerCluster
  }

  /** Find the volume of a partition and work out its layout. It succeeds exactly
      when the block found is accepted; and a well-formed volume gets the layout
      its boot block means, with disjoint regions behind the volume's first block
      and on the card. */
  method Init(card: seq<Block>, part: nat) returns (r: Volume, ghost shift: nat)
    requires 0 < |card| <= NO_BLOCK
    ensures var v := VolumeStart(card[0], part); v.NoPartition? || v.block >= |card| ==> r == Invalid
    ensures forall f: BootSector ::
              var v := VolumeStart(card[0], part);
              v.At? && v.block < |card| && f.Ok() && card[v.block] == f.Bytes() ==>
                InitResult(f.Params(), v.block, |card|, r)
  {
    hide BpbOf, LayoutOf, WellFormed, Acceptable, InWords, IsShift, Pow2, Fits, Layout.Valid, InitResult,
         BootSector.Ok, BootSector.Bytes, BootSector.Params;
    shift := 0;
    var v := FindVolume(card[0], part);
    if v.NoPartition? || v.block >= |card| {
      return Invalid, 0;
    }
    r, shift := ReadLayout(card[v.block], v.block);
    ghost var start := v.block;
    MountedLayout(BpbOf(card[start]), start, |card|, shift, r);
    forall f: BootSector | f.Ok() && card[start] == f.Bytes()
      ensures InitResult(f.Params(), start, |card|, r)
    {
      BootFields(f, card[start]);
    }
  }

  /** What initialising makes of the boot block's numbers. */
  ghost predicate InitResult(b: Bpb, start: nat, size: nat, r: Volume) {
    && (r != Invalid <==> Acceptable(b))
    && (r != Invalid ==> InWords(b, start, r))
    && (r.Fat? && WellFormed(b, start, size) ==>
          Means(b, start, r.g) && r.g.Valid(size) && r.g.Valid(start + b.TotalSectors()))
    && (r != Invalid && WellFormed(b, start, size) ==> (r == Fat12 <==> exists root: nat :: IsTiny(b, root)))
  }

  lemma MountedLayout(b: Bpb, start: nat, size: nat, shift: nat, r: Volume)
    requires r != Invalid <==> Acceptable(b)
    requires r != Invalid ==> IsShift(shift, b.sectorsPerCluster) && InWords(b, start, r)
    requires r != Invalid && Fits(b, start) ==> r == LayoutOf(b, start, shift)
    ensures InitResult(b, start, size, r)
  {
    hide Acceptable, IsShift, Pow2, Bpb.RootSectors, Bpb.TableSectors, InWords;
    if r != Invalid && WellFormed(b, start, size) {
      LayoutIsValid(b, start, size, shift);
      LayoutIsValid(b, start, start + b.TotalSectors(), shift);
      LayoutMeans(b, start, shift);
    }
  }

  lemma LayoutMeans(b: Bpb, start: nat, shift: nat)
    requires Fits(b, start) && IsShift(shift, b.sectorsPerCluster)
    ensures var r := LayoutOf(b, start, shift);
            && (r.Fat? ==> Means(b, start, r.g))
            && (r == Fat12 <==> exists root: nat :: IsTiny(b, root))
  {
    hide Pow2, IsShift, IsTiny, Layout.BlocksOf;
    PowersInByte();
    var n, d := b.TotalSectors() - b.Overhead(), b.sectorsPerCluster;
    DividedExactly(n, d);
    var r := LayoutOf(b, start, shift);
    if r.Fat? {
      BlocksOfIsProduct(r.g, n / d);
    }
    FewOrMany(n, d);
    TinyAt(b);
  }

  lemma TinyAt(b: Bpb)
    ensures b.TotalSectors() < b.Overhead() + 4085 * b.sectorsPerCluster <==> exists root: nat :: IsTiny(b, root)
  {
    hide IsTiny;
    TinyIs(b);
    assert b.TotalSectors() < b.Overhead() + 4085 * b.sectorsPerCluster ==> IsTiny(b, b.RootSectors());
  }

  lemma TinyIs(b: Bpb)
    ensures forall root: nat :: IsTiny(b, root) <==>
              root == b.RootSectors() && b.TotalSectors() < b.Overhead() + 4085 * b.sectorsPerCluster
  {
  }

  lemma DividedExactly(n: nat, d: nat)
    requires d > 0
    ensures n / d * d <= n < n / d * d + d
  {
    assert n == n / d * d + n % d;
  }

  lemma FewOrMany(n: nat, d: nat)
    requires d > 0
    ensures n / d < 4085 <==> n < 4085 * d
  {
    DividedExactly(n, d);
    ProductOrder(n / d, 4085, d);
    ProductOrder(4084, n / d, d);
  }

  lemma TwoTables(count: nat, blocks: nat)
    requires count >= 1
    ensures (if count > 1 then 2 * blocks else blocks) <= count * blocks
  {
    if count > 1 {
      ProductOrder(1, count, blocks);
    }
  }

  lemma Divided(n: nat, d: nat)
    requires d > 0
    ensures n / d * d <= n
  {
  }
}
