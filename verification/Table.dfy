/** The file allocation table as it lies in blocks: entry codec, the table a
    disk holds, and the effect of storing one entry. */
module TableBlocks {
  import opened Bytes
  import opened Geometry
  import opened Chains

  type Disk = seq<Block>

  const FAT32MASK_SPAN: nat := 0x1000_0000

  /** Value of the entry of cluster `c`, read from the table block that holds it. */
  function EntryIn(g: Layout, blk: Block, c: nat): nat {
    if g.fatType == 16 then Le16(blk, 2 * (c % 256)) else Le32(blk, 4 * (c % 128)) % FAT32MASK_SPAN
  }

  /** The table block after storing `v` as the entry of cluster `c`. */
  function WithEntry(g: Layout, blk: Block, c: nat, v: nat): Block {
    if g.fatType == 16 then Put16(blk, 2 * (c % 256), v) else Put32(blk, 4 * (c % 128), v)
  }

  /** What a stored value reads back as: entries are 16 or 28 bits wide. */
  function Stored(g: Layout, v: nat): nat {
    if g.fatType == 16 then v % 0x1_0000 else v % FAT32MASK_SPAN
  }

  lemma StoredIsRead(g: Layout, blk: Block, c: nat, v: nat)
    ensures EntryIn(g, WithEntry(g, blk, c, v), c) == Stored(g, v)
  {
    if g.fatType != 16 {
      assert v == TWO32 * (v / TWO32) + v % TWO32;
      assert TWO32 == 16 * FAT32MASK_SPAN;
      assert v % TWO32 % FAT32MASK_SPAN == v % FAT32MASK_SPAN;
    }
  }

  /** Storing one entry leaves the other entries of its block alone. */
  lemma StoredElsewhere(g: Layout, blk: Block, c: nat, v: nat, d: nat)
    requires c != d && g.TableBlock(c) == g.TableBlock(d)
    ensures EntryIn(g, WithEntry(g, blk, c, v), d) == EntryIn(g, blk, d)
  {
  }

  ghost function TableOf(g: Layout, disk: Disk): (fat: Table)
    requires g.Valid(|disk|)
    ensures |fat| == g.TableLength()
    ensures forall c | 0 <= c < |fat| ::
              g.InFirstTable(g.TableBlock(c)) && fat[c] == EntryIn(g, disk[g.TableBlock(c)], c)
  {
    seq(g.TableLength(), c requires 0 <= c < g.TableLength() => EntryIn(g, disk[g.TableBlock(c)], c))
  }

  // ---- the table as bytes ----

  /** All bytes of the table's copy number `copy`, counted from 0. */
  ghost function TableBytes(g: Layout, disk: Disk, copy: nat): (r: seq<byte>)
    requires g.Valid(|disk|) && copy < g.fatCount && copy < 2
    ensures |r| == 512 * g.blocksPerFat
  {
    Joined(disk[g.fatStartBlock + copy * g.blocksPerFat..g.fatStartBlock + copy * g.blocksPerFat + g.blocksPerFat])
  }

  /** Bytes of an entry: 16 bits on FAT16, 32 on FAT32. */
  function Width(g: Layout): nat {
    if g.fatType == 16 then 2 else 4
  }

  /** The entry of cluster `c` in the bytes `t` of a table: entries follow each
      other from the first byte on, and of those of FAT32 28 bits count. */
  ghost function EntryOf(g: Layout, t: seq<byte>, c: nat): nat
    requires Width(g) * c + Width(g) <= |t|
  {
    if g.fatType == 16 then Number(t[2 * c..2 * c + 2]) else Number(t[4 * c..4 * c + 4]) % 0x1000_0000
  }

  /** Where an entry stands: byte `at` of block `k` of the table. */
  lemma EntryPlace(g: Layout, size: nat, c: nat)
    requires g.Valid(size) && c < g.TableLength()
    ensures var w, k, at := Width(g), g.TableBlock(c) - g.fatStartBlock, PlaceInBlock(g, c);
            && 0 <= k < g.blocksPerFat
            && w * c == 512 * k + at
            && at + w <= 512
            && w * c + w <= 512 * g.blocksPerFat
  {
  }

  function PlaceInBlock(g: Layout, c: nat): nat {
    if g.fatType == 16 then 2 * (c % 256) else 4 * (c % 128)
  }

  lemma EntryInBlock(g: Layout, blk: Block, c: nat)
    ensures PlaceInBlock(g, c) + Width(g) <= 512
    ensures var at := PlaceInBlock(g, c);
            EntryIn(g, blk, c) == if g.fatType == 16 then Number(blk[at..at + 2])
                                  else Number(blk[at..at + 4]) % 0x1000_0000
  {
    hide Number;
    if g.fatType == 16 {
      Le16IsNumber(blk, 2 * (c % 256));
    } else {
      Le32IsNumber(blk, 4 * (c % 128));
    }
  }

  /** What the model calls the table is what these bytes hold. */
  lemma TableIsBytes(g: Layout, disk: Disk, c: nat)
    requires g.Valid(|disk|) && c < g.TableLength()
    ensures Width(g) * c + Width(g) <= |TableBytes(g, disk, 0)|
    ensures TableOf(g, disk)[c] == EntryOf(g, TableBytes(g, disk, 0), c)
  {
    hide Layout.TableBlock, PlaceInBlock, EntryIn, Joined, Number;
    EntryPlace(g, |disk|, c);
    var blocks := disk[g.fatStartBlock..g.fatStartBlock + g.blocksPerFat];
    assert TableBytes(g, disk, 0) == Joined(blocks) by {
      assert 0 * g.blocksPerFat == 0;
    }
    var k := g.TableBlock(c) - g.fatStartBlock;
    JoinedSlice(blocks, k, PlaceInBlock(g, c), Width(g));
    EntryInBlock(g, blocks[k], c);
  }

  /** In the bytes of a table exactly the entry of cluster `c` was stored: all its
      bits are those of `v`, and no other byte changed. */
  ghost predicate OnlyEntryStored(g: Layout, t: seq<byte>, t': seq<byte>, c: nat, v: nat) {
    var w := Width(g);
    && |t'| == |t|
    && w * c + w <= |t|
    && Number(t'[w * c..w * c + w]) == v % (if w == 2 then 0x1_0000 else 0x1_0000_0000)
    && t'[..w * c] == t[..w * c]
    && t'[w * c + w..] == t[w * c + w..]
  }

  /** Storing an entry, in the bytes of the table. */
  lemma StoreBytes(g: Layout, disk: Disk, c: nat, v: nat)
    requires g.Valid(|disk|) && c < g.TableLength()
    ensures g.InFirstTable(g.TableBlock(c))
    ensures var b := g.TableBlock(c);
            var disk' := WithTableBlock(g, disk, b, WithEntry(g, disk[b], c, v));
            OnlyEntryStored(g, TableBytes(g, disk, 0), TableBytes(g, disk', 0), c, v)
  {
    hide Layout.TableBlock, PlaceInBlock, WithEntry, Joined, Number;
    TableBlockInFirst(g, |disk|, c);
    EntryPlace(g, |disk|, c);
    var b := g.TableBlock(c);
    var disk' := WithTableBlock(g, disk, b, WithEntry(g, disk[b], c, v));
    var blocks, blocks' := disk[g.fatStartBlock..g.fatStartBlock + g.blocksPerFat],
                           disk'[g.fatStartBlock..g.fatStartBlock + g.blocksPerFat];
    assert TableBytes(g, disk, 0) == Joined(blocks) && TableBytes(g, disk', 0) == Joined(blocks') by {
      assert 0 * g.blocksPerFat == 0;
    }
    var k := b - g.fatStartBlock;
    assert blocks' == blocks[k := WithEntry(g, disk[b], c, v)];
    StoredInBlock(g, disk[b], c, v);
    ChangedSlice(blocks, k, WithEntry(g, disk[b], c, v), PlaceInBlock(g, c), Width(g));
  }

  /** Changing a stretch of one block changes that stretch of all the bytes. */
  lemma ChangedSlice(blocks: seq<Block>, k: nat, blk: Block, at: nat, w: nat)
    requires k < |blocks| && at + w <= 512
    requires forall i | 0 <= i < 512 && !(at <= i < at + w) :: blk[i] == blocks[k][i]
    ensures var s, s', from := Joined(blocks), Joined(blocks[k := blk]), 512 * k + at;
            && |s'| == |s|
            && from + w <= |s|
            && s'[from..from + w] == blk[at..at + w]
            && s'[..from] == s[..from]
            && s'[from + w..] == s[from + w..]
  {
    hide Joined;
    var s, s', from := Joined(blocks), Joined(blocks[k := blk]), 512 * k + at;
    JoinedSlice(blocks[k := blk], k, at, w);
    forall i | 0 <= i < |s| && !(from <= i < from + w)
      ensures s'[i] == s[i]
    {
      JoinedAt(blocks, i / 512, i % 512);
      JoinedAt(blocks[k := blk], i / 512, i % 512);
    }
  }

  lemma StoredInBlock(g: Layout, blk: Block, c: nat, v: nat)
    ensures var w, at, blk' := Width(g), PlaceInBlock(g, c), WithEntry(g, blk, c, v);
            && at + w <= 512
            && Number(blk'[at..at + w]) == v % (if w == 2 then 0x1_0000 else 0x1_0000_0000)
            && forall i | 0 <= i < 512 && !(at <= i < at + w) :: blk'[i] == blk[i]
  {
    hide Number;
    if g.fatType == 16 {
      Le16IsNumber(WithEntry(g, blk, c, v), 2 * (c % 256));
    } else {
      Le32IsNumber(WithEntry(g, blk, c, v), 4 * (c % 128));
    }
  }

  /** Both copies of the table have the same bytes. */
  lemma SameCopies(g: Layout, disk: Disk)
    requires g.Valid(|disk|) && MirrorsAgree(g, disk) && g.fatCount > 1
    ensures TableBytes(g, disk, 1) == TableBytes(g, disk, 0)
  {
    var n := g.blocksPerFat;
    assert 0 * n == 0 && 1 * n == n;
    var first, second := disk[g.fatStartBlock..g.fatStartBlock + n], disk[g.fatStartBlock + n..g.fatStartBlock + n + n];
    forall k | 0 <= k < n
      ensures first[k] == second[k]
    {
      assert g.InFirstTable(g.fatStartBlock + k);
    }
    assert first == second;
  }

  /** Both copies of the table hold the same blocks. */
  ghost predicate MirrorsAgree(g: Layout, disk: Disk)
    requires g.Valid(|disk|)
  {
    g.fatCount > 1 ==>
      forall b | g.InFirstTable(b) :: disk[b] == disk[b + g.blocksPerFat]
  }

  ghost predicate SameOutsideTables(g: Layout, disk: Disk, disk': Disk) {
    && |disk'| == |disk|
    && forall b | 0 <= b < |disk| && !g.InTables(b) :: disk'[b] == disk[b]
  }

  ghost predicate SameTables(g: Layout, disk: Disk, disk': Disk) {
    && |disk'| == |disk|
    && forall b | 0 <= b < |disk| && g.InTables(b) :: disk'[b] == disk[b]
  }

  ghost predicate SameExcept(disk: Disk, disk': Disk, b: nat) {
    && |disk'| == |disk|
    && forall k | 0 <= k < |disk| && k != b :: disk'[k] == disk[k]
  }

  /** The disk after storing `blk` in block `b` of the first table and, when
      there is a second one, in its mirror. */
  function WithTableBlock(g: Layout, disk: Disk, b: nat, blk: Block): (r: Disk)
    requires g.Valid(|disk|) && g.InFirstTable(b)
    ensures |r| == |disk|
  {
    if g.fatCount > 1 then disk[b := blk][b + g.blocksPerFat := blk] else disk[b := blk]
  }

  /** Storing an entry changes that entry only, in both copies of the table,
      and nothing outside the tables. */
  lemma StoreEntry(g: Layout, disk: Disk, c: nat, v: nat)
    requires g.Valid(|disk|) && g.IsCluster(c)
    ensures g.InFirstTable(g.TableBlock(c))
    ensures var b := g.TableBlock(c);
            var disk' := WithTableBlock(g, disk, b, WithEntry(g, disk[b], c, v));
            && TableOf(g, disk') == TableOf(g, disk)[c := Stored(g, v)]
            && SameOutsideTables(g, disk, disk')
  {
    var b := g.TableBlock(c);
    TableBlockInFirst(g, |disk|, c);
    var disk' := WithTableBlock(g, disk, b, WithEntry(g, disk[b], c, v));
    var was := TableOf(g, disk);
    forall d | 0 <= d < g.TableLength()
      ensures TableOf(g, disk')[d] == was[c := Stored(g, v)][d]
    {
      TableBlockInFirst(g, |disk|, d);
      if d == c {
        StoredIsRead(g, disk[b], c, v);
      } else if g.TableBlock(d) == b {
        StoredElsewhere(g, disk[b], c, v, d);
      }
    }
  }

  lemma StoreKeepsMirror(g: Layout, disk: Disk, b: nat, blk: Block)
    requires g.Valid(|disk|) && g.InFirstTable(b) && MirrorsAgree(g, disk)
    ensures MirrorsAgree(g, WithTableBlock(g, disk, b, blk))
  {
  }

  lemma TableFramed(g: Layout, disk: Disk, disk': Disk)
    requires g.Valid(|disk|) && SameTables(g, disk, disk')
    ensures TableOf(g, disk') == TableOf(g, disk)
    ensures MirrorsAgree(g, disk) ==> MirrorsAgree(g, disk')
  {

    forall c | 0 <= c < g.TableLength()
      ensures TableOf(g, disk')[c] == TableOf(g, disk)[c]
    {
      TableBlockInFirst(g, |disk|, c);
    }
  }

  /** The disk as its users see it: the card overlaid by the dirty cached block
      and by the mirror copy still to be written. */
  ghost function Overlay(blocks: Disk, number: nat, dirty: bool, mirror: nat, buffer: Block): (r: Disk)
    ensures |r| == |blocks|
  {
    if !dirty || number >= |blocks| then blocks
    else if mirror == 0 || mirror >= |blocks| then blocks[number := buffer]
    else blocks[number := buffer][mirror := buffer]
  }

  /** Changing the cached table block and scheduling its mirror write changes
      that block and its mirror on the disk as seen. */
  lemma OverlayTable(g: Layout, blocks: Disk, number: nat, dirty: bool, mirror: nat, buffer: Block, buffer': Block)
    requires g.Valid(|blocks|) && g.InFirstTable(number)
    requires mirror != 0 ==> dirty && g.fatCount > 1 && mirror == number + g.blocksPerFat
    requires !dirty ==> buffer == blocks[number]
    ensures var mirror' := if g.fatCount > 1 then number + g.blocksPerFat else mirror;
            Overlay(blocks, number, true, mirror', buffer')
            == WithTableBlock(g, Overlay(blocks, number, dirty, mirror, buffer), number, buffer')
  {
  }

  /** The library's end mark reads back as one, and cluster numbers fit. */
  lemma StoredValues(g: Layout, size: nat, c: nat)
    requires g.Valid(size) && c < g.TableLength()
    ensures g.IsEoc(Stored(g, FAT_EOC)) && Stored(g, FAT_EOC) == if g.fatType == 16 then 0xFFFF else 0xFFF_FFFF
    ensures Stored(g, c) == c
  {
  }
}
