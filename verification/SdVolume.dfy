/** A FAT volume: the one-block write-back cache with its deferred mirror
    write, table entries, the cluster allocator and chain release. */
module Volume {
  import opened Bytes
  import opened Geometry
  import opened Chains
  import opened TableBlocks
  import opened SdCard
  import opened CacheFate

  class SdVolume {
    const card: Sd2Card
    const g: Layout

    // The block cache, shared by everything on the volume.
    const cacheBuffer: array<byte>
    var cacheBlockNumber: nat
    var cacheDirty: bool
    var cacheMirrorBlock: nat

    var allocSearchStart: nat

    // The disk as its users see it, and its number of blocks.
    ghost var disk: Disk
    ghost const size: nat

    /** The cache agrees with the card: a clean cached block equals the block
        on the card, and only a dirty block of the first table has a mirror
        write outstanding. */
    ghost predicate CacheValid()
      reads this, card, cacheBuffer
    {
      && card.Valid()
      && g.Valid(size)
      && |card.blocks| == size
      && cacheBuffer.Length == 512
      && (cacheBlockNumber == NO_BLOCK || cacheBlockNumber < size)
      && (!cacheDirty && cacheBlockNumber != NO_BLOCK ==> cacheBuffer[..] == card.blocks[cacheBlockNumber])
      && (cacheMirrorBlock != 0 ==>
            && cacheDirty
            && g.fatCount > 1
            && g.InFirstTable(cacheBlockNumber)
            && cacheMirrorBlock == cacheBlockNumber + g.blocksPerFat)
      && (cacheDirty && g.fatCount > 1 && g.InTables(cacheBlockNumber) ==> cacheMirrorBlock != 0)
      && disk == Overlay(card.blocks, cacheBlockNumber, cacheDirty, cacheMirrorBlock, cacheBuffer[..])
    }

    /** Both copies of the table agree as seen, and the search hint is sound. */
    ghost predicate TableValid()
      reads this`disk, this`allocSearchStart
    {
      && |disk| == size
      && g.Valid(size)
      && MirrorsAgree(g, disk)
      && HintSound(TableOf(g, disk), allocSearchStart)
    }

    ghost predicate Valid()
      reads this, card, cacheBuffer
      ensures Valid() ==> g.Valid(size) && |disk| == size && |card.blocks| == size && cacheBuffer.Length == 512
      ensures Valid() ==> HintSound(Fat(), allocSearchStart)
      ensures Valid() && !cacheDirty ==> card.blocks == disk
    {
      CacheValid() && TableValid()
    }

    /** The table as its users see it. */
    ghost function Fat(): Table
      requires g.Valid(size) && |disk| == size
      reads this`disk
      ensures |Fat()| == g.TableLength()
    {
      TableOf(g, disk)
    }

    /** No cluster is free. */
    ghost predicate Full()
      requires g.Valid(size) && |disk| == size
      reads this`disk
    {
      FreeClusters(Fat()) == {}
    }

    ghost function Cache(): Cached
      reads this`cacheBlockNumber, this`cacheDirty
    {
      Cached(cacheBlockNumber, cacheDirty)
    }

    /** A dirty buffer that no longer has a block number: no flush can succeed
        again. */
    ghost predicate Wedged()
      reads this
    {
      cacheDirty && cacheBlockNumber == NO_BLOCK
    }

    constructor (card: Sd2Card, g: Layout)
      requires card.Valid() && g.Valid(|card.blocks|) && MirrorsAgree(g, card.blocks)
      ensures Valid() && disk == card.blocks && !Wedged()
      ensures this.card == card && this.g == g && fresh(cacheBuffer)
    {
      this.card, this.g := card, g;
      cacheBuffer := new byte[512](_ => 0);
      cacheBlockNumber, cacheDirty, cacheMirrorBlock := NO_BLOCK, false, 0;
      allocSearchStart := 2;
      disk, size := card.blocks, |card.blocks|;
    }

    /** The two copies of the table on the card differ at most in the block
        that is cached dirty with its mirror write outstanding. */
    lemma MirrorsOnCard()
      requires Valid() && g.fatCount > 1
      ensures forall b | g.InFirstTable(b) && card.blocks[b] != card.blocks[b + g.blocksPerFat] ::
                cacheDirty && cacheBlockNumber == b && cacheMirrorBlock == b + g.blocksPerFat
    {
      forall b | g.InFirstTable(b) && card.blocks[b] != card.blocks[b + g.blocksPerFat]
        ensures cacheDirty && cacheBlockNumber == b && cacheMirrorBlock == b + g.blocksPerFat
      {
        assert disk[b] == disk[b + g.blocksPerFat];
      }
    }

    /** Write the dirty block, then its mirror copy. Whatever happens the disk
        as seen stays the same; a flush that fails keeps what it still has to
        write, so that a later one completes it. */
    method CacheFlush() returns (ok: bool)
      requires CacheValid()
      modifies this`cacheDirty, this`cacheMirrorBlock, card
      ensures CacheValid() && Wedged() == old(Wedged())
      ensures ok ==> !cacheDirty && cacheMirrorBlock == 0 && card.blocks == disk
      ensures !ok ==> old(cacheDirty) && cacheDirty && card.faults > old(card.faults)
      ensures card.faults >= old(card.faults)
    {
      if cacheDirty {
        ok := card.WriteBlock(cacheBlockNumber, cacheBuffer[..]);
        assert disk == Overlay(card.blocks, cacheBlockNumber, cacheDirty, cacheMirrorBlock, cacheBuffer[..]);
        if !ok {
          return false;
        }
        if cacheMirrorBlock != 0 {
          ok := card.WriteBlock(cacheMirrorBlock, cacheBuffer[..]);
          assert disk == Overlay(card.blocks, cacheBlockNumber, cacheDirty, cacheMirrorBlock, cacheBuffer[..]);
          if !ok {
            return false;
          }
          cacheMirrorBlock := 0;
        }
        cacheDirty := false;
      }
      return true;
    }

    method Flush() returns (ok: bool)
      requires Valid()
      modifies this`cacheDirty, this`cacheMirrorBlock, card
      ensures Valid() && Wedged() == old(Wedged())
      ensures ok ==> !cacheDirty && cacheMirrorBlock == 0 && card.blocks == disk
      ensures !ok ==> old(cacheDirty) && cacheDirty && card.faults > old(card.faults)
      ensures card.faults >= old(card.faults)
    {
      ok := CacheFlush();
    }

    /** Bring a block into the cache. */
    method CacheRawBlock(blockNumber: nat, forWrite: bool) returns (ok: bool)
      requires CacheValid() && blockNumber < size
      requires forWrite ==> !g.InTables(blockNumber)
      modifies this`cacheDirty, this`cacheMirrorBlock, this`cacheBlockNumber, card, cacheBuffer
      ensures CacheValid() && Wedged() == old(Wedged())
      ensures ok ==> cacheBlockNumber == blockNumber && cacheBuffer[..] == disk[blockNumber]
      ensures ok && forWrite ==> cacheDirty
      ensures !forWrite && !old(cacheDirty) ==> !cacheDirty
      ensures !ok ==> card.faults > old(card.faults)
      ensures card.faults >= old(card.faults)
    {
      if cacheBlockNumber != blockNumber {
        ok := CacheFlush();
        if !ok {
          return false;
        }
        ok := card.ReadBlock(blockNumber, cacheBuffer);
        if !ok {
          return false;
        }
        cacheBlockNumber := blockNumber;
      }
      if forWrite {
        cacheDirty := true;
      }
      return true;
    }

    /** `CacheRawBlock` with the block marked for writing. */
    method CacheForWrite(blockNumber: nat) returns (ok: bool)
      requires Valid() && blockNumber < size && !g.InTables(blockNumber)
      modifies this`cacheDirty, this`cacheMirrorBlock, this`cacheBlockNumber, card, cacheBuffer
      ensures Valid() && Wedged() == old(Wedged())
      ensures ok ==> cacheBlockNumber == blockNumber && cacheDirty && cacheBuffer[..] == disk[blockNumber]
      ensures !ok ==> card.faults > old(card.faults)
      ensures card.faults >= old(card.faults)
    {
      ok := CacheRawBlock(blockNumber, true);
    }

    /** Start a block from zeros in the cache, without reading it. */
    method CacheZeroBlock(blockNumber: nat) returns (ok: bool)
      requires Valid() && blockNumber < size && !g.InTables(blockNumber)
      modifies this`cacheDirty, this`cacheMirrorBlock, this`cacheBlockNumber, this`disk, card, cacheBuffer
      ensures Valid() && Wedged() == old(Wedged())
      ensures ok ==> disk == old(disk)[blockNumber := ZeroBlock()]
      ensures ok ==> cacheBlockNumber == blockNumber && cacheDirty
      ensures !ok ==> disk == old(disk) && card.faults > old(card.faults)
      ensures card.faults >= old(card.faults)
    {
      ok := CacheFlush();
      if !ok {
        return false;
      }
      var i := 0;
      while i < 512
        invariant i <= 512
        invariant forall k | 0 <= k < i :: cacheBuffer[k] == 0
        modifies cacheBuffer
      {
        cacheBuffer[i] := 0;
        i := i + 1;
      }
      cacheBlockNumber := blockNumber;
      cacheDirty := true;
      assert cacheBuffer[..] == ZeroBlock();
      disk := disk[blockNumber := ZeroBlock()];
      TableFramed(g, old(disk), disk);
      return true;
    }

    /** In the bytes of the table, entry `c` is `value`. */
    ghost predicate Reads(c: nat, value: nat)
      requires g.Valid(size) && |disk| == size
      reads this`disk
    {
      c < g.TableLength() && Width(g) * c + Width(g) <= 512 * g.blocksPerFat
      && value == EntryOf(g, TableBytes(g, disk, 0), c)
    }

    /** In the bytes of the table on `was`, only entry `c` was changed, to `value`;
        the other copy of the table, if there is one, has the same bytes. */
    ghost predicate Stores(was: Disk, c: nat, value: nat)
      requires g.Valid(size) && |disk| == |was| == size
      reads this`disk
    {
      && OnlyEntryStored(g, TableBytes(g, was, 0), TableBytes(g, disk, 0), c, value)
      && (g.fatCount > 1 ==> TableBytes(g, disk, 1) == TableBytes(g, disk, 0))
    }

    /** Fetch a table entry. */
    method FatGet(cluster: nat) returns (ok: bool, value: nat)
      requires Valid()
      modifies this`cacheDirty, this`cacheMirrorBlock, this`cacheBlockNumber, card, cacheBuffer
      ensures Valid() && Wedged() == old(Wedged())
      ensures !old(cacheDirty) ==> !cacheDirty
      ensures ok ==> cluster < g.TableLength() && value == Fat()[cluster]
      ensures ok ==> Reads(cluster, value)
      ensures ok ==> g.InTables(cacheBlockNumber)
      ensures !ok ==> cluster >= g.TableLength() || card.faults > old(card.faults)
      ensures card.faults >= old(card.faults)
    {
      value := 0;
      if cluster > g.clusterCount + 1 {
        return false, 0;
      }
      TableBlockInFirst(g, size, cluster);
      var lba := g.TableBlock(cluster);
      if lba != cacheBlockNumber {
        ok := CacheRawBlock(lba, false);
        if !ok {
          return false, 0;
        }
      }
      EntryPlace(g, size, cluster);
      TableIsBytes(g, disk, cluster);
      return true, EntryIn(g, cacheBuffer[..], cluster);
    }

    /** Store a table entry, to be mirrored into the second table. Entries 0
        and 1 are refused. */
    method FatPut(cluster: nat, value: nat) returns (ok: bool)
      requires Valid()
      requires Stored(g, value) == 0 && g.IsCluster(cluster) ==> allocSearchStart <= cluster
      modifies this`cacheDirty, this`cacheMirrorBlock, this`cacheBlockNumber, this`disk, card, cacheBuffer
      ensures Valid() && Wedged() == old(Wedged())
      ensures ok ==> g.IsCluster(cluster) && g.InTables(cacheBlockNumber)
      ensures ok ==> Fat() == old(Fat())[cluster := Stored(g, value)]
      ensures ok ==> Stores(old(disk), cluster, value)
      ensures SameOutsideTables(g, old(disk), disk)
      ensures !ok ==> disk == old(disk)
      ensures !ok ==> !g.IsCluster(cluster) || card.faults > old(card.faults)
      ensures card.faults >= old(card.faults)
    {
      hide Stores;
      if cluster < 2 {
        return false;
      }
      if cluster > g.clusterCount + 1 {
        return false;
      }
      TableBlockInFirst(g, size, cluster);
      var lba := g.TableBlock(cluster);
      if lba != cacheBlockNumber {
        ok := CacheRawBlock(lba, false);
        if !ok {
          return false;
        }
      }
      SetEntry(cluster, value);
      return true;
    }

    method SetEntryBytes(cluster: nat, value: nat)
      requires cacheBuffer.Length == 512
      modifies cacheBuffer
      ensures cacheBuffer[..] == WithEntry(g, old(cacheBuffer[..]), cluster, value)
    {
      if g.fatType == 16 {
        var at := 2 * (cluster % 256);
        cacheBuffer[at] := value % 0x100;
        cacheBuffer[at + 1] := value / 0x100 % 0x100;
      } else {
        var at := 4 * (cluster % 128);
        var low, high := value % 0x1_0000, value / 0x1_0000 % 0x1_0000;
        cacheBuffer[at] := low % 0x100;
        cacheBuffer[at + 1] := low / 0x100 % 0x100;
        cacheBuffer[at + 2] := high % 0x100;
        cacheBuffer[at + 3] := high / 0x100 % 0x100;
      }
      assert cacheBuffer[..] == WithEntry(g, old(cacheBuffer[..]), cluster, value);
    }

    /** Change the entry in the cached table block and mark it for both copies. */
    method SetEntry(cluster: nat, value: nat)
      requires Valid() && !Wedged()
      requires g.IsCluster(cluster) && cacheBlockNumber == g.TableBlock(cluster) && g.InFirstTable(cacheBlockNumber)
      requires cacheBuffer[..] == disk[cacheBlockNumber]
      requires Stored(g, value) == 0 ==> allocSearchStart <= cluster
      modifies this`cacheDirty, this`cacheMirrorBlock, this`disk, cacheBuffer
      ensures Valid() && !Wedged()
      ensures Fat() == old(Fat())[cluster := Stored(g, value)]
      ensures Stores(old(disk), cluster, value)
      ensures SameOutsideTables(g, old(disk), disk)
    {
      hide Overlay, OnlyEntryStored, TableBytes;
      SetEntryBytes(cluster, value);
      EntryStored(g, card.blocks, cacheBlockNumber, cacheDirty, cacheMirrorBlock,
                  old(cacheBuffer[..]), disk, cluster, value, allocSearchStart);
      cacheDirty := true;
      if g.fatCount > 1 {
        cacheMirrorBlock := cacheBlockNumber + g.blocksPerFat;
      }
      disk := WithTableBlock(g, disk, cacheBlockNumber, cacheBuffer[..]);
      StoreBytes(g, old(disk), cluster, value);
      if g.fatCount > 1 {
        SameCopies(g, disk);
      }
    }

    method FatPutEoc(cluster: nat) returns (ok: bool)
      requires Valid()
      modifies this`cacheDirty, this`cacheMirrorBlock, this`cacheBlockNumber, this`disk, card, cacheBuffer
      ensures Valid() && Wedged() == old(Wedged())
      ensures ok ==> g.IsCluster(cluster) && g.InTables(cacheBlockNumber)
      ensures ok ==> Fat() == old(Fat())[cluster := Stored(g, FAT_EOC)]
      ensures SameOutsideTables(g, old(disk), disk)
      ensures !ok ==> disk == old(disk)
      ensures !ok ==> !g.IsCluster(cluster) || card.faults > old(card.faults)
      ensures card.faults >= old(card.faults)
    {
      StoredValues(g, size, 0);
      ok := FatPut(cluster, FAT_EOC);
    }

    /** Search the table for `count` consecutive free clusters, from `start` to
        its end and on from its beginning, looking at every entry once. */
    method FindRun(start: nat, count: nat) returns (ok: bool, bgnCluster: nat)
      requires Valid() && count >= 1 && 2 <= start <= g.TableLength()
      modifies this`cacheDirty, this`cacheMirrorBlock, this`cacheBlockNumber, card, cacheBuffer
      ensures Valid() && Wedged() == old(Wedged())
      ensures ok ==> NextFit(Fat(), start, count, bgnCluster)
      ensures !ok ==> NoFit(Fat(), start, count) || card.faults > old(card.faults)
      ensures card.faults >= old(card.faults)
    {
      hide Valid, Fat, Searching, NoFit, NextFit, Reads;
      bgnCluster := start;
      var endCluster := start;
      var fatEnd := g.clusterCount + 1;
      var n := 0;
      ghost var fat := Fat();
      ghost var low := start;
      SearchStarts(fat, start, count);
      while true
        invariant Valid() && Wedged() == old(Wedged()) && card.faults >= old(card.faults)
        invariant 2 <= bgnCluster <= endCluster <= fatEnd + 1 && endCluster - bgnCluster < count
        invariant Searching(fat, start, count, low, bgnCluster, endCluster, n)
        decreases g.clusterCount - n
      {
        if n >= g.clusterCount {
          SearchExhausted(fat, start, count, low, bgnCluster, endCluster, n);
          return false, bgnCluster;
        }
        if endCluster > fatEnd {
          SearchWraps(fat, start, count, low, bgnCluster, n);
          bgnCluster, endCluster, low := 2, 2, 2;
        }
        var got, f := FatGet(endCluster);
        if !got {
          return false, bgnCluster;
        }
        if f != 0 {
          SearchSkips(fat, start, count, low, bgnCluster, endCluster, n);
          bgnCluster := endCluster + 1;
        } else if endCluster - bgnCluster + 1 == count {
          SearchFinds(fat, start, count, low, bgnCluster, endCluster, n);
          return true, bgnCluster;
        } else {
          SearchGrows(fat, start, count, low, bgnCluster, endCluster, n);
        }
        n, endCluster := n + 1, endCluster + 1;
      }
    }

    /** Mark the run as a chain, from its end backwards, and hang it behind
        cluster `tail` unless that is 0. */
    method LinkRun(tail: nat, bgnCluster: nat, count: nat) returns (ok: bool)
      requires Valid() && count >= 1 && FreeRun(Fat(), bgnCluster, count)
      requires tail != 0 ==> g.IsCluster(tail) && Fat()[tail] != 0
      modifies this`cacheDirty, this`cacheMirrorBlock, this`cacheBlockNumber, this`disk, card, cacheBuffer
      ensures Valid() && Wedged() == old(Wedged())
      ensures ok ==> Fat() == Linked(old(Fat()), tail, bgnCluster, count, Stored(g, FAT_EOC))
      ensures ok ==> g.InTables(cacheBlockNumber)
      ensures SameOutsideTables(g, old(disk), disk) && StillUsed(old(Fat()), Fat())
      ensures !ok ==> card.faults > old(card.faults)
      ensures card.faults >= old(card.faults)
    {
      hide Valid, Fat, Linked, LinkedFrom, SameOutsideTables, Stored, StillUsed, Stores;
      ghost var was, mark := Fat(), Stored(g, FAT_EOC);
      var last := bgnCluster + count - 1;
      assert was[last] == 0 && last < g.TableLength() && mark != 0 by { FreeRunEnd(g, size, was, bgnCluster, count); }
      var endCluster := last;
      LinkStarts(was, last, mark);
      ok := FatPutEoc(endCluster);
      if !ok {
        return false;
      }
      while endCluster > bgnCluster
        invariant Valid() && Wedged() == old(Wedged()) && card.faults >= old(card.faults)
        invariant bgnCluster <= endCluster <= last
        invariant Fat() == LinkedFrom(was, endCluster, last, mark) && StillUsed(was, Fat())
        invariant g.InTables(cacheBlockNumber)
        invariant SameOutsideTables(g, old(disk), disk)
        decreases endCluster
      {
        StoredValues(g, size, endCluster);
        ghost var before := disk;
        ok := FatPut(endCluster - 1, endCluster);
        if !ok {
          return false;
        }
        SameOutsideTrans(g, old(disk), before, disk);
        LinkStep(was, endCluster, last, mark);
        endCluster := endCluster - 1;
      }
      LinkEnds(was, tail, bgnCluster, count, mark);
      if tail != 0 {
        StoredValues(g, size, bgnCluster);
        ghost var before := disk;
        ok := FatPut(tail, bgnCluster);
        if !ok {
          return false;
        }
        SameOutsideTrans(g, old(disk), before, disk);
      }
      return true;
    }

    method SetSearchStart(cluster: nat)
      requires Valid() && HintSound(Fat(), cluster)
      modifies this`allocSearchStart
      ensures Valid() && allocSearchStart == cluster
    {
      allocSearchStart := cluster;
    }

    /** Allocate `count` consecutive clusters. With `curCluster` 0 they start a
        chain and are searched for from the hint on; otherwise they extend the
        chain that ends at `curCluster`, and the search starts behind it. */
    method AllocContiguous(count: nat, curCluster: nat) returns (ok: bool, cluster: nat)
      requires Valid() && count >= 1
      requires curCluster != 0 ==> g.IsCluster(curCluster) && Fat()[curCluster] != 0
      modifies this`cacheDirty, this`cacheMirrorBlock, this`cacheBlockNumber, this`disk, this`allocSearchStart,
               card, cacheBuffer
      ensures Valid() && Wedged() == old(Wedged())
      ensures ok ==> FreeRun(old(Fat()), cluster, count) && g.InTables(cacheBlockNumber)
      ensures ok ==> Fat() == Linked(old(Fat()), curCluster, cluster, count, Stored(g, FAT_EOC))
      ensures ok ==>
                NextFit(old(Fat()), if curCluster == 0 then old(allocSearchStart) else curCluster + 1, count, cluster)
      ensures allocSearchStart == if ok && curCluster == 0 && count == 1 then cluster + 1 else old(allocSearchStart)
      ensures ok && curCluster == 0 ==> forall a: nat | FreeRun(old(Fat()), a, count) :: cluster <= a
      ensures !ok && card.faults == old(card.faults) ==>
                disk == old(disk)
                && NoFit(old(Fat()), if curCluster == 0 then old(allocSearchStart) else curCluster + 1, count)
      ensures !ok && card.faults == old(card.faults) && curCluster == 0
              ==> forall a: nat :: !FreeRun(old(Fat()), a, count)
      ensures !ok && card.faults == old(card.faults) && count == 1 ==> FreeClusters(old(Fat())) == {}
      ensures SameOutsideTables(g, old(disk), disk) && StillUsed(old(Fat()), Fat())
      ensures card.faults >= old(card.faults)
    {
      hide Valid, Fat, Linked, NextFit, NoFit, StillUsed;
      var start, setStart := allocSearchStart, count == 1;
      if curCluster != 0 {
        start, setStart := curCluster + 1, false;
      }
      ghost var fat := Fat();
      StillUsedRefl(fat);
      ok, cluster := FindRun(start, count);
      if ok {
        NextFitIsFree(fat, start, count, cluster);
      } else {
        SearchFailed(fat, start, count, curCluster == 0, card.faults > old(card.faults));
        return false, cluster;
      }
      if curCluster == 0 {
        FirstFit(fat, start, count, cluster);
      }
      ok := LinkRun(curCluster, cluster, count);
      if ok && setStart {
        HintAdvances(fat, start, cluster, Stored(g, FAT_EOC));
        SetSearchStart(cluster + 1);
      }
    }

    /** Free the chain that starts at `start`. It terminates on every table:
        each round either frees a used entry or leaves the clusters for good.
        Without card faults it succeeds exactly on the head of a well-formed
        chain, and then it has freed exactly that chain. */
    method FreeChain(start: nat) returns (ok: bool, ghost freed: seq<nat>)
      requires Valid()
      modifies this`cacheDirty, this`cacheMirrorBlock, this`cacheBlockNumber, this`disk, this`allocSearchStart,
               card, cacheBuffer
      ensures Valid() && Wedged() == old(Wedged()) && allocSearchStart == 2
      ensures ok ==> IsChain(old(Fat()), g.EocMin(), freed) && freed[0] == start
      ensures ok ==> Fat() == Freed(old(Fat()), freed)
      ensures !ok && card.faults == old(card.faults) ==> !HeadsChain(old(Fat()), g.EocMin(), start)
      ensures SameOutsideTables(g, old(disk), disk)
      ensures card.faults >= old(card.faults)
    {
      hide Valid, Fat, Walked, SameOutsideTables, HeadsChain, IsChain, UsedEntries, Stored, Reads, Stores;
      ghost var fat, eoc := Fat(), g.EocMin();
      ghost var lost := false;
      SetSearchStart(2);
      StoredValues(g, size, 0);
      freed := [];
      var cluster: nat := start;
      WalkStarts(fat, start);
      SameOutsideRefl(g, disk);
      while true
        invariant Valid() && Wedged() == old(Wedged()) && card.faults >= old(card.faults)
        invariant allocSearchStart == 2
        invariant SameOutsideTables(g, old(disk), disk)
        invariant if lost then cluster == 0 && !HeadsChain(fat, eoc, start)
                  else Walked(fat, start, freed, cluster) && Fat() == Freed(fat, freed)
        invariant !lost ==> cluster < eoc || freed == []
        decreases |UsedEntries(Fat())|, if cluster >= 2 then 1 else 0
      {
        ghost var now, seen := Fat(), disk;
        var ok', next := FatGet(cluster);
        if ok' {
          ok' := FatPut(cluster, 0);
          SameOutsideTrans(g, old(disk), seen, disk);
        }
        if !lost && (if ok' then next == 0 else card.faults == old(card.faults)) {
          WalkDerailed(fat, eoc, start, freed, cluster);
        }
        if !ok' {
          return false, freed;
        }
        if next == 0 {
          lost := true;
          assert Fat() == now;
        } else {
          FreeingLowersUse(now, cluster);
          WalkStep(fat, start, freed, cluster);
          freed := freed + [cluster];
        }
        cluster := next;
        if cluster >= g.EocMin() {
          WalkComplete(fat, eoc, start, freed, cluster);
          return true, freed;
        }
      }
    }

    /** Size in bytes of the chain that starts at `start`. */
    method ChainSize(start: nat, ghost ch: seq<nat>) returns (ok: bool, bytes: nat)
      requires Valid() && IsChain(Fat(), g.EocMin(), ch) && ch[0] == start
      modifies this`cacheDirty, this`cacheMirrorBlock, this`cacheBlockNumber, card, cacheBuffer
      ensures Valid() && Wedged() == old(Wedged())
      ensures ok ==> bytes == 512 * g.BlocksOf(|ch|) % TWO32
      ensures !ok ==> card.faults > old(card.faults)
      ensures card.faults >= old(card.faults)
    {
      hide Valid, Fat, Reads, Layout.BlocksOf;
      ghost var fat, n := Fat(), 0;
      SizeStep(g, 0);
      var cluster := start;
      bytes := 0;
      while true
        invariant Valid() && Wedged() == old(Wedged()) && card.faults >= old(card.faults)
        invariant 0 <= n < |ch| && cluster == ch[n]
        invariant bytes == 512 * g.BlocksOf(n) % TWO32
        decreases |ch| - n
      {
        var got, next := FatGet(cluster);
        if !got {
          return false, 0;
        }
        SizeStep(g, n);
        bytes := (bytes + 512 * g.blocksPerCluster) % TWO32;
        if n < |ch| - 1 {
          assert fat[ch[n]] == ch[n + 1];
        }
        cluster, n := next, n + 1;
        if cluster >= g.EocMin() {
          return true, bytes;
        }
      }
    }

    /** Read a slice of a block past the cache. It agrees with the disk as seen
        for every block that is neither cached nor part of a table. */
    method ReadData(blockNumber: nat, skip: nat, count: nat, dst: array<byte>, at: nat) returns (ok: bool)
      requires Valid() && blockNumber < size && blockNumber != cacheBlockNumber && !g.InTables(blockNumber)
      requires dst != cacheBuffer && skip + count <= 512 && at + count <= dst.Length
      modifies card, dst
      ensures Valid() && Wedged() == old(Wedged())
      ensures ok ==> dst[..] == Overwrite(old(dst[..]), at, disk[blockNumber][skip..skip + count])
      ensures !ok ==> card.faults > old(card.faults)
      ensures card.faults >= old(card.faults)
    {
      ok := card.ReadData(blockNumber, skip, count, dst, at);
    }

    /** Copy a slice of the cached block out. */
    method CopyCached(skip: nat, count: nat, dst: array<byte>, at: nat)
      requires cacheBuffer.Length == 512 && dst != cacheBuffer
      requires skip + count <= 512 && at + count <= dst.Length
      modifies dst
      ensures dst[..] == Overwrite(old(dst[..]), at, cacheBuffer[skip..skip + count])
    {
      var i := 0;
      while i < count
        invariant i <= count
        invariant forall k | 0 <= k < dst.Length ::
                    dst[k] == if at <= k < at + i then cacheBuffer[skip + k - at] else old(dst[k])
      {
        dst[at + i] := cacheBuffer[skip + i];
        i := i + 1;
      }
      assert dst[..] == Overwrite(old(dst[..]), at, cacheBuffer[skip..skip + count]);
    }

    method FillCached(at: nat, src: seq<byte>)
      requires cacheBuffer.Length == 512 && at + |src| <= 512
      modifies cacheBuffer
      ensures cacheBuffer[..] == Overwrite(old(cacheBuffer[..]), at, src)
    {
      var i := 0;
      while i < |src|
        invariant i <= |src|
        invariant forall k | 0 <= k < 512 ::
                    cacheBuffer[k] == if at <= k < at + i then src[k - at] else old(cacheBuffer[k])
      {
        cacheBuffer[at + i] := src[i];
        i := i + 1;
      }
      assert cacheBuffer[..] == Overwrite(old(cacheBuffer[..]), at, src);
    }

    /** Change bytes of the cached block, which is dirty and not part of a table. */
    method StoreCached(at: nat, src: seq<byte>)
      requires Valid() && cacheDirty && cacheBlockNumber < size && !g.InTables(cacheBlockNumber)
      requires at + |src| <= 512
      modifies this`disk, cacheBuffer
      ensures Valid()
      ensures disk == old(disk)[cacheBlockNumber := Overwrite(old(disk[cacheBlockNumber]), at, src)]
      ensures cacheBuffer[..] == disk[cacheBlockNumber]
    {
      FillCached(at, src);
      disk := disk[cacheBlockNumber := cacheBuffer[..]];
      TableFramed(g, old(disk), disk);
    }

    /** Start a block in the cache without reading it: its bytes are whatever
        the buffer held before. */
    method CacheNewBlock(blockNumber: nat) returns (ok: bool)
      requires Valid() && blockNumber < size && !g.InTables(blockNumber)
      modifies this`cacheDirty, this`cacheMirrorBlock, this`cacheBlockNumber, this`disk, card
      ensures Valid() && Wedged() == old(Wedged())
      ensures ok ==> cacheBlockNumber == blockNumber && cacheDirty
      ensures SameExcept(old(disk), disk, blockNumber)
      ensures !ok ==> disk == old(disk) && card.faults > old(card.faults)
      ensures card.faults >= old(card.faults)
    {
      ok := CacheFlush();
      if !ok {
        return false;
      }
      cacheBlockNumber := blockNumber;
      cacheDirty := true;
      disk := disk[blockNumber := cacheBuffer[..]];
      TableFramed(g, old(disk), disk);
      return true;
    }

    /** Forget a cached block that is about to be written past the cache. Its
        dirty mark stays: if it was set, the volume is wedged from here on. */
    method ForgetCached(blockNumber: nat)
      requires Valid() && blockNumber < size && !g.InTables(blockNumber)
      modifies this`cacheBlockNumber, this`disk
      ensures Valid() && cacheBlockNumber != blockNumber
      ensures cacheBlockNumber == if old(cacheBlockNumber) == blockNumber then 0xFFFF_FFFF else old(cacheBlockNumber)
      ensures SameExcept(old(disk), disk, blockNumber)
    {
      if cacheBlockNumber == blockNumber {
        cacheBlockNumber := NO_BLOCK;
        disk := card.blocks;
        TableFramed(g, old(disk), disk);
      }
    }

    /** Write a whole block past the cache. */
    method WriteBlock(blockNumber: nat, src: Block) returns (ok: bool)
      requires Valid() && blockNumber < size && blockNumber != cacheBlockNumber && !g.InTables(blockNumber)
      modifies this`disk, card
      ensures Valid()
      ensures ok ==> disk == old(disk)[blockNumber := src]
      ensures SameExcept(old(disk), disk, blockNumber)
      ensures !ok ==> card.faults > old(card.faults)
      ensures card.faults >= old(card.faults)
    {
      ok := card.WriteBlock(blockNumber, src);
      disk := disk[blockNumber := card.blocks[blockNumber]];
      TableFramed(g, old(disk), disk);
    }
  }

  /** Every cluster below the search hint is in use. */
  ghost predicate HintSound(fat: Table, start: nat) {
    2 <= start <= |fat| && InUseBelow(fat, start)
  }

  /** The table while a run up to `last` is being linked, from `from` on. */
  ghost function LinkedFrom(fat: Table, from: nat, last: nat, mark: nat): (r: Table)
    ensures |r| == |fat|
  {
    seq(|fat|, c requires 0 <= c < |fat| =>
      if c == last then mark else if from <= c < last then c + 1 else fat[c])
  }

  lemma FreeRunEnd(g: Layout, size: nat, fat: Table, bgn: nat, count: nat)
    requires g.Valid(size) && |fat| == g.TableLength() && count >= 1 && FreeRun(fat, bgn, count)
    ensures bgn + count - 1 < |fat| && fat[bgn + count - 1] == 0 && Stored(g, FAT_EOC) != 0
  {
  }

  lemma LinkStarts(fat: Table, last: nat, mark: nat)
    requires last < |fat| && mark != 0
    ensures fat[last := mark] == LinkedFrom(fat, last, last, mark)
    ensures StillUsed(fat, fat) && StillUsed(fat, LinkedFrom(fat, last, last, mark))
  {
  }

  lemma LinkStep(fat: Table, from: nat, last: nat, mark: nat)
    requires 0 < from <= last < |fat| && mark != 0
    ensures LinkedFrom(fat, from, last, mark)[from - 1 := from] == LinkedFrom(fat, from - 1, last, mark)
    ensures StillUsed(fat, LinkedFrom(fat, from - 1, last, mark))
  {
  }

  lemma LinkEnds(fat: Table, tail: nat, bgn: nat, count: nat, mark: nat)
    requires count >= 1 && FreeRun(fat, bgn, count) && tail < |fat|
    requires tail != 0 ==> fat[tail] != 0
    requires mark != 0
    ensures StillUsed(fat, Linked(fat, tail, bgn, count, mark))
    ensures var linked := LinkedFrom(fat, bgn, bgn + count - 1, mark);
            Linked(fat, tail, bgn, count, mark) == if tail == 0 then linked else linked[tail := bgn]
  {
  }

  lemma StillUsedRefl(fat: Table)
    ensures StillUsed(fat, fat)
  {
  }

  lemma SameOutsideRefl(g: Layout, a: Disk)
    ensures SameOutsideTables(g, a, a)
  {
  }

  lemma SameOutsideTrans(g: Layout, a: Disk, b: Disk, c: Disk)
    requires SameOutsideTables(g, a, b) && SameOutsideTables(g, b, c)
    ensures SameOutsideTables(g, a, c)
  {
  }

  /** After a single cluster was taken by first fit, everything up to it is in
      use, so the next search may start behind it. */
  lemma HintAdvances(fat: Table, start: nat, cluster: nat, mark: nat)
    requires HintSound(fat, start) && mark != 0
    requires NextFit(fat, start, 1, cluster)
    ensures HintSound(Linked(fat, 0, cluster, 1, mark), cluster + 1)
  {
    forall c | 2 <= c < cluster
      ensures fat[c] != 0
    {
      assert c >= start ==> !FreeRun(fat, c, 1);
    }
  }

  lemma SearchFailed(fat: Table, start: nat, count: nat, fromHint: bool, fault: bool)
    requires 2 <= start && count >= 1
    requires fromHint ==> InUseBelow(fat, start)
    requires fault || NoFit(fat, start, count)
    ensures !fault && fromHint ==> forall a: nat :: !FreeRun(fat, a, count)
    ensures !fault && count == 1 ==> FreeClusters(fat) == {}
  {
    if !fault {
      if fromHint {
        FirstFitComplete(fat, start, count);
      }
      if count == 1 {
        SingleFitComplete(fat, start);
      }
    }
  }

  /** Storing an entry in the cached table block and scheduling its mirror
      write: what becomes of the disk as seen, the table and the hint. */
  lemma EntryStored(g: Layout, blocks: Disk, number: nat, dirty: bool, mirror: nat, buffer: Block,
                    disk: Disk, c: nat, v: nat, hint: nat)
    requires g.Valid(|blocks|) && g.InFirstTable(number) && g.IsCluster(c) && number == g.TableBlock(c)
    requires mirror != 0 ==> dirty && g.fatCount > 1 && mirror == number + g.blocksPerFat
    requires !dirty ==> buffer == blocks[number]
    requires disk == Overlay(blocks, number, dirty, mirror, buffer) && buffer == disk[number]
    requires MirrorsAgree(g, disk) && HintSound(TableOf(g, disk), hint)
    requires Stored(g, v) == 0 ==> hint <= c
    ensures var buffer' := WithEntry(g, buffer, c, v);
            var mirror' := if g.fatCount > 1 then number + g.blocksPerFat else mirror;
            var disk' := WithTableBlock(g, disk, number, buffer');
            && disk' == Overlay(blocks, number, true, mirror', buffer')
            && MirrorsAgree(g, disk')
            && TableOf(g, disk') == TableOf(g, disk)[c := Stored(g, v)]
            && HintSound(TableOf(g, disk'), hint)
            && SameOutsideTables(g, disk, disk')
  {
    var buffer' := WithEntry(g, buffer, c, v);
    OverlayTable(g, blocks, number, dirty, mirror, buffer, buffer');
    StoreEntry(g, disk, c, v);
    StoreKeepsMirror(g, disk, number, buffer');
  }

  /** One more cluster, in 32 bits. */
  lemma SizeStep(g: Layout, n: nat)
    ensures 512 * g.BlocksOf(0) == 0
    ensures (512 * g.BlocksOf(n) % TWO32 + 512 * g.blocksPerCluster) % TWO32 == 512 * g.BlocksOf(n + 1) % TWO32
  {
    AddInWord(512 * g.BlocksOf(n), 512 * g.blocksPerCluster);
  }

  lemma AddInWord(a: nat, b: nat)
    ensures (a % TWO32 + b) % TWO32 == (a + b) % TWO32
  {
    var q := a / TWO32;
    assert a + b == TWO32 * q + (a % TWO32 + b);
  }

  function ZeroBlock(): Block {
    seq(512, _ => 0)
  }
}
