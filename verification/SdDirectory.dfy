/** Finding, creating and removing files by name. */
module Directories {
  import opened Bytes
  import opened Geometry
  import opened Chains
  import opened TableBlocks
  import opened FileBytes
  import opened DirEntry
  import opened SdCard
  import opened Volume
  import opened Files
  import opened Directory
  import opened Frames
  import Names

  /** How a search ends: at the entry with this index in the cached block, or
      without the name, having met an unused slot or not. */
  datatype Outcome = Found(index: nat) | Missing(emptyFound: bool)

  /** On `disk`, a directory handle is in order and its slots have the chains
      `chains`. */
  ghost predicate HandleOn(dir: SdFile, disk: Disk, chains: seq<seq<nat>>, open: set<nat>)
    reads dir`fileType, dir`chain, dir`fileSize, dir`firstCluster, dir`flags, dir`dirBlock, dir`dirIndex, dir`attributes
    ensures HandleOn(dir, disk, chains, open) ==> |disk| == dir.vol.size && dir.vol.g.Valid(dir.vol.size)
    ensures HandleOn(dir, disk, chains, open) ==> DirSound(dir.vol.g, disk, dir.Place(), dir.fileSize, chains, open)
  {
    && |disk| == dir.vol.size
    && dir.ReadsEntries()
    && ChainOk(dir.vol.g, disk, dir.fileType == Root16, dir.chain, dir.firstCluster, dir.fileSize)
    && DirSound(dir.vol.g, disk, dir.Place(), dir.fileSize, chains, open)
    && (dir.fileType != Root16 ==> dir.fileSize == 512 * dir.vol.g.BlocksOf(|dir.chain|))
    && if dir.fileType == SubDir then
         && EntryOk(dir.vol.g, disk, false, dir.chain, dir.flags.dirDirty, dir.firstCluster, dir.fileSize,
                    dir.dirBlock, dir.dirIndex, dir.attributes)
         && SafeFrom(dir.vol.g, disk, chains, dir.dirBlock)
       else !dir.flags.dirDirty && (dir.fileType == Root32 ==> dir.chain != [])
  }

  /** Block `b`, which holds a directory's own entry, is in none of the chains. */
  ghost predicate SafeFrom(g: Layout, disk: Disk, chains: seq<seq<nat>>, b: nat)
    requires g.Valid(|disk|)
  {
    forall k | 0 <= k < |chains| :: EntryBlockSafe(g, |disk|, TableOf(g, disk), chains[k], b)
  }

  /** A directory handle with the chains of its slots. */
  ghost predicate DirHandle(dir: SdFile, chains: seq<seq<nat>>, open: set<nat>)
    reads dir, dir.vol, dir.vol.card, dir.vol.cacheBuffer
    ensures DirHandle(dir, chains, open) ==> dir.Open()
    ensures DirHandle(dir, chains, open) ==>
              dir.vol.Valid() && dir.vol.g.Valid(dir.vol.size) && |dir.vol.disk| == dir.vol.size
    ensures DirHandle(dir, chains, open) ==>
              Sound(dir.vol.g, dir.Place()) && dir.fileSize <= 512 * NumBlocks(dir.vol.g, dir.Place())
  {
    dir.vol.Valid() && HandleOn(dir, dir.vol.disk, chains, open)
  }

  /** The first `k` slots neither hold the name nor are free. */
  ghost predicate Passed(data: seq<byte>, name: seq<byte>, k: nat) {
    && k <= |data| / 32
    && forall j | 0 <= j < k :: !IsFree(Slot(data, j)) && !(IsLive(Slot(data, j)) && Name(Slot(data, j)) == name)
  }

  /** The first unused slot, if there was one before `k`. */
  ghost predicate UnusedSeen(data: seq<byte>, k: nat, emptyFound: bool, slot: nat)
    requires k <= |data| / 32
  {
    if emptyFound then FirstUnused(data, slot) else AllLive(data, k)
  }

  ghost predicate NoneUnused(data: seq<byte>) { AllLive(data, |data| / 32) }

  ghost predicate AllLive(data: seq<byte>, k: nat)
    requires k <= |data| / 32
  {
    forall j | 0 <= j < k :: IsLive(Slot(data, j))
  }

  lemma PassNone(data: seq<byte>, name: seq<byte>)
    ensures Passed(data, name, 0) && UnusedSeen(data, 0, false, 0)
  {
  }

  lemma SeenAll(data: seq<byte>, emptyFound: bool, slot: nat)
    requires UnusedSeen(data, |data| / 32, emptyFound, slot)
    ensures if emptyFound then FirstUnused(data, slot) else AllLive(data, |data| / 32)
  {
  }

  lemma PassedAll(data: seq<byte>, name: seq<byte>, k: nat)
    requires Passed(data, name, k) && (k == |data| / 32 || IsFree(Slot(data, k)))
    ensures NameMissing(data, name)
  {
    forall j: nat
      ensures !HoldsName(data, name, j)
    {
      if k < j <= |data| / 32 {
        assert IsFree(Slot(data, k));
      }
    }
  }

  /** Looking at slot `k`. */
  lemma PassSlot(data: seq<byte>, name: seq<byte>, k: nat, emptyFound: bool, slot: nat)
    requires Passed(data, name, k) && UnusedSeen(data, k, emptyFound, slot) && k < |data| / 32
    ensures var p := Slot(data, k);
            && (IsLive(p) && Name(p) == name ==> HoldsName(data, name, k))
            && (!IsFree(p) && !(IsLive(p) && Name(p) == name) ==> Passed(data, name, k + 1))
            && (!IsLive(p) && !emptyFound ==> FirstUnused(data, k))
            && (IsLive(p) || emptyFound ==> UnusedSeen(data, k + 1, emptyFound, slot))
            && (!IsLive(p) && !emptyFound ==> UnusedSeen(data, k + 1, true, k))
            && (IsFree(p) ==> NameMissing(data, name))
  {
    if IsFree(Slot(data, k)) {
      PassedAll(data, name, k);
    }
  }

  /** The next slot of a directory, left in the cache. */
  method NextSlot(dir: SdFile) returns (ok: bool, i: nat, p: Entry)
    requires dir.Valid() && dir.ReadsEntries() && dir.curPosition % 32 == 0 && dir.curPosition + 32 <= dir.fileSize
    modifies dir`curPosition, dir`curCluster,
             dir.vol`cacheDirty, dir.vol`cacheMirrorBlock, dir.vol`cacheBlockNumber, dir.vol.card, dir.vol.cacheBuffer
    ensures dir.vol.Valid() && dir.vol.Wedged() == old(dir.vol.Wedged())
    ensures ok ==> dir.Valid() && dir.curPosition == old(dir.curPosition) + 32
    ensures ok ==> i == old(dir.curPosition) / 32 % 16 && p == Slot(dir.Data(), old(dir.curPosition) / 32)
    ensures ok ==> dir.CachedAt(old(dir.curPosition) / 32 / 16)
    ensures ok ==> old(dir.curPosition) / 32 / 16 < NumBlocks(dir.vol.g, dir.Place())
                   && dir.vol.cacheBlockNumber
                      == SlotBlock(dir.vol.g, dir.vol.size, dir.Place(), old(dir.curPosition) / 32)
    ensures !ok ==> dir.vol.card.faults > old(dir.vol.card.faults)
    ensures dir.vol.card.faults >= old(dir.vol.card.faults)
  {
    hide SdVolume.Valid, SdFile.ChainValid, SdFile.EntryValid, SdFile.CursorValid, SdFile.Data, SdFile.CachedAt;
    p := seq(32, _ => 0);
    ok, i := dir.ReadDirCache();
    if ok {
      p := EntryAt(dir.vol.cacheBuffer[..], i);
      EntryOffset(old(dir.curPosition));
      CachedSlot(dir, old(dir.curPosition) / 32);
    }
  }

  lemma HandleFacts(dir: SdFile, chains: seq<seq<nat>>, open: set<nat>)
    requires DirHandle(dir, chains, open)
    ensures dir.Open() && dir.ReadsEntries() && dir.fileSize % 32 == 0
  {
  }

  /** The first unused slot seen is remembered in the handle to be opened. */
  ghost predicate SlotNoted(f: SdFile, dir: SdFile, slot: nat)
    requires dir.vol.g.Valid(dir.vol.size) && Sound(dir.vol.g, dir.Place())
    reads f`dirIndex, f`dirBlock, dir`fileType, dir`chain
  {
    && slot / 16 < NumBlocks(dir.vol.g, dir.Place())
    && f.dirIndex == slot % 16 && f.dirBlock == SlotBlock(dir.vol.g, dir.vol.size, dir.Place(), slot)
  }

  /** A search for `name` has got to the slot at the directory's position. */
  ghost predicate Searched(f: SdFile, dir: SdFile, name: seq<byte>, emptyFound: bool, slot: nat,
                           chains: seq<seq<nat>>, open: set<nat>)
    reads f, dir, dir.vol, dir.vol.card, dir.vol.cacheBuffer
    ensures Searched(f, dir, name, emptyFound, slot, chains, open) ==> DirHandle(dir, chains, open) && dir.Valid()
  {
    && DirHandle(dir, chains, open)
    && dir.Valid()
    && dir.curPosition % 32 == 0
    && Passed(dir.Data(), name, dir.curPosition / 32)
    && UnusedSeen(dir.Data(), dir.curPosition / 32, emptyFound, slot)
    && (emptyFound ==> SlotNoted(f, dir, slot))
  }

  /** What a search that ends with `outcome` has found out. */
  ghost predicate Settled(f: SdFile, dir: SdFile, name: seq<byte>, outcome: Outcome, slot: nat, chains: seq<seq<nat>>,
                          open: set<nat>)
    reads f, dir, dir.vol, dir.vol.card, dir.vol.cacheBuffer
    ensures Settled(f, dir, name, outcome, slot, chains, open) ==> DirHandle(dir, chains, open) && dir.Valid()
  {
    && DirHandle(dir, chains, open)
    && dir.Valid()
    && match outcome
       case Found(index) =>
         HoldsName(dir.Data(), name, slot) && index == slot % 16 && dir.CachedAt(slot / 16)
       case Missing(emptyFound) =>
         && NameMissing(dir.Data(), name)
         && if emptyFound then FirstUnused(dir.Data(), slot) && SlotNoted(f, dir, slot)
            else dir.curPosition == dir.fileSize && AllLive(dir.Data(), dir.fileSize / 32)
  }

  /** Search a directory for a name. */
  method SearchDir(f: SdFile, dir: SdFile, dname: seq<byte>, ghost chains: seq<seq<nat>>, ghost open: set<nat>)
    returns (ok: bool, outcome: Outcome, ghost slot: nat)
    requires f != dir && f.vol == dir.vol && DirHandle(dir, chains, open) && |dname| == 11
    modifies f`dirIndex, f`dirBlock, dir`curPosition, dir`curCluster,
             dir.vol`cacheDirty, dir.vol`cacheMirrorBlock, dir.vol`cacheBlockNumber, dir.vol.card, dir.vol.cacheBuffer
    ensures dir.vol.Valid() && dir.vol.Wedged() == old(dir.vol.Wedged())
    ensures ok ==> Settled(f, dir, dname, outcome, slot, chains, open)
    ensures !ok ==> dir.vol.card.faults > old(dir.vol.card.faults)
    ensures dir.vol.card.faults >= old(dir.vol.card.faults)
  {
    hide SdVolume.Valid, SdFile.Valid, Searched, Settled, DirHandle, SdFile.Data;
    var emptyFound, done := false, false;
    slot := 0;
    StartSearch(f, dir, dname, chains, open);
    while dir.curPosition < dir.fileSize
      invariant dir.vol.Valid() && dir.vol.Wedged() == old(dir.vol.Wedged())
      invariant dir.vol.card.faults >= old(dir.vol.card.faults)
      invariant Searched(f, dir, dname, emptyFound, slot, chains, open)
      decreases dir.fileSize - dir.curPosition
    {
      ok, done, outcome, emptyFound, slot := SearchSlot(f, dir, dname, emptyFound, slot, chains, open);
      if !ok || done {
        return;
      }
    }
    NotFound(f, dir, dname, emptyFound, slot, chains, open);
    return true, Missing(emptyFound), slot;
  }

  method StartSearch(f: SdFile, dir: SdFile, dname: seq<byte>, ghost chains: seq<seq<nat>>, ghost open: set<nat>)
    requires f != dir && f.vol == dir.vol && DirHandle(dir, chains, open)
    modifies dir`curPosition, dir`curCluster
    ensures Searched(f, dir, dname, false, 0, chains, open)
  {
    hide SdVolume.Valid, SdFile.Data, DirSound;
    dir.Rewind();
    PassNone(dir.Data(), dname);
  }

  lemma NotFound(f: SdFile, dir: SdFile, dname: seq<byte>, emptyFound: bool, slot: nat, chains: seq<seq<nat>>,
                 open: set<nat>)
    requires Searched(f, dir, dname, emptyFound, slot, chains, open) && dir.curPosition >= dir.fileSize
    ensures Settled(f, dir, dname, Missing(emptyFound), slot, chains, open)
  {
    hide SdVolume.Valid, SdFile.Data, DirSound;
    PassedAll(dir.Data(), dname, dir.curPosition / 32);
    SeenAll(dir.Data(), emptyFound, slot);
  }

  /** Look at one slot. */
  method SearchSlot(f: SdFile, dir: SdFile, dname: seq<byte>, wasFound: bool, ghost was: nat,
                    ghost chains: seq<seq<nat>>, ghost open: set<nat>)
    returns (ok: bool, done: bool, outcome: Outcome, emptyFound: bool, ghost slot: nat)
    requires f != dir && f.vol == dir.vol && |dname| == 11
    requires Searched(f, dir, dname, wasFound, was, chains, open) && dir.curPosition < dir.fileSize
    modifies f`dirIndex, f`dirBlock, dir`curPosition, dir`curCluster,
             dir.vol`cacheDirty, dir.vol`cacheMirrorBlock, dir.vol`cacheBlockNumber, dir.vol.card, dir.vol.cacheBuffer
    ensures dir.vol.Valid() && dir.vol.Wedged() == old(dir.vol.Wedged())
    ensures ok && done ==> Settled(f, dir, dname, outcome, slot, chains, open)
    ensures ok && !done ==>
              Searched(f, dir, dname, emptyFound, slot, chains, open) && dir.curPosition > old(dir.curPosition)
    ensures !ok ==> dir.vol.card.faults > old(dir.vol.card.faults)
    ensures dir.vol.card.faults >= old(dir.vol.card.faults)
  {
    hide SdVolume.Valid, SdFile.Data, SdFile.CachedAt, HandleOn, SdFile.Valid, SdFile.Open,
         Passed, UnusedSeen, FirstUnused, HoldsName, NameMissing, Slot, AllLive, NumBlocks, Sound, SlotBlock,
         Name, IsFree, IsDeleted;
    emptyFound, slot, outcome := wasFound, was, Missing(false);
    HandleFacts(dir, chains, open);
    ghost var k := dir.curPosition / 32;
    PassSlot(dir.Data(), dname, k, wasFound, was);
    var index, p;
    ok, index, p := NextSlot(dir);
    if !ok {
      return false, false, outcome, emptyFound, slot;
    }
    if IsFree(p) || IsDeleted(p) {
      if !emptyFound {
        emptyFound, slot := true, k;
        f.dirIndex := index;
        f.dirBlock := dir.vol.cacheBlockNumber;
      }
      return true, IsFree(p), Missing(emptyFound), emptyFound, slot;
    } else if Name(p) == dname {
      return true, true, Found(index), emptyFound, k;
    }
    return true, false, Missing(emptyFound), emptyFound, slot;
  }

  lemma CachedSlot(dir: SdFile, k: nat)
    requires dir.vol.g.Valid(dir.vol.size) && Sound(dir.vol.g, dir.Place()) && |dir.vol.disk| == dir.vol.size
    requires dir.CachedAt(k / 16)
    ensures k / 16 < NumBlocks(dir.vol.g, dir.Place())
    ensures dir.vol.cacheBlockNumber == SlotBlock(dir.vol.g, dir.vol.size, dir.Place(), k)
  {
  }

  // ---- opening by name ----

  /** An operation on the file of slot `k` that keeps the directory sound keeps
      its handle in order. */
  lemma HandleAfterOp(dir: SdFile, disk: Disk, disk': Disk, chains: seq<seq<nat>>, open: set<nat>,
                      k: nat, ch': seq<nat>, open': set<nat>)
    requires HandleOn(dir, disk, chains, open) && k < |chains|
    requires SlotOp(dir.vol.g, disk, disk', dir.Place(), dir.fileSize, k, chains[k], ch')
    requires DirSound(dir.vol.g, disk', dir.Place(), dir.fileSize, chains[k := ch'], open')
    ensures HandleOn(dir, disk', chains[k := ch'], open')
  {
    hide SlotOp, EntryOk, EntryBlockSafe, DirExtent, NamesUnique, FreeTail, Contents;
    var g := dir.vol.g;
    DirChain(g, disk', dir.Place(), dir.fileSize, chains[k := ch'], open');
    if dir.fileType == SubDir {
      SlotChain(g, disk, dir.Place(), dir.fileSize, chains, open, k);
      SlotOpKeepsEntry(g, disk, disk', dir.Place(), dir.fileSize, k, chains[k], ch', dir.flags.dirDirty,
                       dir.firstCluster, dir.fileSize, dir.dirBlock, dir.dirIndex, dir.attributes);
    }
  }

  lemma DirChain(g: Layout, disk: Disk, x: Extent, n: nat, chains: seq<seq<nat>>, open: set<nat>)
    requires DirSound(g, disk, x, n, chains, open)
    ensures g.Valid(|disk|) && IsChainOrNil(TableOf(g, disk), g.EocMin(), OwnChain(x))
  {
  }

  lemma SlotChain(g: Layout, disk: Disk, x: Extent, n: nat, chains: seq<seq<nat>>, open: set<nat>, k: nat)
    requires DirSound(g, disk, x, n, chains, open) && k < n / 32
    ensures forall c | c in chains[k] :: g.IsCluster(c)
    ensures IsChainOrNil(TableOf(g, disk), g.EocMin(), chains[k]) && Apart(chains[k], OwnChain(x))
  {
  }

  /** `f` is open on the file of slot `k` of `dir`. */
  ghost predicate FileAt(dir: SdFile, f: SdFile, k: nat, chains: seq<seq<nat>>, open: set<nat>)
    reads dir, dir.vol, dir.vol.card, dir.vol.cacheBuffer, f, f.vol, f.vol.card, f.vol.cacheBuffer
    ensures FileAt(dir, f, k, chains, open) ==> DirHandle(dir, chains, open) && f.Valid() && f.vol == dir.vol
    ensures FileAt(dir, f, k, chains, open) ==> k / 16 < NumBlocks(dir.vol.g, dir.Place()) && f != dir
    ensures FileAt(dir, f, k, chains, open) ==> f.fileType != Closed
  {
    && f != dir
    && f.vol == dir.vol
    && DirHandle(dir, chains, open)
    && f.Valid()
    && (f.fileType == Normal || f.fileType == SubDir)
    && (f.fileType == Normal <==> IsFileAttribute(f.attributes))
    && k < |chains|
    && k in open
    && f.chain == chains[k]
    && k / 16 < NumBlocks(dir.vol.g, dir.Place())
    && f.dirBlock == SlotBlock(dir.vol.g, dir.vol.size, dir.Place(), k)
    && f.dirIndex == k % 16
  }

  lemma OpenedSlot(dir: SdFile, disk: Disk, disk': Disk, chains: seq<seq<nat>>, open: set<nat>,
                   name: seq<byte>, k: nat, ch': seq<nat>, cut: bool)
    requires HandleOn(dir, disk, chains, open) && |disk'| == |disk|
    requires HoldsName(Contents(dir.vol.g, disk, dir.Place(), dir.fileSize), name, k)
    requires IsOwner(Slot(Contents(dir.vol.g, disk, dir.Place(), dir.fileSize), k))
    requires k / 16 < NumBlocks(dir.vol.g, dir.Place())
    requires if cut then Cut(dir.vol.g, TableOf(dir.vol.g, disk), disk, chains[k], TableOf(dir.vol.g, disk'), disk',
                             ch', 0, SlotBlock(dir.vol.g, |disk|, dir.Place(), k), k % 16)
             else disk' == disk && ch' == chains[k]
    requires IsChainOrNil(TableOf(dir.vol.g, disk'), dir.vol.g.EocMin(), ch')
    ensures SlotOp(dir.vol.g, disk, disk', dir.Place(), dir.fileSize, k, chains[k], ch')
    ensures HandleOn(dir, disk', chains[k := ch'], open + {k})
    ensures HoldsName(Contents(dir.vol.g, disk', dir.Place(), dir.fileSize), name, k)
    ensures SlotsKept(Contents(dir.vol.g, disk, dir.Place(), dir.fileSize),
                      Contents(dir.vol.g, disk', dir.Place(), dir.fileSize), dir.fileSize / 32, k)
  {
    hide SlotOp, Cut, DirSound, IsChainOrNil, Contents, SlotBlock, ChainOk, EntryOk, SafeFrom, Visible, SameEntryName,
         IsOwner;
    var g, x, n := dir.vol.g, dir.Place(), dir.fileSize;
    if cut {
      CutIsSlotOp(g, disk, disk', x, n, k, chains[k], ch', 0);
    } else {
      NothingIsSlotOp(g, disk, x, n, k, ch');
    }
    OpenOpKeepsDir(g, disk, disk', x, n, chains, open, k, ch');
    HandleAfterOp(dir, disk, disk', chains, open, k, ch', open + {k});
    HoldsNameKept(Contents(g, disk, x, n), Contents(g, disk', x, n), name, k);
  }

  /** The file of slot `k` was opened: it has the stored bytes, or none when it
      was to be truncated, and nothing but that file was touched. */
  ghost predicate OpenedAsStored(g: Layout, disk: Disk, disk': Disk, x: Extent, n: nat, chains: seq<seq<nat>>,
                                 open: set<nat>, k: nat, chains': seq<seq<nat>>, ch': seq<nat>, data: seq<byte>,
                                 normal: bool, trunc: bool) {
    && DirSound(g, disk, x, n, chains, open)
    && k < n / 32
    && k !in open
    && chains' == chains[k := ch']
    && SlotOp(g, disk, disk', x, n, k, chains[k], ch')
    && (trunc ==> data == [])
    && (!trunc ==> disk' == disk && chains' == chains)
    && IsLive(Slot(Contents(g, disk, x, n), k))
    && (normal <==> IsFile(Slot(Contents(g, disk, x, n), k)))
    && (!trunc && normal ==> data == SlotData(g, disk, x, n, chains, open, k))
  }

  /** Open the file of a slot that holds a name and whose block is cached. */
  method OpenSlot(f: SdFile, dir: SdFile, index: nat, oflag: OpenFlags, ghost e: Entry,
                  ghost name: seq<byte>, ghost slot: nat, ghost chains: seq<seq<nat>>, ghost open: set<nat>)
    returns (ok: bool, ghost chains': seq<seq<nat>>)
    requires f != dir && f.vol == dir.vol && f.fileType == Closed
    requires DirHandle(dir, chains, open) && HoldsName(dir.Data(), name, slot) && slot !in open
    requires dir.CachedAt(slot / 16) && index == slot % 16 && e == Slot(dir.Data(), slot) && IsOwner(e)
    modifies f, dir.vol`cacheDirty, dir.vol`cacheMirrorBlock, dir.vol`cacheBlockNumber, dir.vol`disk,
             dir.vol`allocSearchStart, dir.vol.card, dir.vol.cacheBuffer
    ensures dir.vol.Valid() && dir.vol.Wedged() == old(dir.vol.Wedged())
    ensures ok ==> FileAt(dir, f, slot, chains', open + {slot})
    ensures ok ==> f.curPosition == 0 && HoldsName(dir.Data(), name, slot)
    ensures ok ==> f.flags == Flags(oflag.read, oflag.write, oflag.append, oflag.sync, false, false)
    ensures ok ==> SdFile.Opens(e, oflag) && f.fileType == if IsFile(e) then Normal else SubDir
    ensures ok ==> SlotsKept(old(dir.Data()), dir.Data(), dir.fileSize / 32, slot)
    ensures ok ==> OpenedAsStored(dir.vol.g, old(dir.vol.disk), dir.vol.disk, dir.Place(), dir.fileSize, chains, open,
                                  slot, chains', f.chain, f.Data(), f.fileType == Normal, oflag.trunc)
    ensures ok && FileSize(e) == 0 ==> dir.vol.disk == old(dir.vol.disk) && chains' == chains
    ensures ok && FileSize(e) == 0 && IsFile(e) ==> f.fileSize == 0
    ensures !ok ==> !SdFile.Opens(e, oflag) || dir.vol.card.faults > old(dir.vol.card.faults)
    ensures dir.vol.card.faults >= old(dir.vol.card.faults)
  {
    hide SdVolume.Valid, SdFile.Valid, HandleOn, DirSound, Backed, Contents, Cut, SlotOp, HoldsName, SdFile.Opens,
         FileBlock, SlotBlock, Slot, EntryAt, SdFile.CachedAt, NumBlocks, Sound, IsFileAttribute, StoredData, SlotData,
         FileSize, FileAt, SdVolume.Wedged, SlotsKept, IsOwner;
    chains' := chains;
    ghost var disk := dir.vol.disk;
    SlotInPlace(dir, chains, open, name, slot);
    ok := f.OpenCachedEntry(index, oflag, chains[slot]);
    if ok {
      chains' := chains[slot := f.chain];
      OpenedChain(f);
      OpenedSlot(dir, disk, dir.vol.disk, chains, open, name, slot, f.chain, oflag.trunc && FileSize(e) != 0);
      OpenedFile(dir, f, slot, chains', open + {slot});
      assert OpenedAsStored(dir.vol.g, disk, dir.vol.disk, dir.Place(), dir.fileSize, chains, open,
                            slot, chains', f.chain, f.Data(), f.fileType == Normal, oflag.trunc);
    }
  }

  /** The slot a search has found, as `open` finds it in the cache. */
  lemma SlotInPlace(dir: SdFile, chains: seq<seq<nat>>, open: set<nat>, name: seq<byte>, k: nat)
    requires DirHandle(dir, chains, open) && k !in open
    requires HoldsName(dir.Data(), name, k) && dir.CachedAt(k / 16) && IsOwner(Slot(dir.Data(), k))
    ensures k < |chains| == dir.fileSize / 32 && k / 16 < NumBlocks(dir.vol.g, dir.Place())
    ensures dir.vol.cacheBlockNumber < dir.vol.size && dir.vol.cacheBuffer.Length == 512
    ensures dir.vol.cacheBuffer[..] == dir.vol.disk[dir.vol.cacheBlockNumber]
    ensures dir.vol.cacheBlockNumber == SlotBlock(dir.vol.g, dir.vol.size, dir.Place(), k)
    ensures Backed(dir.vol.g, dir.vol.disk, dir.vol.cacheBlockNumber, k % 16, chains[k])
    ensures IsLive(Slot(dir.Data(), k)) && Slot(dir.Data(), k) == EntryAt(dir.vol.cacheBuffer[..], k % 16)
    ensures IsFile(Slot(dir.Data(), k)) ==>
              SlotData(dir.vol.g, dir.vol.disk, dir.Place(), dir.fileSize, chains, open, k)
              == StoredData(dir.vol.g, dir.vol.disk, dir.vol.cacheBlockNumber, k % 16, chains[k])
  {
    hide SdVolume.Valid, Contents, Backed, StoredData, IsFile, NamesUnique, FreeTail, EntryAt, Visible, DirExtent;
    CachedSlot(dir, k);
    SlotBacked(dir.vol.g, dir.vol.disk, dir.Place(), dir.fileSize, chains, open, k);
    SlotInBlock(dir.vol.g, dir.vol.disk, dir.Place(), dir.fileSize, k);
  }

  lemma OpenedChain(f: SdFile)
    requires f.Valid() && (f.fileType == Normal || f.fileType == SubDir)
    ensures IsChainOrNil(f.vol.Fat(), f.vol.g.EocMin(), f.chain)
  {
    hide SdVolume.Valid;
    f.TailInUse();
  }

  lemma OpenedFile(dir: SdFile, f: SdFile, k: nat, chains: seq<seq<nat>>, open: set<nat>)
    requires f != dir && f.vol == dir.vol && DirHandle(dir, chains, open) && f.Valid()
    requires f.fileType == if IsFileAttribute(f.attributes) then Normal else SubDir
    requires k < |chains| && k in open && f.chain == chains[k] && k / 16 < NumBlocks(dir.vol.g, dir.Place())
    requires f.dirBlock == SlotBlock(dir.vol.g, dir.vol.size, dir.Place(), k) && f.dirIndex == k % 16
    ensures FileAt(dir, f, k, chains, open)
  {
  }

  // ---- creating ----

  lemma CreatedHandle(dir: SdFile, disk: Disk, disk': Disk, chains: seq<seq<nat>>, open: set<nat>, k: nat,
                      name: seq<byte>)
    requires HandleOn(dir, disk, chains, open)
    requires FirstUnused(Contents(dir.vol.g, disk, dir.Place(), dir.fileSize), k)
    requires NameMissing(Contents(dir.vol.g, disk, dir.Place(), dir.fileSize), name)
    requires |name| == 11 && name[0] != DIR_NAME_FREE && name[0] != DIR_NAME_DELETED
    requires k / 16 < NumBlocks(dir.vol.g, dir.Place())
    requires var b := SlotBlock(dir.vol.g, |disk|, dir.Place(), k);
             disk' == disk[b := WithEntryAt(disk[b], k % 16, NewEntry(name))]
    ensures HandleOn(dir, disk', chains, open)
    ensures HoldsName(Contents(dir.vol.g, disk', dir.Place(), dir.fileSize), name, k)
    ensures Slot(Contents(dir.vol.g, disk', dir.Place(), dir.fileSize), k) == NewEntry(name)
    ensures k < |chains| && chains[k] == [] && k !in open
    ensures OnlyDirChanged(dir.vol.g, disk, disk', dir.Place()) && TableOf(dir.vol.g, disk') == TableOf(dir.vol.g, disk)
    ensures SlotsKept(Contents(dir.vol.g, disk, dir.Place(), dir.fileSize),
                      Contents(dir.vol.g, disk', dir.Place(), dir.fileSize), dir.fileSize / 32, k)
  {
    hide Contents, SlotBlock, NewEntry, WithEntryAt, ChainOk, EntryOk, SafeFrom, NamesUnique, FreeTail, SlotOp,
         OnlyDirChanged, NameMissing, HoldsName, DirExtent, Backed,
         NumBlocks, Sound;
    var g, x, n := dir.vol.g, dir.Place(), dir.fileSize;
    CreateKeepsDir(g, disk, disk', x, n, chains, open, k, name);
    CreateIsSlotOp(g, disk, disk', x, n, k, name);
    assert chains[k := []] == chains;
    HandleAfterOp(dir, disk, disk', chains, open, k, [], open);
    CreateOnlyDir(g, disk, disk', x, k);
    SlotInRange(dir, k);
    TableFramed(g, disk, disk');
    forall j | 0 <= j < n / 32 && j != k
      ensures Slot(Contents(g, disk', x, n), j) == Slot(Contents(g, disk, x, n), j)
    {
      OtherSlotBacked(g, disk, disk', x, n, chains, open, k, [], j);
    }
  }

  /** Put a new entry into the first unused slot, whose block is cached for
      writing. */
  method PutNewEntry(f: SdFile, dir: SdFile, dname: seq<byte>, ghost slot: nat,
                     ghost chains: seq<seq<nat>>, ghost open: set<nat>)
    requires f != dir && f.vol == dir.vol && DirHandle(dir, chains, open)
    requires FirstUnused(dir.Data(), slot) && NameMissing(dir.Data(), dname)
    requires slot / 16 < NumBlocks(dir.vol.g, dir.Place()) && f.dirIndex == slot % 16
    requires dir.vol.cacheDirty && dir.vol.cacheBlockNumber == SlotBlock(dir.vol.g, dir.vol.size, dir.Place(), slot)
    requires |dname| == 11 && dname[0] != DIR_NAME_FREE && dname[0] != DIR_NAME_DELETED
    modifies dir.vol`disk, dir.vol.cacheBuffer
    ensures Created(f, dir, dname, slot, chains, open)
    ensures OnlyDirChanged(dir.vol.g, old(dir.vol.disk), dir.vol.disk, dir.Place())
    ensures dir.vol.Fat() == old(dir.vol.Fat())
    ensures SlotsKept(old(dir.Data()), dir.Data(), dir.fileSize / 32, slot)
  {
    hide SdVolume.Valid, HandleOn, Contents, FirstUnused, NameMissing, HoldsName, NewEntry, Slot, OnlyDirChanged,
         NumBlocks, Sound, SlotBlock, WithEntryAt, Created, SdFile.CachedAt, SlotsKept;
    ghost var disk := dir.vol.disk;
    SlotInRange(dir, slot);
    StoreNewEntry(dir.vol, f.dirIndex, dname);
    CreatedHandle(dir, disk, dir.vol.disk, chains, open, slot, dname);
    CreatedInCache(f, dir, dname, slot, chains, open);
  }

  /** Write a new entry into the first unused slot, noted in `f`. */
  method CreateInSlot(f: SdFile, dir: SdFile, dname: seq<byte>, ghost slot: nat,
                      ghost chains: seq<seq<nat>>, ghost open: set<nat>)
    returns (ok: bool)
    requires f != dir && f.vol == dir.vol && DirHandle(dir, chains, open)
    requires FirstUnused(dir.Data(), slot) && SlotNoted(f, dir, slot) && NameMissing(dir.Data(), dname)
    requires |dname| == 11 && dname[0] != DIR_NAME_FREE && dname[0] != DIR_NAME_DELETED
    modifies dir.vol`cacheDirty, dir.vol`cacheMirrorBlock, dir.vol`cacheBlockNumber, dir.vol`disk, dir.vol.card,
             dir.vol.cacheBuffer
    ensures dir.vol.Valid() && dir.vol.Wedged() == old(dir.vol.Wedged())
    ensures ok ==> Created(f, dir, dname, slot, chains, open)
    ensures ok ==> OnlyDirChanged(dir.vol.g, old(dir.vol.disk), dir.vol.disk, dir.Place())
    ensures ok ==> dir.vol.Fat() == old(dir.vol.Fat())
    ensures ok ==> SlotsKept(old(dir.Data()), dir.Data(), dir.fileSize / 32, slot)
    ensures !ok ==> dir.vol.card.faults > old(dir.vol.card.faults)
    ensures dir.vol.card.faults >= old(dir.vol.card.faults)
  {
    hide SdVolume.Valid, HandleOn, Contents, FirstUnused, NameMissing, HoldsName, NewEntry, Slot, OnlyDirChanged,
         NumBlocks, Sound, SlotBlock, WithEntryAt, Created, SdFile.CachedAt, SlotsKept;
    SlotInRange(dir, slot);
    ok := dir.vol.CacheForWrite(f.dirBlock);
    if ok {
      PutNewEntry(f, dir, dname, slot, chains, open);
    }
  }

  /** Put a new entry into the cached block. */
  method StoreNewEntry(vol: SdVolume, i: nat, dname: seq<byte>)
    requires vol.Valid() && vol.cacheDirty && vol.cacheBlockNumber < vol.size && !vol.g.InTables(vol.cacheBlockNumber)
    requires i < 16 && |dname| == 11
    modifies vol`disk, vol.cacheBuffer
    ensures vol.Valid()
    ensures vol.disk == old(vol.disk)[vol.cacheBlockNumber :=
              WithEntryAt(old(vol.disk[vol.cacheBlockNumber]), i, NewEntry(dname))]
    ensures vol.cacheBuffer[..] == vol.disk[vol.cacheBlockNumber] && vol.Fat() == old(vol.Fat())
  {
    hide SdVolume.Valid, NewEntry;
    vol.StoreCached(32 * i, NewEntry(dname));
  }

  lemma CreatedInCache(f: SdFile, dir: SdFile, dname: seq<byte>, slot: nat, chains: seq<seq<nat>>, open: set<nat>)
    requires |dname| == 11 && DirHandle(dir, chains, open) && HoldsName(dir.Data(), dname, slot)
    requires Slot(dir.Data(), slot) == NewEntry(dname)
    requires slot < |chains| && chains[slot] == [] && slot !in open
    requires slot / 16 < NumBlocks(dir.vol.g, dir.Place()) && f.dirIndex == slot % 16
    requires dir.vol.cacheBlockNumber == SlotBlock(dir.vol.g, dir.vol.size, dir.Place(), slot)
    requires dir.vol.cacheBuffer[..] == dir.vol.disk[dir.vol.cacheBlockNumber]
    ensures Created(f, dir, dname, slot, chains, open)
  {
  }

  lemma SlotInRange(dir: SdFile, k: nat)
    requires dir.vol.g.Valid(dir.vol.size) && Sound(dir.vol.g, dir.Place())
             && k / 16 < NumBlocks(dir.vol.g, dir.Place())
    ensures var b := SlotBlock(dir.vol.g, dir.vol.size, dir.Place(), k); b < dir.vol.size && !dir.vol.g.InTables(b)
  {
  }

  /** The directory has a new, empty file `dname` in `slot`, noted in `f`, with
      its block in the cache. */
  ghost predicate Created(f: SdFile, dir: SdFile, dname: seq<byte>, slot: nat, chains: seq<seq<nat>>, open: set<nat>)
    requires |dname| == 11
    reads f`dirIndex, dir, dir.vol, dir.vol.card, dir.vol.cacheBuffer
    ensures Created(f, dir, dname, slot, chains, open) ==> DirHandle(dir, chains, open)
  {
    && DirHandle(dir, chains, open)
    && HoldsName(dir.Data(), dname, slot)
    && Slot(dir.Data(), slot) == NewEntry(dname)
    && slot < |chains|
    && chains[slot] == []
    && slot !in open
    && dir.CachedAt(slot / 16)
    && f.dirIndex == slot % 16
  }

  /** A full directory to which a zeroed cluster was added. */
  lemma GrownDir(g: Layout, disk: Disk, disk': Disk, ch: seq<nat>, ch': seq<nat>, n: nat, n': nat,
                 chains: seq<seq<nat>>, open: set<nat>, name: seq<byte>)
    requires DirSound(g, disk, Clusters(ch), n, chains, open) && DirExtent(g, disk', Clusters(ch'), n')
    requires n == 512 * g.BlocksOf(|ch|) && n' == n + g.ClusterBytes()
    requires |ch'| > 0 && ch' == ch + [ch'[|ch'| - 1]]
    requires AllLive(Contents(g, disk, Clusters(ch), n), n / 32)
    requires NameMissing(Contents(g, disk, Clusters(ch), n), name)
    requires Grew(g, TableOf(g, disk), disk, ch, TableOf(g, disk'), disk', ch')
    requires Contents(g, disk', Clusters(ch'), n') == Contents(g, disk, Clusters(ch), n) + Zeros(g.ClusterBytes())
    ensures DirSound(g, disk', Clusters(ch'), n', chains + NoChains(n' / 32 - n / 32), open)
    ensures FirstUnused(Contents(g, disk', Clusters(ch'), n'), n / 32)
    ensures NameMissing(Contents(g, disk', Clusters(ch'), n'), name)
    ensures SlotsKept(Contents(g, disk, Clusters(ch), n), Contents(g, disk', Clusters(ch'), n'), n / 32, n / 32)
  {
    hide Contents, DirSound, FreeTail, NamesUnique, Slot, IsLive, IsFree, DirExtent, SlotsExtend,
         FirstUnused, NameMissing, Grew, AllLive, Zeros;
    var data, data' := Contents(g, disk, Clusters(ch), n), Contents(g, disk', Clusters(ch'), n');
    ZerosExtend(data, g.ClusterBytes());
    LiveNotFree(data);
    assert DirGrew(g, disk, disk', Clusters(ch), n, ch'[|ch|], Clusters(ch'), n');
    GrowKeepsDir(g, disk, disk', Clusters(ch), n, ch'[|ch|], Clusters(ch'), n', chains, open);
    MoreSlots(g, n, n');
    GrownFirstUnused(data, data', name);
    GrownSlots(data, data');
  }

  lemma MoreSlots(g: Layout, n: nat, n': nat)
    requires n' == n + g.ClusterBytes() && g.blocksPerCluster > 0
    ensures n / 32 < n' / 32
  {
  }

  /** A directory handle after a zeroed cluster was added to the directory,
      which was full. */
  lemma GrownHandle(dir: SdFile, disk: Disk, ch: seq<nat>, n: nat, chains: seq<seq<nat>>, open: set<nat>,
                    name: seq<byte>)
    requires dir.vol.Valid() && dir.ChainValid() && dir.EntryValid() && dir.ReadsEntries() && dir.fileType != Root16
    requires |disk| == dir.vol.size && DirSound(dir.vol.g, disk, Clusters(ch), n, chains, open)
    requires n == 512 * dir.vol.g.BlocksOf(|ch|) && dir.fileSize == n + dir.vol.g.ClusterBytes()
    requires |dir.chain| > 0 && dir.chain == ch + [dir.chain[|dir.chain| - 1]]
    requires AllLive(Contents(dir.vol.g, disk, Clusters(ch), n), n / 32)
    requires NameMissing(Contents(dir.vol.g, disk, Clusters(ch), n), name)
    requires dir.fileType == SubDir ==> SafeFrom(dir.vol.g, disk, chains, dir.dirBlock)
    requires Grew(dir.vol.g, TableOf(dir.vol.g, disk), disk, ch, dir.vol.Fat(), dir.vol.disk, dir.chain)
    requires dir.Data() == Contents(dir.vol.g, disk, Clusters(ch), n) + Zeros(dir.vol.g.ClusterBytes())
    ensures DirHandle(dir, chains + NoChains(dir.fileSize / 32 - n / 32), open)
    ensures FirstUnused(dir.Data(), n / 32) && NameMissing(dir.Data(), name)
    ensures SlotsKept(Contents(dir.vol.g, disk, Clusters(ch), n), dir.Data(), n / 32, n / 32)
    ensures OnlyDirChanged(dir.vol.g, disk, dir.vol.disk, dir.Place())
  {
    hide SdVolume.Valid, Contents, DirSound, FreeTail, NamesUnique, Slot, IsLive, IsFree, IsChain, DirExtent,
         SlotsExtend, FirstUnused, NameMissing, ChainOk, EntryOk, EntryBlockSafe, Grew, OnlyDirChanged, AllLive,
         SafeFrom, Layout.BlocksOf, Layout.ClusterBytes, Zeros, Sound, Layout.Valid, Layout.IsCluster, SlotsKept;
    var g := dir.vol.g;
    DirBytes(g, disk, Clusters(ch), n, chains, open);
    ValidPositive(g, dir.vol.size);
    OneMore(g, n, |ch|);
    GrownExtent(dir);
    GrownDir(g, disk, dir.vol.disk, ch, dir.chain, n, dir.fileSize, chains, open, name);
    GrewOnlyDir(g, TableOf(g, disk), disk, ch, dir.vol.Fat(), dir.vol.disk, dir.chain);
    if dir.fileType == SubDir {
      EntrySafe(dir);
      GrownSafe(g, disk, dir.vol.disk, chains, dir.dirBlock, dir.chain, dir.fileSize / 32 - n / 32);
    }
  }

  lemma OneMore(g: Layout, n: nat, m: nat)
    requires n == 512 * g.BlocksOf(m) && n % 32 == 0 && g.ClusterBytes() % 32 == 0
    ensures n + g.ClusterBytes() == 512 * g.BlocksOf(m + 1) && (n + g.ClusterBytes()) % 32 == 0
  {
  }

  lemma EntrySafe(dir: SdFile)
    requires dir.ChainValid() && dir.EntryValid() && dir.fileType == SubDir
    ensures EntryBlockSafe(dir.vol.g, dir.vol.size, dir.vol.Fat(), dir.chain, dir.dirBlock)
  {
  }

  lemma DirBytes(g: Layout, disk: Disk, x: Extent, n: nat, chains: seq<seq<nat>>, open: set<nat>)
    requires DirSound(g, disk, x, n, chains, open)
    ensures n % 32 == 0 && DirExtent(g, disk, x, n)
  {
  }

  lemma LiveNotFree(data: seq<byte>)
    requires AllLive(data, |data| / 32)
    ensures forall k | 0 <= k < |data| / 32 :: !IsFree(Slot(data, k)) && IsLive(Slot(data, k))
  {
  }

  lemma GrownSlots(data: seq<byte>, data': seq<byte>)
    requires SlotsExtend(data, data')
    ensures SlotsKept(data, data', |data| / 32, |data| / 32)
  {
  }

  lemma GrownExtent(dir: SdFile)
    requires dir.ChainValid() && dir.fileType != Root16 && dir.fileSize % 32 == 0
    ensures DirExtent(dir.vol.g, dir.vol.disk, dir.Place(), dir.fileSize)
  {
  }

  lemma GrownPlace(g: Layout, size: nat, ch: seq<nat>, ch': seq<nat>, k: nat)
    requires g.Valid(size) && Sound(g, Clusters(ch')) && |ch'| == |ch| + 1 && k == 16 * g.BlocksOf(|ch|)
    ensures k / 16 < NumBlocks(g, Clusters(ch')) && k % 16 == 0
    ensures SlotBlock(g, size, Clusters(ch'), k) == g.ClusterStartBlock(ch'[|ch|])
  {
    hide Layout.Valid, Sound;
    assert k / 16 == g.BlocksOf(|ch|);
    ValidPositive(g, size);
    SplitUnique(g, |ch|, 0, k / 16);
  }

  lemma ValidPositive(g: Layout, size: nat)
    requires g.Valid(size)
    ensures g.blocksPerCluster > 0 && g.ClusterBytes() % 32 == 0
  {
  }

  lemma GrewOnlyDir(g: Layout, fat: Table, disk: Disk, ch: seq<nat>, fat': Table, disk': Disk, ch': seq<nat>)
    requires Grew(g, fat, disk, ch, fat', disk', ch')
    ensures OnlyDirChanged(g, disk, disk', Clusters(ch'))
  {
  }

  lemma GrewTable(g: Layout, fat: Table, disk: Disk, ch: seq<nat>, fat': Table, disk': Disk, ch': seq<nat>)
    requires Grew(g, fat, disk, ch, fat', disk', ch')
    ensures OnlyMineChanged(fat, fat', ch, ch')
  {
  }

  lemma GrownSafe(g: Layout, disk: Disk, disk': Disk, chains: seq<seq<nat>>, b: nat, own: seq<nat>, more: nat)
    requires g.Valid(|disk|) && |disk'| == |disk| && SafeFrom(g, disk, chains, b)
    requires EntryBlockSafe(g, |disk'|, TableOf(g, disk'), own, b)
    ensures SafeFrom(g, disk', chains + NoChains(more), b)
  {
  }

  /** Add a zeroed cluster to a full directory and write a new entry into its
      first slot. */
  method CreateInCluster(f: SdFile, dir: SdFile, dname: seq<byte>, ghost chains: seq<seq<nat>>, ghost open: set<nat>)
    returns (ok: bool)
    requires f != dir && f.vol == dir.vol && DirHandle(dir, chains, open)
    requires dir.Valid() && dir.curPosition == dir.fileSize && dir.fileType != Root16
    requires dir.fileSize + dir.vol.g.ClusterBytes() < TWO32
    requires AllLive(dir.Data(), dir.fileSize / 32) && NameMissing(dir.Data(), dname)
    requires |dname| == 11 && dname[0] != DIR_NAME_FREE && dname[0] != DIR_NAME_DELETED
    modifies f`dirIndex, dir`curCluster, dir`firstCluster, dir`flags, dir`chain, dir`fileSize, dir.vol`cacheDirty,
             dir.vol`cacheMirrorBlock, dir.vol`cacheBlockNumber, dir.vol`disk, dir.vol`allocSearchStart, dir.vol.card,
             dir.vol.cacheBuffer
    ensures dir.vol.Valid() && dir.vol.Wedged() == old(dir.vol.Wedged())
    ensures ok ==> dir.fileSize == old(dir.fileSize) + dir.vol.g.ClusterBytes()
    ensures ok ==>
              Created(f, dir, dname, old(dir.fileSize) / 32,
                      chains + NoChains(dir.fileSize / 32 - old(dir.fileSize) / 32), open)
    ensures ok ==> OnlyDirChanged(dir.vol.g, old(dir.vol.disk), dir.vol.disk, dir.Place())
    ensures ok ==> old(dir.chain) <= dir.chain
                   && OnlyMineChanged(old(dir.vol.Fat()), dir.vol.Fat(), old(dir.chain), dir.chain)
    ensures ok ==> SlotsKept(old(dir.Data()), dir.Data(), old(dir.fileSize) / 32, old(dir.fileSize) / 32)
    ensures !ok ==> dir.vol.card.faults > old(dir.vol.card.faults) || dir.vol.Full()
    ensures dir.vol.card.faults >= old(dir.vol.card.faults)
  {
    hide SdVolume.Valid, HandleOn, Contents, FirstUnused, NameMissing, HoldsName, NewEntry, Slot, OnlyDirChanged,
         NumBlocks, Sound, SlotBlock, WithEntryAt, Created, SdFile.CachedAt, AllLive, SdFile.ChainValid,
         SdFile.EntryValid, SdFile.Valid, Grew, SlotsKept, Zeros, Layout.ClusterBytes, DirSound, SafeFrom,
         Layout.ClusterStartBlock, Layout.BlocksOf, SdFile.Place, Layout.Valid, DirHandle, NoChains, Layout.IsCluster,
         SdFile.Open, OnlyMineChanged, TableOf;
    ghost var disk, ch, n := dir.vol.disk, dir.chain, dir.fileSize;
    FullDir(dir, chains, open);
    ok := dir.AddDirCluster();
    if ok {
      f.dirIndex := 0;
      GrownHandle(dir, disk, ch, n, chains, open, dname);
      GrewTable(dir.vol.g, TableOf(dir.vol.g, disk), disk, ch, dir.vol.Fat(), dir.vol.disk, dir.chain);
      PutInGrown(f, dir, dname, disk, ch, n, chains + NoChains(dir.fileSize / 32 - n / 32), open);
    }
  }

  /** Put the new entry into the first slot of the new cluster. */
  method PutInGrown(f: SdFile, dir: SdFile, dname: seq<byte>, ghost disk: Disk, ghost ch: seq<nat>, ghost n: nat,
                    ghost chains: seq<seq<nat>>, ghost open: set<nat>)
    requires f != dir && f.vol == dir.vol && DirHandle(dir, chains, open) && dir.fileType != Root16 && f.dirIndex == 0
    requires |disk| == dir.vol.size && Sound(dir.vol.g, Clusters(ch))
             && n == 512 * dir.vol.g.BlocksOf(|ch|) <= dir.fileSize
    requires dir.chain == ch + [dir.curCluster] && dir.vol.g.IsCluster(dir.curCluster)
    requires FirstUnused(dir.Data(), n / 32) && NameMissing(dir.Data(), dname)
    requires OnlyDirChanged(dir.vol.g, disk, dir.vol.disk, dir.Place())
    requires SlotsKept(Contents(dir.vol.g, disk, Clusters(ch), n), dir.Data(), n / 32, n / 32)
    requires dir.vol.cacheDirty && dir.vol.cacheBlockNumber == dir.vol.g.ClusterStartBlock(dir.curCluster)
    requires |dname| == 11 && dname[0] != DIR_NAME_FREE && dname[0] != DIR_NAME_DELETED
    modifies dir.vol`disk, dir.vol.cacheBuffer
    ensures Created(f, dir, dname, n / 32, chains, open)
    ensures OnlyDirChanged(dir.vol.g, disk, dir.vol.disk, dir.Place()) && dir.vol.Fat() == old(dir.vol.Fat())
    ensures SlotsKept(Contents(dir.vol.g, disk, Clusters(ch), n), dir.Data(), n / 32, n / 32)
  {
    hide SdVolume.Valid, HandleOn, Contents, FirstUnused, NameMissing, HoldsName, NewEntry, Slot, OnlyDirChanged,
         Sound, SlotBlock, Created, SlotsKept, Layout.ClusterStartBlock, Layout.BlocksOf, Layout.IsCluster;
    ghost var grown, data := dir.vol.disk, dir.Data();
    SixteenSlots(n, dir.vol.g.BlocksOf(|ch|), dir.fileSize);
    ghost var slot, slots := n / 32, dir.fileSize / 32;
    assert slot <= slots;
    GrownPlace(dir.vol.g, dir.vol.size, ch, dir.chain, slot);
    PutNewEntry(f, dir, dname, slot, chains, open);
    OnlyDirTrans(dir.vol.g, disk, grown, dir.vol.disk, dir.Place());
    SlotsKeptTrans(Contents(dir.vol.g, disk, Clusters(ch), n), data, dir.Data(), slot, slots);
  }

  lemma SixteenSlots(n: nat, blocks: nat, n': nat)
    requires n == 512 * blocks && n <= n'
    ensures n / 32 == 16 * blocks && n / 32 % 16 == 0 && n / 32 <= n' / 32
  {
  }

  lemma SlotsKeptTrans(a: seq<byte>, b: seq<byte>, c: seq<byte>, m: nat, m': nat)
    requires SlotsKept(a, b, m, m) && SlotsKept(b, c, m', m) && m <= m'
    ensures SlotsKept(a, c, m, m)
  {
  }

  lemma OnlyDirTrans(g: Layout, a: Disk, b: Disk, c: Disk, x: Extent)
    requires OnlyDirChanged(g, a, b, x) && OnlyDirChanged(g, b, c, x)
    ensures OnlyDirChanged(g, a, c, x)
  {
  }

  /** A directory handle at its end, as `addDirCluster` needs it. */
  lemma FullDir(dir: SdFile, chains: seq<seq<nat>>, open: set<nat>)
    requires DirHandle(dir, chains, open) && dir.Valid() && dir.curPosition == dir.fileSize && dir.fileType != Root16
    ensures dir.ChainValid() && dir.EntryValid() && dir.IsDir() && dir.ReadsEntries()
    ensures dir.curCluster == if dir.chain == [] then 0 else dir.chain[|dir.chain| - 1]
    ensures dir.fileSize == 512 * dir.vol.g.BlocksOf(|dir.chain|) && dir.Place() == Clusters(dir.chain)
    ensures DirSound(dir.vol.g, dir.vol.disk, Clusters(dir.chain), dir.fileSize, chains, open)
    ensures dir.fileType == SubDir ==> SafeFrom(dir.vol.g, dir.vol.disk, chains, dir.dirBlock)
  {
    hide SdVolume.Valid, ChainOk, EntryOk, SafeFrom, DirSound;
    if dir.chain != [] {
      WriteSplit(dir.vol.g, dir.fileSize, |dir.chain|);
      BlocksOfMonotone(dir.vol.g, 0, |dir.chain|);
    }
  }

  // ---- open by name ----

  /** The slot has the name, but `oflag` does not allow opening its file. */
  ghost predicate CannotOpen(data: seq<byte>, name: seq<byte>, oflag: OpenFlags, slot: nat) {
    HoldsName(data, name, slot) && ((oflag.creat && oflag.excl) || !SdFile.Opens(Slot(data, slot), oflag))
  }

  /** Why `open` refuses, short of a card fault. */
  ghost predicate Refused(data: seq<byte>, fileName: seq<byte>, oflag: OpenFlags, slot: nat, noSpace: bool) {
    !Names.Is83(fileName) || NotOpened(data, Names.Packed(fileName), oflag, slot, noSpace)
  }

  ghost predicate NotOpened(data: seq<byte>, name: seq<byte>, oflag: OpenFlags, slot: nat, noSpace: bool) {
    || CannotOpen(data, name, oflag, slot)
    || (NameMissing(data, name) && (!oflag.creat || !oflag.write || (noSpace && NoneUnused(data))))
  }

  /** What `open` has done when it succeeds: opened the file that has the name,
      or made a new one. */
  ghost predicate OpenResult(data: seq<byte>, data': seq<byte>, name: seq<byte>, oflag: OpenFlags, slot: nat)
    requires |name| == 11
  {
    && HoldsName(data', name, slot)
    && SlotsKept(data, data', |data| / 32, slot)
    && if HoldsName(data, name, slot) then
         !(oflag.creat && oflag.excl) && SdFile.Opens(Slot(data, slot), oflag) && |data'| == |data|
       else
         && NameMissing(data, name) && oflag.creat && oflag.write && Slot(data', slot) == NewEntry(name)
         && (|data'| == |data| ==> FirstUnused(data, slot))
         && (|data'| != |data| ==> AllLive(data, |data| / 32) && slot == |data| / 32)
  }

  /** The whole effect of a successful `open` on a directory: extent `x` of `n`
      bytes on `disk` with the chains `chains` became `x'`, `n'`, `disk'` and
      `chains'`, and the file of slot `slot` has the chain `ch` and bytes `bytes`. */
  ghost predicate OpenEffect(g: Layout, disk: Disk, x: Extent, n: nat, chains: seq<seq<nat>>, open: set<nat>,
                             disk': Disk, x': Extent, n': nat, chains': seq<seq<nat>>,
                             name: seq<byte>, oflag: OpenFlags, slot: nat, ch: seq<nat>, bytes: seq<byte>, normal: bool)
    requires |name| == 11
  {
    && DirSound(g, disk, x, n, chains, open)
    && DirSound(g, disk', x', n', chains', open + {slot})
    && n <= n'
    && OpenResult(Contents(g, disk, x, n), Contents(g, disk', x', n'), name, oflag, slot)
    && if HoldsName(Contents(g, disk, x, n), name, slot) then
         && x' == x && n' == n
         && OpenedAsStored(g, disk, disk', x, n, chains, open, slot, chains', ch, bytes, normal, oflag.trunc)
       else
         && chains' == chains + NoChains(n' / 32 - n / 32)
         && OnlyDirChanged(g, disk, disk', x')
         && MadeRoom(TableOf(g, disk), x, n, TableOf(g, disk'), x', n')
         && normal && bytes == [] && ch == []
  }

  /** The chain slot `k` has, if there is such a slot. */
  function ChainAt(chains: seq<seq<nat>>, k: nat): seq<nat> {
    if k < |chains| then chains[k] else []
  }

  /** Opening, creating or truncating a file spares everything outside the
      directory and the file. */
  lemma OpenSpares(g: Layout, disk: Disk, x: Extent, n: nat, chains: seq<seq<nat>>, open: set<nat>,
                   disk': Disk, x': Extent, n': nat, chains': seq<seq<nat>>,
                   name: seq<byte>, oflag: OpenFlags, slot: nat, ch: seq<nat>, bytes: seq<byte>, normal: bool)
    requires |name| == 11
    requires OpenEffect(g, disk, x, n, chains, open, disk', x', n', chains', name, oflag, slot, ch, bytes, normal)
    ensures g.Valid(|disk|)
    ensures OthersSpared(g, disk, disk', Mine(x, ChainAt(chains, slot)), Mine(x', ch), x.RootDir?)
  {
    hide Contents, SlotOp, OthersSpared, NamesUnique, FreeTail, Backed, Slot, OnlyDirChanged, SlotData;
    if HoldsName(Contents(g, disk, x, n), name, slot) {
      SlotChain(g, disk, x, n, chains, open, slot);
      SlotOpSpares(g, disk, disk', x, n, slot, chains[slot], ch);
    } else {
      NewSlotEmpty(g, disk, x, n, chains, open, slot);
      DirChangeSpares(g, disk, disk', x, x');
    }
  }

  lemma NewSlotEmpty(g: Layout, disk: Disk, x: Extent, n: nat, chains: seq<seq<nat>>, open: set<nat>, slot: nat)
    requires DirSound(g, disk, x, n, chains, open)
    ensures FirstUnused(Contents(g, disk, x, n), slot) || slot == n / 32 ==>
              ChainAt(chains, slot) == [] && slot !in open
    ensures forall c | c in OwnChain(x) :: g.IsCluster(c)
  {
  }

  /** The found file of a search. */
  method OpenFound(f: SdFile, dir: SdFile, index: nat, oflag: OpenFlags,
                   ghost name: seq<byte>, ghost slot: nat, ghost chains: seq<seq<nat>>, ghost open: set<nat>)
    returns (ok: bool, ghost chains': seq<seq<nat>>)
    requires f != dir && f.vol == dir.vol && f.fileType == Closed && |name| == 11 && name[0] != DOT
    requires Settled(f, dir, name, Found(index), slot, chains, open) && slot !in open
    modifies f, dir.vol`cacheDirty, dir.vol`cacheMirrorBlock, dir.vol`cacheBlockNumber, dir.vol`disk,
             dir.vol`allocSearchStart, dir.vol.card, dir.vol.cacheBuffer
    ensures dir.vol.Valid() && dir.vol.Wedged() == old(dir.vol.Wedged())
    ensures ok ==> FileAt(dir, f, slot, chains', open + {slot}) && f.curPosition == 0
    ensures ok ==> f.flags == Flags(oflag.read, oflag.write, oflag.append, oflag.sync, false, false)
    ensures ok ==> OpenEffect(dir.vol.g, old(dir.vol.disk), old(dir.Place()), old(dir.fileSize), chains, open,
                              dir.vol.disk, dir.Place(), dir.fileSize, chains',
                              name, oflag, slot, f.chain, f.Data(), f.fileType == Normal)
    ensures !ok ==> CannotOpen(old(dir.Data()), name, oflag, slot) || dir.vol.card.faults > old(dir.vol.card.faults)
    ensures dir.vol.card.faults >= old(dir.vol.card.faults)
  {
    hide SdVolume.Valid, SdFile.Valid, DirHandle, HandleOn, Contents, SdFile.CachedAt, FileAt, SlotsKept, SdFile.Opens,
         SlotOp, HoldsName, DirSound, NumBlocks, Sound, OpenEffect, OpenedAsStored, Settled, Slot, IsOwner;
    chains' := chains;
    FoundFacts(f, dir, name, index, slot, chains, open);
    NamedIsOwner(dir.Data(), name, slot);
    ghost var e := Slot(dir.Data(), slot);
    if oflag.creat && oflag.excl {
      return false, chains;
    }
    ok, chains' := OpenSlot(f, dir, index, oflag, e, name, slot, chains, open);
    if ok {
      FoundEffect(dir, f, old(dir.vol.disk), name, oflag, slot, chains, open, chains');
    }
  }

  lemma FoundFacts(f: SdFile, dir: SdFile, name: seq<byte>, index: nat, slot: nat, chains: seq<seq<nat>>,
                   open: set<nat>)
    requires Settled(f, dir, name, Found(index), slot, chains, open)
    ensures DirHandle(dir, chains, open) && HandleOn(dir, dir.vol.disk, chains, open)
    ensures HoldsName(dir.Data(), name, slot) && slot < |dir.Data()| / 32
    ensures index == slot % 16 && dir.CachedAt(slot / 16)
    ensures DirSound(dir.vol.g, dir.vol.disk, dir.Place(), dir.fileSize, chains, open)
  {
  }

  /** A name that does not begin with a dot is not that of a dot entry. */
  lemma NamedIsOwner(data: seq<byte>, name: seq<byte>, k: nat)
    requires HoldsName(data, name, k)
    ensures |name| == 11 && name[0] != DOT ==> IsOwner(Slot(data, k))
  {
    assert Name(Slot(data, k))[0] == Slot(data, k)[0];
  }

  lemma FoundEffect(dir: SdFile, f: SdFile, disk: Disk, name: seq<byte>, oflag: OpenFlags, slot: nat,
                    chains: seq<seq<nat>>, open: set<nat>, chains': seq<seq<nat>>)
    requires |name| == 11 && HandleOn(dir, disk, chains, open) && FileAt(dir, f, slot, chains', open + {slot})
    requires HoldsName(Contents(dir.vol.g, disk, dir.Place(), dir.fileSize), name, slot)
             && HoldsName(dir.Data(), name, slot)
    requires !(oflag.creat && oflag.excl)
    requires SdFile.Opens(Slot(Contents(dir.vol.g, disk, dir.Place(), dir.fileSize), slot), oflag)
    requires SlotsKept(Contents(dir.vol.g, disk, dir.Place(), dir.fileSize), dir.Data(), dir.fileSize / 32, slot)
    requires OpenedAsStored(dir.vol.g, disk, dir.vol.disk, dir.Place(), dir.fileSize, chains, open,
                            slot, chains', f.chain, f.Data(), f.fileType == Normal, oflag.trunc)
    ensures OpenEffect(dir.vol.g, disk, dir.Place(), dir.fileSize, chains, open,
                       dir.vol.disk, dir.Place(), dir.fileSize, chains',
                       name, oflag, slot, f.chain, f.Data(), f.fileType == Normal)
  {
    hide SdVolume.Valid, SdFile.Valid, Contents, DirSound, OpenedAsStored, SlotsKept, HoldsName, ChainOk, EntryOk,
         SafeFrom, SdFile.Opens, NumBlocks, Sound;
  }

  /** A new entry for `name` was put into the first unused slot of the directory,
      in a new cluster when there was none. */
  ghost predicate MadeIn(data: seq<byte>, data': seq<byte>, name: seq<byte>, slot: nat) {
    && NameMissing(data, name)
    && SlotsKept(data, data', |data| / 32, slot)
    && (|data'| == |data| ==> FirstUnused(data, slot))
    && (|data'| != |data| ==> AllLive(data, |data| / 32) && slot == |data| / 32)
  }

  /** Making an entry: the table and the directory's place are the same, or the
      directory got another cluster, behind its last one. */
  ghost predicate MadeRoom(fat: Table, x: Extent, n: nat, fat': Table, x': Extent, n': nat) {
    && (n' == n ==> x' == x && fat' == fat)
    && x'.RootDir? == x.RootDir?
    && OwnChain(x) <= OwnChain(x')
    && OnlyMineChanged(fat, fat', OwnChain(x), OwnChain(x'))
  }

  lemma NoRoomMade(fat: Table, x: Extent, n: nat)
    ensures MadeRoom(fat, x, n, fat, x, n)
  {
  }

  lemma ClusterMade(fat: Table, ch: seq<nat>, n: nat, fat': Table, ch': seq<nat>, n': nat)
    requires ch <= ch' && OnlyMineChanged(fat, fat', ch, ch') && n < n'
    ensures MadeRoom(fat, Clusters(ch), n, fat', Clusters(ch'), n')
  {
  }

  method MakeEntry(f: SdFile, dir: SdFile, emptyFound: bool, dname: seq<byte>,
                   ghost found: nat, ghost chains: seq<seq<nat>>, ghost open: set<nat>)
    returns (ok: bool, ghost slot: nat, ghost chains': seq<seq<nat>>)
    requires f != dir && f.vol == dir.vol
    requires |dname| == 11 && dname[0] != DIR_NAME_FREE && dname[0] != DIR_NAME_DELETED
    requires Settled(f, dir, dname, Missing(emptyFound), found, chains, open)
    requires dir.fileSize + dir.vol.g.ClusterBytes() < TWO32
    modifies f`dirIndex, dir`curCluster, dir`firstCluster, dir`flags, dir`chain, dir`fileSize, dir.vol`cacheDirty,
             dir.vol`cacheMirrorBlock, dir.vol`cacheBlockNumber, dir.vol`disk, dir.vol`allocSearchStart, dir.vol.card,
             dir.vol.cacheBuffer
    ensures dir.vol.Valid() && dir.vol.Wedged() == old(dir.vol.Wedged())
    ensures ok ==> Created(f, dir, dname, slot, chains', open) && dir.fileSize >= old(dir.fileSize)
    ensures ok ==> chains' == chains + NoChains(dir.fileSize / 32 - old(dir.fileSize) / 32)
    ensures ok ==> MadeIn(old(dir.Data()), dir.Data(), dname, slot)
    ensures ok ==> OnlyDirChanged(dir.vol.g, old(dir.vol.disk), dir.vol.disk, dir.Place())
    ensures ok ==> MadeRoom(old(dir.vol.Fat()), old(dir.Place()), old(dir.fileSize),
                            dir.vol.Fat(), dir.Place(), dir.fileSize)
    ensures !ok ==> dir.vol.card.faults > old(dir.vol.card.faults)
                    || (NoneUnused(old(dir.Data())) && (dir.fileType == Root16 || dir.vol.Full()))
    ensures dir.vol.card.faults >= old(dir.vol.card.faults)
  {
    hide SdVolume.Valid, SdFile.Valid, DirHandle, HandleOn, SdFile.Data, SdFile.CachedAt, SlotsKept, Layout.BlocksOf,
         Visible, NumBlocks, Sound, FirstUnused, NameMissing, AllLive, OnlyDirChanged, NewEntry,
         SdVolume.Full, Layout.ClusterBytes, SlotNoted, Created, MadeRoom, SdVolume.Wedged, OnlyMineChanged;
    slot, chains' := found, chains;
    if emptyFound {
      ok := CreateInSlot(f, dir, dname, found, chains, open);
      assert chains + NoChains(0) == chains;
      NoRoomMade(dir.vol.Fat(), dir.Place(), dir.fileSize);
    } else if dir.fileType == Root16 {
      return false, slot, chains;
    } else {
      slot := dir.fileSize / 32;
      ok := CreateInCluster(f, dir, dname, chains, open);
      if ok {
        ClusterIsPositive(dir.vol);
        ClusterMade(old(dir.vol.Fat()), old(dir.chain), old(dir.fileSize), dir.vol.Fat(), dir.chain, dir.fileSize);
        chains' := chains + NoChains(dir.fileSize / 32 - old(dir.fileSize) / 32);
      }
    }
  }

  lemma ClusterIsPositive(vol: SdVolume)
    requires vol.Valid()
    ensures vol.g.ClusterBytes() > 0
  {
  }

  /** The missing file of a search: make it, in a slot found or in a new
      cluster, and open it. */
  method OpenNew(f: SdFile, dir: SdFile, emptyFound: bool, oflag: OpenFlags, dname: seq<byte>,
                 ghost found: nat, ghost chains: seq<seq<nat>>, ghost open: set<nat>)
    returns (ok: bool, ghost slot: nat, ghost chains': seq<seq<nat>>)
    requires f != dir && f.vol == dir.vol && f.fileType == Closed
    requires |dname| == 11 && dname[0] != DIR_NAME_FREE && dname[0] != DIR_NAME_DELETED
    requires Settled(f, dir, dname, Missing(emptyFound), found, chains, open)
    requires dir.fileSize + dir.vol.g.ClusterBytes() < TWO32
    modifies f, dir`curCluster, dir`firstCluster, dir`flags, dir`chain, dir`fileSize, dir.vol`cacheDirty,
             dir.vol`cacheMirrorBlock, dir.vol`cacheBlockNumber, dir.vol`disk, dir.vol`allocSearchStart, dir.vol.card,
             dir.vol.cacheBuffer
    ensures dir.vol.Valid() && dir.vol.Wedged() == old(dir.vol.Wedged())
    ensures ok ==> FileAt(dir, f, slot, chains', open + {slot}) && f.curPosition == 0
    ensures ok ==> f.flags == Flags(oflag.read, oflag.write, oflag.append, oflag.sync, false, false)
    ensures ok ==> OpenEffect(dir.vol.g, old(dir.vol.disk), old(dir.Place()), old(dir.fileSize), chains, open,
                              dir.vol.disk, dir.Place(), dir.fileSize, chains',
                              dname, oflag, slot, f.chain, f.Data(), f.fileType == Normal)
    ensures !ok ==> !oflag.creat || !oflag.write || dir.vol.card.faults > old(dir.vol.card.faults)
                    || (NoneUnused(old(dir.Data())) && (dir.fileType == Root16 || dir.vol.Full()))
    ensures dir.vol.card.faults >= old(dir.vol.card.faults)
  {
    hide SdVolume.Valid, SdFile.Valid, DirHandle, HandleOn, SdFile.CachedAt, FileAt, SlotsKept, SdFile.Opens, SlotOp,
         Visible, NumBlocks, Sound, FirstUnused, NameMissing, HoldsName, AllLive, OnlyDirChanged, OpenResult,
         NewEntry, SdVolume.Full, Layout.ClusterBytes, SlotNoted, Created, OpenEffect, Settled, MadeIn, DirSound,
         Contents, Slot, NoneUnused, SdVolume.Wedged, Layout.Valid, SdFile.IsDir, MadeRoom;
    slot, chains' := found, chains;
    if !oflag.creat || !oflag.write {
      return false, slot, chains;
    }
    ghost var data := dir.Data();
    SettledFacts(f, dir, dname, Missing(emptyFound), found, chains, open);
    ok, slot, chains' := MakeEntry(f, dir, emptyFound, dname, found, chains, open);
    if !ok {
      return;
    }
    ok := FlushNew(f, dir, dname, slot, chains', open);
    if !ok {
      return;
    }
    ok := OpenMade(f, dir, oflag, dname, slot, chains', open);
    if ok {
      MadeIsResult(data, dir.Data(), dname, oflag, slot);
      MadeEffect(dir, f, old(dir.vol.disk), old(dir.Place()), old(dir.fileSize), dname, oflag, slot, chains, open,
                 chains');
    }
  }

  lemma MadeEffect(dir: SdFile, f: SdFile, disk: Disk, x: Extent, n: nat, name: seq<byte>, oflag: OpenFlags, slot: nat,
                   chains: seq<seq<nat>>, open: set<nat>, chains': seq<seq<nat>>)
    requires |name| == 11 && DirSound(dir.vol.g, disk, x, n, chains, open)
             && FileAt(dir, f, slot, chains', open + {slot})
    requires OpenResult(Contents(dir.vol.g, disk, x, n), dir.Data(), name, oflag, slot)
    requires NameMissing(Contents(dir.vol.g, disk, x, n), name)
    requires n <= dir.fileSize && chains' == chains + NoChains(dir.fileSize / 32 - n / 32)
    requires OnlyDirChanged(dir.vol.g, disk, dir.vol.disk, dir.Place())
    requires MadeRoom(TableOf(dir.vol.g, disk), x, n, dir.vol.Fat(), dir.Place(), dir.fileSize)
    requires f.fileType == Normal && f.fileSize == 0 && f.chain == []
    ensures OpenEffect(dir.vol.g, disk, x, n, chains, open,
                       dir.vol.disk, dir.Place(), dir.fileSize, chains',
                       name, oflag, slot, f.chain, f.Data(), f.fileType == Normal)
  {
    hide SdVolume.Valid, SdFile.Valid, Contents, DirSound, OpenResult, HoldsName, ChainOk, EntryOk, SafeFrom,
         SdFile.Opens, OnlyDirChanged, NumBlocks, Sound, MadeRoom;
  }

  /** Force the new entry to the card. */
  method FlushNew(f: SdFile, dir: SdFile, ghost dname: seq<byte>, ghost slot: nat,
                  ghost chains: seq<seq<nat>>, ghost open: set<nat>)
    returns (ok: bool)
    requires f != dir && f.vol == dir.vol && |dname| == 11 && Created(f, dir, dname, slot, chains, open)
    modifies dir.vol`cacheDirty, dir.vol`cacheMirrorBlock, dir.vol.card
    ensures dir.vol.Valid() && dir.vol.Wedged() == old(dir.vol.Wedged())
    ensures ok ==> Created(f, dir, dname, slot, chains, open) && dir.vol.card.blocks == dir.vol.disk
    ensures !ok ==> dir.vol.card.faults > old(dir.vol.card.faults)
    ensures dir.vol.card.faults >= old(dir.vol.card.faults)
  {
    hide SdVolume.Valid, HandleOn, HoldsName, SdFile.Data, SdFile.CachedAt, NewEntry, Slot;
    ok := dir.vol.Flush();
  }

  /** Open the file just made. */
  method OpenMade(f: SdFile, dir: SdFile, oflag: OpenFlags, ghost dname: seq<byte>, ghost slot: nat,
                  ghost chains: seq<seq<nat>>, ghost open: set<nat>)
    returns (ok: bool)
    requires f != dir && f.vol == dir.vol && f.fileType == Closed && |dname| == 11 && oflag.write
    requires Created(f, dir, dname, slot, chains, open)
    modifies f, dir.vol`cacheDirty, dir.vol`cacheMirrorBlock, dir.vol`cacheBlockNumber, dir.vol`disk,
             dir.vol`allocSearchStart, dir.vol.card, dir.vol.cacheBuffer
    ensures dir.vol.Valid() && dir.vol.Wedged() == old(dir.vol.Wedged())
    ensures ok ==> FileAt(dir, f, slot, chains, open + {slot}) && dir.vol.disk == old(dir.vol.disk)
    ensures ok ==> HoldsName(dir.Data(), dname, slot) && Slot(dir.Data(), slot) == NewEntry(dname)
    ensures ok ==> f.curPosition == 0 && f.fileType == Normal && f.fileSize == 0 && f.chain == []
    ensures ok ==> f.flags == Flags(oflag.read, oflag.write, oflag.append, oflag.sync, false, false)
    ensures !ok ==> dir.vol.card.faults > old(dir.vol.card.faults)
    ensures dir.vol.card.faults >= old(dir.vol.card.faults)
  {
    hide SdVolume.Valid, SdFile.Valid, DirHandle, HandleOn, SdFile.Data, SdFile.CachedAt, FileAt, SlotsKept,
         SdFile.Opens, NumBlocks, Sound, HoldsName, NewEntry, Created, OpenedAsStored, IsFile, FileSize, Slot, IsLive,
         IsDot;
    NewEntryFacts(dname, oflag);
    CreatedFacts(f, dir, dname, slot, chains, open);
    ghost var chains';
    ok, chains' := OpenSlot(f, dir, f.dirIndex, oflag, NewEntry(dname), dname, slot, chains, open);
    if ok {
      OpenedChainIs(dir, f, slot, chains', open + {slot});
    }
  }

  lemma OpenedChainIs(dir: SdFile, f: SdFile, k: nat, chains: seq<seq<nat>>, open: set<nat>)
    requires FileAt(dir, f, k, chains, open)
    ensures k < |chains| && f.chain == chains[k]
  {
  }

  lemma NewEntryFacts(name: seq<byte>, oflag: OpenFlags)
    requires |name| == 11 && oflag.write
    ensures IsFile(NewEntry(name)) && FileSize(NewEntry(name)) == 0 && SdFile.Opens(NewEntry(name), oflag)
    ensures !IsDot(NewEntry(name))
  {
  }

  lemma CreatedFacts(f: SdFile, dir: SdFile, dname: seq<byte>, slot: nat, chains: seq<seq<nat>>, open: set<nat>)
    requires |dname| == 11 && Created(f, dir, dname, slot, chains, open)
    ensures DirHandle(dir, chains, open) && HoldsName(dir.Data(), dname, slot)
            && Slot(dir.Data(), slot) == NewEntry(dname)
    ensures slot < |chains| && chains[slot] == [] && slot !in open && dir.CachedAt(slot / 16) && f.dirIndex == slot % 16
    ensures IsLive(NewEntry(dname))
  {
  }

  lemma MadeIsResult(data: seq<byte>, data': seq<byte>, name: seq<byte>, oflag: OpenFlags, slot: nat)
    requires |name| == 11 && MadeIn(data, data', name, slot) && HoldsName(data', name, slot)
    requires Slot(data', slot) == NewEntry(name) && oflag.creat && oflag.write
    ensures OpenResult(data, data', name, oflag, slot)
  {
    assert !HoldsName(data, name, slot);
  }

  /** Act on the outcome of a search. */
  method OpenOrMake(f: SdFile, dir: SdFile, outcome: Outcome, oflag: OpenFlags, dname: seq<byte>,
                    ghost found: nat, ghost chains: seq<seq<nat>>, ghost open: set<nat>)
    returns (ok: bool, ghost slot: nat, ghost chains': seq<seq<nat>>)
    requires f != dir && f.vol == dir.vol && f.fileType == Closed
    requires |dname| == 11 && dname[0] != DIR_NAME_FREE && dname[0] != DIR_NAME_DELETED && dname[0] != DOT
    requires Settled(f, dir, dname, outcome, found, chains, open)
    requires dir.fileSize + dir.vol.g.ClusterBytes() < TWO32
    requires forall k | k in open :: !HoldsName(dir.Data(), dname, k)
    modifies f, dir`curCluster, dir`firstCluster, dir`flags, dir`chain, dir`fileSize, dir.vol`cacheDirty,
             dir.vol`cacheMirrorBlock, dir.vol`cacheBlockNumber, dir.vol`disk, dir.vol`allocSearchStart, dir.vol.card,
             dir.vol.cacheBuffer
    ensures dir.vol.Valid() && dir.vol.Wedged() == old(dir.vol.Wedged())
    ensures ok ==> FileAt(dir, f, slot, chains', open + {slot}) && f.curPosition == 0
    ensures ok ==> f.flags == Flags(oflag.read, oflag.write, oflag.append, oflag.sync, false, false)
    ensures ok ==> OpenEffect(dir.vol.g, old(dir.vol.disk), old(dir.Place()), old(dir.fileSize), chains, open,
                              dir.vol.disk, dir.Place(), dir.fileSize, chains',
                              dname, oflag, slot, f.chain, f.Data(), f.fileType == Normal)
    ensures !ok ==> dir.vol.card.faults > old(dir.vol.card.faults)
                    || NotOpened(old(dir.Data()), dname, oflag, slot, dir.fileType == Root16 || dir.vol.Full())
    ensures dir.vol.card.faults >= old(dir.vol.card.faults)
  {
    hide SdVolume.Valid, SdFile.Valid, DirHandle, HandleOn, SdFile.Data, SdFile.CachedAt, FileAt, SlotsKept,
         SdFile.Opens, SlotOp, Visible, NumBlocks, Sound, FirstUnused, NameMissing, HoldsName, AllLive, OnlyDirChanged,
         OpenResult, NewEntry, SdVolume.Full, Layout.ClusterBytes, SlotNoted, Created, Settled, OpenEffect, CannotOpen,
         NoneUnused;
    slot := found;
    SettledFacts(f, dir, dname, outcome, slot, chains, open);
    match outcome
    case Found(index) =>
      ok, chains' := OpenFound(f, dir, index, oflag, dname, slot, chains, open);
    case Missing(emptyFound) =>
      ok, slot, chains' := OpenNew(f, dir, emptyFound, oflag, dname, slot, chains, open);
  }

  /** Open a file of the directory by name, or create it. */
  method OpenByName(f: SdFile, dir: SdFile, fileName: seq<byte>, oflag: OpenFlags,
                    ghost chains: seq<seq<nat>>, ghost open: set<nat>)
    returns (ok: bool, ghost slot: nat, ghost chains': seq<seq<nat>>)
    requires f != dir && f.vol == dir.vol && DirHandle(dir, chains, open) && 0 !in fileName
    requires dir.fileSize + dir.vol.g.ClusterBytes() < TWO32
    requires Names.Is83(fileName) ==> forall k | k in open :: !HoldsName(dir.Data(), Names.Packed(fileName), k)
    modifies f, dir`curPosition, dir`curCluster, dir`firstCluster, dir`flags, dir`chain, dir`fileSize,
             dir.vol`cacheDirty, dir.vol`cacheMirrorBlock, dir.vol`cacheBlockNumber, dir.vol`disk,
             dir.vol`allocSearchStart, dir.vol.card, dir.vol.cacheBuffer
    ensures dir.vol.Valid() && dir.vol.Wedged() == old(dir.vol.Wedged())
    ensures ok ==> old(f.fileType) == Closed && Names.Is83(fileName)
    ensures ok ==> FileAt(dir, f, slot, chains', open + {slot}) && f.curPosition == 0
    ensures ok ==> f.flags == Flags(oflag.read, oflag.write, oflag.append, oflag.sync, false, false)
    ensures ok ==> OpenEffect(dir.vol.g, old(dir.vol.disk), old(dir.Place()), old(dir.fileSize), chains, open,
                              dir.vol.disk, dir.Place(), dir.fileSize, chains',
                              Names.Packed(fileName), oflag, slot, f.chain, f.Data(), f.fileType == Normal)
    ensures ok ==> VolumeKept(dir.vol.g, old(dir.vol.disk), dir.vol.disk,
                              Owned(old(dir.Place()), ChainAt(chains, slot)), Owned(dir.Place(), f.chain),
                              old(dir.Place()).RootDir?)
    ensures !ok ==> old(f.fileType) != Closed || dir.vol.card.faults > old(dir.vol.card.faults)
                    || Refused(old(dir.Data()), fileName, oflag, slot, dir.fileType == Root16 || dir.vol.Full())
    ensures dir.vol.card.faults >= old(dir.vol.card.faults)
  {
    hide SdVolume.Valid, SdFile.Valid, DirHandle, HandleOn, SdFile.Data, SdFile.CachedAt, FileAt, SlotsKept,
         SdFile.Opens, SlotOp, Visible, NumBlocks, Sound, FirstUnused, NameMissing, HoldsName, AllLive, OnlyDirChanged,
         OpenResult, NewEntry, SdVolume.Full, Layout.ClusterBytes, SlotNoted, Created, Settled, Names.Is83,
         Names.Packed, OpenEffect, NotOpened, VolumeKept, Owned;
    slot, chains' := 0, chains;
    if f.fileType != Closed {
      return false, 0, chains;
    }
    var dname := new byte[11];
    ok := Names.Make83Name(fileName, dname);
    if !ok {
      return;
    }
    var outcome;
    ok, outcome, slot := SearchDir(f, dir, dname[..], chains, open);
    if !ok {
      return;
    }
    PackedStart(fileName);
    ok, slot, chains' := OpenOrMake(f, dir, outcome, oflag, dname[..], slot, chains, open);
    if ok {
      OpenKeepsVolume(dir, f, old(dir.vol.disk), old(dir.Place()), old(dir.fileSize), Names.Packed(fileName), oflag,
                      slot, chains, open, chains');
    }
  }

  lemma OpenKeepsVolume(dir: SdFile, f: SdFile, disk: Disk, x: Extent, n: nat, name: seq<byte>, oflag: OpenFlags,
                        slot: nat, chains: seq<seq<nat>>, open: set<nat>, chains': seq<seq<nat>>)
    requires |name| == 11 && FileAt(dir, f, slot, chains', open + {slot})
    requires OpenEffect(dir.vol.g, disk, x, n, chains, open, dir.vol.disk, dir.Place(), dir.fileSize, chains',
                        name, oflag, slot, f.chain, f.Data(), f.fileType == Normal)
    ensures VolumeKept(dir.vol.g, disk, dir.vol.disk, Owned(x, ChainAt(chains, slot)), Owned(dir.Place(), f.chain),
                       x.RootDir?)
  {
    hide SdVolume.Valid, SdFile.Valid, SdFile.Data, OpenEffect, VolumeKept, OthersSpared, DirSound, NumBlocks, Sound,
         ChainOk, EntryOk, SafeFrom;
    OpenSpares(dir.vol.g, disk, x, n, chains, open, dir.vol.disk, dir.Place(), dir.fileSize, chains',
               name, oflag, slot, f.chain, f.Data(), f.fileType == Normal);
    OperationKeepsVolume(dir.vol.g, disk, dir.vol.disk, x, ChainAt(chains, slot), dir.Place(), dir.fileSize, chains',
                         open + {slot}, slot);
  }

  /** A packed name starts like no free or deleted slot. */
  lemma PackedStart(str: seq<byte>)
    requires Names.Is83(str)
    ensures var name := Names.Packed(str);
            |name| == 11 && name[0] != DIR_NAME_FREE && name[0] != DIR_NAME_DELETED && name[0] != DOT
  {
    var base := Names.Base(str);
    assert base[0] in base;
    assert Names.Packed(str)[0] == Names.UpperChar(base[0]);
  }

  lemma SettledFacts(f: SdFile, dir: SdFile, name: seq<byte>, outcome: Outcome, slot: nat,
                     chains: seq<seq<nat>>, open: set<nat>)
    requires Settled(f, dir, name, outcome, slot, chains, open)
    ensures outcome.Found? ==> HoldsName(dir.Data(), name, slot) && slot < dir.fileSize / 32
    ensures outcome.Missing? ==> NameMissing(dir.Data(), name)
    ensures DirSound(dir.vol.g, dir.vol.disk, dir.Place(), dir.fileSize, chains, open)
  {
  }

  // ---- a new subdirectory ----

  /** The names of a subdirectory's own entries: one or two dots. */
  function DotName(n: nat): (r: seq<byte>)
    requires 1 <= n <= 2
    ensures |r| == 11
  {
    seq(11, i => if i < n then DOT else 0x20)
  }

  function Renamed(e: Entry, name: seq<byte>): (r: Entry)
    requires |name| == 11
    ensures Name(r) == name && r[11..] == e[11..]
  {
    name + e[11..]
  }

  /** What `makeDir` writes into a new subdirectory with the entry `e`: that entry
      under the name `.`, and under the name `..` with the parent's cluster, which
      is 0 for the root. */
  function DotEntries(e: Entry, parent: nat): (r: seq<byte>)
    requires parent < TWO32
    ensures |r| == 64
  {
    Renamed(e, DotName(1)) + WithCluster(Renamed(e, DotName(2)), parent)
  }

  lemma DotEntriesAre(e: Entry, parent: nat, data: seq<byte>)
    requires parent < TWO32 && IsSubDir(e) && |data| >= 64 && data == DotEntries(e, parent) + Zeros(|data| - 64)
    ensures IsDot(Slot(data, 0)) && Name(Slot(data, 0)) == DotName(1) && FirstCluster(Slot(data, 0)) == FirstCluster(e)
    ensures IsDot(Slot(data, 1)) && Name(Slot(data, 1)) == DotName(2) && FirstCluster(Slot(data, 1)) == parent
    ensures forall k | 2 <= k < |data| / 32 :: IsFree(Slot(data, k))
  {
    var first, second := Renamed(e, DotName(1)), WithCluster(Renamed(e, DotName(2)), parent);
    assert Slot(data, 0) == first && Slot(data, 1) == second;
    assert forall i | 11 <= i < 32 :: first[i] == first[11..][i - 11] == e[i];
    assert forall i | 0 <= i < 11 :: second[i] == Renamed(e, DotName(2))[i] == DotName(2)[i];
    assert Renamed(e, DotName(2))[11] == Renamed(e, DotName(2))[11..][0] == e[11];
    assert Name(first)[0] == first[0];
    assert Name(second) == DotName(2);
    forall k | 2 <= k < |data| / 32
      ensures IsFree(Slot(data, k))
    {
      assert data[32 * k] == 0;
    }
  }

  /** So a new subdirectory is a sound one, though its first entry names its own
      first cluster and its second one the parent's. */
  lemma NewSubDirSound(dir: SdFile, e: Entry, parent: nat)
    requires dir.Open() && dir.fileType == SubDir && dir.ReadsEntries() && parent < TWO32 && IsSubDir(e)
    requires dir.fileSize == 512 * dir.vol.g.BlocksOf(|dir.chain|) && dir.fileSize >= 64
    requires dir.Data() == DotEntries(e, parent) + Zeros(dir.fileSize - 64)
    ensures DirHandle(dir, NoChains(dir.fileSize / 32), {})
    ensures FirstCluster(e) == dir.firstCluster ==> FirstCluster(Slot(dir.Data(), 0)) == dir.chain[0]
  {
    hide SdVolume.Valid, SdFile.EntryValid, SdFile.ChainValid, SdFile.ReadsEntries, HandleOn, Contents, IsDot, IsFree,
         FirstCluster, DotEntries, Zeros, SlotsBacked, IsOwner, NamesUnique, FreeTail, Layout.BlocksOf, DotName,
         IsSubDir, Slot, Name, NumBlocks, Sound, DirExtent, NoChains;
    DotEntriesAre(e, parent, dir.Data());
    TwoNames(dir.Data());
    WholeSlots(dir.vol.g.BlocksOf(|dir.chain|));
    ChainOfPlace(dir);
    NothingBacked(dir.vol.g, dir.vol.disk, dir.Place(), dir.fileSize);
    HandleOfSubDir(dir);
  }

  lemma WholeSlots(blocks: nat)
    ensures 512 * blocks % 32 == 0
  {
  }

  lemma HandleOfSubDir(dir: SdFile)
    requires dir.Open() && dir.fileType == SubDir && dir.ReadsEntries()
    requires dir.fileSize == 512 * dir.vol.g.BlocksOf(|dir.chain|)
    requires DirSound(dir.vol.g, dir.vol.disk, dir.Place(), dir.fileSize, NoChains(dir.fileSize / 32), {})
    ensures DirHandle(dir, NoChains(dir.fileSize / 32), {})
  {
    hide SdVolume.Valid, ChainOk, DirSound, Layout.InCluster, Layout.IsCluster, Layout.InTables, NumBlocks,
         Sound, Layout.BlocksOf;
  }

  lemma NothingBacked(g: Layout, disk: Disk, x: Extent, n: nat)
    requires DirExtent(g, disk, x, n)
    requires forall k | 0 <= k < n / 32 :: !IsOwner(Slot(Contents(g, disk, x, n), k))
    ensures SlotsBacked(g, disk, x, n, NoChains(n / 32), {})
  {
    hide Contents, IsOwner, DirExtent, Backed, NumBlocks, Sound;
    NilIsChain(TableOf(g, disk), g.EocMin());
  }

  lemma TwoNames(data: seq<byte>)
    requires |data| >= 64 && Name(Slot(data, 0)) == DotName(1) && Name(Slot(data, 1)) == DotName(2)
    requires IsDot(Slot(data, 0)) && IsDot(Slot(data, 1))
    requires forall k | 2 <= k < |data| / 32 :: IsFree(Slot(data, k))
    ensures NamesUnique(data) && FreeTail(data) && forall k | 0 <= k < |data| / 32 :: !IsOwner(Slot(data, k))
  {
    assert DotName(1)[1] != DotName(2)[1];
  }

  lemma ChainOfPlace(dir: SdFile)
    requires dir.ChainValid() && dir.fileType == SubDir && dir.fileSize > 0
    ensures dir.chain != [] && dir.chain[0] == dir.firstCluster
    ensures DirExtent(dir.vol.g, dir.vol.disk, dir.Place(), dir.fileSize) <==> dir.fileSize % 32 == 0
  {
  }

  // ---- removing a directory ----

  /** A slot that keeps a directory from being removed. */
  predicate Occupies(e: Entry) {
    IsLive(e) && e[0] != DOT && (IsFile(e) || IsSubDir(e))
  }

  /** The first `k` slots are passed by when looking for occupied ones. */
  ghost predicate EmptySoFar(data: seq<byte>, k: nat) {
    k <= |data| / 32 && Visible(data, k) && forall j | 0 <= j < k :: !Occupies(Slot(data, j))
  }

  /** No file or subdirectory can be found in the directory, apart from its own
      dot entries. */
  ghost predicate IsEmptyDir(data: seq<byte>) {
    forall k: nat | k < |data| / 32 && Visible(data, k) :: !Occupies(Slot(data, k))
  }

  lemma LookedAtSlot(data: seq<byte>, k: nat)
    requires EmptySoFar(data, k) && k < |data| / 32
    ensures IsFree(Slot(data, k)) ==> IsEmptyDir(data)
    ensures Occupies(Slot(data, k)) ==> !IsEmptyDir(data)
    ensures !IsFree(Slot(data, k)) && !Occupies(Slot(data, k)) ==> EmptySoFar(data, k + 1)
  {
  }

  lemma LookedAtNone(data: seq<byte>)
    ensures EmptySoFar(data, 0)
  {
  }

  lemma LookedAtAll(data: seq<byte>, k: nat)
    requires EmptySoFar(data, k) && k >= |data| / 32
    ensures IsEmptyDir(data)
  {
  }

  /** Whether an open subdirectory is empty. */
  method CheckEmpty(f: SdFile) returns (ok: bool, empty: bool)
    requires f.Valid() && f.ReadsEntries() && f.fileSize % 32 == 0
    modifies f`curPosition, f`curCluster,
             f.vol`cacheDirty, f.vol`cacheMirrorBlock, f.vol`cacheBlockNumber, f.vol.card, f.vol.cacheBuffer
    ensures f.vol.Valid() && f.vol.Wedged() == old(f.vol.Wedged())
    ensures ok ==> f.Valid() && empty == IsEmptyDir(f.Data())
    ensures !ok ==> f.vol.card.faults > old(f.vol.card.faults)
    ensures f.vol.card.faults >= old(f.vol.card.faults)
  {
    hide SdVolume.Valid, SdFile.Valid, SdFile.Data, EmptySoFar, IsEmptyDir, Slot, SdFile.ChainValid, SdFile.EntryValid,
         SdFile.CursorValid, SdFile.CachedAt, NumBlocks, Sound, Occupies;
    ValidIsOpen(f);
    f.Rewind();
    ghost var data := f.Data();
    LookedAtNone(data);
    while f.curPosition < f.fileSize
      invariant f.vol.Valid() && f.vol.Wedged() == old(f.vol.Wedged()) && f.vol.card.faults >= old(f.vol.card.faults)
      invariant f.Valid() && f.curPosition % 32 == 0 && f.curPosition <= f.fileSize
      invariant EmptySoFar(data, f.curPosition / 32)
      decreases f.fileSize - f.curPosition
    {
      LookedAtSlot(data, f.curPosition / 32);
      var i, p;
      ok, i, p := NextSlot(f);
      if !ok {
        return false, false;
      }
      if IsFree(p) {
        return true, true;
      }
      if !IsDeleted(p) && p[0] != DOT && (IsFile(p) || IsSubDir(p)) {
        OccupiesIs(p);
        return true, false;
      }
      OccupiesIs(p);
    }
    LookedAtAll(data, f.curPosition / 32);
    return true, true;
  }

  lemma OccupiesIs(p: Entry)
    ensures Occupies(p) <==> !IsFree(p) && !IsDeleted(p) && p[0] != DOT && (IsFile(p) || IsSubDir(p))
  {
  }

  lemma ValidIsOpen(f: SdFile)
    requires f.Valid() && f.fileType != Closed
    ensures f.Open()
  {
  }

  /** Remove an open subdirectory, which must be empty: its clusters become
      free and its entry is deleted. */
  method RmDir(f: SdFile) returns (ok: bool)
    requires f.Valid()
    requires f.fileType == SubDir ==>
               f.flags.read && !f.flags.unbuffered && !IsFileAttribute(f.attributes)
               && f.chain != [] && f.fileSize == 512 * f.vol.g.BlocksOf(|f.chain|)
    modifies f`curPosition, f`curCluster, f`firstCluster, f`flags, f`chain, f`fileSize, f`fileType,
             f.vol`cacheDirty, f.vol`cacheMirrorBlock, f.vol`cacheBlockNumber, f.vol`disk, f.vol`allocSearchStart,
             f.vol.card, f.vol.cacheBuffer
    ensures f.vol.Valid() && f.vol.Wedged() == old(f.vol.Wedged())
    ensures ok ==> f.fileType == Closed && old(f.fileType) == SubDir && IsEmptyDir(old(f.Data()))
    ensures ok ==> f.vol.card.blocks == f.vol.disk && f.dirBlock < f.vol.size && f.dirIndex < 16
    ensures ok ==> Removed(f.vol.g, old(f.vol.Fat()), old(f.vol.disk), old(f.chain), f.vol.Fat(), f.vol.disk,
                           old(f.fileSize), f.dirBlock, f.dirIndex)
    ensures ok ==> old(f.fileSize) != 0
    ensures !ok ==>
              f.vol.card.faults > old(f.vol.card.faults) || old(f.fileType) != SubDir || !IsEmptyDir(old(f.Data()))
    ensures f.vol.card.faults >= old(f.vol.card.faults)
  {
    hide SdVolume.Valid, SdFile.Data, SdFile.Valid, IsEmptyDir, Removed, IsFileAttribute;
    if f.fileType != SubDir {
      return false;
    }
    DirSizes(f.vol.g, f.vol.size, |f.chain|);
    var empty;
    ok, empty := CheckEmpty(f);
    if !ok || !empty {
      return false;
    }
    TurnToFile(f);
    ok := f.Remove();
  }

  /** Treat an open subdirectory as a file open for writing. */
  method TurnToFile(f: SdFile)
    requires f.Valid() && f.fileType == SubDir && !IsFileAttribute(f.attributes)
    modifies f`fileType, f`flags
    ensures f.Valid() && f.fileType == Normal && f.flags == old(f.flags).(write := true)
    ensures f.Place() == old(f.Place())
  {
    hide SdVolume.Valid, ChainOk, EntryOk, IsFileAttribute;
    HandleAsFile(f);
    f.fileType := Normal;
    f.flags := f.flags.(write := true);
  }

  lemma DirSizes(g: Layout, size: nat, n: nat)
    requires g.Valid(size) && n > 0
    ensures 512 * g.BlocksOf(n) % 32 == 0 && 512 * g.BlocksOf(n) != 0
  {
    BlocksOfMonotone(g, 0, n);
  }

  /** A subdirectory's handle is in order as that of a file, too. */
  lemma HandleAsFile(f: SdFile)
    requires f.ChainValid() && f.EntryValid() && f.fileType == SubDir && !IsFileAttribute(f.attributes)
    ensures EntryOk(f.vol.g, f.vol.disk, true, f.chain, f.flags.dirDirty, f.firstCluster, f.fileSize,
                    f.dirBlock, f.dirIndex, f.attributes)
  {
  }
}
