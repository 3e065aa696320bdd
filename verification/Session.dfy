/** Whole runs: operations on one open file of a directory, what they do to the
    file, and that they leave the directory and every other file alone. */
module Sessions {
  import opened Bytes
  import opened Geometry
  import opened Chains
  import opened TableBlocks
  import opened FileBytes
  import opened DirEntry
  import opened Volume
  import opened CacheFate
  import opened Files
  import opened Directory
  import opened Frames
  import opened Directories
  import Names

  // ---- what an operation on slot `k` leaves alone ----

  /** All slots but slot `k` have their entries, chains and bytes. */
  ghost predicate OthersKept(g: Layout, disk: Disk, disk': Disk, x: Extent, n: nat,
                             chains: seq<seq<nat>>, chains': seq<seq<nat>>, k: nat)
    requires DirExtent(g, disk, x, n) && DirExtent(g, disk', x, n)
  {
    && |disk'| == |disk|
    && |chains'| == |chains| == n / 32
    && SlotsKept(Contents(g, disk, x, n), Contents(g, disk', x, n), n / 32, k)
    && (forall j | 0 <= j < |chains| && j != k :: chains'[j] == chains[j])
    && (forall j | 0 <= j < |chains| && j != k :: SameBlocks(g, disk, disk', chains[j]))
  }

  lemma OthersKeptRefl(g: Layout, disk: Disk, x: Extent, n: nat, chains: seq<seq<nat>>, k: nat)
    requires DirExtent(g, disk, x, n) && |chains| == n / 32
    ensures OthersKept(g, disk, disk, x, n, chains, chains, k)
  {
  }

  lemma OthersKeptTrans(g: Layout, a: Disk, b: Disk, c: Disk, x: Extent, n: nat,
                        chains: seq<seq<nat>>, chains1: seq<seq<nat>>, chains2: seq<seq<nat>>, k: nat)
    requires DirExtent(g, a, x, n) && DirExtent(g, b, x, n) && DirExtent(g, c, x, n)
    requires OthersKept(g, a, b, x, n, chains, chains1, k) && OthersKept(g, b, c, x, n, chains1, chains2, k)
    ensures OthersKept(g, a, c, x, n, chains, chains2, k)
  {
    hide Contents, InExtent, DirExtent, Slot;
    forall j | 0 <= j < |chains| && j != k
      ensures SameBlocks(g, a, c, chains[j])
    {
      assert SameBlocks(g, a, b, chains[j]) && SameBlocks(g, b, c, chains1[j]);
    }
  }

  /** An operation on slot `k` keeps all others. */
  lemma SlotOpKeepsOthers(g: Layout, disk: Disk, disk': Disk, x: Extent, n: nat, chains: seq<seq<nat>>, open: set<nat>,
                          k: nat, ch': seq<nat>)
    requires DirSound(g, disk, x, n, chains, open) && k < n / 32 && DirExtent(g, disk', x, n)
    requires SlotOp(g, disk, disk', x, n, k, chains[k], ch')
    ensures OthersKept(g, disk, disk', x, n, chains, chains[k := ch'], k)
    ensures OthersSpared(g, disk, disk', Mine(x, chains[k]), Mine(x, ch'), x.RootDir?)
  {
    hide OthersSpared, Contents, SlotOp, DirExtent, NamesUnique, FreeTail, Slot, Backed, InExtent, IsChainOrNil,
         SameBlocks;
    forall j | 0 <= j < n / 32 && j != k
      ensures Slot(Contents(g, disk', x, n), j) == Slot(Contents(g, disk, x, n), j)
      ensures SameBlocks(g, disk, disk', chains[j])
    {
      OtherSlotBacked(g, disk, disk', x, n, chains, open, k, ch', j);
      BlocksApart(g, disk, disk', x, n, chains[j], k, chains[k], ch');
    }
    SlotChain(g, disk, x, n, chains, open, k);
    SlotOpSpares(g, disk, disk', x, n, k, chains[k], ch');
  }

  lemma BlocksApart(g: Layout, disk: Disk, disk': Disk, x: Extent, n: nat, other: seq<nat>, k: nat,
                    ch: seq<nat>, ch': seq<nat>)
    requires DirExtent(g, disk, x, n) && SlotOp(g, disk, disk', x, n, k, ch, ch')
    requires IsChainOrNil(TableOf(g, disk), g.EocMin(), other) && Apart(other, OwnChain(x)) && Apart(other, ch')
    ensures SameBlocks(g, disk, disk', other)
  {
    hide IsChainOrNil;
    ChainSound(g, disk, other);
    forall b | 0 <= b < |disk| && InExtent(g, other, b)
      ensures disk'[b] == disk[b]
    {
      var c :| c in other && 2 <= c && g.InCluster(c, b);
      ClusterBlock(g, |disk|, other, c, b);
      var m: nat :| m < g.BlocksOf(|other|) && FileBlock(g, |disk|, Clusters(other), m) == b;
      FileBlockApart(g, disk, disk', x, n, other, k, ch, ch', m);
    }
  }

  /** Every block of a cluster of a chain is a block of its file. */
  lemma ClusterBlock(g: Layout, size: nat, ch: seq<nat>, c: nat, b: nat)
    requires g.Valid(size) && Sound(g, Clusters(ch)) && c in ch && 2 <= c && g.InCluster(c, b)
    ensures exists m: nat :: m < g.BlocksOf(|ch|) && FileBlock(g, size, Clusters(ch), m) == b
  {
    var i: nat :| i < |ch| && ch[i] == c;
    var m := g.BlocksOf(i) + (b - g.ClusterStartBlock(c));
    SplitUnique(g, i, b - g.ClusterStartBlock(c), m);
    SplitBound(g, m, |ch|);
    assert FileBlock(g, size, Clusters(ch), m) == b;
  }

  /** So the bytes of any other file are the same, open or not. */
  lemma OthersKeepBytes(g: Layout, disk: Disk, disk': Disk, x: Extent, n: nat,
                        chains: seq<seq<nat>>, chains': seq<seq<nat>>, k: nat, j: nat, m: nat)
    requires DirExtent(g, disk, x, n) && DirExtent(g, disk', x, n)
             && OthersKept(g, disk, disk', x, n, chains, chains', k)
    requires j < n / 32 && j != k && Sound(g, Clusters(chains[j])) && m <= 512 * g.BlocksOf(|chains[j]|)
    ensures Contents(g, disk', Clusters(chains'[j]), m) == Contents(g, disk, Clusters(chains[j]), m)
  {
    hide SlotsKept, DirExtent, SameBlocks;
    SameBlocksSameBytes(g, disk, disk', chains[j], m);
  }

  /** Another open file of the directory: its handle stays good, with the same
      bytes at the same position. */
  lemma OtherHandleKept(dir: SdFile, h: SdFile, disk: Disk, chains: seq<seq<nat>>, chains': seq<seq<nat>>,
                        open: set<nat>, open': set<nat>, k: nat, j: nat)
    requires DirHandle(dir, chains', open') && h != dir && h.vol == dir.vol
    requires |disk| == dir.vol.size && DirSound(dir.vol.g, disk, dir.Place(), dir.fileSize, chains, open)
    requires OthersKept(dir.vol.g, disk, dir.vol.disk, dir.Place(), dir.fileSize, chains, chains', k)
    requires j < |chains| && j != k && j in open' && j / 16 < NumBlocks(dir.vol.g, dir.Place())
    requires h.fileType == Normal && h.chain == chains[j] && IsFileAttribute(h.attributes)
    requires h.dirBlock == SlotBlock(dir.vol.g, dir.vol.size, dir.Place(), j) && h.dirIndex == j % 16
    requires ChainOk(h.vol.g, disk, false, h.chain, h.firstCluster, h.fileSize) && h.CursorValid()
             && h.curPosition <= h.fileSize
    requires EntryOk(h.vol.g, disk, true, h.chain, h.flags.dirDirty, h.firstCluster, h.fileSize,
                     h.dirBlock, h.dirIndex, h.attributes)
    ensures FileAt(dir, h, j, chains', open')
    ensures h.Data() == Contents(h.vol.g, disk, Clusters(h.chain), h.fileSize)
  {
    hide SdVolume.Valid, Contents, HandleOn, DirSound, DirExtent, Slot, SameBlocks, IsChain, EntryAt, FileBlock,
         ChainOk, EntryOk, EntryBlockSafe, OthersKept, Sound, NumBlocks, IsFileAttribute;
    var g, x, n := dir.vol.g, dir.Place(), dir.fileSize;
    SlotChain(g, dir.vol.disk, x, n, chains', open', j);
    DirBlockSafe(g, dir.vol.disk, x, n, j / 16, chains'[j]);
    SlotInBlock(g, disk, x, n, j);
    SlotInBlock(g, dir.vol.disk, x, n, j);
    OtherSame(g, disk, dir.vol.disk, x, n, chains, chains', k, j);
    StillChainOk(g, disk, dir.vol.disk, h.chain, h.firstCluster, h.fileSize);
    StillEntryOk(g, disk, dir.vol.disk, h.chain, h.flags.dirDirty, h.firstCluster, h.fileSize,
                 h.dirBlock, h.dirIndex, h.attributes);
    OthersKeepBytes(g, disk, dir.vol.disk, x, n, chains, chains', k, j, h.fileSize);
    HandleValid(h);
  }

  lemma HandleValid(h: SdFile)
    requires h.vol.Valid() && h.fileType == Normal && h.CursorValid() && h.curPosition <= h.fileSize
    requires ChainOk(h.vol.g, h.vol.disk, false, h.chain, h.firstCluster, h.fileSize)
    requires EntryOk(h.vol.g, h.vol.disk, true, h.chain, h.flags.dirDirty, h.firstCluster, h.fileSize,
                     h.dirBlock, h.dirIndex, h.attributes)
    ensures h.Valid()
  {
    hide SdVolume.Valid, ChainOk, EntryOk;
  }

  lemma OtherSame(g: Layout, disk: Disk, disk': Disk, x: Extent, n: nat,
                  chains: seq<seq<nat>>, chains': seq<seq<nat>>, k: nat, j: nat)
    requires DirExtent(g, disk, x, n) && DirExtent(g, disk', x, n)
             && OthersKept(g, disk, disk', x, n, chains, chains', k)
    requires j < n / 32 && j != k
    ensures chains'[j] == chains[j] && |disk'| == |disk|
    ensures Slot(Contents(g, disk', x, n), j) == Slot(Contents(g, disk, x, n), j)
  {
  }

  lemma StillChainOk(g: Layout, disk: Disk, disk': Disk, ch: seq<nat>, first: nat, n: nat)
    requires ChainOk(g, disk, false, ch, first, n) && |disk'| == |disk|
    requires IsChainOrNil(TableOf(g, disk'), g.EocMin(), ch)
    ensures ChainOk(g, disk', false, ch, first, n)
    ensures Sound(g, Clusters(ch)) && n <= 512 * g.BlocksOf(|ch|)
  {
  }

  lemma StillEntryOk(g: Layout, disk: Disk, disk': Disk, ch: seq<nat>, dirty: bool, first: nat, n: nat,
                     b: nat, i: nat, attributes: byte)
    requires EntryOk(g, disk, true, ch, dirty, first, n, b, i, attributes) && |disk'| == |disk|
    requires EntryAt(disk'[b], i) == EntryAt(disk[b], i)
    requires EntryBlockSafe(g, |disk'|, TableOf(g, disk'), ch, b)
    ensures EntryOk(g, disk', true, ch, dirty, first, n, b, i, attributes)
  {
  }

  // ---- one file, one operation at a time ----

  /** `f` is open on the one file of the directory with the name `name`. */
  ghost predicate Session(dir: SdFile, f: SdFile, name: seq<byte>, k: nat, chains: seq<seq<nat>>, open: set<nat>)
    reads dir, dir.vol, dir.vol.card, dir.vol.cacheBuffer, f, f.vol, f.vol.card, f.vol.cacheBuffer
    ensures Session(dir, f, name, k, chains, open) ==> FileAt(dir, f, k, chains, open) && f.fileType == Normal
  {
    && FileAt(dir, f, k, chains, open)
    && f.fileType == Normal
    && OnlyAt(dir.Data(), name, k, open)
  }

  /** Slot `k` holds the name, and no other open one does. */
  ghost predicate OnlyAt(data: seq<byte>, name: seq<byte>, k: nat, open: set<nat>) {
    HoldsName(data, name, k) && forall j | j in open && j != k :: !HoldsName(data, name, j)
  }

  lemma OnlyAtKept(data: seq<byte>, data': seq<byte>, name: seq<byte>, k: nat, open: set<nat>)
    requires OnlyAt(data, name, k, open) && |data'| == |data| && SlotsKept(data, data', |data| / 32, k)
    requires Name(Slot(data', k)) == Name(Slot(data, k))
    ensures OnlyAt(data', name, k, open)
  {
    HoldsNameKept(data, data', name, k);
  }

  /** After an operation on the file that stays open. */
  lemma AfterOp(dir: SdFile, f: SdFile, disk: Disk, name: seq<byte>, k: nat, chains: seq<seq<nat>>, open: set<nat>)
    requires dir.vol.Valid() && HandleOn(dir, disk, chains, open) && k < |chains| && k in open
    requires k / 16 < NumBlocks(dir.vol.g, dir.Place()) && f != dir && f.vol == dir.vol
    requires OnlyAt(Contents(dir.vol.g, disk, dir.Place(), dir.fileSize), name, k, open)
    requires f.Valid() && f.fileType == Normal && IsFileAttribute(f.attributes)
    requires f.dirBlock == SlotBlock(dir.vol.g, dir.vol.size, dir.Place(), k) && f.dirIndex == k % 16
    requires SlotOp(dir.vol.g, disk, dir.vol.disk, dir.Place(), dir.fileSize, k, chains[k], f.chain)
    requires SameEntryName(disk, dir.vol.disk, SlotBlock(dir.vol.g, dir.vol.size, dir.Place(), k), k % 16)
    ensures Session(dir, f, name, k, chains[k := f.chain], open)
    ensures Kept(dir, disk, chains, chains[k := f.chain], k)
  {
    hide SdVolume.Valid, SdFile.Valid, Contents, SlotOp, DirSound, ChainOk, EntryOk, SafeFrom, Slot, Visible,
         SlotBlock, Sound, SameEntryName, NumBlocks, OthersKept, OthersSpared, IsFileAttribute, IsOwner;
    var g, x, n := dir.vol.g, dir.Place(), dir.fileSize;
    OpenedChain(f);
    SlotBytes(dir, disk, chains, open, k);
    SlotLive(g, disk, x, n, chains, open, k);
    OpenOpKeepsDir(g, disk, dir.vol.disk, x, n, chains, open, k, f.chain);
    assert open + {k} == open;
    HandleAfterOp(dir, disk, dir.vol.disk, chains, open, k, f.chain, open);
    SlotOpKeepsOthers(g, disk, dir.vol.disk, x, n, chains, open, k, f.chain);
    OnlyAtKept(Contents(g, disk, x, n), dir.Data(), name, k, open);
    SlotBytes(dir, dir.vol.disk, chains[k := f.chain], open, k);
  }

  lemma SlotLive(g: Layout, disk: Disk, x: Extent, n: nat, chains: seq<seq<nat>>, open: set<nat>, k: nat)
    requires DirSound(g, disk, x, n, chains, open) && k in open
    ensures k < n / 32 && IsOwner(Slot(Contents(g, disk, x, n), k)) && IsLive(Slot(Contents(g, disk, x, n), k))
  {
  }

  /** A file as its user sees it: bytes, a position and whether writes append. */
  datatype Stream = Stream(bytes: seq<byte>, pos: nat, append: bool) {
    ghost predicate Proper() { pos <= |bytes| }
  }

  datatype FileOp =
    | Seek(pos: nat)
    | Read(count: nat)
    | Write(src: seq<byte>)
    | Truncate(length: nat)
    | Reopen(oflag: OpenFlags)

  /** Arguments in the ranges of their C types. */
  predicate InRange(op: FileOp) {
    match op
    case Read(count) => count <= 32767
    case Write(src) => |src| <= 0xFFFF
    case _ => true
  }

  function Least(a: nat, b: nat): nat { if a <= b then a else b }

  /** The bytes an operation delivers. */
  function Output(s: Stream, op: FileOp): seq<byte> {
    if op.Read? && s.pos <= |s.bytes| then s.bytes[s.pos..Least(s.pos + op.count, |s.bytes|)] else []
  }

  /** The stream after a successful operation. */
  function Perform(s: Stream, op: FileOp): Stream {
    if s.pos > |s.bytes| then s else
      match op
      case Seek(pos) => s.(pos := Least(pos, |s.bytes|))
      case Read(count) => s.(pos := Least(s.pos + count, |s.bytes|))
      case Write(src) =>
        var at := if s.append then |s.bytes| else s.pos;
        s.(bytes := Splice(s.bytes, at, src), pos := at + |src|)
      case Truncate(length) =>
        var n := Least(length, |s.bytes|);
        s.(bytes := s.bytes[..n], pos := Least(s.pos, n))
      case Reopen(oflag) => Stream(if oflag.trunc then [] else s.bytes, 0, oflag.append)
  }

  ghost function StreamOf(f: SdFile): Stream
    requires f.Valid() && f.fileType != Closed
    reads f, f.vol, f.vol.card, f.vol.cacheBuffer
  {
    Stream(f.Data(), f.curPosition, f.flags.append)
  }

  lemma PerformRead(s: Stream, count: nat, n: nat)
    requires s.pos <= |s.bytes|
    requires n == if count <= |s.bytes| - s.pos then count else |s.bytes| - s.pos
    ensures Perform(s, Read(count)) == s.(pos := s.pos + n)
    ensures Output(s, Read(count)) == s.bytes[s.pos..s.pos + n]
  {
  }

  lemma PerformWrite(s: Stream, src: seq<byte>)
    requires s.pos <= |s.bytes|
    ensures var at := if s.append then |s.bytes| else s.pos;
            Perform(s, Write(src)) == Stream(Splice(s.bytes, at, src), at + |src|, s.append)
  {
  }

  lemma PerformTruncate(s: Stream, length: nat)
    requires s.pos <= |s.bytes| && length <= |s.bytes|
    ensures Perform(s, Truncate(length)) == Stream(s.bytes[..length], if s.pos > length then length else s.pos,
                                                   s.append)
  {
  }

  lemma PerformReopen(s: Stream, oflag: OpenFlags)
    requires s.pos <= |s.bytes|
    ensures Perform(s, Reopen(oflag)) == Stream(if oflag.trunc then [] else s.bytes, 0, oflag.append)
  {
  }

  /** After an operation that left the disk as it was. */
  lemma StillSession(dir: SdFile, f: SdFile, name: seq<byte>, k: nat, chains: seq<seq<nat>>, open: set<nat>)
    requires dir.vol.Valid() && f != dir && f.vol == dir.vol && f.Valid() && f.fileType == Normal
             && IsFileAttribute(f.attributes)
    requires HandleOn(dir, dir.vol.disk, chains, open) && OnlyAt(dir.Data(), name, k, open)
    requires k < |chains| && k in open && f.chain == chains[k] && k / 16 < NumBlocks(dir.vol.g, dir.Place())
    requires f.dirBlock == SlotBlock(dir.vol.g, dir.vol.size, dir.Place(), k) && f.dirIndex == k % 16
    ensures Session(dir, f, name, k, chains, open)
  {
    hide SdVolume.Valid, SdFile.Valid, HandleOn, OnlyAt, IsFileAttribute;
  }

  method SeekStep(dir: SdFile, f: SdFile, pos: nat,
                  ghost name: seq<byte>, ghost k: nat, ghost chains: seq<seq<nat>>, ghost open: set<nat>)
    returns (ok: bool)
    requires Session(dir, f, name, k, chains, open)
    modifies f`curPosition, f`curCluster,
             f.vol`cacheDirty, f.vol`cacheMirrorBlock, f.vol`cacheBlockNumber, f.vol.card, f.vol.cacheBuffer
    ensures f.vol.Valid()
    ensures ok ==> Session(dir, f, name, k, chains, open)
    ensures ok ==> StreamOf(f) == Perform(old(StreamOf(f)), Seek(pos))
    ensures !ok ==> pos > f.fileSize || f.vol.card.faults > old(f.vol.card.faults)
  {
    hide SdVolume.Valid, SdFile.Valid, SdFile.Data, HandleOn, OnlyAt, Session, SlotBlock, NumBlocks, Sound,
         IsFileAttribute, Perform, StreamOf;
    SessionFacts(dir, f, name, k, chains, open);
    ok := SeekOut(f, pos);
    if ok {
      StillSession(dir, f, name, k, chains, open);
    }
  }

  method SeekOut(f: SdFile, pos: nat) returns (ok: bool)
    requires f.Valid() && f.fileType == Normal
    modifies f`curPosition, f`curCluster,
             f.vol`cacheDirty, f.vol`cacheMirrorBlock, f.vol`cacheBlockNumber, f.vol.card, f.vol.cacheBuffer
    ensures f.vol.Valid() && f.vol.Wedged() == old(f.vol.Wedged())
    ensures ok ==> f.Valid() && StreamOf(f) == Perform(old(StreamOf(f)), Seek(pos))
    ensures !ok ==> pos > f.fileSize || f.vol.card.faults > old(f.vol.card.faults)
  {
    hide SdVolume.Valid, SdFile.Open, SdFile.CursorValid, SdFile.Data, NumBlocks, Sound;
    ok := f.SeekSet(pos);
  }

  method ReadStep(dir: SdFile, f: SdFile, count: nat,
                  ghost name: seq<byte>, ghost k: nat, ghost chains: seq<seq<nat>>, ghost open: set<nat>)
    returns (ok: bool, out: seq<byte>)
    requires Session(dir, f, name, k, chains, open) && count <= 32767
    modifies f`curPosition, f`curCluster,
             f.vol`cacheDirty, f.vol`cacheMirrorBlock, f.vol`cacheBlockNumber, f.vol.card, f.vol.cacheBuffer
    ensures f.vol.Valid()
    ensures ok ==> Session(dir, f, name, k, chains, open)
    ensures ok ==> out == Output(old(StreamOf(f)), Read(count))
    ensures ok ==> StreamOf(f) == Perform(old(StreamOf(f)), Read(count))
    ensures !ok ==> !f.flags.read || f.vol.card.faults > old(f.vol.card.faults)
  {
    hide SdVolume.Valid, SdFile.Valid, SdFile.Data, HandleOn, OnlyAt, Session, SlotBlock, NumBlocks, Sound,
         IsFileAttribute, Perform, Output, StreamOf, SdVolume.Wedged, SdFile.Place, Layout.Valid;
    SessionFacts(dir, f, name, k, chains, open);
    ok, out := ReadOut(f, count);
    if ok {
      StillSession(dir, f, name, k, chains, open);
    }
  }

  method ReadOut(f: SdFile, count: nat) returns (ok: bool, out: seq<byte>)
    requires f.Valid() && f.fileType == Normal && count <= 32767
    modifies f`curPosition, f`curCluster,
             f.vol`cacheDirty, f.vol`cacheMirrorBlock, f.vol`cacheBlockNumber, f.vol.card, f.vol.cacheBuffer
    ensures f.vol.Valid() && f.vol.Wedged() == old(f.vol.Wedged())
    ensures ok ==> f.Valid() && out == Output(old(StreamOf(f)), Read(count))
    ensures ok ==> StreamOf(f) == Perform(old(StreamOf(f)), Read(count))
    ensures !ok ==> !f.flags.read || f.vol.card.faults > old(f.vol.card.faults)
  {
    hide SdVolume.Valid, SdFile.Data, SdFile.Open, SdFile.CursorValid, Perform, Output, Overwrite, NumBlocks, Sound;
    var buf := new byte[count];
    ghost var was := buf[..];
    var n := f.Read(buf, count);
    if n < 0 {
      return false, [];
    }
    PerformRead(old(StreamOf(f)), count, n);
    OverwriteFront(was, f.Data()[old(f.curPosition)..f.curPosition]);
    return true, buf[..][..n];
  }

  method WriteStep(dir: SdFile, f: SdFile, src: seq<byte>,
                   ghost name: seq<byte>, ghost k: nat, ghost chains: seq<seq<nat>>, ghost open: set<nat>)
    returns (ok: bool)
    requires Session(dir, f, name, k, chains, open) && |src| <= 0xFFFF && f.fileSize + |src| < TWO32
    modifies f`curPosition, f`curCluster, f`firstCluster, f`flags, f`chain, f`fileSize,
             f.vol`cacheDirty, f.vol`cacheMirrorBlock, f.vol`cacheBlockNumber, f.vol`disk, f.vol`allocSearchStart,
             f.vol.card, f.vol.cacheBuffer
    ensures f.vol.Valid()
    ensures ok ==> k < |chains| && Session(dir, f, name, k, chains[k := f.chain], open)
    ensures ok ==> StreamOf(f) == Perform(old(StreamOf(f)), Write(src))
    ensures ok ==> Kept(dir, old(f.vol.disk), chains, chains[k := f.chain], k)
    ensures !ok ==> !old(f.flags.write) || f.vol.card.faults > old(f.vol.card.faults) || f.vol.Full()
  {
    hide SdVolume.Valid, SdFile.Valid, Contents, HandleOn, OnlyAt, SlotBlock, Splice, Grown, Kept, SdVolume.Full,
         Session, Growth, Needed, NumBlocks, Sound, IsFileAttribute, Perform;
    ghost var disk := f.vol.disk;
    SessionFacts(dir, f, name, k, chains, open);
    var n;
    n, ok := f.Write(src);
    if ok {
      PerformWrite(old(StreamOf(f)), src);
      AfterGrown(dir, f, disk, name, k, chains, open, old(f.flags.sync));
    }
  }

  lemma AfterGrown(dir: SdFile, f: SdFile, disk: Disk, name: seq<byte>, k: nat, chains: seq<seq<nat>>, open: set<nat>,
                   synced: bool)
    requires dir.vol.Valid() && HandleOn(dir, disk, chains, open) && k < |chains| && k in open
    requires k / 16 < NumBlocks(dir.vol.g, dir.Place()) && f != dir && f.vol == dir.vol
    requires OnlyAt(Contents(dir.vol.g, disk, dir.Place(), dir.fileSize), name, k, open)
    requires f.Valid() && f.fileType == Normal && IsFileAttribute(f.attributes)
    requires f.dirBlock == SlotBlock(dir.vol.g, dir.vol.size, dir.Place(), k) && f.dirIndex == k % 16
    requires Grown(dir.vol.g, TableOf(dir.vol.g, disk), disk, chains[k], dir.vol.Fat(), dir.vol.disk, f.chain, synced,
                   f.dirBlock, f.dirIndex)
    ensures Session(dir, f, name, k, chains[k := f.chain], open)
    ensures Kept(dir, disk, chains, chains[k := f.chain], k)
  {
    hide SdVolume.Valid, SdFile.Valid, Contents, SlotOp, DirSound, ChainOk, EntryOk, SafeFrom, Visible, SlotBlock,
         Sound, SameEntryName, NumBlocks, OthersKept, IsFileAttribute, Grown, Session, OnlyAt;
    StillOutside(f);
    SlotBytes(dir, disk, chains, open, k);
    GrownIsSlotOp(dir.vol.g, disk, dir.vol.disk, dir.Place(), dir.fileSize, k, chains[k], f.chain, synced);
    AfterOp(dir, f, disk, name, k, chains, open);
  }

  lemma SlotBytes(dir: SdFile, disk: Disk, chains: seq<seq<nat>>, open: set<nat>, k: nat)
    requires HandleOn(dir, disk, chains, open) && k < |chains|
    ensures 32 * k + 32 <= dir.fileSize && DirExtent(dir.vol.g, disk, dir.Place(), dir.fileSize)
  {
    hide ChainOk, EntryOk, SafeFrom, SlotsBacked, NamesUnique, FreeTail;
  }

  /** Apart from slot `k`, the directory is as it was on `disk`; and so is all
      of the volume outside the directory and the file of slot `k`. */
  ghost predicate Kept(dir: SdFile, disk: Disk, chains: seq<seq<nat>>, chains': seq<seq<nat>>, k: nat)
    reads dir`fileType, dir`chain, dir`fileSize, dir.vol`disk
  {
    && DirExtent(dir.vol.g, disk, dir.Place(), dir.fileSize)
    && DirExtent(dir.vol.g, dir.vol.disk, dir.Place(), dir.fileSize)
    && OthersKept(dir.vol.g, disk, dir.vol.disk, dir.Place(), dir.fileSize, chains, chains', k)
    && k < |chains|
    && OthersSpared(dir.vol.g, disk, dir.vol.disk, Mine(dir.Place(), chains[k]), Mine(dir.Place(), chains'[k]),
                    dir.Place().RootDir?)
  }

  lemma SessionFacts(dir: SdFile, f: SdFile, name: seq<byte>, k: nat, chains: seq<seq<nat>>, open: set<nat>)
    requires Session(dir, f, name, k, chains, open)
    ensures f != dir && f.vol == dir.vol && f.Valid() && f.fileType == Normal && IsFileAttribute(f.attributes)
    ensures k < |chains| && k in open && f.chain == chains[k] && k / 16 < NumBlocks(dir.vol.g, dir.Place())
    ensures f.dirBlock == SlotBlock(dir.vol.g, dir.vol.size, dir.Place(), k) && f.dirIndex == k % 16
    ensures HandleOn(dir, dir.vol.disk, chains, open) && OnlyAt(dir.Data(), name, k, open)
    ensures DirExtent(dir.vol.g, dir.vol.disk, dir.Place(), dir.fileSize) && 32 * k + 32 <= dir.fileSize
  {
    hide SdVolume.Valid, SdFile.Valid, OnlyAt, NamesUnique, FreeTail, ChainOk, EntryOk, SafeFrom;
  }

  lemma StillOutside(f: SdFile)
    requires f.Valid() && f.fileType == Normal
    ensures !InExtent(f.vol.g, f.chain, f.dirBlock)
  {
    hide SdVolume.Valid;
    f.EntryOutside();
  }

  method TruncateStep(dir: SdFile, f: SdFile, length: nat,
                      ghost name: seq<byte>, ghost k: nat, ghost chains: seq<seq<nat>>, ghost open: set<nat>)
    returns (ok: bool)
    requires Session(dir, f, name, k, chains, open)
    modifies f`curPosition, f`curCluster, f`firstCluster, f`flags, f`chain, f`fileSize,
             f.vol`cacheDirty, f.vol`cacheMirrorBlock, f.vol`cacheBlockNumber, f.vol`disk, f.vol`allocSearchStart,
             f.vol.card, f.vol.cacheBuffer
    ensures f.vol.Valid()
    ensures ok ==> k < |chains| && Session(dir, f, name, k, chains[k := f.chain], open)
    ensures ok ==> StreamOf(f) == Perform(old(StreamOf(f)), Truncate(length))
    ensures ok ==> Kept(dir, old(f.vol.disk), chains, chains[k := f.chain], k)
    ensures !ok ==> !old(f.flags.write) || length > old(f.fileSize) || f.vol.card.faults > old(f.vol.card.faults)
  {
    hide SdVolume.Valid, SdFile.Valid, Contents, HandleOn, OnlyAt, SlotBlock, Cut, Kept, Session, NumBlocks, Sound,
         IsFileAttribute, Perform;
    ghost var disk := f.vol.disk;
    SessionFacts(dir, f, name, k, chains, open);
    ok := f.Truncate(length);
    if ok {
      PerformTruncate(old(StreamOf(f)), length);
      AfterCut(dir, f, disk, name, k, chains, open, length, old(f.fileSize) != 0);
    }
  }

  lemma AfterCut(dir: SdFile, f: SdFile, disk: Disk, name: seq<byte>, k: nat, chains: seq<seq<nat>>, open: set<nat>,
                 length: nat, cut: bool)
    requires dir.vol.Valid() && HandleOn(dir, disk, chains, open) && k < |chains| && k in open
    requires k / 16 < NumBlocks(dir.vol.g, dir.Place()) && f != dir && f.vol == dir.vol
    requires OnlyAt(Contents(dir.vol.g, disk, dir.Place(), dir.fileSize), name, k, open)
    requires f.Valid() && f.fileType == Normal && IsFileAttribute(f.attributes)
    requires f.dirBlock == SlotBlock(dir.vol.g, dir.vol.size, dir.Place(), k) && f.dirIndex == k % 16
    requires if cut then Cut(dir.vol.g, TableOf(dir.vol.g, disk), disk, chains[k], dir.vol.Fat(), dir.vol.disk, f.chain,
                             length, f.dirBlock, f.dirIndex)
             else dir.vol.disk == disk && f.chain == chains[k]
    ensures Session(dir, f, name, k, chains[k := f.chain], open)
    ensures Kept(dir, disk, chains, chains[k := f.chain], k)
  {
    hide SdVolume.Valid, SdFile.Valid, Contents, SlotOp, DirSound, ChainOk, EntryOk, SafeFrom, Visible, SlotBlock,
         Sound, SameEntryName, NumBlocks, OthersKept, IsFileAttribute, Cut, Session, OnlyAt;
    SlotBytes(dir, disk, chains, open, k);
    if cut {
      CutIsSlotOp(dir.vol.g, disk, dir.vol.disk, dir.Place(), dir.fileSize, k, chains[k], f.chain, length);
    } else {
      NothingIsSlotOp(dir.vol.g, disk, dir.Place(), dir.fileSize, k, f.chain);
    }
    AfterOp(dir, f, disk, name, k, chains, open);
  }

  // ---- closing and opening again ----

  /** The directory after the file of slot `k` was closed. */
  lemma AfterClose(dir: SdFile, disk: Disk, name: seq<byte>, k: nat, chains: seq<seq<nat>>, open: set<nat>, b: nat)
    requires dir.vol.Valid() && HandleOn(dir, disk, chains, open) && k < |chains| && k in open
    requires k / 16 < NumBlocks(dir.vol.g, dir.Place()) && b == SlotBlock(dir.vol.g, dir.vol.size, dir.Place(), k)
    requires OnlyAt(Contents(dir.vol.g, disk, dir.Place(), dir.fileSize), name, k, open)
    requires SameExcept(disk, dir.vol.disk, b) && OnlyPlaceChanged(disk[b], dir.vol.disk[b], k % 16)
    requires Backed(dir.vol.g, dir.vol.disk, b, k % 16, chains[k]) && IsFile(EntryAt(dir.vol.disk[b], k % 16))
    ensures DirHandle(dir, chains, open - {k}) && Kept(dir, disk, chains, chains, k)
    ensures OnlyAt(dir.Data(), name, k, open)
    ensures Slot(dir.Data(), k) == EntryAt(dir.vol.disk[b], k % 16) && IsLive(Slot(dir.Data(), k))
  {
    hide SdVolume.Valid, SdFile.Valid, Contents, SlotOp, DirSound, ChainOk, EntryOk, SafeFrom, Visible, SlotBlock,
         Sound, NumBlocks, OthersKept, OnlyAt, Backed, Slot, DirExtent, OnlyPlaceChanged, EntryAt, IsFile, IsChainOrNil;
    var g, x, n := dir.vol.g, dir.Place(), dir.fileSize;
    SlotBytes(dir, disk, chains, open, k);
    SlotInRange(dir, k);
    SlotLive(g, disk, x, n, chains, open, k);
    SlotInBlock(g, disk, x, n, k);
    SyncedIsSlotOp(g, disk, dir.vol.disk, x, n, k, chains[k]);
    TableFramed(g, disk, dir.vol.disk);
    SlotChain(g, disk, x, n, chains, open, k);
    NameIsLive(EntryAt(disk[b], k % 16), EntryAt(dir.vol.disk[b], k % 16));
    FileOpKeepsDir(g, disk, dir.vol.disk, x, n, chains, open, k, chains[k], open - {k});
    assert chains[k := chains[k]] == chains;
    HandleAfterOp(dir, disk, dir.vol.disk, chains, open, k, chains[k], open - {k});
    SlotOpKeepsOthers(g, disk, dir.vol.disk, x, n, chains, open, k, chains[k]);
    SlotBytes(dir, dir.vol.disk, chains, open - {k}, k);
    SlotInBlock(g, dir.vol.disk, x, n, k);
    OthersKeepSlots(g, disk, dir.vol.disk, x, n, chains, chains, k);
    OnlyAtKept(Contents(g, disk, x, n), dir.Data(), name, k, open);
  }

  lemma OthersKeepSlots(g: Layout, disk: Disk, disk': Disk, x: Extent, n: nat, chains: seq<seq<nat>>,
                        chains': seq<seq<nat>>, k: nat)
    requires DirExtent(g, disk, x, n) && DirExtent(g, disk', x, n)
             && OthersKept(g, disk, disk', x, n, chains, chains', k)
    ensures SlotsKept(Contents(g, disk, x, n), Contents(g, disk', x, n), n / 32, k)
  {
  }

  lemma NameIsLive(e: Entry, e': Entry)
    requires Name(e') == Name(e) && IsLive(e)
    ensures IsLive(e') && !IsDeleted(e')
  {
    assert e'[0] == Name(e')[0] == Name(e)[0] == e[0];
  }

  method CloseStep(dir: SdFile, f: SdFile, ghost name: seq<byte>, ghost k: nat, ghost chains: seq<seq<nat>>,
                   ghost open: set<nat>)
    returns (ok: bool)
    requires Session(dir, f, name, k, chains, open)
    modifies f`flags, f`fileType,
             f.vol`cacheDirty, f.vol`cacheMirrorBlock, f.vol`cacheBlockNumber, f.vol`disk, f.vol.card, f.vol.cacheBuffer
    ensures f.vol.Valid()
    ensures ok ==> f.fileType == Closed && f.vol.card.blocks == f.vol.disk
    ensures ok ==> DirHandle(dir, chains, open - {k}) && Kept(dir, old(f.vol.disk), chains, chains, k)
    ensures ok ==>
              OnlyAt(dir.Data(), name, k, open)
              && Holds(dir.vol.g, dir.vol.disk, dir.Place(), dir.fileSize, chains, open - {k}, k, old(f.Data()))
    ensures !ok ==> f.vol.card.faults > old(f.vol.card.faults)
  {
    hide SdVolume.Valid, SdFile.Valid, Contents, HandleOn, OnlyAt, SlotBlock, Kept, Session, NumBlocks, Sound,
         IsFileAttribute, OnlyPlaceChanged, SameExcept, Backed, StoredData, DirHandle, Holds, EntryAt;
    ghost var disk, b := f.vol.disk, f.dirBlock;
    SessionFacts(dir, f, name, k, chains, open);
    ok := f.Close();
    if ok {
      AfterClose(dir, disk, name, k, chains, open, b);
      StoredInSlot(dir, chains, open - {k}, k, b);
    }
  }

  /** Slot `k` of the directory holds a closed file with the bytes `bytes`. */
  ghost predicate Holds(g: Layout, disk: Disk, x: Extent, n: nat, chains: seq<seq<nat>>, open: set<nat>, k: nat,
                        bytes: seq<byte>) {
    && DirSound(g, disk, x, n, chains, open)
    && k < n / 32
    && k !in open
    && IsLive(Slot(Contents(g, disk, x, n), k))
    && IsFile(Slot(Contents(g, disk, x, n), k))
    && SlotData(g, disk, x, n, chains, open, k) == bytes
  }

  lemma StoredInSlot(dir: SdFile, chains: seq<seq<nat>>, open: set<nat>, k: nat, b: nat)
    requires DirHandle(dir, chains, open) && k < |chains| && k !in open && k / 16 < NumBlocks(dir.vol.g, dir.Place())
    requires b == SlotBlock(dir.vol.g, dir.vol.size, dir.Place(), k)
    requires Backed(dir.vol.g, dir.vol.disk, b, k % 16, chains[k]) && IsFile(EntryAt(dir.vol.disk[b], k % 16))
    requires IsLive(Slot(dir.Data(), k))
    ensures Holds(dir.vol.g, dir.vol.disk, dir.Place(), dir.fileSize, chains, open, k,
                  StoredData(dir.vol.g, dir.vol.disk, b, k % 16, chains[k]))
  {
    hide SdVolume.Valid, Contents, Backed, StoredData, IsFile, IsLive, NamesUnique, FreeTail, SlotsBacked, EntryAt,
         DirExtent, ChainOk, EntryOk, SafeFrom;
    SlotInBlock(dir.vol.g, dir.vol.disk, dir.Place(), dir.fileSize, k);
  }

  /** A slot with the name of a file is that file's. */
  lemma NamedOnce(data: seq<byte>, name: seq<byte>, j: nat, k: nat)
    requires NamesUnique(data) && HoldsName(data, name, j) && HoldsName(data, name, k)
    requires IsFile(Slot(data, k)) && (IsFile(Slot(data, j)) || IsSubDir(Slot(data, j)))
    ensures j == k
  {
    FilesAreShort(Slot(data, j));
    FilesAreShort(Slot(data, k));
  }

  lemma FilesAreShort(e: Entry)
    requires IsLive(e) && (IsFile(e) || IsSubDir(e))
    ensures IsShort(e)
  {
  }

  /** Close the file and open it again by its name. */
  method ReopenStep(dir: SdFile, f: SdFile, fileName: seq<byte>, oflag: OpenFlags,
                    ghost k: nat, ghost chains: seq<seq<nat>>, ghost open: set<nat>)
    returns (ok: bool)
    requires Names.Is83(fileName) && 0 !in fileName && Session(dir, f, Names.Packed(fileName), k, chains, open)
    requires dir.fileSize + dir.vol.g.ClusterBytes() < TWO32
    modifies f, dir`curPosition, dir`curCluster, dir`firstCluster, dir`flags, dir`chain, dir`fileSize,
             dir.vol`cacheDirty, dir.vol`cacheMirrorBlock, dir.vol`cacheBlockNumber, dir.vol`disk,
             dir.vol`allocSearchStart, dir.vol.card, dir.vol.cacheBuffer
    ensures dir.vol.Valid()
    ensures ok ==> dir.Place() == old(dir.Place()) && dir.fileSize == old(dir.fileSize)
    ensures ok ==> k < |chains| && Session(dir, f, Names.Packed(fileName), k, chains[k := f.chain], open)
    ensures ok ==> StreamOf(f) == Perform(old(StreamOf(f)), Reopen(oflag))
    ensures ok ==> Kept(dir, old(f.vol.disk), chains, chains[k := f.chain], k)
  {
    hide SdVolume.Valid, SdFile.Valid, Contents, HandleOn, OnlyAt, SlotBlock, Kept, Session, NumBlocks, Sound, Holds,
         IsFileAttribute, DirHandle, OpenEffect, FileAt, Refused, HoldsName, Names.Packed, Names.Is83, Perform,
         OthersKept, DirExtent;
    ghost var name, disk := Names.Packed(fileName), f.vol.disk;
    SessionFacts(dir, f, name, k, chains, open);
    ok := CloseStep(dir, f, name, k, chains, open);
    if !ok {
      return false;
    }
    ghost var mid := f.vol.disk;
    KeptValues(dir, disk, chains, chains, k);
    NotElsewhere(dir.Data(), name, k, open);
    ghost var slot, chains';
    ok, slot, chains' := OpenByName(f, dir, fileName, oflag, chains, open - {k});
    if ok {
      ReopenedSame(dir, f, mid, old(dir.Place()), old(dir.fileSize), name, oflag, k, slot, chains, chains', open,
                   old(f.Data()));
      KeptTrans(dir, disk, mid, chains, chains, chains', k);
      PerformReopen(old(StreamOf(f)), oflag);
    }
  }

  lemma NotElsewhere(data: seq<byte>, name: seq<byte>, k: nat, open: set<nat>)
    requires OnlyAt(data, name, k, open)
    ensures HoldsName(data, name, k) && forall j | j in open - {k} :: !HoldsName(data, name, j)
  {
  }

  lemma KeptValues(dir: SdFile, a: Disk, chains: seq<seq<nat>>, chains': seq<seq<nat>>, k: nat)
    requires Kept(dir, a, chains, chains', k)
    ensures DirExtent(dir.vol.g, a, dir.Place(), dir.fileSize)
            && DirExtent(dir.vol.g, dir.vol.disk, dir.Place(), dir.fileSize)
    ensures OthersKept(dir.vol.g, a, dir.vol.disk, dir.Place(), dir.fileSize, chains, chains', k) && k < |chains|
    ensures OthersSpared(dir.vol.g, a, dir.vol.disk, Mine(dir.Place(), chains[k]), Mine(dir.Place(), chains'[k]),
                         dir.Place().RootDir?)
  {
  }

  lemma KeptTrans(dir: SdFile, a: Disk, b: Disk, chains: seq<seq<nat>>, mid: seq<seq<nat>>, chains': seq<seq<nat>>,
                  k: nat)
    requires DirExtent(dir.vol.g, a, dir.Place(), dir.fileSize) && DirExtent(dir.vol.g, b, dir.Place(), dir.fileSize)
    requires OthersKept(dir.vol.g, a, b, dir.Place(), dir.fileSize, chains, mid, k) && k < |chains|
    requires OthersSpared(dir.vol.g, a, b, Mine(dir.Place(), chains[k]), Mine(dir.Place(), mid[k]),
                          dir.Place().RootDir?)
    requires Kept(dir, b, mid, chains', k)
    ensures Kept(dir, a, chains, chains', k)
  {
    hide OthersSpared;
    OthersKeptTrans(dir.vol.g, a, b, dir.vol.disk, dir.Place(), dir.fileSize, chains, mid, chains', k);
    SparedTrans(dir.vol.g, a, b, dir.vol.disk, Mine(dir.Place(), chains[k]), Mine(dir.Place(), mid[k]),
                Mine(dir.Place(), chains'[k]), dir.Place().RootDir?);
  }

  /** Opening the name of a closed file gives that file, with its bytes. */
  lemma ReopenedSame(dir: SdFile, f: SdFile, disk: Disk, x: Extent, n: nat, name: seq<byte>, oflag: OpenFlags, k: nat,
                     slot: nat, chains: seq<seq<nat>>, chains': seq<seq<nat>>, open: set<nat>, bytes: seq<byte>)
    requires |name| == 11 && k in open && FileAt(dir, f, slot, chains', open - {k} + {slot})
    requires OpenEffect(dir.vol.g, disk, x, n, chains, open - {k}, dir.vol.disk, dir.Place(), dir.fileSize, chains',
                        name, oflag, slot, f.chain, f.Data(), f.fileType == Normal)
    requires Holds(dir.vol.g, disk, x, n, chains, open - {k}, k, bytes)
    requires OnlyAt(Contents(dir.vol.g, disk, x, n), name, k, open)
    ensures slot == k && dir.Place() == x && dir.fileSize == n
    ensures chains' == chains[k := f.chain] && Session(dir, f, name, k, chains', open)
    ensures f.Data() == if oflag.trunc then [] else bytes
    ensures Kept(dir, disk, chains, chains', k)
  {
    hide SdVolume.Valid, SdFile.Valid, Contents, DirSound, SlotOp, SlotsKept, FileAt, SlotData, IsFile, IsLive, OnlyAt,
         OthersKept, NumBlocks, Sound, HoldsName, NameMissing, OpenResult, OpenedAsStored;
    var g, data := dir.vol.g, Contents(dir.vol.g, disk, x, n);
    SameSlot(g, disk, x, n, chains, open - {k}, data, dir.Data(), name, oflag, k, slot, open);
    assert open - {k} + {k} == open;
    SameStored(g, disk, dir.vol.disk, x, n, chains, open - {k}, k, chains', f.chain, f.Data(), f.fileType == Normal,
               oflag.trunc);
    SameNamed(data, dir.Data(), name, oflag, k, open);
    ReopenedSlots(dir, f, disk, x, n, k, chains, chains', open);
  }

  lemma SameSlot(g: Layout, disk: Disk, x: Extent, n: nat, chains: seq<seq<nat>>, open: set<nat>, data: seq<byte>,
                 data': seq<byte>, name: seq<byte>, oflag: OpenFlags, k: nat, slot: nat, all: set<nat>)
    requires |name| == 11 && DirSound(g, disk, x, n, chains, open) && data == Contents(g, disk, x, n)
    requires OpenResult(data, data', name, oflag, slot) && OnlyAt(data, name, k, all)
    requires k < |data| / 32 && IsFile(Slot(data, k))
    ensures slot == k && HoldsName(data, name, k)
  {
    hide SlotsBacked, DirExtent, Contents, IsFile, IsSubDir;
    assert HoldsName(data, name, k);
    if HoldsName(data, name, slot) {
      NamedOnce(data, name, slot, k);
    }
  }

  lemma SameStored(g: Layout, disk: Disk, disk': Disk, x: Extent, n: nat, chains: seq<seq<nat>>, open: set<nat>, k: nat,
                   chains': seq<seq<nat>>, ch': seq<nat>, data: seq<byte>, normal: bool, trunc: bool)
    requires OpenedAsStored(g, disk, disk', x, n, chains, open, k, chains', ch', data, normal, trunc)
    ensures DirSound(g, disk, x, n, chains, open) && k < n / 32 && k !in open && chains' == chains[k := ch']
    ensures SlotOp(g, disk, disk', x, n, k, chains[k], ch')
    ensures IsFile(Slot(Contents(g, disk, x, n), k)) && IsLive(Slot(Contents(g, disk, x, n), k)) ==>
              normal && data == if trunc then [] else SlotData(g, disk, x, n, chains, open, k)
  {
  }

  lemma SameNamed(data: seq<byte>, data': seq<byte>, name: seq<byte>, oflag: OpenFlags, k: nat, open: set<nat>)
    requires |name| == 11 && OpenResult(data, data', name, oflag, k) && OnlyAt(data, name, k, open) && |data'| == |data|
    ensures OnlyAt(data', name, k, open)
  {
    OnlyAtKept(data, data', name, k, open);
  }

  lemma ReopenedSlots(dir: SdFile, f: SdFile, disk: Disk, x: Extent, n: nat, k: nat, chains: seq<seq<nat>>,
                      chains': seq<seq<nat>>, open: set<nat>)
    requires FileAt(dir, f, k, chains', open) && k in open && dir.Place() == x && dir.fileSize == n && k < n / 32
    requires DirSound(dir.vol.g, disk, x, n, chains, open - {k}) && chains' == chains[k := f.chain]
    requires SlotOp(dir.vol.g, disk, dir.vol.disk, x, n, k, chains[k], f.chain)
    ensures Kept(dir, disk, chains, chains', k)
  {
    hide SdVolume.Valid, SdFile.Valid, Contents, DirSound, SlotOp, OthersKept, NumBlocks, Sound, DirExtent, SlotBlock,
         ChainOk, EntryOk, SafeFrom;
    SlotBytes(dir, dir.vol.disk, chains', open, k);
    SlotOpKeepsOthers(dir.vol.g, disk, dir.vol.disk, x, n, chains, open - {k}, k, f.chain);
  }

  // ---- whole runs ----

  function After(s: Stream, ops: seq<FileOp>): Stream {
    if ops == [] then s else Perform(After(s, ops[..|ops| - 1]), ops[|ops| - 1])
  }

  function Outputs(s: Stream, ops: seq<FileOp>): (r: seq<seq<byte>>)
    ensures |r| == |ops|
  {
    if ops == [] then [] else
      Outputs(s, ops[..|ops| - 1]) + [Output(After(s, ops[..|ops| - 1]), ops[|ops| - 1])]
  }

  lemma OneMoreOp(s: Stream, ops: seq<FileOp>, i: nat)
    requires i < |ops|
    ensures After(s, ops[..i + 1]) == Perform(After(s, ops[..i]), ops[i])
    ensures Outputs(s, ops[..i + 1]) == Outputs(s, ops[..i]) + [Output(After(s, ops[..i]), ops[i])]
  {
    assert ops[..i + 1][..i] == ops[..i];
  }

  method Step(dir: SdFile, f: SdFile, fileName: seq<byte>, op: FileOp,
              ghost k: nat, ghost chains: seq<seq<nat>>, ghost open: set<nat>)
    returns (ok: bool, out: seq<byte>)
    requires Names.Is83(fileName) && 0 !in fileName && Session(dir, f, Names.Packed(fileName), k, chains, open)
    requires dir.fileSize + dir.vol.g.ClusterBytes() < TWO32 && InRange(op)
    modifies f, dir`curPosition, dir`curCluster, dir`firstCluster, dir`flags, dir`chain, dir`fileSize,
             dir.vol`cacheDirty, dir.vol`cacheMirrorBlock, dir.vol`cacheBlockNumber, dir.vol`disk,
             dir.vol`allocSearchStart, dir.vol.card, dir.vol.cacheBuffer
    ensures dir.vol.Valid()
    ensures ok ==> dir.Place() == old(dir.Place()) && dir.fileSize == old(dir.fileSize)
    ensures ok ==> k < |chains| && Session(dir, f, Names.Packed(fileName), k, chains[k := f.chain], open)
    ensures ok ==> out == Output(old(StreamOf(f)), op)
    ensures ok ==> StreamOf(f) == Perform(old(StreamOf(f)), op)
    ensures ok ==> Kept(dir, old(f.vol.disk), chains, chains[k := f.chain], k)
  {
    hide SdVolume.Valid, SdFile.Valid, Contents, HandleOn, OnlyAt, SlotBlock, Kept, Session, NumBlocks, Sound,
         IsFileAttribute, DirHandle, FileAt, Names.Packed, Names.Is83, Perform, SdFile.Data, DirExtent;
    ghost var name := Names.Packed(fileName);
    SessionFacts(dir, f, name, k, chains, open);
    assert chains[k := chains[k]] == chains;
    out := [];
    match op
    case Seek(pos) =>
      ok := SeekStep(dir, f, pos, name, k, chains, open);
      KeptRefl(dir, chains, open, k);
    case Read(count) =>
      ok, out := ReadStep(dir, f, count, name, k, chains, open);
      KeptRefl(dir, chains, open, k);
    case Write(src) =>
      if f.fileSize + |src| >= TWO32 {
        return false, [];
      }
      ok := WriteStep(dir, f, src, name, k, chains, open);
    case Truncate(length) =>
      ok := TruncateStep(dir, f, length, name, k, chains, open);
    case Reopen(oflag) =>
      ok := ReopenStep(dir, f, fileName, oflag, k, chains, open);
  }

  lemma KeptRefl(dir: SdFile, chains: seq<seq<nat>>, open: set<nat>, k: nat)
    requires dir.vol.Valid() && HandleOn(dir, dir.vol.disk, chains, open) && k < |chains|
    ensures Kept(dir, dir.vol.disk, chains, chains, k)
  {
    hide SdVolume.Valid, ChainOk, EntryOk, SafeFrom, NamesUnique, FreeTail, Contents;
    OthersKeptRefl(dir.vol.g, dir.vol.disk, dir.Place(), dir.fileSize, chains, k);
    SparedRefl(dir.vol.g, dir.vol.disk, Mine(dir.Place(), chains[k]), dir.Place().RootDir?);
  }

  /** Any run of successful operations on an open file, closing and opening it
      again included, acts on one sequence of bytes with a position; the
      directory stays sound, and every other file keeps its entry, its clusters
      and its bytes. */
  method Run(dir: SdFile, f: SdFile, fileName: seq<byte>, ops: seq<FileOp>,
             ghost k: nat, ghost chains: seq<seq<nat>>, ghost open: set<nat>)
    returns (ok: bool, outs: seq<seq<byte>>, ghost chains': seq<seq<nat>>)
    requires Names.Is83(fileName) && 0 !in fileName && Session(dir, f, Names.Packed(fileName), k, chains, open)
    requires dir.fileSize + dir.vol.g.ClusterBytes() < TWO32 && forall i | 0 <= i < |ops| :: InRange(ops[i])
    modifies f, dir`curPosition, dir`curCluster, dir`firstCluster, dir`flags, dir`chain, dir`fileSize,
             dir.vol`cacheDirty, dir.vol`cacheMirrorBlock, dir.vol`cacheBlockNumber, dir.vol`disk,
             dir.vol`allocSearchStart, dir.vol.card, dir.vol.cacheBuffer
    ensures dir.vol.Valid()
    ensures ok ==> outs == Outputs(old(StreamOf(f)), ops)
    ensures ok ==> Session(dir, f, Names.Packed(fileName), k, chains', open)
    ensures ok ==> StreamOf(f) == After(old(StreamOf(f)), ops)
    ensures ok ==> dir.Place() == old(dir.Place()) && dir.fileSize == old(dir.fileSize)
    ensures ok ==> Kept(dir, old(f.vol.disk), chains, chains', k)
    ensures ok ==> VolumeKept(dir.vol.g, old(f.vol.disk), dir.vol.disk, Owned(dir.Place(), ChainAt(chains, k)),
                              Owned(dir.Place(), f.chain), dir.Place().RootDir?)
  {
    hide SdVolume.Valid, SdFile.Valid, Contents, HandleOn, OnlyAt, SlotBlock, Kept, Session, NumBlocks, Sound,
         OthersKept, OthersSpared, VolumeKept, IsFileAttribute, DirHandle, FileAt, Names.Packed, Names.Is83, Perform,
         SdFile.Data, DirExtent, StreamOf, After, Outputs, InRange;
    ghost var name, s, disk := Names.Packed(fileName), StreamOf(f), f.vol.disk;
    chains', outs := chains, [];
    SessionFacts(dir, f, name, k, chains, open);
    KeptRefl(dir, chains, open, k);
    NoOps(s, ops);
    var i := 0;
    while i < |ops|
      invariant 0 <= i <= |ops| && dir.vol.Valid()
      invariant Session(dir, f, name, k, chains', open)
      invariant dir.Place() == old(dir.Place()) && dir.fileSize == old(dir.fileSize)
      invariant outs == Outputs(s, ops[..i]) && StreamOf(f) == After(s, ops[..i])
      invariant Kept(dir, disk, chains, chains', k)
    {
      ghost var mid := f.vol.disk;
      KeptValues(dir, disk, chains, chains', k);
      OneMoreOp(s, ops, i);
      var out;
      ok, out := Step(dir, f, fileName, ops[i], k, chains', open);
      if !ok {
        return false, outs, chains';
      }
      KeptTrans(dir, disk, mid, chains, chains', chains'[k := f.chain], k);
      chains' := chains'[k := f.chain];
      outs := outs + [out];
      i := i + 1;
    }
    assert ops[..i] == ops;
    RunKeepsVolume(dir, f, disk, name, k, chains, chains', open);
    return true, outs, chains';
  }

  lemma RunKeepsVolume(dir: SdFile, f: SdFile, disk: Disk, name: seq<byte>, k: nat, chains: seq<seq<nat>>,
                       chains': seq<seq<nat>>, open: set<nat>)
    requires Session(dir, f, name, k, chains', open) && Kept(dir, disk, chains, chains', k)
    ensures dir.vol.g.Valid(|disk|)
    ensures VolumeKept(dir.vol.g, disk, dir.vol.disk, Owned(dir.Place(), ChainAt(chains, k)),
                       Owned(dir.Place(), f.chain), dir.Place().RootDir?)
  {
    hide SdVolume.Valid, SdFile.Valid, HandleOn, OnlyAt, Kept, NumBlocks, Sound, VolumeKept;
    KeptVolume(dir, disk, chains, chains', open, k);
  }

  lemma KeptVolume(dir: SdFile, disk: Disk, chains: seq<seq<nat>>, chains': seq<seq<nat>>, open: set<nat>, k: nat)
    requires DirHandle(dir, chains', open) && Kept(dir, disk, chains, chains', k)
    ensures dir.vol.g.Valid(|disk|) && k < |chains| == |chains'|
    ensures VolumeKept(dir.vol.g, disk, dir.vol.disk, Owned(dir.Place(), chains[k]), Owned(dir.Place(), chains'[k]),
                       dir.Place().RootDir?)
  {
    hide SdVolume.Valid, DirSound, Contents, VolumeKept, OthersSpared, ChainOk, EntryOk, SafeFrom, NumBlocks, Sound;
    OperationKeepsVolume(dir.vol.g, disk, dir.vol.disk, dir.Place(), chains[k], dir.Place(), dir.fileSize, chains',
                         open, k);
  }

  lemma NoOps(s: Stream, ops: seq<FileOp>)
    ensures After(s, ops[..0]) == s && Outputs(s, ops[..0]) == []
  {
  }

  // ---- removing by name ----

  /** Removing a file of `size` bytes with the chain `ch` frees exactly its
      clusters, except that an empty file's stay allocated. */
  ghost predicate Reclaimed(fat: Table, fat': Table, size: nat, ch: seq<nat>) {
    && fat' == (if size == 0 then fat else Freed(fat, ch))
    && |FreeClusters(fat')| == |FreeClusters(fat)| + if size == 0 then 0 else |ch|
  }

  lemma RemovedReclaims(g: Layout, fat: Table, disk: Disk, ch: seq<nat>, fat': Table, disk': Disk, size: nat, b: nat,
                        i: nat)
    requires Removed(g, fat, disk, ch, fat', disk', size, b, i)
    ensures Reclaimed(fat, fat', size, ch)
  {
  }

  /** The directory after the file of open slot `k` was removed. */
  lemma AfterRemove(dir: SdFile, disk: Disk, k: nat, chains: seq<seq<nat>>, open: set<nat>, b: nat, size: nat)
    requires dir.vol.Valid() && HandleOn(dir, disk, chains, open) && k < |chains| && k in open
    requires k / 16 < NumBlocks(dir.vol.g, dir.Place()) && b == SlotBlock(dir.vol.g, dir.vol.size, dir.Place(), k)
    requires Removed(dir.vol.g, TableOf(dir.vol.g, disk), disk, chains[k], dir.vol.Fat(), dir.vol.disk, size, b, k % 16)
    ensures DirHandle(dir, chains[k := []], open - {k}) && Kept(dir, disk, chains, chains[k := []], k)
    ensures k < dir.fileSize / 32 && IsDeleted(Slot(dir.Data(), k))
    ensures Reclaimed(TableOf(dir.vol.g, disk), dir.vol.Fat(), size, chains[k])
  {
    hide SdVolume.Valid, Contents, SlotOp, DirSound, ChainOk, EntryOk, SafeFrom, Visible, SlotBlock, Sound, Removed,
         NumBlocks, OthersKept, Backed, Slot, DirExtent, EntryAt, IsChain;
    var g, x, n := dir.vol.g, dir.Place(), dir.fileSize;
    SlotBytes(dir, disk, chains, open, k);
    SlotInRange(dir, k);
    SlotLive(g, disk, x, n, chains, open, k);
    SlotInBlock(g, disk, x, n, k);
    RemovedReclaims(g, TableOf(g, disk), disk, chains[k], dir.vol.Fat(), dir.vol.disk, size, b, k % 16);
    RemovedIsSlotOp(g, disk, dir.vol.disk, x, n, k, chains[k], size);
    FileOpKeepsDir(g, disk, dir.vol.disk, x, n, chains, open, k, [], open - {k});
    HandleAfterOp(dir, disk, dir.vol.disk, chains, open, k, [], open - {k});
    SlotBytes(dir, dir.vol.disk, chains[k := []], open - {k}, k);
    SlotOpKeepsOthers(g, disk, dir.vol.disk, x, n, chains, open, k, []);
    SlotInBlock(g, dir.vol.disk, x, n, k);
  }

  method RemoveStep(dir: SdFile, f: SdFile, ghost name: seq<byte>, ghost k: nat, ghost chains: seq<seq<nat>>,
                    ghost open: set<nat>)
    returns (ok: bool)
    requires Session(dir, f, name, k, chains, open)
    modifies f`curPosition, f`curCluster, f`firstCluster, f`flags, f`chain, f`fileSize, f`fileType,
             f.vol`cacheDirty, f.vol`cacheMirrorBlock, f.vol`cacheBlockNumber, f.vol`disk, f.vol`allocSearchStart,
             f.vol.card, f.vol.cacheBuffer
    ensures f.vol.Valid() && f.vol.Wedged() == old(f.vol.Wedged())
    ensures ok ==> f.fileType == Closed && f.vol.card.blocks == f.vol.disk && k < |chains|
    ensures ok ==> DirHandle(dir, chains[k := []], open - {k}) && Kept(dir, old(f.vol.disk), chains, chains[k := []], k)
    ensures ok ==> k < dir.fileSize / 32 && IsDeleted(Slot(dir.Data(), k))
    ensures ok ==> Reclaimed(old(f.vol.Fat()), f.vol.Fat(), old(f.fileSize), chains[k])
    ensures !ok ==> !old(f.flags.write) || f.vol.card.faults > old(f.vol.card.faults)
    ensures f.vol.card.faults >= old(f.vol.card.faults)
  {
    hide SdVolume.Valid, SdFile.Valid, Contents, HandleOn, OnlyAt, SlotBlock, Kept, Session, NumBlocks, Sound,
         IsFileAttribute, DirHandle, Slot, IsDeleted, Reclaimed, Removed;
    ghost var disk, b, size := f.vol.disk, f.dirBlock, f.fileSize;
    SessionFacts(dir, f, name, k, chains, open);
    ok := f.Remove();
    if ok {
      AfterRemove(dir, disk, k, chains, open, b, size);
    }
  }

  const O_WRITE: OpenFlags := OpenFlags(false, true, false, false, false, false, false)

  /** Remove the file with the given name from the directory. */
  method RemoveByName(dir: SdFile, fileName: seq<byte>, ghost chains: seq<seq<nat>>, ghost open: set<nat>)
    returns (ok: bool, ghost slot: nat)
    requires DirHandle(dir, chains, open) && 0 !in fileName
    requires dir.fileSize + dir.vol.g.ClusterBytes() < TWO32
    requires Names.Is83(fileName) ==> forall k | k in open :: !HoldsName(dir.Data(), Names.Packed(fileName), k)
    modifies dir`curPosition, dir`curCluster, dir`firstCluster, dir`flags, dir`chain, dir`fileSize, dir.vol`cacheDirty,
             dir.vol`cacheMirrorBlock, dir.vol`cacheBlockNumber, dir.vol`disk, dir.vol`allocSearchStart, dir.vol.card,
             dir.vol.cacheBuffer
    ensures dir.vol.Valid() && dir.vol.Wedged() == old(dir.vol.Wedged())
    ensures ok ==> Names.Is83(fileName) && HoldsName(old(dir.Data()), Names.Packed(fileName), slot) && slot < |chains|
    ensures ok ==> dir.Place() == old(dir.Place()) && dir.fileSize == old(dir.fileSize)
    ensures ok ==> DirHandle(dir, chains[slot := []], open) && IsDeleted(Slot(dir.Data(), slot))
    ensures ok ==> Kept(dir, old(dir.vol.disk), chains, chains[slot := []], slot)
    ensures ok ==> dir.vol.card.blocks == dir.vol.disk
    ensures ok ==> slot < |old(dir.Data())| / 32
    ensures ok ==> Reclaimed(old(dir.vol.Fat()), dir.vol.Fat(), FileSize(Slot(old(dir.Data()), slot)), chains[slot])
    ensures ok ==> VolumeKept(dir.vol.g, old(dir.vol.disk), dir.vol.disk, Owned(dir.Place(), chains[slot]),
                              Owned(dir.Place(), []), dir.Place().RootDir?)
    ensures !ok ==> dir.vol.card.faults > old(dir.vol.card.faults)
                    || Refused(old(dir.Data()), fileName, O_WRITE, slot, dir.fileType == Root16 || dir.vol.Full())
  {
    hide SdVolume.Valid, SdFile.Valid, Contents, HandleOn, OnlyAt, SlotBlock, Kept, Session, NumBlocks, Sound, Holds,
         IsFileAttribute, DirHandle, OpenEffect, FileAt, Refused, HoldsName, Names.Packed, Names.Is83, Slot, IsDeleted,
         SdVolume.Full, Reclaimed, FileSize, VolumeKept, Owned;
    var f := new SdFile(dir.vol);
    ghost var disk, chains' := dir.vol.disk, chains;
    ok, slot, chains' := OpenByName(f, dir, fileName, O_WRITE, chains, open);
    if ok {
      ghost var name := Names.Packed(fileName);
      OpenedToWrite(dir, f, disk, old(dir.Place()), old(dir.fileSize), name, O_WRITE, slot, chains, chains', open);
      ok := RemoveStep(dir, f, name, slot, chains, open + {slot});
      if ok {
        RemovedSlot(open, slot);
        KeptVolume(dir, disk, chains, chains[slot := []], open, slot);
      }
    }
  }

  lemma RemovedSlot(open: set<nat>, slot: nat)
    requires slot !in open
    ensures open + {slot} - {slot} == open
  {
  }

  /** Opening for writing, without creating or truncating, finds a file and
      changes nothing. */
  lemma OpenedToWrite(dir: SdFile, f: SdFile, disk: Disk, x: Extent, n: nat, name: seq<byte>, oflag: OpenFlags,
                      slot: nat, chains: seq<seq<nat>>, chains': seq<seq<nat>>, open: set<nat>)
    requires |name| == 11 && FileAt(dir, f, slot, chains', open + {slot}) && oflag.write && !oflag.creat && !oflag.trunc
    requires OpenEffect(dir.vol.g, disk, x, n, chains, open, dir.vol.disk, dir.Place(), dir.fileSize, chains',
                        name, oflag, slot, f.chain, f.Data(), f.fileType == Normal)
    requires forall k | k in open :: !HoldsName(Contents(dir.vol.g, disk, x, n), name, k)
    ensures HoldsName(Contents(dir.vol.g, disk, x, n), name, slot) && slot < |chains| && slot !in open
    ensures dir.vol.disk == disk && dir.Place() == x && dir.fileSize == n && chains' == chains
    ensures Session(dir, f, name, slot, chains, open + {slot})
    ensures slot < |Contents(dir.vol.g, disk, x, n)| / 32
    ensures f.fileSize == FileSize(Slot(Contents(dir.vol.g, disk, x, n), slot))
  {
    hide FileSize, SdVolume.Valid, SdFile.Valid, Contents, DirSound, SlotOp, FileAt, SlotData, HoldsName, NumBlocks,
         Sound, NameMissing;
    assert |f.Data()| == f.fileSize;
  }

  // ---- contiguous files ----

  const O_NEW: OpenFlags := OpenFlags(true, true, false, false, true, true, false)

  /** Give the new file of slot `k` one run of clusters, or remove it again. */
  method PreallocateStep(dir: SdFile, f: SdFile, size: nat,
                         ghost name: seq<byte>, ghost k: nat, ghost chains: seq<seq<nat>>, ghost open: set<nat>)
    returns (ok: bool)
    requires Session(dir, f, name, k, chains, open) && 0 < size < TWO32
    requires f.chain == [] && f.fileSize == 0 && f.curPosition == 0 && f.flags.write
    modifies f`curPosition, f`curCluster, f`firstCluster, f`flags, f`chain, f`fileSize, f`fileType,
             f.vol`cacheDirty, f.vol`cacheMirrorBlock, f.vol`cacheBlockNumber, f.vol`disk, f.vol`allocSearchStart,
             f.vol.card, f.vol.cacheBuffer
    ensures f.vol.Valid() && f.vol.Wedged() == old(f.vol.Wedged())
    ensures ok ==> f.fileSize == size && f.chain == Consecutive(f.firstCluster, Needed(f.vol.g, size))
    ensures ok ==> k < |chains| && Session(dir, f, name, k, chains[k := f.chain], open)
    ensures ok ==> Kept(dir, old(f.vol.disk), chains, chains[k := f.chain], k)
    ensures ok ==> f.vol.card.blocks == f.vol.disk
    ensures !ok && f.vol.card.faults == old(f.vol.card.faults) ==>
              && NoRun(f.vol.Fat(), Needed(f.vol.g, size))
              && k < |chains| && DirHandle(dir, chains[k := []], open - {k})
              && Kept(dir, old(f.vol.disk), chains, chains[k := []], k)
              && k < dir.fileSize / 32 && IsDeleted(Slot(dir.Data(), k))
    ensures f.vol.card.faults >= old(f.vol.card.faults)
  {
    hide SdVolume.Valid, SdFile.Valid, Contents, HandleOn, OnlyAt, SlotBlock, Kept, Session, NumBlocks, Sound,
         DirHandle, IsFileAttribute, Grown, OnlyPlaceChanged, Needed, Removed, FreeRun, Consecutive, Slot, IsDeleted,
         Reclaimed, SdVolume.Wedged;
    ghost var disk, b := f.vol.disk, f.dirBlock;
    SessionFacts(dir, f, name, k, chains, open);
    var full;
    ok, full := f.PreallocateAndSync(size);
    if full {
      ghost var free := f.vol.card.faults == old(f.vol.card.faults);
      ghost var fat := f.vol.Fat();
      var removed := f.Remove();
      if removed && free {
        AfterRemove(dir, disk, k, chains, open, b, 0);
        EmptyRemoved(f.vol.g, fat, disk, [], f.vol.Fat(), f.vol.disk, b, k % 16);
      }
      return false;
    }
    if ok {
      AfterGrown(dir, f, disk, name, k, chains, open, true);
    }
  }

  ghost predicate NoRun(fat: Table, count: nat) {
    forall a: nat :: !FreeRun(fat, a, count)
  }

  lemma EmptyRemoved(g: Layout, fat: Table, disk: Disk, ch: seq<nat>, fat': Table, disk': Disk, b: nat, i: nat)
    requires Removed(g, fat, disk, ch, fat', disk', 0, b, i)
    ensures fat' == fat
  {
  }

  /** Slot `slot` of a directory, unused before, was given a file with the chain
      `chains'[slot]` or taken back; the directory may have grown for it. All
      other slots are the same, and so is the volume outside the directory and
      the file: extent `x` of `n` bytes on `disk` became `x'`, `n'` on `disk'`. */
  ghost predicate Made(g: Layout, disk: Disk, x: Extent, n: nat, chains: seq<seq<nat>>,
                       disk': Disk, x': Extent, n': nat, chains': seq<seq<nat>>, slot: nat)
    ensures Made(g, disk, x, n, chains, disk', x', n', chains', slot) ==> g.Valid(|disk|) && slot < |chains'|
  {
    && DirExtent(g, disk, x, n)
    && DirExtent(g, disk', x', n')
    && n <= n'
    && |chains| == n / 32
    && slot < n' / 32 == |chains'|
    && chains' == (chains + NoChains(n' / 32 - n / 32))[slot := chains'[slot]]
    && SlotsKept(Contents(g, disk, x, n), Contents(g, disk', x', n'), n / 32, slot)
    && OthersSpared(g, disk, disk', Mine(x, []), Mine(x', chains'[slot]), x.RootDir?)
    && x'.RootDir? == x.RootDir?
  }

  lemma OpenedNewMade(dir: SdFile, f: SdFile, disk: Disk, x: Extent, n: nat, name: seq<byte>, oflag: OpenFlags,
                      slot: nat, chains: seq<seq<nat>>, chains': seq<seq<nat>>, open: set<nat>)
    requires |name| == 11 && FileAt(dir, f, slot, chains', open + {slot})
    requires OpenEffect(dir.vol.g, disk, x, n, chains, open, dir.vol.disk, dir.Place(), dir.fileSize, chains',
                        name, oflag, slot, f.chain, f.Data(), f.fileType == Normal)
    requires NameMissing(Contents(dir.vol.g, disk, x, n), name)
    ensures Made(dir.vol.g, disk, x, n, chains, dir.vol.disk, dir.Place(), dir.fileSize, chains', slot)
    ensures slot !in open
  {
    hide SdVolume.Valid, SdFile.Valid, SdFile.Data, Contents, OthersSpared, NamesUnique, FreeTail, SlotsBacked,
         HoldsName, ChainOk, EntryOk, SafeFrom, NumBlocks, Sound, OnlyDirChanged, Slot, OpenedAsStored, OnlyMineChanged;
    OpenSpares(dir.vol.g, disk, x, n, chains, open, dir.vol.disk, dir.Place(), dir.fileSize, chains',
               name, oflag, slot, f.chain, f.Data(), f.fileType == Normal);
    assert !HoldsName(Contents(dir.vol.g, disk, x, n), name, slot);
    assert f.chain == chains'[slot];
    assert ChainAt(chains, slot) == [] && slot !in open by {
      NewSlotEmpty(dir.vol.g, disk, x, n, chains, open, slot);
    }
  }

  /** What then happens to the file of the slot. */
  lemma MadeThenKept(dir: SdFile, a: Disk, x: Extent, n: nat, chains: seq<seq<nat>>, b: Disk,
                     mid: seq<seq<nat>>, chains': seq<seq<nat>>, slot: nat)
    requires Made(dir.vol.g, a, x, n, chains, b, dir.Place(), dir.fileSize, mid, slot)
    requires Kept(dir, b, mid, chains', slot)
    ensures Made(dir.vol.g, a, x, n, chains, dir.vol.disk, dir.Place(), dir.fileSize, chains', slot)
  {
    hide DirExtent, Contents, Slot, OthersSpared, SameBlocks, Mine;
    SparedTrans(dir.vol.g, a, b, dir.vol.disk, Mine(x, []), Mine(dir.Place(), mid[slot]),
                Mine(dir.Place(), chains'[slot]), x.RootDir?);
    assert chains' == mid[slot := chains'[slot]];
  }

  /** Seen from the whole volume. */
  lemma MadeKeepsVolume(dir: SdFile, disk: Disk, x: Extent, n: nat, chains: seq<seq<nat>>, chains': seq<seq<nat>>,
                        open: set<nat>, slot: nat)
    requires DirHandle(dir, chains', open)
    requires Made(dir.vol.g, disk, x, n, chains, dir.vol.disk, dir.Place(), dir.fileSize, chains', slot)
    ensures VolumeKept(dir.vol.g, disk, dir.vol.disk, Owned(x, []), Owned(dir.Place(), chains'[slot]), x.RootDir?)
  {
    hide SdVolume.Valid, DirSound, Contents, VolumeKept, OthersSpared, ChainOk, EntryOk, SafeFrom, NumBlocks, Sound;
    OperationKeepsVolume(dir.vol.g, disk, dir.vol.disk, x, [], dir.Place(), dir.fileSize, chains', open, slot);
  }

  /** Create a file of `size` bytes on consecutive clusters. It has exactly the
      clusters the size needs, and its entry is on the card. When there is no such
      run of clusters the new entry is removed again. */
  method CreateContiguous(f: SdFile, dir: SdFile, fileName: seq<byte>, size: nat,
                          ghost chains: seq<seq<nat>>, ghost open: set<nat>)
    returns (ok: bool, ghost slot: nat, ghost chains': seq<seq<nat>>)
    requires f != dir && f.vol == dir.vol && DirHandle(dir, chains, open) && 0 !in fileName && size < TWO32
    requires dir.fileSize + dir.vol.g.ClusterBytes() < TWO32
    requires Names.Is83(fileName) ==> forall k | k in open :: !HoldsName(dir.Data(), Names.Packed(fileName), k)
    modifies f, dir`curPosition, dir`curCluster, dir`firstCluster, dir`flags, dir`chain, dir`fileSize,
             dir.vol`cacheDirty, dir.vol`cacheMirrorBlock, dir.vol`cacheBlockNumber, dir.vol`disk,
             dir.vol`allocSearchStart, dir.vol.card, dir.vol.cacheBuffer
    ensures dir.vol.Valid() && dir.vol.Wedged() == old(dir.vol.Wedged())
    ensures ok ==> Names.Is83(fileName) && NameMissing(old(dir.Data()), Names.Packed(fileName)) && size > 0
    ensures ok ==> Session(dir, f, Names.Packed(fileName), slot, chains', open + {slot}) && f.fileSize == size
    ensures ok ==> f.chain == Consecutive(f.firstCluster, Needed(f.vol.g, size))
    ensures ok ==> f.vol.card.blocks == f.vol.disk
    ensures ok ==> MadeBy(dir, old(dir.vol.disk), old(dir.Place()), old(dir.fileSize), chains, chains', slot, f.chain)
    ensures !ok && f.vol.card.faults == old(f.vol.card.faults) ==>
              || size == 0
              || old(f.fileType) != Closed
              || Refused(old(dir.Data()), fileName, O_NEW, slot, dir.fileType == Root16 || dir.vol.Full())
              || (&& NoRun(f.vol.Fat(), Needed(f.vol.g, size))
                  && MadeBy(dir, old(dir.vol.disk), old(dir.Place()), old(dir.fileSize), chains, chains', slot, [])
                  && TakenBack(dir, chains', open, slot))
    ensures f.vol.card.faults >= old(f.vol.card.faults)
  {
    hide SdVolume.Valid, SdFile.Valid, Contents, HandleOn, OnlyAt, SlotBlock, Kept, Session, NumBlocks, Sound, Holds,
         IsFileAttribute, DirHandle, OpenEffect, FileAt, Refused, HoldsName, NameMissing, Names.Packed, Names.Is83,
         Needed, SdVolume.Full, Consecutive, NoRun, Made, MadeBy, TakenBack, IsDeleted, Slot, SdVolume.Wedged,
         VolumeKept, Owned;
    slot, chains' := 0, chains;
    if size == 0 {
      return false, slot, chains;
    }
    ghost var disk := dir.vol.disk;
    ok, slot, chains' := OpenByName(f, dir, fileName, O_NEW, chains, open);
    if ok {
      ghost var name := Names.Packed(fileName);
      OpenedNew(dir, f, disk, old(dir.Place()), old(dir.fileSize), name, O_NEW, slot, chains, chains', open);
      OpenedNewMade(dir, f, disk, old(dir.Place()), old(dir.fileSize), name, O_NEW, slot, chains, chains', open);
      ghost var mid, chains1, faults := dir.vol.disk, chains', dir.vol.card.faults;
      ok := PreallocateStep(dir, f, size, name, slot, chains', open + {slot});
      if ok {
        chains' := chains1[slot := f.chain];
        MadeAndFilled(dir, f, disk, old(dir.Place()), old(dir.fileSize), name, chains, mid, chains1, open, slot);
      } else if dir.vol.card.faults == faults {
        chains' := chains1[slot := []];
        RemovedSlot(open, slot);
        MadeAndRemoved(dir, disk, old(dir.Place()), old(dir.fileSize), chains, mid, chains1, open, slot);
      }
    }
  }

  /** The directory and the whole volume after `slot` was given a file with the
      chain `ch`. */
  ghost predicate MadeBy(dir: SdFile, disk: Disk, x: Extent, n: nat, chains: seq<seq<nat>>, chains': seq<seq<nat>>,
                         slot: nat, ch: seq<nat>)
    reads dir`fileType, dir`chain, dir`fileSize, dir.vol`disk
  {
    && Made(dir.vol.g, disk, x, n, chains, dir.vol.disk, dir.Place(), dir.fileSize, chains', slot)
    && chains'[slot] == ch
    && VolumeKept(dir.vol.g, disk, dir.vol.disk, Owned(x, []), Owned(dir.Place(), ch), x.RootDir?)
  }

  /** The entry of `slot` was removed again. */
  ghost predicate TakenBack(dir: SdFile, chains: seq<seq<nat>>, open: set<nat>, slot: nat)
    reads dir, dir.vol, dir.vol.card, dir.vol.cacheBuffer
  {
    DirHandle(dir, chains, open) && slot < dir.fileSize / 32 && IsDeleted(Slot(dir.Data(), slot))
  }

  lemma MadeAndFilled(dir: SdFile, f: SdFile, disk: Disk, x: Extent, n: nat, name: seq<byte>, chains: seq<seq<nat>>,
                      mid: Disk, chains1: seq<seq<nat>>, open: set<nat>, slot: nat)
    requires Made(dir.vol.g, disk, x, n, chains, mid, dir.Place(), dir.fileSize, chains1, slot)
    requires Kept(dir, mid, chains1, chains1[slot := f.chain], slot)
    requires Session(dir, f, name, slot, chains1[slot := f.chain], open + {slot})
    ensures MadeBy(dir, disk, x, n, chains, chains1[slot := f.chain], slot, f.chain)
  {
    hide SdVolume.Valid, SdFile.Valid, HandleOn, OnlyAt, Kept, Made, VolumeKept, NumBlocks, Sound;
    MadeThenKept(dir, disk, x, n, chains, mid, chains1, chains1[slot := f.chain], slot);
    MadeKeepsVolume(dir, disk, x, n, chains, chains1[slot := f.chain], open + {slot}, slot);
  }

  lemma MadeAndRemoved(dir: SdFile, disk: Disk, x: Extent, n: nat, chains: seq<seq<nat>>,
                       mid: Disk, chains1: seq<seq<nat>>, open: set<nat>, slot: nat)
    requires Made(dir.vol.g, disk, x, n, chains, mid, dir.Place(), dir.fileSize, chains1, slot)
    requires Kept(dir, mid, chains1, chains1[slot := []], slot) && DirHandle(dir, chains1[slot := []], open)
    requires slot < dir.fileSize / 32 && IsDeleted(Slot(dir.Data(), slot))
    ensures MadeBy(dir, disk, x, n, chains, chains1[slot := []], slot, [])
    ensures TakenBack(dir, chains1[slot := []], open, slot)
  {
    hide SdVolume.Valid, HandleOn, Kept, Made, VolumeKept, NumBlocks, Sound, IsDeleted, Slot, Contents;
    MadeThenKept(dir, disk, x, n, chains, mid, chains1, chains1[slot := []], slot);
    MadeKeepsVolume(dir, disk, x, n, chains, chains1[slot := []], open, slot);
  }

  /** A file opened with both `O_CREAT` and `O_EXCL` is new. */
  lemma OpenedNew(dir: SdFile, f: SdFile, disk: Disk, x: Extent, n: nat, name: seq<byte>, oflag: OpenFlags, slot: nat,
                  chains: seq<seq<nat>>, chains': seq<seq<nat>>, open: set<nat>)
    requires |name| == 11 && FileAt(dir, f, slot, chains', open + {slot}) && oflag.creat && oflag.excl
    requires OpenEffect(dir.vol.g, disk, x, n, chains, open, dir.vol.disk, dir.Place(), dir.fileSize, chains',
                        name, oflag, slot, f.chain, f.Data(), f.fileType == Normal)
    requires forall k | k in open :: !HoldsName(Contents(dir.vol.g, disk, x, n), name, k)
    ensures NameMissing(Contents(dir.vol.g, disk, x, n), name)
    ensures f.chain == [] && f.fileSize == 0 && slot < |chains'|
    ensures Session(dir, f, name, slot, chains', open + {slot})
  {
    hide SdVolume.Valid, SdFile.Valid, Contents, SlotOp, FileAt, SlotData, HoldsName, NumBlocks, Sound, NameMissing;
    assert |f.Data()| == f.fileSize;
    var data, data' := Contents(dir.vol.g, disk, x, n), dir.Data();
    OpenSlotsUsed(dir.vol.g, disk, x, n, chains, open);
    NewIsAlone(data, data', name, slot, open);
    SlotLive(dir.vol.g, dir.vol.disk, dir.Place(), dir.fileSize, chains', open + {slot}, slot);
  }

  lemma OpenSlotsUsed(g: Layout, disk: Disk, x: Extent, n: nat, chains: seq<seq<nat>>, open: set<nat>)
    requires DirSound(g, disk, x, n, chains, open)
    ensures FreeTail(Contents(g, disk, x, n)) && forall k | k in open :: k < n / 32
  {
  }

  lemma NewIsAlone(data: seq<byte>, data': seq<byte>, name: seq<byte>, slot: nat, open: set<nat>)
    requires FreeTail(data) && SlotsKept(data, data', |data| / 32, slot) && HoldsName(data', name, slot)
    requires forall k | k in open :: k < |data| / 32 && !HoldsName(data, name, k)
    ensures OnlyAt(data', name, slot, open + {slot})
  {
    forall j | j in open && j != slot
      ensures !HoldsName(data', name, j)
    {
      if IsLive(Slot(data, j)) && Name(Slot(data, j)) == name {
        assert Visible(data, j);
      }
    }
  }

  /** Create a file of `size` bytes on consecutive clusters and ask for its range.
      Without card faults the range is found, and has exactly the blocks of the
      clusters that the size, rounded up, fills; they lie in the data area. */
  method CreateAndFindRange(f: SdFile, dir: SdFile, fileName: seq<byte>, size: nat,
                            ghost chains: seq<seq<nat>>, ghost open: set<nat>)
    returns (created: bool, found: bool, bgnBlock: nat, endBlock: nat)
    requires f != dir && f.vol == dir.vol && DirHandle(dir, chains, open) && 0 !in fileName && size < TWO32
    requires dir.fileSize + dir.vol.g.ClusterBytes() < TWO32
    requires Names.Is83(fileName) ==> forall k | k in open :: !HoldsName(dir.Data(), Names.Packed(fileName), k)
    modifies f, dir`curPosition, dir`curCluster, dir`firstCluster, dir`flags, dir`chain, dir`fileSize,
             dir.vol`cacheDirty, dir.vol`cacheMirrorBlock, dir.vol`cacheBlockNumber, dir.vol`disk,
             dir.vol`allocSearchStart, dir.vol.card, dir.vol.cacheBuffer
    ensures dir.vol.Valid() && dir.vol.g.Valid(dir.vol.size)
    ensures created ==> found || f.vol.card.faults > old(f.vol.card.faults)
    ensures found ==>
              created
              && endBlock + 1 - bgnBlock == RoundedUp(size, f.vol.g.ClusterBytes()) * f.vol.g.blocksPerCluster
    ensures found ==> f.vol.g.dataStartBlock <= bgnBlock <= endBlock < f.vol.g.DataEnd()
  {
    hide SdVolume.Valid, SdFile.Valid, Contents, HandleOn, OnlyAt, SlotBlock, Session, NumBlocks, Sound, DirHandle,
         Refused, HoldsName, NameMissing, Names.Packed, Names.Is83, Needed, SdVolume.Full, Consecutive, NoRun, MadeBy,
         TakenBack, SdVolume.Wedged, VolumeKept, Owned, Layout.Valid;
    found, bgnBlock, endBlock := false, 0, 0;
    ghost var slot, chains';
    created, slot, chains' := CreateContiguous(f, dir, fileName, size, chains, open);
    if created {
      RunOfFile(f, size);
      found, bgnBlock, endBlock := f.ContiguousRange();
    }
  }

  function RoundedUp(n: nat, d: nat): nat
    requires d > 0
  {
    (n + d - 1) / d
  }

  lemma RunOfFile(f: SdFile, size: nat)
    requires f.Valid() && f.fileType == Normal && size > 0
    requires f.chain == Consecutive(f.firstCluster, Needed(f.vol.g, size))
    ensures f.vol.Valid() && f.ChainValid() && f.vol.g.ClusterBytes() > 0
    ensures f.chain != [] && f.chain == Consecutive(f.chain[0], |f.chain|)
    ensures f.vol.g.BlocksOf(|f.chain|) == RoundedUp(size, f.vol.g.ClusterBytes()) * f.vol.g.blocksPerCluster
  {
    hide SdVolume.Valid, ChainOk, EntryOk;
    NeededIsQuotient(f.vol.g, size);
    BlocksOfIsProduct(f.vol.g, |f.chain|);
  }

  // ---- removing a subdirectory ----

  /** Remove the subdirectory open at slot `k` of `dir`: it must be empty, its
      clusters become free, its entry is deleted, and the parent stays sound with
      all other slots as they were. */
  method RmDirAt(dir: SdFile, f: SdFile, ghost k: nat, ghost chains: seq<seq<nat>>, ghost open: set<nat>)
    returns (ok: bool)
    requires FileAt(dir, f, k, chains, open) && k < |chains|
    requires f.fileType == SubDir ==>
               f.flags.read && !f.flags.unbuffered && f.chain != []
               && f.fileSize == 512 * f.vol.g.BlocksOf(|f.chain|)
    modifies f`curPosition, f`curCluster, f`firstCluster, f`flags, f`chain, f`fileSize, f`fileType,
             f.vol`cacheDirty, f.vol`cacheMirrorBlock, f.vol`cacheBlockNumber, f.vol`disk, f.vol`allocSearchStart,
             f.vol.card, f.vol.cacheBuffer
    ensures f.vol.Valid() && f.vol.Wedged() == old(f.vol.Wedged())
    ensures ok ==> old(f.fileType) == SubDir && IsEmptyDir(old(f.Data()))
    ensures ok ==> DirHandle(dir, chains[k := []], open - {k}) && Kept(dir, old(f.vol.disk), chains, chains[k := []], k)
    ensures ok ==> k < dir.fileSize / 32 && IsDeleted(Slot(dir.Data(), k))
    ensures ok ==> f.vol.Fat() == Freed(old(f.vol.Fat()), chains[k]) && f.vol.card.blocks == f.vol.disk
    ensures ok ==> VolumeKept(dir.vol.g, old(f.vol.disk), dir.vol.disk, Owned(dir.Place(), chains[k]),
                              Owned(dir.Place(), []), dir.Place().RootDir?)
    ensures !ok ==>
              f.vol.card.faults > old(f.vol.card.faults) || old(f.fileType) != SubDir || !IsEmptyDir(old(f.Data()))
  {
    hide SdVolume.Valid, SdFile.Valid, Contents, HandleOn, SlotBlock, Kept, NumBlocks, Sound, DirHandle, Slot,
         IsDeleted, Removed, IsEmptyDir, VolumeKept, Owned, Freed, IsFileAttribute;
    ghost var disk, b, size := f.vol.disk, f.dirBlock, f.fileSize;
    SlotFacts(dir, f, k, chains, open);
    ok := RmDir(f);
    if ok {
      AfterRemove(dir, disk, k, chains, open, b, size);
      KeptVolume(dir, disk, chains, chains[k := []], open - {k}, k);
    }
  }

  lemma SlotFacts(dir: SdFile, f: SdFile, k: nat, chains: seq<seq<nat>>, open: set<nat>)
    requires FileAt(dir, f, k, chains, open)
    ensures f != dir && f.vol == dir.vol && f.Valid() && dir.vol.Valid() && k < |chains| && k in open
    ensures f.chain == chains[k] && k / 16 < NumBlocks(dir.vol.g, dir.Place())
    ensures f.fileType == SubDir ==> !IsFileAttribute(f.attributes)
    ensures f.dirBlock == SlotBlock(dir.vol.g, dir.vol.size, dir.Place(), k) && f.dirIndex == k % 16
    ensures HandleOn(dir, dir.vol.disk, chains, open)
  {
    hide SdVolume.Valid, SdFile.Valid, HandleOn;
  }

  // ---- writing and then synchronising ----

  /** After a successful write, `sync` succeeds (card faults aside) if and only
      if the volume was not wedged and the cached block not dirty and in the way
      of the write. With `O_SYNC` the write itself then fails. */
  method WriteThenSync(f: SdFile, src: seq<byte>) returns (written: bool, synced: bool, ghost lost: bool)
    requires f.Valid() && |src| <= 0xFFFF && f.WriteStart() + |src| < TWO32
    modifies f`curPosition, f`curCluster, f`firstCluster, f`flags, f`chain, f`fileSize,
             f.vol`cacheDirty, f.vol`cacheMirrorBlock, f.vol`cacheBlockNumber, f.vol`disk, f.vol`allocSearchStart,
             f.vol.card, f.vol.cacheBuffer
    ensures f.vol.Valid()
    ensures lost == (old(f.vol.Wedged()) || InTheWay(f.vol.g, old(f.Begin()), old(f.WriteStart()), |src|))
    ensures written && lost ==> !synced
    ensures written && !lost ==> synced || f.vol.card.faults > old(f.vol.card.faults)
    ensures written && old(f.flags.sync) ==> !lost
    ensures written ==> f.fileType == Normal
    ensures synced ==> written && f.vol.card.blocks == f.vol.disk
                       && f.Valid() && f.Data() == Splice(old(f.Data()), old(f.WriteStart()), src)
  {
    hide SdVolume.Valid, SdFile.Valid, SdFile.Data, Splice, Grown, InTheWay, SdVolume.Full, SyncedBlock, Needed;
    synced := false;
    lost := f.vol.Wedged() || InTheWay(f.vol.g, f.Begin(), f.WriteStart(), |src|);
    var n;
    n, written := f.Write(src);
    if written {
      synced := f.Sync();
    }
  }

  /** The danger is real: when a file's first block is written in part, and then
      as a whole, all calls succeed and the next `sync` fails. */
  method DangerExample(f: SdFile, part: seq<byte>, whole: seq<byte>) returns (done: bool, synced: bool)
    requires f.Valid() && f.fileType == Normal && f.curPosition == 0 && !f.flags.append && !f.flags.sync
    requires !f.vol.Wedged() && 0 < |part| < 512 && |whole| == 512
    modifies f`curPosition, f`curCluster, f`firstCluster, f`flags, f`chain, f`fileSize,
             f.vol`cacheDirty, f.vol`cacheMirrorBlock, f.vol`cacheBlockNumber, f.vol`disk, f.vol`allocSearchStart,
             f.vol.card, f.vol.cacheBuffer
    ensures f.vol.Valid()
    ensures done ==> !synced && f.vol.Wedged()
    ensures !done ==> !old(f.flags.write) || f.vol.card.faults > old(f.vol.card.faults) || f.vol.Full()
  {
    hide SdVolume.Valid, SdFile.Valid, SdFile.Data, Splice, Grown, SdVolume.Full, SyncedBlock, Needed, InTheWay,
         SdFile.EndsInCache;
    synced := false;
    var n;
    PartIsHarmless(f.vol.g, f.Begin(), |part|);
    n, done := f.Write(part);
    if !done {
      return;
    }
    ghost var cached := f.vol.Cache();
    PartIsCached(f);
    done := f.SeekSet(0);
    if !done {
      return;
    }
    WholeIsEndangered(f.vol.g, f.vol.size, f.Begin());
    n, done := f.Write(whole);
    if done {
      synced := f.Sync();
    }
  }

  lemma PartIsHarmless(g: Layout, b: Beginning, n: nat)
    requires n < 512 && b.start == 0
    ensures !InTheWay(g, b, 0, n)
  {
  }

  /** The first block of the file is cached and dirty. */
  lemma PartIsCached(f: SdFile)
    requires f.Valid() && f.fileType == Normal && 0 < f.curPosition < 512 && f.EndsInCache()
    ensures f.chain != [] && f.vol.g.IsCluster(f.chain[0]) && 0 < f.vol.g.blocksPerCluster
    ensures f.vol.Cache() == Cached(f.vol.g.ClusterStartBlock(f.chain[0]), true)
  {
    hide SdVolume.Valid;
    SplitBound(f.vol.g, 0, |f.chain|);
  }

  lemma WholeIsEndangered(g: Layout, size: nat, b: Beginning)
    requires b.start == 0 && b.ch != [] && g.IsCluster(b.ch[0]) && 0 < g.blocksPerCluster
    requires b.cached == Cached(g.ClusterStartBlock(b.ch[0]), true)
    ensures InTheWay(g, b, 0, 512)
  {
  }
}
