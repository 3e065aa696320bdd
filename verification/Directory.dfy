/** A directory as the sequence of its 32-byte slots, and what keeps it sound. */
module Directory {
  import opened Bytes
  import opened Geometry
  import opened Chains
  import opened TableBlocks
  import opened FileBytes
  import opened DirEntry
  import opened Files

  function Slot(data: seq<byte>, k: nat): Entry
    requires 32 * k + 32 <= |data|
  {
    data[32 * k..32 * k + 32]
  }

  /** Slots before `k` are all in use or deleted, so a search gets to slot `k`. */
  ghost predicate Visible(data: seq<byte>, k: nat)
    requires k <= |data| / 32
  {
    forall j | 0 <= j < k :: !IsFree(Slot(data, j))
  }

  /** All of the first `m` slots but slot `k` are the same. */
  ghost predicate SlotsKept(data: seq<byte>, data': seq<byte>, m: nat, k: nat) {
    && m <= |data| / 32
    && m <= |data'| / 32
    && forall j | 0 <= j < m && j != k :: Slot(data', j) == Slot(data, j)
  }

  /** Slot `k` is where a search for `name` ends up. */
  ghost predicate HoldsName(data: seq<byte>, name: seq<byte>, k: nat) {
    k < |data| / 32 && Visible(data, k) && IsLive(Slot(data, k)) && Name(Slot(data, k)) == name
  }

  /** A live slot that is not part of a long name. */
  predicate IsShort(e: Entry) {
    IsLive(e) && Attributes(e) as int % 0x40 != 0x0F
  }

  ghost predicate NamesUnique(data: seq<byte>) {
    forall j, k | 0 <= j < k < |data| / 32 && IsShort(Slot(data, j)) && IsShort(Slot(data, k)) ::
      Name(Slot(data, j)) != Name(Slot(data, k))
  }

  /** Behind a free slot there are only free slots. */
  ghost predicate FreeTail(data: seq<byte>) {
    forall j, k | 0 <= j < k < |data| / 32 && IsFree(Slot(data, j)) :: IsFree(Slot(data, k))
  }

  function SlotBlock(g: Layout, size: nat, x: Extent, k: nat): nat
    requires g.Valid(size) && Sound(g, x) && k / 16 < NumBlocks(g, x)
  {
    FileBlock(g, size, x, k / 16)
  }

  function OwnChain(x: Extent): seq<nat> {
    if x.RootDir? then [] else x.ch
  }

  /** Extent `x`, of `n` bytes, holds whole slots, and the table chains it. */
  ghost predicate DirExtent(g: Layout, disk: Disk, x: Extent, n: nat)
    ensures DirExtent(g, disk, x, n) ==> g.Valid(|disk|) && Sound(g, x) && n <= 512 * NumBlocks(g, x) && n % 32 == 0
  {
    && g.Valid(|disk|)
    && Sound(g, x)
    && n <= 512 * NumBlocks(g, x)
    && n % 32 == 0
    && IsChainOrNil(TableOf(g, disk), g.EocMin(), OwnChain(x))
  }

  /** The chains of the slots in use share no cluster with each other or with
      the directory, and are stored as the entries say. The dot entries of a
      subdirectory have none: they name this directory and its parent. Slots in
      `open` belong to files that are open: their entries may be out of date. */
  ghost predicate SlotsBacked(g: Layout, disk: Disk, x: Extent, n: nat, chains: seq<seq<nat>>, open: set<nat>)
    requires DirExtent(g, disk, x, n)
    ensures SlotsBacked(g, disk, x, n, chains, open) ==> |chains| == n / 32 && forall k | k in open :: k < n / 32
  {
    var data := Contents(g, disk, x, n);
    && |chains| == n / 32
    && (forall k | k in open :: k < |chains| && IsOwner(Slot(data, k)))
    && (forall k | 0 <= k < |chains| && IsOwner(Slot(data, k)) && k !in open ::
          Backed(g, disk, SlotBlock(g, |disk|, x, k), k % 16, chains[k]))
    && (forall k | 0 <= k < |chains| && !IsOwner(Slot(data, k)) :: chains[k] == [])
    && (forall k | 0 <= k < |chains| :: IsChainOrNil(TableOf(g, disk), g.EocMin(), chains[k]))
    && (forall k | 0 <= k < |chains| :: Apart(chains[k], OwnChain(x)))
    && (forall j, k | 0 <= j < k < |chains| :: Apart(chains[j], chains[k]))
  }

  /** A sound directory: names are unique, free slots come last, and every live
      slot is backed by a chain of its own. */
  ghost predicate DirSound(g: Layout, disk: Disk, x: Extent, n: nat, chains: seq<seq<nat>>, open: set<nat>)
    ensures DirSound(g, disk, x, n, chains, open) ==> DirExtent(g, disk, x, n) && |chains| == n / 32
  {
    && DirExtent(g, disk, x, n)
    && NamesUnique(Contents(g, disk, x, n))
    && FreeTail(Contents(g, disk, x, n))
    && SlotsBacked(g, disk, x, n, chains, open)
  }

  /** The chains of a sound directory and its slots: well-formed and pairwise
      disjoint. */
  ghost function AllChains(x: Extent, chains: seq<seq<nat>>): set<seq<nat>> {
    set ch | ch in chains + [OwnChain(x)] && ch != []
  }

  lemma ChainsAreFamily(g: Layout, disk: Disk, x: Extent, n: nat, chains: seq<seq<nat>>, open: set<nat>)
    requires DirSound(g, disk, x, n, chains, open)
    ensures IsChainFamily(TableOf(g, disk), g.EocMin(), AllChains(x, chains))
  {
    hide SlotsBacked, DirExtent, NamesUnique, FreeTail, IsChain, TableOf, Apart;
    forall a, b | a in AllChains(x, chains) && b in AllChains(x, chains) && a != b
      ensures IsChain(TableOf(g, disk), g.EocMin(), a) && Apart(a, b)
    {
      TwoApart(g, disk, x, n, chains, open, a, b);
    }
    forall a | a in AllChains(x, chains)
      ensures IsChain(TableOf(g, disk), g.EocMin(), a)
    {
      TwoApart(g, disk, x, n, chains, open, a, a);
    }
  }

  lemma TwoApart(g: Layout, disk: Disk, x: Extent, n: nat, chains: seq<seq<nat>>, open: set<nat>, a: seq<nat>,
                 b: seq<nat>)
    requires DirExtent(g, disk, x, n) && SlotsBacked(g, disk, x, n, chains, open)
    requires a in AllChains(x, chains) && b in AllChains(x, chains)
    ensures IsChain(TableOf(g, disk), g.EocMin(), a)
    ensures a != b ==> Apart(a, b)
  {
    hide Contents, Backed, TableOf, IsChain;
    if a != b {
      if a == OwnChain(x) {
        var k :| 0 <= k < |chains| && chains[k] == b;
        assert Apart(chains[k], OwnChain(x));
      } else {
        var j :| 0 <= j < |chains| && chains[j] == a;
        if b != OwnChain(x) {
          var k :| 0 <= k < |chains| && chains[k] == b;
          assert j < k || k < j;
        }
      }
    }
  }

  lemma SlotInBlock(g: Layout, disk: Disk, x: Extent, n: nat, k: nat)
    requires g.Valid(|disk|) && Sound(g, x) && n <= 512 * NumBlocks(g, x) && 32 * k + 32 <= n
    ensures k / 16 < NumBlocks(g, x)
    ensures Slot(Contents(g, disk, x, n), k) == EntryAt(disk[SlotBlock(g, |disk|, x, k)], k % 16)
  {
    EntryOffset(32 * k);
    ContentsInBlock(g, disk, x, n, 32 * k, 32);
  }

  /** When only entry `k` of the directory's blocks changes, all other slots
      keep their content. */
  lemma OtherSlotsKept(g: Layout, disk: Disk, disk': Disk, x: Extent, n: nat, k: nat, j: nat)
    requires g.Valid(|disk|) && |disk'| == |disk| && Sound(g, x) && n <= 512 * NumBlocks(g, x)
    requires 32 * k + 32 <= n && 32 * j + 32 <= n && j != k && k / 16 < NumBlocks(g, x)
    requires forall m | 0 <= m < NumBlocks(g, x) && m != k / 16 ::
               disk'[FileBlock(g, |disk|, x, m)] == disk[FileBlock(g, |disk|, x, m)]
    requires forall i | 0 <= i < 16 && i != k % 16 ::
               EntryAt(disk'[SlotBlock(g, |disk|, x, k)], i) == EntryAt(disk[SlotBlock(g, |disk|, x, k)], i)
    ensures Slot(Contents(g, disk', x, n), j) == Slot(Contents(g, disk, x, n), j)
  {
    SlotInBlock(g, disk, x, n, j);
    SlotInBlock(g, disk', x, n, j);
    if j / 16 == k / 16 {
      assert j % 16 != k % 16;
      var b := SlotBlock(g, |disk|, x, k);
      assert EntryAt(disk'[b], j % 16) == EntryAt(disk[b], j % 16);
    }
  }

  /** What an entry describes stays so while the entry, its chain and the use of
      the cluster that holds it stay. */
  lemma BackedFramed(g: Layout, disk: Disk, disk': Disk, b: nat, i: nat, ch: seq<nat>)
    requires Backed(g, disk, b, i, ch) && |disk'| == |disk|
    requires EntryAt(disk'[b], i) == EntryAt(disk[b], i)
    requires forall c | c in ch && c < g.TableLength() :: TableOf(g, disk')[c] == TableOf(g, disk)[c]
    requires forall c: nat | g.IsCluster(c) && g.InCluster(c, b) :: TableOf(g, disk')[c] != 0
    ensures Backed(g, disk', b, i, ch)
  {
    if ch != [] && IsChain(TableOf(g, disk), g.EocMin(), ch) {
      ChainFramed(TableOf(g, disk), TableOf(g, disk'), g.EocMin(), ch);
    }
  }

  /** A block of the directory is in no cluster that is free or in a chain apart
      from the directory's. */
  lemma DirBlockSafe(g: Layout, disk: Disk, x: Extent, n: nat, m: nat, ch: seq<nat>)
    requires DirExtent(g, disk, x, n) && m < NumBlocks(g, x) && Apart(ch, OwnChain(x))
    ensures EntryBlockSafe(g, |disk|, TableOf(g, disk), ch, FileBlock(g, |disk|, x, m))
  {
    var b := FileBlock(g, |disk|, x, m);
    forall c: nat | g.IsCluster(c) && g.InCluster(c, b)
      ensures TableOf(g, disk)[c] != 0 && c !in ch
    {
      ClusterInData(g, |disk|, c);
      if x.Clusters? {
        ClustersDisjoint(g, c, x.ch[g.ClusterOf(m)], b);
        assert c in x.ch;
        ChainInUse(TableOf(g, disk), g.EocMin(), x.ch, c);
      }
    }
  }

  /** What an operation on the file of slot `k` may do: change the file's own
      clusters and formerly free ones in the table, the file's blocks, and entry
      `k` of the directory. */
  ghost predicate SlotOp(g: Layout, disk: Disk, disk': Disk, x: Extent, n: nat, k: nat, ch: seq<nat>, ch': seq<nat>)
    requires DirExtent(g, disk, x, n)
    ensures SlotOp(g, disk, disk', x, n, k, ch, ch') ==>
              |disk'| == |disk| && 32 * k + 32 <= n && k / 16 < NumBlocks(g, x)
  {
    && 32 * k + 32 <= n
    && k / 16 < NumBlocks(g, x)
    && |disk'| == |disk|
    && OnlyMineChanged(TableOf(g, disk), TableOf(g, disk'), ch, ch')
    && var b := SlotBlock(g, |disk|, x, k);
       && (forall m | 0 <= m < |disk| && !g.InTables(m) && !InExtent(g, ch', m) && m != b :: disk'[m] == disk[m])
       && (forall i | 0 <= i < 16 && i != k % 16 :: EntryAt(disk'[b], i) == EntryAt(disk[b], i))
  }

  /** A cluster that was in use by somebody else is none of the operation's. */
  lemma NotMine(g: Layout, disk: Disk, disk': Disk, x: Extent, n: nat, k: nat, ch: seq<nat>, ch': seq<nat>, c: nat)
    requires DirExtent(g, disk, x, n) && SlotOp(g, disk, disk', x, n, k, ch, ch')
    requires c < g.TableLength() && TableOf(g, disk)[c] != 0 && c !in ch
    ensures c !in ch' && TableOf(g, disk')[c] == TableOf(g, disk)[c]
  {
  }

  /** The directory's blocks, all but that of slot `k`, are untouched. */
  lemma DirBlocksKept(g: Layout, disk: Disk, disk': Disk, x: Extent, n: nat, k: nat, ch: seq<nat>, ch': seq<nat>,
                      m: nat)
    requires DirExtent(g, disk, x, n) && SlotOp(g, disk, disk', x, n, k, ch, ch') && Apart(ch, OwnChain(x))
    requires m < NumBlocks(g, x) && forall c | c in ch :: g.IsCluster(c)
    ensures var b := FileBlock(g, |disk|, x, m);
            && !InExtent(g, ch', b)
            && (m != k / 16 ==> disk'[b] == disk[b])
            && (forall c: nat | g.IsCluster(c) && g.InCluster(c, b) :: TableOf(g, disk')[c] != 0)
  {
    var b := FileBlock(g, |disk|, x, m);
    DirBlockSafe(g, disk, x, n, m, ch);
    forall c: nat | c in ch' && 2 <= c
      ensures !g.InCluster(c, b)
    {
      assert c !in ch ==> TableOf(g, disk)[c] == 0;
    }
    forall c: nat | g.IsCluster(c) && g.InCluster(c, b)
      ensures TableOf(g, disk')[c] != 0
    {
      NotMine(g, disk, disk', x, n, k, ch, ch', c);
    }
    if m != k / 16 && b == SlotBlock(g, |disk|, x, k) {
      FileBlocksDistinct(g, |disk|, x, m, k / 16);
    }
  }

  /** The directory's own chain survives. */
  lemma DirExtentKept(g: Layout, disk: Disk, disk': Disk, x: Extent, n: nat, k: nat, ch: seq<nat>, ch': seq<nat>)
    requires DirExtent(g, disk, x, n) && SlotOp(g, disk, disk', x, n, k, ch, ch') && Apart(ch, OwnChain(x))
    ensures DirExtent(g, disk', x, n) && Apart(ch', OwnChain(x))
  {
    var own := OwnChain(x);
    forall c | c in own
      ensures TableOf(g, disk')[c] == TableOf(g, disk)[c] && c !in ch'
    {
      ChainInUse(TableOf(g, disk), g.EocMin(), own, c);
      NotMine(g, disk, disk', x, n, k, ch, ch', c);
    }
    if own != [] {
      ChainFramed(TableOf(g, disk), TableOf(g, disk'), g.EocMin(), own);
    }
  }

  /** Another slot's chain survives, and its entry stays backed by it. */
  lemma OtherSlotBacked(g: Layout, disk: Disk, disk': Disk, x: Extent, n: nat, chains: seq<seq<nat>>, open: set<nat>,
                        k: nat, ch': seq<nat>, j: nat)
    requires DirExtent(g, disk, x, n) && SlotsBacked(g, disk, x, n, chains, open)
    requires j < n / 32 && k < n / 32 && j != k
    requires SlotOp(g, disk, disk', x, n, k, chains[k], ch')
    ensures DirExtent(g, disk', x, n)
    ensures Slot(Contents(g, disk', x, n), j) == Slot(Contents(g, disk, x, n), j)
    ensures IsChainOrNil(TableOf(g, disk'), g.EocMin(), chains[j])
    ensures Apart(chains[j], ch') && Apart(ch', chains[j])
    ensures IsOwner(Slot(Contents(g, disk', x, n), j)) && j !in open ==>
              Backed(g, disk', SlotBlock(g, |disk'|, x, j), j % 16, chains[j])
  {
    hide SlotsBacked, DirExtent, Backed, IsChainOrNil, Apart, Contents, EntryAt, SlotOp, NumBlocks, Sound, FileBlock,
         Slot, IsOwner;
    var ch := chains[k];
    TwoSlots(g, disk, x, n, chains, open, j, k);
    DirExtentKept(g, disk, disk', x, n, k, ch, ch');
    ChainKept(g, disk, disk', x, n, k, ch, ch', chains[j]);
    SlotInBlock(g, disk, x, n, j);
    SlotInBlock(g, disk', x, n, j);
    forall m | 0 <= m < NumBlocks(g, x) && m != k / 16
      ensures disk'[FileBlock(g, |disk|, x, m)] == disk[FileBlock(g, |disk|, x, m)]
    {
      DirBlocksKept(g, disk, disk', x, n, k, ch, ch', m);
    }
    SlotsInRange(n, j, k);
    SameSlotEntry(g, disk, disk', x, n, k, j, ch, ch');
    if IsOwner(Slot(Contents(g, disk, x, n), j)) && j !in open {
      DirBlocksKept(g, disk, disk', x, n, k, ch, ch', j / 16);
      BackedFramed(g, disk, disk', SlotBlock(g, |disk|, x, j), j % 16, chains[j]);
    }
  }

  lemma SlotsInRange(n: nat, j: nat, k: nat)
    requires j < n / 32 && k < n / 32
    ensures 32 * j + 32 <= n && 32 * k + 32 <= n
  {
  }

  lemma SameSlotEntry(g: Layout, disk: Disk, disk': Disk, x: Extent, n: nat, k: nat, j: nat, ch: seq<nat>,
                      ch': seq<nat>)
    requires DirExtent(g, disk, x, n) && DirExtent(g, disk', x, n) && SlotOp(g, disk, disk', x, n, k, ch, ch')
    requires j != k && 32 * j + 32 <= n && 32 * k + 32 <= n
    requires forall m | 0 <= m < NumBlocks(g, x) && m != k / 16 ::
               disk'[FileBlock(g, |disk|, x, m)] == disk[FileBlock(g, |disk|, x, m)]
    ensures Slot(Contents(g, disk', x, n), j) == Slot(Contents(g, disk, x, n), j)
  {
    hide Contents, EntryAt, FileBlock, Slot, OnlyMineChanged, InExtent;
    OtherSlotsKept(g, disk, disk', x, n, k, j);
  }

  /** What is known of two slots. */
  lemma TwoSlots(g: Layout, disk: Disk, x: Extent, n: nat, chains: seq<seq<nat>>, open: set<nat>, j: nat, k: nat)
    requires DirExtent(g, disk, x, n) && SlotsBacked(g, disk, x, n, chains, open) && j < n / 32 && k < n / 32 && j != k
    ensures IsChainOrNil(TableOf(g, disk), g.EocMin(), chains[j])
            && IsChainOrNil(TableOf(g, disk), g.EocMin(), chains[k])
    ensures Apart(chains[j], OwnChain(x)) && Apart(chains[k], OwnChain(x))
    ensures Apart(chains[j], chains[k]) || Apart(chains[k], chains[j])
    ensures forall c | c in chains[k] :: g.IsCluster(c)
    ensures IsOwner(Slot(Contents(g, disk, x, n), j)) && j !in open ==>
              j / 16 < NumBlocks(g, x) && Backed(g, disk, SlotBlock(g, |disk|, x, j), j % 16, chains[j])
  {
    hide Contents, Backed, FileBlock, Slot, IsOwner, NumBlocks, Sound;
    SlotInBlock(g, disk, x, n, j);
  }

  lemma ChainKept(g: Layout, disk: Disk, disk': Disk, x: Extent, n: nat, k: nat, ch: seq<nat>, ch': seq<nat>,
                  other: seq<nat>)
    requires DirExtent(g, disk, x, n) && SlotOp(g, disk, disk', x, n, k, ch, ch')
    requires IsChainOrNil(TableOf(g, disk), g.EocMin(), other) && (Apart(other, ch) || Apart(ch, other))
    ensures IsChainOrNil(TableOf(g, disk'), g.EocMin(), other)
    ensures forall c | c in other && c < g.TableLength() :: TableOf(g, disk')[c] == TableOf(g, disk)[c]
    ensures Apart(other, ch') && Apart(ch', other)
  {
    forall c | c in other
      ensures c < g.TableLength() && TableOf(g, disk')[c] == TableOf(g, disk)[c] && c !in ch'
    {
      ChainInUse(TableOf(g, disk), g.EocMin(), other, c);
      assert c !in ch;
      NotMine(g, disk, disk', x, n, k, ch, ch', c);
    }
    if other != [] {
      ChainFramed(TableOf(g, disk), TableOf(g, disk'), g.EocMin(), other);
    }
  }

  /** Apart from slot `k`, the same files are open. */
  ghost predicate SameOpen(open: set<nat>, open': set<nat>, k: nat) {
    forall j | j != k :: j in open <==> j in open'
  }

  /** The main step: an operation on the file of live slot `k` keeps the
      directory sound, with the file's new chain in place of the old one, when
      it leaves the entry live under the same name or deletes it; unless the
      file stays open, the entry must describe the new chain. */
  lemma FileOpKeepsDir(g: Layout, disk: Disk, disk': Disk, x: Extent, n: nat, chains: seq<seq<nat>>, open: set<nat>,
                       k: nat, ch': seq<nat>, open': set<nat>)
    requires DirSound(g, disk, x, n, chains, open) && k < n / 32 && SameOpen(open, open', k)
    requires SlotOp(g, disk, disk', x, n, k, chains[k], ch')
    requires IsOwner(EntryAt(disk[SlotBlock(g, |disk|, x, k)], k % 16))
    requires IsChainOrNil(TableOf(g, disk'), g.EocMin(), ch')
    requires var b := SlotBlock(g, |disk|, x, k);
             var e, e' := EntryAt(disk[b], k % 16), EntryAt(disk'[b], k % 16);
             if IsLive(e') then
               Name(e') == Name(e) && Attributes(e') == Attributes(e)
               && (k in open' || Backed(g, disk', b, k % 16, ch'))
             else IsDeleted(e') && ch' == [] && k !in open'
    ensures DirSound(g, disk', x, n, chains[k := ch'], open')
  {
    hide Backed, SlotOp, DirExtent, SlotsBacked, NamesUnique, FreeTail, IsChainOrNil, Contents, EntryAt;
    SlotApart(g, disk, x, n, chains, open, k);
    DirExtentKept(g, disk, disk', x, n, k, chains[k], ch');
    SlotInBlock(g, disk, x, n, k);
    SlotInBlock(g, disk', x, n, k);
    var data, data' := Contents(g, disk, x, n), Contents(g, disk', x, n);
    forall j | 0 <= j < n / 32 && j != k
      ensures Slot(data', j) == Slot(data, j)
    {
      OtherSlotBacked(g, disk, disk', x, n, chains, open, k, ch', j);
    }
    NamesKept(data, data', k);
    if IsLive(Slot(data', k)) {
      SameNameSameUse(Slot(data, k), Slot(data', k));
    }
    OpKeepsBacked(g, disk, disk', x, n, chains, open, k, ch', open');
  }

  lemma SlotApart(g: Layout, disk: Disk, x: Extent, n: nat, chains: seq<seq<nat>>, open: set<nat>, k: nat)
    requires DirExtent(g, disk, x, n) && SlotsBacked(g, disk, x, n, chains, open) && k < n / 32
    ensures Apart(chains[k], OwnChain(x))
  {
  }

  lemma NamesKept(data: seq<byte>, data': seq<byte>, k: nat)
    requires |data'| == |data| && k < |data| / 32 && NamesUnique(data) && FreeTail(data)
    requires forall j | 0 <= j < |data| / 32 && j != k :: Slot(data', j) == Slot(data, j)
    requires IsLive(Slot(data, k)) && !IsFree(Slot(data', k))
    requires IsLive(Slot(data', k)) ==>
               Name(Slot(data', k)) == Name(Slot(data, k)) && Attributes(Slot(data', k)) == Attributes(Slot(data, k))
    ensures NamesUnique(data') && FreeTail(data')
  {
    forall i, j | 0 <= i < j < |data| / 32 && IsShort(Slot(data', i)) && IsShort(Slot(data', j))
      ensures Name(Slot(data', i)) != Name(Slot(data', j))
    {
      assert IsShort(Slot(data, i)) && IsShort(Slot(data, j));
    }
  }

  lemma OpKeepsBacked(g: Layout, disk: Disk, disk': Disk, x: Extent, n: nat, chains: seq<seq<nat>>, open: set<nat>,
                      k: nat, ch': seq<nat>, open': set<nat>)
    requires DirExtent(g, disk, x, n) && SlotsBacked(g, disk, x, n, chains, open) && k < n / 32
    requires SlotOp(g, disk, disk', x, n, k, chains[k], ch') && SameOpen(open, open', k)
    requires DirExtent(g, disk', x, n) && Apart(ch', OwnChain(x)) && IsChainOrNil(TableOf(g, disk'), g.EocMin(), ch')
    requires var e' := Slot(Contents(g, disk', x, n), k);
             if IsOwner(e') then k in open' || Backed(g, disk', SlotBlock(g, |disk|, x, k), k % 16, ch')
             else ch' == [] && k !in open'
    ensures SlotsBacked(g, disk', x, n, chains[k := ch'], open')
  {
    hide Backed, SlotOp, DirExtent, IsChainOrNil, Contents;
    forall j | 0 <= j < n / 32 && j != k
      ensures Slot(Contents(g, disk', x, n), j) == Slot(Contents(g, disk, x, n), j)
      ensures IsChainOrNil(TableOf(g, disk'), g.EocMin(), chains[j])
      ensures Apart(chains[j], ch') && Apart(ch', chains[j])
      ensures IsOwner(Slot(Contents(g, disk', x, n), j)) && j !in open ==>
                Backed(g, disk', SlotBlock(g, |disk'|, x, j), j % 16, chains[j])
    {
      OtherSlotBacked(g, disk, disk', x, n, chains, open, k, ch', j);
    }
  }

  // ---- the operations on files as operations on slots ----

  /** Growing a file is an operation on its slot. */
  lemma GrownIsSlotOp(g: Layout, disk: Disk, disk': Disk, x: Extent, n: nat, k: nat, ch: seq<nat>, ch': seq<nat>,
                      synced: bool)
    requires DirExtent(g, disk, x, n) && 32 * k + 32 <= n && k / 16 < NumBlocks(g, x) && |disk'| == |disk|
    requires Grown(g, TableOf(g, disk), disk, ch, TableOf(g, disk'), disk', ch', synced, SlotBlock(g, |disk|, x, k),
                   k % 16)
    requires !InExtent(g, ch', SlotBlock(g, |disk|, x, k))
    ensures SlotOp(g, disk, disk', x, n, k, ch, ch')
    ensures SameEntryName(disk, disk', SlotBlock(g, |disk|, x, k), k % 16)
  {
    SamePlaceSameName(disk[SlotBlock(g, |disk|, x, k)], disk'[SlotBlock(g, |disk|, x, k)], k % 16);
  }

  /** So is cutting it. */
  lemma CutIsSlotOp(g: Layout, disk: Disk, disk': Disk, x: Extent, n: nat, k: nat, ch: seq<nat>, ch': seq<nat>,
                    length: nat)
    requires DirExtent(g, disk, x, n) && 32 * k + 32 <= n && k / 16 < NumBlocks(g, x) && |disk'| == |disk|
    requires Cut(g, TableOf(g, disk), disk, ch, TableOf(g, disk'), disk', ch', length, SlotBlock(g, |disk|, x, k),
                 k % 16)
    ensures SlotOp(g, disk, disk', x, n, k, ch, ch')
    ensures SameEntryName(disk, disk', SlotBlock(g, |disk|, x, k), k % 16)
  {
    SamePlaceSameName(disk[SlotBlock(g, |disk|, x, k)], disk'[SlotBlock(g, |disk|, x, k)], k % 16);
  }

  /** So is removing it: the slot is left without clusters. */
  lemma RemovedIsSlotOp(g: Layout, disk: Disk, disk': Disk, x: Extent, n: nat, k: nat, ch: seq<nat>, size: nat)
    requires DirExtent(g, disk, x, n) && 32 * k + 32 <= n && k / 16 < NumBlocks(g, x) && |disk'| == |disk|
    requires Removed(g, TableOf(g, disk), disk, ch, TableOf(g, disk'), disk', size, SlotBlock(g, |disk|, x, k), k % 16)
    ensures SlotOp(g, disk, disk', x, n, k, ch, [])
    ensures IsDeleted(EntryAt(disk'[SlotBlock(g, |disk|, x, k)], k % 16))
  {
  }

  /** So is bringing its entry up to date. */
  lemma SyncedIsSlotOp(g: Layout, disk: Disk, disk': Disk, x: Extent, n: nat, k: nat, ch: seq<nat>)
    requires DirExtent(g, disk, x, n) && 32 * k + 32 <= n && k / 16 < NumBlocks(g, x)
    requires SameExcept(disk, disk', SlotBlock(g, |disk|, x, k))
    requires OnlyPlaceChanged(disk[SlotBlock(g, |disk|, x, k)], disk'[SlotBlock(g, |disk|, x, k)], k % 16)
    ensures SlotOp(g, disk, disk', x, n, k, ch, ch)
    ensures SameEntryName(disk, disk', SlotBlock(g, |disk|, x, k), k % 16)
  {
    TableFramed(g, disk, disk');
    SamePlaceSameName(disk[SlotBlock(g, |disk|, x, k)], disk'[SlotBlock(g, |disk|, x, k)], k % 16);
  }

  ghost predicate SameEntryName(disk: Disk, disk': Disk, b: nat, i: nat)
    requires b < |disk| == |disk'| && i < 16
  {
    var e, e' := EntryAt(disk[b], i), EntryAt(disk'[b], i);
    Name(e') == Name(e) && Attributes(e') == Attributes(e)
  }

  lemma SamePlaceSameName(blk: Block, blk': Block, i: nat)
    requires i < 16 && (blk' == blk || OnlyPlaceChanged(blk, blk', i))
    ensures Name(EntryAt(blk', i)) == Name(EntryAt(blk, i))
            && Attributes(EntryAt(blk', i)) == Attributes(EntryAt(blk, i))
  {
    var e, e' := EntryAt(blk, i), EntryAt(blk', i);
    assert e'[..20] == e[..20];
    assert forall k | 0 <= k < 20 :: e'[k] == e'[..20][k] && e[k] == e[..20][k];
  }

  lemma NothingIsSlotOp(g: Layout, disk: Disk, x: Extent, n: nat, k: nat, ch: seq<nat>)
    requires DirExtent(g, disk, x, n) && 32 * k + 32 <= n && k / 16 < NumBlocks(g, x)
    ensures SlotOp(g, disk, disk, x, n, k, ch, ch)
    ensures SameEntryName(disk, disk, SlotBlock(g, |disk|, x, k), k % 16)
  {
  }

  /** An operation that keeps the entry's name, on a file that stays open. */
  lemma OpenOpKeepsDir(g: Layout, disk: Disk, disk': Disk, x: Extent, n: nat, chains: seq<seq<nat>>, open: set<nat>,
                       k: nat, ch': seq<nat>)
    requires DirSound(g, disk, x, n, chains, open) && k < n / 32
    requires IsOwner(Slot(Contents(g, disk, x, n), k))
    requires SlotOp(g, disk, disk', x, n, k, chains[k], ch')
    requires SameEntryName(disk, disk', SlotBlock(g, |disk|, x, k), k % 16)
    requires IsChainOrNil(TableOf(g, disk'), g.EocMin(), ch')
    ensures DirSound(g, disk', x, n, chains[k := ch'], open + {k})
    ensures Name(Slot(Contents(g, disk', x, n), k)) == Name(Slot(Contents(g, disk, x, n), k))
    ensures forall j | 0 <= j < n / 32 && j != k ::
              Slot(Contents(g, disk', x, n), j) == Slot(Contents(g, disk, x, n), j)
  {
    hide Backed, SlotOp, DirExtent, SlotsBacked, NamesUnique, FreeTail, IsChainOrNil, Contents, FileBlock, EntryAt;
    SlotInBlock(g, disk, x, n, k);
    SlotInBlock(g, disk', x, n, k);
    var e, e' := Slot(Contents(g, disk, x, n), k), Slot(Contents(g, disk', x, n), k);
    SameNameSameUse(e, e');
    FileOpKeepsDir(g, disk, disk', x, n, chains, open, k, ch', open + {k});
    forall j | 0 <= j < n / 32 && j != k
      ensures Slot(Contents(g, disk', x, n), j) == Slot(Contents(g, disk, x, n), j)
    {
      OtherSlotBacked(g, disk, disk', x, n, chains, open, k, ch', j);
    }
  }

  lemma HoldsNameKept(data: seq<byte>, data': seq<byte>, name: seq<byte>, k: nat)
    requires HoldsName(data, name, k) && |data'| == |data|
    requires Name(Slot(data', k)) == Name(Slot(data, k))
    requires forall j | 0 <= j < |data| / 32 && j != k :: Slot(data', j) == Slot(data, j)
    ensures HoldsName(data', name, k)
  {
    assert Slot(data', k)[0] == Name(Slot(data', k))[0] == Name(Slot(data, k))[0] == Slot(data, k)[0];
  }

  /** The bytes of the file of slot `k`. */
  ghost function SlotData(g: Layout, disk: Disk, x: Extent, n: nat, chains: seq<seq<nat>>, open: set<nat>,
                          k: nat): (r: seq<byte>)
    requires DirSound(g, disk, x, n, chains, open) && k < n / 32 && k !in open
    requires IsLive(Slot(Contents(g, disk, x, n), k)) && IsFile(Slot(Contents(g, disk, x, n), k))
    ensures |r| == FileSize(Slot(Contents(g, disk, x, n), k))
  {
    SlotInBlock(g, disk, x, n, k);
    SlotBacked(g, disk, x, n, chains, open, k);
    StoredData(g, disk, SlotBlock(g, |disk|, x, k), k % 16, chains[k])
  }

  /** An operation on the file of slot `k` leaves the bytes of every other file
      of the directory alone. */
  lemma OtherDataKept(g: Layout, disk: Disk, disk': Disk, x: Extent, n: nat, chains: seq<seq<nat>>, open: set<nat>,
                      k: nat, ch': seq<nat>, open': set<nat>, j: nat)
    requires DirSound(g, disk, x, n, chains, open) && k < n / 32 && DirSound(g, disk', x, n, chains[k := ch'], open')
    requires j < n / 32 && j != k && j !in open && j !in open' && SlotOp(g, disk, disk', x, n, k, chains[k], ch')
    requires IsLive(Slot(Contents(g, disk, x, n), j)) && IsFile(Slot(Contents(g, disk, x, n), j))
    ensures Slot(Contents(g, disk', x, n), j) == Slot(Contents(g, disk, x, n), j)
    ensures SlotData(g, disk', x, n, chains[k := ch'], open', j) == SlotData(g, disk, x, n, chains, open, j)
  {
    hide DirExtent, Contents, FileBlock, SlotsBacked, NamesUnique, FreeTail, Backed, SlotOp, Slot, EntryAt;
    OtherSlotBacked(g, disk, disk', x, n, chains, open, k, ch', j);
    SlotInBlock(g, disk, x, n, j);
    SlotInBlock(g, disk', x, n, j);
    OtherBlocksKept(g, disk, disk', x, n, chains, open, k, ch', j);
    var size := FileSize(Slot(Contents(g, disk, x, n), j));
    SlotBacked(g, disk, x, n, chains, open, j);
    BackedBounds(g, disk, SlotBlock(g, |disk|, x, j), j % 16, chains[j]);
    ContentsFramed(g, disk, disk', Clusters(chains[j]), size);
  }

  lemma SlotBacked(g: Layout, disk: Disk, x: Extent, n: nat, chains: seq<seq<nat>>, open: set<nat>, k: nat)
    requires DirExtent(g, disk, x, n) && SlotsBacked(g, disk, x, n, chains, open) && k < n / 32
    requires IsOwner(Slot(Contents(g, disk, x, n), k)) && k !in open
    ensures k / 16 < NumBlocks(g, x) && Backed(g, disk, SlotBlock(g, |disk|, x, k), k % 16, chains[k])
  {
    SlotInBlock(g, disk, x, n, k);
  }

  lemma BackedBounds(g: Layout, disk: Disk, b: nat, i: nat, ch: seq<nat>)
    requires Backed(g, disk, b, i, ch) && IsFile(EntryAt(disk[b], i))
    ensures Sound(g, Clusters(ch)) && FileSize(EntryAt(disk[b], i)) <= 512 * g.BlocksOf(|ch|)
  {
  }

  lemma OtherBlocksKept(g: Layout, disk: Disk, disk': Disk, x: Extent, n: nat, chains: seq<seq<nat>>, open: set<nat>,
                        k: nat, ch': seq<nat>, j: nat)
    requires DirExtent(g, disk, x, n) && SlotsBacked(g, disk, x, n, chains, open)
    requires k < n / 32 && j < n / 32 && j != k && SlotOp(g, disk, disk', x, n, k, chains[k], ch')
    ensures Sound(g, Clusters(chains[j]))
    ensures forall m | 0 <= m < g.BlocksOf(|chains[j]|) ::
              disk'[FileBlock(g, |disk|, Clusters(chains[j]), m)] == disk[FileBlock(g, |disk|, Clusters(chains[j]), m)]
  {
    hide Contents, Backed, EntryAt;
    ChainSound(g, disk, chains[j]);
    ChainKept(g, disk, disk', x, n, k, chains[k], ch', chains[j]);
    forall m | 0 <= m < g.BlocksOf(|chains[j]|)
      ensures disk'[FileBlock(g, |disk|, Clusters(chains[j]), m)] == disk[FileBlock(g, |disk|, Clusters(chains[j]), m)]
    {
      FileBlockApart(g, disk, disk', x, n, chains[j], k, chains[k], ch', m);
    }
  }

  /** A block of a chain apart from the directory and from the new chain is not
      one the operation touches. */
  lemma FileBlockApart(g: Layout, disk: Disk, disk': Disk, x: Extent, n: nat, other: seq<nat>, k: nat,
                       ch: seq<nat>, ch': seq<nat>, m: nat)
    requires DirExtent(g, disk, x, n) && SlotOp(g, disk, disk', x, n, k, ch, ch')
    requires Sound(g, Clusters(other)) && Apart(other, OwnChain(x)) && Apart(other, ch') && m < g.BlocksOf(|other|)
    ensures disk'[FileBlock(g, |disk|, Clusters(other), m)] == disk[FileBlock(g, |disk|, Clusters(other), m)]
  {
    var b := FileBlock(g, |disk|, Clusters(other), m);
    var c := other[g.ClusterOf(m)];
    assert c in other;
    forall d | d in ch' && 2 <= d
      ensures !g.InCluster(d, b)
    {
      if g.InCluster(d, b) {
        ClustersDisjoint(g, c, d, b);
      }
    }
    ClusterInData(g, |disk|, c);
    var s := SlotBlock(g, |disk|, x, k);
    if x.Clusters? {
      var d := x.ch[g.ClusterOf(k / 16)];
      assert d in x.ch;
      if g.InCluster(d, b) {
        ClustersDisjoint(g, c, d, b);
      }
    }
  }

  /** A directory's own entry, outside the chain of slot `k`, survives an
      operation on that slot. */
  lemma SlotOpKeepsEntry(g: Layout, disk: Disk, disk': Disk, x: Extent, n: nat, k: nat, ch: seq<nat>, ch': seq<nat>,
                         dirty: bool, first: nat, size: nat, b: nat, i: nat, attributes: byte)
    requires DirExtent(g, disk, x, n) && x.Clusters? && SlotOp(g, disk, disk', x, n, k, ch, ch')
    requires forall c | c in ch :: g.IsCluster(c)
    requires EntryOk(g, disk, false, x.ch, dirty, first, size, b, i, attributes)
    requires EntryBlockSafe(g, |disk|, TableOf(g, disk), ch, b)
    ensures EntryOk(g, disk', false, x.ch, dirty, first, size, b, i, attributes)
    ensures forall other: seq<nat> | EntryBlockSafe(g, |disk|, TableOf(g, disk), other, b) ::
              EntryBlockSafe(g, |disk'|, TableOf(g, disk'), other, b)
    ensures EntryBlockSafe(g, |disk'|, TableOf(g, disk'), ch', b)
  {
    forall c: nat | g.IsCluster(c) && g.InCluster(c, b)
      ensures c !in ch' && TableOf(g, disk')[c] == TableOf(g, disk)[c] != 0
    {
      NotMine(g, disk, disk', x, n, k, ch, ch', c);
    }
    assert !InExtent(g, ch', b);
    assert SlotBlock(g, |disk|, x, k) == FileBlock(g, |disk|, x, k / 16);
    assert x.ch[g.ClusterOf(k / 16)] in x.ch;
  }

  // ---- creating an entry ----

  /** The slot a new entry goes to: the first one not in use. */
  ghost predicate FirstUnused(data: seq<byte>, k: nat) {
    k < |data| / 32 && !IsLive(Slot(data, k)) && forall j | 0 <= j < k :: IsLive(Slot(data, j))
  }

  ghost predicate NameMissing(data: seq<byte>, name: seq<byte>) {
    forall k: nat :: !HoldsName(data, name, k)
  }

  lemma NamesAdded(data: seq<byte>, data': seq<byte>, k: nat, e: Entry)
    requires |data'| == |data| && NamesUnique(data) && FreeTail(data) && FirstUnused(data, k)
    requires NameMissing(data, Name(e)) && IsLive(e)
    requires Slot(data', k) == e && forall j | 0 <= j < |data| / 32 && j != k :: Slot(data', j) == Slot(data, j)
    ensures NamesUnique(data') && FreeTail(data')
  {
    forall j | 0 <= j < |data| / 32 && j != k && IsLive(Slot(data, j))
      ensures Name(Slot(data, j)) != Name(e)
    {
      assert !HoldsName(data, Name(e), j);
      assert Visible(data, j);
    }
  }

  /** Writing a new, empty file's entry into the first unused slot keeps the
      directory sound, and the name then is found there. */
  lemma CreateKeepsDir(g: Layout, disk: Disk, disk': Disk, x: Extent, n: nat, chains: seq<seq<nat>>, open: set<nat>,
                       k: nat, name: seq<byte>)
    requires DirSound(g, disk, x, n, chains, open)
    requires FirstUnused(Contents(g, disk, x, n), k) && NameMissing(Contents(g, disk, x, n), name)
    requires |name| == 11 && name[0] != DIR_NAME_FREE && name[0] != DIR_NAME_DELETED
    requires k / 16 < NumBlocks(g, x)
    requires var b := SlotBlock(g, |disk|, x, k);
             disk' == disk[b := WithEntryAt(disk[b], k % 16, NewEntry(name))]
    ensures DirSound(g, disk', x, n, chains, open) && chains[k] == []
    ensures Slot(Contents(g, disk', x, n), k) == NewEntry(name)
    ensures HoldsName(Contents(g, disk', x, n), name, k)
    ensures Backed(g, disk', SlotBlock(g, |disk'|, x, k), k % 16, [])
  {
    hide Contents, SlotsBacked, DirExtent, NamesUnique, FreeTail, FirstUnused, NameMissing, SlotOp, Backed, Slot,
         EntryAt, NewEntry, WithEntryAt, IsLive, IsOwner, HoldsName, FileBlock, NumBlocks, Sound;
    var data, data' := Contents(g, disk, x, n), Contents(g, disk', x, n);
    UnusedSlot(g, disk, x, n, chains, open, k);
    CreateIsSlotOp(g, disk, disk', x, n, k, name);
    CreateBacked(g, disk, disk', x, n, k, name);
    SlotInBlock(g, disk', x, n, k);
    NewIsLive(name);
    forall j | 0 <= j < n / 32 && j != k
      ensures Slot(data', j) == Slot(data, j)
    {
      OtherSlotBacked(g, disk, disk', x, n, chains, open, k, [], j);
    }
    NamesAdded(data, data', k, NewEntry(name));
    NilIsChain(TableOf(g, disk'), g.EocMin());
    OpKeepsBacked(g, disk, disk', x, n, chains, open, k, [], open);
    assert chains[k := []] == chains;
    NewIsHeld(data, data', k, NewEntry(name));
  }

  lemma UnusedSlot(g: Layout, disk: Disk, x: Extent, n: nat, chains: seq<seq<nat>>, open: set<nat>, k: nat)
    requires DirExtent(g, disk, x, n) && SlotsBacked(g, disk, x, n, chains, open)
    requires FirstUnused(Contents(g, disk, x, n), k)
    ensures k < n / 32 && 32 * k + 32 <= n && chains[k] == [] && k !in open
  {
  }

  lemma NewIsLive(name: seq<byte>)
    requires |name| == 11 && name[0] != DIR_NAME_FREE && name[0] != DIR_NAME_DELETED
    ensures IsLive(NewEntry(name)) && IsOwner(NewEntry(name))
  {
    assert Name(NewEntry(name))[0] == name[0];
  }

  lemma NewIsHeld(data: seq<byte>, data': seq<byte>, k: nat, e: Entry)
    requires FirstUnused(data, k) && |data'| == |data| && Slot(data', k) == e && IsLive(e)
    requires forall j | 0 <= j < |data| / 32 && j != k :: Slot(data', j) == Slot(data, j)
    ensures HoldsName(data', Name(e), k)
  {
  }

  lemma CreateIsSlotOp(g: Layout, disk: Disk, disk': Disk, x: Extent, n: nat, k: nat, name: seq<byte>)
    requires DirExtent(g, disk, x, n) && |name| == 11 && 32 * k + 32 <= n && k / 16 < NumBlocks(g, x)
    requires var b := SlotBlock(g, |disk|, x, k);
             disk' == disk[b := WithEntryAt(disk[b], k % 16, NewEntry(name))]
    ensures SlotOp(g, disk, disk', x, n, k, [], []) && DirExtent(g, disk', x, n)
  {
    hide NewEntry, EntryAt, WithEntryAt, FileBlock, IsChain, NumBlocks;
    TableFramed(g, disk, disk');
  }

  lemma CreateBacked(g: Layout, disk: Disk, disk': Disk, x: Extent, n: nat, k: nat, name: seq<byte>)
    requires DirExtent(g, disk, x, n) && |name| == 11 && k / 16 < NumBlocks(g, x)
    requires var b := SlotBlock(g, |disk|, x, k);
             disk' == disk[b := WithEntryAt(disk[b], k % 16, NewEntry(name))]
    ensures Backed(g, disk', SlotBlock(g, |disk'|, x, k), k % 16, [])
  {
    hide NewEntry, WithEntryAt, DirExtent, EntryBlockSafe;
    TableFramed(g, disk, disk');
    DirBlockSafe(g, disk, x, n, k / 16, []);
  }

  // ---- growing a directory ----

  /** What adding the zeroed cluster `c` to a directory did: extent `x` of `n`
      bytes became `x'` of `n'`. */
  ghost predicate DirGrew(g: Layout, disk: Disk, disk': Disk, x: Extent, n: nat, c: nat, x': Extent, n': nat)
    ensures DirGrew(g, disk, disk', x, n, c, x', n') ==> DirExtent(g, disk, x, n) && DirExtent(g, disk', x', n')
    ensures DirGrew(g, disk, disk', x, n, c, x', n') ==> n <= n'
  {
    && x.Clusters?
    && x' == Clusters(x.ch + [c])
    && n' == n + g.ClusterBytes()
    && DirExtent(g, disk, x, n)
    && DirExtent(g, disk', x', n')
    && Grew(g, TableOf(g, disk), disk, x.ch, TableOf(g, disk'), disk', x'.ch)
    && SlotsExtend(Contents(g, disk, x, n), Contents(g, disk', x', n'))
  }

  /** Slots of `data` followed by free ones. */
  ghost predicate SlotsExtend(data: seq<byte>, data': seq<byte>) {
    && |data| <= |data'|
    && (forall k | 0 <= k < |data| / 32 :: Slot(data', k) == Slot(data, k))
    && (forall k | |data| / 32 <= k < |data'| / 32 :: IsFree(Slot(data', k)))
  }

  lemma ZerosExtend(data: seq<byte>, m: nat)
    requires |data| % 32 == 0
    ensures SlotsExtend(data, data + Zeros(m))
  {
    var data' := data + Zeros(m);
    forall k | |data| / 32 <= k < |data'| / 32
      ensures IsFree(Slot(data', k))
    {
      assert data'[32 * k] == 0;
    }
  }

  lemma NamesExtend(data: seq<byte>, data': seq<byte>)
    requires SlotsExtend(data, data') && NamesUnique(data)
    requires forall k | 0 <= k < |data| / 32 :: !IsFree(Slot(data, k))
    ensures NamesUnique(data') && FreeTail(data')
  {
  }

  function NoChains(n: nat): (r: seq<seq<nat>>)
    ensures |r| == n && forall i | 0 <= i < n :: r[i] == []
  {
    seq(n, _ => [])
  }

  /** A chain that was there before the directory grew is unharmed. */
  lemma GrownChainKept(g: Layout, disk: Disk, disk': Disk, x: Extent, n: nat, c: nat, x': Extent, n': nat,
                       other: seq<nat>)
    requires DirGrew(g, disk, disk', x, n, c, x', n')
    requires IsChainOrNil(TableOf(g, disk), g.EocMin(), other) && Apart(other, OwnChain(x))
    ensures IsChainOrNil(TableOf(g, disk'), g.EocMin(), other) && Apart(other, OwnChain(x'))
    ensures forall d | d in other && d < g.TableLength() :: TableOf(g, disk')[d] == TableOf(g, disk)[d]
  {
    hide Contents, SlotsExtend;
    var fat, fat' := TableOf(g, disk), TableOf(g, disk');
    forall d | d in other
      ensures d != c && d !in x.ch && d < |fat| && fat'[d] == fat[d]
    {
      ChainInUse(fat, g.EocMin(), other, d);
    }
    if other != [] {
      ChainFramed(fat, fat', g.EocMin(), other);
    }
  }

  /** An old slot has its entry where it was. */
  lemma GrownSlotPlace(g: Layout, disk: Disk, disk': Disk, x: Extent, n: nat, c: nat, x': Extent, n': nat, j: nat)
    requires DirGrew(g, disk, disk', x, n, c, x', n') && j < n / 32
    ensures |disk'| == |disk| && j / 16 < NumBlocks(g, x) && j / 16 < NumBlocks(g, x')
    ensures SlotBlock(g, |disk'|, x', j) == SlotBlock(g, |disk|, x, j)
    ensures var b := SlotBlock(g, |disk|, x, j); EntryAt(disk'[b], j % 16) == EntryAt(disk[b], j % 16)
  {
    hide Contents, FileBlock, EntryAt, DirExtent, OnlyMineChanged;
    SlotInBlock(g, disk, x, n, j);
    SlotInBlock(g, disk', x', n', j);
    FileBlockExtended(g, |disk|, x.ch, x'.ch, j / 16);
  }

  lemma GrownSlotBacked(g: Layout, disk: Disk, disk': Disk, x: Extent, n: nat, c: nat, x': Extent, n': nat,
                        chains: seq<seq<nat>>, open: set<nat>, j: nat)
    requires DirGrew(g, disk, disk', x, n, c, x', n') && SlotsBacked(g, disk, x, n, chains, open) && j < n / 32
    requires IsOwner(Slot(Contents(g, disk, x, n), j)) && j !in open
    ensures |disk'| == |disk| && j / 16 < NumBlocks(g, x')
    ensures Backed(g, disk', SlotBlock(g, |disk'|, x', j), j % 16, chains[j])
  {
    hide Contents, DirExtent, DirGrew, Backed, EntryAt, FileBlock, NumBlocks, Sound;
    GrownChainKept(g, disk, disk', x, n, c, x', n', chains[j]);
    GrownSlotPlace(g, disk, disk', x, n, c, x', n', j);
    DirBlockSafe(g, disk', x', n', j / 16, []);
    BackedFramed(g, disk, disk', SlotBlock(g, |disk|, x, j), j % 16, chains[j]);
  }

  lemma GrownBacked(g: Layout, disk: Disk, disk': Disk, x: Extent, n: nat, c: nat, x': Extent, n': nat,
                    chains: seq<seq<nat>>, open: set<nat>)
    requires DirGrew(g, disk, disk', x, n, c, x', n') && SlotsBacked(g, disk, x, n, chains, open)
    ensures SlotsBacked(g, disk', x', n', chains + NoChains(n' / 32 - n / 32), open)
  {
    hide Backed, IsChainOrNil, Contents, DirExtent, Grew, Slot, NumBlocks, Sound;
    forall j | 0 <= j < n / 32
      ensures IsChainOrNil(TableOf(g, disk'), g.EocMin(), chains[j]) && Apart(chains[j], OwnChain(x'))
    {
      GrownChainKept(g, disk, disk', x, n, c, x', n', chains[j]);
    }
    forall j | 0 <= j < n / 32 && IsOwner(Slot(Contents(g, disk, x, n), j)) && j !in open
      ensures |disk'| == |disk| && j / 16 < NumBlocks(g, x')
      ensures Backed(g, disk', SlotBlock(g, |disk'|, x', j), j % 16, chains[j])
    {
      GrownSlotBacked(g, disk, disk', x, n, c, x', n', chains, open, j);
    }
    NilIsChain(TableOf(g, disk'), g.EocMin());
  }

  lemma NilIsChain(fat: Table, eoc: nat)
    ensures IsChainOrNil(fat, eoc, [])
  {
  }

  /** A directory without free slots stays sound when a zeroed cluster is added;
      the new slots are free. */
  lemma GrowKeepsDir(g: Layout, disk: Disk, disk': Disk, x: Extent, n: nat, c: nat, x': Extent, n': nat,
                     chains: seq<seq<nat>>, open: set<nat>)
    requires DirGrew(g, disk, disk', x, n, c, x', n') && DirSound(g, disk, x, n, chains, open)
    requires forall k | 0 <= k < n / 32 :: !IsFree(Slot(Contents(g, disk, x, n), k))
    ensures DirSound(g, disk', x', n', chains + NoChains(n' / 32 - n / 32), open)
  {
    hide Contents, Grew, DirExtent, SlotsBacked, NamesUnique, FreeTail, SlotsExtend, NumBlocks, Sound;
    NamesExtend(Contents(g, disk, x, n), Contents(g, disk', x', n'));
    GrownBacked(g, disk, disk', x, n, c, x', n', chains, open);
  }

  /** The first free slot of a directory that has just grown. */
  lemma GrownFirstUnused(data: seq<byte>, data': seq<byte>, name: seq<byte>)
    requires SlotsExtend(data, data') && |data| / 32 < |data'| / 32
    requires forall j | 0 <= j < |data| / 32 :: IsLive(Slot(data, j))
    requires NameMissing(data, name)
    ensures FirstUnused(data', |data| / 32) && NameMissing(data', name)
  {
    forall k: nat
      ensures !HoldsName(data', name, k)
    {
      if k < |data| / 32 && HoldsName(data', name, k) {
        assert forall j | 0 <= j < k :: Slot(data, j) == Slot(data', j);
        assert HoldsName(data, name, k);
      }
    }
  }

  /** Outside the tables only blocks of the directory changed. */
  ghost predicate OnlyDirChanged(g: Layout, disk: Disk, disk': Disk, x: Extent) {
    && |disk'| == |disk|
    && forall b | 0 <= b < |disk| && !g.InTables(b) && !(x.RootDir? && g.InRootDir(b)) && !InExtent(g, OwnChain(x),
                                                                                                    b) ::
         disk'[b] == disk[b]
  }

  lemma CreateOnlyDir(g: Layout, disk: Disk, disk': Disk, x: Extent, k: nat)
    requires g.Valid(|disk|) && Sound(g, x) && k / 16 < NumBlocks(g, x)
    requires SameExcept(disk, disk', SlotBlock(g, |disk|, x, k))
    ensures OnlyDirChanged(g, disk, disk', x)
  {
    if x.Clusters? {
      assert x.ch[g.ClusterOf(k / 16)] in x.ch;
    }
  }

  /** The bytes of every file apart from the directory stay. */
  lemma ChainDataKept(g: Layout, disk: Disk, disk': Disk, x: Extent, ch: seq<nat>, m: nat)
    requires g.Valid(|disk|) && Sound(g, x) && OnlyDirChanged(g, disk, disk', x)
    requires Sound(g, Clusters(ch)) && Apart(ch, OwnChain(x)) && m <= 512 * g.BlocksOf(|ch|)
    ensures Contents(g, disk', Clusters(ch), m) == Contents(g, disk, Clusters(ch), m)
  {
    forall k | 0 <= k < g.BlocksOf(|ch|)
      ensures disk'[FileBlock(g, |disk|, Clusters(ch), k)] == disk[FileBlock(g, |disk|, Clusters(ch), k)]
    {
      var b, c := FileBlock(g, |disk|, Clusters(ch), k), ch[g.ClusterOf(k)];
      assert c in ch;
      ClusterInData(g, |disk|, c);
      forall d | d in OwnChain(x) && 2 <= d && g.InCluster(d, b)
        ensures false
      {
        ClustersDisjoint(g, c, d, b);
      }
    }
    ContentsFramed(g, disk, disk', Clusters(ch), m);
  }
}
