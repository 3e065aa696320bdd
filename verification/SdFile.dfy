/** An open file or directory: a cursor into a cluster chain that makes read,
    write, seek and truncate act on one flat sequence of bytes. */
module Files {
  import opened Bytes
  import opened Geometry
  import opened Chains
  import opened TableBlocks
  import opened FileBytes
  import opened DirEntry
  import opened SdCard
  import opened Volume
  import opened CacheFate

  datatype FileType = Closed | Normal | Root16 | Root32 | SubDir

  datatype Flags = Flags(read: bool, write: bool, append: bool, sync: bool, dirDirty: bool, unbuffered: bool)

  /** The flags of `open`. */
  datatype OpenFlags = OpenFlags(read: bool, write: bool, append: bool, sync: bool, creat: bool, excl: bool,
                                 trunc: bool)

  /** Clusters needed for `n` bytes. */
  function Needed(g: Layout, n: nat): nat {
    if n == 0 then 0 else g.ClusterOf((n - 1) / 512) + 1
  }

  /** The block that holds a file's directory entry is neither a table block
      nor in a free cluster nor in the file's own chain. */
  ghost predicate EntryBlockSafe(g: Layout, size: nat, fat: Table, ch: seq<nat>, b: nat) {
    && b < size
    && !g.InTables(b)
    && |fat| == g.TableLength()
    && forall c: nat | g.IsCluster(c) && g.InCluster(c, b) :: fat[c] != 0 && c !in ch
  }

  /** Blocks outside the tables and outside the chain `ch` are the same. */
  ghost predicate OthersUntouched(g: Layout, disk: Disk, disk': Disk, ch: seq<nat>) {
    && |disk'| == |disk|
    && forall b | 0 <= b < |disk| && !g.InTables(b) && !InExtent(g, ch, b) :: disk'[b] == disk[b]
  }

  /** A file's chain is the table's, and long enough for its `n` bytes. */
  ghost predicate ChainOk(g: Layout, disk: Disk, root: bool, ch: seq<nat>, first: nat, n: nat)
    ensures ChainOk(g, disk, root, ch, first, n) ==> g.Valid(|disk|)
  {
    var x := if root then RootDir else Clusters(ch);
    && g.Valid(|disk|)
    && Sound(g, x)
    && n <= 512 * NumBlocks(g, x)
    && n < TWO32
    && (ch == [] <==> first == 0)
    && (root ==> ch == [])
    && (ch != [] ==> IsChain(TableOf(g, disk), g.EocMin(), ch) && ch[0] == first)
  }

  /** The directory entry on disk gives the first cluster and, for a file, the
      size, unless it is marked for update. (A directory that is about to be
      removed is handled as a file, but its entry has no size.) */
  ghost predicate EntryOk(g: Layout, disk: Disk, normal: bool, ch: seq<nat>, dirty: bool, first: nat, n: nat,
                          b: nat, i: nat, attributes: byte)
  {
    && g.Valid(|disk|)
    && EntryBlockSafe(g, |disk|, TableOf(g, disk), ch, b)
    && i < 16
    && var e := EntryAt(disk[b], i);
       && Attributes(e) == attributes
       && (!dirty ==> FirstCluster(e) == first)
       && (!dirty && normal && IsFileAttribute(attributes) ==> FileSize(e) == n)
  }

  /** A file grew from chain `ch` to `ch'`: its clusters stay, the new ones
      were free, and nothing of anybody else changed. */
  ghost predicate Grew(g: Layout, fat: Table, disk: Disk, ch: seq<nat>, fat': Table, disk': Disk, ch': seq<nat>) {
    ch <= ch' && OnlyMineChanged(fat, fat', ch, ch') && OthersUntouched(g, disk, disk', ch')
  }

  lemma GrewNot(g: Layout, fat: Table, disk: Disk, ch: seq<nat>)
    ensures Grew(g, fat, disk, ch, fat, disk, ch)
  {
  }

  lemma GrewTrans(g: Layout, fat0: Table, disk0: Disk, ch0: seq<nat>, fat1: Table, disk1: Disk, ch1: seq<nat>,
                  fat2: Table, disk2: Disk, ch2: seq<nat>)
    requires Grew(g, fat0, disk0, ch0, fat1, disk1, ch1) && Grew(g, fat1, disk1, ch1, fat2, disk2, ch2)
    ensures Grew(g, fat0, disk0, ch0, fat2, disk2, ch2)
  {
    assert forall c | c in ch1 :: c in ch2;
    forall b | 0 <= b < |disk0| && !g.InTables(b) && !InExtent(g, ch2, b)
      ensures disk2[b] == disk0[b]
    {
      assert !InExtent(g, ch1, b);
    }
  }

  /** Storing in a block of the file. */
  lemma GrewStore(g: Layout, fat: Table, disk: Disk, disk': Disk, ch: seq<nat>, k: nat)
    requires g.Valid(|disk|) && Sound(g, Clusters(ch)) && k < g.BlocksOf(|ch|)
    requires SameExcept(disk, disk', FileBlock(g, |disk|, Clusters(ch), k))
    ensures Grew(g, fat, disk, ch, fat, disk', ch)
  {
    assert InExtent(g, ch, FileBlock(g, |disk|, Clusters(ch), k)) by {
      SplitBound(g, k, |ch|);
      assert ch[g.ClusterOf(k)] in ch;
    }
  }

  /** Taking one free cluster. */
  lemma GrewAlloc(g: Layout, fat: Table, disk: Disk, ch: seq<nat>, disk': Disk, c: nat, mark: nat)
    requires |fat| <= g.EocMin() && mark >= g.EocMin()
    requires IsChainOrNil(fat, g.EocMin(), ch) && FreeRun(fat, c, 1)
    requires SameOutsideTables(g, disk, disk')
    ensures var tail := if ch == [] then 0 else ch[|ch| - 1];
            var fat' := Linked(fat, tail, c, 1, mark);
            && Grew(g, fat, disk, ch, fat', disk', ch + [c])
            && IsChain(fat', g.EocMin(), ch + [c])
            && (forall d | 0 <= d < |fat| && fat[d] != 0 :: fat'[d] != 0)
  {
    assert Consecutive(c, 1) == [c];
    LinkExtends(fat, g.EocMin(), ch, c, 1, mark);
    assert fat[c] == 0;
  }

  /** A file that took one free cluster is still in order. */
  lemma AllocKeepsFile(g: Layout, disk: Disk, disk': Disk, ch: seq<nat>, first: nat, n: nat, c: nat, mark: nat)
    requires ChainOk(g, disk, false, ch, first, n) && |disk'| == |disk|
    requires mark >= g.EocMin() && FreeRun(TableOf(g, disk), c, 1)
    requires TableOf(g, disk') == Linked(TableOf(g, disk), if ch == [] then 0 else ch[|ch| - 1], c, 1, mark)
    requires SameOutsideTables(g, disk, disk')
    ensures ChainOk(g, disk', false, ch + [c], if ch == [] then c else first, n)
    ensures Grew(g, TableOf(g, disk), disk, ch, TableOf(g, disk'), disk', ch + [c])
  {
    hide Linked, Grew, FreeRun, SameOutsideTables;
    GrewAlloc(g, TableOf(g, disk), disk, ch, disk', c, mark);
    ChainSound(g, disk', ch + [c]);
    BlocksOfMonotone(g, |ch|, |ch| + 1);
  }

  lemma AllocKeepsEntry(g: Layout, disk: Disk, disk': Disk, normal: bool, ch: seq<nat>, dirty: bool, first: nat, n: nat,
                        b: nat, i: nat, attributes: byte, c: nat, mark: nat)
    requires EntryOk(g, disk, normal, ch, dirty, first, n, b, i, attributes) && |disk'| == |disk|
    requires mark >= g.EocMin() && FreeRun(TableOf(g, disk), c, 1)
    requires TableOf(g, disk') == Linked(TableOf(g, disk), if ch == [] then 0 else ch[|ch| - 1], c, 1, mark)
    requires SameOutsideTables(g, disk, disk')
    ensures EntryOk(g, disk', normal, ch + [c], ch == [] || dirty, if ch == [] then c else first, n, b, i, attributes)
  {
    assert TableOf(g, disk)[c] == 0;
  }

  /** A file without clusters that was given a run of them. */
  lemma RunKeepsFile(g: Layout, disk: Disk, disk': Disk, c: nat, count: nat, mark: nat, size: nat)
    requires g.Valid(|disk|) && |disk'| == |disk| && 0 < size < TWO32 && count == Needed(g, size)
    requires mark >= g.EocMin() && FreeRun(TableOf(g, disk), c, count)
    requires TableOf(g, disk') == Linked(TableOf(g, disk), 0, c, count, mark) && SameOutsideTables(g, disk, disk')
    ensures ChainOk(g, disk', false, Consecutive(c, count), c, size)
    ensures Grew(g, TableOf(g, disk), disk, [], TableOf(g, disk'), disk', Consecutive(c, count))
  {
    var run := Consecutive(c, count);
    LinkExtends(TableOf(g, disk), g.EocMin(), [], c, count, mark);
    assert [] + run == run;
    ChainSound(g, disk', run);
    SplitBound(g, (size - 1) / 512, count);
    RunGrew(g, TableOf(g, disk), disk, disk', c, count, mark);
  }

  /** A file without clusters is in order whatever other entries become used. */
  lemma StillInOrder(g: Layout, disk: Disk, disk': Disk, dirty: bool, first: nat, n: nat, b: nat, i: nat,
                     attributes: byte)
    requires ChainOk(g, disk, false, [], first, n) && EntryOk(g, disk, true, [], dirty, first, n, b, i, attributes)
    requires SameOutsideTables(g, disk, disk') && StillUsed(TableOf(g, disk), TableOf(g, disk'))
    ensures ChainOk(g, disk', false, [], first, n) && EntryOk(g, disk', true, [], dirty, first, n, b, i, attributes)
  {
  }

  lemma RunGrew(g: Layout, fat: Table, disk: Disk, disk': Disk, c: nat, count: nat, mark: nat)
    requires FreeRun(fat, c, count) && SameOutsideTables(g, disk, disk')
    ensures Grew(g, fat, disk, [], Linked(fat, 0, c, count, mark), disk', Consecutive(c, count))
  {
    var run := Consecutive(c, count);
    forall d | c <= d < c + count
      ensures d in run
    {
      assert run[d - c] == d;
    }
  }

  lemma RunKeepsEntry(g: Layout, disk: Disk, disk': Disk, dirty: bool, first: nat, n: nat,
                      b: nat, i: nat, attributes: byte, c: nat, count: nat, mark: nat, size: nat)
    requires EntryOk(g, disk, true, [], dirty, first, n, b, i, attributes) && |disk'| == |disk|
    requires mark >= g.EocMin() && FreeRun(TableOf(g, disk), c, count)
    requires TableOf(g, disk') == Linked(TableOf(g, disk), 0, c, count, mark) && SameOutsideTables(g, disk, disk')
    ensures EntryOk(g, disk', true, Consecutive(c, count), true, c, size, b, i, attributes)
  {
  }

  /** How chain length and flags may change while a file of `size` bytes is
      written up to `pos`: clusters only as needed, and a mark for update only
      when it grows. */
  ghost predicate Growth(g: Layout, n: nat, flags: Flags, n': nat, flags': Flags, size: nat, pos: nat) {
    && (n' == n || (n' == Needed(g, pos) && size < pos))
    && (flags' == flags || (flags' == flags.(dirDirty := true) && size < pos))
  }

  lemma GrowthNone(g: Layout, n: nat, flags: Flags, size: nat, pos: nat)
    ensures Growth(g, n, flags, n, flags, size, pos)
  {
  }

  lemma GrowthTrans(g: Layout, n0: nat, f0: Flags, n1: nat, f1: Flags, p1: nat, n2: nat, f2: Flags, p2: nat, size: nat)
    requires Growth(g, n0, f0, n1, f1, size, p1) && Growth(g, n1, f1, n2, f2, size, p2) && p1 <= p2
    requires Needed(g, p1) == n1 ==> Needed(g, p2) == n2
    ensures Growth(g, n0, f0, n2, f2, size, p2)
  {
  }

  /** Storing in one block of its own keeps the file in order. */
  lemma StoreKeepsFile(g: Layout, disk: Disk, disk': Disk, ch: seq<nat>, first: nat, n: nat, k: nat)
    requires ChainOk(g, disk, false, ch, first, n) && k < g.BlocksOf(|ch|)
    requires SameExcept(disk, disk', FileBlock(g, |disk|, Clusters(ch), k))
    ensures ChainOk(g, disk', false, ch, first, n)
    ensures Grew(g, TableOf(g, disk), disk, ch, TableOf(g, disk'), disk', ch)
  {
    TableFramed(g, disk, disk');
    GrewStore(g, TableOf(g, disk), disk, disk', ch, k);
  }

  lemma StoreKeepsEntry(g: Layout, disk: Disk, disk': Disk, normal: bool, ch: seq<nat>, dirty: bool, first: nat, n: nat,
                        b: nat, i: nat, attributes: byte, k: nat)
    requires EntryOk(g, disk, normal, ch, dirty, first, n, b, i, attributes) && Sound(g, Clusters(ch))
    requires k < g.BlocksOf(|ch|)
    requires SameExcept(disk, disk', FileBlock(g, |disk|, Clusters(ch), k))
    ensures EntryOk(g, disk', normal, ch, dirty, first, n, b, i, attributes)
  {
    TableFramed(g, disk, disk');
    SplitBound(g, k, |ch|);
    assert ch[g.ClusterOf(k)] in ch;
  }

  /** Rewriting a file's directory entry leaves the file's chain and bytes. */
  lemma EntryWriteKeepsFile(g: Layout, disk: Disk, disk': Disk, ch: seq<nat>, first: nat, n: nat, b: nat)
    requires ChainOk(g, disk, false, ch, first, n) && EntryBlockSafe(g, |disk|, TableOf(g, disk), ch, b)
    requires SameExcept(disk, disk', b)
    ensures TableOf(g, disk') == TableOf(g, disk)
    ensures ChainOk(g, disk', false, ch, first, n)
    ensures Contents(g, disk', Clusters(ch), n) == Contents(g, disk, Clusters(ch), n)
  {
    TableFramed(g, disk, disk');
    forall k | 0 <= k < g.BlocksOf(|ch|)
      ensures FileBlock(g, |disk|, Clusters(ch), k) != b
    {
      assert ch[g.ClusterOf(k)] in ch by {
        SplitBound(g, k, |ch|);
      }
    }
    ContentsFramed(g, disk, disk', Clusters(ch), n);
  }

  /** What `sync` makes of the block with the file's directory entry. */
  function SyncedBlock(blk: Block, i: nat, first: nat, n: nat, normal: bool): Block
    requires i < 16 && first < TWO32 && n < TWO32
  {
    WithEntryAt(blk, i, WithPlace(EntryAt(blk, i), first, n, normal))
  }

  lemma SyncedEntry(g: Layout, disk: Disk, normal: bool, ch: seq<nat>, dirty: bool, first: nat, n: nat,
                    first': nat, n': nat, b: nat, i: nat, attributes: byte)
    requires EntryOk(g, disk, normal, ch, dirty, first, n, b, i, attributes) && first' < TWO32 && n' < TWO32
    ensures EntryOk(g, disk[b := SyncedBlock(disk[b], i, first', n', normal)], normal, ch, false, first', n',
                    b, i, attributes)
  {
    var e := EntryAt(disk[b], i);
    var e' := WithPlace(e, first', n', normal);
    assert e'[..20][11] == e[..20][11];
    TableFramed(g, disk, disk[b := SyncedBlock(disk[b], i, first', n', normal)]);
  }

  /** The table after a file's chain was cut to its first `k` clusters. */
  ghost function CutTable(g: Layout, fat: Table, ch: seq<nat>, k: nat): Table
    requires k <= |ch| && forall i | 0 <= i < |ch| :: ch[i] < |fat|
  {
    if k == |ch| then fat
    else if k == 0 then Freed(fat, ch)
    else Freed(fat, ch[k..])[ch[k - 1] := Stored(g, FAT_EOC)]
  }

  /** Cutting keeps the first `k` clusters as the file's chain, changes nobody
      else's, and frees exactly the others. */
  lemma CutKeepsFile(g: Layout, disk: Disk, disk': Disk, ch: seq<nat>, first: nat, n: nat, k: nat, m: nat)
    requires ChainOk(g, disk, false, ch, first, n) && ch != [] && |disk'| == |disk|
    requires m <= n && k == Needed(g, m)
    requires SameOutsideTables(g, disk, disk')
    requires k <= |ch| && TableOf(g, disk') == CutTable(g, TableOf(g, disk), ch, k)
    ensures ChainOk(g, disk', false, ch[..k], if k == 0 then 0 else first, m)
    ensures OnlyMineChanged(TableOf(g, disk), TableOf(g, disk'), ch, ch[..k])
    ensures Contents(g, disk', Clusters(ch[..k]), m) == Contents(g, disk, Clusters(ch), n)[..m]
  {
    StoredValues(g, |disk|, 0);
    if 0 < k < |ch| {
      CutChain(TableOf(g, disk), g.EocMin(), ch, k, Stored(g, FAT_EOC));
    }
    if m > 0 {
      SplitBound(g, (m - 1) / 512, k);
    }
    CutContents(g, disk, disk', ch, k, n, m);
  }

  lemma CutContents(g: Layout, disk: Disk, disk': Disk, ch: seq<nat>, k: nat, n: nat, m: nat)
    requires g.Valid(|disk|) && SameOutsideTables(g, disk, disk') && Sound(g, Clusters(ch)) && k <= |ch|
    requires m <= n <= 512 * g.BlocksOf(|ch|) && m <= 512 * g.BlocksOf(k)
    ensures Sound(g, Clusters(ch[..k]))
    ensures Contents(g, disk', Clusters(ch[..k]), m) == Contents(g, disk, Clusters(ch), n)[..m]
  {
    ContentsOutsideTables(g, disk, disk', Clusters(ch[..k]), m);
    ContentsExtended(g, disk, ch[..k], ch, m);
  }

  lemma CutConserves(g: Layout, size: nat, fat: Table, ch: seq<nat>, k: nat)
    requires g.Valid(size) && |fat| == g.TableLength() && IsChain(fat, g.EocMin(), ch) && k <= |ch|
    ensures |FreeClusters(CutTable(g, fat, ch, k))| == |FreeClusters(fat)| + |ch| - k
  {
    if k == 0 {
      FreedConserves(fat, g.EocMin(), ch);
    } else if k < |ch| {
      ChainSuffix(fat, g.EocMin(), ch, k);
      FreedConserves(fat, g.EocMin(), ch[k..]);
      ChainInUse(fat, g.EocMin(), ch, ch[k - 1]);
      StoredValues(g, size, 0);
      assert ch[k - 1] !in ch[k..];
      assert FreeClusters(CutTable(g, fat, ch, k)) == FreeClusters(Freed(fat, ch[k..]));
    }
  }

  lemma CutKeepsEntry(g: Layout, disk: Disk, disk': Disk, normal: bool, ch: seq<nat>, dirty: bool, first: nat, n: nat,
                      b: nat, i: nat, attributes: byte, k: nat, first': nat, n': nat)
    requires EntryOk(g, disk, normal, ch, dirty, first, n, b, i, attributes)
    requires SameOutsideTables(g, disk, disk') && k <= |ch|
    requires forall i | 0 <= i < |ch| :: ch[i] < g.TableLength()
    requires TableOf(g, disk') == CutTable(g, TableOf(g, disk), ch, k)
    ensures EntryOk(g, disk', normal, ch[..k], true, first', n', b, i, attributes)
  {
    if 0 < k {
      assert ch[k - 1] in ch;
    }
  }

  /** The `i`-th entry of block `b` describes a stored file or directory with
      the cluster chain `ch`. */
  ghost predicate Backed(g: Layout, disk: Disk, b: nat, i: nat, ch: seq<nat>) {
    && g.Valid(|disk|)
    && i < 16
    && EntryBlockSafe(g, |disk|, TableOf(g, disk), ch, b)
    && var e := EntryAt(disk[b], i);
       && (IsFile(e) ==> ChainOk(g, disk, false, ch, FirstCluster(e), FileSize(e)))
       && (IsSubDir(e) ==> ch != [] && ChainOk(g, disk, false, ch, FirstCluster(e), 512 * g.BlocksOf(|ch|)))
  }

  /** The bytes of a stored file. */
  ghost function StoredData(g: Layout, disk: Disk, b: nat, i: nat, ch: seq<nat>): seq<byte>
    requires Backed(g, disk, b, i, ch) && IsFile(EntryAt(disk[b], i))
    ensures |StoredData(g, disk, b, i, ch)| == FileSize(EntryAt(disk[b], i))
  {
    Contents(g, disk, Clusters(ch), FileSize(EntryAt(disk[b], i)))
  }

  /** A stored file, opened: its chain and its entry are in order. */
  lemma BackedOpens(g: Layout, disk: Disk, b: nat, i: nat, ch: seq<nat>, size: nat)
    requires Backed(g, disk, b, i, ch)
    requires var e := EntryAt(disk[b], i);
             (IsFile(e) && size == FileSize(e)) || (IsSubDir(e) && size == 512 * g.BlocksOf(|ch|))
    ensures var e := EntryAt(disk[b], i);
            && ChainOk(g, disk, false, ch, FirstCluster(e), size)
            && EntryOk(g, disk, IsFile(e), ch, false, FirstCluster(e), size, b, i, Attributes(e))
  {
  }

  /** In a directory block only the size and first cluster fields of entry `i`
      may have changed. */
  ghost predicate OnlyPlaceChanged(blk: Block, blk': Block, i: nat) {
    && i < 16
    && (forall j | 0 <= j < 16 && j != i :: EntryAt(blk', j) == EntryAt(blk, j))
    && EntryAt(blk', i)[..20] == EntryAt(blk, i)[..20]
    && EntryAt(blk', i)[22..26] == EntryAt(blk, i)[22..26]
  }

  lemma SyncedOnlyPlace(blk: Block, i: nat, first: nat, n: nat, normal: bool)
    requires i < 16 && first < TWO32 && n < TWO32
    ensures OnlyPlaceChanged(blk, SyncedBlock(blk, i, first, n, normal), i)
  {
  }

  lemma SamePlace(blk: Block, i: nat)
    requires i < 16
    ensures OnlyPlaceChanged(blk, blk, i)
  {
  }

  /** A file grew from chain `ch` to `ch'`. Outside the tables only its own
      blocks changed and, when it was synchronised, the place fields of its
      directory entry, entry `i` of block `b`. */
  ghost predicate Grown(g: Layout, fat: Table, disk: Disk, ch: seq<nat>, fat': Table, disk': Disk, ch': seq<nat>,
                        synced: bool, b: nat, i: nat) {
    && ch <= ch'
    && OnlyMineChanged(fat, fat', ch, ch')
    && b < |disk| == |disk'|
    && (forall k | 0 <= k < |disk| && !g.InTables(k) && !InExtent(g, ch', k) && !(synced && k == b) ::
          disk'[k] == disk[k])
    && (synced ==> OnlyPlaceChanged(disk[b], disk'[b], i))
  }

  lemma GrewIsGrown(g: Layout, fat: Table, disk: Disk, ch: seq<nat>, fat': Table, mid: Disk, disk': Disk, ch': seq<nat>,
                    synced: bool, b: nat, i: nat)
    requires Grew(g, fat, disk, ch, fat', mid, ch') && b < |disk| && i < 16
    requires !g.InTables(b) && !InExtent(g, ch', b)
    requires SameExcept(mid, disk', b) && OnlyPlaceChanged(mid[b], disk'[b], i)
    requires !synced ==> mid == disk'
    ensures Grown(g, fat, disk, ch, fat', disk', ch', synced, b, i)
  {
  }

  /** A file with chain `ch` was truncated to `length` bytes: the table is cut,
      exactly the clusters cut off became free, and outside the tables only the
      place fields of the directory entry changed. */
  ghost predicate Cut(g: Layout, fat: Table, disk: Disk, ch: seq<nat>, fat': Table, disk': Disk, ch': seq<nat>,
                      length: nat, b: nat, i: nat) {
    var k := Needed(g, length);
    && k <= |ch|
    && ch' == ch[..k]
    && (forall i | 0 <= i < |ch| :: ch[i] < |fat|)
    && fat' == CutTable(g, fat, ch, k)
    && OnlyMineChanged(fat, fat', ch, ch')
    && |FreeClusters(fat')| == |FreeClusters(fat)| + |ch| - k
    && b < |disk| == |disk'|
    && (forall j | 0 <= j < |disk| && !g.InTables(j) && j != b :: disk'[j] == disk[j])
    && OnlyPlaceChanged(disk[b], disk'[b], i)
  }

  lemma CutAndSynced(g: Layout, fat: Table, disk: Disk, ch: seq<nat>, fat': Table, mid: Disk, disk': Disk,
                     ch': seq<nat>, length: nat, b: nat, i: nat)
    requires g.Valid(|disk|) && |fat| == g.TableLength() && IsChain(fat, g.EocMin(), ch)
    requires Needed(g, length) <= |ch| && ch' == ch[..Needed(g, length)]
    requires fat' == CutTable(g, fat, ch, Needed(g, length)) && OnlyMineChanged(fat, fat', ch, ch')
    requires SameOutsideTables(g, disk, mid) && SameExcept(mid, disk', b)
    requires b < |disk| && !g.InTables(b) && OnlyPlaceChanged(mid[b], disk'[b], i)
    ensures Cut(g, fat, disk, ch, fat', disk', ch', length, b, i)
  {
    CutConserves(g, |disk|, fat, ch, Needed(g, length));
  }

  /** A file with chain `ch` and `size` bytes was removed: its entry is deleted,
      other entries and all other blocks outside the tables are as they were,
      and the whole chain is free, provided the file was not empty. */
  ghost predicate Removed(g: Layout, fat: Table, disk: Disk, ch: seq<nat>, fat': Table, disk': Disk, size: nat,
                          b: nat, i: nat) {
    && b < |disk| == |disk'|
    && i < 16
    && IsDeleted(EntryAt(disk'[b], i))
    && EntryAt(disk'[b], i)[0] == 0xE5
    && (forall j | 0 <= j < 16 && j != i :: EntryAt(disk'[b], j) == EntryAt(disk[b], j))
    && (forall j | 0 <= j < |disk| && !g.InTables(j) && j != b :: disk'[j] == disk[j])
    && fat' == (if size == 0 then fat else Freed(fat, ch))
    && (size != 0 ==> |FreeClusters(fat')| == |FreeClusters(fat)| + |ch|)
  }

  lemma CutAndRemoved(g: Layout, fat: Table, disk: Disk, ch: seq<nat>, fat': Table, mid: Disk, disk': Disk,
                      ch': seq<nat>, size: nat, b: nat, i: nat)
    requires if size == 0 then mid == disk && fat' == fat else Cut(g, fat, disk, ch, fat', mid, ch', 0, b, i)
    requires b < |mid| && i < 16 && |disk| == |mid| && (size != 0 ==> ch != [])
    requires disk' == mid[b := Overwrite(mid[b], 32 * i, [DIR_NAME_DELETED])]
    ensures Removed(g, fat, disk, ch, fat', disk', size, b, i)
  {
    var blk, blk' := mid[b], disk'[b];
    assert EntryAt(blk', i)[0] == blk'[32 * i];
    forall j | 0 <= j < 16 && j != i
      ensures EntryAt(blk', j) == EntryAt(blk, j)
    {
      assert forall k | 0 <= k < 512 && k != 32 * i :: blk'[k] == blk[k];
    }
  }

  function Zeros(n: nat): seq<byte> {
    seq(n, _ => 0)
  }

  /** The blocks of cluster `c` from `from` on hold zeros, and no block outside
      the cluster changed. */
  ghost predicate Zeroed(g: Layout, disk: Disk, disk': Disk, c: nat, from: nat)
    requires 2 <= c
  {
    && |disk'| == |disk|
    && (forall b | 0 <= b < |disk| && !g.InCluster(c, b) :: disk'[b] == disk[b])
    && (forall b | 0 <= b < |disk| && g.InCluster(c, b) && from <= b :: disk'[b] == ZeroBlock())
  }

  lemma ZeroedTables(g: Layout, disk: Disk, disk': Disk, c: nat, from: nat)
    requires g.Valid(|disk|) && g.IsCluster(c) && Zeroed(g, disk, disk', c, from)
    ensures SameTables(g, disk, disk') && TableOf(g, disk') == TableOf(g, disk)
  {
    ClusterInData(g, |disk|, c);
    TableFramed(g, disk, disk');
  }

  /** A directory whose new last cluster was zeroed has that many zeros more. */
  lemma ZeroedKeepsFile(g: Layout, disk: Disk, disk': Disk, ch: seq<nat>, first: nat, n: nat)
    requires ChainOk(g, disk, false, ch, first, n) && ch != [] && n == 512 * g.BlocksOf(|ch| - 1)
    requires 2 <= ch[|ch| - 1] && Zeroed(g, disk, disk', ch[|ch| - 1], g.ClusterStartBlock(ch[|ch| - 1]))
    requires n + g.ClusterBytes() < TWO32
    ensures ChainOk(g, disk', false, ch, first, n + g.ClusterBytes())
    ensures Contents(g, disk', Clusters(ch), n + g.ClusterBytes()) ==
              Contents(g, disk, Clusters(ch), n) + Zeros(g.ClusterBytes())
    ensures Grew(g, TableOf(g, disk), disk, ch, TableOf(g, disk'), disk', ch)
  {
    var c, x := ch[|ch| - 1], Clusters(ch);
    ZeroedTables(g, disk, disk', c, g.ClusterStartBlock(c));
    var was, now := Contents(g, disk, x, n) + Zeros(g.ClusterBytes()), Contents(g, disk', x, n + g.ClusterBytes());
    forall i | 0 <= i < n + g.ClusterBytes()
      ensures now[i] == was[i]
    {
      ZeroedByte(g, disk, disk', ch, i);
    }
    assert c in ch;
  }

  lemma ZeroedByte(g: Layout, disk: Disk, disk': Disk, ch: seq<nat>, i: nat)
    requires g.Valid(|disk|) && Sound(g, Clusters(ch)) && ch != [] && i < 512 * g.BlocksOf(|ch|)
    requires 2 <= ch[|ch| - 1] && Zeroed(g, disk, disk', ch[|ch| - 1], g.ClusterStartBlock(ch[|ch| - 1]))
    ensures FileByte(g, disk', Clusters(ch), i) ==
            if i < 512 * g.BlocksOf(|ch| - 1) then FileByte(g, disk, Clusters(ch), i) else 0
  {
    var k, b := i / 512, FileBlock(g, |disk|, Clusters(ch), i / 512);
    SplitBound(g, k, |ch| - 1);
    SplitBound(g, k, |ch|);
    if k < g.BlocksOf(|ch| - 1) && g.InCluster(ch[|ch| - 1], b) {
      ClustersDisjoint(g, ch[g.ClusterOf(k)], ch[|ch| - 1], b);
    }
  }

  lemma ZeroedKeepsEntry(g: Layout, disk: Disk, disk': Disk, ch: seq<nat>, dirty: bool, first: nat, n: nat,
                         b: nat, i: nat, attributes: byte)
    requires EntryOk(g, disk, false, ch, dirty, first, n, b, i, attributes)
    requires ch != [] && g.IsCluster(ch[|ch| - 1])
    requires Zeroed(g, disk, disk', ch[|ch| - 1], g.ClusterStartBlock(ch[|ch| - 1]))
    ensures EntryOk(g, disk', false, ch, dirty, first, n + g.ClusterBytes(), b, i, attributes)
  {
    ZeroedTables(g, disk, disk', ch[|ch| - 1], g.ClusterStartBlock(ch[|ch| - 1]));
    assert ch[|ch| - 1] in ch;
  }

  lemma GrewPrefix(g: Layout, fat: Table, disk: Disk, ch: seq<nat>, fat': Table, disk': Disk, ch': seq<nat>)
    requires Grew(g, fat, disk, ch, fat', disk', ch')
    ensures ch <= ch'
  {
  }

  /** A round that does not finish the write ends at a block boundary. */
  lemma RoundFills(pos: nat, n: nat, left: nat)
    requires n == if left < 512 - pos % 512 then left else 512 - pos % 512
    ensures left > n ==> (pos + n) % 512 == 0
  {
  }

  /** Where a write came from. */
  datatype Origin = Origin(b: Beginning, was: seq<byte>, fat: Table, disk: Disk, flags: Flags)

  class SdFile {
    const vol: SdVolume

    var flags: Flags
    var fileType: FileType
    var curCluster: nat
    var curPosition: nat
    var dirBlock: nat
    var dirIndex: nat
    var fileSize: nat
    var firstCluster: nat

    // The clusters of the file, in order.
    ghost var chain: seq<nat>
    // The attribute byte of its directory entry.
    ghost var attributes: byte

    constructor (vol: SdVolume)
      ensures this.vol == vol && fileType == Closed
    {
      this.vol := vol;
      flags := Flags(false, false, false, false, false, false);
      fileType, chain, attributes := Closed, [], 0;
      curCluster, curPosition, dirBlock, dirIndex, fileSize, firstCluster := 0, 0, 0, 0, 0, 0;
    }

    ghost function Place(): Extent
      reads this`fileType, this`chain
    {
      if fileType == Root16 then RootDir else Clusters(chain)
    }

    ghost predicate ChainValid()
      reads this`fileType, this`chain, this`fileSize, this`firstCluster, vol`disk
      ensures ChainValid() ==> vol.g.Valid(vol.size) && |vol.disk| == vol.size
      ensures ChainValid() ==> Sound(vol.g, Place()) && fileSize <= 512 * NumBlocks(vol.g, Place())
    {
      |vol.disk| == vol.size && ChainOk(vol.g, vol.disk, fileType == Root16, chain, firstCluster, fileSize)
    }

    ghost predicate EntryValid()
      reads this`fileType, this`chain, this`fileSize, this`firstCluster,
            this`flags, this`dirBlock, this`dirIndex, this`attributes, vol`disk
    {
      if fileType == Normal || fileType == SubDir then
        EntryOk(vol.g, vol.disk, fileType == Normal, chain, flags.dirDirty, firstCluster, fileSize,
                dirBlock, dirIndex, attributes)
      else
        !flags.dirDirty && (fileType == Root32 ==> chain != [])
    }

    /** `curCluster` holds the byte before the position. */
    ghost predicate CursorValid()
      reads this`fileType, this`chain, this`curPosition, this`curCluster
    {
      fileType != Root16 ==>
        if curPosition == 0 then curCluster == 0
        else vol.g.ClusterOf((curPosition - 1) / 512) < |chain|
             && curCluster == chain[vol.g.ClusterOf((curPosition - 1) / 512)]
    }

    ghost predicate Open()
      reads this, vol, vol.card, vol.cacheBuffer
      ensures Open() ==> vol.Valid() && vol.g.Valid(vol.size) && |vol.disk| == vol.size
      ensures Open() ==> Sound(vol.g, Place()) && fileSize <= 512 * NumBlocks(vol.g, Place())
    {
      vol.Valid() && fileType != Closed && ChainValid() && EntryValid()
    }

    ghost predicate Valid()
      reads this, vol, vol.card, vol.cacheBuffer
      ensures Valid() ==> vol.Valid() && vol.g.Valid(vol.size) && |vol.disk| == vol.size
      ensures Valid() && fileType != Closed ==> Sound(vol.g, Place()) && fileSize <= 512 * NumBlocks(vol.g, Place())
      ensures Valid() && fileType != Closed ==> curPosition <= fileSize
    {
      vol.Valid() && (fileType != Closed ==> Open() && CursorValid() && curPosition <= fileSize)
    }

    /** The file as a sequence of bytes. */
    ghost function Data(): seq<byte>
      requires vol.g.Valid(vol.size) && |vol.disk| == vol.size
      requires Sound(vol.g, Place()) && fileSize <= 512 * NumBlocks(vol.g, Place())
      reads this`fileType, this`chain, this`fileSize, vol`disk
      ensures |Data()| == fileSize
    {
      Contents(vol.g, vol.disk, Place(), fileSize)
    }

    // ---- seeking ----

    method Rewind()
      requires Open()
      modifies this`curPosition, this`curCluster
      ensures Valid() && curPosition == 0
    {
      curPosition, curCluster := 0, 0;
    }

    /** Set the position. The chain is followed from the current cluster when
        the new position is not before it, and from the first one otherwise;
        either way the cursor ends at the cluster that holds byte `pos - 1`. */
    method SeekSet(pos: nat) returns (ok: bool)
      requires Valid()
      modifies this`curPosition, this`curCluster,
               vol`cacheDirty, vol`cacheMirrorBlock, vol`cacheBlockNumber, vol.card, vol.cacheBuffer
      ensures !old(vol.cacheDirty) ==> !vol.cacheDirty
      ensures vol.Valid() && vol.Wedged() == old(vol.Wedged())
      ensures ok ==> Valid() && curPosition == pos <= fileSize && fileType != Closed
      ensures !ok ==> fileType == Closed || pos > fileSize || vol.card.faults > old(vol.card.faults)
      ensures fileType == Closed || pos > fileSize ==> !ok && Valid() && curPosition == old(curPosition)
      ensures ok && fileType != Root16 ==>
                if Follows(vol.g, old(curPosition), pos) then vol.g.InTables(vol.cacheBlockNumber)
                else vol.Cache() == old(vol.Cache())
      ensures vol.card.faults >= old(vol.card.faults)
    {
      hide ChainValid, EntryValid, SdVolume.Valid, SdVolume.Fat, Layout.Valid, Sound, NumBlocks, IsChain,
           SdVolume.Wedged, Layout.ClusterOf;
      if fileType == Closed || pos > fileSize {
        return false;
      }
      if fileType == Root16 {
        curPosition := pos;
        return true;
      }
      if pos == 0 {
        curCluster, curPosition := 0, 0;
        return true;
      }
      var nCur := vol.g.ClusterOf((curPosition + TWO32 - 1) % TWO32 / 512);
      var nNew := vol.g.ClusterOf((pos - 1) / 512);
      ghost var at := 0;
      HoldsByte(pos);
      if nNew < nCur || curPosition == 0 {
        curCluster := firstCluster;
      } else {
        at := nCur;
        nNew := nNew - nCur;
      }
      ok := Advance(nNew, at);
      if ok {
        curPosition := pos;
      }
    }

    /** A byte of the file has its cluster in the chain. */
    lemma HoldsByte(pos: nat)
      requires ChainValid() && fileType != Root16 && 0 < pos <= fileSize
      ensures vol.g.ClusterOf((pos - 1) / 512) < |chain| && chain[0] == firstCluster && fileSize < TWO32
    {
      SplitBound(vol.g, (pos - 1) / 512, |chain|);
    }

    /** Follow the chain for `n` links. */
    method Advance(n: nat, ghost at: nat) returns (ok: bool)
      requires vol.Valid() && ChainValid() && fileType != Root16
      requires at + n < |chain| && curCluster == chain[at]
      modifies this`curCluster,
               vol`cacheDirty, vol`cacheMirrorBlock, vol`cacheBlockNumber, vol.card, vol.cacheBuffer
      ensures !old(vol.cacheDirty) ==> !vol.cacheDirty
      ensures vol.Valid() && vol.Wedged() == old(vol.Wedged())
      ensures ok ==> curCluster == chain[at + n]
      ensures ok ==> if n > 0 then vol.g.InTables(vol.cacheBlockNumber) else vol.Cache() == old(vol.Cache())
      ensures !ok ==> vol.card.faults > old(vol.card.faults)
      ensures vol.card.faults >= old(vol.card.faults)
    {
      hide ChainValid, SdVolume.Valid, SdVolume.Fat;
      var left := n;
      ghost var i := at;
      while left > 0
        invariant 0 <= left <= n && i == at + n - left && curCluster == chain[i]
        invariant if left < n then vol.g.InTables(vol.cacheBlockNumber) else vol.Cache() == old(vol.Cache())
        invariant !old(vol.cacheDirty) ==> !vol.cacheDirty
        invariant vol.Valid() && vol.Wedged() == old(vol.Wedged())
        invariant vol.card.faults >= old(vol.card.faults)
      {
        LinkInChain(i);
        var got, next := vol.FatGet(curCluster);
        if !got {
          return false;
        }
        curCluster := next;
        left := left - 1;
        i := i + 1;
      }
      return true;
    }

    lemma LinkInChain(i: nat)
      requires ChainValid() && fileType != Root16 && i + 1 < |chain|
      ensures vol.g.IsCluster(chain[i]) && vol.Fat()[chain[i]] == chain[i + 1]
    {
    }

    /** Find out whether the chain is consecutive, and which blocks it covers.
        Without card faults it succeeds exactly on a non-empty chain whose
        clusters follow each other. */
    method ContiguousRange() returns (ok: bool, bgnBlock: nat, endBlock: nat)
      requires vol.Valid() && ChainValid()
      modifies vol`cacheDirty, vol`cacheMirrorBlock, vol`cacheBlockNumber, vol.card, vol.cacheBuffer
      ensures vol.Valid() && vol.Wedged() == old(vol.Wedged())
      ensures ok ==> chain != [] && chain == Consecutive(chain[0], |chain|)
      ensures ok ==> bgnBlock == vol.g.ClusterStartBlock(chain[0])
                     && endBlock + 1 == bgnBlock + vol.g.BlocksOf(|chain|)
                     && vol.g.dataStartBlock <= bgnBlock <= endBlock < vol.g.DataEnd()
      ensures !ok ==> vol.card.faults > old(vol.card.faults)
                      || chain == [] || chain != Consecutive(chain[0], |chain|)
      ensures vol.card.faults >= old(vol.card.faults)
    {
      hide SdVolume.Valid, ChainValid, Layout.Valid, SdVolume.Reads;
      bgnBlock, endBlock := 0, 0;
      ChainStart();
      if firstCluster == 0 {
        return false, 0, 0;
      }
      var c := firstCluster;
      ghost var i := 0;
      while true
        invariant vol.Valid() && vol.Wedged() == old(vol.Wedged()) && vol.card.faults >= old(vol.card.faults)
        invariant 0 <= i < |chain| && c == chain[i] && chain[..i + 1] == Consecutive(firstCluster, i + 1)
        decreases |chain| - i
      {
        LinkOrEnd(i);
        var next;
        ok, next := vol.FatGet(c);
        if !ok {
          return false, 0, 0;
        }
        if next != c + 1 {
          if !vol.g.IsEoc(next) {
            assert chain[i] == firstCluster + i && chain[i + 1] != firstCluster + (i + 1);
            return false, 0, 0;
          }
          assert chain == chain[..i + 1];
          ConsecutiveBlocks(vol.g, vol.size, firstCluster, |chain|);
          return true, vol.g.ClusterStartBlock(firstCluster),
                 vol.g.ClusterStartBlock(c) + vol.g.blocksPerCluster - 1;
        }
        LinkNotEnd(i);
        c, i := c + 1, i + 1;
      }
    }

    lemma ChainStart()
      requires ChainValid()
      ensures chain == [] <==> firstCluster == 0
      ensures chain != [] ==>
                fileType != Root16 && chain[0] == firstCluster
                && forall i | 0 <= i < |chain| :: vol.g.IsCluster(chain[i])
    {
    }

    /** The number after a chain's last cluster is no end mark. */
    lemma LinkNotEnd(i: nat)
      requires ChainValid() && fileType != Root16 && i < |chain| && vol.Fat()[chain[i]] == chain[i] + 1
      ensures i + 1 < |chain| && chain[i + 1] == chain[i] + 1
    {
    }

    // ---- reading ----

    /** `curCluster` is the cluster of the `k`-th block of the file. */
    ghost predicate AtBlock(k: nat)
      reads this`fileType, this`chain, this`curCluster
    {
      fileType != Root16 ==> vol.g.ClusterOf(k) < |chain| && curCluster == chain[vol.g.ClusterOf(k)]
    }

    /** Move to the cluster of the current position and give its block. */
    method BlockForRead() returns (ok: bool, block: nat)
      requires vol.Valid() && ChainValid() && CursorValid() && curPosition < fileSize
      modifies this`curCluster,
               vol`cacheDirty, vol`cacheMirrorBlock, vol`cacheBlockNumber, vol.card, vol.cacheBuffer
      ensures !old(vol.cacheDirty) ==> !vol.cacheDirty
      ensures vol.Valid() && vol.Wedged() == old(vol.Wedged())
      ensures curPosition / 512 < NumBlocks(vol.g, Place())
      ensures ok ==> block == FileBlock(vol.g, vol.size, Place(), curPosition / 512) && AtBlock(curPosition / 512)
      ensures !ok ==> vol.card.faults > old(vol.card.faults)
      ensures vol.card.faults >= old(vol.card.faults)
    {
      hide ChainValid, SdVolume.Valid, SdVolume.Fat, SdVolume.Reads;
      block := 0;
      if fileType == Root16 {
        return true, vol.g.rootDirStart + curPosition / 512;
      }
      CursorCluster(vol.g, curPosition);
      HoldsByte(curPosition + 1);
      var blockOfCluster := vol.g.BlockOfCluster(curPosition / 512);
      if curPosition % 512 == 0 && blockOfCluster == 0 {
        if curPosition == 0 {
          curCluster := firstCluster;
        } else {
          LinkInChain(vol.g.ClusterOf((curPosition - 1) / 512));
          ok, curCluster := vol.FatGet(curCluster);
          if !ok {
            return false, 0;
          }
        }
      }
      return true, vol.g.ClusterStartBlock(curCluster) + blockOfCluster;
    }

    /** The cache holds the `k`-th block of the file. */
    ghost predicate CachedAt(k: nat)
      requires vol.g.Valid(vol.size) && Sound(vol.g, Place()) && |vol.disk| == vol.size
      reads this`fileType, this`chain, vol`disk, vol`cacheBlockNumber, vol.cacheBuffer
    {
      && k < NumBlocks(vol.g, Place())
      && vol.cacheBlockNumber == FileBlock(vol.g, vol.size, Place(), k)
      && vol.cacheBuffer[..] == vol.disk[vol.cacheBlockNumber]
    }

    /** Deliver a slice of a block: past the cache for a whole block or an
        unbuffered file, unless the cache holds it. */
    method ReadSlice(block: nat, skip: nat, n: nat, buf: array<byte>, at: nat) returns (ok: bool)
      requires vol.Valid() && block < vol.size && !vol.g.InTables(block)
      requires buf != vol.cacheBuffer && skip + n <= 512 && at + n <= buf.Length
      modifies vol`cacheDirty, vol`cacheMirrorBlock, vol`cacheBlockNumber, vol.card, vol.cacheBuffer, buf
      ensures !old(vol.cacheDirty) ==> !vol.cacheDirty
      ensures vol.Valid() && vol.Wedged() == old(vol.Wedged())
      ensures ok ==> buf[..] == Overwrite(old(buf[..]), at, vol.disk[block][skip..skip + n])
      ensures ok && n < 512 && !flags.unbuffered ==>
                vol.cacheBlockNumber == block && vol.cacheBuffer[..] == vol.disk[block]
      ensures !ok ==> vol.card.faults > old(vol.card.faults)
      ensures vol.card.faults >= old(vol.card.faults)
    {
      if (flags.unbuffered || n == 512) && block != vol.cacheBlockNumber {
        ok := vol.ReadData(block, skip, n, buf, at);
      } else {
        ok := vol.CacheRawBlock(block, false);
        if ok {
          vol.CopyCached(skip, n, buf, at);
        }
      }
    }

    /** One round of the read loop: the next `n` bytes, all from one block. */
    method ReadRound(n: nat, buf: array<byte>, dst: nat) returns (ok: bool)
      requires vol.Valid() && ChainValid() && CursorValid()
      requires 0 < n && curPosition % 512 + n <= 512 && curPosition + n <= fileSize
      requires buf != vol.cacheBuffer && dst + n <= buf.Length
      modifies this`curPosition, this`curCluster,
               vol`cacheDirty, vol`cacheMirrorBlock, vol`cacheBlockNumber, vol.card, vol.cacheBuffer, buf
      ensures !old(vol.cacheDirty) ==> !vol.cacheDirty
      ensures vol.Valid() && vol.Wedged() == old(vol.Wedged())
      ensures ok ==> CursorValid() && curPosition == old(curPosition) + n
      ensures ok ==> buf[..] == Overwrite(old(buf[..]), dst, Data()[old(curPosition)..curPosition])
      ensures ok && n < 512 && !flags.unbuffered ==> CachedAt(old(curPosition) / 512)
      ensures !ok ==> vol.card.faults > old(vol.card.faults)
      ensures vol.card.faults >= old(vol.card.faults)
    {
      hide ChainValid, SdVolume.Valid, SdVolume.Fat, Contents, Layout.BlocksOf, Overwrite, NumBlocks, Layout.Valid;
      var block;
      ok, block := BlockForRead();
      if ok {
        ok := ReadSlice(block, curPosition % 512, n, buf, dst);
        ContentsInBlock(vol.g, vol.disk, Place(), fileSize, curPosition, n);
        assert (curPosition + n - 1) / 512 == curPosition / 512;
        curPosition := curPosition + n;
      }
    }

    method ReadBytes(count: nat, buf: array<byte>) returns (ok: bool)
      requires vol.Valid() && ChainValid() && CursorValid()
      requires curPosition + count <= fileSize && count <= buf.Length && buf != vol.cacheBuffer
      modifies this`curPosition, this`curCluster,
               vol`cacheDirty, vol`cacheMirrorBlock, vol`cacheBlockNumber, vol.card, vol.cacheBuffer, buf
      ensures !old(vol.cacheDirty) ==> !vol.cacheDirty
      ensures vol.Valid() && vol.Wedged() == old(vol.Wedged())
      ensures ok ==> CursorValid() && curPosition == old(curPosition) + count
      ensures ok ==> buf[..] == Overwrite(old(buf[..]), 0, Data()[old(curPosition)..curPosition])
      ensures ok && count == 1 && !flags.unbuffered ==> CachedAt(old(curPosition) / 512)
      ensures !ok ==> vol.card.faults > old(vol.card.faults)
      ensures vol.card.faults >= old(vol.card.faults)
    {
      hide ChainValid, SdVolume.Valid, CursorValid, Data, CachedAt, NumBlocks, Sound, Overwrite;
      var toRead, dst := count, 0;
      ghost var data, start, was := Data(), curPosition, buf[..];
      NothingRead(was, data, start);
      while toRead > 0
        invariant 0 <= toRead && dst + toRead == count && curPosition == start + dst
        invariant !old(vol.cacheDirty) ==> !vol.cacheDirty
        invariant vol.Valid() && vol.Wedged() == old(vol.Wedged()) && vol.card.faults >= old(vol.card.faults)
        invariant CursorValid()
        invariant buf[..] == Overwrite(was, 0, data[start..start + dst])
        invariant count == 1 && dst == 1 && !flags.unbuffered ==> CachedAt(start / 512)
      {
        var offset := curPosition % 512;
        var n := if toRead > 512 - offset then 512 - offset else toRead;
        ok := ReadRound(n, buf, dst);
        if !ok {
          return false;
        }
        ReadOn(was, data, start, dst, n);
        toRead, dst := toRead - n, dst + n;
      }
      return true;
    }

    /** Read up to `nbyte` bytes at the position into `buf`: the bytes of the
        file there, as many as it has. Only a card fault makes it fail on a
        file open for reading. */
    method Read(buf: array<byte>, nbyte: nat) returns (n: int)
      requires Valid() && nbyte <= 32767 && nbyte <= buf.Length && buf != vol.cacheBuffer
      modifies this`curPosition, this`curCluster,
               vol`cacheDirty, vol`cacheMirrorBlock, vol`cacheBlockNumber, vol.card, vol.cacheBuffer, buf
      ensures !old(vol.cacheDirty) ==> !vol.cacheDirty
      ensures vol.Valid() && vol.Wedged() == old(vol.Wedged())
      ensures fileType == Closed || !flags.read ==> n == -1 && Valid() && curPosition == old(curPosition)
      ensures n != -1 ==> Valid() && fileType != Closed
      ensures n != -1 ==> n == if nbyte <= fileSize - old(curPosition) then nbyte else fileSize - old(curPosition)
      ensures n != -1 ==> curPosition == old(curPosition) + n
      ensures n != -1 ==> buf[..] == Overwrite(old(buf[..]), 0, Data()[old(curPosition)..curPosition])
      ensures n == nbyte == 1 && !flags.unbuffered ==> CachedAt(old(curPosition) / 512)
      ensures n == -1 ==> fileType == Closed || !flags.read || vol.card.faults > old(vol.card.faults)
      ensures vol.card.faults >= old(vol.card.faults)
    {
      hide ChainValid, EntryValid, SdVolume.Valid, CursorValid, Data;
      if fileType == Closed || !flags.read {
        return -1;
      }
      var count := if nbyte > fileSize - curPosition then fileSize - curPosition else nbyte;
      var ok := ReadBytes(count, buf);
      return if ok then count else -1;
    }

    /** A directory handle as `open` and `openRoot` make it. */
    predicate ReadsEntries() reads this`fileType, this`flags { IsDir() && flags.read && !flags.unbuffered }

    /** Read the next directory entry into the cache and move behind it. */
    method ReadDirCache() returns (ok: bool, i: nat)
      requires Valid() && ReadsEntries() && curPosition % 32 == 0 && curPosition + 32 <= fileSize
      modifies this`curPosition, this`curCluster,
               vol`cacheDirty, vol`cacheMirrorBlock, vol`cacheBlockNumber, vol.card, vol.cacheBuffer
      ensures vol.Valid() && vol.Wedged() == old(vol.Wedged())
      ensures ok ==> Valid() && curPosition == old(curPosition) + 32
      ensures ok ==> i == old(curPosition) / 32 % 16 && CachedAt(old(curPosition) / 512)
      ensures ok ==> EntryAt(vol.cacheBuffer[..], i) == Data()[old(curPosition)..old(curPosition) + 32]
      ensures !ok ==> vol.card.faults > old(vol.card.faults)
      ensures vol.card.faults >= old(vol.card.faults)
    {
      hide SdVolume.Valid, ChainValid, EntryValid, CursorValid, Data, CachedAt, NumBlocks;
      i := curPosition / 32 % 16;
      var b := ReadByte();
      if b < 0 {
        return false, i;
      }
      EntryOfBlock(old(curPosition));
      SkipRest();
      return true, i;
    }

    /** Read the next byte of the file, -1 at its end or on an error. */
    method ReadByte() returns (b: int)
      requires Valid()
      modifies this`curPosition, this`curCluster,
               vol`cacheDirty, vol`cacheMirrorBlock, vol`cacheBlockNumber, vol.card, vol.cacheBuffer
      ensures vol.Valid() && vol.Wedged() == old(vol.Wedged())
      ensures b >= 0 ==> Valid() && fileType != Closed && curPosition == old(curPosition) + 1
      ensures b >= 0 ==> b == Data()[old(curPosition)] as int
      ensures b >= 0 && !flags.unbuffered ==> CachedAt(old(curPosition) / 512)
      ensures b < 0 ==> b == -1
      ensures b < 0 ==> fileType == Closed || !flags.read || old(curPosition) == fileSize
                        || vol.card.faults > old(vol.card.faults)
      ensures vol.card.faults >= old(vol.card.faults)
    {
      hide SdVolume.Valid, ChainValid, EntryValid, CursorValid, Data, CachedAt, NumBlocks, Sound;
      var buf := new byte[1];
      var n := Read(buf, 1);
      if n == 1 {
        assert buf[..][0] == buf[0];
        return buf[0];
      }
      return -1;
    }

    method SkipRest()
      requires CursorValid() && curPosition % 32 == 1
      modifies this`curPosition
      ensures CursorValid() && curPosition == old(curPosition) + 31
    {
      hide Layout.ClusterOf;
      EntrySpan(curPosition);
      curPosition := curPosition + 31;
    }

    /** An entry of a directory, in the block that holds it. */
    lemma EntryOfBlock(pos: nat)
      requires ChainValid() && pos % 32 == 0 && pos + 32 <= fileSize && vol.cacheBuffer.Length == 512
      requires CachedAt(pos / 512)
      ensures EntryAt(vol.cacheBuffer[..], pos / 32 % 16) == Data()[pos..pos + 32]
    {
      hide Contents, FileBlock, NumBlocks, ChainOk;
      EntryOffset(pos);
      ContentsInBlock(vol.g, vol.disk, Place(), fileSize, pos, 32);
    }

    // ---- writing ----

    /** Add a cluster behind the last one, which is the current one. */
    method AddCluster() returns (ok: bool)
      requires vol.Valid() && ChainValid() && EntryValid() && fileType != Closed && fileType != Root16
      requires curCluster == if chain == [] then 0 else chain[|chain| - 1]
      modifies this`curCluster, this`firstCluster, this`flags, this`chain,
               vol`cacheDirty, vol`cacheMirrorBlock, vol`cacheBlockNumber, vol`disk, vol`allocSearchStart,
               vol.card, vol.cacheBuffer
      ensures vol.Valid() && vol.Wedged() == old(vol.Wedged())
      ensures ok ==> ChainValid() && EntryValid() && chain == old(chain) + [curCluster]
      ensures ok ==> vol.g.InTables(vol.cacheBlockNumber)
      ensures ok ==> Grew(vol.g, old(vol.Fat()), old(vol.disk), old(chain), vol.Fat(), vol.disk, chain)
      ensures ok ==> SameOutsideTables(vol.g, old(vol.disk), vol.disk)
      ensures ok ==> flags == if old(chain) == [] then old(flags).(dirDirty := true) else old(flags)
      ensures !ok ==> vol.card.faults > old(vol.card.faults) || vol.Full()
      ensures vol.card.faults >= old(vol.card.faults)
    {
      hide SdVolume.Valid, Grew, EntryOk, ChainOk, SameOutsideTables, Linked, FreeRun, ChainValid, EntryValid, Sound,
           NumBlocks;
      TailInUse();
      InOrder();
      var cluster;
      ok, cluster := vol.AllocContiguous(1, curCluster);
      if !ok {
        return false;
      }
      StoredValues(vol.g, vol.size, 0);
      ghost var mark := Stored(vol.g, FAT_EOC);
      AllocKeepsFile(vol.g, old(vol.disk), vol.disk, chain, firstCluster, fileSize, cluster, mark);
      if fileType == Normal || fileType == SubDir {
        AllocKeepsEntry(vol.g, old(vol.disk), vol.disk, fileType == Normal, chain, flags.dirDirty,
                        firstCluster, fileSize, dirBlock, dirIndex, attributes, cluster, mark);
      }
      Extend(cluster);
    }

    /** What `ChainValid` and `EntryValid` say of the disk. */
    lemma InOrder()
      requires ChainValid() && EntryValid() && fileType != Closed && fileType != Root16
      ensures |vol.disk| == vol.size && ChainOk(vol.g, vol.disk, false, chain, firstCluster, fileSize)
      ensures fileType == Normal || fileType == SubDir ==>
                EntryOk(vol.g, vol.disk, fileType == Normal, chain, flags.dirDirty, firstCluster, fileSize,
                        dirBlock, dirIndex, attributes)
      ensures fileType == Root32 ==> !flags.dirDirty && chain != []
      ensures firstCluster == 0 <==> chain == []
    {
    }

    /** Take the cluster linked behind the last one into the file. */
    method Extend(cluster: nat)
      requires |vol.disk| == vol.size && fileType != Closed && fileType != Root16
      requires firstCluster == 0 <==> chain == []
      requires ChainOk(vol.g, vol.disk, false, chain + [cluster], if chain == [] then cluster else firstCluster,
                       fileSize)
      requires fileType == Normal || fileType == SubDir ==>
                 EntryOk(vol.g, vol.disk, fileType == Normal, chain + [cluster], chain == [] || flags.dirDirty,
                         if chain == [] then cluster else firstCluster, fileSize, dirBlock, dirIndex, attributes)
      requires fileType == Root32 ==> !flags.dirDirty && chain != []
      modifies this`curCluster, this`firstCluster, this`flags, this`chain
      ensures ChainValid() && EntryValid() && chain == old(chain) + [curCluster] && curCluster == cluster
      ensures flags == if old(chain) == [] then old(flags).(dirDirty := true) else old(flags)
    {
      hide ChainOk, EntryOk;
      curCluster := cluster;
      chain := chain + [cluster];
      if firstCluster == 0 {
        firstCluster := cluster;
        flags := flags.(dirDirty := true);
      }
    }

    lemma TailInUse()
      requires ChainValid() && fileType != Root16
      ensures IsChainOrNil(vol.Fat(), vol.g.EocMin(), chain)
      ensures chain == [] <==> firstCluster == 0
      ensures chain != [] ==> vol.g.IsCluster(chain[|chain| - 1]) && vol.Fat()[chain[|chain| - 1]] != 0
    {
    }

    /** The length the file has during a write: its size, or the position when
        that is already past it. */
    ghost function Extended(): nat
      reads this`fileSize, this`curPosition
    {
      if curPosition > fileSize then curPosition else fileSize
    }

    /** The bytes of the file as long as it has become during a write. */
    ghost function Written(): (r: seq<byte>)
      requires ChainValid() && curPosition <= 512 * NumBlocks(vol.g, Place())
      reads this`fileType, this`chain, this`fileSize, this`firstCluster, this`curPosition, vol`disk
      ensures |r| == Extended()
    {
      Contents(vol.g, vol.disk, Place(), Extended())
    }

    /** The link behind the chain's `i`-th cluster: the next one, or an end mark. */
    lemma LinkOrEnd(i: nat)
      requires ChainValid() && fileType != Root16 && i < |chain|
      ensures vol.g.IsCluster(chain[i])
      ensures if i + 1 < |chain| then vol.Fat()[chain[i]] == chain[i + 1] && !vol.g.IsEoc(chain[i + 1])
              else vol.g.IsEoc(vol.Fat()[chain[i]])
    {
    }

    /** Step from the chain's cluster before `idx` (none for 0) to cluster `idx`,
        adding it when the chain ends there. */
    method NextCluster(ghost idx: nat) returns (ok: bool)
      requires vol.Valid() && ChainValid() && EntryValid() && fileType == Normal
      requires idx <= |chain| && curCluster == if idx == 0 then 0 else chain[idx - 1]
      modifies this`curCluster, this`firstCluster, this`flags, this`chain,
               vol`cacheDirty, vol`cacheMirrorBlock, vol`cacheBlockNumber, vol`disk, vol`allocSearchStart,
               vol.card, vol.cacheBuffer
      ensures vol.Valid() && vol.Wedged() == old(vol.Wedged())
      ensures ok ==> ChainValid() && EntryValid() && idx < |chain| && curCluster == chain[idx]
      ensures ok ==> Grew(vol.g, old(vol.Fat()), old(vol.disk), old(chain), vol.Fat(), vol.disk, chain)
      ensures ok ==> SameOutsideTables(vol.g, old(vol.disk), vol.disk)
      ensures ok ==> |chain| == if idx == |old(chain)| then idx + 1 else |old(chain)|
      ensures ok ==> if old(curCluster) == 0 && old(firstCluster) != 0 then
                       vol.cacheBlockNumber == old(vol.cacheBlockNumber) && vol.cacheDirty == old(vol.cacheDirty)
                     else vol.g.InTables(vol.cacheBlockNumber)
      ensures ok ==> flags == if old(chain) == [] then old(flags).(dirDirty := true) else old(flags)
      ensures !ok ==> vol.card.faults > old(vol.card.faults) || vol.Full()
      ensures vol.card.faults >= old(vol.card.faults)
    {
      hide SdVolume.Valid, ChainOk, EntryOk, Grew, SameOutsideTables, SdVolume.Full, ChainValid, EntryValid,
           IsChainOrNil, Layout.Valid, SdFile.Place, SdVolume.Reads;
      TailInUse();
      GrewNot(vol.g, vol.Fat(), vol.disk, chain);
      SameOutsideRefl(vol.g, vol.disk);
      if curCluster == 0 {
        ZeroMeansStart(idx);
        if firstCluster == 0 {
          ok := AddCluster();
          return;
        }
        curCluster := firstCluster;
        return true;
      }
      LinkOrEnd(idx - 1);
      var next;
      ok, next := vol.FatGet(curCluster);
      if !ok {
        return false;
      }
      if vol.g.IsEoc(next) {
        ok := AddCluster();
      } else {
        curCluster := next;
      }
    }

    lemma ZeroMeansStart(idx: nat)
      requires ChainValid() && fileType != Root16
      requires idx <= |chain| && 0 == if idx == 0 then 0 else chain[idx - 1]
      ensures idx == 0 && (chain != [] ==> chain[0] == firstCluster)
    {
    }

    /** Move to the cluster of the current position, taking a new one at the end
        of the chain, and give the block of the position. */
    method BlockForWrite() returns (ok: bool, block: nat)
      requires vol.Valid() && ChainValid() && EntryValid() && CursorValid() && fileType == Normal
      requires curPosition <= 512 * vol.g.BlocksOf(|chain|)
      modifies this`curCluster, this`firstCluster, this`flags, this`chain,
               vol`cacheDirty, vol`cacheMirrorBlock, vol`cacheBlockNumber, vol`disk, vol`allocSearchStart,
               vol.card, vol.cacheBuffer
      ensures vol.Valid() && vol.Wedged() == old(vol.Wedged())
      ensures ok ==> ChainValid() && EntryValid() && AtBlock(curPosition / 512)
      ensures ok ==> curPosition / 512 < vol.g.BlocksOf(|chain|)
      ensures ok ==> block == FileBlock(vol.g, vol.size, Place(), curPosition / 512)
      ensures ok ==> Grew(vol.g, old(vol.Fat()), old(vol.disk), old(chain), vol.Fat(), vol.disk, chain)
      ensures ok ==> Written() == old(Written())
      ensures ok ==> if LooksUp(vol.g, curPosition, |old(chain)|) then vol.g.InTables(vol.cacheBlockNumber)
                     else vol.cacheBlockNumber == old(vol.cacheBlockNumber) && vol.cacheDirty == old(vol.cacheDirty)
      ensures ok ==> |chain| == |old(chain)| ||
                     (|chain| == vol.g.ClusterOf(curPosition / 512) + 1 && fileSize <= curPosition)
      ensures ok ==> flags == old(flags) || (flags == old(flags).(dirDirty := true) && fileSize <= curPosition)
      ensures !ok ==> vol.card.faults > old(vol.card.faults) || vol.Full()
      ensures vol.card.faults >= old(vol.card.faults)
    {
      hide SdVolume.Valid, ChainOk, EntryOk, Grew, SameOutsideTables, SdVolume.Full, Contents, Layout.BlocksOf,
           EntryValid, SdVolume.Wedged, OnlyMineChanged;
      block := 0;
      ghost var idx := vol.g.ClusterOf(curPosition / 512);
      WriteSplit(vol.g, curPosition, |chain|);
      GrewNot(vol.g, vol.Fat(), vol.disk, chain);
      SameOutsideRefl(vol.g, vol.disk);
      var blockOfCluster := vol.g.BlockOfCluster(curPosition / 512);
      CursorIsZero();
      if blockOfCluster == 0 && curPosition % 512 == 0 {
        ok := NextCluster(idx);
        if !ok {
          return false, 0;
        }
      }
      RoundExtends(vol.g, old(vol.Fat()), old(vol.disk), old(chain), vol.Fat(), vol.disk, chain, Extended());
      SplitBound(vol.g, curPosition / 512, |chain|);
      return true, vol.g.ClusterStartBlock(curCluster) + blockOfCluster;
    }

    lemma CursorIsZero()
      requires ChainValid() && CursorValid() && fileType == Normal
      ensures curCluster == 0 <==> curPosition == 0
      ensures firstCluster == 0 <==> chain == []
    {
    }

    /** Put `d` at the position, in its block: past the cache for a whole block,
        into a fresh buffer for a block beyond the end, and else into the block
        as it is. Bytes of the block below the length are not disturbed. */
    method StoreSlice(block: nat, d: seq<byte>) returns (ok: bool)
      requires vol.Valid() && block < vol.size && !vol.g.InTables(block) && block != 0
      requires d != [] && curPosition % 512 + |d| <= 512
      modifies vol`cacheDirty, vol`cacheMirrorBlock, vol`cacheBlockNumber, vol`disk, vol.card, vol.cacheBuffer
      ensures vol.Valid()
      ensures SameExcept(old(vol.disk), vol.disk, block)
      ensures ok ==> RoundCache(vol.g, false, |d| == 512, block, old(vol.Cache()), vol.Cache())
      ensures ok && |d| < 512 ==> !old(vol.Wedged())
      ensures ok ==> vol.disk[block][curPosition % 512..curPosition % 512 + |d|] == d
      ensures ok ==> forall j | 0 <= j < 512 && !(curPosition % 512 <= j < curPosition % 512 + |d|)
                                && curPosition - curPosition % 512 + j < Extended() ::
                       vol.disk[block][j] == old(vol.disk[block])[j]
      ensures !ok ==> vol.card.faults > old(vol.card.faults)
      ensures vol.card.faults >= old(vol.card.faults)
    {
      hide SdVolume.Valid;
      var blockOffset := curPosition % 512;
      if |d| == 512 {
        vol.ForgetCached(block);
        ok := vol.WriteBlock(block, d);
        return;
      }
      if blockOffset == 0 && curPosition >= fileSize {
        ok := vol.CacheNewBlock(block);
      } else {
        ok := vol.CacheForWrite(block);
      }
      if ok {
        vol.StoreCached(blockOffset, d);
      }
    }

    /** One round of the write loop: `d`, all into one block. */
    method WriteRound(d: seq<byte>) returns (ok: bool)
      requires vol.Valid() && ChainValid() && EntryValid() && CursorValid() && fileType == Normal
      requires curPosition <= 512 * NumBlocks(vol.g, Place())
      requires d != [] && curPosition % 512 + |d| <= 512
      modifies this`curPosition, this`curCluster, this`firstCluster, this`flags, this`chain,
               vol`cacheDirty, vol`cacheMirrorBlock, vol`cacheBlockNumber, vol`disk, vol`allocSearchStart,
               vol.card, vol.cacheBuffer
      ensures vol.Valid()
      ensures ok ==> ChainValid() && EntryValid() && CursorValid() && curPosition == old(curPosition) + |d|
      ensures ok ==> curPosition <= 512 * NumBlocks(vol.g, Place())
      ensures ok ==> Written() == Splice(old(Written()), old(curPosition), d)
      ensures ok ==> Grew(vol.g, old(vol.Fat()), old(vol.disk), old(chain), vol.Fat(), vol.disk, chain)
      ensures ok ==> Growth(vol.g, |old(chain)|, old(flags), |chain|, flags, fileSize, curPosition)
      ensures ok && Needed(vol.g, old(curPosition)) == |old(chain)| ==> Needed(vol.g, curPosition) == |chain|
      ensures ok ==> old(curPosition) / 512 < NumBlocks(vol.g, Place())
                     && RoundCache(vol.g, LooksUp(vol.g, old(curPosition), |old(chain)|), |d| == 512,
                                   FileBlock(vol.g, vol.size, Place(), old(curPosition) / 512),
                                   old(vol.Cache()), vol.Cache())
      ensures ok && (LooksUp(vol.g, old(curPosition), |old(chain)|) || |d| < 512) ==> !old(vol.Wedged())
      ensures ok ==> EndsInCache()
      ensures !ok ==> vol.card.faults > old(vol.card.faults) || vol.Full()
      ensures vol.card.faults >= old(vol.card.faults)
    {
      hide SdVolume.Valid, ChainOk, EntryOk, Grew, SameOutsideTables, SdVolume.Full, Contents, Splice, RoundCache,
           LooksUp, ChainValid, EntryValid, Written, Layout.BlocksOf, FileBlock, Layout.ClusterOf, EndsInCache;
      var block;
      ok, block := BlockForWrite();
      if !ok {
        return false;
      }
      ghost var fat, disk, ch, mid := vol.Fat(), vol.disk, chain, vol.Cache();
      ok := StoreRound(block, d);
      if ok {
        RoundEnds(old(curPosition), |d|, block, mid);
        LookedThenStored(vol.g, LooksUp(vol.g, old(curPosition), |old(chain)|), |d| == 512, block,
                         old(vol.Cache()), mid, vol.Cache());
        NeededStays(vol.g, old(curPosition), curPosition, |chain|);
        GrewTrans(vol.g, old(vol.Fat()), old(vol.disk), old(chain), fat, disk, ch, vol.Fat(), vol.disk, chain);
      }
    }

    lemma RoundEnds(pos: nat, n: nat, block: nat, mid: Cached)
      requires ChainValid() && 0 < n && pos % 512 + n <= 512 && curPosition == pos + n
      requires pos / 512 < NumBlocks(vol.g, Place()) && block == FileBlock(vol.g, vol.size, Place(), pos / 512)
      requires RoundCache(vol.g, false, n == 512, block, mid, vol.Cache())
      ensures EndsInCache()
    {
      hide FileBlock, ChainOk, NumBlocks;
    }

    /** Store `d` at the position, whose block and cluster are known, and move
        behind it. */
    method StoreRound(block: nat, d: seq<byte>) returns (ok: bool)
      requires vol.Valid() && ChainValid() && EntryValid() && fileType == Normal
      requires d != [] && curPosition % 512 + |d| <= 512
      requires curPosition / 512 < vol.g.BlocksOf(|chain|) && AtBlock(curPosition / 512)
      requires block == FileBlock(vol.g, vol.size, Place(), curPosition / 512)
      modifies this`curPosition,
               vol`cacheDirty, vol`cacheMirrorBlock, vol`cacheBlockNumber, vol`disk, vol.card, vol.cacheBuffer
      ensures vol.Valid()
      ensures ok ==> ChainValid() && EntryValid() && CursorValid() && curPosition == old(curPosition) + |d|
      ensures ok ==> curPosition <= 512 * NumBlocks(vol.g, Place()) && (curPosition - 1) / 512 == old(curPosition) / 512
      ensures ok ==> Written() == Splice(old(Written()), old(curPosition), d)
      ensures ok ==> Grew(vol.g, old(vol.Fat()), old(vol.disk), old(chain), vol.Fat(), vol.disk, chain)
      ensures ok ==> RoundCache(vol.g, false, |d| == 512, block, old(vol.Cache()), vol.Cache())
      ensures ok && |d| < 512 ==> !old(vol.Wedged())
      ensures !ok ==> vol.card.faults > old(vol.card.faults)
      ensures vol.card.faults >= old(vol.card.faults)
    {
      hide SdVolume.Valid, ChainOk, EntryOk, Grew, SameExcept, Contents, RoundCache;
      ghost var k := curPosition / 512;
      ok := StoreSlice(block, d);
      if !ok {
        return false;
      }
      StoreKeepsFile(vol.g, old(vol.disk), vol.disk, chain, firstCluster, fileSize, k);
      StoreKeepsEntry(vol.g, old(vol.disk), vol.disk, true, chain, flags.dirDirty, firstCluster, fileSize,
                      dirBlock, dirIndex, attributes, k);
      WriteInBlock(vol.g, old(vol.disk), vol.disk, Place(), old(Extended()), curPosition, d);
      assert (curPosition + |d| - 1) / 512 == k;
      curPosition := curPosition + |d|;
    }

    /** The position is at a block boundary, or its block is cached and dirty. */
    ghost predicate EndsInCache()
      requires ChainValid()
      reads this`fileType, this`chain, this`curPosition, this`fileSize, this`firstCluster,
            vol`disk, vol`cacheBlockNumber, vol`cacheDirty
    {
      curPosition % 512 != 0 ==>
        && curPosition / 512 < NumBlocks(vol.g, Place())
        && vol.Cache() == Cached(FileBlock(vol.g, vol.size, Place(), curPosition / 512), true)
    }

    /** A write would begin here. */
    ghost function Begin(): Beginning
      reads this`curPosition, this`chain, vol`cacheBlockNumber, vol`cacheDirty
    {
      Beginning(curPosition, chain, vol.Cache())
    }

    /** Where a write came from: its beginning, the bytes there were, the table,
        the disk and the flags. */
    ghost function Now(): Origin
      requires vol.Valid() && ChainValid() && curPosition <= 512 * NumBlocks(vol.g, Place())
      reads this, vol, vol.card, vol.cacheBuffer
    {
      Origin(Begin(), Written(), vol.Fat(), vol.disk, flags)
    }

    /** The bytes `done` have been written since `o`. */
    ghost predicate Writing(o: Origin, done: seq<byte>)
      reads this, vol, vol.card, vol.cacheBuffer
      ensures Writing(o, done) ==> vol.Valid() && ChainValid() && EntryValid() && CursorValid() && fileType == Normal
      ensures Writing(o, done) ==> curPosition <= 512 * NumBlocks(vol.g, Place()) && curPosition == o.b.start + |done|
    {
      && vol.Valid() && ChainValid() && EntryValid() && CursorValid() && fileType == Normal
      && curPosition == o.b.start + |done|
      && curPosition <= 512 * NumBlocks(vol.g, Place())
      && o.b.start <= |o.was| && Written() == Splice(o.was, o.b.start, done)
      && Grew(vol.g, o.fat, o.disk, o.b.ch, vol.Fat(), vol.disk, chain)
      && Growth(vol.g, |o.b.ch|, o.flags, |chain|, flags, fileSize, curPosition)
      && o.b.start <= 512 * vol.g.BlocksOf(|o.b.ch|)
      && if o.b.cached.Lost() then vol.Wedged() else Track(vol.g, vol.size, o.b, chain, curPosition, vol.Cache())
    }

    lemma WritingStarts()
      requires vol.Valid() && ChainValid() && EntryValid() && CursorValid() && fileType == Normal
      requires curPosition <= 512 * NumBlocks(vol.g, Place())
      ensures Writing(Now(), [])
    {
      hide SdVolume.Valid, ChainOk, EntryOk, Contents, Track, Splice, Grew, Growth;
      InBlocks();
      SpliceNothing(Written(), curPosition);
      GrewNot(vol.g, vol.Fat(), vol.disk, chain);
      GrowthNone(vol.g, |chain|, flags, fileSize, curPosition);
      TrackStarts(vol.g, vol.size, Begin());
    }

    /** One round of the write loop. */
    method WriteMore(d: seq<byte>, ghost o: Origin, ghost done: seq<byte>) returns (ok: bool)
      requires Writing(o, done) && d != [] && curPosition % 512 + |d| <= 512 && (done == [] || curPosition % 512 == 0)
      modifies this`curPosition, this`curCluster, this`firstCluster, this`flags, this`chain,
               vol`cacheDirty, vol`cacheMirrorBlock, vol`cacheBlockNumber, vol`disk, vol`allocSearchStart,
               vol.card, vol.cacheBuffer
      ensures vol.Valid()
      ensures ok ==> Writing(o, done + d) && EndsInCache()
      ensures !ok ==> vol.card.faults > old(vol.card.faults) || vol.Full()
      ensures vol.card.faults >= old(vol.card.faults)
    {
      hide SdVolume.Valid, ChainValid, EntryValid, CursorValid, Written, Grew, SdVolume.Full, Splice, Needed,
           NumBlocks, Growth, Track, RoundCache, LooksUp, Sound, FileBlock, EndsInCache;
      ghost var n := Now();
      InBlocks();
      ok := WriteRound(d);
      if ok {
        GrewTrans(vol.g, o.fat, o.disk, o.b.ch, n.fat, n.disk, n.b.ch, vol.Fat(), vol.disk, chain);
        GrowthTrans(vol.g, |o.b.ch|, o.flags, |n.b.ch|, n.flags, n.b.start, |chain|, flags, curPosition, fileSize);
        SpliceTwice(o.was, o.b.start, done, d);
        GrewPrefix(vol.g, n.fat, n.disk, n.b.ch, vol.Fat(), vol.disk, chain);
        if !o.b.cached.Lost() {
          TrackOn(o.b, n.b, |d|);
        } else {
          StaysLost(vol.g, |d| == 512, FileBlock(vol.g, vol.size, Place(), n.b.start / 512), n.b.cached, vol.Cache());
        }
      }
    }

    /** Write all of `src` at the position. Afterwards the volume is wedged
        exactly if the cached block was in the way. */
    method WriteLoop(src: seq<byte>) returns (ok: bool)
      requires vol.Valid() && ChainValid() && EntryValid() && CursorValid() && fileType == Normal
      requires curPosition <= 512 * NumBlocks(vol.g, Place())
      modifies this`curPosition, this`curCluster, this`firstCluster, this`flags, this`chain,
               vol`cacheDirty, vol`cacheMirrorBlock, vol`cacheBlockNumber, vol`disk, vol`allocSearchStart,
               vol.card, vol.cacheBuffer
      ensures vol.Valid()
      ensures ok ==> ChainValid() && EntryValid() && CursorValid() && curPosition == old(curPosition) + |src|
      ensures ok ==> curPosition <= 512 * NumBlocks(vol.g, Place())
      ensures ok ==> Written() == Splice(old(Written()), old(curPosition), src)
      ensures ok ==> Grew(vol.g, old(vol.Fat()), old(vol.disk), old(chain), vol.Fat(), vol.disk, chain)
      ensures ok ==> Growth(vol.g, |old(chain)|, old(flags), |chain|, flags, fileSize, curPosition)
      ensures ok && src != [] ==> EndsInCache()
      ensures ok ==> vol.Wedged() == (old(vol.Wedged()) || Endangered(vol.g, old(Begin()), |src|))
      ensures !ok ==> vol.card.faults > old(vol.card.faults) || vol.Full()
      ensures vol.card.faults >= old(vol.card.faults)
    {
      hide SdVolume.Valid, Writing, ChainValid, EntryValid, CursorValid, Written, Grew, SdVolume.Full, Splice,
           NumBlocks, Growth, Endangered, EndsInCache;
      var nToWrite, at := |src|, 0;
      ghost var o := Now();
      WritingStarts();
      assert src[..0] == [];
      while nToWrite > 0
        invariant 0 <= nToWrite && at + nToWrite == |src|
        invariant Writing(o, src[..at]) && (at > 0 ==> EndsInCache())
        invariant at > 0 && nToWrite > 0 ==> curPosition % 512 == 0
        invariant vol.card.faults >= old(vol.card.faults)
      {
        var blockOffset := curPosition % 512;
        var n := if nToWrite < 512 - blockOffset then nToWrite else 512 - blockOffset;
        ghost var pos := curPosition;
        ok := WriteMore(src[at..at + n], o, src[..at]);
        if !ok {
          return false;
        }
        RoundFills(pos, n, nToWrite);
        assert src[..at] + src[at..at + n] == src[..at + n];
        nToWrite, at := nToWrite - n, at + n;
      }
      assert src[..at] == src;
      WritingEnds(o, src);
      return true;
    }

    lemma WritingEnds(o: Origin, done: seq<byte>)
      requires Writing(o, done)
      ensures Written() == Splice(o.was, o.b.start, done) && o.b.start <= |o.was|
      ensures Grew(vol.g, o.fat, o.disk, o.b.ch, vol.Fat(), vol.disk, chain)
      ensures Growth(vol.g, |o.b.ch|, o.flags, |chain|, flags, fileSize, curPosition)
      ensures vol.Wedged() == (o.b.cached.Lost() || Endangered(vol.g, o.b, |done|))
    {
      hide SdVolume.Valid, ChainValid, EntryValid, CursorValid, Written, Grew, Splice, NumBlocks, Growth, Endangered,
           Track;
      if !o.b.cached.Lost() {
        TrackEnds(vol.g, vol.size, o.b, chain, curPosition, vol.Cache());
      }
    }

    lemma InBlocks()
      requires ChainValid() && fileType == Normal
      ensures Sound(vol.g, Clusters(chain)) && vol.g.BlocksOf(|chain|) == NumBlocks(vol.g, Place())
    {
    }

    /** Follow the cache through one more round, of `n` bytes from `r` on. */
    lemma TrackOn(b: Beginning, r: Beginning, n: nat)
      requires ChainValid() && fileType == Normal && 0 < n && r.ch <= chain
      requires Track(vol.g, vol.size, b, r.ch, r.start, r.cached)
      requires r.start <= 512 * vol.g.BlocksOf(|r.ch|) && b.start <= 512 * vol.g.BlocksOf(|b.ch|)
      requires r.start % 512 + n <= 512 && (r.start == b.start || r.start % 512 == 0)
      requires r.start / 512 < NumBlocks(vol.g, Place())
               && RoundCache(vol.g, LooksUp(vol.g, r.start, |r.ch|), n == 512,
                             FileBlock(vol.g, vol.size, Place(), r.start / 512), r.cached, vol.Cache())
      requires LooksUp(vol.g, r.start, |r.ch|) || n < 512 ==> !r.cached.Lost()
      requires !b.cached.Lost()
      ensures Track(vol.g, vol.size, b, chain, r.start + n, vol.Cache())
    {
      hide RoundCache, LooksUp, Track, FileBlock, IsChain, Layout.Valid;
      TrackRound(vol.g, vol.size, b, r.ch, chain, r.start, n, r.cached, vol.Cache());
    }

    /** Add a cluster of zeros to a directory, positioned at its end. The
        position is not moved, so the cursor is good again only after the next
        rewind. Leaves the first new block in the cache, marked for writing. */
    method AddDirCluster() returns (ok: bool)
      requires vol.Valid() && ChainValid() && EntryValid() && IsDir() && fileType != Root16
      requires curCluster == if chain == [] then 0 else chain[|chain| - 1]
      requires fileSize == 512 * vol.g.BlocksOf(|chain|) && fileSize + vol.g.ClusterBytes() < TWO32
      modifies this`curCluster, this`firstCluster, this`flags, this`chain, this`fileSize,
               vol`cacheDirty, vol`cacheMirrorBlock, vol`cacheBlockNumber, vol`disk, vol`allocSearchStart,
               vol.card, vol.cacheBuffer
      ensures vol.Valid() && vol.Wedged() == old(vol.Wedged())
      ensures ok ==> ChainValid() && EntryValid() && vol.g.IsCluster(curCluster) && chain == old(chain) + [curCluster]
      ensures ok ==> fileSize == old(fileSize) + vol.g.ClusterBytes()
      ensures ok ==> Data() == old(Data()) + Zeros(vol.g.ClusterBytes())
      ensures ok ==> Grew(vol.g, old(vol.Fat()), old(vol.disk), old(chain), vol.Fat(), vol.disk, chain)
      ensures ok ==> vol.cacheBlockNumber == vol.g.ClusterStartBlock(curCluster) && vol.cacheDirty
      ensures ok ==> flags == if old(chain) == [] then old(flags).(dirDirty := true) else old(flags)
      ensures !ok ==> vol.card.faults > old(vol.card.faults) || vol.Full()
      ensures vol.card.faults >= old(vol.card.faults)
    {
      hide SdVolume.Valid, ChainOk, EntryOk, Grew, SdVolume.Full, Contents, SameOutsideTables, Layout.BlocksOf,
           EntryBlockSafe;
      ok := AddCluster();
      if !ok {
        return false;
      }
      ghost var disk, fat, ch := vol.disk, vol.Fat(), chain;
      NewClusterFacts();
      ok := ZeroCluster();
      if !ok {
        return false;
      }
      RoundExtends(vol.g, old(vol.Fat()), old(vol.disk), old(chain), fat, disk, ch, fileSize);
      ZeroedKeepsFile(vol.g, disk, vol.disk, chain, firstCluster, fileSize);
      if fileType == SubDir {
        ZeroedKeepsEntry(vol.g, disk, vol.disk, chain, flags.dirDirty, firstCluster, fileSize,
                         dirBlock, dirIndex, attributes);
      }
      GrewTrans(vol.g, old(vol.Fat()), old(vol.disk), old(chain), fat, disk, ch, vol.Fat(), vol.disk, chain);
      fileSize := fileSize + vol.g.ClusterBytes();
    }

    lemma NewClusterFacts()
      requires ChainValid() && fileType != Root16 && chain != [] && chain[|chain| - 1] == curCluster
      ensures vol.g.IsCluster(curCluster)
      ensures vol.g.dataStartBlock <= vol.g.ClusterStartBlock(curCluster)
      ensures vol.g.ClusterStartBlock(curCluster) + vol.g.blocksPerCluster <= vol.g.DataEnd()
    {
      ClusterInData(vol.g, vol.size, curCluster);
    }

    /** Zero the current cluster, from its last block to its first. */
    method ZeroCluster() returns (ok: bool)
      requires vol.Valid() && vol.g.IsCluster(curCluster)
      requires vol.g.dataStartBlock <= vol.g.ClusterStartBlock(curCluster)
      requires vol.g.ClusterStartBlock(curCluster) + vol.g.blocksPerCluster <= vol.g.DataEnd()
      modifies vol`cacheDirty, vol`cacheMirrorBlock, vol`cacheBlockNumber, vol`disk, vol.card, vol.cacheBuffer
      ensures vol.Valid() && vol.Wedged() == old(vol.Wedged())
      ensures ok ==> Zeroed(vol.g, old(vol.disk), vol.disk, curCluster, vol.g.ClusterStartBlock(curCluster))
      ensures ok ==> vol.cacheBlockNumber == vol.g.ClusterStartBlock(curCluster) && vol.cacheDirty
      ensures !ok ==> vol.card.faults > old(vol.card.faults)
      ensures vol.card.faults >= old(vol.card.faults)
    {
      hide SdVolume.Valid;
      var block := vol.g.ClusterStartBlock(curCluster);
      var i := vol.g.blocksPerCluster;
      while i != 0
        invariant 0 <= i <= vol.g.blocksPerCluster
        invariant vol.Valid() && vol.Wedged() == old(vol.Wedged())
        invariant Zeroed(vol.g, old(vol.disk), vol.disk, curCluster, block + i)
        invariant i < vol.g.blocksPerCluster ==> vol.cacheBlockNumber == block + i && vol.cacheDirty
        invariant vol.card.faults >= old(vol.card.faults)
        decreases i
      {
        ok := vol.CacheZeroBlock(block + i - 1);
        if !ok {
          return false;
        }
        i := i - 1;
      }
      return true;
    }

    // ---- synchronising and closing ----

    predicate IsDir() reads this`fileType { fileType == Root16 || fileType == Root32 || fileType == SubDir }

    /** Bring the directory entry up to date if it is marked for update, and
        flush the cache. A wedged volume cannot be synchronised. */
    method Sync() returns (ok: bool)
      requires Valid()
      modifies this`flags,
               vol`cacheDirty, vol`cacheMirrorBlock, vol`cacheBlockNumber, vol`disk, vol.card, vol.cacheBuffer
      ensures Valid() && vol.Wedged() == old(vol.Wedged()) && vol.Fat() == old(vol.Fat())
      ensures fileType == Closed ==> !ok && vol.disk == old(vol.disk)
      ensures ok ==> !flags.dirDirty && flags == old(flags).(dirDirty := false)
      ensures ok ==> !vol.cacheDirty && vol.card.blocks == vol.disk
      ensures old(vol.Wedged()) ==> !ok
      ensures fileType != Closed ==> Data() == old(Data())
      ensures fileType != Closed && !old(flags.dirDirty) ==> vol.disk == old(vol.disk)
      ensures ok && old(flags.dirDirty) ==>
                && dirBlock < vol.size && dirIndex < 16 && firstCluster < TWO32 && fileSize < TWO32
                && vol.disk == old(vol.disk)[dirBlock :=
                     SyncedBlock(old(vol.disk[dirBlock]), dirIndex, firstCluster, fileSize, fileType == Normal)]
      ensures !ok ==> fileType == Closed || vol.card.faults > old(vol.card.faults)
      ensures vol.card.faults >= old(vol.card.faults)
    {
      hide ChainValid, EntryValid, CursorValid, Data, SyncedBlock, MirrorsAgree, HintSound, TableOf, Overlay;
      if fileType == Closed {
        return false;
      }
      if flags.dirDirty {
        ok := SyncEntry();
        if !ok {
          return false;
        }
      }
      ok := vol.Flush();
    }

    method SyncEntry() returns (ok: bool)
      requires vol.Valid() && ChainValid() && EntryValid() && fileType != Closed && flags.dirDirty
      modifies this`flags,
               vol`cacheDirty, vol`cacheMirrorBlock, vol`cacheBlockNumber, vol`disk, vol.card, vol.cacheBuffer
      ensures vol.Valid() && vol.Wedged() == old(vol.Wedged())
      ensures ChainValid() && EntryValid() && vol.Fat() == old(vol.Fat()) && Data() == old(Data())
      ensures ok ==> flags == old(flags).(dirDirty := false)
      ensures ok ==>
                && dirBlock < vol.size && dirIndex < 16 && firstCluster < TWO32 && fileSize < TWO32
                && vol.disk == old(vol.disk)[dirBlock :=
                     SyncedBlock(old(vol.disk[dirBlock]), dirIndex, firstCluster, fileSize, fileType == Normal)]
      ensures !ok ==> vol.disk == old(vol.disk) && flags == old(flags) && vol.card.faults > old(vol.card.faults)
      ensures vol.card.faults >= old(vol.card.faults)
    {
      hide SdVolume.Valid, Contents, ChainOk, EntryOk, EntryBlockSafe, SyncedBlock, WithPlace;
      EntryFacts();
      ok := vol.CacheForWrite(dirBlock);
      if !ok {
        return false;
      }
      StoreSynced();
      SyncedEntry(vol.g, old(vol.disk), fileType == Normal, chain, true, firstCluster, fileSize,
                  firstCluster, fileSize, dirBlock, dirIndex, attributes);
      EntryWriteKeepsFile(vol.g, old(vol.disk), vol.disk, chain, firstCluster, fileSize, dirBlock);
      flags := flags.(dirDirty := false);
    }

    /** Change the fields of the directory entry in the cached block. */
    method StoreSynced()
      requires vol.Valid() && vol.cacheDirty && vol.cacheBlockNumber == dirBlock < vol.size
      requires vol.cacheBuffer[..] == vol.disk[dirBlock] && !vol.g.InTables(dirBlock)
      requires dirIndex < 16 && firstCluster < TWO32 && fileSize < TWO32 && (fileType == Normal || fileType == SubDir)
      modifies vol`disk, vol.cacheBuffer
      ensures vol.Valid()
      ensures vol.disk == old(vol.disk)[dirBlock :=
                SyncedBlock(old(vol.disk[dirBlock]), dirIndex, firstCluster, fileSize, fileType == Normal)]
    {
      hide SdVolume.Valid, WithPlace;
      var e := WithPlace(EntryAt(vol.cacheBuffer[..], dirIndex), firstCluster, fileSize, !IsDir());
      vol.StoreCached(32 * dirIndex, e);
    }

    lemma EntryFacts()
      requires ChainValid() && EntryValid() && fileType != Closed && flags.dirDirty
      ensures fileType == Normal || fileType == SubDir
      ensures dirBlock < vol.size && !vol.g.InTables(dirBlock) && dirIndex < 16
      ensures EntryBlockSafe(vol.g, vol.size, vol.Fat(), chain, dirBlock)
      ensures firstCluster < TWO32 && fileSize < TWO32
    {
      if chain != [] {
        assert vol.g.IsCluster(chain[0]);
      }
    }

    method SeekEnd() returns (ok: bool)
      requires Valid()
      modifies this`curPosition, this`curCluster,
               vol`cacheDirty, vol`cacheMirrorBlock, vol`cacheBlockNumber, vol.card, vol.cacheBuffer
      ensures !old(vol.cacheDirty) ==> !vol.cacheDirty
      ensures vol.Valid() && vol.Wedged() == old(vol.Wedged())
      ensures ok ==> Valid() && curPosition == fileSize && fileType != Closed
      ensures ok && fileType != Root16 ==>
                if Follows(vol.g, old(curPosition), fileSize) then vol.g.InTables(vol.cacheBlockNumber)
                else vol.Cache() == old(vol.Cache())
      ensures !ok ==> fileType == Closed || vol.card.faults > old(vol.card.faults)
      ensures vol.card.faults >= old(vol.card.faults)
    {
      hide ChainValid, EntryValid, SdVolume.Valid, CursorValid, Follows;
      ok := SeekSet(fileSize);
    }

    /** Where a write goes: to the end of a file opened for appending. */
    ghost function WriteStart(): nat
      reads this`flags, this`fileSize, this`curPosition
    {
      if flags.append then fileSize else curPosition
    }

    /** Write `src` at the position, or at the end when appending. On success the
        file is the old one with `src` laid over it, grown as needed by clusters
        that were free; no cluster is taken beyond those its size needs, and no
        other file is touched. */
    method Write(src: seq<byte>) returns (n: nat, ok: bool)
      requires Valid() && |src| <= 0xFFFF
      requires WriteStart() + |src| < TWO32
      modifies this`curPosition, this`curCluster, this`firstCluster, this`flags, this`chain, this`fileSize,
               vol`cacheDirty, vol`cacheMirrorBlock, vol`cacheBlockNumber, vol`disk, vol`allocSearchStart,
               vol.card, vol.cacheBuffer
      ensures vol.Valid()
      ensures n == if ok then |src| else 0
      ensures fileType != Normal || !old(flags.write) ==> !ok && Valid() && vol.disk == old(vol.disk)
      ensures ok ==> Valid() && fileType == Normal
      ensures ok ==> curPosition == old(WriteStart()) + |src|
      ensures ok ==> Data() == Splice(old(Data()), old(WriteStart()), src)
      ensures ok ==> Grown(vol.g, old(vol.Fat()), old(vol.disk), old(chain), vol.Fat(), vol.disk, chain,
                           old(flags.sync), dirBlock, dirIndex)
      ensures ok ==> |chain| == |old(chain)| || |chain| == Needed(vol.g, fileSize)
      ensures ok && src != [] && !old(flags.sync) ==> EndsInCache()
      ensures ok ==> vol.Wedged() ==
                     (old(vol.Wedged()) || InTheWay(vol.g, old(Begin()), old(WriteStart()), |src|))
      ensures ok && old(flags.sync) ==> !vol.cacheDirty && vol.card.blocks == vol.disk && !flags.dirDirty
      ensures ok ==> flags.(dirDirty := old(flags.dirDirty)) == old(flags)
      ensures !ok ==> fileType != Normal || !old(flags.write) || vol.card.faults > old(vol.card.faults) || vol.Full()
      ensures vol.card.faults >= old(vol.card.faults)
    {
      hide SdVolume.Valid, ChainOk, Grew, Grown, SdVolume.Full, Splice, Contents, Needed, SyncedBlock, EntryBlockSafe,
           ChainValid, EntryValid, CursorValid, Data, SdVolume.Fat, Endangered, InTheWay, Follows,
           EndsInCache;
      if fileType != Normal || !flags.write {
        return 0, false;
      }
      NoSeekNoFollow(vol.g, curPosition);
      if flags.append && curPosition != fileSize {
        ok := SeekEnd();
        if !ok {
          return 0, false;
        }
      }
      SoundChain();
      SeekThenWrite(vol.g, vol.size, old(Begin()), curPosition, vol.Cache(), |src|);
      ok := WriteAndSync(src);
      return if ok then |src| else 0, ok;
    }

    lemma SoundChain()
      requires ChainValid() && fileType == Normal
      ensures Sound(vol.g, Clusters(chain))
    {
    }

    method WriteAndSync(src: seq<byte>) returns (ok: bool)
      requires Valid() && fileType == Normal && curPosition + |src| < TWO32
      modifies this`curPosition, this`curCluster, this`firstCluster, this`flags, this`chain, this`fileSize,
               vol`cacheDirty, vol`cacheMirrorBlock, vol`cacheBlockNumber, vol`disk, vol`allocSearchStart,
               vol.card, vol.cacheBuffer
      ensures vol.Valid()
      ensures ok ==> Valid() && curPosition == old(curPosition) + |src|
      ensures ok ==> Data() == Splice(old(Data()), old(curPosition), src)
      ensures ok ==> Grown(vol.g, old(vol.Fat()), old(vol.disk), old(chain), vol.Fat(), vol.disk, chain,
                           old(flags.sync), dirBlock, dirIndex)
      ensures ok ==> |chain| == |old(chain)| || |chain| == Needed(vol.g, fileSize)
      ensures ok ==> flags.(dirDirty := old(flags.dirDirty)) == old(flags)
      ensures ok && src != [] && !old(flags.sync) ==> EndsInCache()
      ensures ok ==> vol.Wedged() == (old(vol.Wedged()) || Endangered(vol.g, old(Begin()), |src|))
      ensures ok && old(flags.sync) ==> !vol.cacheDirty && vol.card.blocks == vol.disk && !flags.dirDirty
      ensures !ok ==> vol.card.faults > old(vol.card.faults) || vol.Full()
      ensures vol.card.faults >= old(vol.card.faults)
    {
      hide SdVolume.Valid, SdVolume.Fat, SdVolume.Full, Splice, Contents, Needed, SyncedBlock, Grew, Grown,
           ChainValid, EntryValid, CursorValid, Data, Endangered, EndsInCache;
      ok := WriteHere(src);
      if !ok {
        return false;
      }
      EntryOutside();
      ghost var disk, dirty := vol.disk, flags.dirDirty;
      if flags.sync {
        ok := Sync();
        if ok && dirty {
          SyncedOnlyPlace(disk[dirBlock], dirIndex, firstCluster, fileSize, true);
        }
      }
      if ok {
        GrewIsGrown(vol.g, old(vol.Fat()), old(vol.disk), old(chain), vol.Fat(), disk, vol.disk, chain,
                    flags.sync, dirBlock, dirIndex);
      }
    }

    /** The write loop and the new size. */
    method WriteHere(src: seq<byte>) returns (ok: bool)
      requires Valid() && fileType == Normal && curPosition + |src| < TWO32
      modifies this`curPosition, this`curCluster, this`firstCluster, this`flags, this`chain, this`fileSize,
               vol`cacheDirty, vol`cacheMirrorBlock, vol`cacheBlockNumber, vol`disk, vol`allocSearchStart,
               vol.card, vol.cacheBuffer
      ensures vol.Valid()
      ensures ok ==> Valid() && curPosition == old(curPosition) + |src|
      ensures ok ==> Data() == Splice(old(Data()), old(curPosition), src)
      ensures ok ==> vol.Wedged() == (old(vol.Wedged()) || Endangered(vol.g, old(Begin()), |src|))
      ensures ok ==> Grew(vol.g, old(vol.Fat()), old(vol.disk), old(chain), vol.Fat(), vol.disk, chain)
      ensures ok ==> |chain| == |old(chain)| || |chain| == Needed(vol.g, fileSize)
      ensures ok ==> flags == old(flags) || flags == old(flags).(dirDirty := true)
      ensures ok ==> fileSize == old(fileSize) || (flags.dirDirty && fileSize > old(fileSize))
      ensures ok && src != [] ==> EndsInCache()
      ensures !ok ==> vol.card.faults > old(vol.card.faults) || vol.Full()
      ensures vol.card.faults >= old(vol.card.faults)
    {
      hide SdVolume.Valid, ChainOk, EntryOk, Grew, SdVolume.Full, Splice, Contents, Needed, Endangered;
      ok := WriteLoop(src);
      if ok && curPosition > fileSize {
        SetSize();
      }
    }

    /** The directory entry lies outside the tables and the file itself. */
    lemma EntryOutside()
      requires Open() && fileType == Normal
      ensures dirBlock < vol.size && !vol.g.InTables(dirBlock) && dirIndex < 16
      ensures !InExtent(vol.g, chain, dirBlock)
    {
    }

    /** The size follows a position that has passed it. */
    method SetSize()
      requires ChainValid() && EntryValid() && fileType == Normal
      requires fileSize < curPosition <= 512 * NumBlocks(vol.g, Place()) && curPosition < TWO32
      modifies this`fileSize, this`flags
      ensures ChainValid() && EntryValid() && fileSize == curPosition
      ensures flags == old(flags).(dirDirty := true)
    {
      fileSize := curPosition;
      flags := flags.(dirDirty := true);
    }

    /** Give a file without clusters one run of clusters for `size` bytes.
        Without card faults it fails only when there is no free run of that
        length, and the run taken is the lowest. */
    method Preallocate(size: nat) returns (ok: bool)
      requires Valid() && fileType == Normal && chain == [] && fileSize == 0 && curPosition == 0 && 0 < size < TWO32
      modifies this`firstCluster, this`flags, this`chain, this`fileSize,
               vol`cacheDirty, vol`cacheMirrorBlock, vol`cacheBlockNumber, vol`disk, vol`allocSearchStart,
               vol.card, vol.cacheBuffer
      ensures vol.Valid() && vol.Wedged() == old(vol.Wedged())
      ensures ok ==> Valid() && fileSize == size && chain == Consecutive(firstCluster, Needed(vol.g, size))
      ensures ok ==> flags == old(flags).(dirDirty := true)
      ensures ok ==> Grew(vol.g, old(vol.Fat()), old(vol.disk), [], vol.Fat(), vol.disk, chain)
      ensures ok ==> forall a: nat | FreeRun(old(vol.Fat()), a, Needed(vol.g, size)) :: firstCluster <= a
      ensures !ok ==> Valid()
      ensures !ok && vol.card.faults == old(vol.card.faults) ==>
                vol.disk == old(vol.disk) && forall a: nat :: !FreeRun(vol.Fat(), a, Needed(vol.g, size))
      ensures SameOutsideTables(vol.g, old(vol.disk), vol.disk)
      ensures !ok ==> chain == old(chain) && fileSize == old(fileSize) && flags == old(flags)
      ensures vol.card.faults >= old(vol.card.faults)
    {
      hide SdVolume.Valid, ChainOk, EntryOk, Grew, Linked, FreeRun, SameOutsideTables, NumBlocks, Sound, StillUsed,
           EntryBlockSafe, InExtent;
      NoClusters();
      var count := vol.g.ClusterOf((size - 1) / 512) + 1;
      var cluster;
      ok, cluster := vol.AllocContiguous(count, firstCluster);
      if !ok {
        StillInOrder(vol.g, old(vol.disk), vol.disk, flags.dirDirty, firstCluster, fileSize, dirBlock, dirIndex,
                     attributes);
        return false;
      }
      StoredValues(vol.g, vol.size, 0);
      RunKeepsFile(vol.g, old(vol.disk), vol.disk, cluster, count, Stored(vol.g, FAT_EOC), size);
      RunKeepsEntry(vol.g, old(vol.disk), vol.disk, flags.dirDirty, firstCluster, fileSize,
                    dirBlock, dirIndex, attributes, cluster, count, Stored(vol.g, FAT_EOC), size);
      firstCluster := cluster;
      chain := Consecutive(cluster, count);
      fileSize := size;
      flags := flags.(dirDirty := true);
    }

    /** `Preallocate` and the update of the directory entry. */
    method PreallocateAndSync(size: nat) returns (ok: bool, full: bool)
      requires Valid() && fileType == Normal && chain == [] && fileSize == 0 && curPosition == 0 && 0 < size < TWO32
      modifies this`firstCluster, this`flags, this`chain, this`fileSize,
               vol`cacheDirty, vol`cacheMirrorBlock, vol`cacheBlockNumber, vol`disk, vol`allocSearchStart,
               vol.card, vol.cacheBuffer
      ensures vol.Valid() && vol.Wedged() == old(vol.Wedged()) && Valid()
      ensures ok ==> fileSize == size && chain == Consecutive(firstCluster, Needed(vol.g, size)) && !full
      ensures ok ==> flags == old(flags).(dirDirty := false) && !vol.cacheDirty && vol.card.blocks == vol.disk
      ensures ok ==>
                Grown(vol.g, old(vol.Fat()), old(vol.disk), [], vol.Fat(), vol.disk, chain, true, dirBlock, dirIndex)
      ensures ok ==> forall a: nat | FreeRun(old(vol.Fat()), a, Needed(vol.g, size)) :: firstCluster <= a
      ensures full ==> chain == [] && fileSize == 0 && flags == old(flags)
      ensures full && vol.card.faults == old(vol.card.faults) ==>
                vol.disk == old(vol.disk) && forall a: nat :: !FreeRun(vol.Fat(), a, Needed(vol.g, size))
      ensures !ok && !full ==> vol.card.faults > old(vol.card.faults)
      ensures vol.card.faults >= old(vol.card.faults)
    {
      hide SdVolume.Valid, SdVolume.Fat, Contents, Needed, SyncedBlock, Grew, Grown, ChainValid, EntryValid,
           CursorValid, Data, FreeRun, SameOutsideTables, OnlyPlaceChanged;
      ok := Preallocate(size);
      if !ok {
        return false, true;
      }
      EntryOutside();
      ghost var disk := vol.disk;
      ok := Sync();
      if ok {
        SyncedOnlyPlace(disk[dirBlock], dirIndex, firstCluster, fileSize, true);
        GrewIsGrown(vol.g, old(vol.Fat()), old(vol.disk), [], vol.Fat(), disk, vol.disk, chain, true, dirBlock,
                    dirIndex);
      }
      return ok, false;
    }

    lemma NoClusters()
      requires ChainValid() && chain == []
      ensures firstCluster == 0
    {
    }

    // ---- truncating and removing ----

    /** Free the clusters behind the first `k` of the chain; for `k` above 0 the
        last one kept is the current one. */
    method FreeTail(ghost k: nat, toNothing: bool) returns (ok: bool)
      requires vol.Valid() && ChainValid() && fileType == Normal && chain != []
      requires k <= |chain| && (toNothing <==> k == 0) && (k > 0 ==> curCluster == chain[k - 1])
      modifies vol`cacheDirty, vol`cacheMirrorBlock, vol`cacheBlockNumber, vol`disk, vol`allocSearchStart,
               vol.card, vol.cacheBuffer
      ensures vol.Valid() && vol.Wedged() == old(vol.Wedged())
      ensures SameOutsideTables(vol.g, old(vol.disk), vol.disk)
      ensures ok ==> ChainFits() && vol.Fat() == CutTable(vol.g, old(vol.Fat()), chain, k)
      ensures !ok ==> vol.card.faults > old(vol.card.faults)
      ensures vol.card.faults >= old(vol.card.faults)
    {
      hide SdVolume.Valid, SameOutsideTables, Freed, HeadsChain, ChainOk, IsChain;
      ghost var freed, fat := [], vol.Fat();
      TailInUse();
      ChainHeads(0);
      SameOutsideRefl(vol.g, vol.disk);
      if toNothing {
        ok, freed := vol.FreeChain(firstCluster);
        if ok {
          ChainsEqual(fat, vol.g.EocMin(), freed, chain);
        }
        return;
      }
      LinkOrEnd(k - 1);
      var toFree;
      ok, toFree := vol.FatGet(curCluster);
      if !ok {
        return false;
      }
      if !vol.g.IsEoc(toFree) {
        ChainHeads(k);
        ok, freed := vol.FreeChain(toFree);
        if !ok {
          return false;
        }
        ChainsEqual(fat, vol.g.EocMin(), freed, chain[k..]);
        ghost var disk := vol.disk;
        ok := vol.FatPutEoc(curCluster);
        SameOutsideTrans(vol.g, old(vol.disk), disk, vol.disk);
      }
    }

    ghost predicate ChainFits()
      reads this`chain
    {
      forall i | 0 <= i < |chain| :: chain[i] < vol.g.TableLength()
    }

    lemma ChainHeads(n: nat)
      requires ChainValid() && fileType != Root16 && n < |chain|
      ensures IsChain(vol.Fat(), vol.g.EocMin(), chain[n..]) && chain[n..][0] == chain[n]
      ensures HeadsChain(vol.Fat(), vol.g.EocMin(), chain[n])
      ensures chain[0] == firstCluster && chain[0..] == chain && ChainFits()
    {
      ChainSuffix(vol.Fat(), vol.g.EocMin(), chain, n);
    }

    /** Cut a file to `length` bytes. Of a non-empty file exactly the clusters
        those bytes need are kept, the rest becomes free, the directory entry is
        updated and everything is flushed; the position stays unless it was
        behind the new end. */
    method Truncate(length: nat) returns (ok: bool)
      requires Valid()
      modifies this`curPosition, this`curCluster, this`firstCluster, this`flags, this`chain, this`fileSize,
               vol`cacheDirty, vol`cacheMirrorBlock, vol`cacheBlockNumber, vol`disk, vol`allocSearchStart,
               vol.card, vol.cacheBuffer
      ensures vol.Valid() && vol.Wedged() == old(vol.Wedged())
      ensures ok ==> Valid() && fileType == Normal && old(flags.write) && length <= old(fileSize)
      ensures ok && old(fileSize) == 0 ==> vol.disk == old(vol.disk) && chain == old(chain) && fileSize == 0
                                           && flags == old(flags) && curPosition == old(curPosition)
      ensures ok ==> Data() == old(Data())[..length]
      ensures ok ==> curPosition == if old(curPosition) > length then length else old(curPosition)
      ensures ok && old(fileSize) != 0 ==>
                Cut(vol.g, old(vol.Fat()), old(vol.disk), old(chain), vol.Fat(), vol.disk, chain, length,
                    dirBlock, dirIndex)
      ensures ok && old(fileSize) != 0 ==>
                flags == old(flags).(dirDirty := false) && !vol.cacheDirty && vol.card.blocks == vol.disk
      ensures !ok ==> fileType != Normal || !old(flags.write) || length > old(fileSize)
                      || vol.card.faults > old(vol.card.faults)
      ensures fileType != Normal || !old(flags.write) || length > old(fileSize) ==>
                !ok && Valid() && vol.disk == old(vol.disk)
      ensures vol.card.faults >= old(vol.card.faults)
    {
      hide SdVolume.Valid, Cut, ChainValid, EntryValid, CursorValid, Data;
      if fileType != Normal || !flags.write {
        return false;
      }
      if length > fileSize {
        return false;
      }
      if fileSize == 0 {
        assert Data() == Data()[..0];
        return true;
      }
      var newPos := if curPosition > length then length else curPosition;
      ok := SeekSet(length);
      if !ok {
        return false;
      }
      ok := CutAndSync(length);
      if !ok {
        return false;
      }
      ok := SeekSet(newPos);
    }

    /** The middle of truncation, with the cursor at the new end: free the rest,
        then update the directory entry and flush. */
    method CutAndSync(length: nat) returns (ok: bool)
      requires Valid() && fileType == Normal && curPosition == length <= fileSize && fileSize != 0
      modifies this`firstCluster, this`flags, this`chain, this`fileSize,
               vol`cacheDirty, vol`cacheMirrorBlock, vol`cacheBlockNumber, vol`disk, vol`allocSearchStart,
               vol.card, vol.cacheBuffer
      ensures vol.Valid() && vol.Wedged() == old(vol.Wedged())
      ensures ok ==> Valid() && fileSize == length && flags == old(flags).(dirDirty := false)
      ensures ok ==>
                Data() == old(Data())[..length]
                && Cut(vol.g, old(vol.Fat()), old(vol.disk), old(chain), vol.Fat(), vol.disk, chain, length,
                       dirBlock, dirIndex)
      ensures ok ==> !vol.cacheDirty && vol.card.blocks == vol.disk
      ensures !ok ==> vol.card.faults > old(vol.card.faults)
      ensures vol.card.faults >= old(vol.card.faults)
    {
      hide SdVolume.Valid, ChainValid, EntryValid, CursorValid, Data, CutTable, OnlyMineChanged, Cut, IsChain,
           SameOutsideTables, SyncedBlock;
      ok := CutAt(length);
      if !ok {
        return false;
      }
      ghost var disk := vol.disk;
      EntryOutside();
      ok := Sync();
      if ok {
        SyncedOnlyPlace(disk[dirBlock], dirIndex, firstCluster, length, true);
        CutAndSynced(vol.g, old(vol.Fat()), old(vol.disk), old(chain), vol.Fat(), disk, vol.disk, chain,
                     length, dirBlock, dirIndex);
      }
    }

    /** The middle of truncation: the cursor is at the new end. */
    method CutAt(length: nat) returns (ok: bool)
      requires Valid() && fileType == Normal && curPosition == length <= fileSize && fileSize != 0
      modifies this`firstCluster, this`flags, this`chain, this`fileSize,
               vol`cacheDirty, vol`cacheMirrorBlock, vol`cacheBlockNumber, vol`disk, vol`allocSearchStart,
               vol.card, vol.cacheBuffer
      ensures vol.Valid() && vol.Wedged() == old(vol.Wedged())
      ensures ok ==> Valid() && fileSize == length && flags == old(flags).(dirDirty := true)
      ensures IsChain(old(vol.Fat()), vol.g.EocMin(), old(chain)) && Needed(vol.g, length) <= |old(chain)|
      ensures ok ==> chain == old(chain)[..Needed(vol.g, length)]
      ensures ok ==> vol.Fat() == CutTable(vol.g, old(vol.Fat()), old(chain), Needed(vol.g, length))
      ensures ok ==> OnlyMineChanged(old(vol.Fat()), vol.Fat(), old(chain), chain)
      ensures ok ==> Data() == old(Data())[..length]
      ensures SameOutsideTables(vol.g, old(vol.disk), vol.disk)
      ensures !ok ==> vol.card.faults > old(vol.card.faults)
      ensures vol.card.faults >= old(vol.card.faults)
    {
      hide SdVolume.Valid, ChainOk, EntryOk, SameOutsideTables, Contents, CutTable, OnlyMineChanged, Sound, IsChain,
           NumBlocks, Layout.Valid, Layout.ClusterOf;
      ghost var k := Needed(vol.g, length);
      CutBounds(length);
      ok := FreeTail(k, length == 0);
      if !ok {
        return false;
      }
      CutKeepsFile(vol.g, old(vol.disk), vol.disk, chain, firstCluster, fileSize, k, length);
      CutKeepsEntry(vol.g, old(vol.disk), vol.disk, true, chain, flags.dirDirty, firstCluster, fileSize,
                    dirBlock, dirIndex, attributes, k, if k == 0 then 0 else firstCluster, length);
      if length == 0 {
        firstCluster := 0;
      }
      chain := chain[..k];
      fileSize := length;
      flags := flags.(dirDirty := true);
    }

    lemma CutBounds(length: nat)
      requires ChainValid() && fileType == Normal && length <= fileSize && fileSize != 0
      ensures var k := Needed(vol.g, length); k <= |chain| && (k == 0 <==> length == 0)
      ensures chain != [] && IsChain(vol.Fat(), vol.g.EocMin(), chain)
    {
      HoldsByte(fileSize);
      if length > 0 {
        HoldsByte(length);
      }
    }

    /** Remove the file: free its clusters, mark its entry deleted, flush. An
        empty file that still has clusters keeps them allocated, since
        truncation leaves a file of size 0 alone. */
    method Remove() returns (ok: bool)
      requires Valid()
      modifies this`curPosition, this`curCluster, this`firstCluster, this`flags, this`chain, this`fileSize,
               this`fileType, vol`cacheDirty, vol`cacheMirrorBlock, vol`cacheBlockNumber, vol`disk,
               vol`allocSearchStart, vol.card, vol.cacheBuffer
      ensures vol.Valid() && vol.Wedged() == old(vol.Wedged())
      ensures ok ==> fileType == Closed && old(fileType) == Normal && old(flags.write)
      ensures ok ==> !vol.cacheDirty && vol.card.blocks == vol.disk && dirBlock < vol.size && dirIndex < 16
      ensures ok ==>
                Removed(vol.g, old(vol.Fat()), old(vol.disk), old(chain), vol.Fat(), vol.disk, old(fileSize),
                        dirBlock, dirIndex)
      ensures !ok ==> old(fileType) != Normal || !old(flags.write) || vol.card.faults > old(vol.card.faults)
      ensures vol.card.faults >= old(vol.card.faults)
    {
      hide SdVolume.Valid, ChainValid, CursorValid, Data, Cut, Removed;
      ghost var size := fileSize;
      ok := Truncate(0);
      if !ok {
        return false;
      }
      EntryInPlace();
      ghost var disk := vol.disk;
      ok := MarkDeleted();
      if ok {
        CutAndRemoved(vol.g, old(vol.Fat()), old(vol.disk), old(chain), vol.Fat(), disk, vol.disk, chain, size,
                      dirBlock, dirIndex);
        fileType := Closed;
        ok := vol.Flush();
      }
    }

    method MarkDeleted() returns (ok: bool)
      requires vol.Valid() && dirBlock < vol.size && !vol.g.InTables(dirBlock) && dirIndex < 16
      modifies vol`cacheDirty, vol`cacheMirrorBlock, vol`cacheBlockNumber, vol`disk, vol.card, vol.cacheBuffer
      ensures vol.Valid() && vol.Wedged() == old(vol.Wedged()) && vol.Fat() == old(vol.Fat())
      ensures ok ==> vol.disk ==
                       old(vol.disk)[dirBlock := Overwrite(old(vol.disk[dirBlock]), 32 * dirIndex, [DIR_NAME_DELETED])]
      ensures !ok ==> vol.card.faults > old(vol.card.faults)
      ensures vol.card.faults >= old(vol.card.faults)
    {
      hide SdVolume.Valid;
      ok := vol.CacheForWrite(dirBlock);
      if ok {
        vol.StoreCached(32 * dirIndex, [DIR_NAME_DELETED]);
        TableFramed(vol.g, old(vol.disk), vol.disk);
      }
    }

    lemma EntryInPlace()
      requires EntryValid() && fileType == Normal
      ensures |vol.disk| == vol.size ==> dirBlock < vol.size && !vol.g.InTables(dirBlock) && dirIndex < 16
    {
    }

    // ---- closing and opening ----

    /** Close the file. What the card then holds under its directory entry is
        the file as it was. */
    method Close() returns (ok: bool)
      requires Valid()
      modifies this`flags, this`fileType,
               vol`cacheDirty, vol`cacheMirrorBlock, vol`cacheBlockNumber, vol`disk, vol.card, vol.cacheBuffer
      ensures Valid() && vol.Wedged() == old(vol.Wedged()) && vol.Fat() == old(vol.Fat())
      ensures ok <==> old(fileType) != Closed && fileType == Closed
      ensures ok ==> !vol.cacheDirty && vol.card.blocks == vol.disk
      ensures ok && old(fileType) == Normal ==>
                && dirBlock < |old(vol.disk)| == |vol.disk|
                && SameExcept(old(vol.disk), vol.disk, dirBlock)
                && OnlyPlaceChanged(old(vol.disk)[dirBlock], vol.disk[dirBlock], dirIndex)
      ensures ok && old(fileType) == Normal && IsFileAttribute(attributes) ==>
                && Backed(vol.g, vol.card.blocks, dirBlock, dirIndex, chain)
                && IsFile(EntryAt(vol.card.blocks[dirBlock], dirIndex))
                && StoredData(vol.g, vol.card.blocks, dirBlock, dirIndex, chain) == old(Data())
      ensures !ok ==> old(fileType) == Closed || vol.card.faults > old(vol.card.faults)
      ensures vol.card.faults >= old(vol.card.faults)
    {
      hide SdVolume.Valid, Contents, SyncedBlock, ChainOk, OnlyPlaceChanged, SdVolume.Fat, Layout.Valid, FileBlock,
           Layout.BlocksOf, EntryValid, CursorValid, ChainValid;
      ghost var disk := vol.disk;
      ok := Sync();
      if !ok {
        return false;
      }
      if fileType == Normal {
        EntryOutside();
        SyncedOnlyPlace(disk[dirBlock], dirIndex, firstCluster % TWO32, fileSize % TWO32, true);
        SamePlace(disk[dirBlock], dirIndex);
        if IsFileAttribute(attributes) {
          EntryIsBacked();
        }
      }
      fileType := Closed;
    }

    lemma EntryIsBacked()
      requires ChainValid() && EntryValid() && fileType == Normal && !flags.dirDirty && IsFileAttribute(attributes)
      ensures Backed(vol.g, vol.disk, dirBlock, dirIndex, chain)
      ensures IsFile(EntryAt(vol.disk[dirBlock], dirIndex))
      ensures StoredData(vol.g, vol.disk, dirBlock, dirIndex, chain) == Data()
    {
    }

    /** Open the root directory of the volume. */
    method OpenRoot(ghost ch: seq<nat>) returns (ok: bool)
      requires vol.Valid() && vol.g.rootDirEntryCount < 0x1_0000
      requires vol.g.fatType == 16 ==> ch == []
      requires vol.g.fatType == 32 ==>
                 ch != [] && ChainOk(vol.g, vol.disk, false, ch, vol.g.rootDirStart, 512 * vol.g.BlocksOf(|ch|))
      modifies this, vol`cacheDirty, vol`cacheMirrorBlock, vol`cacheBlockNumber, vol.card, vol.cacheBuffer
      ensures vol.Valid() && vol.Wedged() == old(vol.Wedged())
      ensures ok ==> Valid() && ReadsEntries() && curPosition == 0 && chain == ch
      ensures ok ==> fileType == (if vol.g.fatType == 16 then Root16 else Root32)
      ensures ok ==>
                fileSize == if vol.g.fatType == 16 then 32 * vol.g.rootDirEntryCount else 512 * vol.g.BlocksOf(|ch|)
      ensures !ok ==> old(fileType) != Closed || vol.card.faults > old(vol.card.faults)
      ensures vol.card.faults >= old(vol.card.faults)
    {
      hide SdVolume.Valid, ChainOk;
      if fileType != Closed {
        return false;
      }
      if vol.g.fatType == 16 {
        RootInOrder();
        fileType, firstCluster, fileSize := Root16, 0, 32 * vol.g.rootDirEntryCount;
      } else {
        firstCluster := vol.g.rootDirStart;
        var size;
        ok, size := ChainBytes(ch);
        if !ok {
          return false;
        }
        fileType, fileSize := Root32, size;
      }
      chain := ch;
      flags := Flags(true, false, false, false, false, false);
      curCluster, curPosition, dirBlock, dirIndex := 0, 0, 0, 0;
      return true;
    }

    lemma RootInOrder()
      requires vol.Valid() && vol.g.fatType == 16 && vol.g.rootDirEntryCount < 0x1_0000
      ensures ChainOk(vol.g, vol.disk, true, [], 0, 32 * vol.g.rootDirEntryCount)
    {
    }

    /** Whether `open` accepts an entry at all. */
    static predicate Opens(e: Entry, oflag: OpenFlags) {
      && (IsFile(e) || IsSubDir(e))
      && ((IsReadOnly(e) || HasAttribute(Attributes(e), DIR_ATT_DIRECTORY)) ==> !oflag.write && !oflag.trunc)
      && (oflag.trunc ==> oflag.write)
    }

    /** Open the file or directory whose entry is in the cached block. The
        handle stands at the start of the bytes the entry describes. */
    method OpenCachedEntry(index: nat, oflag: OpenFlags, ghost ch: seq<nat>) returns (ok: bool)
      requires vol.Valid() && fileType == Closed && index < 16
      requires vol.cacheBlockNumber < vol.size && vol.cacheBuffer[..] == vol.disk[vol.cacheBlockNumber]
      requires Backed(vol.g, vol.disk, vol.cacheBlockNumber, index, ch)
      modifies this,
               vol`cacheDirty, vol`cacheMirrorBlock, vol`cacheBlockNumber, vol`disk, vol`allocSearchStart,
               vol.card, vol.cacheBuffer
      ensures vol.Valid() && vol.Wedged() == old(vol.Wedged())
      ensures ok ==> Valid() && curPosition == 0 && Opens(old(CachedEntry(index)), oflag)
      ensures ok ==> dirBlock == old(vol.cacheBlockNumber) && dirIndex == index
      ensures ok ==> flags == Flags(oflag.read, oflag.write, oflag.append, oflag.sync, false, false)
      ensures ok ==> attributes == Attributes(old(CachedEntry(index)))
      ensures ok ==> fileType == if IsFile(old(CachedEntry(index))) then Normal else SubDir
      ensures ok && !oflag.trunc ==> vol.disk == old(vol.disk) && chain == ch
      ensures ok && !oflag.trunc && fileType == Normal ==>
                Data() == old(StoredData(vol.g, vol.disk, vol.cacheBlockNumber, index, ch))
      ensures ok && !oflag.trunc && fileType == SubDir ==> fileSize == 512 * vol.g.BlocksOf(|ch|)
      ensures ok && oflag.trunc ==> fileSize == 0
      ensures ok && oflag.trunc ==>
                if FileSize(old(CachedEntry(index))) == 0 then vol.disk == old(vol.disk) && chain == ch
                else Cut(vol.g, old(vol.Fat()), old(vol.disk), ch, vol.Fat(), vol.disk, chain, 0,
                         dirBlock, dirIndex)
      ensures !ok ==> !Opens(old(CachedEntry(index)), oflag) || vol.card.faults > old(vol.card.faults)
      ensures vol.card.faults >= old(vol.card.faults)
    {
      hide SdVolume.Valid, ChainValid, EntryValid, CursorValid, Data, Backed, Cut, StoredData, Contents;
      var p := EntryAt(vol.cacheBuffer[..], index);
      ok := Attach(p, index, oflag, ch);
      if ok && oflag.trunc {
        ok := Truncate(0);
      }
    }

    /** Opening up to the truncation. */
    method Attach(p: Entry, index: nat, oflag: OpenFlags, ghost ch: seq<nat>) returns (ok: bool)
      requires vol.Valid() && fileType == Closed && index < 16 && vol.cacheBlockNumber < vol.size
      requires p == EntryAt(vol.disk[vol.cacheBlockNumber], index)
      requires Backed(vol.g, vol.disk, vol.cacheBlockNumber, index, ch)
      modifies this, vol`cacheDirty, vol`cacheMirrorBlock, vol`cacheBlockNumber, vol.card, vol.cacheBuffer
      ensures vol.Valid() && vol.Wedged() == old(vol.Wedged())
      ensures ok ==> Valid() && curPosition == 0 && chain == ch && attributes == Attributes(p)
      ensures ok ==> (IsFile(p) || IsSubDir(p)) && fileType == if IsFile(p) then Normal else SubDir
      ensures ok ==> (IsReadOnly(p) || HasAttribute(Attributes(p), DIR_ATT_DIRECTORY)) ==> !oflag.write && !oflag.trunc
      ensures ok ==> dirBlock == old(vol.cacheBlockNumber) && dirIndex == index
      ensures ok ==> flags == Flags(oflag.read, oflag.write, oflag.append, oflag.sync, false, false)
      ensures ok && fileType == Normal ==>
                fileSize == FileSize(p) && Data() == old(StoredData(vol.g, vol.disk, vol.cacheBlockNumber, index, ch))
      ensures ok && fileType == SubDir ==> fileSize == 512 * vol.g.BlocksOf(|ch|)
      ensures !ok ==> !Opens(p, oflag) || vol.card.faults > old(vol.card.faults)
      ensures vol.card.faults >= old(vol.card.faults)
    {
      hide SdVolume.Valid, ChainOk, EntryOk, Contents, FirstCluster, FileSize, HasAttribute, EntryBlockSafe;
      if IsReadOnly(p) || HasAttribute(Attributes(p), DIR_ATT_DIRECTORY) {
        if oflag.write || oflag.trunc {
          return false;
        }
      }
      dirIndex, dirBlock := index, vol.cacheBlockNumber;
      firstCluster := FirstCluster(p);
      var size := 0;
      if IsFile(p) {
        size := FileSize(p);
      } else if IsSubDir(p) {
        ok, size := ChainBytes(ch);
        if !ok {
          return false;
        }
      } else {
        return false;
      }
      BackedOpens(vol.g, vol.disk, dirBlock, index, ch, size);
      SetOpen(p, size, oflag, ch);
      return true;
    }

    /** Fill in the fields of a handle that is being opened. */
    method SetOpen(p: Entry, size: nat, oflag: OpenFlags, ghost ch: seq<nat>)
      requires |vol.disk| == vol.size && firstCluster == FirstCluster(p)
      requires ChainOk(vol.g, vol.disk, false, ch, firstCluster, size)
      requires EntryOk(vol.g, vol.disk, IsFile(p), ch, false, firstCluster, size, dirBlock, dirIndex, Attributes(p))
      modifies this`fileSize, this`fileType, this`flags, this`curCluster, this`curPosition, this`chain, this`attributes
      ensures ChainValid() && EntryValid() && CursorValid() && curPosition == 0 && fileSize == size
      ensures fileType == (if IsFile(p) then Normal else SubDir) && chain == ch && attributes == Attributes(p)
      ensures flags == Flags(oflag.read, oflag.write, oflag.append, oflag.sync, false, false)
    {
      fileSize := size;
      fileType := if IsFile(p) then Normal else SubDir;
      chain, attributes := ch, Attributes(p);
      flags := Flags(oflag.read, oflag.write, oflag.append, oflag.sync, false, false);
      curCluster := 0;
      curPosition := 0;
    }

    ghost function CachedEntry(index: nat): Entry
      requires vol.cacheBuffer.Length == 512 && index < 16
      reads vol, vol.cacheBuffer
    {
      EntryAt(vol.cacheBuffer[..], index)
    }

    method ChainBytes(ghost ch: seq<nat>) returns (ok: bool, bytes: nat)
      requires vol.Valid() && ch != [] && ChainOk(vol.g, vol.disk, false, ch, firstCluster, 512 * vol.g.BlocksOf(|ch|))
      modifies vol`cacheDirty, vol`cacheMirrorBlock, vol`cacheBlockNumber, vol.card, vol.cacheBuffer
      ensures vol.Valid() && vol.Wedged() == old(vol.Wedged())
      ensures ok ==> bytes == 512 * vol.g.BlocksOf(|ch|)
      ensures !ok ==> vol.card.faults > old(vol.card.faults)
      ensures vol.card.faults >= old(vol.card.faults)
    {
      hide SdVolume.Valid;
      ok, bytes := vol.ChainSize(firstCluster, ch);
    }
  }

  /** Consecutive clusters cover consecutive blocks. */
  lemma ConsecutiveBlocks(g: Layout, size: nat, b: nat, n: nat)
    requires g.Valid(size) && n >= 1 && g.IsCluster(b) && g.IsCluster(b + n - 1)
    ensures g.ClusterStartBlock(b + n - 1) + g.blocksPerCluster == g.ClusterStartBlock(b) + g.BlocksOf(n)
    ensures g.dataStartBlock <= g.ClusterStartBlock(b) && g.ClusterStartBlock(b) + g.BlocksOf(n) <= g.DataEnd()
    ensures g.BlocksOf(n) >= 1
  {
    BlocksOfSum(g, b - 2, n - 1);
    ClusterInData(g, size, b + n - 1);
    BlocksOfMonotone(g, 0, n);
    assert b + n - 1 - 2 == b - 2 + (n - 1);
  }

  /** A file that just filled its last cluster goes on to need it. */
  lemma NeededStays(g: Layout, pos: nat, pos': nat, n: nat)
    requires g.blocksPerCluster > 0 && pos < pos' <= 512 * g.BlocksOf(n)
    ensures Needed(g, pos) == n ==> Needed(g, pos') == n
    ensures Needed(g, pos') == g.ClusterOf((pos' - 1) / 512) + 1
  {
    SplitBound(g, (pos' - 1) / 512, n);
    if pos > 0 {
      SplitMonotone(g, (pos - 1) / 512, (pos' - 1) / 512);
    }
  }

  /** `Needed` clusters are enough for `n` bytes, and one less is not. */
  lemma NeededIsLeast(g: Layout, n: nat)
    requires g.blocksPerCluster > 0
    ensures n <= 512 * g.BlocksOf(Needed(g, n))
    ensures n > 0 ==> 512 * g.BlocksOf(Needed(g, n) - 1) < n
  {
    if n > 0 {
      Split(g, (n - 1) / 512);
    }
  }

  /** That is the size divided by the bytes of a cluster, rounded up. */
  lemma NeededIsQuotient(g: Layout, n: nat)
    requires g.blocksPerCluster > 0
    ensures Needed(g, n) == (n + g.ClusterBytes() - 1) / g.ClusterBytes()
  {
    hide Layout.BlocksOf, Layout.ClusterOf;
    NeededIsLeast(g, n);
    var m := Needed(g, n);
    BlocksOfIsProduct(g, m);
    if n > 0 {
      BlocksOfIsProduct(g, m - 1);
    }
    RoundsUp(n, g.blocksPerCluster, m);
  }

  lemma RoundsUp(n: nat, b: nat, m: nat)
    requires b > 0 && n <= 512 * (m * b) && (if n > 0 then m > 0 && 512 * ((m - 1) * b) < n else m == 0)
    ensures m == (n + 512 * b - 1) / (512 * b)
  {
    var d := 512 * b;
    assert m * d == 512 * (m * b);
    assert m > 0 ==> m * b == (m - 1) * b + b;
    QuotientUnique(n + d - 1, d, m, n + d - 1 - m * d);
  }

  lemma NothingRead(was: seq<byte>, data: seq<byte>, start: nat)
    requires start <= |data|
    ensures was == Overwrite(was, 0, data[start..start + 0])
  {
  }

  /** Two stretches read one behind the other. */
  lemma ReadOn(was: seq<byte>, data: seq<byte>, start: nat, m: nat, n: nat)
    requires start + m + n <= |data| && m + n <= |was|
    ensures Overwrite(Overwrite(was, 0, data[start..start + m]), m, data[start + m..start + m + n])
            == Overwrite(was, 0, data[start..start + (m + n)])
  {
    OverwriteTwice(was, 0, data[start..start + m], data[start + m..start + m + n]);
    assert data[start..start + m] + data[start + m..start + m + n] == data[start..start + (m + n)];
  }

  lemma EntrySpan(pos: nat)
    requires pos % 32 == 1
    ensures pos > 0 && (pos + 30) / 512 == (pos - 1) / 512
  {
  }

  lemma EntryOffset(pos: nat)
    requires pos % 32 == 0
    ensures pos % 512 == 32 * (pos / 32 % 16) && pos % 512 + 32 <= 512
    ensures pos / 512 == pos / 32 / 16
  {
  }

  lemma SpliceNothing(s: seq<byte>, at: nat)
    requires at <= |s|
    ensures Splice(s, at, []) == s
  {
  }

  /** After a cluster was added, the file still has the bytes it had. */
  lemma RoundExtends(g: Layout, fat: Table, disk: Disk, ch: seq<nat>, fat': Table, disk': Disk, ch': seq<nat>, n: nat)
    requires g.Valid(|disk|) && SameOutsideTables(g, disk, disk') && Grew(g, fat, disk, ch, fat', disk', ch')
    requires Sound(g, Clusters(ch)) && Sound(g, Clusters(ch')) && n <= 512 * g.BlocksOf(|ch|)
    ensures n <= 512 * g.BlocksOf(|ch'|)
    ensures Contents(g, disk', Clusters(ch'), n) == Contents(g, disk, Clusters(ch), n)
  {
    ContentsOutsideTables(g, disk, disk', Clusters(ch), n);
    ContentsExtended(g, disk', ch, ch', n);
  }

  /** A position up to the end of a chain of `n` clusters, about to be written. */
  lemma WriteSplit(g: Layout, pos: nat, n: nat)
    requires g.blocksPerCluster > 0 && pos <= 512 * g.BlocksOf(n)
    ensures var idx := g.ClusterOf(pos / 512);
            var starts := pos % 512 == 0 && g.BlockOfCluster(pos / 512) == 0;
            && idx <= n
            && (idx == n <==> pos == 512 * g.BlocksOf(n))
            && (!starts ==> idx < n && pos > 0 && g.ClusterOf((pos - 1) / 512) == idx)
            && (starts && pos > 0 ==> idx > 0 && g.ClusterOf((pos - 1) / 512) == idx - 1)
            && (pos == 0 ==> idx == 0 && starts)
  {
    CursorCluster(g, pos);
    SplitBound(g, pos / 512, n);
    if pos > 0 {
      SplitBound(g, (pos - 1) / 512, n);
    }
    if pos == 512 * g.BlocksOf(n) {
      SplitUnique(g, n, 0, pos / 512);
    }
  }

  /** The cluster of the byte at `pos` is that of the byte before it, or the
      next one when `pos` starts a cluster. */
  lemma CursorCluster(g: Layout, pos: nat)
    requires g.blocksPerCluster > 0
    ensures pos == 0 ==> g.BlockOfCluster(pos / 512) == 0 && g.ClusterOf(pos / 512) == 0
    ensures pos > 0 ==>
              var before := g.ClusterOf((pos - 1) / 512);
              g.ClusterOf(pos / 512) ==
              if pos % 512 == 0 && g.BlockOfCluster(pos / 512) == 0 then before + 1 else before
  {
    if pos > 0 && pos % 512 == 0 {
      assert (pos - 1) / 512 + 1 == pos / 512;
      SplitNext(g, (pos - 1) / 512);
    } else if pos > 0 {
      assert (pos - 1) / 512 == pos / 512;
    }
  }
}
