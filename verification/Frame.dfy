/** What an operation in one directory leaves alone on the whole volume: the
    chains and bytes of every file and directory it has nothing to do with. */
module Frames {
  import opened Bytes
  import opened Geometry
  import opened Chains
  import opened TableBlocks
  import opened FileBytes
  import opened Files
  import opened Directory

  /** The chains an operation works on: the directory's and the file's. */
  ghost function Owned(x: Extent, ch: seq<nat>): set<seq<nat>> {
    set c | c in [OwnChain(x), ch] && c != []
  }

  /** The clusters of these chains. */
  ghost function Mine(x: Extent, ch: seq<nat>): (r: set<nat>)
    ensures forall c :: c in r <==> c in OwnChain(x) || c in ch
  {
    Members(OwnChain(x)) + Members(ch)
  }

  lemma MineIsUnion(x: Extent, ch: seq<nat>)
    ensures Mine(x, ch) == Union(Owned(x, ch))
  {
    forall c | c in Mine(x, ch)
      ensures c in Union(Owned(x, ch))
    {
      assert c in OwnChain(x) ==> OwnChain(x) in Owned(x, ch);
      assert c in ch ==> ch in Owned(x, ch);
    }
  }

  /** Block `b` is of no concern: outside the tables, in no free cluster and in
      none of mine, and not in the root directory if that is the directory. */
  ghost predicate Foreign(g: Layout, fat: Table, mine: set<nat>, root: bool, b: nat)
    requires |fat| == g.TableLength()
  {
    && !g.InTables(b)
    && !(root && g.InRootDir(b))
    && forall c: nat | g.IsCluster(c) && g.InCluster(c, b) :: fat[c] != 0 && c !in mine
  }

  /** The table entries of clusters in use by others are the same, none of these
      clusters was taken, and all foreign blocks are the same. */
  ghost predicate OthersSpared(g: Layout, disk: Disk, disk': Disk, mine: set<nat>, mine': set<nat>, root: bool)
    requires g.Valid(|disk|)
  {
    && |disk'| == |disk|
    && (forall c | 0 <= c < g.TableLength() && TableOf(g, disk)[c] != 0 && c !in mine ::
          TableOf(g, disk')[c] == TableOf(g, disk)[c] && c !in mine')
    && (forall b | 0 <= b < |disk| && Foreign(g, TableOf(g, disk), mine, root, b) :: disk'[b] == disk[b])
  }

  lemma SparedRefl(g: Layout, disk: Disk, mine: set<nat>, root: bool)
    requires g.Valid(|disk|)
    ensures OthersSpared(g, disk, disk, mine, mine, root)
  {
  }

  lemma SparedTrans(g: Layout, a: Disk, b: Disk, c: Disk, mine: set<nat>, mine1: set<nat>, mine2: set<nat>, root: bool)
    requires g.Valid(|a|) && OthersSpared(g, a, b, mine, mine1, root) && OthersSpared(g, b, c, mine1, mine2, root)
    ensures OthersSpared(g, a, c, mine, mine2, root)
  {
    forall k | 0 <= k < |a| && Foreign(g, TableOf(g, a), mine, root, k)
      ensures c[k] == a[k]
    {
      assert Foreign(g, TableOf(g, b), mine1, root, k);
    }
  }

  /** An operation on the file of one slot spares the others. */
  lemma SlotOpSpares(g: Layout, disk: Disk, disk': Disk, x: Extent, n: nat, k: nat, ch: seq<nat>, ch': seq<nat>)
    requires DirExtent(g, disk, x, n) && SlotOp(g, disk, disk', x, n, k, ch, ch')
    requires forall c | c in ch :: g.IsCluster(c)
    ensures OthersSpared(g, disk, disk', Mine(x, ch), Mine(x, ch'), x.RootDir?)
  {
    forall b | 0 <= b < |disk| && Foreign(g, TableOf(g, disk), Mine(x, ch), x.RootDir?, b)
      ensures !InExtent(g, ch', b) && b != SlotBlock(g, |disk|, x, k)
    {
      if x.Clusters? {
        assert x.ch[g.ClusterOf(k / 16)] in x.ch;
      }
      forall c | c in ch' && 2 <= c && g.InCluster(c, b)
        ensures false
      {
        assert g.IsCluster(c);
      }
    }
  }

  /** Growing a directory and changing its blocks spares the others. */
  lemma DirChangeSpares(g: Layout, disk: Disk, disk': Disk, x: Extent, x': Extent)
    requires g.Valid(|disk|) && x.RootDir? == x'.RootDir? && OnlyDirChanged(g, disk, disk', x')
    requires forall c | c in OwnChain(x) :: g.IsCluster(c)
    requires OnlyMineChanged(TableOf(g, disk), TableOf(g, disk'), OwnChain(x), OwnChain(x'))
    ensures OthersSpared(g, disk, disk', Mine(x, []), Mine(x', []), x.RootDir?)
  {
    forall b | 0 <= b < |disk| && Foreign(g, TableOf(g, disk), Mine(x, []), x.RootDir?, b)
      ensures !InExtent(g, OwnChain(x'), b)
    {
      forall c | c in OwnChain(x') && 2 <= c && g.InCluster(c, b)
        ensures false
      {
        assert g.IsCluster(c);
      }
    }
  }

  /** The blocks of chain `ch` are the same. */
  ghost predicate SameBlocks(g: Layout, disk: Disk, disk': Disk, ch: seq<nat>) {
    |disk'| == |disk| && forall b | 0 <= b < |disk| && InExtent(g, ch, b) :: disk'[b] == disk[b]
  }

  lemma SameBlocksSameBytes(g: Layout, disk: Disk, disk': Disk, ch: seq<nat>, m: nat)
    requires g.Valid(|disk|) && SameBlocks(g, disk, disk', ch)
    requires Sound(g, Clusters(ch)) && m <= 512 * g.BlocksOf(|ch|)
    ensures Contents(g, disk', Clusters(ch), m) == Contents(g, disk, Clusters(ch), m)
  {
    forall i | 0 <= i < g.BlocksOf(|ch|)
      ensures disk'[FileBlock(g, |disk|, Clusters(ch), i)] == disk[FileBlock(g, |disk|, Clusters(ch), i)]
    {
      SplitBound(g, i, |ch|);
      assert ch[g.ClusterOf(i)] in ch;
      assert InExtent(g, ch, FileBlock(g, |disk|, Clusters(ch), i));
    }
    ContentsFramed(g, disk, disk', Clusters(ch), m);
  }

  /** The file or directory with the chain `ch` has the bytes it had. */
  ghost predicate SameBytes(g: Layout, disk: Disk, disk': Disk, ch: seq<nat>)
    requires g.Valid(|disk|)
  {
    && |disk'| == |disk|
    && Sound(g, Clusters(ch))
    && forall m: nat | m <= 512 * g.BlocksOf(|ch|) ::
         Contents(g, disk', Clusters(ch), m) == Contents(g, disk, Clusters(ch), m)
  }

  /** A chain of others keeps its bytes. */
  lemma ForeignBytes(g: Layout, disk: Disk, disk': Disk, mine: set<nat>, mine': set<nat>, root: bool, ch: seq<nat>)
    requires g.Valid(|disk|) && OthersSpared(g, disk, disk', mine, mine', root)
    requires IsChain(TableOf(g, disk), g.EocMin(), ch) && forall c | c in ch :: c !in mine
    ensures SameBytes(g, disk, disk', ch)
  {
    ChainSound(g, disk, ch);
    forall b | 0 <= b < |disk| && InExtent(g, ch, b)
      ensures disk'[b] == disk[b]
    {
      var c :| c in ch && 2 <= c && g.InCluster(c, b);
      ClusterInData(g, |disk|, c);
      ChainInUse(TableOf(g, disk), g.EocMin(), ch, c);
      forall d: nat | g.IsCluster(d) && g.InCluster(d, b)
        ensures d == c
      {
        ClustersDisjoint(g, c, d, b);
      }
      assert Foreign(g, TableOf(g, disk), mine, root, b);
    }
    forall m: nat | m <= 512 * g.BlocksOf(|ch|)
      ensures Contents(g, disk', Clusters(ch), m) == Contents(g, disk, Clusters(ch), m)
    {
      SameBlocksSameBytes(g, disk, disk', ch, m);
    }
  }

  /** Whatever chains the volume has beside those in `before`: with `after` in
      place of `before` they are a family of chains again, and each has the bytes
      it had. So has the root directory, unless it is the directory at work. */
  ghost predicate VolumeKept(g: Layout, disk: Disk, disk': Disk, before: set<seq<nat>>, after: set<seq<nat>>,
                             root: bool)
    requires g.Valid(|disk|)
  {
    && |disk'| == |disk|
    && (forall family | IsChainFamily(TableOf(g, disk), g.EocMin(), family) && before <= family ::
          && IsChainFamily(TableOf(g, disk'), g.EocMin(), family - before + after)
          && forall ch | ch in family - before :: SameBytes(g, disk, disk', ch))
    && (!root ==> forall b | 0 <= b < |disk| && g.InRootDir(b) :: disk'[b] == disk[b])
  }

  /** The frame of an operation, for all chains of the volume at once. */
  lemma SparedKeepsVolume(g: Layout, disk: Disk, disk': Disk, before: set<seq<nat>>, after: set<seq<nat>>, root: bool)
    requires g.Valid(|disk|) && OthersSpared(g, disk, disk', Union(before), Union(after), root)
    requires IsChainFamily(TableOf(g, disk'), g.EocMin(), after)
    ensures VolumeKept(g, disk, disk', before, after, root)
  {
    forall family | IsChainFamily(TableOf(g, disk), g.EocMin(), family) && before <= family
      ensures IsChainFamily(TableOf(g, disk'), g.EocMin(), family - before + after)
      ensures forall ch | ch in family - before :: SameBytes(g, disk, disk', ch)
    {
      FamilyPreserved(TableOf(g, disk), TableOf(g, disk'), g.EocMin(), family, before, after);
      forall ch | ch in family - before
        ensures SameBytes(g, disk, disk', ch)
      {
        ApartFromUnion(TableOf(g, disk), g.EocMin(), family, before, ch);
        ForeignBytes(g, disk, disk', Union(before), Union(after), root, ch);
      }
    }
    forall b | 0 <= b < |disk| && g.InRootDir(b) && !root
      ensures disk'[b] == disk[b]
    {
      OutsideData(g, |disk|, b);
      assert Foreign(g, TableOf(g, disk), Union(before), root, b);
    }
  }

  lemma OutsideData(g: Layout, size: nat, b: nat)
    requires g.Valid(size) && g.InRootDir(b)
    ensures !g.InTables(b) && forall c: nat | g.IsCluster(c) :: !g.InCluster(c, b)
  {
    forall c: nat | g.IsCluster(c)
      ensures !g.InCluster(c, b)
    {
      ClusterInData(g, size, c);
    }
  }

  /** The chains of a directory and of one of its slots are a family. */
  lemma OwnedIsFamily(g: Layout, disk: Disk, x: Extent, n: nat, chains: seq<seq<nat>>, open: set<nat>, k: nat)
    requires DirSound(g, disk, x, n, chains, open) && k < n / 32
    ensures IsChainFamily(TableOf(g, disk), g.EocMin(), Owned(x, chains[k]))
  {
    hide IsChain, DirSound, Apart;
    ChainsAreFamily(g, disk, x, n, chains, open);
    assert chains[k] in chains + [OwnChain(x)];
    assert Owned(x, chains[k]) <= AllChains(x, chains);
  }

  /** An operation in a directory, seen from the whole volume. */
  lemma OperationKeepsVolume(g: Layout, disk: Disk, disk': Disk, x: Extent, ch: seq<nat>, x': Extent, n': nat,
                             chains': seq<seq<nat>>, open': set<nat>, k: nat)
    requires g.Valid(|disk|) && DirSound(g, disk', x', n', chains', open') && k < n' / 32
    requires OthersSpared(g, disk, disk', Mine(x, ch), Mine(x', chains'[k]), x.RootDir?)
    ensures VolumeKept(g, disk, disk', Owned(x, ch), Owned(x', chains'[k]), x.RootDir?)
  {
    hide DirSound, OthersSpared, VolumeKept, IsChainFamily;
    MineIsUnion(x, ch);
    MineIsUnion(x', chains'[k]);
    OwnedIsFamily(g, disk', x', n', chains', open', k);
    SparedKeepsVolume(g, disk, disk', Owned(x, ch), Owned(x', chains'[k]), x.RootDir?);
  }
}
