/** The layout of a FAT16 or FAT32 volume: which blocks hold the allocation
    tables, the FAT16 root directory and each cluster. */
module Geometry {
  import opened Bytes

  const NO_BLOCK: nat := 0xFFFF_FFFF
  const FAT16EOC_MIN: nat := 0xFFF8
  const FAT32EOC_MIN: nat := 0x0FFF_FFF8
  const FAT_EOC: nat := 0x0FFF_FFFF

  datatype Layout = Layout(
    fatType: nat,
    fatCount: nat,
    blocksPerFat: nat,
    fatStartBlock: nat,
    rootDirStart: nat,
    rootDirEntryCount: nat,
    dataStartBlock: nat,
    clusterSizeShift: nat,
    blocksPerCluster: nat,
    clusterCount: nat)
  {
    /** Smallest table value that marks the end of a chain. */
    function EocMin(): nat {
      if fatType == 16 then FAT16EOC_MIN else FAT32EOC_MIN
    }

    predicate IsEoc(v: nat) {
      v >= EocMin()
    }

    function TableLength(): nat {
      clusterCount + 2
    }

    /** End of the tables the library maintains: the first one and its mirror. */
    function TablesEnd(): nat {
      fatStartBlock + (if fatCount > 1 then 2 * blocksPerFat else blocksPerFat)
    }

    function RootBlocks(): nat {
      if fatType == 16 then (32 * rootDirEntryCount + 511) / 512 else 0
    }

    function ClusterBytes(): nat {
      512 * blocksPerCluster
    }

    /** Blocks of `n` clusters, and the cluster and the block within it that
        the `k`-th block of a file falls in. See the lemmas below for the
        closed forms. */
    function BlocksOf(n: nat): nat {
      if n == 0 then 0 else BlocksOf(n - 1) + blocksPerCluster
    }

    function ClusterOf(k: nat): nat {
      if blocksPerCluster == 0 || k < blocksPerCluster then 0 else 1 + ClusterOf(k - blocksPerCluster)
    }

    function BlockOfCluster(k: nat): nat {
      if blocksPerCluster == 0 || k < blocksPerCluster then k else BlockOfCluster(k - blocksPerCluster)
    }

    function DataEnd(): nat {
      dataStartBlock + BlocksOf(clusterCount)
    }

    /** A well-formed volume on a card of `size` blocks: tables, root directory
        and data follow each other, the table has an entry for every cluster,
        and no cluster number reads as an end mark. */
    predicate Valid(size: nat) {
      && (fatType == 16 || fatType == 32)
      && 1 <= fatCount
      && 1 <= fatStartBlock
      && TableLength() <= EocMin() - 1
      && 1 <= clusterCount
      && TableLength() <= blocksPerFat * (if fatType == 16 then 256 else 128)
      && TablesEnd() <= (if fatType == 16 then rootDirStart else dataStartBlock)
      && (fatType == 16 ==> rootDirStart + RootBlocks() <= dataStartBlock)
      && 1 <= blocksPerCluster <= 128
      && DataEnd() <= size
      && size <= NO_BLOCK
    }

    predicate InFirstTable(b: int) {
      fatStartBlock <= b < fatStartBlock + blocksPerFat
    }

    predicate InTables(b: int) {
      fatStartBlock <= b < TablesEnd()
    }

    predicate InRootDir(b: int) {
      fatType == 16 && rootDirStart <= b < rootDirStart + RootBlocks()
    }

    predicate InData(b: int) {
      dataStartBlock <= b < DataEnd()
    }

    /** Number of a cluster: table entries 0 and 1 are reserved. */
    predicate IsCluster(c: int) {
      2 <= c < TableLength()
    }

    function ClusterStartBlock(c: nat): nat
      requires 2 <= c
    {
      dataStartBlock + BlocksOf(c - 2)
    }

    predicate InCluster(c: nat, b: int)
      requires 2 <= c
    {
      ClusterStartBlock(c) <= b < ClusterStartBlock(c) + blocksPerCluster
    }

    /** Block of the first table that holds the entry of cluster `c`. */
    function TableBlock(c: nat): nat {
      fatStartBlock + (if fatType == 16 then c / 256 else c / 128)
    }
  }

  lemma {:induction false} BlocksOfIsProduct(g: Layout, n: nat)
    ensures g.BlocksOf(n) == n * g.blocksPerCluster
  {
    if n > 0 {
      BlocksOfIsProduct(g, n - 1);
    }
  }

  lemma {:induction false} Split(g: Layout, k: nat)
    requires g.blocksPerCluster > 0
    ensures g.BlockOfCluster(k) < g.blocksPerCluster
    ensures k == g.BlocksOf(g.ClusterOf(k)) + g.BlockOfCluster(k)
  {
    if k >= g.blocksPerCluster {
      Split(g, k - g.blocksPerCluster);
    }
  }

  lemma {:induction false} ProductOrder(m: nat, n: nat, b: nat)
    ensures m < n ==> m * b + b <= n * b
  {
    if m < n {
      ProductOrder(m, n - 1, b);
      assert n * b == (n - 1) * b + b;
    }
  }

  lemma QuotientUnique(k: nat, b: nat, q: nat, r: nat)
    requires r < b && k == q * b + r
    ensures k / b == q && k % b == r
  {
    var q', r' := k / b, k % b;
    assert k == q' * b + r';
    ProductOrder(q', q, b);
    ProductOrder(q, q', b);
  }

  /** Splitting a block number into cluster and block of cluster is division:
      the shift and the mask of the library, for a power of two. */
  lemma SplitIsDivision(g: Layout, k: nat)
    requires g.blocksPerCluster > 0
    ensures g.ClusterOf(k) == k / g.blocksPerCluster
    ensures g.BlockOfCluster(k) == k % g.blocksPerCluster
  {
    Split(g, k);
    BlocksOfIsProduct(g, g.ClusterOf(k));
    QuotientUnique(k, g.blocksPerCluster, g.ClusterOf(k), g.BlockOfCluster(k));
  }

  lemma {:induction false} BlocksOfMonotone(g: Layout, m: nat, n: nat)
    requires m < n
    ensures g.BlocksOf(m) + g.blocksPerCluster <= g.BlocksOf(n)
  {
    if m < n - 1 {
      BlocksOfMonotone(g, m, n - 1);
    }
  }

  lemma {:induction false} BlocksOfSum(g: Layout, m: nat, n: nat)
    ensures g.BlocksOf(m + n) == g.BlocksOf(m) + g.BlocksOf(n)
  {
    if n > 0 {
      BlocksOfSum(g, m, n - 1);
    }
  }

  lemma SplitUnique(g: Layout, n: nat, r: nat, k: nat)
    requires r < g.blocksPerCluster && k == g.BlocksOf(n) + r
    ensures g.ClusterOf(k) == n && g.BlockOfCluster(k) == r
  {
    Split(g, k);
    if g.ClusterOf(k) < n {
      BlocksOfMonotone(g, g.ClusterOf(k), n);
    } else if n < g.ClusterOf(k) {
      BlocksOfMonotone(g, n, g.ClusterOf(k));
    }
  }

  /** The next block is in the next cluster exactly when it starts one. */
  lemma SplitNext(g: Layout, k: nat)
    requires g.blocksPerCluster > 0
    ensures g.BlockOfCluster(k + 1) == 0 ==> g.ClusterOf(k + 1) == g.ClusterOf(k) + 1
    ensures g.BlockOfCluster(k + 1) != 0 ==> g.ClusterOf(k + 1) == g.ClusterOf(k)
  {
    Split(g, k);
    var n, r := g.ClusterOf(k), g.BlockOfCluster(k);
    if r + 1 < g.blocksPerCluster {
      SplitUnique(g, n, r + 1, k + 1);
    } else {
      SplitUnique(g, n + 1, 0, k + 1);
    }
  }

  lemma SplitMonotone(g: Layout, k: nat, m: nat)
    requires g.blocksPerCluster > 0 && k <= m
    ensures g.ClusterOf(k) <= g.ClusterOf(m)
  {
    Split(g, k);
    Split(g, m);
    if g.ClusterOf(m) < g.ClusterOf(k) {
      BlocksOfMonotone(g, g.ClusterOf(m), g.ClusterOf(k));
    }
  }

  /** A file of `n` clusters has the blocks below `BlocksOf(n)`. */
  lemma SplitBound(g: Layout, k: nat, n: nat)
    requires g.blocksPerCluster > 0
    ensures k < g.BlocksOf(n) <==> g.ClusterOf(k) < n
  {
    Split(g, k);
    if g.ClusterOf(k) < n {
      BlocksOfMonotone(g, g.ClusterOf(k), n);
    } else if n < g.ClusterOf(k) {
      BlocksOfMonotone(g, n, g.ClusterOf(k));
    }
  }

  lemma ClusterInData(g: Layout, size: nat, c: nat)
    requires g.Valid(size) && g.IsCluster(c)
    ensures g.dataStartBlock <= g.ClusterStartBlock(c)
    ensures g.ClusterStartBlock(c) + g.blocksPerCluster <= g.DataEnd()
  {
    BlocksOfMonotone(g, c - 2, g.clusterCount);
  }

  /** Distinct clusters share no block. */
  lemma ClustersDisjoint(g: Layout, c: nat, d: nat, b: int)
    requires 2 <= c && 2 <= d
    requires g.InCluster(c, b) && g.InCluster(d, b)
    ensures c == d
  {
    if c < d {
      BlocksOfMonotone(g, c - 2, d - 2);
    } else if d < c {
      BlocksOfMonotone(g, d - 2, c - 2);
    }
  }

  /** The tables, the root directory and the data area are pairwise disjoint
      and lie on the card. */
  lemma RegionsDisjoint(g: Layout, size: nat, b: int)
    requires g.Valid(size)
    ensures !(g.InTables(b) && g.InRootDir(b))
    ensures !(g.InTables(b) && g.InData(b))
    ensures !(g.InRootDir(b) && g.InData(b))
    ensures g.InTables(b) || g.InRootDir(b) || g.InData(b) ==> 1 <= b < size
  {
  }

  /** The end marks are the values whose bits above the lowest three are all
      set: of 16 bits, and of 28 on FAT32. */
  lemma EndMarks(g: Layout, v: nat)
    requires v < (if g.fatType == 16 then 0x1_0000 else 0x1000_0000)
    ensures g.IsEoc(v) <==> v / 8 == (if g.fatType == 16 then 0x1FFF else 0x1FF_FFFF)
  {
  }

  /** The root directory has the least number of blocks that hold its entries of
      32 bytes. */
  lemma RootBlocksLeast(g: Layout)
    requires g.fatType == 16
    ensures 32 * g.rootDirEntryCount <= 512 * g.RootBlocks() < 32 * g.rootDirEntryCount + 512
  {
  }

  lemma TableBlockInFirst(g: Layout, size: nat, c: nat)
    requires g.Valid(size) && c < g.TableLength()
    ensures g.InFirstTable(g.TableBlock(c))
    ensures g.fatCount > 1 ==> g.InTables(g.TableBlock(c) + g.blocksPerFat)
  {
  }
}
