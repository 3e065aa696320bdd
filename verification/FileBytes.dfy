/** The bytes of a file or directory: where they lie on the disk, and what
    writing, extending and changing other blocks does to them. */
module FileBytes {
  import opened Bytes
  import opened Geometry
  import opened Chains
  import opened TableBlocks

  /** Where a file or directory is stored. */
  datatype Extent = RootDir | Clusters(ch: seq<nat>)

  ghost predicate Sound(g: Layout, x: Extent) {
    match x
    case RootDir => g.fatType == 16
    case Clusters(ch) =>
      && (forall i | 0 <= i < |ch| :: g.IsCluster(ch[i]))
      && (forall i, j | 0 <= i < j < |ch| :: ch[i] != ch[j])
  }

  function NumBlocks(g: Layout, x: Extent): nat {
    match x
    case RootDir => g.RootBlocks()
    case Clusters(ch) => g.BlocksOf(|ch|)
  }

  /** Block of the card that holds the `k`-th block of the file. */
  function FileBlock(g: Layout, size: nat, x: Extent, k: nat): (b: nat)
    requires g.Valid(size) && Sound(g, x) && k < NumBlocks(g, x)
    ensures b < size && !g.InTables(b) && b != 0
    ensures x.RootDir? ==> g.InRootDir(b)
    ensures x.Clusters? ==> g.ClusterOf(k) < |x.ch| && g.InCluster(x.ch[g.ClusterOf(k)], b)
  {
    match x
    case RootDir => g.rootDirStart + k
    case Clusters(ch) =>
      Split(g, k);
      SplitBound(g, k, |ch|);
      ClusterInData(g, size, ch[g.ClusterOf(k)]);
      g.ClusterStartBlock(ch[g.ClusterOf(k)]) + g.BlockOfCluster(k)
  }

  /** Different blocks of a file lie in different blocks of the card. */
  lemma FileBlocksDistinct(g: Layout, size: nat, x: Extent, k: nat, m: nat)
    requires g.Valid(size) && Sound(g, x) && k < NumBlocks(g, x) && m < NumBlocks(g, x)
    requires FileBlock(g, size, x, k) == FileBlock(g, size, x, m)
    ensures k == m
  {
    if x.Clusters? {
      var b := FileBlock(g, size, x, k);
      var i, j := g.ClusterOf(k), g.ClusterOf(m);
      ClustersDisjoint(g, x.ch[i], x.ch[j], b);
      assert i == j;
      Split(g, k);
      Split(g, m);
    }
  }

  function FileByte(g: Layout, disk: Disk, x: Extent, i: nat): byte
    requires g.Valid(|disk|) && Sound(g, x) && i < 512 * NumBlocks(g, x)
  {
    disk[FileBlock(g, |disk|, x, i / 512)][i % 512]
  }

  /** The first `n` bytes of the file. */
  ghost function Contents(g: Layout, disk: Disk, x: Extent, n: nat): (r: seq<byte>)
    requires g.Valid(|disk|) && Sound(g, x) && n <= 512 * NumBlocks(g, x)
    ensures |r| == n
    ensures forall i | 0 <= i < n :: r[i] == FileByte(g, disk, x, i)
  {
    seq(n, i requires 0 <= i < n => FileByte(g, disk, x, i))
  }

  /** A stretch of the contents that lies in one block is that slice of it. */
  lemma ContentsInBlock(g: Layout, disk: Disk, x: Extent, n: nat, pos: nat, count: nat)
    requires g.Valid(|disk|) && Sound(g, x) && n <= 512 * NumBlocks(g, x)
    requires pos + count <= n && count > 0 && pos % 512 + count <= 512
    ensures pos / 512 < NumBlocks(g, x)
    ensures Contents(g, disk, x, n)[pos..pos + count]
            == disk[FileBlock(g, |disk|, x, pos / 512)][pos % 512..pos % 512 + count]
  {
    var blk := disk[FileBlock(g, |disk|, x, pos / 512)];
    var r := Contents(g, disk, x, n)[pos..pos + count];
    forall i | 0 <= i < count
      ensures r[i] == blk[pos % 512 + i]
    {
      assert (pos + i) / 512 == pos / 512 && (pos + i) % 512 == pos % 512 + i;
    }
  }

  /** The file keeps its contents when its blocks do. */
  lemma ContentsFramed(g: Layout, disk: Disk, disk': Disk, x: Extent, n: nat)
    requires g.Valid(|disk|) && |disk'| == |disk| && Sound(g, x) && n <= 512 * NumBlocks(g, x)
    requires forall k | 0 <= k < NumBlocks(g, x) ::
               disk'[FileBlock(g, |disk|, x, k)] == disk[FileBlock(g, |disk|, x, k)]
    ensures Contents(g, disk', x, n) == Contents(g, disk, x, n)
  {
  }

  lemma ContentsOutsideTables(g: Layout, disk: Disk, disk': Disk, x: Extent, n: nat)
    requires g.Valid(|disk|) && SameOutsideTables(g, disk, disk') && Sound(g, x) && n <= 512 * NumBlocks(g, x)
    ensures Contents(g, disk', x, n) == Contents(g, disk, x, n)
  {
    ContentsFramed(g, disk, disk', x, n);
  }

  lemma FileBlockExtended(g: Layout, size: nat, ch: seq<nat>, ch': seq<nat>, k: nat)
    requires g.Valid(size) && Sound(g, Clusters(ch)) && Sound(g, Clusters(ch'))
    requires ch <= ch' && k < g.BlocksOf(|ch|)
    ensures k < g.BlocksOf(|ch'|)
    ensures FileBlock(g, size, Clusters(ch'), k) == FileBlock(g, size, Clusters(ch), k)
  {
    SplitBound(g, k, |ch|);
    SplitBound(g, k, |ch'|);
  }

  /** Further clusters do not change the bytes already there. */
  lemma ContentsExtended(g: Layout, disk: Disk, ch: seq<nat>, ch': seq<nat>, n: nat)
    requires g.Valid(|disk|) && Sound(g, Clusters(ch)) && Sound(g, Clusters(ch'))
    requires ch <= ch' && n <= 512 * g.BlocksOf(|ch|)
    ensures n <= 512 * g.BlocksOf(|ch'|)
    ensures Contents(g, disk, Clusters(ch'), n) == Contents(g, disk, Clusters(ch), n)
  {
    if n > 0 {
      FileBlockExtended(g, |disk|, ch, ch', (n - 1) / 512);
    }
    var was, now := Contents(g, disk, Clusters(ch), n), Contents(g, disk, Clusters(ch'), n);
    forall i | 0 <= i < n
      ensures now[i] == was[i]
    {
      FileBlockExtended(g, |disk|, ch, ch', i / 512);
    }
  }

  /** The sequence `s` with `d` laid over it from `at`, growing it as needed. */
  function Splice(s: seq<byte>, at: nat, d: seq<byte>): (r: seq<byte>)
    requires at <= |s|
    ensures |r| == if at + |d| > |s| then at + |d| else |s|
    ensures forall i | 0 <= i < |r| :: r[i] == if at <= i < at + |d| then d[i - at] else s[i]
  {
    s[..at] + d + (if at + |d| < |s| then s[at + |d|..] else [])
  }

  lemma SpliceTwice(s: seq<byte>, at: nat, d: seq<byte>, e: seq<byte>)
    requires at <= |s|
    ensures Splice(Splice(s, at, d), at + |d|, e) == Splice(s, at, d + e)
  {
  }

  /** Writing `d` within one block of the file splices it into the contents,
      provided the other bytes of that block below the length stay. */
  lemma WriteInBlock(g: Layout, disk: Disk, disk': Disk, x: Extent, n: nat, pos: nat, d: seq<byte>)
    requires g.Valid(|disk|) && |disk'| == |disk| && Sound(g, x)
    requires pos <= n <= 512 * NumBlocks(g, x) && d != [] && pos % 512 + |d| <= 512
    requires pos / 512 < NumBlocks(g, x)
    requires var b := FileBlock(g, |disk|, x, pos / 512);
             && SameExcept(disk, disk', b)
             && disk'[b][pos % 512..pos % 512 + |d|] == d
             && (forall j | 0 <= j < 512 && !(pos % 512 <= j < pos % 512 + |d|) && pos - pos % 512 + j < n ::
                   disk'[b][j] == disk[b][j])
    ensures var m := if pos + |d| > n then pos + |d| else n;
            && m <= 512 * NumBlocks(g, x)
            && Contents(g, disk', x, m) == Splice(Contents(g, disk, x, n), pos, d)
  {
    var m := if pos + |d| > n then pos + |d| else n;
    var b := FileBlock(g, |disk|, x, pos / 512);
    var was, now := Splice(Contents(g, disk, x, n), pos, d), Contents(g, disk', x, m);
    forall i | 0 <= i < m
      ensures now[i] == was[i]
    {
      if i / 512 == pos / 512 {
        assert disk'[b][i % 512] == now[i];
        if pos <= i < pos + |d| {
          assert disk'[b][pos % 512..pos % 512 + |d|][i - pos] == disk'[b][i % 512];
        }
      } else if FileBlock(g, |disk|, x, i / 512) == b {
        FileBlocksDistinct(g, |disk|, x, i / 512, pos / 512);
      }
    }
  }

  /** Well-formed chains are sound extents. */
  lemma ChainSound(g: Layout, disk: Disk, ch: seq<nat>)
    requires g.Valid(|disk|) && IsChainOrNil(TableOf(g, disk), g.EocMin(), ch)
    ensures Sound(g, Clusters(ch))
  {
  }

  ghost predicate InExtent(g: Layout, ch: seq<nat>, b: nat) {
    exists c :: c in ch && 2 <= c && g.InCluster(c, b)
  }
}
