/** What a write does to the cached block, and when it leaves a dirty buffer
    without a block number behind. */
module CacheFate {
  import opened Geometry
  import opened FileBytes

  /** What the cache holds: a block number and whether the buffer is dirty. */
  datatype Cached = Cached(number: nat, dirty: bool) {
    /** A dirty buffer without a block: it can never be flushed. */
    predicate Lost() { dirty && number == NO_BLOCK }
  }

  /** Where a write begins: the position, the clusters the file has, and the
      cache. */
  datatype Beginning = Beginning(start: nat, ch: seq<nat>, cached: Cached)

  /** A seek from position `pos` to `pos'` follows the chain, which begins at the
      first cluster again when the new position is before the current cluster. */
  predicate Follows(g: Layout, pos: nat, pos': nat) {
    pos' > 0 &&
    var cluster := g.ClusterOf((pos' - 1) / 512);
    if pos == 0 || cluster < g.ClusterOf((pos - 1) / 512) then cluster > 0
    else cluster > g.ClusterOf((pos - 1) / 512)
  }

  /** A write at `pos` in a file of `n` clusters begins by looking at the table. */
  predicate LooksUp(g: Layout, pos: nat, n: nat) {
    pos % 512 == 0 && g.BlockOfCluster(pos / 512) == 0 && (pos > 0 || n == 0)
  }

  /** The block number cached after the cached block `number` may have been
      dropped for `block`. */
  function Dropped(number: nat, block: nat): nat {
    if number == block then NO_BLOCK else number
  }

  /** What one round of a write makes of the cache: a whole block drops a cached
      copy and leaves the dirty mark, a partial block is cached dirty, and looking
      at the table caches a table block. */
  predicate RoundCache(g: Layout, looked: bool, whole: bool, block: nat, was: Cached, now: Cached) {
    if !whole then now == Cached(block, true)
    else if looked then g.InTables(now.number)
    else now == was.(number := Dropped(was.number, block))
  }

  /** Looking at the table or not, and then storing. */
  lemma LookedThenStored(g: Layout, looked: bool, whole: bool, block: nat, was: Cached, mid: Cached, now: Cached)
    requires if looked then g.InTables(mid.number) else mid == was
    requires RoundCache(g, false, whole, block, mid, now) && !g.InTables(block)
    ensures RoundCache(g, looked, whole, block, was, now)
  {
  }

  /** What is lost stays lost: only whole blocks can be stored then, and no table
      block can be looked at. */
  lemma StaysLost(g: Layout, whole: bool, block: nat, was: Cached, now: Cached)
    requires whole && RoundCache(g, false, whole, block, was, now) && was.Lost()
    ensures now.Lost()
  {
  }

  /** The cached block is dirty and one of the whole blocks that a write of `n`
      bytes stores before it first looks at the table. */
  predicate Endangered(g: Layout, b: Beginning, n: nat) {
    && b.cached.dirty
    && b.start % 512 == 0
    && !LooksUp(g, b.start, |b.ch|)
    && g.ClusterOf(b.start / 512) < |b.ch|
    && var c := b.ch[g.ClusterOf(b.start / 512)];
       && c >= 2
       && g.InCluster(c, b.cached.number)
       && var first := g.ClusterStartBlock(c) + g.BlockOfCluster(b.start / 512);
          first <= b.cached.number < first + n / 512
  }

  /** The same for a write that first seeks to `pos`: a seek that follows the
      chain flushes the cached block and so saves it. */
  predicate InTheWay(g: Layout, b: Beginning, pos: nat, n: nat) {
    !Follows(g, b.start, pos) && Endangered(g, b.(start := pos), n)
  }

  lemma NoSeekNoFollow(g: Layout, pos: nat)
    ensures !Follows(g, pos, pos)
  {
  }

  /** A table block in the cache is in nobody's way. */
  lemma TableBlockSafe(g: Layout, size: nat, b: Beginning, n: nat)
    requires g.Valid(size) && Sound(g, Clusters(b.ch)) && g.InTables(b.cached.number)
    ensures !Endangered(g, b, n)
  {
    if g.ClusterOf(b.start / 512) < |b.ch| {
      ClusterInData(g, size, b.ch[g.ClusterOf(b.start / 512)]);
    }
  }

  /** A seek, and then a write: `mid` is the cache in between. */
  lemma SeekThenWrite(g: Layout, size: nat, b: Beginning, pos: nat, mid: Cached, n: nat)
    requires g.Valid(size) && Sound(g, Clusters(b.ch))
    requires if Follows(g, b.start, pos) then g.InTables(mid.number) else mid == b.cached
    ensures Endangered(g, Beginning(pos, b.ch, mid), n) == InTheWay(g, b, pos, n)
  {
    if Follows(g, b.start, pos) {
      TableBlockSafe(g, size, Beginning(pos, b.ch, mid), n);
    }
  }

  /** So far the write stored whole blocks of one cluster, without looking at the
      table. */
  predicate Plain(g: Layout, n: nat, start: nat, pos: nat) {
    start < pos && start % 512 == 0 && pos % 512 == 0 && !LooksUp(g, start, n)
    && g.ClusterOf((pos - 1) / 512) == g.ClusterOf(start / 512)
  }

  /** The first block of a write. */
  function FirstBlock(g: Layout, size: nat, ch: seq<nat>, start: nat): nat
    requires g.Valid(size) && Sound(g, Clusters(ch)) && start / 512 < g.BlocksOf(|ch|)
  {
    FileBlock(g, size, Clusters(ch), start / 512)
  }

  /** State of the cache while a write that began at `b` has got to `pos`, with
      the clusters `ch`. */
  ghost predicate Track(g: Layout, size: nat, b: Beginning, ch: seq<nat>, pos: nat, now: Cached)
  {
    && g.Valid(size)
    && Sound(g, Clusters(ch))
    && b.ch <= ch
    && b.start <= pos
    && if pos == b.start then ch == b.ch && now == b.cached
       else
         && b.start / 512 < g.BlocksOf(|ch|)
         && var first := FirstBlock(g, size, ch, b.start);
            if Plain(g, |b.ch|, b.start, pos) then
              now == b.cached.(number := if first <= b.cached.number < first + (pos - b.start) / 512 then NO_BLOCK
                                         else b.cached.number)
            else
              && now.number != NO_BLOCK
              && !Endangered(g, b, pos - b.start)
              && (pos % 512 == 0 ==> g.InTables(now.number) || (b.start % 512 != 0 && now.number == first))
  }

  lemma TrackStarts(g: Layout, size: nat, b: Beginning)
    requires g.Valid(size) && Sound(g, Clusters(b.ch))
    ensures Track(g, size, b, b.ch, b.start, b.cached)
  {
  }

  /** Blocks of one cluster follow each other. */
  lemma BlocksFollow(g: Layout, size: nat, ch: seq<nat>, k: nat, m: nat)
    requires g.Valid(size) && Sound(g, Clusters(ch)) && k <= m < g.BlocksOf(|ch|) && g.ClusterOf(k) == g.ClusterOf(m)
    ensures FileBlock(g, size, Clusters(ch), m) == FileBlock(g, size, Clusters(ch), k) + (m - k)
  {
    Split(g, k);
    Split(g, m);
  }

  /** A later cluster begins behind the end of the first one. */
  lemma ClusterPassed(g: Layout, k: nat, m: nat)
    requires g.blocksPerCluster > 0 && k <= m && g.ClusterOf(k) != g.ClusterOf(m)
    ensures m - k >= g.blocksPerCluster - g.BlockOfCluster(k)
  {
    Split(g, k);
    Split(g, m);
    SplitMonotone(g, k, m);
    BlocksOfMonotone(g, g.ClusterOf(k), g.ClusterOf(m));
  }

  /** One more round, of `d` bytes at `pos`, in which the clusters `ch` became
      `ch'`: what is known before and after it. */
  ghost predicate RoundDone(g: Layout, size: nat, b: Beginning, ch: seq<nat>, ch': seq<nat>, pos: nat, d: nat,
                            was: Cached, now: Cached)
  {
    && Track(g, size, b, ch, pos, was)
    && Sound(g, Clusters(ch'))
    && ch <= ch'
    && pos <= 512 * g.BlocksOf(|ch|)
    && b.start <= 512 * g.BlocksOf(|b.ch|)
    && 0 < d
    && pos % 512 + d <= 512
    && (pos == b.start || pos % 512 == 0)
    && pos / 512 < g.BlocksOf(|ch'|)
    && RoundCache(g, LooksUp(g, pos, |ch|), d == 512, FileBlock(g, size, Clusters(ch'), pos / 512), was, now)
    && (LooksUp(g, pos, |ch|) || d < 512 ==> !was.Lost())
    && !b.cached.Lost()
  }

  /** The first round. */
  lemma TrackFirst(g: Layout, size: nat, b: Beginning, ch: seq<nat>, ch': seq<nat>, pos: nat, d: nat,
                   was: Cached, now: Cached)
    requires RoundDone(g, size, b, ch, ch', pos, d, was, now) && pos == b.start
    ensures Track(g, size, b, ch', pos + d, now)
  {
    assert (pos + d - 1) / 512 == b.start / 512;
    if d < 512 {
      assert b.start % 512 == 0 ==> (pos + d) % 512 != 0;
    }
  }

  /** A round behind whole blocks of the first cluster. */
  lemma TrackPlain(g: Layout, size: nat, b: Beginning, ch: seq<nat>, ch': seq<nat>, pos: nat, d: nat,
                   was: Cached, now: Cached)
    requires RoundDone(g, size, b, ch, ch', pos, d, was, now) && Plain(g, |b.ch|, b.start, pos)
    ensures Track(g, size, b, ch', pos + d, now)
  {
    var k0, k := b.start / 512, pos / 512;
    PlainBlocks(g, size, ch, ch', b.start, pos, d);
    if d == 512 && !LooksUp(g, pos, |ch|) {
      SplitNext(g, k - 1);
      BlocksFollow(g, size, ch', k0, k);
    } else {
      NotEndangered(g, size, b, ch', pos, d);
      if LooksUp(g, pos, |ch|) {
        SplitNext(g, k - 1);
      }
    }
  }

  lemma PlainBlocks(g: Layout, size: nat, ch: seq<nat>, ch': seq<nat>, start: nat, pos: nat, d: nat)
    requires g.Valid(size) && Sound(g, Clusters(ch)) && Sound(g, Clusters(ch')) && ch <= ch'
    requires start < pos && start % 512 == 0 && pos % 512 == 0 && 0 < d <= 512 && start / 512 < g.BlocksOf(|ch|)
    ensures start / 512 < g.BlocksOf(|ch'|) && FirstBlock(g, size, ch', start) == FirstBlock(g, size, ch, start)
    ensures (pos - 1) / 512 == pos / 512 - 1 && (pos + d - 1) / 512 == pos / 512
            && (pos - start) / 512 == pos / 512 - start / 512
    ensures d < 512 ==> (pos + d) % 512 != 0 && (pos + d - start) / 512 == (pos - start) / 512
    ensures d == 512 ==> (pos + d) % 512 == 0 && (pos + d - start) / 512 == (pos - start) / 512 + 1
  {
    FileBlockExtended(g, size, ch, ch', start / 512);
  }

  /** When the table is looked at, or a partial block is stored, with the volume
      not wedged, the cached block was none of those stored before. */
  lemma NotEndangered(g: Layout, size: nat, b: Beginning, ch': seq<nat>, pos: nat, d: nat)
    requires g.Valid(size) && Sound(g, Clusters(ch')) && b.ch <= ch' && 0 < d <= 512
    requires Plain(g, |b.ch|, b.start, pos) && b.start / 512 < g.BlocksOf(|ch'|)
    requires d < 512 || g.BlockOfCluster(pos / 512) == 0
    requires var first := FirstBlock(g, size, ch', b.start);
             !(b.cached.dirty && first <= b.cached.number < first + (pos - b.start) / 512)
    ensures !Endangered(g, b, pos + d - b.start)
  {
    var k0, k := b.start / 512, pos / 512;
    PlainBlocks(g, size, ch', ch', b.start, pos, d);
    if g.BlockOfCluster(k) == 0 {
      SplitNext(g, k - 1);
      ClusterPassed(g, k0, k);
    }
  }

  /** A round after the table was looked at or a partial block stored. */
  lemma TrackLater(g: Layout, size: nat, b: Beginning, ch: seq<nat>, ch': seq<nat>, pos: nat, d: nat,
                   was: Cached, now: Cached)
    requires RoundDone(g, size, b, ch, ch', pos, d, was, now) && pos != b.start && !Plain(g, |b.ch|, b.start, pos)
    ensures Track(g, size, b, ch', pos + d, now)
  {
    FileBlockExtended(g, size, ch, ch', b.start / 512);
    LaterEndangered(g, b, pos, d);
    if d == 512 && !LooksUp(g, pos, |ch|) && b.start % 512 != 0 && was.number == FirstBlock(g, size, ch, b.start) {
      LaterBlock(g, size, ch', b.start, pos);
    }
    LaterPlain(g, |b.ch|, b.start, pos, d);
  }

  /** Blocks behind the first cluster do not matter to the danger. */
  lemma LaterEndangered(g: Layout, b: Beginning, pos: nat, d: nat)
    requires g.blocksPerCluster > 0 && b.start < pos && pos % 512 == 0 && 0 < d <= 512
    requires !Plain(g, |b.ch|, b.start, pos) && !Endangered(g, b, pos - b.start)
    ensures !Endangered(g, b, pos + d - b.start)
  {
    if b.start % 512 == 0 && !LooksUp(g, b.start, |b.ch|) {
      var k0, k := b.start / 512, pos / 512;
      assert (pos - 1) / 512 == k - 1 && (pos - b.start) / 512 == k - k0;
      ClusterPassed(g, k0, k - 1);
    }
  }

  lemma LaterPlain(g: Layout, n: nat, start: nat, pos: nat, d: nat)
    requires g.blocksPerCluster > 0 && start < pos && pos % 512 == 0 && !Plain(g, n, start, pos) && 0 < d <= 512
    ensures !Plain(g, n, start, pos + d)
  {
    if start % 512 == 0 {
      assert (pos + d - 1) / 512 == pos / 512 && (pos - 1) / 512 == pos / 512 - 1;
      SplitMonotone(g, start / 512, pos / 512 - 1);
      SplitMonotone(g, pos / 512 - 1, pos / 512);
    }
  }

  lemma LaterBlock(g: Layout, size: nat, ch: seq<nat>, start: nat, pos: nat)
    requires g.Valid(size) && Sound(g, Clusters(ch)) && start < pos && pos % 512 == 0
    requires start / 512 < g.BlocksOf(|ch|) && pos / 512 < g.BlocksOf(|ch|)
    ensures FileBlock(g, size, Clusters(ch), pos / 512) != FirstBlock(g, size, ch, start)
  {
    if FileBlock(g, size, Clusters(ch), pos / 512) == FirstBlock(g, size, ch, start) {
      FileBlocksDistinct(g, size, Clusters(ch), pos / 512, start / 512);
    }
  }

  lemma TrackRound(g: Layout, size: nat, b: Beginning, ch: seq<nat>, ch': seq<nat>, pos: nat, d: nat,
                   was: Cached, now: Cached)
    requires RoundDone(g, size, b, ch, ch', pos, d, was, now)
    ensures Track(g, size, b, ch', pos + d, now)
  {
    hide RoundDone, Track;
    if pos == b.start {
      TrackFirst(g, size, b, ch, ch', pos, d, was, now);
    } else if Plain(g, |b.ch|, b.start, pos) {
      TrackPlain(g, size, b, ch, ch', pos, d, was, now);
    } else {
      TrackLater(g, size, b, ch, ch', pos, d, was, now);
    }
  }

  /** When the write is done, the buffer is dirty without a block exactly if it
      was endangered at the beginning. */
  lemma TrackEnds(g: Layout, size: nat, b: Beginning, ch: seq<nat>, pos: nat, now: Cached)
    requires Track(g, size, b, ch, pos, now)
    requires !b.cached.Lost() && b.start <= 512 * g.BlocksOf(|b.ch|)
    ensures now.Lost() <==> Endangered(g, b, pos - b.start)
  {
    if pos > b.start && Plain(g, |b.ch|, b.start, pos) {
      StartsInside(g, b.start, |b.ch|);
      PlainStays(g, b.start, pos);
      assert FirstBlock(g, size, ch, b.start) ==
             g.ClusterStartBlock(b.ch[g.ClusterOf(b.start / 512)]) + g.BlockOfCluster(b.start / 512);
    }
  }

  /** A write that does not begin by looking at the table begins inside the
      clusters there are. */
  lemma StartsInside(g: Layout, start: nat, n: nat)
    requires g.blocksPerCluster > 0 && start <= 512 * g.BlocksOf(n) && start % 512 == 0 && !LooksUp(g, start, n)
    ensures g.ClusterOf(start / 512) < n
  {
    SplitBound(g, start / 512, n);
    if start == 512 * g.BlocksOf(n) {
      SplitUnique(g, n, 0, start / 512);
    }
  }

  lemma PlainStays(g: Layout, start: nat, pos: nat)
    requires g.blocksPerCluster > 0 && start < pos && start % 512 == 0 && pos % 512 == 0
    requires g.ClusterOf((pos - 1) / 512) == g.ClusterOf(start / 512)
    ensures g.BlockOfCluster(start / 512) + (pos - start) / 512 <= g.blocksPerCluster
  {
    Split(g, start / 512);
    Split(g, (pos - 1) / 512);
    assert (pos - 1) / 512 == pos / 512 - 1 && (pos - start) / 512 == pos / 512 - start / 512;
  }
}
