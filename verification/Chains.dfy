/** Cluster chains over a file allocation table, seen as a sequence of entry
    values: 0 is free, a value of at least `eoc` ends a chain, anything else
    links to the next cluster. */
module Chains {
  type Table = seq<nat>

  ghost predicate IsChain(fat: Table, eoc: nat, ch: seq<nat>) {
    && |ch| > 0
    && (forall i | 0 <= i < |ch| :: 2 <= ch[i] < |fat|)
    && (forall i {:trigger fat[ch[i]]} | 0 <= i < |ch| - 1 :: fat[ch[i]] == ch[i + 1])
    && fat[ch[|ch| - 1]] >= eoc
    && (forall i, j | 0 <= i < j < |ch| :: ch[i] != ch[j])
  }

  /** A chain that may be empty, as a file's is. */
  ghost predicate IsChainOrNil(fat: Table, eoc: nat, ch: seq<nat>) {
    ch == [] || IsChain(fat, eoc, ch)
  }

  ghost predicate Apart(a: seq<nat>, b: seq<nat>) {
    forall c | c in a :: c !in b
  }

  /** A family of well-formed chains, no two of which share a cluster. */
  ghost predicate IsChainFamily(fat: Table, eoc: nat, family: set<seq<nat>>) {
    && (forall ch | ch in family :: IsChain(fat, eoc, ch))
    && (forall a, b | a in family && b in family && a != b :: Apart(a, b))
  }

  /** The table with every cluster of `ch` marked free. */
  ghost function Freed(fat: Table, ch: seq<nat>): (r: Table)
    ensures |r| == |fat|
    ensures forall c | 0 <= c < |fat| :: r[c] == if c in ch then 0 else fat[c]
  {
    seq(|fat|, c requires 0 <= c < |fat| => if c in ch then 0 else fat[c])
  }

  ghost function FreeClusters(fat: Table): set<nat> {
    set c: nat | 2 <= c < |fat| && fat[c] == 0
  }

  ghost function UsedEntries(fat: Table): set<nat> {
    set c: nat | c < |fat| && fat[c] != 0
  }

  /** `count` consecutive free clusters start at `b`. */
  ghost predicate FreeRun(fat: Table, b: nat, count: nat) {
    && 2 <= b
    && b + count <= |fat|
    && forall c | b <= c < b + count :: fat[c] == 0
  }

  /** Whatever was in use still is. */
  ghost predicate StillUsed(fat: Table, fat': Table) {
    |fat'| == |fat| && forall c | 0 <= c < |fat| && fat[c] != 0 :: fat'[c] != 0
  }

  ghost function Consecutive(b: nat, count: nat): (r: seq<nat>)
    ensures |r| == count
    ensures forall i | 0 <= i < count :: r[i] == b + i
  {
    seq(count, i requires 0 <= i => b + i)
  }

  /** The table after the run of `count` clusters from `b` is linked up, ended
      with `last`, and hung behind cluster `tail` (0 for none). */
  ghost function Linked(fat: Table, tail: nat, b: nat, count: nat, last: nat): (r: Table)
    ensures |r| == |fat|
  {
    seq(|fat|, c requires 0 <= c < |fat| =>
      if b <= c < b + count then (if c == b + count - 1 then last else c + 1)
      else if c == tail && tail != 0 then b
      else fat[c])
  }

  // ---- chains are determined by their first cluster ----

  lemma {:induction false} SameStart(fat: Table, eoc: nat, a: seq<nat>, b: seq<nat>, i: nat)
    requires |fat| <= eoc
    requires IsChain(fat, eoc, a) && IsChain(fat, eoc, b) && a[0] == b[0]
    requires i < |a|
    ensures i < |b| && a[i] == b[i]
  {
    if i > 0 {
      SameStart(fat, eoc, a, b, i - 1);
      assert fat[a[i - 1]] == a[i];
    }
  }

  /** Two chains that start at the same cluster are the same chain. */
  lemma ChainsEqual(fat: Table, eoc: nat, a: seq<nat>, b: seq<nat>)
    requires |fat| <= eoc
    requires IsChain(fat, eoc, a) && IsChain(fat, eoc, b) && a[0] == b[0]
    ensures a == b
  {
    forall i | 0 <= i < |a|
      ensures i < |b| && a[i] == b[i]
    {
      SameStart(fat, eoc, a, b, i);
    }
    SameStart(fat, eoc, b, a, |b| - 1);
  }

  /** Entries outside a chain do not matter to it. */
  lemma ChainFramed(fat: Table, fat': Table, eoc: nat, ch: seq<nat>)
    requires IsChain(fat, eoc, ch)
    requires |fat| == |fat'|
    requires forall c | c in ch :: fat'[c] == fat[c]
    ensures IsChain(fat', eoc, ch)
  {
    assert forall i | 0 <= i < |ch| :: ch[i] in ch;
  }

  /** Every cluster of a chain is in use. */
  lemma ChainInUse(fat: Table, eoc: nat, ch: seq<nat>, c: nat)
    requires IsChain(fat, eoc, ch) && c in ch && eoc > 0
    ensures fat[c] != 0
  {
    var i :| 0 <= i < |ch| && ch[i] == c;
    if i < |ch| - 1 {
      assert fat[ch[i]] == ch[i + 1];
    }
  }

  // ---- extending, cutting and freeing a chain ----

  /** Linking a free run behind the last cluster of a chain extends it by the
      run; linking it behind nothing makes a chain of the run alone. */
  lemma LinkExtends(fat: Table, eoc: nat, ch: seq<nat>, b: nat, count: nat, last: nat)
    requires IsChainOrNil(fat, eoc, ch) && 0 < eoc
    requires count >= 1 && FreeRun(fat, b, count) && last >= eoc
    ensures var tail := if ch == [] then 0 else ch[|ch| - 1];
            IsChain(Linked(fat, tail, b, count, last), eoc, ch + Consecutive(b, count))
  {
    var tail := if ch == [] then 0 else ch[|ch| - 1];
    var fat' := Linked(fat, tail, b, count, last);
    var run := Consecutive(b, count);
    var r := ch + run;
    forall i | 0 <= i < |ch|
      ensures !(b <= ch[i] < b + count)
    {
      ChainInUse(fat, eoc, ch, ch[i]);
    }
    forall i {:trigger fat'[r[i]]} | 0 <= i < |r| - 1
      ensures fat'[r[i]] == r[i + 1]
    {
      if i < |ch| - 1 {
        assert r[i] == ch[i] != tail;
        assert fat[ch[i]] == ch[i + 1];
      }
    }
  }

  /** Clusters `n..` of a chain form a chain. */
  lemma ChainSuffix(fat: Table, eoc: nat, ch: seq<nat>, n: nat)
    requires IsChain(fat, eoc, ch) && n < |ch|
    ensures IsChain(fat, eoc, ch[n..])
  {
    var s := ch[n..];
    forall i {:trigger fat[s[i]]} | 0 <= i < |s| - 1
      ensures fat[s[i]] == s[i + 1]
    {
      assert fat[ch[n + i]] == ch[n + i + 1];
    }
  }

  /** Freeing clusters `n..` and ending the chain at cluster `n - 1` leaves
      exactly the first `n` clusters. */
  lemma CutChain(fat: Table, eoc: nat, ch: seq<nat>, n: nat, last: nat)
    requires IsChain(fat, eoc, ch) && 0 < n < |ch| && last >= eoc
    ensures IsChain(Freed(fat, ch[n..])[ch[n - 1] := last], eoc, ch[..n])
  {
    var kept := ch[..n];
    var fat' := Freed(fat, ch[n..])[ch[n - 1] := last];
    forall i {:trigger fat'[kept[i]]} | 0 <= i < n - 1
      ensures fat'[kept[i]] == kept[i + 1]
    {
      assert fat[ch[i]] == ch[i + 1];
      assert ch[i] !in ch[n..];
    }
  }

  ghost function Members(ch: seq<nat>): set<nat> {
    set c | c in ch
  }

  lemma {:induction false} DistinctCount(ch: seq<nat>)
    requires forall i, j | 0 <= i < j < |ch| :: ch[i] != ch[j]
    ensures |Members(ch)| == |ch|
  {
    if ch != [] {
      var rest := ch[1..];
      DistinctCount(rest);
      assert ch[0] !in rest;
      assert Members(ch) == Members(rest) + {ch[0]};
    }
  }

  /** Freeing part of a chain adds exactly that many clusters to the free ones. */
  lemma FreedConserves(fat: Table, eoc: nat, ch: seq<nat>)
    requires IsChain(fat, eoc, ch) && 0 < eoc
    ensures |FreeClusters(Freed(fat, ch))| == |FreeClusters(fat)| + |ch|
  {
    DistinctCount(ch);
    forall c | c in ch
      ensures fat[c] != 0
    {
      ChainInUse(fat, eoc, ch, c);
    }
    var before, mine := FreeClusters(fat), Members(ch);
    assert FreeClusters(Freed(fat, ch)) == before + mine;
    assert before !! mine;
  }

  // ---- following a chain while freeing it ----

  /** `path` are the clusters met from `start` on, and `next` the one its last
      entry links to. */
  ghost predicate Walked(fat: Table, start: nat, path: seq<nat>, next: nat) {
    && (forall i | 0 <= i < |path| :: 2 <= path[i] < |fat|)
    && (forall i {:trigger fat[path[i]]} | 0 <= i < |path| - 1 :: fat[path[i]] == path[i + 1])
    && (forall i, j | 0 <= i < j < |path| :: path[i] != path[j])
    && (if path == [] then next == start else path[0] == start && fat[path[|path| - 1]] == next)
  }

  ghost predicate HeadsChain(fat: Table, eoc: nat, start: nat) {
    exists ch :: IsChain(fat, eoc, ch) && ch[0] == start
  }

  lemma {:induction false} WalkFollowsChain(fat: Table, eoc: nat, start: nat, path: seq<nat>, next: nat, ch: seq<nat>)
    requires |fat| <= eoc
    requires Walked(fat, start, path, next) && IsChain(fat, eoc, ch) && ch[0] == start
    ensures |path| <= |ch| && path == ch[..|path|]
    ensures if |path| < |ch| then next == ch[|path|] else next >= eoc
  {
    if path != [] {
      var m := |path| - 1;
      var before := path[..m];
      assert Walked(fat, start, before, path[m]) by {
        if m > 0 {
          assert fat[path[m - 1]] == path[m];
        }
        assert forall i {:trigger fat[before[i]]} | 0 <= i < |before| - 1 :: fat[path[i]] == path[i + 1];
      }
      WalkFollowsChain(fat, eoc, start, before, path[m], ch);
      if m < |ch| - 1 {
        assert fat[ch[m]] == ch[m + 1];
      }
    }
  }

  lemma WalkStarts(fat: Table, start: nat)
    ensures Walked(fat, start, [], start)
    ensures fat == Freed(fat, [])
  {
  }

  /** One more step of the walk, onto a cluster not met before. */
  lemma WalkStep(fat: Table, start: nat, path: seq<nat>, next: nat)
    requires Walked(fat, start, path, next)
    requires 2 <= next < |fat| && next !in path
    ensures Walked(fat, start, path + [next], fat[next])
    ensures Freed(fat, path)[next := 0] == Freed(fat, path + [next])
  {
    var longer := path + [next];
    forall i {:trigger fat[longer[i]]} | 0 <= i < |longer| - 1
      ensures fat[longer[i]] == longer[i + 1]
    {
      if i < |path| - 1 {
        assert fat[path[i]] == path[i + 1];
      }
    }
  }

  lemma NextOfChainWalk(fat: Table, eoc: nat, start: nat, path: seq<nat>, next: nat, ch: seq<nat>)
    requires |fat| <= eoc && Walked(fat, start, path, next) && (next < eoc || path == [])
    requires IsChain(fat, eoc, ch) && ch[0] == start
    ensures 2 <= next < |fat| && fat[next] != 0 && next !in path
  {
    WalkFollowsChain(fat, eoc, start, path, next, ch);
    assert next == ch[|path|];
    ChainInUse(fat, eoc, ch, next);
    assert next !in ch[..|path|];
  }

  /** A walk that meets a free or an already freed cluster was not along a
      chain, and neither was one that leaves the table. */
  lemma WalkDerailed(fat: Table, eoc: nat, start: nat, path: seq<nat>, next: nat)
    requires |fat| <= eoc && Walked(fat, start, path, next) && (next < eoc || path == [])
    requires 2 <= next < |fat| ==> Freed(fat, path)[next] == 0
    ensures !HeadsChain(fat, eoc, start)
  {
    forall ch | IsChain(fat, eoc, ch) && ch[0] == start
      ensures false
    {
      NextOfChainWalk(fat, eoc, start, path, next, ch);
    }
  }

  /** A walk that ends at an end mark was along a chain. */
  lemma WalkComplete(fat: Table, eoc: nat, start: nat, path: seq<nat>, next: nat)
    requires Walked(fat, start, path, next) && path != [] && next >= eoc
    ensures IsChain(fat, eoc, path) && path[0] == start
    ensures HeadsChain(fat, eoc, start)
  {
  }

  /** Freeing a cluster that is in use lowers the number of used entries. */
  lemma FreeingLowersUse(fat: Table, c: nat)
    requires c < |fat| && fat[c] != 0
    ensures |UsedEntries(fat[c := 0])| < |UsedEntries(fat)|
  {
    var before := UsedEntries(fat);
    assert UsedEntries(fat[c := 0]) == before - {c};
  }

  // ---- searching for a free run ----

  /** No run of `count` free clusters lies within [`from`, `to`). */
  ghost predicate NoRunIn(fat: Table, from: nat, to: nat, count: nat) {
    forall b: nat | from <= b && b + count <= to :: !FreeRun(fat, b, count)
  }

  /** Where a search that begins at `start`, goes to the end of the table and
      then on from cluster 2 to `start` finds its run: the lowest one of the
      upper part, or else the lowest one of the lower part. */
  ghost predicate NextFit(fat: Table, start: nat, count: nat, b: nat) {
    && FreeRun(fat, b, count)
    && if start <= b then NoRunIn(fat, start, b + count - 1, count)
       else b + count <= start && NoRunIn(fat, start, |fat|, count) && NoRunIn(fat, 2, b + count - 1, count)
  }

  lemma NextFitIsFree(fat: Table, start: nat, count: nat, b: nat)
    requires NextFit(fat, start, count, b)
    ensures FreeRun(fat, b, count)
  {
  }

  ghost predicate NoFit(fat: Table, start: nat, count: nat) {
    NoRunIn(fat, start, |fat|, count) && NoRunIn(fat, 2, start, count)
  }

  ghost predicate InUseBelow(fat: Table, start: nat) {
    forall c | 2 <= c < start && c < |fat| :: fat[c] != 0
  }

  /** State of the search after `n` entries: it has come from `low`, the start
      or cluster 2, to `end` without finding a run, and `bgn..end` is free. */
  ghost predicate Searching(fat: Table, start: nat, count: nat, low: nat, bgn: nat, end: nat, n: nat) {
    && 2 <= start <= |fat|
    && (low == start || low == 2)
    && 2 <= low <= bgn <= end <= |fat|
    && end - bgn < count
    && (forall c | bgn <= c < end :: fat[c] == 0)
    && (bgn == low || fat[bgn - 1] != 0)
    && NoRunIn(fat, low, end, count)
    && ((low == start && n == end - start) ||
        (low == 2 && n == |fat| - start + end - 2 && NoRunIn(fat, start, |fat|, count)))
  }

  lemma SearchStarts(fat: Table, start: nat, count: nat)
    requires 2 <= start <= |fat| && count >= 1
    ensures Searching(fat, start, count, start, start, start, 0)
  {
  }

  lemma SearchExhausted(fat: Table, start: nat, count: nat, low: nat, bgn: nat, end: nat, n: nat)
    requires Searching(fat, start, count, low, bgn, end, n)
    requires n >= |fat| - 2 && count >= 1
    ensures NoFit(fat, start, count)
  {
  }

  lemma SearchWraps(fat: Table, start: nat, count: nat, low: nat, bgn: nat, n: nat)
    requires Searching(fat, start, count, low, bgn, |fat|, n)
    requires n < |fat| - 2 && count >= 1
    ensures Searching(fat, start, count, 2, 2, 2, n)
  {
  }

  lemma SearchSkips(fat: Table, start: nat, count: nat, low: nat, bgn: nat, end: nat, n: nat)
    requires Searching(fat, start, count, low, bgn, end, n)
    requires count >= 1 && end < |fat| && fat[end] != 0
    ensures Searching(fat, start, count, low, end + 1, end + 1, n + 1)
  {
    forall b: nat | low <= b && b + count <= end + 1
      ensures !FreeRun(fat, b, count)
    {
      if b + count == end + 1 {
        assert b <= end < b + count;
      }
    }
  }

  lemma SearchGrows(fat: Table, start: nat, count: nat, low: nat, bgn: nat, end: nat, n: nat)
    requires Searching(fat, start, count, low, bgn, end, n)
    requires end < |fat| && fat[end] == 0 && end - bgn + 1 < count
    ensures Searching(fat, start, count, low, bgn, end + 1, n + 1)
  {
    forall b: nat | low <= b && b + count <= end + 1
      ensures !FreeRun(fat, b, count)
    {
      if b + count == end + 1 {
        assert b <= bgn - 1 < b + count;
      }
    }
  }

  lemma SearchFinds(fat: Table, start: nat, count: nat, low: nat, bgn: nat, end: nat, n: nat)
    requires Searching(fat, start, count, low, bgn, end, n)
    requires end < |fat| && fat[end] == 0 && end - bgn + 1 == count && n < |fat| - 2
    ensures NextFit(fat, start, count, bgn)
  {
    assert FreeRun(fat, bgn, count);
  }

  /** From a start below which nothing is free, the search is a first fit: it
      finds the lowest run there is. */
  lemma FirstFit(fat: Table, start: nat, count: nat, b: nat)
    requires 2 <= start && count >= 1 && InUseBelow(fat, start)
    requires NextFit(fat, start, count, b)
    ensures forall a: nat | FreeRun(fat, a, count) :: b <= a
  {
    forall a: nat | FreeRun(fat, a, count)
      ensures b <= a
    {
      assert fat[a] == 0;
      assert fat[b] == 0;
    }
  }

  /** ... and it fails only when there is none. */
  lemma FirstFitComplete(fat: Table, start: nat, count: nat)
    requires 2 <= start && count >= 1 && InUseBelow(fat, start)
    requires NoFit(fat, start, count)
    ensures forall a: nat :: !FreeRun(fat, a, count)
  {
    forall a: nat
      ensures !FreeRun(fat, a, count)
    {
      if 2 <= a < start && a < |fat| {
        assert fat[a] != 0;
      }
    }
  }

  /** A search for one cluster fails, wherever it starts, only when no cluster
      is free. */
  lemma SingleFitComplete(fat: Table, start: nat)
    requires NoFit(fat, start, 1)
    ensures FreeClusters(fat) == {}
  {
    forall c | 2 <= c < |fat|
      ensures fat[c] != 0
    {
      assert !FreeRun(fat, c, 1);
    }
  }

  // ---- the whole table ----

  /** What an operation on one file may do to the table: only its own clusters
      and formerly free ones change. */
  ghost predicate OnlyMineChanged(fat: Table, fat': Table, mine: seq<nat>, mine': seq<nat>) {
    && |fat'| == |fat|
    && (forall c | 0 <= c < |fat| && c !in mine && c !in mine' :: fat'[c] == fat[c])
    && (forall c | c in mine' && c !in mine :: 2 <= c < |fat| && fat[c] == 0)
  }

  /** The clusters of a set of chains. */
  ghost function Union(chains: set<seq<nat>>): set<nat> {
    set ch, c | ch in chains && c in ch :: c
  }

  lemma ApartFromUnion(fat: Table, eoc: nat, family: set<seq<nat>>, mine: set<seq<nat>>, ch: seq<nat>)
    requires IsChainFamily(fat, eoc, family) && mine <= family && ch in family - mine
    ensures IsChain(fat, eoc, ch) && forall c | c in ch :: c !in Union(mine)
  {
    assert forall other | other in mine :: Apart(ch, other);
  }

  /** When the entries of clusters in use outside the chains `before` stay and
      none of these clusters goes to the chains `after`, every other chain
      survives, and with `after` in place of `before` the family is one again. */
  lemma FamilyPreserved(fat: Table, fat': Table, eoc: nat, family: set<seq<nat>>, before: set<seq<nat>>,
                        after: set<seq<nat>>)
    requires 0 < eoc && |fat'| == |fat|
    requires IsChainFamily(fat, eoc, family) && before <= family
    requires IsChainFamily(fat', eoc, after)
    requires forall c | 0 <= c < |fat| && fat[c] != 0 && c !in Union(before) ::
               fat'[c] == fat[c] && c !in Union(after)
    ensures IsChainFamily(fat', eoc, family - before + after)
  {
    forall ch | ch in family - before
      ensures IsChain(fat', eoc, ch) && forall c | c in ch :: c !in Union(after)
    {
      ApartFromUnion(fat, eoc, family, before, ch);
      forall c | c in ch
        ensures fat[c] != 0
      {
        ChainInUse(fat, eoc, ch, c);
      }
      ChainFramed(fat, fat', eoc, ch);
    }
    forall a, b | a in family - before && b in after
      ensures Apart(a, b) && Apart(b, a)
    {
      assert forall c | c in b :: c in Union(after);
    }
  }
}
