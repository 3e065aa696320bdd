/** Bytes, 512-byte blocks and the little-endian fields laid over them
    (the `cache_t` union and the packed structures of the SD library). */
module Bytes {
  type byte = x: int | 0 <= x < 256

  type Block = s: seq<byte> | |s| == 512 witness seq(512, _ => 0)

  const TWO32: nat := 0x1_0000_0000
  const DOT: byte := 0x2E

  function Le16(s: seq<byte>, at: nat): nat
    requires at + 2 <= |s|
  {
    (s[at] as int) + 0x100 * (s[at + 1] as int)
  }

  function Le32(s: seq<byte>, at: nat): nat
    requires at + 4 <= |s|
  {
    Le16(s, at) + 0x1_0000 * Le16(s, at + 2)
  }

  function Put16(s: seq<byte>, at: nat, v: nat): (r: seq<byte>)
    requires at + 2 <= |s|
    ensures |r| == |s|
    ensures Le16(r, at) == v % 0x1_0000
    ensures forall k | 0 <= k < |s| && k != at && k != at + 1 :: r[k] == s[k]
  {
    s[at := v % 0x100][at + 1 := v / 0x100 % 0x100]
  }

  lemma SplitWord(v: nat)
    ensures v % 0x1_0000 + 0x1_0000 * (v / 0x1_0000 % 0x1_0000) == v % TWO32
  {
    var high := v / 0x1_0000;
    assert v == 0x1_0000 * high + v % 0x1_0000;
    assert high == 0x1_0000 * (high / 0x1_0000) + high % 0x1_0000;
  }

  function Put32(s: seq<byte>, at: nat, v: nat): (r: seq<byte>)
    requires at + 4 <= |s|
    ensures |r| == |s|
    ensures Le32(r, at) == v % TWO32
    ensures forall k | 0 <= k < |s| && !(at <= k < at + 4) :: r[k] == s[k]
  {
    SplitWord(v);
    var low := Put16(s, at, v % 0x1_0000);
    Put16(low, at + 2, v / 0x1_0000 % 0x1_0000)
  }

  /** The number that bytes stand for, the lowest first. */
  function Number(s: seq<byte>): nat {
    if s == [] then 0 else s[0] as int + 0x100 * Number(s[1..])
  }

  /** The number that bytes stand for, the highest first, as in the network. */
  function NetworkNumber(s: seq<byte>): nat {
    if s == [] then 0 else 0x100 * NetworkNumber(s[..|s| - 1]) + s[|s| - 1] as int
  }

  lemma OneByteNumber(s: seq<byte>)
    requires |s| == 1
    ensures Number(s) == NetworkNumber(s) == s[0] as int
  {
    assert s[1..] == [] && s[..0] == [];
  }

  lemma NumberOfTwo(a: byte, b: byte)
    ensures Number([a, b]) == a as int + 0x100 * b as int
    ensures NetworkNumber([a, b]) == 0x100 * a as int + b as int
  {
    OneByteNumber([a]);
    OneByteNumber([b]);
    assert [a, b][1..] == [b] && [a, b][..1] == [a];
  }

  lemma NumberOfFour(a: byte, b: byte, c: byte, d: byte)
    ensures Number([a, b, c, d]) == Number([a, b]) + 0x1_0000 * Number([c, d])
  {
    assert [a, b, c, d][1..] == [b, c, d] && [b, c, d][1..] == [c, d];
    NumberOfTwo(a, b);
  }

  lemma Le16IsNumber(s: seq<byte>, at: nat)
    requires at + 2 <= |s|
    ensures Le16(s, at) == Number(s[at..at + 2])
  {
    NumberOfTwo(s[at], s[at + 1]);
    assert s[at..at + 2] == [s[at], s[at + 1]];
  }

  lemma Le32IsNumber(s: seq<byte>, at: nat)
    requires at + 4 <= |s|
    ensures Le32(s, at) == Number(s[at..at + 4])
  {
    Le16IsNumber(s, at);
    Le16IsNumber(s, at + 2);
    NumberOfFour(s[at], s[at + 1], s[at + 2], s[at + 3]);
    assert s[at..at + 4] == [s[at], s[at + 1], s[at + 2], s[at + 3]];
    assert s[at..at + 2] == [s[at], s[at + 1]] && s[at + 2..at + 4] == [s[at + 2], s[at + 3]];
  }

  /** Blocks joined into one sequence of bytes. */
  function Joined(blocks: seq<Block>): (r: seq<byte>)
    ensures |r| == 512 * |blocks|
  {
    if blocks == [] then [] else blocks[0] + Joined(blocks[1..])
  }

  lemma {:induction false} JoinedAt(blocks: seq<Block>, k: nat, j: nat)
    requires k < |blocks| && j < 512
    ensures Joined(blocks)[512 * k + j] == blocks[k][j]
  {
    if k > 0 {
      JoinedAt(blocks[1..], k - 1, j);
      assert Joined(blocks)[512 * k + j] == Joined(blocks[1..])[512 * (k - 1) + j];
    }
  }

  /** A stretch within one of the blocks. */
  lemma JoinedSlice(blocks: seq<Block>, k: nat, j: nat, n: nat)
    requires k < |blocks| && j + n <= 512
    ensures 512 * k + j + n <= |Joined(blocks)|
    ensures Joined(blocks)[512 * k + j..512 * k + j + n] == blocks[k][j..j + n]
  {
    var from, s := 512 * k + j, Joined(blocks);
    forall i | from <= i < from + n
      ensures s[i] == blocks[k][i - 512 * k]
    {
      JoinedAt(blocks, k, i - 512 * k);
    }
    assert |s[from..from + n]| == n;
  }

  /** The bytes of `s` with `d` laid over them from position `at`. */
  function Overwrite(s: seq<byte>, at: nat, d: seq<byte>): (r: seq<byte>)
    requires at + |d| <= |s|
    ensures |r| == |s|
  {
    s[..at] + d + s[at + |d|..]
  }

  lemma OverwriteFront(s: seq<byte>, d: seq<byte>)
    requires |d| <= |s|
    ensures Overwrite(s, 0, d)[..|d|] == d
  {
  }

  lemma OverwriteTwice(s: seq<byte>, at: nat, d: seq<byte>, e: seq<byte>)
    requires at + |d| + |e| <= |s|
    ensures Overwrite(Overwrite(s, at, d), at + |d|, e) == Overwrite(s, at, d + e)
  {
  }
}
