/** The W5100 chip's socket memory: a 2 KB ring for sending and one for
    receiving per socket, indexed by 16-bit pointers. */
module W5100 {
  import opened Bytes

  const SSIZE: nat := 2048
  const MAX_SOCK_NUM: nat := 4
  const TXBUF_BASE: nat := 0x4000
  const RXBUF_BASE: nat := 0x6000
  const CHIP_MEMORY: nat := 0x8000
  const TWO16: nat := 0x1_0000

  function Index(p: int): (i: nat)
    ensures i < SSIZE
  {
    p % SSIZE
  }

  /** `len` bytes of the ring at `base`, from pointer `ptr` on. */
  function RingGet(mem: seq<byte>, base: nat, ptr: nat, len: nat): (r: seq<byte>)
    requires base + SSIZE <= |mem|
    ensures |r| == len
    ensures forall i | 0 <= i < len :: r[i] == mem[base + Index(ptr + i)]
  {
    seq(len, i requires 0 <= i < len => mem[base + Index(ptr + i)])
  }

  /** The memory after `data` was put into the ring at `base`, from pointer
      `ptr` on; nothing else changes. */
  function RingPut(mem: seq<byte>, base: nat, ptr: nat, data: seq<byte>): (r: seq<byte>)
    requires base + SSIZE <= |mem| && |data| <= SSIZE
    ensures |r| == |mem|
    ensures forall a | 0 <= a < |mem| && !(base <= a < base + SSIZE) :: r[a] == mem[a]
    ensures forall a | base <= a < base + SSIZE ::
              r[a] == if Index(a - base - ptr) < |data| then data[Index(a - base - ptr)] else mem[a]
  {
    seq(|mem|, a requires 0 <= a < |mem| =>
      if base <= a < base + SSIZE && Index(a - base - ptr) < |data| then data[Index(a - base - ptr)] else mem[a])
  }

  lemma Wrapped(ptr: nat, i: nat)
    requires i < SSIZE
    ensures Index(Index(ptr + i) - ptr) == i
  {
    var q, r := (ptr + i) / SSIZE, Index(ptr + i);
    assert ptr + i == SSIZE * q + r;
    assert r - ptr == i - SSIZE * q;
  }

  /** What was put is what is got. */
  lemma GetPut(mem: seq<byte>, base: nat, ptr: nat, data: seq<byte>)
    requires base + SSIZE <= |mem| && |data| <= SSIZE
    ensures RingGet(RingPut(mem, base, ptr, data), base, ptr, |data|) == data
  {
    hide Index;
    var mem' := RingPut(mem, base, ptr, data);
    forall i | 0 <= i < |data|
      ensures RingGet(mem', base, ptr, |data|)[i] == data[i]
    {
      Wrapped(ptr, i);
    }
  }

  lemma Behind(a: int, ptr: nat, n: nat)
    requires n <= SSIZE
    ensures Index(a - (ptr + n)) == if Index(a - ptr) >= n then Index(a - ptr) - n else Index(a - ptr) - n + SSIZE
  {
    var q, r := (a - ptr) / SSIZE, Index(a - ptr);
    assert a - ptr == SSIZE * q + r;
    if r >= n {
      assert a - (ptr + n) == SSIZE * q + (r - n);
    } else {
      assert a - (ptr + n) == SSIZE * (q - 1) + (r - n + SSIZE);
    }
  }

  /** Putting one piece behind another puts both, as long as the ring holds
      them. */
  lemma PutTwice(mem: seq<byte>, base: nat, ptr: nat, d: seq<byte>, e: seq<byte>)
    requires base + SSIZE <= |mem| && |d| + |e| <= SSIZE
    ensures RingPut(RingPut(mem, base, ptr, d), base, ptr + |d|, e) == RingPut(mem, base, ptr, d + e)
  {
    hide Index;
    var l, r := RingPut(RingPut(mem, base, ptr, d), base, ptr + |d|, e), RingPut(mem, base, ptr, d + e);
    forall a | base <= a < base + SSIZE
      ensures l[a] == r[a]
    {
      Behind(a - base, ptr, |d|);
    }
  }

  /** Only the pointer modulo the ring size counts. */
  lemma PointerWraps(mem: seq<byte>, base: nat, ptr: nat, data: seq<byte>, len: nat)
    requires base + SSIZE <= |mem| && |data| <= SSIZE
    ensures RingPut(mem, base, ptr % TWO16, data) == RingPut(mem, base, ptr, data)
    ensures RingGet(mem, base, ptr % TWO16, len) == RingGet(mem, base, ptr, len)
  {
    hide Index;
    var put, put', got, got' := RingPut(mem, base, ptr, data), RingPut(mem, base, ptr % TWO16, data),
                                RingGet(mem, base, ptr, len), RingGet(mem, base, ptr % TWO16, len);
    forall a | base <= a < base + SSIZE
      ensures put'[a] == put[a]
    {
      SamePointer(a - base - ptr, a - base - ptr % TWO16, ptr / TWO16);
    }
    forall i | 0 <= i < len
      ensures got'[i] == got[i]
    {
      SamePointer(ptr % TWO16 + i, ptr + i, ptr / TWO16);
    }
  }

  lemma SamePointer(a: int, b: int, k: int)
    requires b == a + TWO16 * k
    ensures Index(a) == Index(b)
  {
    SameRemainder(a, 32 * k);
  }

  lemma SameRemainder(a: int, k: int)
    ensures Index(a + SSIZE * k) == Index(a)
  {
    assert a == SSIZE * (a / SSIZE) + Index(a);
    assert a + SSIZE * k == SSIZE * (a / SSIZE + k) + Index(a);
  }

  /** Reading past the first piece. */
  lemma GetSplit(mem: seq<byte>, base: nat, ptr: nat, m: nat, n: nat)
    requires base + SSIZE <= |mem|
    ensures RingGet(mem, base, ptr, m + n) == RingGet(mem, base, ptr, m) + RingGet(mem, base, ptr + m, n)
  {
    hide Index;
  }

  /** Appending behind what is there leaves that as it is. */
  lemma PutBehind(mem: seq<byte>, base: nat, ptr: nat, len: nat, data: seq<byte>)
    requires base + SSIZE <= |mem| && len + |data| <= SSIZE
    ensures RingGet(RingPut(mem, base, ptr + len, data), base, ptr, len + |data|)
            == RingGet(mem, base, ptr, len) + data
  {
    hide Index;
    var was := RingGet(mem, base, ptr, len);
    PutBack(mem, base, ptr, len);
    PutTwice(mem, base, ptr, was, data);
    GetPut(mem, base, ptr, was + data);
  }

  lemma PutBack(mem: seq<byte>, base: nat, ptr: nat, len: nat)
    requires base + SSIZE <= |mem| && len <= SSIZE
    ensures RingPut(mem, base, ptr, RingGet(mem, base, ptr, len)) == mem
  {
    hide Index;
    var put := RingPut(mem, base, ptr, RingGet(mem, base, ptr, len));
    forall a | base <= a < base + SSIZE
      ensures put[a] == mem[a]
    {
      PutBackAt(mem, base, ptr, len, a);
    }
  }

  lemma PutBackAt(mem: seq<byte>, base: nat, ptr: nat, len: nat, a: nat)
    requires base + SSIZE <= |mem| && len <= SSIZE && base <= a < base + SSIZE
    ensures RingPut(mem, base, ptr, RingGet(mem, base, ptr, len))[a] == mem[a]
  {
    hide Index, RingGet, RingPut;
    Ahead(a - base, ptr);
    var i := Index(a - base - ptr);
    if i < len {
      assert RingGet(mem, base, ptr, len)[i] == mem[base + Index(ptr + i)];
    }
  }

  lemma Ahead(a: nat, ptr: nat)
    requires a < SSIZE
    ensures Index(ptr + Index(a - ptr)) == a
  {
    SameRemainder(a, -((a - ptr) / SSIZE));
  }

  /** Different windows do not overlap. */
  lemma OtherWindow(mem: seq<byte>, base: nat, ptr: nat, data: seq<byte>, other: nat, from: nat, len: nat)
    requires base + SSIZE <= |mem| && other + SSIZE <= |mem| && |data| <= SSIZE
    requires other + SSIZE <= base || base + SSIZE <= other
    ensures RingGet(RingPut(mem, base, ptr, data), other, from, len) == RingGet(mem, other, from, len)
  {
  }

  /** Writing in two pieces where the ring ends. */
  lemma SplitPut(mem: seq<byte>, base: nat, ptr: nat, data: seq<byte>)
    requires base + SSIZE <= |mem| && |data| <= SSIZE
    ensures var off := Index(ptr);
            RingPut(mem, base, ptr, data) ==
            if off + |data| > SSIZE then
              Overwrite(Overwrite(mem, base + off, data[..SSIZE - off]), base, data[SSIZE - off..])
            else Overwrite(mem, base + off, data)
  {
    hide Index;
    var off := Index(ptr);
    var put := RingPut(mem, base, ptr, data);
    var pieces := if off + |data| > SSIZE then
        Overwrite(Overwrite(mem, base + off, data[..SSIZE - off]), base, data[SSIZE - off..])
      else Overwrite(mem, base + off, data);
    forall a | 0 <= a < |mem|
      ensures put[a] == pieces[a]
    {
      SplitPutAt(mem, base, ptr, data, a);
    }
  }

  lemma SplitPutAt(mem: seq<byte>, base: nat, ptr: nat, data: seq<byte>, a: nat)
    requires base + SSIZE <= |mem| && |data| <= SSIZE && a < |mem|
    ensures var off := Index(ptr);
            RingPut(mem, base, ptr, data)[a] ==
            (if off + |data| > SSIZE then
              Overwrite(Overwrite(mem, base + off, data[..SSIZE - off]), base, data[SSIZE - off..])
            else Overwrite(mem, base + off, data))[a]
  {
    hide Index, RingPut;
    if base <= a < base + SSIZE {
      RingIndex(a - base, ptr);
    }
  }

  /** Index, counted from the pointer, of position `a` of the window. */
  lemma RingIndex(a: nat, ptr: nat)
    requires a < SSIZE
    ensures Index(a - ptr) == if a >= Index(ptr) then a - Index(ptr) else a - Index(ptr) + SSIZE
  {
    var off := Index(ptr);
    assert ptr == SSIZE * (ptr / SSIZE) + off;
    SameRemainder(if a >= off then a - off else a - off + SSIZE, -(ptr / SSIZE) + if a >= off then 0 else -1);
  }

  lemma SplitGet(mem: seq<byte>, base: nat, ptr: nat, len: nat)
    requires base + SSIZE <= |mem| && len <= SSIZE
    ensures var off := Index(ptr);
            RingGet(mem, base, ptr, len) ==
            if off + len > SSIZE then mem[base + off..base + SSIZE] + mem[base..base + len - (SSIZE - off)]
            else mem[base + off..base + off + len]
  {
    hide Index;
    var off := Index(ptr);
    var got := RingGet(mem, base, ptr, len);
    var pieces := if off + len > SSIZE then mem[base + off..base + SSIZE] + mem[base..base + len - (SSIZE - off)]
                  else mem[base + off..base + off + len];
    forall i | 0 <= i < len
      ensures got[i] == pieces[i]
    {
      RingPosition(ptr, i);
    }
  }

  lemma RingPosition(ptr: nat, i: nat)
    requires i < SSIZE
    ensures var off := Index(ptr); Index(ptr + i) == if off + i < SSIZE then off + i else off + i - SSIZE
  {
    var off := Index(ptr);
    assert ptr == SSIZE * (ptr / SSIZE) + off;
    SameRemainder(if off + i < SSIZE then off + i else off + i - SSIZE, ptr / SSIZE + if off + i < SSIZE then 0 else 1);
  }

  function TxBase(s: nat): nat { TXBUF_BASE + SSIZE * s }

  function RxBase(s: nat): nat { RXBUF_BASE + SSIZE * s }

  /** The windows of all sockets, for sending and for receiving, lie in the chip's
      memory and are pairwise disjoint. */
  lemma WindowsApart(s: nat, t: nat)
    requires s < MAX_SOCK_NUM && t < MAX_SOCK_NUM
    ensures TxBase(s) + SSIZE <= RxBase(t) && RxBase(t) + SSIZE <= CHIP_MEMORY
    ensures s < t ==> TxBase(s) + SSIZE <= TxBase(t) && RxBase(s) + SSIZE <= RxBase(t)
  {
  }

  /** They are 2 KB each: for sending from 0x4000 on and for receiving from 0x6000
      on, in the order of the sockets. */
  lemma WindowOf(s: nat, a: nat)
    requires s < MAX_SOCK_NUM && a < 0x2000
    ensures TxBase(s) <= 0x4000 + a < TxBase(s) + SSIZE <==> a / 0x800 == s
    ensures RxBase(s) <= 0x6000 + a < RxBase(s) + SSIZE <==> a / 0x800 == s
  {
  }

  lemma SliceLength(m: seq<byte>, at: nat, n: nat)
    requires at + n <= |m|
    ensures |m[at..at + n]| == n
  {
  }

  /** One socket of the chip. */
  class Socket {
    const s: nat
    const mem: array<byte>

    // What the chip gives for TX_WR until the next SEND, and the value last
    // written to it.
    var txWr: nat
    var txNext: nat
    var txFree: nat
    var rxRd: nat
    // Number of bytes received and not yet taken.
    var rxSize: nat
    // Destination of the next packet.
    var dipr: seq<byte>
    var dport: nat

    predicate Valid()
      reads this
      ensures Valid() ==> TxBase(s) + SSIZE <= mem.Length && RxBase(s) + SSIZE <= mem.Length
    {
      && s < MAX_SOCK_NUM
      && mem.Length == CHIP_MEMORY
      && txWr < TWO16
      && txNext < TWO16
      && txFree <= SSIZE
      && rxRd < TWO16
      && rxSize <= SSIZE
    }

    constructor (s: nat, mem: array<byte>, ptr: nat)
      requires s < MAX_SOCK_NUM && mem.Length == CHIP_MEMORY && ptr < TWO16
      ensures Valid() && this.s == s && this.mem == mem && Unread() == [] && txNext == txWr == ptr && txFree == SSIZE
    {
      this.s, this.mem := s, mem;
      txWr, txNext, txFree, rxRd, rxSize := ptr, ptr, SSIZE, 0, 0;
      dipr, dport := [0, 0, 0, 0], 0;
    }

    /** The bytes received and not yet taken, in order. */
    ghost function Unread(): (r: seq<byte>)
      requires Valid()
      reads this, mem
      ensures |r| == rxSize
    {
      RingGet(mem[..], RxBase(s), rxRd, rxSize)
    }

    method Write(addr: nat, data: seq<byte>)
      requires addr + |data| <= mem.Length
      modifies mem
      ensures mem[..] == Overwrite(old(mem[..]), addr, data)
    {
      var i := 0;
      while i < |data|
        invariant 0 <= i <= |data|
        invariant forall a | 0 <= a < mem.Length ::
                    mem[a] == if addr <= a < addr + i then data[a - addr] else old(mem[a])
      {
        mem[addr + i] := data[i];
        i := i + 1;
      }
      assert mem[..] == Overwrite(old(mem[..]), addr, data);
    }

    method Read(addr: nat, dst: array<byte>, at: nat, len: nat)
      requires addr + len <= mem.Length && at + len <= dst.Length && dst != mem
      modifies dst
      ensures dst[..] == Overwrite(old(dst[..]), at, mem[addr..addr + len])
    {
      var i := 0;
      while i < len
        invariant 0 <= i <= len
        invariant forall k | 0 <= k < dst.Length ::
                    dst[k] == if at <= k < at + i then mem[addr + k - at] else old(dst[k])
      {
        dst[at + i] := mem[addr + i];
        i := i + 1;
      }
      assert dst[..] == Overwrite(old(dst[..]), at, mem[addr..addr + len]);
    }

    /** Copy data into the send window, `dataOffset` behind the write pointer,
        and advance the pointer. */
    method SendDataProcessingOffset(dataOffset: nat, data: seq<byte>)
      requires Valid() && dataOffset < TWO16 && |data| <= SSIZE
      modifies mem, this`txNext
      ensures Valid()
      ensures mem[..] == RingPut(old(mem[..]), TxBase(s), txWr + dataOffset, data)
      ensures txNext == (txWr + dataOffset + |data|) % TWO16
    {
      hide Index;
      var ptr := (txWr + dataOffset) % TWO16;
      var offset := Index(ptr);
      var dstAddr := offset + TxBase(s);
      PointerWraps(mem[..], TxBase(s), txWr + dataOffset, data, 0);
      SplitPut(mem[..], TxBase(s), ptr, data);
      if offset + |data| > SSIZE {
        var size := SSIZE - offset;
        Write(dstAddr, data[..size]);
        Write(TxBase(s), data[size..]);
      } else {
        Write(dstAddr, data);
      }
      txNext := (ptr + |data|) % TWO16;
    }

    /** Copy `len` bytes of the receive window, from pointer `src` on. */
    method ReadData(src: nat, dst: array<byte>, len: nat)
      requires Valid() && src < TWO16 && len <= SSIZE && len <= dst.Length && dst != mem
      modifies dst
      ensures dst[..] == Overwrite(old(dst[..]), 0, RingGet(mem[..], RxBase(s), src, len))
    {
      hide Index;
      var srcMask := Index(src);
      var srcPtr := RxBase(s) + srcMask;
      SplitGet(mem[..], RxBase(s), src, len);
      if srcMask + len > SSIZE {
        var size := SSIZE - srcMask;
        Read(srcPtr, dst, 0, size);
        Read(RxBase(s), dst, size, len - size);
        SliceLength(mem[..], srcPtr, size);
        SliceLength(mem[..], RxBase(s), len - size);
        OverwriteTwice(old(dst[..]), 0, mem[srcPtr..srcPtr + size], mem[RxBase(s)..RxBase(s) + (len - size)]);
      } else {
        SliceLength(mem[..], srcPtr, len);
        Read(srcPtr, dst, 0, len);
      }
    }

    /** Take `len` bytes, or as many as there are. With nothing received the
        result is 0 on a closed connection and -1 otherwise. */
    method Recv(buf: array<byte>, len: nat) returns (ret: int)
      requires Valid() && len <= buf.Length && buf != mem
      modifies this`rxRd, this`rxSize, buf
      ensures Valid()
      ensures old(rxSize) > 0 ==> ret == if old(rxSize) > len then len else old(rxSize)
      ensures old(rxSize) == 0 ==> ret == 0 || ret == -1
      ensures ret > 0 ==> buf[..] == Overwrite(old(buf[..]), 0, old(Unread())[..ret])
      ensures ret > 0 ==> Unread() == old(Unread())[ret..]
      ensures ret <= 0 ==> buf[..] == old(buf[..]) && Unread() == old(Unread()) && rxSize == old(rxSize)
    {
      hide Index, RingGet, Overwrite;
      ret := rxSize;
      if ret == 0 {
        var closed: bool := *;
        ret := if closed then 0 else -1;
      } else if ret > len {
        ret := len;
      }
      if ret > 0 {
        GetSplit(mem[..], RxBase(s), rxRd, ret, rxSize - ret);
        ReadData(rxRd, buf, ret);
        PointerWraps(mem[..], RxBase(s), rxRd + ret, [], rxSize - ret);
        rxRd, rxSize := (rxRd + ret) % TWO16, rxSize - ret;
      }
    }

    /** Bytes arrive: the chip appends them to those not yet taken. */
    method Deliver(data: seq<byte>)
      requires Valid() && rxSize + |data| <= SSIZE
      modifies mem, this`rxSize
      ensures Valid() && Unread() == old(Unread()) + data
      ensures forall a | 0 <= a < mem.Length && !(RxBase(s) <= a < RxBase(s) + SSIZE) :: mem[a] == old(mem[a])
    {
      hide Index, RingGet, RingPut;
      var now := RingPut(mem[..], RxBase(s), rxRd + rxSize, data);
      PutBehind(mem[..], RxBase(s), rxRd, rxSize, data);
      forall a | 0 <= a < mem.Length {
        mem[a] := now[a];
      }
      assert mem[..] == now;
      rxSize := rxSize + |data|;
    }

    /** Copy data behind what is already buffered for the next packet, as much
        as the chip reports free. */
    method BufferData(offset: nat, buf: seq<byte>) returns (ret: nat)
      requires Valid() && offset < TWO16 && |buf| < TWO16
      modifies mem, this`txNext
      ensures Valid() && ret == if |buf| > txFree then txFree else |buf|
      ensures mem[..] == RingPut(old(mem[..]), TxBase(s), txWr + offset, buf[..ret])
      ensures txNext == (txWr + offset + ret) % TWO16
    {
      ret := if |buf| > txFree then txFree else |buf|;
      SendDataProcessingOffset(offset, buf[..ret]);
    }

    /** Set the destination; address 0.0.0.0 and port 0 are refused. */
    method StartUDP(addr: seq<byte>, port: nat) returns (ok: bool)
      requires |addr| == 4
      modifies this`dipr, this`dport
      ensures ok == (addr != [0, 0, 0, 0] && port != 0)
      ensures ok ==> dipr == addr && dport == port
      ensures !ok ==> dipr == old(dipr) && dport == old(dport)
    {
      if (addr[0] == 0 && addr[1] == 0 && addr[2] == 0 && addr[3] == 0) || port == 0 {
        return false;
      }
      dipr, dport := addr, port;
      return true;
    }

    /** The chip sends what lies between the old and the new write pointer. */
    method Send() returns (packet: seq<byte>)
      requires Valid()
      modifies this`txWr
      ensures Valid() && txWr == txNext
      ensures packet == RingGet(mem[..], TxBase(s), old(txWr), (txNext - old(txWr)) % TWO16)
    {
      packet := RingGet(mem[..], TxBase(s), txWr, (txNext - txWr) % TWO16);
      txWr := txNext;
    }
  }
}
