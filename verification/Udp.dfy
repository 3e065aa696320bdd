/** UDP over a W5100 socket: packets are built up by several writes, and
    received datagrams are parsed out of one stream of bytes. */
module Udp {
  import opened Bytes
  import opened W5100

  datatype Datagram = Datagram(ip: seq<byte>, port: nat, payload: seq<byte>) {
    predicate Proper() { |ip| == 4 && port < TWO16 && |payload| < TWO16 }

    /** How the chip hands the datagram over: an 8-byte header, then the payload. */
    function Frame(): (r: seq<byte>)
      requires Proper()
      ensures |r| == 8 + |payload|
    {
      ip + [port / 0x100, port % 0x100, |payload| / 0x100, |payload| % 0x100] + payload
    }
  }

  function Frames(queue: seq<Datagram>): seq<byte>
    requires forall d | d in queue :: d.Proper()
  {
    if queue == [] then [] else queue[0].Frame() + Frames(queue[1..])
  }

  lemma {:induction false} FramesAppend(queue: seq<Datagram>, d: Datagram)
    requires d.Proper() && forall e | e in queue :: e.Proper()
    ensures Frames(queue + [d]) == Frames(queue) + d.Frame()
  {
    if queue == [] {
      assert queue + [d] == [d] && [d][1..] == [];
    } else {
      FramesAppend(queue[1..], d);
      assert (queue + [d])[1..] == queue[1..] + [d];
    }
  }

  class EthernetUDP {
    const sock: Socket
    var offset: nat
    var remaining: nat
    var remoteIP: seq<byte>
    var remotePort: nat

    // Whether a packet has been begun and not yet sent, and the bytes written
    // to it.
    ghost var begun: bool
    ghost var packet: seq<byte>
    // Payload of the packet being read, what was delivered of it, and the
    // datagrams received behind it.
    ghost var payload: seq<byte>
    ghost var delivered: seq<byte>
    ghost var queue: seq<Datagram>

    /** The unread bytes are the rest of the current payload and then whole
        frames; what was delivered is the front of the payload. */
    ghost predicate RxValid()
      requires sock.Valid()
      reads this`remaining, this`payload, this`delivered, this`queue, sock, sock.mem
    {
      && delivered <= payload
      && remaining == |payload| - |delivered|
      && (forall d | d in queue :: d.Proper())
      && sock.Unread() == payload[|delivered|..] + Frames(queue)
    }

    /** The send window holds the bytes written, behind the write pointer. */
    ghost predicate TxValid()
      requires sock.Valid()
      reads this`offset, this`begun, this`packet, sock, sock.mem
    {
      && offset < TWO16
      && (begun ==> PacketValid())
    }

    ghost predicate PacketValid()
      requires sock.Valid()
      reads this`offset, this`packet, sock, sock.mem
    {
      && offset == |packet| % TWO16
      && (|packet| <= SSIZE ==> RingGet(sock.mem[..], TxBase(sock.s), sock.txWr, |packet|) == packet)
      && (packet != [] ==> sock.txNext == (sock.txWr + |packet|) % TWO16)
    }

    ghost predicate Valid()
      reads this, sock, sock.mem
    {
      sock.Valid() && RxValid() && TxValid()
    }

    constructor (sock: Socket)
      requires sock.Valid() && sock.Unread() == []
      ensures Valid() && this.sock == sock && !begun && payload == [] && delivered == [] && queue == []
    {
      this.sock := sock;
      offset, remaining, remoteIP, remotePort := 0, 0, [0, 0, 0, 0], 0;
      begun, packet, payload, delivered, queue := false, [], [], [], [];
    }

    // ---- sending ----

    /** Start a packet to the given address. */
    method BeginPacket(ip: seq<byte>, port: nat) returns (ok: bool)
      requires Valid() && |ip| == 4
      modifies this`offset, this`begun, this`packet, sock`dipr, sock`dport
      ensures Valid() && begun && packet == []
      ensures ok == (ip != [0, 0, 0, 0] && port != 0)
      ensures ok ==> sock.dipr == ip && sock.dport == port
    {
      hide RingGet, Frames;
      offset, begun, packet := 0, true, [];
      NothingThere(sock.mem[..], TxBase(sock.s), sock.txWr);
      ok := sock.StartUDP(ip, port);
    }

    /** Add bytes to the packet: all of them, or as many as the chip reports
        free. */
    method Write(buffer: seq<byte>) returns (n: nat)
      requires Valid() && |buffer| < TWO16
      modifies this`offset, this`packet, sock.mem, sock`txNext
      ensures Valid() && n == if |buffer| > sock.txFree then sock.txFree else |buffer|
      ensures packet == old(packet) + buffer[..n]
      ensures begun ==> sock.txNext == (sock.txWr + |packet|) % TWO16
    {
      hide RingGet, RingPut, Frames;
      n := sock.BufferData(offset, buffer);
      if begun {
        WriteTx(old(sock.mem[..]), sock.mem[..], sock.s, sock.txWr, packet, buffer[..n]);
      }
      WriteRx(old(sock.mem[..]), sock.s, sock.txWr + offset, buffer[..n], sock.rxRd, sock.rxSize);
      offset := (offset + n) % TWO16;
      packet := packet + buffer[..n];
    }

    /** Send the packet. The bytes sent are exactly those written since
        `BeginPacket`, for a packet that fits the window, if and only if
        something was written or nothing had been left unsent before. Of a packet
        longer than the window as many bytes go out, but they repeat themselves. */
    method EndPacket() returns (sent: seq<byte>)
      requires Valid()
      modifies this`begun, sock`txWr
      ensures Valid() && !begun
      ensures old(begun) && |packet| <= SSIZE ==>
                (sent == packet <==> packet != [] || sock.txNext == old(sock.txWr))
      ensures old(begun) && SSIZE < |packet| < TWO16 ==>
                |sent| == |packet| && forall i: nat | i + SSIZE < |packet| :: sent[i + SSIZE] == sent[i]
    {
      hide RingGet, Frames;
      NextIs(sock.txWr, sock.txNext, |packet|);
      sent := sock.Send();
      if packet == [] {
        SentLength(sock.mem[..], TxBase(sock.s), old(sock.txWr), (sock.txNext - old(sock.txWr)) % TWO16);
      } else if SSIZE < |packet| < TWO16 {
        OverfullRepeats(sock.mem[..], TxBase(sock.s), old(sock.txWr), |packet|);
      }
      begun := false;
    }

    // ---- receiving ----

    lemma RestKnown()
      requires Valid()
      ensures remaining == |payload| - |delivered| && delivered <= payload
    {
    }

    /** A datagram arrives. */
    method Receive(d: Datagram)
      requires Valid() && d.Proper() && sock.rxSize + 8 + |d.payload| <= SSIZE
      modifies this`queue, sock.mem, sock`rxSize
      ensures Valid() && queue == old(queue) + [d]
    {
      hide RingGet, Frames, Datagram.Frame;
      FrameSize(d);
      FramesAppend(queue, d);
      sock.Deliver(d.Frame());
      TxKept(old(sock.mem[..]), sock.mem[..], sock.s, sock.txWr, |packet|);
      queue := queue + [d];
    }

    /** Take up to `n` bytes of the current packet, as `recv` gives them. */
    method Take(buf: array<byte>, n: nat) returns (got: int)
      requires Valid() && 0 < remaining && n <= remaining && n <= buf.Length && buf != sock.mem
      modifies this`remaining, this`delivered, sock`rxRd, sock`rxSize, buf
      ensures Valid() && got == n && remaining == old(remaining) - n
      ensures delivered == payload[..|old(delivered)| + n]
      ensures buf[..] == Overwrite(old(buf[..]), 0, payload[|old(delivered)|..|old(delivered)| + n])
    {
      hide RingGet, Frames, Overwrite;
      TakeFront(sock.Unread(), payload, delivered, Frames(queue), n);
      got := sock.Recv(buf, n);
      if got > 0 {
        remaining := remaining - got;
        delivered := payload[..|delivered| + n];
      } else {
        NothingOver(buf[..], payload, |delivered|);
      }
    }

    /** The next byte of the current packet, -1 when there is none. */
    method ReadByte() returns (b: int)
      requires Valid()
      modifies this`remaining, this`delivered, sock`rxRd, sock`rxSize
      ensures Valid()
      ensures old(remaining) == 0 ==> b == -1 && delivered == old(delivered) && remaining == 0
      ensures old(remaining) > 0 ==>
                && remaining == old(remaining) - 1
                && b == payload[|old(delivered)|] as int
                && delivered == payload[..|old(delivered)| + 1]
    {
      hide RingGet, Frames;
      if remaining > 0 {
        var buf := new byte[1];
        var got := Take(buf, 1);
        if got > 0 {
          assert buf[..][0] == buf[0];
          return buf[0];
        }
      }
      return -1;
    }

    /** Up to `len` bytes of the current packet; -1 when there are none or none
        are wanted. */
    method ReadBuffer(buf: array<byte>, len: nat) returns (n: int)
      requires Valid() && len <= buf.Length && buf != sock.mem
      modifies this`remaining, this`delivered, sock`rxRd, sock`rxSize, buf
      ensures Valid()
      ensures old(remaining) == 0 || len == 0 ==> n == -1 && delivered == old(delivered) && remaining == old(remaining)
      ensures old(remaining) > 0 && len > 0 ==>
                && n == (if old(remaining) <= len then old(remaining) else len)
                && remaining == old(remaining) - n
                && delivered == payload[..|old(delivered)| + n]
                && buf[..] == Overwrite(old(buf[..]), 0, payload[|old(delivered)|..|old(delivered)| + n])
    {
      hide RingGet, Frames, Overwrite;
      if remaining > 0 {
        var got := Take(buf, if remaining <= len then remaining else len);
        if got > 0 {
          return got;
        }
      }
      return -1;
    }

    /** Go on to the next datagram, dropping what is left of the current one.
        The result is the size of its payload, 0 also when there is none. */
    method ParsePacket() returns (n: int)
      requires Valid()
      modifies this`remaining, this`payload, this`delivered, this`queue, this`remoteIP, this`remotePort, sock`rxRd,
               sock`rxSize
      ensures Valid()
      ensures old(queue) == [] ==> n == 0 && queue == [] && remaining == 0 && payload == old(payload)
      ensures old(queue) != [] ==>
                && queue == old(queue)[1..] && payload == old(queue)[0].payload && delivered == []
                && n == |payload| && remoteIP == old(queue)[0].ip && remotePort == old(queue)[0].port
    {
      hide RingGet, Frames, Datagram.Frame;
      while remaining > 0
        invariant Valid() && queue == old(queue) && payload == old(payload)
        decreases remaining
      {
        var _ := ReadByte();
      }
      FramesStart(queue);
      if sock.rxSize > 0 {
        n := ParseHeader();
        return;
      }
      return 0;
    }

    /** Read the header of the next datagram. */
    method ParseHeader() returns (n: int)
      requires Valid() && remaining == 0 && queue != []
      modifies this`remaining, this`payload, this`delivered, this`queue, this`remoteIP, this`remotePort, sock`rxRd,
               sock`rxSize
      ensures Valid()
      ensures queue == old(queue)[1..] && payload == old(queue)[0].payload && delivered == []
      ensures n == |payload| && remoteIP == old(queue)[0].ip && remotePort == old(queue)[0].port
    {
      hide RingGet, Frames, Datagram.Frame, Overwrite;
      ghost var unread := sock.Unread();
      HeaderFirst(unread, payload, delivered, queue);
      var tmpBuf := new byte[8];
      ghost var blank := tmpBuf[..];
      n := sock.Recv(tmpBuf, 8);
      if n > 0 {
        WholeBuffer(blank, unread[..8]);
        HeaderFields(queue[0], tmpBuf[..]);
        remoteIP := tmpBuf[..4];
        remotePort := tmpBuf[4] as int * 0x100 + tmpBuf[5];
        remaining := tmpBuf[6] as int * 0x100 + tmpBuf[7];
        n := remaining;
        payload, delivered, queue := queue[0].payload, [], queue[1..];
      }
    }
  }

  lemma TakeFront(unread: seq<byte>, payload: seq<byte>, delivered: seq<byte>, rest: seq<byte>, n: nat)
    requires delivered <= payload && unread == payload[|delivered|..] + rest && n <= |payload| - |delivered|
    ensures |unread| >= |payload| - |delivered|
    ensures unread[..n] == payload[|delivered|..|delivered| + n]
    ensures unread[n..] == payload[|delivered| + n..] + rest
    ensures payload[..|delivered| + n] <= payload && payload[..|delivered|] == delivered
  {
  }

  lemma NothingOver(buf: seq<byte>, payload: seq<byte>, at: nat)
    requires at <= |payload|
    ensures buf == Overwrite(buf, 0, payload[at..at + 0])
  {
  }

  lemma FramesStart(queue: seq<Datagram>)
    requires forall d | d in queue :: d.Proper()
    ensures queue == [] <==> Frames(queue) == []
  {
  }

  /** With nothing left of the current packet, the next frame comes first. */
  lemma HeaderFirst(unread: seq<byte>, payload: seq<byte>, delivered: seq<byte>, queue: seq<Datagram>)
    requires queue != [] && forall d | d in queue :: d.Proper()
    requires delivered <= payload && |delivered| == |payload| && unread == payload[|delivered|..] + Frames(queue)
    ensures |unread| >= 8
    ensures unread[..8] == queue[0].Frame()[..8]
    ensures unread[8..] == queue[0].payload + Frames(queue[1..])
  {
    hide Datagram.Frame;
    var d := queue[0];
    FrameParts(d);
    assert payload[|delivered|..] == [];
    CutHeader(unread, d.Frame()[..8], d.payload, Frames(queue[1..]));
  }

  lemma FrameParts(d: Datagram)
    requires d.Proper()
    ensures |d.Frame()| >= 8 && d.Frame() == d.Frame()[..8] + d.payload
  {
  }

  lemma CutHeader(unread: seq<byte>, header: seq<byte>, payload: seq<byte>, rest: seq<byte>)
    requires |header| == 8 && unread == header + payload + rest
    ensures |unread| >= 8 && unread[..8] == header && unread[8..] == payload + rest
  {
  }

  lemma HeaderFields(d: Datagram, header: seq<byte>)
    requires d.Proper() && header == d.Frame()[..8]
    ensures header[..4] == d.ip
    ensures header[4] as int * 0x100 + header[5] == d.port
    ensures header[6] as int * 0x100 + header[7] == |d.payload|
  {
  }

  lemma WholeBuffer(was: seq<byte>, d: seq<byte>)
    requires |d| == |was|
    ensures Overwrite(was, 0, d) == d
  {
  }

  lemma NothingThere(mem: seq<byte>, base: nat, ptr: nat)
    requires base + SSIZE <= |mem|
    ensures RingGet(mem, base, ptr, 0) == []
  {
  }

  lemma SentLength(mem: seq<byte>, base: nat, ptr: nat, n: nat)
    requires base + SSIZE <= |mem|
    ensures |RingGet(mem, base, ptr, n)| == n
  {
  }

  lemma NextIs(wr: nat, next: nat, n: nat)
    requires wr < TWO16 && next < TWO16
    ensures next == (wr + n) % TWO16 ==> (next - wr) % TWO16 == n % TWO16
    ensures (next - wr) % TWO16 == 0 <==> next == wr
  {
    if next == (wr + n) % TWO16 {
      var q := (wr + n) / TWO16;
      assert wr + n == TWO16 * q + next;
      var r := n % TWO16;
      assert n == TWO16 * (n / TWO16) + r;
      assert next - wr == r + TWO16 * (n / TWO16 - q);
    }
  }

  /** One more piece behind the bytes of the packet. */
  lemma WriteTx(mem: seq<byte>, mem': seq<byte>, s: nat, wr: nat, packet: seq<byte>, d: seq<byte>)
    requires s < MAX_SOCK_NUM && |mem| == CHIP_MEMORY && |d| <= SSIZE && wr < TWO16
    requires mem' == RingPut(mem, TxBase(s), wr + |packet| % TWO16, d)
    requires |packet| <= SSIZE ==> RingGet(mem, TxBase(s), wr, |packet|) == packet
    ensures |packet| + |d| <= SSIZE ==> RingGet(mem', TxBase(s), wr, |packet| + |d|) == packet + d
    ensures (wr + |packet| % TWO16 + |d|) % TWO16 == (wr + |packet + d|) % TWO16
    ensures (|packet| % TWO16 + |d|) % TWO16 == |packet + d| % TWO16
  {
    hide RingGet, RingPut;
    if |packet| + |d| <= SSIZE {
      PutBehind(mem, TxBase(s), wr, |packet|, d);
    }
    var q := |packet| / TWO16;
    assert |packet| == TWO16 * q + |packet| % TWO16;
    SameMod(wr + |packet| % TWO16 + |d|, q);
    SameMod(|packet| % TWO16 + |d|, q);
  }

  lemma SameMod(a: int, k: int)
    ensures (a + TWO16 * k) % TWO16 == a % TWO16
  {
    assert a == TWO16 * (a / TWO16) + a % TWO16;
    assert a + TWO16 * k == TWO16 * (a / TWO16 + k) + a % TWO16;
  }

  /** Writing to the send window leaves the receive window alone. */
  lemma WriteRx(mem: seq<byte>, s: nat, ptr: nat, d: seq<byte>, rd: nat, n: nat)
    requires s < MAX_SOCK_NUM && |mem| == CHIP_MEMORY && |d| <= SSIZE
    ensures RingGet(RingPut(mem, TxBase(s), ptr, d), RxBase(s), rd, n) == RingGet(mem, RxBase(s), rd, n)
  {
    OtherWindow(mem, TxBase(s), ptr, d, RxBase(s), rd, n);
  }

  lemma FrameSize(d: Datagram)
    requires d.Proper()
    ensures |d.Frame()| == 8 + |d.payload|
  {
  }

  /** Changes outside the send window leave the packet alone. */
  lemma TxKept(mem: seq<byte>, mem': seq<byte>, s: nat, wr: nat, n: nat)
    requires s < MAX_SOCK_NUM && |mem| == |mem'| == CHIP_MEMORY
    requires forall a | 0 <= a < |mem| && !(RxBase(s) <= a < RxBase(s) + SSIZE) :: mem'[a] == mem[a]
    ensures RingGet(mem', TxBase(s), wr, n) == RingGet(mem, TxBase(s), wr, n)
  {
  }

  // ---- whole packets ----

  function Concat(pieces: seq<seq<byte>>): seq<byte> {
    if pieces == [] then [] else Concat(pieces[..|pieces| - 1]) + pieces[|pieces| - 1]
  }

  lemma ConcatNext(pieces: seq<seq<byte>>, i: nat)
    requires i < |pieces|
    ensures Concat(pieces[..i + 1]) == Concat(pieces[..i]) + pieces[i]
  {
    assert pieces[..i + 1][..i] == pieces[..i];
  }

  lemma {:induction false} ConcatGrows(pieces: seq<seq<byte>>, i: nat)
    requires i <= |pieces|
    ensures |Concat(pieces[..i])| <= |Concat(pieces)|
    decreases |pieces| - i
  {
    if i < |pieces| {
      ConcatNext(pieces, i);
      ConcatGrows(pieces, i + 1);
    } else {
      assert pieces[..i] == pieces;
    }
  }

  /** A packet written in any number of pieces, not larger together than what
      the chip reports free, goes out as their concatenation. */
  method SendPieces(u: EthernetUDP, ip: seq<byte>, port: nat, pieces: seq<seq<byte>>) returns (sent: seq<byte>)
    requires u.Valid() && |ip| == 4 && |Concat(pieces)| <= u.sock.txFree
    modifies u`offset, u`begun, u`packet, u.sock.mem, u.sock`txNext, u.sock`txWr, u.sock`dipr, u.sock`dport
    ensures u.Valid()
    ensures pieces != [] || old(u.sock.txNext) == old(u.sock.txWr) ==> sent == Concat(pieces)
  {
    hide EthernetUDP.RxValid, EthernetUDP.TxValid, Concat;
    var _ := u.BeginPacket(ip, port);
    NoPieces();
    assert pieces[..0] == [];
    var i := 0;
    while i < |pieces|
      invariant 0 <= i <= |pieces| && u.Valid() && u.begun && u.packet == Concat(pieces[..i])
      invariant u.sock.txWr == old(u.sock.txWr) && (i == 0 ==> u.sock.txNext == old(u.sock.txNext))
      invariant i > 0 ==> u.sock.txNext == (u.sock.txWr + |u.packet|) % TWO16
    {
      ConcatNext(pieces, i);
      ConcatGrows(pieces, i + 1);
      var n := u.Write(pieces[i]);
      assert pieces[i][..n] == pieces[i];
      i := i + 1;
    }
    assert pieces[..i] == pieces;
    sent := u.EndPacket();
  }

  lemma NoPieces()
    ensures Concat([]) == []
  {
  }

  /** Reading a packet in portions of any sizes gives its payload. */
  method ReceiveAll(u: EthernetUDP, sizes: seq<nat>) returns (ok: bool, data: seq<byte>)
    requires u.Valid() && u.queue != [] && forall i | 0 <= i < |sizes| :: 0 < sizes[i] < TWO16
    modifies u`remaining, u`payload, u`delivered, u`queue, u`remoteIP, u`remotePort, u.sock`rxRd, u.sock`rxSize
    ensures u.Valid() && u.queue == old(u.queue)[1..]
    ensures data <= old(u.queue)[0].payload && ok == (data == old(u.queue)[0].payload)
  {
    hide EthernetUDP.RxValid, EthernetUDP.TxValid;
    data := [];
    var _ := u.ParsePacket();
    var i := 0;
    while i < |sizes| && u.remaining > 0
      invariant 0 <= i <= |sizes| && u.Valid() && u.queue == old(u.queue)[1..]
      invariant u.payload == old(u.queue)[0].payload && data == u.delivered
    {
      u.RestKnown();
      var buf := new byte[sizes[i]];
      ghost var was := buf[..];
      var n := u.ReadBuffer(buf, sizes[i]);
      OverwriteFront(was, u.payload[|data|..|data| + n]);
      JoinSlices(u.payload, |data|, n);
      data := data + buf[..][..n];
      i := i + 1;
    }
    u.RestKnown();
    ok := u.remaining == 0;
  }

  lemma JoinSlices(s: seq<byte>, at: nat, n: nat)
    requires at + n <= |s|
    ensures s[..at] + s[at..at + n] == s[..at + n]
  {
  }

  /** More bytes than the window holds cannot be sent as written: what goes out
      repeats itself. */
  lemma OverfullRepeats(mem: seq<byte>, base: nat, ptr: nat, n: nat)
    requires base + SSIZE <= |mem|
    ensures |RingGet(mem, base, ptr, n)| == n
    ensures forall i: nat | i + SSIZE < n :: RingGet(mem, base, ptr, n)[i + SSIZE] == RingGet(mem, base, ptr, n)[i]
  {
    hide Index;
    forall i: nat | i + SSIZE < n
      ensures RingGet(mem, base, ptr, n)[i + SSIZE] == RingGet(mem, base, ptr, n)[i]
    {
      SameRemainder(ptr + i, 1);
      assert ptr + i + SSIZE * 1 == ptr + (i + SSIZE);
    }
  }
}
