/** The SD card driver: block reads as one or several slices of a running
    transfer, and single-block writes. */
module SdCard {
  import opened Bytes
  import opened Geometry

  class Sd2Card {
    // The card at the other end of the bus: its blocks, and the bytes of the
    // data packet it still has to clock out.
    var blocks: seq<Block>
    var wire: seq<byte>
    // Operations that failed and read commands issued, for specifications.
    ghost var faults: nat
    ghost var readCommands: nat

    // Driver state.
    var inBlock: bool
    var block: nat
    var offset: nat
    var partialBlockRead: bool

    /** Between calls the driver's offset is the number of packet bytes taken,
        so the rest of the packet is the rest of the block and two CRC bytes. */
    ghost predicate Valid()
      reads this
    {
      && |blocks| <= NO_BLOCK
      && (inBlock ==>
            && block < |blocks|
            && offset <= 512
            && |wire| == 514 - offset
            && wire[..512 - offset] == blocks[block][offset..])
      && (!inBlock ==> wire == [])
    }

    constructor (medium: seq<Block>)
      requires |medium| <= NO_BLOCK
      ensures Valid() && blocks == medium && !inBlock && !partialBlockRead
    {
      blocks, wire := medium, [];
      faults, readCommands := 0, 0;
      inBlock, block, offset, partialBlockRead := false, 0, 0, false;
    }

    /** Clock one byte out of the card. */
    method SpiRec() returns (b: byte)
      requires wire != []
      modifies this`wire
      ensures b == old(wire[0]) && wire == old(wire[1..])
    {
      b := wire[0];
      wire := wire[1..];
    }

    /** Skip what is left of a block transfer: afterwards all 514 bytes of the
        packet have been clocked out. */
    method ReadEnd()
      requires Valid()
      modifies this`wire, this`inBlock, this`offset
      ensures Valid() && !inBlock && wire == []
    {
      if inBlock {
        while offset < 514
          invariant offset <= 514 && |wire| == 514 - offset
        {
          var _ := SpiRec();
          offset := offset + 1;
        }
        inBlock := false;
      }
    }

    method PartialBlockRead(value: bool)
      requires Valid()
      modifies this`wire, this`inBlock, this`offset, this`partialBlockRead
      ensures Valid() && !inBlock && partialBlockRead == value
    {
      ReadEnd();
      partialBlockRead := value;
    }

    /** Send a command; any running transfer is finished first. A non-zero
        status is an error, and out-of-range addresses always get one. */
    method CardCommand(addressed: bool, address: nat) returns (status: nat)
      requires Valid()
      modifies this`wire, this`inBlock, this`offset, this`faults
      ensures Valid() && !inBlock && wire == []
      ensures status == 0 ==> faults == old(faults) && (addressed ==> address < |blocks|)
      ensures status != 0 ==> faults > old(faults)
    {
      ReadEnd();
      status := *;
      if addressed && address >= |blocks| {
        status := 1;
      }
      if status != 0 {
        faults := faults + 1;
      }
    }

    /** Wait for the data token after a read command. When it comes the card
        has the block and a CRC to send. */
    method WaitStartBlock(address: nat) returns (ok: bool)
      requires wire == [] && address < |blocks|
      modifies this`wire, this`faults
      ensures ok ==> |wire| == 514 && wire[..512] == blocks[address] && faults == old(faults)
      ensures !ok ==> wire == [] && faults > old(faults)
    {
      ok := *;
      if ok {
        var crc0: byte, crc1: byte := *, *;
        wire := blocks[address] + [crc0, crc1];
      } else {
        faults := faults + 1;
      }
    }

    /** Read `count` bytes of a block from `skip` on into `dst[at..]`. A call
        that continues the running transfer of the same block issues no new
        read command. */
    method ReadData(address: nat, skip: nat, count: nat, dst: array<byte>, at: nat) returns (ok: bool)
      requires Valid()
      requires at + count <= dst.Length
      modifies this`wire, this`inBlock, this`offset, this`block, this`faults, this`readCommands, dst
      ensures Valid()
      ensures ok && count > 0 ==> address < |blocks| && skip + count <= 512
      ensures ok && count > 0 ==> dst[..] == Overwrite(old(dst[..]), at, blocks[address][skip..skip + count])
      ensures !ok || count == 0 ==> dst[..] == old(dst[..])
      ensures ok ==> faults == old(faults)
      ensures !ok ==> faults > old(faults) || skip + count > 512
      ensures faults >= old(faults)
      ensures ok && count > 0 ==> inBlock == (partialBlockRead && skip + count < 512)
      ensures ok && count > 0 && old(inBlock) && address == old(block) && old(offset) <= skip
              ==> readCommands == old(readCommands)
    {
      if count == 0 {
        return true;
      }
      if count + skip > 512 {
        return false;
      }
      if !inBlock || address != block || skip < offset {
        var status := CardCommand(true, address);
        block := address;
        if status != 0 {
          return false;
        }
        readCommands := readCommands + 1;
        var started := WaitStartBlock(address);
        if !started {
          return false;
        }
        offset := 0;
        inBlock := true;
      }
      TakeSlice(skip, count, dst, at);
      if !partialBlockRead || offset >= 512 {
        ReadEnd();
      }
      return true;
    }

    /** Skip to `skip` and clock `count` bytes of the running transfer into
        `dst[at..]`. */
    method TakeSlice(skip: nat, count: nat, dst: array<byte>, at: nat)
      requires Valid() && inBlock
      requires offset <= skip && skip + count <= 512
      requires at + count <= dst.Length
      modifies this`wire, this`offset, dst
      ensures Valid() && offset == skip + count
      ensures dst[..] == Overwrite(old(dst[..]), at, blocks[block][skip..skip + count])
    {
      while offset < skip
        invariant Valid() && inBlock && offset <= skip
        invariant dst[..] == old(dst[..])
      {
        var _ := SpiRec();
        offset := offset + 1;
      }
      var i := 0;
      while i < count
        invariant i <= count && offset == skip
        invariant |wire| == 514 - skip - i
        invariant wire[..512 - skip - i] == blocks[block][skip + i..]
        invariant forall k | 0 <= k < dst.Length ::
                    dst[k] == if at <= k < at + i then blocks[block][skip + k - at] else old(dst[k])
      {
        dst[at + i] := SpiRec();
        i := i + 1;
      }
      offset := offset + count;
      assert dst[..] == Overwrite(old(dst[..]), at, blocks[block][skip..skip + count]);
    }

    /** Write one block. Block 0 is protected. A write that fails may leave
        anything in that block, and only there. */
    method WriteBlock(address: nat, src: Block) returns (ok: bool)
      requires Valid()
      modifies this`wire, this`inBlock, this`offset, this`faults, this`blocks
      ensures Valid()
      ensures ok ==> address != 0 && address < |old(blocks)|
      ensures ok ==> blocks == old(blocks)[address := src]
      ensures |blocks| == |old(blocks)|
      ensures forall b | 0 <= b < |blocks| && b != address :: blocks[b] == old(blocks[b])
      ensures ok ==> faults == old(faults)
      ensures !ok ==> faults > old(faults)
    {
      if address == 0 {
        faults := faults + 1;
        return false;
      }
      var status := CardCommand(true, address);
      if status != 0 {
        return false;
      }
      ok := *;
      if ok {
        blocks := blocks[address := src];
      } else {
        var left: Block := *;
        blocks := blocks[address := left];
        faults := faults + 1;
      }
    }

    method ReadBlock(address: nat, dst: array<byte>) returns (ok: bool)
      requires Valid() && dst.Length == 512
      modifies this`wire, this`inBlock, this`offset, this`block, this`faults, this`readCommands, dst
      ensures Valid()
      ensures ok ==> address < |blocks| && dst[..] == blocks[address] && faults == old(faults)
      ensures !ok ==> dst[..] == old(dst[..]) && faults > old(faults)
    {
      ok := ReadData(address, 0, 512, dst, 0);
    }
  }
}
