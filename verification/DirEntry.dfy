/** The 32-byte directory entry, sixteen to a block. */
module DirEntry {
  import opened Bytes

  const DIR_NAME_FREE: byte := 0x00
  const DIR_NAME_DELETED: byte := 0xE5
  const DIR_ATT_READ_ONLY: nat := 0x01
  const DIR_ATT_VOLUME_ID: nat := 0x08
  const DIR_ATT_DIRECTORY: nat := 0x10

  type Entry = s: seq<byte> | |s| == 32 witness seq(32, _ => 0)

  function EntryAt(blk: Block, i: nat): Entry
    requires i < 16
  {
    blk[32 * i..32 * i + 32]
  }

  function Name(e: Entry): (r: seq<byte>)
    ensures |r| == 11
  {
    e[..11]
  }

  /** Whether an attribute bit is set. */
  predicate HasAttribute(attributes: byte, bit: nat)
    requires bit > 0
  {
    attributes as int / bit % 2 == 1
  }

  function Attributes(e: Entry): byte { e[11] }

  predicate IsReadOnly(e: Entry) { HasAttribute(Attributes(e), DIR_ATT_READ_ONLY) }

  predicate IsFileAttribute(attributes: byte) {
    !HasAttribute(attributes, DIR_ATT_VOLUME_ID) && !HasAttribute(attributes, DIR_ATT_DIRECTORY)
  }

  predicate IsFile(e: Entry) { IsFileAttribute(Attributes(e)) }

  predicate IsSubDir(e: Entry) {
    !HasAttribute(Attributes(e), DIR_ATT_VOLUME_ID) && HasAttribute(Attributes(e), DIR_ATT_DIRECTORY)
  }

  predicate IsFree(e: Entry) { e[0] == DIR_NAME_FREE }

  predicate IsDeleted(e: Entry) { e[0] == DIR_NAME_DELETED }

  /** A slot in use, by a file, a directory or part of a long name. */
  predicate IsLive(e: Entry) { !IsFree(e) && !IsDeleted(e) }

  /** One of the two entries a subdirectory begins with, for itself and for its
      parent. */
  predicate IsDot(e: Entry) { e[0] == DOT && IsSubDir(e) }

  /** An entry that stands for a file or directory stored in this directory. */
  predicate IsOwner(e: Entry) { IsLive(e) && !IsDot(e) }

  lemma SameNameSameUse(e: Entry, e': Entry)
    requires Name(e') == Name(e) && Attributes(e') == Attributes(e)
    ensures IsLive(e') == IsLive(e) && IsOwner(e') == IsOwner(e) && IsDeleted(e') == IsDeleted(e)
  {
    assert e'[0] == Name(e')[0] == Name(e)[0] == e[0];
  }

  function FirstCluster(e: Entry): nat {
    0x1_0000 * Le16(e, 20) + Le16(e, 26)
  }

  function FileSize(e: Entry): nat {
    Le32(e, 28)
  }

  function WithSize(e: Entry, size: nat, sized: bool): (r: Entry)
    requires size < TWO32
    ensures FileSize(r) == if sized then size else FileSize(e)
    ensures forall k | 0 <= k < 28 :: r[k] == e[k]
  {
    if sized then Put32(e, 28, size) else e
  }

  function WithCluster(e: Entry, cluster: nat): (r: Entry)
    requires cluster < TWO32
    ensures FirstCluster(r) == cluster
    ensures forall k | 0 <= k < 32 && k != 20 && k != 21 && k != 26 && k != 27 :: r[k] == e[k]
  {
    var low := Put16(e, 26, cluster % 0x1_0000);
    Put16(low, 20, cluster / 0x1_0000)
  }

  /** The entry with new first cluster fields and, for files, a new size. */
  function WithPlace(e: Entry, cluster: nat, size: nat, sized: bool): (r: Entry)
    requires cluster < TWO32 && size < TWO32
    ensures FirstCluster(r) == cluster
    ensures FileSize(r) == if sized then size else FileSize(e)
    ensures r[..20] == e[..20] && r[22..26] == e[22..26]
  {
    WithCluster(WithSize(e, size, sized), cluster)
  }

  /** The entry `open` makes for a new, empty file: the name, no attributes, no
      clusters, size zero and the default date and time. */
  function NewEntry(name: seq<byte>): (r: Entry)
    requires |name| == 11
    ensures Name(r) == name && IsFile(r) && !IsReadOnly(r)
    ensures FirstCluster(r) == 0 && FileSize(r) == 0
  {
    var r: Entry := name + seq(21, _ => 0);
    var date, time := 20 * 0x200 + 0x21, 0x800;
    Put16(Put16(Put16(Put16(Put16(r, 14, time), 16, date), 18, date), 22, time), 24, date)
  }

  /** The block with entry `i` replaced. */
  function WithEntryAt(blk: Block, i: nat, e: Entry): (r: Block)
    requires i < 16
    ensures EntryAt(r, i) == e
    ensures forall j | 0 <= j < 16 && j != i :: EntryAt(r, j) == EntryAt(blk, j)
  {
    var r := Overwrite(blk, 32 * i, e);
    assert forall k | 0 <= k < 512 && !(32 * i <= k < 32 * i + 32) :: r[k] == blk[k];
    r
  }

  // ---- an entry as its fields ----

  /** The fields of an entry in their order, each as its bytes. */
  datatype Fields = Fields(
    name: seq<byte>,
    attributes: seq<byte>,
    reservedNT: seq<byte>,
    creationTimeTenths: seq<byte>,
    creationTime: seq<byte>,
    creationDate: seq<byte>,
    lastAccessDate: seq<byte>,
    firstClusterHigh: seq<byte>,
    lastWriteTime: seq<byte>,
    lastWriteDate: seq<byte>,
    firstClusterLow: seq<byte>,
    fileSize: seq<byte>)
  {
    predicate Ok() {
      && |name| == 11 && |attributes| == 1 && |reservedNT| == 1 && |creationTimeTenths| == 1
      && |creationTime| == 2 && |creationDate| == 2 && |lastAccessDate| == 2 && |firstClusterHigh| == 2
      && |lastWriteTime| == 2 && |lastWriteDate| == 2 && |firstClusterLow| == 2 && |fileSize| == 4
    }

    function Bytes(): (r: seq<byte>)
      ensures Ok() ==> |r| == 32
    {
      name + attributes + reservedNT + creationTimeTenths + creationTime + creationDate + lastAccessDate
      + firstClusterHigh + lastWriteTime + lastWriteDate + firstClusterLow + fileSize
    }
  }

  /** Where each field lies. */
  lemma FieldPlaces(f: Fields)
    requires f.Ok()
    ensures var s := f.Bytes();
            && s[..11] == f.name && s[11..12] == f.attributes && s[12..13] == f.reservedNT
            && s[13..14] == f.creationTimeTenths && s[14..16] == f.creationTime && s[16..18] == f.creationDate
            && s[18..20] == f.lastAccessDate && s[20..22] == f.firstClusterHigh && s[22..24] == f.lastWriteTime
            && s[24..26] == f.lastWriteDate && s[26..28] == f.firstClusterLow && s[28..32] == f.fileSize
  {
  }

  /** The library finds each field in its place: the high word of the first
      cluster before the low one. */
  lemma FieldsRead(f: Fields, e: Entry)
    requires f.Ok() && e == f.Bytes()
    ensures Name(e) == f.name && Attributes(e) == f.attributes[0]
    ensures FirstCluster(e) == 0x1_0000 * Number(f.firstClusterHigh) + Number(f.firstClusterLow)
    ensures FileSize(e) == Number(f.fileSize)
  {
    hide Number, Le16, Le32, Fields.Bytes;
    FieldPlaces(f);
    Le16IsNumber(e, 20);
    Le16IsNumber(e, 26);
    Le32IsNumber(e, 28);
    assert e[11] == e[11..12][0];
  }

  /** Changing place and size of an entry changes these fields to the numbers
      given, and no other field. */
  lemma PlaceFields(f: Fields, e: Entry, cluster: nat, size: nat, sized: bool, f': Fields)
    requires f.Ok() && e == f.Bytes() && cluster < TWO32 && size < TWO32
    requires f'.Ok() && WithPlace(e, cluster, size, sized) == f'.Bytes()
    ensures f == f'.(firstClusterHigh := f.firstClusterHigh, firstClusterLow := f.firstClusterLow,
                     fileSize := f.fileSize)
    ensures Number(f'.firstClusterHigh) == cluster / 0x1_0000 && Number(f'.firstClusterLow) == cluster % 0x1_0000
    ensures if sized then Number(f'.fileSize) == size else f'.fileSize == f.fileSize
  {
    hide Number, Le16, Le32, Put32, Fields.Bytes;
    var r := WithPlace(e, cluster, size, sized);
    FieldPlaces(f);
    FieldPlaces(f');
    PlaceBytes(e, cluster, size, sized);
    Le16IsNumber(r, 20);
    Le16IsNumber(r, 26);
    Le32IsNumber(r, 28);
    SameFields(e, r);
  }

  lemma SameFields(e: Entry, r: Entry)
    requires r[..20] == e[..20] && r[22..26] == e[22..26]
    ensures r[..11] == e[..11] && r[11..12] == e[11..12] && r[12..13] == e[12..13] && r[13..14] == e[13..14]
    ensures r[14..16] == e[14..16] && r[16..18] == e[16..18] && r[18..20] == e[18..20]
    ensures r[22..24] == e[22..24] && r[24..26] == e[24..26]
  {
    assert forall i | 0 <= i < 20 :: r[i] == r[..20][i] == e[..20][i] == e[i];
    assert forall i | 22 <= i < 26 :: r[i] == r[22..26][i - 22] == e[22..26][i - 22] == e[i];
  }

  /** The words of the place, and the bytes of the size. */
  lemma PlaceBytes(e: Entry, cluster: nat, size: nat, sized: bool)
    requires cluster < TWO32 && size < TWO32
    ensures var r := WithPlace(e, cluster, size, sized);
            && Le16(r, 20) == cluster / 0x1_0000
            && Le16(r, 26) == cluster % 0x1_0000
            && (if sized then Le32(r, 28) == size else r[28..32] == e[28..32])
  {
    var was := WithSize(e, size, sized);
    var low := Put16(was, 26, cluster % 0x1_0000);
    var r := Put16(low, 20, cluster / 0x1_0000);
    assert r == WithPlace(e, cluster, size, sized);
    assert forall i | 22 <= i < 32 :: r[i] == low[i];
  }

  /** A new entry has the name, and else only the default date, the first of
      January 2000, and time, one o'clock. */
  lemma NewFields(name: seq<byte>)
    requires |name| == 11
    ensures var date, time := [0x21, 0x28], [0, 8];
            && NewEntry(name) == Fields(name, [0], [0], [0], time, date, date, [0, 0], time, date, [0, 0],
                                        [0, 0, 0, 0]).Bytes()
            && Number(date) == DateWord(2000, 1, 1)
            && Number(time) == TimeWord(1, 0, 0)
  {
    hide NewEntry, Number;
    NewBytes(name);
    NumberOfTwo(0x21, 0x28);
    NumberOfTwo(0, 8);
    assert NewEntry(name) == NewEntry(name)[..11] + NewEntry(name)[11..];
  }

  lemma NewBytes(name: seq<byte>)
    requires |name| == 11
    ensures NewEntry(name)[..11] == name
    ensures NewEntry(name)[11..] ==
            [0, 0, 0, 0, 8, 0x21, 0x28, 0x21, 0x28, 0, 0, 0, 8, 0x21, 0x28, 0, 0, 0, 0, 0, 0]
  {
    var r: Entry := name + seq(21, _ => 0);
    assert NewEntry(name) ==
           r[14 := 0][15 := 8][16 := 0x21][17 := 0x28][18 := 0x21][19 := 0x28][22 := 0][23 := 8][24 := 0x21]
           [25 := 0x28];
  }

  /** A date and a time of day as the format packs them into 16 bits. */
  function DateWord(year: nat, month: nat, day: nat): nat
    requires year >= 1980
  {
    0x200 * (year - 1980) + 0x20 * month + day
  }

  function TimeWord(hour: nat, minute: nat, second: nat): nat {
    0x800 * hour + 0x20 * minute + second / 2
  }

  /** The attribute byte is made of six flags and two reserved bits. */
  lemma AttributeBits(e: Entry, readOnly: bool, hidden: bool, system: bool, volume: bool, directory: bool,
                      archive: bool, reserved: nat)
    requires reserved < 4
    requires Attributes(e) as int == Flag(readOnly) + 2 * Flag(hidden) + 4 * Flag(system) + 8 * Flag(volume)
                                     + 0x10 * Flag(directory) + 0x20 * Flag(archive) + 0x40 * reserved
    ensures IsReadOnly(e) == readOnly
    ensures IsFile(e) == (!volume && !directory)
    ensures IsSubDir(e) == (!volume && directory)
    ensures HasAttribute(Attributes(e), DIR_ATT_DIRECTORY) == directory
  {
    var a := Attributes(e) as int;
    assert a / 1 == a;
    assert a / 8 == Flag(volume) + 2 * Flag(directory) + 4 * Flag(archive) + 8 * reserved;
    assert a / 0x10 == Flag(directory) + 2 * Flag(archive) + 4 * reserved;
  }

  function Flag(b: bool): nat { if b then 1 else 0 }
}
