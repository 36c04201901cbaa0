/** Images and fat files as the format writes them, and that they are accepted and read back. */
module MachOEncoding {
  import opened Wrappers
  import opened Binary
  import opened BinaryEncoding
  import opened MachO

  // ---------------------------------------------------------------------------------------------
  // Load commands
  // ---------------------------------------------------------------------------------------------

  datatype Command = Command(code: nat, payload: Bytes)

  function CommandBytes(c: Command, little: bool): Bytes
    requires c.code < 0x1_0000_0000 && 8 + |c.payload| < 0x1_0000_0000
  {
    Put32(c.code, little) + Put32(8 + |c.payload|, little) + c.payload
  }

  /** A signature names a range that is not empty and lies in the image; an identifier has sixteen bytes. */
  predicate CommandSound(c: Command, little: bool, length: nat) {
    && c.code < 0x1_0000_0000 && 8 + |c.payload| < 0x1_0000_0000
    && (c.code == 0x1D && |c.payload| >= 8 ==>
          U32(c.payload, 4, little) > 0 && U32(c.payload, 0, little) + U32(c.payload, 4, little) <= length)
    && (c.code == 0x1B ==> |c.payload| == 16)
  }

  predicate AllSound(cs: seq<Command>, little: bool, length: nat) {
    forall i :: 0 <= i < |cs| ==> CommandSound(cs[i], little, length)
  }

  function Concat(cs: seq<Command>, little: bool, length: nat): Bytes
    requires AllSound(cs, little, length)
  {
    if cs == [] then [] else CommandBytes(cs[0], little) + Concat(cs[1..], little, length)
  }

  function Identifiers(cs: seq<Command>): seq<Bytes> {
    if cs == [] then [] else (if cs[0].code == 0x1B then [cs[0].payload] else []) + Identifiers(cs[1..])
  }

  lemma CommandIsRead(before: Bytes, c: Command, after: Bytes, little: bool, length: nat)
    requires CommandSound(c, little, length)
    ensures var bytes, at := before + (CommandBytes(c, little) + after), |before|;
            && at + 8 <= |bytes| && U32(bytes, at, little) == c.code && CommandSize(bytes, little, at) == 8 + |c.payload|
            && at + 8 + |c.payload| <= |bytes| && bytes[at + 8..at + 8 + |c.payload|] == c.payload
  {
    hide U32, Put32;
    var bytes, at := before + (CommandBytes(c, little) + after), |before|;
    assert StandsAt(bytes, at, CommandBytes(c, little));
    ThreeStand(bytes, at, Put32(c.code, little), Put32(8 + |c.payload|, little), c.payload);
    U32At(bytes, at, c.code, little);
    U32At(bytes, at + 4, 8 + |c.payload|, little);
  }

  lemma SameNumber(a: Bytes, at: nat, b: Bytes, from: nat, little: bool)
    requires at + 4 <= |a| && from + 4 <= |b| && a[at..at + 4] == b[from..from + 4]
    ensures U32(a, at, little) == U32(b, from, little)
  {
    assert a[at] == a[at..at + 4][0] && a[at + 1] == a[at..at + 4][1] && a[at + 2] == a[at..at + 4][2] && a[at + 3] == a[at..at + 4][3];
    assert b[from] == b[from..from + 4][0] && b[from + 1] == b[from..from + 4][1] && b[from + 2] == b[from..from + 4][2] && b[from + 3] == b[from..from + 4][3];
  }

  lemma CommandStands(before: Bytes, c: Command, after: Bytes, little: bool, length: nat)
    requires CommandSound(c, little, length)
    ensures var bytes := before + (CommandBytes(c, little) + after);
            CommandFits(bytes, little, length, |before|) && (IsUuid(bytes, little, |before|) <==> c.code == 0x1B)
  {
    hide U32;
    var bytes, at := before + (CommandBytes(c, little) + after), |before|;
    CommandIsRead(before, c, after, little, length);
    if |c.payload| >= 8 {
      assert bytes[at + 8..at + 12] == bytes[at + 8..at + 8 + |c.payload|][..4] == c.payload[0..4];
      assert bytes[at + 12..at + 16] == bytes[at + 8..at + 8 + |c.payload|][4..8] == c.payload[4..8];
      SameNumber(bytes, at + 8, c.payload, 0, little);
      SameNumber(bytes, at + 12, c.payload, 4, little);
    }
  }

  /** The commands written one after another are walked as so many commands with their identifiers. */
  lemma {:induction false} CommandsAreWalked(before: Bytes, cs: seq<Command>, little: bool, length: nat)
    requires AllSound(cs, little, length)
    ensures WalkFrom(before + Concat(cs, little, length), little, length, |before|) == Some(Walk(|cs|, Identifiers(cs)))
    decreases |cs|
  {
    hide CommandFits, IsUuid, CommandSize, CommandBytes;
    if cs == [] {
      assert before + [] == before;
    } else {
      var rest := Concat(cs[1..], little, length);
      var bytes := before + (CommandBytes(cs[0], little) + rest);
      CommandIsRead(before, cs[0], rest, little, length);
      CommandStands(before, cs[0], rest, little, length);
      BytesOfCommand(cs[0], little);
      assert before + Concat(cs, little, length) == bytes == (before + CommandBytes(cs[0], little)) + rest;
      assert cs[0].code == 0x1B ==> |cs[0].payload| == 16;
      CommandsAreWalked(before + CommandBytes(cs[0], little), cs[1..], little, length);
      assert [] + Identifiers(cs[1..]) == Identifiers(cs[1..]);
      assert |before| < |bytes| && |before| + CommandSize(bytes, little, |before|) == |before + CommandBytes(cs[0], little)|;
    }
  }

  lemma BytesOfCommand(c: Command, little: bool)
    requires c.code < 0x1_0000_0000 && 8 + |c.payload| < 0x1_0000_0000
    ensures |CommandBytes(c, little)| == 8 + |c.payload|
  {
  }

  // ---------------------------------------------------------------------------------------------
  // One image
  // ---------------------------------------------------------------------------------------------

  /** An image: what its header says, its commands, and the bytes after them. */
  datatype Picture = Picture(
    little: bool, wide: bool, cpuType: int, cpuSubtype: int, fileType: nat, flags: nat, reserved: nat, commands: seq<Command>, tail: Bytes)

  predicate Numbers(p: Picture) {
    && -0x8000_0000 <= p.cpuType < 0x8000_0000 && -0x8000_0000 <= p.cpuSubtype < 0x8000_0000
    && p.fileType < 0x1_0000_0000 && p.flags < 0x1_0000_0000 && p.reserved < 0x1_0000_0000
  }

  function Magic(p: Picture): nat {
    if p.wide then 0xFEED_FACF else 0xFEED_FACE
  }

  function HeadBytes(p: Picture, count: nat, size: nat): Bytes
    requires Numbers(p) && count < 0x1_0000_0000 && size < 0x1_0000_0000
  {
    Flat(HeadWords(p, count, size))
  }

  function HeadWords(p: Picture, count: nat, size: nat): (r: seq<Bytes>)
    requires Numbers(p) && count < 0x1_0000_0000 && size < 0x1_0000_0000
    ensures |r| == if p.wide then 8 else 7
  {
    [Put32(Magic(p), p.little), Put32(Unsigned(p.cpuType), p.little), Put32(Unsigned(p.cpuSubtype), p.little),
     Put32(p.fileType, p.little), Put32(count, p.little), Put32(size, p.little), Put32(p.flags, p.little)]
    + (if p.wide then [Put32(p.reserved, p.little)] else [])
  }

  /** Of a known processor and file type, with at most one identifier and commands that are sound in an image so long. */
  predicate PictureSound(p: Picture, expected: Option<nat>, length: nat) {
    && Numbers(p) && p.cpuType in {7, 12, 0x0100_0007, 0x0100_000C}
    && (if expected.Some? then p.fileType == expected.value else p.fileType in {2, 6, 7, 8})
    && AllSound(p.commands, p.little, length) && |p.commands| <= 4096
    && |Concat(p.commands, p.little, length)| <= 8_388_608 && |Identifiers(p.commands)| <= 1
    && length == (if p.wide then 32 else 28) + |Concat(p.commands, p.little, length)| + |p.tail|
  }

  function PictureBytes(p: Picture, expected: Option<nat>, length: nat): Bytes
    requires PictureSound(p, expected, length)
  {
    HeadBytes(p, |p.commands|, |Concat(p.commands, p.little, length)|) + Concat(p.commands, p.little, length) + p.tail
  }

  function SliceOf(p: Picture): Slice {
    Slice(p.cpuType, p.cpuSubtype, p.fileType, if Identifiers(p.commands) == [] then None else Some(Identifiers(p.commands)[0]))
  }

  lemma HeadStands(p: Picture, count: nat, size: nat, bytes: Bytes, at: nat)
    requires Numbers(p) && count < 0x1_0000_0000 && size < 0x1_0000_0000 && StandsAt(bytes, at, HeadBytes(p, count, size))
    ensures at + 28 <= |bytes| && |HeadBytes(p, count, size)| == if p.wide then 32 else 28
    ensures U32(bytes, at, p.little) == Magic(p) && bytes[at..at + 4] == Put32(Magic(p), p.little)
    ensures I32(bytes, at + 4, p.little) == p.cpuType && I32(bytes, at + 8, p.little) == p.cpuSubtype
    ensures U32(bytes, at + 12, p.little) == p.fileType && U32(bytes, at + 16, p.little) == count && U32(bytes, at + 20, p.little) == size
  {
    hide U32, I32, Put32;
    var words, e := HeadWords(p, count, size), p.little;
    forall i | 0 <= i < |words| ensures |words[i]| == 4 { }
    forall k: nat | k < |words| ensures StandsAt(bytes, at + 4 * k, words[k]) && |Flat(words)| == 4 * |words| { WordAt(words, bytes, at, k); }
    assert words[0] == Put32(Magic(p), e) && words[1] == Put32(Unsigned(p.cpuType), e) && words[2] == Put32(Unsigned(p.cpuSubtype), e);
    assert words[3] == Put32(p.fileType, e) && words[4] == Put32(count, e) && words[5] == Put32(size, e);
    assert StandsAt(bytes, at + 4 * 0, words[0]);
    U32At(bytes, at, Magic(p), e);
    I32At(bytes, at + 4, p.cpuType, e);
    I32At(bytes, at + 8, p.cpuSubtype, e);
    U32At(bytes, at + 12, p.fileType, e);
    U32At(bytes, at + 16, count, e);
    U32At(bytes, at + 20, size, e);
  }

  /** An image written so, wherever it stands in a file, is told by its magic number and accepted with its fields. */
  lemma PictureIsAccepted(p: Picture, expected: Option<nat>, length: nat, file: Bytes, at: nat)
    requires PictureSound(p, expected, length) && StandsAt(file, at, PictureBytes(p, expected, length))
    ensures at + length <= |file| && Header(file, at, length) == Some(Thin(p.little, p.wide))
    ensures Image(file, at, length, p.little, p.wide, expected) == Some(SliceOf(p))
  {
    hide U32, I32, WalkFrom, Concat, Identifiers, HeadBytes, Put32, Header, AllSound;
    var body := Concat(p.commands, p.little, length);
    var head := HeadBytes(p, |p.commands|, |body|);
    ThreeStand(file, at, head, body, p.tail);
    HeadStands(p, |p.commands|, |body|, file, at);
    MagicIsTold(file, at, length, p);
    CommandsAreWalked([], p.commands, p.little, length);
    assert [] + body == body;
    assert HeaderFits(file, at, length, p.little, p.wide, expected);
    assert Commands(file, at, length, p.little, p.wide, expected) == body;
  }

  lemma MagicIsTold(file: Bytes, at: nat, length: nat, p: Picture)
    requires 4 <= length && at + length <= |file| && StandsAt(file, at, Put32(Magic(p), p.little))
    ensures Header(file, at, length) == Some(Thin(p.little, p.wide))
  {
    assert file[at] == file[at..at + 4][0] && file[at + 1] == file[at..at + 4][1];
    assert file[at + 2] == file[at..at + 4][2] && file[at + 3] == file[at..at + 4][3];
  }

  // ---------------------------------------------------------------------------------------------
  // Fat files
  // ---------------------------------------------------------------------------------------------

  predicate EntryNumbers(e: Entry, wide: bool) {
    && 0 <= e.cpuType < 0x1_0000_0000 && -0x8000_0000 <= e.cpuSubtype < 0x8000_0000
    && (if wide then e.offset < 0x1_0000_0000_0000_0000 && e.size < 0x1_0000_0000_0000_0000
        else e.offset < 0x1_0000_0000 && e.size < 0x1_0000_0000)
  }

  /** One entry of the table, with its alignment and, in the wide form, a reserved word. */
  function EntryBytes(e: Entry, little: bool, wide: bool, align: nat): Bytes
    requires EntryNumbers(e, wide) && align < 0x1_0000_0000
  {
    Put32(e.cpuType, little) + Put32(Unsigned(e.cpuSubtype), little)
    + (if wide then Put64(e.offset, little) + Put64(e.size, little) + (Put32(align, little) + Put32(0, little))
       else Put32(e.offset, little) + Put32(e.size, little) + Put32(align, little))
  }

  lemma StandsInside(file: Bytes, at: nat, part: Bytes)
    requires StandsAt(file, at, part)
    ensures at + |part| <= |file|
  {
  }

  lemma EntryIsRead(file: Bytes, kind: Kind, index: nat, e: Entry, align: nat)
    requires EntryNumbers(e, kind.wide) && align < 0x1_0000_0000
    requires StandsAt(file, 8 + index * (if kind.wide then 32 else 20), EntryBytes(e, kind.little, kind.wide, align))
    ensures |EntryBytes(e, kind.little, kind.wide, align)| == (if kind.wide then 32 else 20) == EntrySize(kind.wide)
    ensures 8 + (index + 1) * EntrySize(kind.wide) <= |file| && EntryAt(file, kind, index) == e
  {
    hide U32, I32, U64, Put32, Put64, StandsAt;
    StandsInside(file, 8 + index * EntrySize(kind.wide), EntryBytes(e, kind.little, kind.wide, align));
    var at, little := 8 + index * (if kind.wide then 32 else 20), kind.little;
    var type_, sub := Put32(e.cpuType, little), Put32(Unsigned(e.cpuSubtype), little);
    if kind.wide {
      var last := Put32(align, little) + Put32(0, little);
      ThreeStand(file, at, type_, sub, Put64(e.offset, little) + Put64(e.size, little) + last);
      ThreeStand(file, at + 8, Put64(e.offset, little), Put64(e.size, little), last);
      U64At(file, at + 8, e.offset, little);
      U64At(file, at + 16, e.size, little);
    } else {
      var last := Put32(align, little);
      ThreeStand(file, at, type_, sub, Put32(e.offset, little) + Put32(e.size, little) + last);
      ThreeStand(file, at + 8, Put32(e.offset, little), Put32(e.size, little), last);
      U32At(file, at + 8, e.offset, little);
      U32At(file, at + 12, e.size, little);
    }
    U32At(file, at, e.cpuType, little);
    I32At(file, at + 4, e.cpuSubtype, little);
  }

  /** A file that begins with the magic number of a fat file, a count and so many entries. */
  predicate BeginsWithTable(file: Bytes, kind: Kind, entries: seq<Entry>, aligns: seq<nat>) {
    && kind.Fat? && |aligns| == |entries| < 0x1_0000_0000
    && StandsAt(file, 0, Put32(if kind.wide then 0xCAFE_BABF else 0xCAFE_BABE, kind.little)) && StandsAt(file, 4, Put32(|entries|, kind.little))
    && forall i :: 0 <= i < |entries| ==>
         && EntryNumbers(entries[i], kind.wide) && aligns[i] < 0x1_0000_0000
         && StandsAt(file, 8 + i * (if kind.wide then 32 else 20), EntryBytes(entries[i], kind.little, kind.wide, aligns[i]))
  }

  /** The table is told by its magic number and read back entry by entry. */
  lemma TableIsRead(file: Bytes, kind: Kind, entries: seq<Entry>, aligns: seq<nat>)
    requires BeginsWithTable(file, kind, entries, aligns) && 1 <= |entries| <= 64
    ensures Header(file, 0, |file|) == Some(kind) && TableFits(file, kind) && Table(file, kind) == entries
    ensures TableEnd(file, kind) == 8 + |entries| * (if kind.wide then 32 else 20)
  {
    hide U32, Put32, Put64, EntryAt, EntryBytes, Header;
    U32At(file, 4, |entries|, kind.little);
    FatIsTold(file, kind);
    forall i: nat | i < |entries| ensures 8 + (i + 1) * EntrySize(kind.wide) <= |file| && EntryAt(file, kind, i) == entries[i] {
      EntryIsRead(file, kind, i, entries[i], aligns[i]);
    }
    EntryIsRead(file, kind, |entries| - 1, entries[|entries| - 1], aligns[|entries| - 1]);
    assert |Table(file, kind)| == |entries|;
    forall i | 0 <= i < |entries| ensures Table(file, kind)[i] == entries[i] { assert Table(file, kind)[i] == EntryAt(file, kind, i); }
  }

  lemma FatIsTold(file: Bytes, kind: Kind)
    requires kind.Fat? && StandsAt(file, 0, Put32(if kind.wide then 0xCAFE_BABF else 0xCAFE_BABE, kind.little))
    ensures Header(file, 0, |file|) == Some(kind)
  {
    hide Put32;
    var last := if kind.wide then 0xBF else 0xBE;
    FatMagic(kind);
    assert file[0] == file[0..4][0] && file[1] == file[0..4][1] && file[2] == file[0..4][2] && file[3] == file[0..4][3];
    if kind.little {
      assert file[0] == last && file[1] == 0xBA && file[2] == 0xFE && file[3] == 0xCA;
      assert U32(file, 0, false) == last * 0x100_0000 + 0xBAFECA;
    } else {
      assert file[0] == 0xCA && file[1] == 0xFE && file[2] == 0xBA && file[3] == last;
      assert U32(file, 0, false) == 0xCAFE_BA00 + last;
    }
  }

  lemma FatMagic(kind: Kind)
    ensures var last := if kind.wide then 0xBF else 0xBE;
            Put32(if kind.wide then 0xCAFE_BABF else 0xCAFE_BABE, kind.little)
            == if kind.little then [last, 0xBA, 0xFE, 0xCA] else [0xCA, 0xFE, 0xBA, last]
  {
  }

  /** An entry points past the table at an image written for its architecture. */
  predicate PointsAt(file: Bytes, kind: Kind, count: nat, e: Entry, p: Picture, expected: Option<nat>) {
    && e.offset >= 8 + count * (if kind.wide then 32 else 20) && e.size > 0
    && e.cpuType == p.cpuType && e.cpuSubtype == p.cpuSubtype
    && PictureSound(p, expected, e.size) && StandsAt(file, e.offset, PictureBytes(p, expected, e.size))
  }

  /** A fat file of such entries, one beside the other and of different architectures, is accepted with their slices. */
  lemma FatFileIsAccepted(file: Bytes, kind: Kind, entries: seq<Entry>, aligns: seq<nat>, pictures: seq<Picture>, expected: Option<nat>)
    requires BeginsWithTable(file, kind, entries, aligns) && 1 <= |entries| <= 64 && |pictures| == |entries|
    requires forall i :: 0 <= i < |entries| ==> PointsAt(file, kind, |entries|, entries[i], pictures[i], expected)
    requires forall i, j :: 0 <= j < i < |entries| ==>
               && (entries[i].offset >= entries[j].offset + entries[j].size || entries[j].offset >= entries[i].offset + entries[i].size)
               && (entries[i].cpuType != entries[j].cpuType || entries[i].cpuSubtype != entries[j].cpuSubtype)
    ensures Header(file, 0, |file|) == Some(kind) && FatOk(file, kind, expected) && Table(file, kind) == entries
    ensures forall i :: 0 <= i < |entries| ==> EntryImage(file, entries[i], expected) == Some(SliceOf(pictures[i]))
  {
    hide Image, Header, PictureSound, PictureBytes, BeginsWithTable, TableEnd, SliceOf;
    TableIsRead(file, kind, entries, aligns);
    forall i | 0 <= i < |entries| ensures EntryImage(file, entries[i], expected) == Some(SliceOf(pictures[i])) && EntryOk(file, kind, expected, entries, i) {
      EntryIsAccepted(file, kind, |entries|, entries[i], pictures[i], expected);
    }
  }

  lemma EntryIsAccepted(file: Bytes, kind: Kind, count: nat, e: Entry, p: Picture, expected: Option<nat>)
    requires PointsAt(file, kind, count, e, p, expected)
    ensures EntryImage(file, e, expected) == Some(SliceOf(p)) && EntryFits(e, 8 + count * (if kind.wide then 32 else 20), |file|)
  {
    hide Image, Header, PictureBytes, Concat, AllSound;
    PictureIsAccepted(p, expected, e.size, file, e.offset);
  }

  /** Nothing beyond the bounds is accepted: in an image, and in the table of a fat file. */
  lemma AcceptedIsWithinBounds(file: Bytes, offset: nat, length: nat, little: bool, wide: bool, expected: Option<nat>)
    requires offset + length <= |file| && Image(file, offset, length, little, wide, expected).Some?
    ensures var head := if wide then 32 else 28;
            && length >= head && I32(file, offset + 4, little) in {7, 12, 0x0100_0007, 0x0100_000C}
            && (if expected.Some? then U32(file, offset + 12, little) == expected.value else U32(file, offset + 12, little) in {2, 6, 7, 8})
            && U32(file, offset + 16, little) <= 4096 && U32(file, offset + 20, little) <= 8_388_608
            && U32(file, offset + 20, little) <= length - head
  {
    hide U32, I32, WalkFrom;
  }

  lemma AcceptedTableIsWithinBounds(file: Bytes, kind: Kind, expected: Option<nat>, i: nat)
    requires FatOk(file, kind, expected) && i < |Table(file, kind)|
    ensures var e, count := Table(file, kind)[i], |Table(file, kind)|;
            && 1 <= count <= 64 && e.cpuType in {7, 12, 0x0100_0007, 0x0100_000C} && e.size > 0
            && e.offset >= 8 + count * (if kind.wide then 32 else 20) && e.offset + e.size <= |file|
  {
    hide U32, EntryImage;
    assert EntryOk(file, kind, expected, Table(file, kind), i);
  }
}
