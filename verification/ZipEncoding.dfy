/** Archives as the format writes their end: the central directory, the end record and its ZIP64 extension, and that
    they are accepted with their own directory. */
module ZipEncoding {
  import opened Wrappers
  import opened Binary
  import opened BinaryEncoding
  import opened ZipPreflight

  /** A central record; `versions` and `places` are the fields before and after the three lengths. */
  datatype Record = Record(versions: Bytes, places: Bytes, name: Bytes, extra: Bytes, comment: Bytes)

  predicate RecordSound(r: Record) {
    && |r.versions| == 24 && |r.places| == 12
    && 1 <= |r.name| <= 65535 && |r.extra| <= 65535 && |r.comment| <= 65535
  }

  function Lengths(r: Record): Bytes
    requires RecordSound(r)
  {
    Put16(|r.name|, true) + Put16(|r.extra|, true) + Put16(|r.comment|, true)
  }

  function RecordBytes(r: Record): Bytes
    requires RecordSound(r)
  {
    ([0x50, 0x4B, 1, 2] + r.versions) + Lengths(r) + (r.places + r.name + r.extra + r.comment)
  }

  predicate AllRecordsSound(rs: seq<Record>) {
    forall i :: 0 <= i < |rs| ==> RecordSound(rs[i])
  }

  function Central(rs: seq<Record>): Bytes
    requires AllRecordsSound(rs)
  {
    if rs == [] then [] else RecordBytes(rs[0]) + Central(rs[1..])
  }

  lemma RecordStands(file: Bytes, at: nat, r: Record, end: nat)
    requires RecordSound(r) && StandsAt(file, at, RecordBytes(r)) && at + |RecordBytes(r)| <= end <= |file|
    ensures RecordFits(file, at, end) && RecordSize(file, at) == |RecordBytes(r)|
  {
    hide U16, Put16;
    var head, lengths, rest := [0x50, 0x4B, 1, 2] + r.versions, Lengths(r), r.places + r.name + r.extra + r.comment;
    ThreeStand(file, at, head, lengths, rest);
    ThreeStand(file, at, [], [0x50, 0x4B, 1, 2], r.versions);
    ThreeStand(file, at + 28, Put16(|r.name|, true), Put16(|r.extra|, true), Put16(|r.comment|, true));
    U16At(file, at + 28, |r.name|, true);
    U16At(file, at + 30, |r.extra|, true);
    U16At(file, at + 32, |r.comment|, true);
  }

  /** Records written one after another are counted as so many. */
  lemma {:induction false} RecordsAreCounted(file: Bytes, at: nat, rs: seq<Record>, end: nat)
    requires AllRecordsSound(rs) && StandsAt(file, at, Central(rs)) && at + |Central(rs)| == end
    ensures Records(file, at, end) == Some(|rs|)
    decreases |rs|
  {
    hide RecordFits, RecordSize, RecordBytes, RecordSound;
    if rs != [] {
      var first, rest := RecordBytes(rs[0]), Central(rs[1..]);
      assert Central(rs) == first + rest + [];
      ThreeStand(file, at, first, rest, []);
      RecordStands(file, at, rs[0], end);
      FitsGrows(file, at, end);
      RecordsAreCounted(file, at + |first|, rs[1..], end);
    }
  }

  /** The record that stands where the walk finds one. */
  lemma RecordIsWritten(file: Bytes, at: nat, end: nat) returns (r: Record)
    requires RecordFits(file, at, end)
    ensures RecordSound(r) && StandsAt(file, at, RecordBytes(r)) && |RecordBytes(r)| == RecordSize(file, at)
  {
    hide U16, Put16, StandsAt;
    var name, extra, comment := U16(file, at + 28, true), U16(file, at + 30, true), U16(file, at + 32, true);
    var x, y := at + 46 + name, at + 46 + name + extra;
    r := Record(file[at + 4..at + 28], file[at + 34..at + 46], file[at + 46..x], file[x..y], file[y..y + comment]);
    U16Stands(file, at + 28);
    U16Stands(file, at + 30);
    U16Stands(file, at + 32);
    SliceStands(file, at, at + 4);
    SliceStands(file, at + 4, at + 28);
    SliceStands(file, at + 34, at + 46);
    SliceStands(file, at + 46, x);
    SliceStands(file, x, y);
    SliceStands(file, y, y + comment);
    var mark: Bytes := [0x50, 0x4B, 1, 2];
    SliceStands(file, at, at);
    ThreeTogether(file, at, [], mark, r.versions);
    assert [] + mark + r.versions == mark + r.versions;
    ThreeTogether(file, at + 28, Put16(name, true), Put16(extra, true), Put16(comment, true));
    ThreeTogether(file, at + 34, r.places, r.name, r.extra);
    SliceStands(file, y + comment, y + comment);
    ThreeTogether(file, at + 34, r.places + r.name + r.extra, r.comment, []);
    assert r.places + r.name + r.extra + r.comment + [] == r.places + r.name + r.extra + r.comment;
    ThreeTogether(file, at, mark + r.versions, Lengths(r), r.places + r.name + r.extra + r.comment);
  }

  /** Records that are counted are written one after another. */
  lemma {:induction false} RecordsAreWritten(file: Bytes, at: nat, end: nat) returns (rs: seq<Record>)
    requires Records(file, at, end).Some? && at <= |file|
    ensures AllRecordsSound(rs) && StandsAt(file, at, Central(rs)) && at + |Central(rs)| == end
    ensures Some(|rs|) == Records(file, at, end)
    decreases end - at
  {
    hide RecordFits, RecordSize, RecordBytes, RecordSound;
    if at == end {
      rs := [];
    } else {
      FitsGrows(file, at, end);
      var first := RecordIsWritten(file, at, end);
      var rest := RecordsAreWritten(file, at + RecordSize(file, at), end);
      rs := [first] + rest;
      assert rs[1..] == rest;
      ThreeTogether(file, at, RecordBytes(first), Central(rest), []);
      assert RecordBytes(first) + Central(rest) + [] == Central(rs);
    }
  }

  // ---------------------------------------------------------------------------------------------
  // End records
  // ---------------------------------------------------------------------------------------------

  /** What an end record says. */
  datatype End = End(disk: nat, centralDisk: nat, onDisk: nat, total: nat, bytes: nat, offset: nat, comment: Bytes)

  predicate EndNumbers(e: End) {
    && e.disk <= 0xFFFF && e.centralDisk <= 0xFFFF && e.onDisk <= 0xFFFF && e.total <= 0xFFFF
    && e.bytes <= 0xFFFF_FFFF && e.offset <= 0xFFFF_FFFF && |e.comment| <= 0xFFFF
  }

  function EndBytes(e: End): (r: Bytes)
    requires EndNumbers(e)
    ensures |r| == 22 + |e.comment|
  {
    ([0x50, 0x4B, 5, 6] + Put16(e.disk, true) + Put16(e.centralDisk, true))
    + (Put16(e.onDisk, true) + Put16(e.total, true) + Put32(e.bytes, true))
    + (Put32(e.offset, true) + Put16(|e.comment|, true) + e.comment)
  }

  lemma EndStands(file: Bytes, at: nat, e: End)
    requires EndNumbers(e) && StandsAt(file, at, EndBytes(e))
    ensures at + 22 <= |file| && IsMark(file, at)
    ensures U16(file, at + 4, true) == e.disk && U16(file, at + 6, true) == e.centralDisk
    ensures U16(file, at + 8, true) == e.onDisk && U16(file, at + 10, true) == e.total
    ensures U32(file, at + 12, true) == e.bytes && U32(file, at + 16, true) == e.offset && U16(file, at + 20, true) == |e.comment|
  {
    hide U16, U32, Put16, Put32;
    var mark: Bytes := [0x50, 0x4B, 5, 6];
    var a, b, c := mark + Put16(e.disk, true) + Put16(e.centralDisk, true), Put16(e.onDisk, true) + Put16(e.total, true) + Put32(e.bytes, true),
      Put32(e.offset, true) + Put16(|e.comment|, true) + e.comment;
    ThreeStand(file, at, a, b, c);
    ThreeStand(file, at, mark, Put16(e.disk, true), Put16(e.centralDisk, true));
    ThreeStand(file, at + 8, Put16(e.onDisk, true), Put16(e.total, true), Put32(e.bytes, true));
    ThreeStand(file, at + 16, Put32(e.offset, true), Put16(|e.comment|, true), e.comment);
    FourAt(file, at, mark);
    U16At(file, at + 4, e.disk, true);
    U16At(file, at + 6, e.centralDisk, true);
    U16At(file, at + 8, e.onDisk, true);
    U16At(file, at + 10, e.total, true);
    U32At(file, at + 12, e.bytes, true);
    U32At(file, at + 16, e.offset, true);
    U16At(file, at + 20, |e.comment|, true);
  }

  lemma FourAt(file: Bytes, at: nat, four: Bytes)
    requires |four| == 4 && StandsAt(file, at, four)
    ensures file[at] == four[0] && file[at + 1] == four[1] && file[at + 2] == four[2] && file[at + 3] == four[3]
  {
    assert file[at] == file[at..at + 4][0] && file[at + 1] == file[at..at + 4][1];
    assert file[at + 2] == file[at..at + 4][2] && file[at + 3] == file[at..at + 4][3];
  }

  /** A signature that does not make the end record doubtful: of a whole record whose comment ends elsewhere. */
  predicate Harmless(file: Bytes, at: nat) {
    at + 22 <= |file| && at + 22 + (file[at + 20] as int) + (file[at + 21] as int) * 0x100 != |file|
  }

  /** The file ends with this end record, and every later signature is harmless. */
  ghost predicate EndsWith(file: Bytes, at: nat, e: End) {
    && EndNumbers(e) && StandsAt(file, at, EndBytes(e)) && at + |EndBytes(e)| == |file|
    && forall later: nat :: later > at && StandsAt(file, later, [0x50, 0x4B, 5, 6]) ==> Harmless(file, later)
  }

  lemma MarkStands(file: Bytes, at: nat)
    ensures IsMark(file, at) <==> StandsAt(file, at, [0x50, 0x4B, 5, 6])
  {
    if at + 4 <= |file| { assert file[at..at + 4] == [file[at], file[at + 1], file[at + 2], file[at + 3]]; }
  }

  lemma EndIsFound(file: Bytes, at: nat, e: End)
    requires EndsWith(file, at, e)
    ensures EndRecordAt(file, at)
  {
    hide IsMark, StandsAt;
    EndStands(file, at, e);
    forall later: nat | at < later < |file| && IsMark(file, later) ensures later + 22 <= |file| && !Reaches(file, later) {
      MarkStands(file, later);
    }
  }

  /** The end record that is found. */
  lemma EndIsWritten(file: Bytes, at: nat) returns (e: End)
    requires EndRecordAt(file, at)
    ensures EndsWith(file, at, e)
  {
    hide U16, U32, Put16, Put32, StandsAt, IsMark;
    e := End(U16(file, at + 4, true), U16(file, at + 6, true), U16(file, at + 8, true), U16(file, at + 10, true),
             U32(file, at + 12, true), U32(file, at + 16, true), file[at + 22..]);
    MarkStands(file, at);
    U16Stands(file, at + 4);
    U16Stands(file, at + 6);
    U16Stands(file, at + 8);
    U16Stands(file, at + 10);
    U32Stands(file, at + 12);
    U32Stands(file, at + 16);
    U16Stands(file, at + 20);
    SliceStands(file, at + 22, |file|);
    var mark: Bytes := [0x50, 0x4B, 5, 6];
    ThreeTogether(file, at, mark, Put16(e.disk, true), Put16(e.centralDisk, true));
    ThreeTogether(file, at + 8, Put16(e.onDisk, true), Put16(e.total, true), Put32(e.bytes, true));
    ThreeTogether(file, at + 16, Put32(e.offset, true), Put16(|e.comment|, true), e.comment);
    ThreeTogether(file, at, mark + Put16(e.disk, true) + Put16(e.centralDisk, true),
                  Put16(e.onDisk, true) + Put16(e.total, true) + Put32(e.bytes, true),
                  Put32(e.offset, true) + Put16(|e.comment|, true) + e.comment);
    forall later: nat | later > at && StandsAt(file, later, mark) ensures Harmless(file, later) {
      MarkStands(file, later);
      ReachesIsRead(file, later);
    }
  }

  lemma ReachesIsRead(file: Bytes, at: nat)
    ensures IsMark(file, at) ==> at < |file|
    ensures at + 22 <= |file| ==> (Harmless(file, at) <==> !Reaches(file, at))
  {
  }

  /** The records stand at the offset and end where the directory has to. */
  ghost predicate Holds(file: Bytes, rs: seq<Record>, offset: nat, end: nat, maxEntries: nat) {
    && AllRecordsSound(rs) && StandsAt(file, offset, Central(rs)) && offset + |Central(rs)| == end
    && 1 <= |rs| <= maxEntries && |Central(rs)| <= 64 * 1024 * 1024
  }

  lemma {:induction false} CentralIsNotEmpty(rs: seq<Record>)
    requires AllRecordsSound(rs) && rs != []
    ensures |Central(rs)| > 0
  {
  }

  lemma DirectoryIsAccepted(file: Bytes, at: nat, d: Declared, rs: seq<Record>, maxEntries: nat)
    requires EndRecordAt(file, at) && Declares(file, at, d) && Holds(file, rs, d.directory.offset, d.end, maxEntries)
    requires d.directory.entries == |rs| && d.directory.bytes == |Central(rs)|
    ensures Accepts(file, maxEntries, d.directory)
  {
    CentralIsNotEmpty(rs);
    RecordsAreCounted(file, d.directory.offset, rs, d.end);
    var starts := CountedAreTiles(file, d.directory.offset, d.end);
  }

  lemma DirectoryIsWritten(file: Bytes, maxEntries: nat, directory: Directory) returns (at: nat, d: Declared, e: End, rs: seq<Record>)
    requires Accepts(file, maxEntries, directory)
    ensures EndRecordAt(file, at) && EndsWith(file, at, e) && Declares(file, at, d) && d.directory == directory
    ensures Holds(file, rs, directory.offset, d.end, maxEntries) && directory.entries == |rs| && directory.bytes == |Central(rs)|
  {
    var starts: seq<nat>;
    at, d, starts :| EndRecordAt(file, at) && Declares(file, at, d) && d.directory == directory && Bounded(file, d, maxEntries)
      && |starts| == directory.entries && Tiles(file, starts, directory.offset, d.end);
    e := EndIsWritten(file, at);
    TilesAreCounted(file, starts, directory.offset, d.end);
    rs := RecordsAreWritten(file, directory.offset, d.end);
  }

  /** An archive on one disk without the extension. */
  ghost predicate Plain(file: Bytes, at: nat, e: End, rs: seq<Record>, maxEntries: nat, directory: Directory) {
    && EndsWith(file, at, e) && Holds(file, rs, directory.offset, at, maxEntries)
    && e.disk == 0 && e.centralDisk == 0 && e.onDisk == e.total == |rs| < 0xFFFF
    && e.bytes == |Central(rs)| < 0xFFFF_FFFF && e.offset < 0xFFFF_FFFF && directory == Directory(|rs|, e.offset, |Central(rs)|)
  }

  /** An archive on one disk, written without the extension, is accepted with its own directory. */
  lemma ArchiveIsAccepted(file: Bytes, at: nat, e: End, rs: seq<Record>, maxEntries: nat, directory: Directory)
    requires Plain(file, at, e, rs, maxEntries, directory)
    ensures Accepts(file, maxEntries, directory)
  {
    hide U16, U32, Central;
    EndStands(file, at, e);
    EndIsFound(file, at, e);
    DirectoryIsAccepted(file, at, Declared(directory, at), rs, maxEntries);
  }

  // ---------------------------------------------------------------------------------------------
  // The ZIP64 extension
  // ---------------------------------------------------------------------------------------------

  /** The extended end record; `versions` are the two version fields. */
  function Zip64Bytes(versions: Bytes, entries: nat, bytes: nat, offset: nat): (r: Bytes)
    requires |versions| == 4 && entries < 0x1_0000_0000_0000_0000 && bytes < 0x1_0000_0000_0000_0000 && offset < 0x1_0000_0000_0000_0000
    ensures |r| == 56
  {
    ([0x50, 0x4B, 6, 6] + Put64(44, true) + versions)
    + (Put32(0, true) + Put32(0, true) + Put64(entries, true))
    + (Put64(entries, true) + Put64(bytes, true) + Put64(offset, true))
  }

  function LocatorBytes(record: nat): (r: Bytes)
    requires record < 0x1_0000_0000_0000_0000
    ensures |r| == 20
  {
    [0x50, 0x4B, 6, 7] + Put32(0, true) + (Put64(record, true) + Put32(1, true) + [])
  }

  lemma Zip64Stands(file: Bytes, at: nat, versions: Bytes, entries: nat, bytes: nat, offset: nat)
    requires |versions| == 4 && entries < 0x1_0000_0000_0000_0000 && bytes < 0x1_0000_0000_0000_0000 && offset < 0x1_0000_0000_0000_0000
    requires StandsAt(file, at, Zip64Bytes(versions, entries, bytes, offset))
    ensures at + 56 <= |file| && HasAt(file, at, [0x50, 0x4B, 6, 6]) && U64(file, at + 4, true) == 44
    ensures U32(file, at + 16, true) == 0 && U32(file, at + 20, true) == 0 && U64(file, at + 24, true) == U64(file, at + 32, true) == entries
    ensures U64(file, at + 40, true) == bytes && U64(file, at + 48, true) == offset
  {
    hide U32, U64, Put32, Put64;
    var mark: Bytes := [0x50, 0x4B, 6, 6];
    ThreeStand(file, at, mark + Put64(44, true) + versions, Put32(0, true) + Put32(0, true) + Put64(entries, true),
               Put64(entries, true) + Put64(bytes, true) + Put64(offset, true));
    ThreeStand(file, at, mark, Put64(44, true), versions);
    ThreeStand(file, at + 16, Put32(0, true), Put32(0, true), Put64(entries, true));
    ThreeStand(file, at + 32, Put64(entries, true), Put64(bytes, true), Put64(offset, true));
    U64At(file, at + 4, 44, true);
    U32At(file, at + 16, 0, true);
    U32At(file, at + 20, 0, true);
    U64At(file, at + 24, entries, true);
    U64At(file, at + 32, entries, true);
    U64At(file, at + 40, bytes, true);
    U64At(file, at + 48, offset, true);
  }

  lemma LocatorStands(file: Bytes, at: nat, record: nat)
    requires record < 0x1_0000_0000_0000_0000 && StandsAt(file, at, LocatorBytes(record))
    ensures at + 20 <= |file| && HasAt(file, at, [0x50, 0x4B, 6, 7]) && U32(file, at + 4, true) == 0
    ensures U64(file, at + 8, true) == record && U32(file, at + 16, true) == 1
  {
    hide U32, U64, Put32, Put64;
    ThreeStand(file, at, [0x50, 0x4B, 6, 7], Put32(0, true), Put64(record, true) + Put32(1, true) + []);
    ThreeStand(file, at + 8, Put64(record, true), Put32(1, true), []);
    U32At(file, at + 4, 0, true);
    U64At(file, at + 8, record, true);
    U32At(file, at + 16, 1, true);
  }

  /** An archive on one disk whose end record refers to the extension before it. */
  ghost predicate Extended(file: Bytes, at: nat, e: End, record: nat, versions: Bytes, rs: seq<Record>, maxEntries: nat, directory: Directory) {
    && EndsWith(file, at, e) && Holds(file, rs, directory.offset, record, maxEntries) && record + 76 == at && |versions| == 4
    && |rs| < 0x1_0000_0000_0000_0000 && directory.offset < 0x1_0000_0000_0000_0000 && record < 0x1_0000_0000_0000_0000
    && StandsAt(file, record, Zip64Bytes(versions, |rs|, |Central(rs)|, directory.offset)) && StandsAt(file, record + 56, LocatorBytes(record))
    && (e.disk == 0xFFFF || e.centralDisk == 0xFFFF || e.onDisk == 0xFFFF || e.total == 0xFFFF || e.bytes == 0xFFFF_FFFF || e.offset == 0xFFFF_FFFF)
    && directory == Directory(|rs|, directory.offset, |Central(rs)|)
  }

  /** An archive whose end record refers to the extension is accepted with the directory the extension declares. */
  lemma ExtendedArchiveIsAccepted(file: Bytes, at: nat, e: End, record: nat, versions: Bytes, rs: seq<Record>, maxEntries: nat, directory: Directory)
    requires Extended(file, at, e, record, versions, rs, maxEntries, directory)
    ensures Accepts(file, maxEntries, directory)
  {
    hide U16, U32, U64, Central;
    EndStands(file, at, e);
    EndIsFound(file, at, e);
    Zip64Stands(file, record, versions, |rs|, |Central(rs)|, directory.offset);
    LocatorStands(file, record + 56, record);
    DirectoryIsAccepted(file, at, Declared(directory, record), rs, maxEntries);
  }

  lemma Zip64IsWritten(file: Bytes, at: nat, record: nat)
    requires Zip64At(file, at, record)
    ensures record < 0x1_0000_0000_0000_0000 && StandsAt(file, record + 56, LocatorBytes(record))
    ensures StandsAt(file, record, Zip64Bytes(file[record + 12..record + 16], U64(file, record + 32, true),
                                              U64(file, record + 40, true), U64(file, record + 48, true)))
  {
    hide U32, U64, Put32, Put64, StandsAt;
    var locator := record + 56;
    SliceStands(file, locator, locator + 4);
    U32Stands(file, locator + 4);
    U64Stands(file, locator + 8);
    U32Stands(file, locator + 16);
    SliceStands(file, locator + 20, locator + 20);
    var mark: Bytes := [0x50, 0x4B, 6, 7];
    SliceStands(file, locator, locator);
    ThreeTogether(file, locator + 8, Put64(record, true), Put32(1, true), []);
    ThreeTogether(file, locator, mark, Put32(0, true), Put64(record, true) + Put32(1, true) + []);
    RecordOfZip64(file, record);
  }

  lemma RecordOfZip64(file: Bytes, record: nat)
    requires record + 56 <= |file| && HasAt(file, record, [0x50, 0x4B, 6, 6]) && U64(file, record + 4, true) == 44
    requires U32(file, record + 16, true) == 0 && U32(file, record + 20, true) == 0
    requires U64(file, record + 24, true) == U64(file, record + 32, true)
    ensures StandsAt(file, record, Zip64Bytes(file[record + 12..record + 16], U64(file, record + 32, true),
                                              U64(file, record + 40, true), U64(file, record + 48, true)))
  {
    hide U32, U64, Put32, Put64, StandsAt;
    var mark: Bytes := [0x50, 0x4B, 6, 6];
    var versions, entries := file[record + 12..record + 16], U64(file, record + 32, true);
    var bytes, offset := U64(file, record + 40, true), U64(file, record + 48, true);
    SliceStands(file, record, record + 4);
    U64Stands(file, record + 4);
    SliceStands(file, record + 12, record + 16);
    U32Stands(file, record + 16);
    U32Stands(file, record + 20);
    U64Stands(file, record + 24);
    U64Stands(file, record + 32);
    U64Stands(file, record + 40);
    U64Stands(file, record + 48);
    ThreeTogether(file, record, mark, Put64(44, true), versions);
    ThreeTogether(file, record + 16, Put32(0, true), Put32(0, true), Put64(entries, true));
    ThreeTogether(file, record + 32, Put64(entries, true), Put64(bytes, true), Put64(offset, true));
    ThreeTogether(file, record, mark + Put64(44, true) + versions, Put32(0, true) + Put32(0, true) + Put64(entries, true),
                  Put64(entries, true) + Put64(bytes, true) + Put64(offset, true));
  }

  /** A file is accepted with a directory exactly when it is such an archive of that directory, one way or the other. */
  lemma AcceptanceIsExact(file: Bytes, maxEntries: nat, directory: Directory)
    ensures Accepts(file, maxEntries, directory) <==>
            || (exists at, e, rs :: Plain(file, at, e, rs, maxEntries, directory))
            || (exists at, e, record, versions, rs :: Extended(file, at, e, record, versions, rs, maxEntries, directory))
  {
    hide Accepts, Plain, Extended;
    if Accepts(file, maxEntries, directory) { AcceptedIsWritten(file, maxEntries, directory); }
    if at, e, rs :| Plain(file, at, e, rs, maxEntries, directory) {
      ArchiveIsAccepted(file, at, e, rs, maxEntries, directory);
    }
    if at, e, record, versions, rs :| Extended(file, at, e, record, versions, rs, maxEntries, directory) {
      ExtendedArchiveIsAccepted(file, at, e, record, versions, rs, maxEntries, directory);
    }
  }

  lemma AcceptedIsWritten(file: Bytes, maxEntries: nat, directory: Directory)
    requires Accepts(file, maxEntries, directory)
    ensures || (exists at, e, rs :: Plain(file, at, e, rs, maxEntries, directory))
            || (exists at, e, record, versions, rs :: Extended(file, at, e, record, versions, rs, maxEntries, directory))
  {
    hide U16, U32, U64, Central, StandsAt, Accepts, EndRecordAt;
    var at, d, e, rs := DirectoryIsWritten(file, maxEntries, directory);
    EndStands(file, at, e);
    if NeedsZip64(file, at) {
      Zip64IsWritten(file, at, d.end);
      assert Extended(file, at, e, d.end, file[d.end + 12..d.end + 16], rs, maxEntries, directory);
    } else {
      assert Plain(file, at, e, rs, maxEntries, directory);
    }
  }
}
