/** The bounded check of ZIP metadata that runs before an archive library sees the file: the end record, its ZIP64
    extension, and the central directory, record by record. */
module ZipPreflight {
  import opened Wrappers
  import opened Binary

  const MAX_ZIP_CENTRAL_BYTES: nat := 64 * 1024 * 1024
  const TAIL_BYTES: nat := 22 + 0xFFFF + 20 + 56

  datatype Directory = Directory(entries: nat, offset: nat, bytes: nat)

  // ---------------------------------------------------------------------------------------------
  // The end record
  // ---------------------------------------------------------------------------------------------

  /** "PK", 5, 6. */
  predicate IsMark(file: Bytes, at: nat) {
    at + 4 <= |file| && At(file, at) == 0x50 && At(file, at + 1) == 0x4B && At(file, at + 2) == 5 && At(file, at + 3) == 6
  }

  predicate Reaches(file: Bytes, at: nat) {
    at + 22 <= |file| && at + 22 + U16(file, at + 20, true) == |file|
  }

  /** The end record: its comment reaches the end of the file, and every later signature is that of a whole record
      whose comment does not. */
  ghost predicate EndRecordAt(file: Bytes, at: nat) {
    IsMark(file, at) && Reaches(file, at)
    && forall later: nat :: at < later < |file| && IsMark(file, later) ==> later + 22 <= |file| && !Reaches(file, later)
  }

  /** `rfind` of the signature below a bound. */
  function LastMark(tail: Bytes, bound: nat): (r: Option<nat>)
    requires bound <= |tail|
    ensures r.Some? ==> r.value + 4 <= bound && IsMark(tail, r.value)
    ensures r.Some? ==> forall k: nat :: r.value < k && k + 4 <= bound ==> !IsMark(tail, k)
    ensures r.None? ==> forall k: nat :: k + 4 <= bound ==> !IsMark(tail, k)
  {
    if bound < 4 then None else if IsMark(tail, bound - 4) then Some(bound - 4) else LastMark(tail, bound - 1)
  }

  /** Two signatures do not overlap. */
  lemma MarksAreApart(file: Bytes, a: nat, b: nat)
    requires IsMark(file, a) && IsMark(file, b) && a < b
    ensures a + 4 <= b
  {
  }

  /** The tail of a file shows its signatures and which of them reach the end. */
  lemma TailShows(file: Bytes, offset: nat)
    requires offset <= |file|
    ensures forall k: nat :: IsMark(file[offset..], k) <==> IsMark(file, offset + k)
    ensures forall k: nat :: IsMark(file[offset..], k) ==> (Reaches(file[offset..], k) <==> Reaches(file, offset + k))
  {
    var tail := file[offset..];
    forall k: nat ensures IsMark(tail, k) <==> IsMark(file, offset + k) {
      if k + 4 <= |tail| { assert At(tail, k) == At(file, offset + k); }
    }
    forall k: nat | IsMark(tail, k) ensures Reaches(tail, k) <==> Reaches(file, offset + k) {
      if k + 22 <= |tail| { assert U16(tail, k + 20, true) == U16(file, offset + k + 20, true); }
    }
  }

  /** A signature of a whole record that does not reach the end. */
  predicate Passed(tail: Bytes, at: nat) {
    at + 22 <= |tail| && !Reaches(tail, at)
  }

  /** The search, from the last signature backwards. */
  method FindEndRecord(file: Bytes) returns (r: Option<nat>)
    ensures r.Some? ==> EndRecordAt(file, r.value)
    ensures r.None? ==> forall at: nat :: !EndRecordAt(file, at)
  {
    var tailLength := if |file| < TAIL_BYTES then |file| else TAIL_BYTES;
    var tailOffset: nat := |file| - tailLength;
    var tail := file[tailOffset..];
    TailShows(file, tailOffset);
    var marker: Option<nat> := LastMark(tail, |tail|);
    while marker.Some?
      invariant marker.Some? ==> IsMark(tail, marker.value)
      invariant forall k: nat :: IsMark(tail, k) && (marker.None? || marker.value < k) ==> Passed(tail, k)
      decreases if marker.Some? then marker.value + 1 else 0
    {
      var at: nat := marker.value;
      if at + 22 > |tail| {
        NoEndRecordBefore(file, tailOffset + at);
        return None;
      }
      var commentLength := U16(tail, at + 20, true);
      if at + 22 + commentLength == |tail| {
        Found(file, tailOffset, at);
        return Some(tailOffset + at);
      }
      marker := LastMark(tail, at);
      forall k: nat | IsMark(tail, k) && (marker.None? || marker.value < k) ensures Passed(tail, k) {
        if k < at { MarksAreApart(tail, k, at); }
      }
    }
    NoneFound(file, tailOffset);
    r := None;
  }

  lemma Found(file: Bytes, offset: nat, at: nat)
    requires offset <= |file| && IsMark(file[offset..], at) && Reaches(file[offset..], at)
    requires forall k: nat :: IsMark(file[offset..], k) && at < k ==> Passed(file[offset..], k)
    ensures EndRecordAt(file, offset + at)
  {
    TailShows(file, offset);
    forall later: nat | offset + at < later < |file| && IsMark(file, later) ensures later + 22 <= |file| && !Reaches(file, later) {
      assert IsMark(file, offset + (later - offset)) && Passed(file[offset..], later - offset);
    }
  }

  lemma NoneFound(file: Bytes, offset: nat)
    requires offset == if |file| < TAIL_BYTES then 0 else |file| - TAIL_BYTES
    requires forall k: nat :: IsMark(file[offset..], k) ==> Passed(file[offset..], k)
    ensures forall at: nat :: !EndRecordAt(file, at)
  {
    TailShows(file, offset);
    forall at: nat ensures !EndRecordAt(file, at) {
      if offset <= at && IsMark(file, at) { assert IsMark(file, offset + (at - offset)) && Passed(file[offset..], at - offset); }
    }
  }

  /** A signature too close to the end spoils every record before it, and is none itself. */
  lemma NoEndRecordBefore(file: Bytes, bad: nat)
    requires IsMark(file, bad) && bad + 22 > |file|
    ensures forall at: nat :: !EndRecordAt(file, at)
  {
  }

  lemma EndRecordIsUnique(file: Bytes, a: nat, b: nat)
    requires EndRecordAt(file, a) && EndRecordAt(file, b)
    ensures a == b
  {
  }

  // ---------------------------------------------------------------------------------------------
  // What the end records declare
  // ---------------------------------------------------------------------------------------------

  /** A declared directory and where it has to end. */
  datatype Declared = Declared(directory: Directory, end: nat)

  predicate NeedsZip64(file: Bytes, at: nat)
    requires at + 22 <= |file|
  {
    || U16(file, at + 4, true) == 0xFFFF || U16(file, at + 6, true) == 0xFFFF || U16(file, at + 8, true) == 0xFFFF
    || U16(file, at + 10, true) == 0xFFFF || U32(file, at + 12, true) == 0xFFFF_FFFF || U32(file, at + 16, true) == 0xFFFF_FFFF
  }

  /** The ZIP64 record that ends where the locator before the end record starts. */
  ghost predicate Zip64At(file: Bytes, at: nat, record: nat) {
    && record + 56 + 20 == at && at <= |file|
    && HasAt(file, at - 20, [0x50, 0x4B, 6, 7]) && U32(file, at - 16, true) == 0 && U64(file, at - 12, true) == record && U32(file, at - 4, true) == 1
    && HasAt(file, record, [0x50, 0x4B, 6, 6]) && U64(file, record + 4, true) == 44
    && U32(file, record + 16, true) == 0 && U32(file, record + 20, true) == 0
    && U64(file, record + 24, true) == U64(file, record + 32, true)
  }

  ghost predicate Declares(file: Bytes, at: nat, d: Declared)
    requires at + 22 <= |file|
  {
    if NeedsZip64(file, at) then
      Zip64At(file, at, d.end)
      && d.directory == Directory(U64(file, d.end + 32, true), U64(file, d.end + 48, true), U64(file, d.end + 40, true))
    else
      && U16(file, at + 4, true) == 0 && U16(file, at + 6, true) == 0 && U16(file, at + 8, true) == U16(file, at + 10, true)
      && d == Declared(Directory(U16(file, at + 10, true), U32(file, at + 16, true), U32(file, at + 12, true)), at)
  }

  method ReadDeclared(file: Bytes, at: nat) returns (r: Option<Declared>)
    requires at + 22 <= |file|
    ensures r.Some? ==> Declares(file, at, r.value)
    ensures r.None? ==> forall d :: !Declares(file, at, d)
  {
    hide At, U16, U32, U64;
    var diskNumber, centralDisk := U16(file, at + 4, true), U16(file, at + 6, true);
    var entriesOnDisk, entriesTotal := U16(file, at + 8, true), U16(file, at + 10, true);
    var centralBytes, centralOffset := U32(file, at + 12, true), U32(file, at + 16, true);
    if diskNumber == 0xFFFF || centralDisk == 0xFFFF || entriesOnDisk == 0xFFFF || entriesTotal == 0xFFFF
       || centralBytes == 0xFFFF_FFFF || centralOffset == 0xFFFF_FFFF {
      if at < 20 { return None; }
      var locator := at - 20;
      if !HasAt(file, locator, [0x50, 0x4B, 6, 7]) { return None; }
      var record := U64(file, locator + 8, true);
      if !(U32(file, locator + 4, true) == 0 && U32(file, locator + 16, true) == 1 && record < at && record <= |file| - 56) { return None; }
      if !HasAt(file, record, [0x50, 0x4B, 6, 6]) { return None; }
      if !(U64(file, record + 4, true) == 44 && record + 56 == locator) { return None; }
      if !(U32(file, record + 16, true) == 0 && U32(file, record + 20, true) == 0
           && U64(file, record + 24, true) == U64(file, record + 32, true)) { return None; }
      return Some(Declared(Directory(U64(file, record + 32, true), U64(file, record + 48, true), U64(file, record + 40, true)), record));
    }
    if !(diskNumber == 0 && centralDisk == 0 && entriesOnDisk == entriesTotal) { return None; }
    r := Some(Declared(Directory(entriesTotal, centralOffset, centralBytes), at));
  }

  // ---------------------------------------------------------------------------------------------
  // The central directory
  // ---------------------------------------------------------------------------------------------

  /** Header, name, extra field and comment of the central record at a position. */
  function RecordSize(file: Bytes, at: nat): (n: nat)
    requires at + 46 <= |file|
    ensures n >= 46
  {
    46 + U16(file, at + 28, true) + U16(file, at + 30, true) + U16(file, at + 32, true)
  }

  /** A central record with a name lies at the position, below the end. */
  predicate RecordFits(file: Bytes, at: nat, end: nat) {
    && end <= |file| && at + 46 <= end
    && HasAt(file, at, [0x50, 0x4B, 1, 2]) && U16(file, at + 28, true) > 0
    && at + RecordSize(file, at) <= end
  }

  function StartsEnd(starts: seq<nat>, i: nat, end: nat): nat
    requires i < |starts|
  {
    if i + 1 < |starts| then starts[i + 1] else end
  }

  /** Records start at the given positions, each where the one before ends, from the offset up to the end. */
  ghost predicate Tiles(file: Bytes, starts: seq<nat>, offset: nat, end: nat) {
    && (if starts == [] then offset == end else starts[0] == offset)
    && forall i :: 0 <= i < |starts| ==> TileAt(file, starts, i, end)
  }

  predicate TileAt(file: Bytes, starts: seq<nat>, i: nat, end: nat)
    requires i < |starts|
  {
    RecordFits(file, starts[i], end) && starts[i] + RecordSize(file, starts[i]) == StartsEnd(starts, i, end)
  }

  /** The number of records that tile a range. */
  function Records(file: Bytes, at: nat, end: nat): Option<nat>
    decreases end - at
  {
    if at == end then Some(0)
    else if !RecordFits(file, at, end) then None
    else
      match Records(file, at + RecordSize(file, at), end)
      case None => None
      case Some(n) => Some(n + 1)
  }

  lemma {:induction false} TilesAreCounted(file: Bytes, starts: seq<nat>, at: nat, end: nat)
    requires Tiles(file, starts, at, end)
    ensures Records(file, at, end) == Some(|starts|)
    decreases |starts|
  {
    hide RecordFits, RecordSize;
    if starts != [] {
      assert TileAt(file, starts, 0, end);
      forall i | 0 <= i < |starts[1..]| ensures TileAt(file, starts[1..], i, end) { assert TileAt(file, starts, i + 1, end); }
      FitsGrows(file, at, end);
      TilesAreCounted(file, starts[1..], at + RecordSize(file, at), end);
    }
  }

  lemma FitsGrows(file: Bytes, at: nat, end: nat)
    requires RecordFits(file, at, end)
    ensures at + 46 <= end <= |file| && at + 46 < at + RecordSize(file, at) <= end
  {
  }

  lemma {:induction false} CountedAreTiles(file: Bytes, at: nat, end: nat) returns (starts: seq<nat>)
    requires Records(file, at, end).Some?
    ensures Tiles(file, starts, at, end) && |starts| == Records(file, at, end).value
    decreases end - at
  {
    if at == end {
      starts := [];
    } else {
      var rest := CountedAreTiles(file, at + RecordSize(file, at), end);
      starts := [at] + rest;
      forall i | 0 <= i < |starts| ensures TileAt(file, starts, i, end) {
        if i > 0 { assert TileAt(file, rest, i - 1, end); }
      }
    }
  }

  method CountRecords(file: Bytes, offset: nat, end: nat, entries: nat, maxEntries: nat) returns (ok: bool)
    requires offset <= end <= |file| && entries <= maxEntries
    ensures ok <==> Records(file, offset, end) == Some(entries)
  {
    var cursor, actual := offset, 0;
    while cursor < end
      invariant offset <= cursor <= end && actual <= entries
      invariant Records(file, offset, end) == match Records(file, cursor, end) case None => None case Some(n) => Some(n + actual)
      decreases end - cursor
    {
      actual := actual + 1;
      if actual > entries || actual > maxEntries { return false; }
      if end - cursor < 46 { return false; }
      if !HasAt(file, cursor, [0x50, 0x4B, 1, 2]) { return false; }
      var nameBytes, extraBytes, commentBytes := U16(file, cursor + 28, true), U16(file, cursor + 30, true), U16(file, cursor + 32, true);
      var recordBytes := 46 + nameBytes + extraBytes + commentBytes;
      if nameBytes == 0 || recordBytes > end - cursor { return false; }
      cursor := cursor + recordBytes;
    }
    ok := actual == entries;
  }

  // ---------------------------------------------------------------------------------------------
  // The whole check
  // ---------------------------------------------------------------------------------------------

  ghost predicate Bounded(file: Bytes, d: Declared, maxEntries: nat) {
    && 0 < d.directory.entries <= maxEntries
    && 0 < d.directory.bytes <= MAX_ZIP_CENTRAL_BYTES
    && d.directory.offset + d.directory.bytes == d.end <= |file|
  }

  /** An archive is accepted with a directory exactly when its end records declare that directory, within the
      bounds, and the declared number of records tile it without a gap up to the end record. */
  ghost predicate Accepts(file: Bytes, maxEntries: nat, directory: Directory) {
    exists at: nat, d: Declared, starts: seq<nat> ::
      && EndRecordAt(file, at) && Declares(file, at, d) && d.directory == directory && Bounded(file, d, maxEntries)
      && |starts| == directory.entries && Tiles(file, starts, directory.offset, d.end)
  }

  method Preflight(file: Bytes, maxEntries: nat) returns (r: Option<Directory>)
    ensures r.Some? ==> Accepts(file, maxEntries, r.value)
    ensures r.None? ==> forall directory :: !Accepts(file, maxEntries, directory)
  {
    var at := FindEndRecord(file);
    if at.None? { return None; }
    var declared := ReadDeclared(file, at.value);
    if declared.None? {
      NotDeclared(file, at.value, maxEntries);
      return None;
    }
    var d, directory := declared.value, declared.value.directory;
    if !(0 < directory.entries <= maxEntries) {
      Refuted(file, at.value, d, maxEntries);
      return None;
    }
    if !(0 < directory.bytes <= MAX_ZIP_CENTRAL_BYTES && directory.bytes <= |file| && directory.offset <= |file|
         && directory.bytes <= |file| - directory.offset && directory.offset + directory.bytes == d.end) {
      Refuted(file, at.value, d, maxEntries);
      return None;
    }
    var counted := CountRecords(file, directory.offset, d.end, directory.entries, maxEntries);
    if !counted {
      Refuted(file, at.value, d, maxEntries);
      return None;
    }
    ghost var starts := CountedAreTiles(file, directory.offset, d.end);
    r := Some(directory);
  }

  lemma DeclaredOnce(file: Bytes, at: nat, a: Declared, b: Declared)
    requires at + 22 <= |file| && Declares(file, at, a) && Declares(file, at, b)
    ensures a == b
  {
  }

  lemma NotDeclared(file: Bytes, at: nat, maxEntries: nat)
    requires EndRecordAt(file, at) && forall d :: !Declares(file, at, d)
    ensures forall directory :: !Accepts(file, maxEntries, directory)
  {
    forall directory ensures !Accepts(file, maxEntries, directory) {
      if Accepts(file, maxEntries, directory) {
        var d := AcceptedDeclares(file, at, maxEntries, directory);
        assert false;
      }
    }
  }

  lemma AcceptedDeclares(file: Bytes, at: nat, maxEntries: nat, directory: Directory) returns (d: Declared)
    requires EndRecordAt(file, at) && Accepts(file, maxEntries, directory)
    ensures Declares(file, at, d)
  {
    var other: nat, e, starts: seq<nat> :| EndRecordAt(file, other) && Declares(file, other, e) && e.directory == directory
      && |starts| == directory.entries && Tiles(file, starts, directory.offset, e.end);
    EndRecordIsUnique(file, at, other);
    d := e;
  }

  lemma Refuted(file: Bytes, at: nat, d: Declared, maxEntries: nat)
    requires EndRecordAt(file, at) && Declares(file, at, d)
    requires !Bounded(file, d, maxEntries) || Records(file, d.directory.offset, d.end) != Some(d.directory.entries)
    ensures forall directory :: !Accepts(file, maxEntries, directory)
  {
    forall directory ensures !Accepts(file, maxEntries, directory) {
      if Accepts(file, maxEntries, directory) {
        AcceptsOnly(file, at, d, maxEntries, directory);
        assert false;
      }
    }
  }

  lemma AcceptsOnly(file: Bytes, at: nat, d: Declared, maxEntries: nat, directory: Directory)
    requires EndRecordAt(file, at) && Declares(file, at, d) && Accepts(file, maxEntries, directory)
    ensures directory == d.directory && Bounded(file, d, maxEntries)
    ensures Records(file, directory.offset, d.end) == Some(directory.entries)
  {
    var other: nat, e, starts: seq<nat> :| EndRecordAt(file, other) && Declares(file, other, e) && e.directory == directory
      && Bounded(file, e, maxEntries) && |starts| == directory.entries && Tiles(file, starts, directory.offset, e.end);
    EndRecordIsUnique(file, at, other);
    DeclaredOnce(file, at, d, e);
    TilesAreCounted(file, starts, directory.offset, d.end);
  }

  /** At most one directory is accepted for a file. */
  lemma AcceptedOnce(file: Bytes, maxEntries: nat, a: Directory, b: Directory)
    requires Accepts(file, maxEntries, a) && Accepts(file, maxEntries, b)
    ensures a == b
  {
    var at: nat, d, starts: seq<nat> :| EndRecordAt(file, at) && Declares(file, at, d) && d.directory == a
      && Bounded(file, d, maxEntries) && |starts| == a.entries && Tiles(file, starts, a.offset, d.end);
    AcceptsOnly(file, at, d, maxEntries, b);
  }

  /** Records of a tiling follow each other without overlap. */
  lemma {:induction false} TilesAreDisjoint(file: Bytes, starts: seq<nat>, offset: nat, end: nat, i: nat, j: nat)
    requires Tiles(file, starts, offset, end) && i < j < |starts|
    ensures TileAt(file, starts, i, end) && starts[i] + RecordSize(file, starts[i]) <= starts[j]
    decreases j
  {
    hide RecordFits, RecordSize;
    assert TileAt(file, starts, i, end);
    FitsGrows(file, starts[i], end);
    if i + 1 < j {
      TilesAreDisjoint(file, starts, offset, end, i, j - 1);
      assert TileAt(file, starts, j - 1, end);
      FitsGrows(file, starts[j - 1], end);
    }
  }

  lemma {:induction false} StartsRise(file: Bytes, starts: seq<nat>, offset: nat, end: nat, i: nat)
    requires Tiles(file, starts, offset, end) && i < |starts|
    ensures offset + 47 * i <= starts[i]
    decreases i
  {
    hide RecordFits, RecordSize;
    if i > 0 {
      StartsRise(file, starts, offset, end, i - 1);
      assert TileAt(file, starts, i - 1, end);
      FitsGrows(file, starts[i - 1], end);
    }
  }

  /** What an accepted archive promises the library that reads it: a directory inside the file, right before an end
      record, of exactly the declared number of records, which is bounded by the limit and by the bytes it takes. */
  lemma AcceptedIsBounded(file: Bytes, maxEntries: nat, directory: Directory) returns (end: nat, starts: seq<nat>)
    requires Accepts(file, maxEntries, directory)
    ensures 0 < directory.entries <= maxEntries && 47 * directory.entries <= directory.bytes <= MAX_ZIP_CENTRAL_BYTES
    ensures end == directory.offset + directory.bytes && end + 22 <= |file|
    ensures IsMark(file, end) || HasAt(file, end, [0x50, 0x4B, 6, 6])
    ensures |starts| == directory.entries && Tiles(file, starts, directory.offset, end)
  {
    var at: nat, d, s: seq<nat> :| EndRecordAt(file, at) && Declares(file, at, d) && d.directory == directory
      && Bounded(file, d, maxEntries) && |s| == directory.entries && Tiles(file, s, directory.offset, d.end);
    end, starts := d.end, s;
    StartsRise(file, s, directory.offset, d.end, |s| - 1);
    assert TileAt(file, s, |s| - 1, d.end);
    FitsGrows(file, s[|s| - 1], d.end);
  }
}
