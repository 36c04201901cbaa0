/** The bounded check of Mach-O images: load commands of one image, and the slices of a fat file. */
module MachO {
  import opened Wrappers
  import opened Binary

  const CPU_TYPES: set<int> := {7, 12, 0x0100_0007, 0x0100_000C}
  const FILE_TYPES: set<int> := {2, 6, 7, 8}
  const MAX_LOAD_COMMAND_BYTES: nat := 8 * 1024 * 1024
  const LC_CODE_SIGNATURE: nat := 0x1D
  const LC_UUID: nat := 0x1B

  datatype Kind = Thin(little: bool, wide: bool) | Fat(little: bool, wide: bool)

  datatype Slice = Slice(cpuType: int, cpuSubtype: int, fileType: nat, uuid: Option<Bytes>)

  /** The magic number of the image at an offset, read in the byte order that makes it one. */
  function Header(file: Bytes, offset: nat, length: nat): (r: Option<Kind>)
    requires offset + length <= |file|
  {
    if length < 4 then None
    else
      var little, big := U32(file, offset, true), U32(file, offset, false);
      if little == 0xFEED_FACE || little == 0xFEED_FACF then Some(Thin(true, little == 0xFEED_FACF))
      else if big == 0xFEED_FACE || big == 0xFEED_FACF then Some(Thin(false, big == 0xFEED_FACF))
      else if big == 0xCAFE_BABE || big == 0xCAFE_BABF then Some(Fat(false, big == 0xCAFE_BABF))
      else if little == 0xCAFE_BABE || little == 0xCAFE_BABF then Some(Fat(true, little == 0xCAFE_BABF))
      else None
  }

  // ---------------------------------------------------------------------------------------------
  // Load commands
  // ---------------------------------------------------------------------------------------------

  /** A well-formed command at a position of the load commands; `length` is that of the image. */
  predicate CommandFits(commands: Bytes, little: bool, length: nat, at: nat) {
    && at + 8 <= |commands|
    && var command, size := U32(commands, at, little), U32(commands, at + 4, little);
       && size >= 8 && at + size <= |commands|
       && (command == LC_CODE_SIGNATURE && size >= 16 ==>
             var dataOffset, dataSize := U32(commands, at + 8, little), U32(commands, at + 12, little);
             dataSize > 0 && dataOffset + dataSize <= length)
       && (command == LC_UUID ==> size == 24)
  }

  function CommandSize(commands: Bytes, little: bool, at: nat): nat
    requires at + 8 <= |commands|
  {
    U32(commands, at + 4, little)
  }

  predicate IsUuid(commands: Bytes, little: bool, at: nat)
    requires at + 8 <= |commands|
  {
    U32(commands, at, little) == LC_UUID
  }

  /** Commands start at the given positions, each where the one before ends, and fill the rest of the bytes. */
  ghost predicate Tiles(commands: Bytes, little: bool, length: nat, starts: seq<nat>, from: nat) {
    && (if starts == [] then from == |commands| else starts[0] == from)
    && forall i :: 0 <= i < |starts| ==> TileAt(commands, little, length, starts, i)
  }

  predicate TileAt(commands: Bytes, little: bool, length: nat, starts: seq<nat>, i: nat)
    requires i < |starts|
  {
    && CommandFits(commands, little, length, starts[i])
    && starts[i] + CommandSize(commands, little, starts[i]) == if i + 1 < |starts| then starts[i + 1] else |commands|
  }

  /** The identifiers that the commands at the given positions carry. */
  function Uuids(commands: Bytes, little: bool, length: nat, starts: seq<nat>): seq<Bytes>
    requires forall i :: 0 <= i < |starts| ==> CommandFits(commands, little, length, starts[i])
  {
    if starts == [] then []
    else
      var rest := Uuids(commands, little, length, starts[1..]);
      assert CommandFits(commands, little, length, starts[0]);
      if IsUuid(commands, little, starts[0]) then [commands[starts[0] + 8..starts[0] + 24]] + rest else rest
  }

  /** How many commands there are from a position on, and the identifiers among them. */
  datatype Walk = Walk(count: nat, uuids: seq<Bytes>)

  function WalkFrom(commands: Bytes, little: bool, length: nat, at: nat): Option<Walk>
    decreases |commands| - at
  {
    if at == |commands| then Some(Walk(0, []))
    else if !CommandFits(commands, little, length, at) then None
    else
      match WalkFrom(commands, little, length, at + CommandSize(commands, little, at))
      case None => None
      case Some(w) =>
        Some(Walk(w.count + 1, if IsUuid(commands, little, at) then [commands[at + 8..at + 24]] + w.uuids else w.uuids))
  }

  lemma {:induction false} TilesAreWalked(commands: Bytes, little: bool, length: nat, starts: seq<nat>, from: nat)
    requires Tiles(commands, little, length, starts, from)
    ensures forall i :: 0 <= i < |starts| ==> CommandFits(commands, little, length, starts[i])
    ensures WalkFrom(commands, little, length, from) == Some(Walk(|starts|, Uuids(commands, little, length, starts)))
    decreases |starts|
  {
    hide CommandFits, CommandSize, IsUuid;
    forall i | 0 <= i < |starts| ensures CommandFits(commands, little, length, starts[i]) { assert TileAt(commands, little, length, starts, i); }
    if starts != [] {
      assert TileAt(commands, little, length, starts, 0);
      FitsGrows(commands, little, length, from);
      forall i | 0 <= i < |starts[1..]| ensures TileAt(commands, little, length, starts[1..], i) {
        assert TileAt(commands, little, length, starts, i + 1);
      }
      TilesAreWalked(commands, little, length, starts[1..], from + CommandSize(commands, little, from));
    }
  }

  lemma FitsGrows(commands: Bytes, little: bool, length: nat, at: nat)
    requires CommandFits(commands, little, length, at)
    ensures at + 8 <= at + CommandSize(commands, little, at) <= |commands|
    ensures IsUuid(commands, little, at) ==> at + 24 <= |commands|
  {
  }

  lemma {:induction false} WalkedAreTiles(commands: Bytes, little: bool, length: nat, from: nat) returns (starts: seq<nat>)
    requires WalkFrom(commands, little, length, from).Some?
    ensures Tiles(commands, little, length, starts, from) && |starts| == WalkFrom(commands, little, length, from).value.count
    decreases |commands| - from
  {
    hide CommandFits, CommandSize, IsUuid;
    if from == |commands| {
      starts := [];
    } else {
      FitsGrows(commands, little, length, from);
      var rest := WalkedAreTiles(commands, little, length, from + CommandSize(commands, little, from));
      starts := [from] + rest;
      forall i | 0 <= i < |starts| ensures TileAt(commands, little, length, starts, i) {
        if i > 0 { assert TileAt(commands, little, length, rest, i - 1); }
      }
    }
  }

  /** The commands before a position added to those after it. */
  function Added(count: nat, uuid: Option<Bytes>, w: Option<Walk>): Option<Walk> {
    match w
    case None => None
    case Some(walk) => Some(Walk(count + walk.count, (if uuid.Some? then [uuid.value] else []) + walk.uuids))
  }

  /** One well-formed command more has been walked. */
  lemma WalkStep(commands: Bytes, little: bool, length: nat, at: nat, count: nat, uuid: Option<Bytes>)
    requires at < |commands| && CommandFits(commands, little, length, at)
    requires IsUuid(commands, little, at) ==> uuid.None?
    ensures at + 8 <= at + CommandSize(commands, little, at) <= |commands| && (IsUuid(commands, little, at) ==> at + 24 <= |commands|)
    ensures Added(count, uuid, WalkFrom(commands, little, length, at))
         == Added(count + 1, if IsUuid(commands, little, at) then Some(commands[at + 8..at + 24]) else uuid,
                  WalkFrom(commands, little, length, at + CommandSize(commands, little, at)))
  {
    hide WalkFrom, CommandFits, CommandSize, IsUuid, Added;
    FitsGrows(commands, little, length, at);
    WalkUnfolds(commands, little, length, at);
    var own := if IsUuid(commands, little, at) then Some(commands[at + 8..at + 24]) else None;
    AddedOne(count, uuid, own, WalkFrom(commands, little, length, at + CommandSize(commands, little, at)));
  }

  lemma WalkUnfolds(commands: Bytes, little: bool, length: nat, at: nat)
    requires at < |commands| && CommandFits(commands, little, length, at)
    ensures at + 8 <= at + CommandSize(commands, little, at) <= |commands| && (IsUuid(commands, little, at) ==> at + 24 <= |commands|)
    ensures WalkFrom(commands, little, length, at)
         == Added(1, if IsUuid(commands, little, at) then Some(commands[at + 8..at + 24]) else None,
                  WalkFrom(commands, little, length, at + CommandSize(commands, little, at)))
  {
    hide CommandFits, CommandSize, IsUuid;
    FitsGrows(commands, little, length, at);
    AddedFirst(if IsUuid(commands, little, at) then Some(commands[at + 8..at + 24]) else None,
               WalkFrom(commands, little, length, at + CommandSize(commands, little, at)));
  }

  lemma AddedFirst(own: Option<Bytes>, w: Option<Walk>)
    ensures Added(1, own, w)
         == match w
            case None => None
            case Some(walk) => Some(Walk(walk.count + 1, if own.Some? then [own.value] + walk.uuids else walk.uuids))
  {
    if w.Some? { assert [] + w.value.uuids == w.value.uuids; }
  }

  lemma AddedOne(count: nat, uuid: Option<Bytes>, own: Option<Bytes>, w: Option<Walk>)
    requires own.Some? ==> uuid.None?
    ensures Added(count, uuid, Added(1, own, w)) == Added(count + 1, if own.Some? then own else uuid, w)
  {
    if w.Some? {
      assert [] + w.value.uuids == w.value.uuids;
      if own.Some? { assert [] + ([own.value] + w.value.uuids) == [own.value] + w.value.uuids; }
    }
  }

  lemma AddedNothing(w: Option<Walk>)
    ensures Added(0, None, w) == w
  {
    if w.Some? { assert [] + w.value.uuids == w.value.uuids; }
  }

  /** A second identifier makes two. */
  lemma SecondUuid(commands: Bytes, little: bool, length: nat, at: nat, count: nat, uuid: Option<Bytes>)
    requires at < |commands| && CommandFits(commands, little, length, at) && IsUuid(commands, little, at) && uuid.Some?
    ensures Added(count, uuid, WalkFrom(commands, little, length, at)).Some? ==>
              |Added(count, uuid, WalkFrom(commands, little, length, at)).value.uuids| >= 2
  {
  }

  /** The walk over the load commands; it stops at a second identifier. */
  method WalkCommands(commands: Bytes, little: bool, length: nat, count: nat) returns (ok: bool, uuid: Option<Bytes>)
    ensures var w := WalkFrom(commands, little, length, 0);
            && (ok <==> w.Some? && w.value.count == count && |w.value.uuids| <= 1)
            && (ok ==> uuid == if w.value.uuids == [] then None else Some(w.value.uuids[0]))
  {
    var cursor, seen := 0, 0;
    uuid := None;
    AddedNothing(WalkFrom(commands, little, length, 0));
    while cursor < |commands|
      invariant cursor <= |commands|
      invariant WalkFrom(commands, little, length, 0) == Added(seen, uuid, WalkFrom(commands, little, length, cursor))
      decreases |commands| - cursor
    {
      if cursor + 8 > |commands| { return false, None; }
      var command, size := U32(commands, cursor, little), U32(commands, cursor + 4, little);
      if size < 8 || cursor + size > |commands| { return false, None; }
      if command == LC_CODE_SIGNATURE && size >= 16 {
        var dataOffset, dataSize := U32(commands, cursor + 8, little), U32(commands, cursor + 12, little);
        if !(dataSize > 0 && dataOffset <= length && dataSize <= length - dataOffset) { return false, None; }
      }
      if command == LC_UUID {
        if size != 24 || uuid.Some? {
          if size == 24 { SecondUuid(commands, little, length, cursor, seen, uuid); }
          return false, None;
        }
        WalkStep(commands, little, length, cursor, seen, uuid);
        uuid := Some(commands[cursor + 8..cursor + 24]);
      } else {
        WalkStep(commands, little, length, cursor, seen, uuid);
      }
      cursor := cursor + size;
      seen := seen + 1;
    }
    ok := cursor == |commands| && seen == count;
  }

  // ---------------------------------------------------------------------------------------------
  // One image
  // ---------------------------------------------------------------------------------------------

  function HeaderSize(wide: bool): nat {
    if wide then 32 else 28
  }

  predicate FileTypeAllowed(fileType: nat, expected: Option<nat>) {
    if expected.Some? then fileType == expected.value else fileType in FILE_TYPES
  }

  /** The fixed header lies inside the image and bounds the load commands. */
  predicate HeaderFits(file: Bytes, offset: nat, length: nat, little: bool, wide: bool, expected: Option<nat>)
    requires offset + length <= |file|
  {
    && length >= HeaderSize(wide)
    && I32(file, offset + 4, little) in CPU_TYPES
    && FileTypeAllowed(U32(file, offset + 12, little), expected)
    && U32(file, offset + 16, little) <= 4096
    && U32(file, offset + 20, little) <= MAX_LOAD_COMMAND_BYTES
    && U32(file, offset + 20, little) <= length - HeaderSize(wide)
  }

  function Commands(file: Bytes, offset: nat, length: nat, little: bool, wide: bool, expected: Option<nat>): Bytes
    requires offset + length <= |file| && HeaderFits(file, offset, length, little, wide, expected)
  {
    file[offset + HeaderSize(wide)..offset + HeaderSize(wide) + U32(file, offset + 20, little)]
  }

  /** The image at an offset, if it is sound. */
  function Image(file: Bytes, offset: nat, length: nat, little: bool, wide: bool, expected: Option<nat>): Option<Slice>
    requires offset + length <= |file|
  {
    if !HeaderFits(file, offset, length, little, wide, expected) then None
    else
      var w := WalkFrom(Commands(file, offset, length, little, wide, expected), little, length, 0);
      if w.None? || w.value.count != U32(file, offset + 16, little) || |w.value.uuids| > 1 then None
      else
        Some(Slice(I32(file, offset + 4, little), I32(file, offset + 8, little), U32(file, offset + 12, little),
                   if w.value.uuids == [] then None else Some(w.value.uuids[0])))
  }

  method ReadImage(file: Bytes, offset: nat, length: nat, little: bool, wide: bool, expected: Option<nat>) returns (r: Option<Slice>)
    requires offset + length <= |file|
    ensures r == Image(file, offset, length, little, wide, expected)
  {
    hide WalkFrom, U32;
    var headerSize := if wide then 32 else 28;
    if length < headerSize { return None; }
    var cpuType, cpuSubtype := I32(file, offset + 4, little), I32(file, offset + 8, little);
    var fileType, commandCount, commandBytes := U32(file, offset + 12, little), U32(file, offset + 16, little), U32(file, offset + 20, little);
    if !(cpuType in CPU_TYPES && (fileType in FILE_TYPES || expected == Some(fileType)) && (expected.None? || fileType == expected.value)
         && commandCount <= 4096 && commandBytes <= MAX_LOAD_COMMAND_BYTES && commandBytes <= length - headerSize) { return None; }
    assert HeaderFits(file, offset, length, little, wide, expected);
    var commands := file[offset + headerSize..offset + headerSize + commandBytes];
    assert commands == Commands(file, offset, length, little, wide, expected);
    var ok, uuid := WalkCommands(commands, little, length, commandCount);
    if !ok { return None; }
    r := Some(Slice(cpuType, cpuSubtype, fileType, uuid));
  }

  /** An image is accepted exactly when its header fits and the declared number of well-formed commands tile the
      declared range, with at most one identifier, which is the one returned. */
  ghost predicate Sound(file: Bytes, offset: nat, length: nat, little: bool, wide: bool, expected: Option<nat>, slice: Slice, starts: seq<nat>)
    requires offset + length <= |file|
  {
    && HeaderFits(file, offset, length, little, wide, expected)
    && var commands := Commands(file, offset, length, little, wide, expected);
       && Tiles(commands, little, length, starts, 0) && |starts| == U32(file, offset + 16, little)
       && slice.cpuType == I32(file, offset + 4, little) && slice.cpuSubtype == I32(file, offset + 8, little)
       && slice.fileType == U32(file, offset + 12, little)
       && (forall i, j :: 0 <= i < j < |starts| ==> !(UuidAt(commands, little, length, starts, i) && UuidAt(commands, little, length, starts, j)))
       && (slice.uuid.None? ==> forall i :: 0 <= i < |starts| ==> !UuidAt(commands, little, length, starts, i))
       && (slice.uuid.Some? ==> exists i :: 0 <= i < |starts| && UuidAt(commands, little, length, starts, i)
                                            && slice.uuid.value == commands[starts[i] + 8..starts[i] + 24])
  }

  predicate UuidAt(commands: Bytes, little: bool, length: nat, starts: seq<nat>, i: nat)
    requires i < |starts|
    ensures UuidAt(commands, little, length, starts, i) ==> starts[i] + 24 <= |commands|
  {
    CommandFits(commands, little, length, starts[i]) && IsUuid(commands, little, starts[i])
  }

  predicate NoUuid(commands: Bytes, little: bool, length: nat, starts: seq<nat>) {
    forall i :: 0 <= i < |starts| ==> !UuidAt(commands, little, length, starts, i)
  }

  predicate UuidsApart(commands: Bytes, little: bool, length: nat, starts: seq<nat>) {
    forall i, j :: 0 <= i < j < |starts| ==> !(UuidAt(commands, little, length, starts, i) && UuidAt(commands, little, length, starts, j))
  }

  /** The identifiers of the commands after the first are those of the rest. */
  lemma UuidsLater(commands: Bytes, little: bool, length: nat, starts: seq<nat>)
    requires starts != [] && CommandFits(commands, little, length, starts[0])
    ensures starts[0] + 8 <= |commands|
    ensures NoUuid(commands, little, length, starts) <==>
              !IsUuid(commands, little, starts[0]) && NoUuid(commands, little, length, starts[1..])
    ensures UuidsApart(commands, little, length, starts) <==>
              if IsUuid(commands, little, starts[0]) then NoUuid(commands, little, length, starts[1..]) else UuidsApart(commands, little, length, starts[1..])
  {
    hide CommandFits, IsUuid;
    FitsGrows(commands, little, length, starts[0]);
    var rest := starts[1..];
    assert UuidAt(commands, little, length, starts, 0) <==> IsUuid(commands, little, starts[0]);
    assert forall i :: 0 < i < |starts| ==> (UuidAt(commands, little, length, starts, i) <==> UuidAt(commands, little, length, rest, i - 1));
    assert forall i :: 0 <= i < |rest| ==> (UuidAt(commands, little, length, rest, i) <==> UuidAt(commands, little, length, starts, i + 1));
  }

  lemma {:induction false} CountUuids(commands: Bytes, little: bool, length: nat, starts: seq<nat>)
    requires forall i :: 0 <= i < |starts| ==> CommandFits(commands, little, length, starts[i])
    ensures var uuids := Uuids(commands, little, length, starts);
            && (uuids == [] <==> NoUuid(commands, little, length, starts))
            && (|uuids| <= 1 <==> UuidsApart(commands, little, length, starts))
    decreases |starts|
  {
    hide CommandFits, IsUuid, NoUuid, UuidsApart;
    if starts == [] {
      NothingNamed(commands, little, length);
    } else {
      UuidsLater(commands, little, length, starts);
      CountUuids(commands, little, length, starts[1..]);
    }
  }

  lemma NothingNamed(commands: Bytes, little: bool, length: nat)
    ensures NoUuid(commands, little, length, []) && UuidsApart(commands, little, length, [])
  {
  }

  lemma {:induction false} FirstUuid(commands: Bytes, little: bool, length: nat, starts: seq<nat>) returns (i: nat)
    requires forall k :: 0 <= k < |starts| ==> CommandFits(commands, little, length, starts[k])
    requires Uuids(commands, little, length, starts) != []
    ensures i < |starts| && UuidAt(commands, little, length, starts, i)
    ensures Uuids(commands, little, length, starts)[0] == commands[starts[i] + 8..starts[i] + 24]
    decreases |starts|
  {
    hide CommandFits, IsUuid;
    FitsGrows(commands, little, length, starts[0]);
    if IsUuid(commands, little, starts[0]) {
      i := 0;
    } else {
      var k := FirstUuid(commands, little, length, starts[1..]);
      i := k + 1;
    }
  }

  lemma OneUuid(commands: Bytes, little: bool, length: nat, starts: seq<nat>)
    requires forall i :: 0 <= i < |starts| ==> CommandFits(commands, little, length, starts[i])
    ensures var uuids := Uuids(commands, little, length, starts);
            && (uuids == [] <==> forall i :: 0 <= i < |starts| ==> !UuidAt(commands, little, length, starts, i))
            && (|uuids| <= 1 <==> forall i, j :: 0 <= i < j < |starts| ==> !(UuidAt(commands, little, length, starts, i) && UuidAt(commands, little, length, starts, j)))
            && (uuids != [] ==> exists i :: 0 <= i < |starts| && UuidAt(commands, little, length, starts, i)
                                            && uuids[0] == commands[starts[i] + 8..starts[i] + 24])
  {
    hide CommandFits, IsUuid, UuidAt, Uuids;
    CountUuids(commands, little, length, starts);
    if Uuids(commands, little, length, starts) != [] { var i := FirstUuid(commands, little, length, starts); }
  }

  lemma ImageIsSound(file: Bytes, offset: nat, length: nat, little: bool, wide: bool, expected: Option<nat>) returns (starts: seq<nat>)
    requires offset + length <= |file| && Image(file, offset, length, little, wide, expected).Some?
    ensures Sound(file, offset, length, little, wide, expected, Image(file, offset, length, little, wide, expected).value, starts)
  {
    hide HeaderFits, Commands, WalkFrom, CommandFits, IsUuid, Tiles, Uuids;
    var commands := Commands(file, offset, length, little, wide, expected);
    starts := WalkedAreTiles(commands, little, length, 0);
    TilesAreWalked(commands, little, length, starts, 0);
    OneUuid(commands, little, length, starts);
  }

  lemma SoundIsImage(file: Bytes, offset: nat, length: nat, little: bool, wide: bool, expected: Option<nat>, slice: Slice, starts: seq<nat>)
    requires offset + length <= |file| && Sound(file, offset, length, little, wide, expected, slice, starts)
    ensures Image(file, offset, length, little, wide, expected) == Some(slice)
  {
    hide HeaderFits, Commands, WalkFrom, CommandFits, IsUuid, Tiles, Uuids;
    var commands := Commands(file, offset, length, little, wide, expected);
    TilesAreWalked(commands, little, length, starts, 0);
    OneUuid(commands, little, length, starts);
  }

  /** The code signature that the command names, if it names one, is not empty and lies inside the image. */
  predicate SignatureInside(commands: Bytes, little: bool, length: nat, at: nat) {
    && at + 8 <= |commands| && 8 <= CommandSize(commands, little, at) && at + CommandSize(commands, little, at) <= |commands|
    && (U32(commands, at, little) == LC_CODE_SIGNATURE && CommandSize(commands, little, at) >= 16 ==>
          0 < U32(commands, at + 12, little) && U32(commands, at + 8, little) + U32(commands, at + 12, little) <= length)
  }

  lemma SignaturesStayInside(file: Bytes, offset: nat, length: nat, little: bool, wide: bool, expected: Option<nat>, slice: Slice, starts: seq<nat>, i: nat)
    requires offset + length <= |file| && Sound(file, offset, length, little, wide, expected, slice, starts) && i < |starts|
    ensures SignatureInside(Commands(file, offset, length, little, wide, expected), little, length, starts[i])
  {
    assert TileAt(Commands(file, offset, length, little, wide, expected), little, length, starts, i);
  }

  // ---------------------------------------------------------------------------------------------
  // Fat files
  // ---------------------------------------------------------------------------------------------

  datatype Entry = Entry(cpuType: int, cpuSubtype: int, offset: nat, size: nat)

  function EntrySize(wide: bool): nat {
    if wide then 32 else 20
  }

  function EntryAt(file: Bytes, kind: Kind, index: nat): Entry
    requires 8 + (index + 1) * EntrySize(kind.wide) <= |file|
  {
    var at := 8 + index * EntrySize(kind.wide);
    if kind.wide then Entry(U32(file, at, kind.little), I32(file, at + 4, kind.little), U64(file, at + 8, kind.little), U64(file, at + 16, kind.little))
    else Entry(U32(file, at, kind.little), I32(file, at + 4, kind.little), U32(file, at + 8, kind.little), U32(file, at + 12, kind.little))
  }

  predicate TableFits(file: Bytes, kind: Kind) {
    |file| >= 8 && 0 < U32(file, 4, kind.little) <= 64 && 8 + U32(file, 4, kind.little) * EntrySize(kind.wide) <= |file|
  }

  /** The entries of the table. */
  function Table(file: Bytes, kind: Kind): (r: seq<Entry>)
    requires TableFits(file, kind)
    ensures |r| == U32(file, 4, kind.little)
  {
    seq(U32(file, 4, kind.little), i requires 0 <= i < U32(file, 4, kind.little) =>
      (EntryInTable(file, kind, i); EntryAt(file, kind, i)))
  }

  lemma EntryInTable(file: Bytes, kind: Kind, index: nat)
    requires TableFits(file, kind) && index < U32(file, 4, kind.little)
    ensures 8 + (index + 1) * EntrySize(kind.wide) <= |file|
  {
  }

  function TableEnd(file: Bytes, kind: Kind): nat
    requires |file| >= 8
  {
    8 + U32(file, 4, kind.little) * EntrySize(kind.wide)
  }

  predicate EntryFits(e: Entry, tableEnd: nat, length: nat) {
    e.cpuType in CPU_TYPES && e.offset >= tableEnd && e.size > 0 && e.offset + e.size <= length
  }

  predicate Apart(a: Entry, b: Entry) {
    b.offset >= a.offset + a.size || b.offset + b.size <= a.offset
  }

  /** The image an entry points at, of the architecture the entry names. */
  function EntryImage(file: Bytes, e: Entry, expected: Option<nat>): Option<Slice> {
    if e.offset + e.size > |file| then None
    else
      match Header(file, e.offset, e.size)
      case Some(Thin(little, wide)) =>
        var image := Image(file, e.offset, e.size, little, wide, expected);
        if image.Some? && image.value.cpuType == e.cpuType && image.value.cpuSubtype == e.cpuSubtype then image else None
      case _ => None
  }

  /** The entry is sound by itself and against those before it. */
  predicate EntryOk(file: Bytes, kind: Kind, expected: Option<nat>, entries: seq<Entry>, i: nat)
    requires |file| >= 8 && i < |entries|
  {
    && EntryFits(entries[i], TableEnd(file, kind), |file|)
    && EntryImage(file, entries[i], expected).Some?
    && forall j :: 0 <= j < i ==> Apart(entries[j], entries[i]) && Architecture(entries[j]) != Architecture(entries[i])
  }

  function Architecture(e: Entry): (int, int) {
    (e.cpuType, e.cpuSubtype)
  }

  ghost predicate FatOk(file: Bytes, kind: Kind, expected: Option<nat>) {
    TableFits(file, kind) && forall i :: 0 <= i < |Table(file, kind)| ==> EntryOk(file, kind, expected, Table(file, kind), i)
  }

  /** The slices of a file that holds one image or several. */
  method ReadSlices(file: Bytes, expected: Option<nat>) returns (r: Option<seq<Slice>>)
    ensures match Header(file, 0, |file|)
            case None => r.None?
            case Some(Thin(little, wide)) =>
              var image := Image(file, 0, |file|, little, wide, expected);
              r == if image.Some? then Some([image.value]) else None
            case Some(Fat(little, wide)) =>
              var kind := Fat(little, wide);
              && (r.Some? <==> FatOk(file, kind, expected))
              && (r.Some? ==> |r.value| == |Table(file, kind)|
                              && forall i :: 0 <= i < |r.value| ==> EntryImage(file, Table(file, kind)[i], expected) == Some(r.value[i]))
  {
    var header := Header(file, 0, |file|);
    if header.None? { return None; }
    var kind := header.value;
    if kind.Thin? {
      var image := ReadImage(file, 0, |file|, kind.little, kind.wide, expected);
      if image.None? { return None; }
      return Some([image.value]);
    }
    r := ReadFat(file, kind, expected);
  }

  method ReadEntry(file: Bytes, e: Entry, expected: Option<nat>) returns (r: Option<Slice>)
    requires e.offset + e.size <= |file|
    ensures r == EntryImage(file, e, expected)
  {
    hide Image;
    var inner := Header(file, e.offset, e.size);
    if inner.None? || inner.value.Fat? { return None; }
    var parsed := ReadImage(file, e.offset, e.size, inner.value.little, inner.value.wide, expected);
    if parsed.None? || (parsed.value.cpuType, parsed.value.cpuSubtype) != (e.cpuType, e.cpuSubtype) { return None; }
    r := parsed;
  }

  /** The architectures and ranges of the entries so far decide whether the next one stands against them. */
  ghost predicate Gathered(entries: seq<Entry>, index: nat, architectures: set<(int, int)>, ranges: seq<(nat, nat)>) {
    && index <= |entries| && |ranges| == index
    && (forall i :: 0 <= i < index ==> ranges[i] == (entries[i].offset, entries[i].offset + entries[i].size))
    && (forall i :: 0 <= i < index ==> Architecture(entries[i]) in architectures)
    && (forall a :: a in architectures ==> exists i :: 0 <= i < index && Architecture(entries[i]) == a)
  }

  lemma GatherNext(entries: seq<Entry>, index: nat, architectures: set<(int, int)>, ranges: seq<(nat, nat)>)
    requires index < |entries| && Gathered(entries, index, architectures, ranges)
    ensures var e := entries[index];
            Gathered(entries, index + 1, architectures + {Architecture(e)}, ranges + [(e.offset, e.offset + e.size)])
  {
    var e := entries[index];
    forall a | a in architectures + {Architecture(e)} ensures exists i :: 0 <= i < index + 1 && Architecture(entries[i]) == a {
      if a in architectures {
        var i :| 0 <= i < index && Architecture(entries[i]) == a;
        assert 0 <= i < index + 1;
      }
    }
  }

  predicate Clear(e: Entry, ranges: seq<(nat, nat)>) {
    forall i :: 0 <= i < |ranges| ==> e.offset >= ranges[i].1 || e.offset + e.size <= ranges[i].0
  }

  lemma Judged(file: Bytes, kind: Kind, expected: Option<nat>, entries: seq<Entry>, index: nat, architectures: set<(int, int)>, ranges: seq<(nat, nat)>)
    requires |file| >= 8 && index < |entries| && Gathered(entries, index, architectures, ranges)
    ensures var e := entries[index];
            EntryOk(file, kind, expected, entries, index)
            <==> EntryFits(e, TableEnd(file, kind), |file|) && Architecture(e) !in architectures && Clear(e, ranges)
                 && EntryImage(file, e, expected).Some?
  {
    hide EntryFits, EntryImage, Architecture, TableEnd;
    var e := entries[index];
    assert forall j :: 0 <= j < index ==> (Apart(entries[j], e) <==> e.offset >= ranges[j].1 || e.offset + e.size <= ranges[j].0);
    if Architecture(e) in architectures {
      var i :| 0 <= i < index && Architecture(entries[i]) == Architecture(e);
      assert !EntryOk(file, kind, expected, entries, index);
    }
  }

  /** The slices of a fat file, entry by entry. */
  method ReadFat(file: Bytes, kind: Kind, expected: Option<nat>) returns (r: Option<seq<Slice>>)
    ensures r.Some? <==> FatOk(file, kind, expected)
    ensures r.Some? ==> |r.value| == |Table(file, kind)|
                        && forall i :: 0 <= i < |r.value| ==> EntryImage(file, Table(file, kind)[i], expected) == Some(r.value[i])
  {
    hide EntryImage, EntryOk, Gathered, Architecture, Clear, EntryAt;
    if |file| < 8 { return None; }
    var count := U32(file, 4, kind.little);
    var archSize := if kind.wide then 32 else 20;
    if !(0 < count <= 64 && 8 + count * archSize <= |file|) { return None; }
    var tableEnd := 8 + count * archSize;
    ghost var entries := Table(file, kind);
    var slices: seq<Slice>, architectures: set<(int, int)>, ranges: seq<(nat, nat)> := [], {}, [];
    GatherNone(entries);
    for index := 0 to count
      invariant |slices| == index && Gathered(entries, index, architectures, ranges)
      invariant forall i :: 0 <= i < index ==> EntryOk(file, kind, expected, entries, i)
      invariant forall i :: 0 <= i < index ==> EntryImage(file, entries[i], expected) == Some(slices[i])
    {
      EntryInTable(file, kind, index);
      var e := EntryAt(file, kind, index);
      assert e == entries[index];
      Judged(file, kind, expected, entries, index, architectures, ranges);
      if !(e.cpuType in CPU_TYPES && Architecture(e) !in architectures && e.offset >= tableEnd && e.size > 0
           && e.offset <= |file| && e.size <= |file| - e.offset) { return None; }
      if !Clear(e, ranges) { return None; }
      var parsed := ReadEntry(file, e, expected);
      if parsed.None? { return None; }
      GatherNext(entries, index, architectures, ranges);
      architectures := architectures + {Architecture(e)};
      ranges := ranges + [(e.offset, e.offset + e.size)];
      slices := slices + [parsed.value];
    }
    r := Some(slices);
  }

  lemma GatherNone(entries: seq<Entry>)
    ensures Gathered(entries, 0, {}, [])
  {
  }

  // ---------------------------------------------------------------------------------------------
  // What accepted slices promise
  // ---------------------------------------------------------------------------------------------

  function SizeSum(entries: seq<Entry>): nat {
    if entries == [] then 0 else SizeSum(entries[..|entries| - 1]) + entries[|entries| - 1].size
  }

  function Range(low: nat, high: nat): (r: set<int>)
    ensures forall x :: x in r <==> low <= x < high
    ensures low <= high ==> |r| == high - low
    decreases high
  {
    if low >= high then {} else Range(low, high - 1) + {high - 1}
  }

  /** The positions the entries cover. */
  function Covered(entries: seq<Entry>): (r: set<int>) {
    if entries == [] then {}
    else
      var last := entries[|entries| - 1];
      Covered(entries[..|entries| - 1]) + Range(last.offset, last.offset + last.size)
  }

  lemma {:induction false} CoveredBySome(entries: seq<Entry>, x: int) returns (i: nat)
    requires x in Covered(entries)
    ensures i < |entries| && entries[i].offset <= x < entries[i].offset + entries[i].size
    decreases |entries|
  {
    i := |entries| - 1;
    if x in Covered(entries[..i]) { i := CoveredBySome(entries[..i], x); }
  }

  lemma LastIsApart(entries: seq<Entry>)
    requires entries != [] && forall j :: 0 <= j < |entries| - 1 ==> Apart(entries[j], entries[|entries| - 1])
    ensures var last := entries[|entries| - 1]; Covered(entries[..|entries| - 1]) !! Range(last.offset, last.offset + last.size)
  {
    var before, last := entries[..|entries| - 1], entries[|entries| - 1];
    forall x | x in Covered(before) ensures x !in Range(last.offset, last.offset + last.size) {
      var i := CoveredBySome(before, x);
      assert Apart(entries[i], last);
    }
  }

  lemma {:induction false} DisjointSizesAdd(entries: seq<Entry>)
    requires forall i, j :: 0 <= j < i < |entries| ==> Apart(entries[j], entries[i])
    ensures |Covered(entries)| == SizeSum(entries)
    decreases |entries|
  {
    if entries != [] {
      DisjointSizesAdd(entries[..|entries| - 1]);
      LastIsApart(entries);
    }
  }

  /** Accepted slices lie one beside the other between the table and the end of the file: their sizes add up to no
      more than that room. */
  lemma SlicesFitTheFile(file: Bytes, kind: Kind, expected: Option<nat>)
    requires FatOk(file, kind, expected)
    ensures SizeSum(Table(file, kind)) <= |file| - TableEnd(file, kind)
  {
    var entries, from := Table(file, kind), TableEnd(file, kind);
    forall i, j | 0 <= j < i < |entries| ensures Apart(entries[j], entries[i]) { assert EntryOk(file, kind, expected, entries, i); }
    DisjointSizesAdd(entries);
    forall x | x in Covered(entries) ensures x in Range(from, |file|) {
      var i := CoveredBySome(entries, x);
      assert EntryOk(file, kind, expected, entries, i);
    }
    assert Range(from, |file|) == Covered(entries) + (Range(from, |file|) - Covered(entries));
  }

  /** Any two accepted slices are disjoint, past the table, inside the file, and of different architectures. */
  lemma SlicesAreApart(file: Bytes, kind: Kind, expected: Option<nat>, i: nat, j: nat)
    requires FatOk(file, kind, expected) && i < |Table(file, kind)| && j < |Table(file, kind)| && i != j
    ensures var a, b := Table(file, kind)[i], Table(file, kind)[j];
            && a.offset >= TableEnd(file, kind) && a.offset + a.size <= |file|
            && (a.offset + a.size <= b.offset || b.offset + b.size <= a.offset)
            && Architecture(a) != Architecture(b)
  {
    var entries := Table(file, kind);
    assert EntryOk(file, kind, expected, entries, i) && EntryOk(file, kind, expected, entries, j);
  }

  /** The load commands of every accepted slice tile the range its header declares, and every code signature they
      name lies inside the slice. */
  lemma SlicesAreSound(file: Bytes, kind: Kind, expected: Option<nat>, i: nat) returns (little: bool, wide: bool, starts: seq<nat>)
    requires FatOk(file, kind, expected) && i < |Table(file, kind)|
    ensures var e := Table(file, kind)[i];
            && e.offset + e.size <= |file| && EntryImage(file, e, expected).Some?
            && Header(file, e.offset, e.size) == Some(Thin(little, wide))
            && Sound(file, e.offset, e.size, little, wide, expected, EntryImage(file, e, expected).value, starts)
            && var commands := Commands(file, e.offset, e.size, little, wide, expected);
               forall k :: 0 <= k < |starts| ==> SignatureInside(commands, little, e.size, starts[k])
  {
    var e := Table(file, kind)[i];
    assert EntryOk(file, kind, expected, Table(file, kind), i);
    var inner := Header(file, e.offset, e.size).value;
    little, wide := inner.little, inner.wide;
    starts := ImageIsSound(file, e.offset, e.size, little, wide, expected);
    ghost var commands := Commands(file, e.offset, e.size, little, wide, expected);
    forall k | 0 <= k < |starts| ensures SignatureInside(commands, little, e.size, starts[k]) {
      SignaturesStayInside(file, e.offset, e.size, little, wide, expected, EntryImage(file, e, expected).value, starts, k);
    }
  }
}
