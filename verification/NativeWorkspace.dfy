/** The native-call workspace as it is changed on disk, one effect at a time, with a crash possible before any of
    them.  `budget` is the number of effects left before the crash. */
module NativeWorkspaces {
  import opened Wrappers
  import opened Binary
  import opened NativeJournal

  datatype Status = Idle | Unresolved

  datatype Outcome = Completed | Refused | Failed | Crashed

  class Workspace {
    var disk: Disk
    var identities: nat
    var budget: nat

    ghost predicate Valid()
      reads this
    {
      Sound(disk)
    }

    /** `initialize`. */
    constructor (budget: nat)
      ensures Valid() && this.budget == budget
      ensures disk == Disk(Journal(1, NoHistory, None, None), map[], map[])
    {
      disk := Disk(Journal(1, NoHistory, None, None), map[], map[]);
      identities := 0;
      this.budget := budget;
      new;
      InitialIsSound();
    }

    /** A new process finds the disk as the last effect left it. */
    method Restart(effects: nat)
      requires Valid()
      modifies this`budget
      ensures Valid() && disk == old(disk) && budget == effects
    {
      budget := effects;
    }

    // -------------------------------------------------------------------------------------------
    // Effects
    // -------------------------------------------------------------------------------------------

    /** Atomic replacement of the journal. */
    method ReplaceJournal(journal: Journal) returns (alive: bool)
      modifies this`disk, this`budget
      ensures alive == (old(budget) > 0) && budget == if alive then old(budget) - 1 else 0
      ensures disk == if alive then old(disk).(journal := journal) else old(disk)
    {
      if budget == 0 { return false; }
      budget := budget - 1;
      disk := disk.(journal := journal);
      alive := true;
    }

    method PutFile(slot: Slot, name: Name, file: HostFile) returns (alive: bool)
      modifies this`disk, this`budget
      ensures alive == (old(budget) > 0) && budget == if alive then old(budget) - 1 else 0
      ensures disk == if alive then old(disk).WithFiles(slot, old(disk).In(slot)[name := file]) else old(disk)
    {
      if budget == 0 { return false; }
      budget := budget - 1;
      disk := disk.WithFiles(slot, disk.In(slot)[name := file]);
      alive := true;
    }

    method Unlink(slot: Slot, name: Name) returns (alive: bool)
      modifies this`disk, this`budget
      ensures alive == (old(budget) > 0) && budget == if alive then old(budget) - 1 else 0
      ensures disk == if alive then old(disk).WithFiles(slot, Removed(old(disk).In(slot), name)) else old(disk)
    {
      if budget == 0 { return false; }
      budget := budget - 1;
      disk := disk.WithFiles(slot, Removed(disk.In(slot), name));
      alive := true;
    }

    // -------------------------------------------------------------------------------------------
    // Validation
    // -------------------------------------------------------------------------------------------

    method ValidateFile(record: Record, name: Name, file: HostFile) returns (ok: bool)
      ensures ok <==> (Listed(name) ==> FileOk(record, name, file))
    {
      if !Listed(name) { return true; }
      if name in record.files && file.identity != record.files[name] { return false; }
      if |file.body| > Limit(name) { return false; }
      if record.stage.Prepared? && name in {Request, CommandFile, Stdin} {
        if file.body == [] && !name.Stdin? { return false; }
        var expected := if name.Request? then record.request else if name.CommandFile? then record.command else record.stdin;
        if file.body != expected { return false; }
      }
      ok := true;
    }

    method ValidateFiles(record: Record, files: Files) returns (ok: bool)
      ensures ok <==> forall name :: name in files ==> Listed(name) ==> FileOk(record, name, files[name])
    {
      var names := files.Keys;
      while names != {}
        invariant names <= files.Keys
        invariant forall name :: name in files && name !in names ==> Listed(name) ==> FileOk(record, name, files[name])
        decreases |names|
      {
        var name :| name in names;
        var fileOk := ValidateFile(record, name, files[name]);
        if !fileOk {
          assert name in files && Listed(name) && !FileOk(record, name, files[name]);
          return false;
        }
        names := names - {name};
      }
      ok := true;
    }

    /** `validate_workspace` of a reserved workspace. */
    method Validate() returns (r: Option<Status>)
      ensures r.Some? <==> Validated(disk)
      ensures r == Some(Unresolved) ==> disk.journal.command.Some? || disk.journal.instrumentation.Some?
      ensures r == Some(Idle) ==> disk.journal.command.None? && disk.journal.instrumentation.None? && disk.command == disk.instrumentation == map[]
    {
      hide FileOk, AllListed;
      var journal := disk.journal;
      if !(1 <= journal.nextSequence < SEQUENCE_BOUND) { return None; }
      var sequences: set<nat>, slots: seq<Slot> := {}, [CommandSlot, InstrumentationSlot];
      for i := 0 to 2
        invariant i >= 1 ==> SlotOk(journal.command, journal.nextSequence, disk.command)
        invariant i >= 2 ==> SlotOk(journal.instrumentation, journal.nextSequence, disk.instrumentation) && DistinctSequences(journal)
        invariant sequences == (if i >= 1 && journal.command.Some? then {journal.command.value.sequence} else {})
                             + (if i >= 2 && journal.instrumentation.Some? then {journal.instrumentation.value.sequence} else {})
      {
        var slot := slots[i];
        var files, record := disk.In(slot), journal.At(slot);
        assert slot == if i == 0 then CommandSlot else InstrumentationSlot;
        if record.None? {
          if files != map[] { return None; }
        } else {
          var known := {Request, CommandFile, Stdin, Start, Termination, NativeResult};
          if !RecordOk(record.value, journal.nextSequence) || record.value.sequence in sequences { return None; }
          sequences := sequences + {record.value.sequence};
          if !(files.Keys <= known && (!record.value.stage.Prepared? || AllListed(files.Keys))) {
            NotListed(record.value, journal.nextSequence, files);
            return None;
          }
          var filesOk := ValidateFiles(record.value, files);
          SlotIs(record.value, journal.nextSequence, files);
          if !filesOk { return None; }
        }
      }
      r := Some(if sequences == {} then Idle else Unresolved);
    }

    // -------------------------------------------------------------------------------------------
    // Preparing a call
    // -------------------------------------------------------------------------------------------

    /** `_write_bytes`: a new file, grown by writes of any size. */
    method WriteBytes(slot: Slot, name: Name, body: Bytes) returns (r: Outcome)
      requires Valid() && disk.journal.At(slot).Some? && disk.journal.At(slot).value.stage.Preparing? && Listed(name)
      modifies this
      ensures Valid() && disk.journal == old(disk).journal && disk.In(Other(slot)) == old(disk).In(Other(slot))
      ensures |body| > Limit(name) <==> r == Refused
      ensures r == Refused ==> disk == old(disk)
      ensures r == Completed ==> name in disk.In(slot) && disk.In(slot)[name].body == body
                                 && disk.In(slot) == old(disk).In(slot)[name := disk.In(slot)[name]]
                                 && old(budget) <= budget + 1 + |body|
      ensures r == Completed ==> disk.In(slot)[name].identity == old(identities) < identities
      ensures r == Crashed ==> old(budget) < 1 + |body|
      ensures r != Failed
    {
      hide Sound;
      if |body| > Limit(name) { return Refused; }
      var identity := identities;
      identities := identities + 1;
      WritingIsSound(disk, slot, name, HostFile(identity, []));
      var alive := PutFile(slot, name, HostFile(identity, []));
      if !alive { return Crashed; }
      var offset := 0;
      while offset < |body|
        invariant offset <= |body| && Valid() && disk.journal == old(disk).journal && disk.In(Other(slot)) == old(disk).In(Other(slot))
        invariant identity == old(identities) < identities
        invariant disk.In(slot) == old(disk).In(slot)[name := HostFile(identity, body[..offset])] && old(budget) <= budget + 1 + offset
        decreases |body| - offset
      {
        var count: nat :| 0 < count <= |body| - offset by { assert 0 < 1 <= |body| - offset; }
        offset := offset + count;
        WritingIsSound(disk, slot, name, HostFile(identity, body[..offset]));
        alive := PutFile(slot, name, HostFile(identity, body[..offset]));
        if !alive { return Crashed; }
      }
      assert body[..|body|] == body;
      r := Completed;
    }

    /** The six files of a record that is being prepared. */
    method WriteFiles(slot: Slot, record: Record) returns (r: Outcome)
      requires Valid() && disk.journal.At(slot) == Some(record) && record.stage.Preparing? && disk.In(slot) == map[]
      requires record.request != [] && |record.request| <= Limit(Request) && record.command != [] && |record.command| <= Limit(CommandFile)
      modifies this
      ensures Valid() && disk.journal == old(disk).journal && disk.In(Other(slot)) == old(disk).In(Other(slot))
      ensures r == Completed ==> Written(record, disk.In(slot))
      ensures r == Completed || r == Crashed || (r == Failed && |record.stdin| > Limit(Stdin))
      ensures r == Completed ==> |record.stdin| <= Limit(Stdin) && old(budget) <= budget + CallEffects(record.request, record.command, record.stdin)
      ensures r == Crashed ==> old(budget) < CallEffects(record.request, record.command, record.stdin)
    {
      hide Sound, Limit, Written;
      var bodies := [record.request, record.command, record.stdin, [], [], []];
      for i := 0 to 6
        invariant Valid() && disk.journal == old(disk).journal && disk.In(Other(slot)) == old(disk).In(Other(slot))
        invariant i >= 3 ==> |record.stdin| <= Limit(Stdin)
        invariant Wrote(disk.In(slot), bodies, i) && old(budget) <= budget + FileEffects(bodies, i)
      {
        EffectsOfFiles(bodies, i + 1);
        LimitsHold(i, record.request, record.command);
        ghost var before := disk.In(slot);
        var wrote := WriteBytes(slot, ORDER[i], bodies[i]);
        if wrote == Refused { return Failed; }
        if wrote != Completed { return Crashed; }
        WroteNext(before, disk.In(slot), bodies, i);
      }
      WroteAll(record, disk.In(slot), bodies);
      EffectsOfFiles(bodies, 6);
      r := Completed;
    }

    /** `_prepare_request`: the intent first, then the six files, then the record bound to them.  The binary property
        lists `request` and `command` are never empty. */
    method Prepare(slot: Slot, phase: Phase, generation: int, request: Bytes, command: Bytes, stdin: Bytes, maximumOutput: int)
      returns (r: Outcome)
      requires Valid() && OwnerOk(phase, generation) && request != [] && command != []
      modifies this
      ensures Valid() && Untouched(old(disk), disk, slot) && disk.journal.history == old(disk).journal.history
      ensures r == Refused <==> old(disk).journal.At(slot).Some? || old(disk).journal.nextSequence >= 0x7FFF_FFFF_FFFF_FFFF
                                || !(1 <= maximumOutput <= 4_194_304) || |request| > 65536 || |command| > 131072
      ensures r == Refused ==> disk == old(disk)
      ensures (r == Failed ==> |stdin| > 65536) && (r == Completed ==> |stdin| <= 65536)
      ensures r == Crashed ==> old(budget) < CallEffects(request, command, stdin) + 2
      ensures r != Refused ==> (disk == old(disk) && r == Crashed) || disk.journal.At(slot).Some?
      ensures var record := Record(old(disk).journal.nextSequence, phase, generation, request, command, stdin, maximumOutput, Preparing, map[]);
              r == Completed ==> disk.journal == Admitted(old(disk).journal, slot, Bind(record, disk.In(slot))) && Written(record, disk.In(slot))
    {
      hide Sound, Admitted, RecordOk, Limit;
      CallLimits();
      if !(1 <= maximumOutput <= MAX_OUTPUT_BYTES) || |command| > Limit(CommandFile) { return Refused; }
      var status := Validate();
      SoundIsValidated(disk);
      if status.None? { return Refused; }
      var journal := disk.journal;
      if journal.At(slot).Some? || journal.nextSequence >= SEQUENCE_BOUND - 1 { return Refused; }
      if |request| > Limit(Request) { return Refused; }
      var record := Record(journal.nextSequence, phase, generation, request, command, stdin, maximumOutput, Preparing, map[]);
      NewRecordOk(record, journal);
      AdmittingIsSound(disk, slot, record);
      var alive := ReplaceJournal(Admitted(journal, slot, record));
      if !alive { return Crashed; }
      EmptyBefore(old(disk), slot);
      AdmittedFields(journal, slot, record);
      r := WriteFiles(slot, record);
      if r != Completed { return; }
      PreparingEnds(disk, slot, record);
      var bound := disk.journal.With(slot, Some(Bind(record, disk.In(slot))));
      BoundIsAdmitted(journal, slot, record, disk.In(slot));
      alive := ReplaceJournal(bound);
      r := if alive then Completed else Crashed;
    }

    /** The running guardian rewrites one of its records in place. */
    method GuardianWrites(slot: Slot, name: Name, body: Bytes)
      requires Valid() && disk.journal.At(slot).Some? && name in disk.In(slot)
      requires Bound(disk.journal.At(slot).value, name).None? && |body| <= Limit(name)
      modifies this`disk
      ensures Valid() && disk.journal == old(disk).journal && disk.In(Other(slot)) == old(disk).In(Other(slot))
      ensures disk.In(slot) == old(disk).In(slot)[name := HostFile(old(disk).In(slot)[name].identity, body)]
    {
      hide Sound, Limit, Bound;
      GuardianIsSound(disk, slot, disk.journal.At(slot).value, name, body);
      disk := disk.WithFiles(slot, disk.In(slot)[name := disk.In(slot)[name].(body := body)]);
    }

    // -------------------------------------------------------------------------------------------
    // Retiring a call
    // -------------------------------------------------------------------------------------------

    /** The given names are removed one after another. */
    method UnlinkAll(slot: Slot, record: Record, names: seq<Name>) returns (alive: bool)
      requires Valid() && disk.journal.At(slot) == Some(record) && !record.stage.Prepared?
      modifies this`disk, this`budget
      ensures Valid() && disk.journal == old(disk).journal && disk.In(Other(slot)) == old(disk).In(Other(slot))
      ensures alive ==> disk.In(slot) == old(disk).In(slot) - NameSet(names) && budget + |names| == old(budget)
      ensures !alive ==> budget == 0 && old(budget) < |names|
    {
      hide Sound;
      for i := 0 to |names|
        invariant Valid() && disk.journal == old(disk).journal && disk.In(Other(slot)) == old(disk).In(Other(slot))
        invariant disk.In(slot) == old(disk).In(slot) - NameSet(names[..i]) && budget + i == old(budget)
      {
        RemovingIsSound(disk, slot, record, names[i]);
        alive := Unlink(slot, names[i]);
        if !alive { return; }
        assert NameSet(names[..i + 1]) == NameSet(names[..i]) + {names[i]} by { assert names[..i + 1] == names[..i] + [names[i]]; }
      }
      assert names[..|names|] == names;
      alive := true;
    }

    /** `_retire`: the dispatcher has collected the call that the record describes. */
    method Retire(slot: Slot, record: Record, guardian: Bytes, returnCode: int, bounded: bool) returns (r: Outcome)
      requires Valid() && record.stage.Prepared?
      modifies this
      ensures Valid() && Untouched(old(disk), disk, slot)
      ensures r == Refused <==> old(disk).journal.At(slot) != Some(record)
      ensures r == Refused ==> disk == old(disk)
      ensures r == Crashed ==> old(budget) < 8 && disk.journal.At(slot).Some? && disk.journal.history == old(disk).journal.history
      ensures r == Completed ==>
                && disk.In(slot) == map[]
                && disk.journal == FoldedJournal(old(disk).journal, slot,
                     Collected(old(disk).journal.history, record.sequence, record.request, guardian, returnCode, bounded))
      ensures r != Failed
    {
      hide Sound, RecordOk, FileOk;
      var status := Validate();
      SoundIsValidated(disk);
      if status.None? || disk.journal.At(slot) != Some(record) { return Refused; }
      var retiring := record.(stage := Retiring);
      RetiringIsSound(disk, slot, record);
      PreparedHasAll(disk, slot, record);
      var journal := disk.journal.With(slot, Some(retiring));
      var alive := ReplaceJournal(journal);
      if !alive { return Crashed; }
      alive := UnlinkAll(slot, retiring, ORDER);
      if !alive { return Crashed; }
      AllUnlinked(old(disk).In(slot));
      var history := Collected(journal.history, record.sequence, record.request, guardian, returnCode, bounded);
      FoldingIsSound(disk, slot, retiring, history);
      alive := ReplaceJournal(FoldedJournal(journal, slot, history));
      r := if alive then Completed else Crashed;
    }

    /** One slot of `_retire_host_slots`. */
    method RetireSlot(slot: Slot) returns (r: Outcome)
      requires Valid()
      modifies this
      ensures Valid() && Untouched(old(disk), disk, slot)
      ensures r == Completed || r == Crashed
      ensures r == Crashed ==> old(budget) < 8 && disk.journal.At(slot).Some?
      ensures disk.journal.nextSequence == old(disk).journal.nextSequence
      ensures r == Completed ==>
                && old(budget) - budget <= 8
                && disk.journal.At(slot).None? && disk.In(slot) == map[]
                && disk.journal.history == Reclaimed(old(disk).journal.history, old(disk).journal.At(slot), old(disk).In(slot))
                && FoldedIn(disk.journal.history) == FoldedIn(old(disk).journal.history)
                     + if old(disk).journal.At(slot).Some? then multiset{old(disk).journal.At(slot).value.sequence} else multiset{}
    {
      hide Sound, FileOk, RecordOk, Validated, SlotOk, AllListed, Limit;
      SoundIsValidated(disk);
      var journal := disk.journal;
      if journal.At(slot).None? {
        EmptyBefore(disk, slot);
        return Completed;
      }
      var record := journal.At(slot).value;
      if !record.stage.Preparing? {
        RetiringIsSound(disk, slot, record);
        record := record.(stage := Retiring);
      }
      assert journal.With(slot, Some(record)).At(slot) == Some(record);
      assert record.stage.Preparing? ==> disk.(journal := journal.With(slot, Some(record))) == disk;
      var alive := ReplaceJournal(journal.With(slot, Some(record)));
      if !alive { return Crashed; }
      var names, digests := ListFiles(disk.In(slot));
      var history := ForRecovery(journal.history, record, digests);
      alive := UnlinkAll(slot, record, names);
      if !alive { return Crashed; }
      SoundIsValidated(old(disk));
      PresentAreAll(old(disk), slot);
      assert digests == map name | name in old(disk).In(slot) :: old(disk).In(slot)[name].body;
      FoldingIsSound(disk, slot, record, history);
      alive := ReplaceJournal(FoldedJournal(disk.journal, slot, history));
      r := if alive then Completed else Crashed;
    }

    /** The files that are there, in the order of their names, and what each holds. */
    method ListFiles(files: Files) returns (names: seq<Name>, digests: map<Name, Bytes>)
      ensures names == Present(files, 6) && |names| <= 6
      ensures digests == map name | name in files && name in names :: files[name].body
    {
      names, digests := [], map[];
      for i := 0 to 6
        invariant names == Present(files, i) && |names| <= i
        invariant digests == map name | name in files && name in names :: files[name].body
      {
        if SORTED[i] in files {
          digests := digests[SORTED[i] := files[SORTED[i]].body];
          names := names + [SORTED[i]];
        }
      }
    }

    /** `_retire_host_slots`: every occupied slot is emptied and its number folded, whatever a crash left of it. */
    method RetireForRecovery() returns (r: Outcome)
      requires Valid()
      modifies this
      ensures Valid()
      ensures r == Completed || r == Crashed
      ensures r == Crashed ==> old(budget) < 16
      ensures disk.journal.nextSequence == old(disk).journal.nextSequence
      ensures r == Completed ==>
                && !Occupied(disk.journal) && disk.command == disk.instrumentation == map[]
                && disk.journal.history
                   == Reclaimed(Reclaimed(old(disk).journal.history, old(disk).journal.command, old(disk).command),
                                old(disk).journal.instrumentation, old(disk).instrumentation)
                && FoldedIn(disk.journal.history) == FoldedIn(old(disk).journal.history) + Live(old(disk).journal)
    {
      hide Sound;
      r := RetireSlot(CommandSlot);
      if r != Completed { return; }
      ghost var middle := disk;
      r := RetireSlot(InstrumentationSlot);
      if r == Completed { FoldedBoth(old(disk).journal, middle.journal, disk.journal); }
    }

    // -------------------------------------------------------------------------------------------
    // Through any number of crashes
    // -------------------------------------------------------------------------------------------

    /** Whatever calls were prepared, written to by their guardian or retired, each in a process that may have crashed
        anywhere, a recovery with sixteen effects left ends with both slots empty, and every number issued, before or
        meanwhile, is folded into the history exactly once. */
    method RecoverThroughCrashes(attempts: seq<Attempt>, effects: nat) returns (r: Outcome)
      requires Valid() && forall k :: 0 <= k < |attempts| ==> attempts[k].work.Allowed()
      modifies this
      ensures Valid() && (r == Completed || (r == Crashed && effects < 16))
      ensures old(disk).journal.nextSequence <= disk.journal.nextSequence <= old(disk).journal.nextSequence + |attempts|
      ensures r == Completed ==> !Occupied(disk.journal) && disk.command == disk.instrumentation == map[]
                                 && FoldedIn(disk.journal.history) == Issued(disk.journal.nextSequence)
    {
      hide Sound, Limit;
      for i := 0 to |attempts|
        invariant Valid()
        invariant old(disk).journal.nextSequence <= disk.journal.nextSequence <= old(disk).journal.nextSequence + i
      {
        Restart(attempts[i].effects);
        Perform(attempts[i].work);
      }
      Restart(effects);
      ghost var before := disk;
      r := RetireForRecovery();
      if r == Completed { EverythingFolded(before, disk); }
    }

    method Perform(work: Work)
      requires Valid() && work.Allowed()
      modifies this
      ensures Valid() && old(disk).journal.nextSequence <= disk.journal.nextSequence <= old(disk).journal.nextSequence + 1
    {
      hide Sound, Limit;
      match work {
        case Prepares(slot, phase, generation, request, command, stdin, maximumOutput) =>
          var _ := Prepare(slot, phase, generation, request, command, stdin, maximumOutput);
        case Guards(slot, name, body) =>
          var record := disk.journal.At(slot);
          if record.Some? && name in disk.In(slot) && Bound(record.value, name).None? && |body| <= Limit(name) { GuardianWrites(slot, name, body); }
        case Retires(slot, record, guardian, returnCode, bounded) =>
          var _ := Retire(slot, record, guardian, returnCode, bounded);
        case Recovers =>
          var _ := RetireForRecovery();
      }
    }
  }

  /** What one process does to the workspace. */
  datatype Work =
    | Prepares(slot: Slot, phase: Phase, generation: int, request: Bytes, command: Bytes, stdin: Bytes, maximumOutput: int)
    | Guards(slot: Slot, name: Name, body: Bytes)
    | Retires(slot: Slot, record: Record, guardian: Bytes, returnCode: int, bounded: bool)
    | Recovers
  {
    predicate Allowed() {
      match this
      case Prepares(_, phase, generation, request, command, _, _) => OwnerOk(phase, generation) && request != [] && command != []
      case Retires(_, record, _, _, _) => record.stage.Prepared?
      case _ => true
    }
  }

  /** A process that lives for so many effects. */
  datatype Attempt = Attempt(work: Work, effects: nat)

  lemma EverythingFolded(before: Disk, after: Disk)
    requires Sound(before) && after.journal.nextSequence == before.journal.nextSequence
    requires FoldedIn(after.journal.history) == FoldedIn(before.journal.history) + Live(before.journal)
    ensures FoldedIn(after.journal.history) == Issued(after.journal.nextSequence)
  {
  }

  /** The history after a recovery has retired a slot: an entry for its record, as retiring unless it was still being
      prepared, with what every file found there held. */
  ghost function Reclaimed(history: History, record: Option<Record>, files: Files): History {
    match record
    case None => history
    case Some(r) =>
      ForRecovery(history, if r.stage.Preparing? then r else r.(stage := Retiring), map name | name in files :: files[name].body)
  }

  /** The effects of writing the first `count` files, and all six: each is created and then grown byte by byte at most. */
  function FileEffects(bodies: seq<Bytes>, count: nat): nat
    requires count <= |bodies|
  {
    if count == 0 then 0 else FileEffects(bodies, count - 1) + 1 + |bodies[count - 1]|
  }

  function CallEffects(request: Bytes, command: Bytes, stdin: Bytes): nat {
    6 + |request| + |command| + |stdin|
  }

  lemma {:induction false} EffectsGrow(bodies: seq<Bytes>, count: nat)
    requires count <= |bodies|
    ensures FileEffects(bodies, count) <= FileEffects(bodies, |bodies|)
    decreases |bodies| - count
  {
    if count < |bodies| { EffectsGrow(bodies, count + 1); }
  }

  lemma EffectsOfFiles(bodies: seq<Bytes>, count: nat)
    requires |bodies| == 6 && count <= 6 && bodies[3] == bodies[4] == bodies[5] == []
    ensures FileEffects(bodies, count) <= FileEffects(bodies, 6) == CallEffects(bodies[0], bodies[1], bodies[2])
  {
    EffectsGrow(bodies, count);
    assert FileEffects(bodies, 1) == 1 + |bodies[0]|;
    assert FileEffects(bodies, 3) == FileEffects(bodies, 2) + 1 + |bodies[2]|;
    assert FileEffects(bodies, 5) == FileEffects(bodies, 4) + 1 == FileEffects(bodies, 3) + 2;
  }

  lemma NotListed(record: Record, nextSequence: nat, files: Files)
    requires !(files.Keys <= {Request, CommandFile, Stdin, Start, Termination, NativeResult}) || (record.stage.Prepared? && !AllListed(files.Keys))
    ensures !SlotOk(Some(record), nextSequence, files)
  {
    if !(files.Keys <= {Request, CommandFile, Stdin, Start, Termination, NativeResult}) {
      var name :| name in files && name !in {Request, CommandFile, Stdin, Start, Termination, NativeResult};
      assert !Listed(name) && !FileOk(record, name, files[name]);
    }
  }

  lemma SlotIs(record: Record, nextSequence: nat, files: Files)
    requires RecordOk(record, nextSequence) && files.Keys <= {Request, CommandFile, Stdin, Start, Termination, NativeResult}
    requires record.stage.Prepared? ==> AllListed(files.Keys)
    ensures SlotOk(Some(record), nextSequence, files)
            <==> forall name :: name in files ==> Listed(name) ==> FileOk(record, name, files[name])
  {
    hide RecordOk, Limit, AllListed;
    assert forall name :: name in files ==> Listed(name);
  }

  function NameSet(names: seq<Name>): set<Name> {
    set name | name in names
  }

  /** The other slot is as it was, and at most one number more has been issued. */
  predicate Untouched(before: Disk, after: Disk, slot: Slot) {
    && after.journal.At(Other(slot)) == before.journal.At(Other(slot)) && after.In(Other(slot)) == before.In(Other(slot))
    && before.journal.nextSequence <= after.journal.nextSequence <= before.journal.nextSequence + 1
  }

  /** The first files of a slot are written. */
  ghost predicate Wrote(files: Files, bodies: seq<Bytes>, k: nat)
    requires k <= 6 == |bodies|
  {
    && (forall name :: name in files <==> name in ORDER[..k])
    && forall i :: 0 <= i < k ==> ORDER[i] in files && files[ORDER[i]].body == bodies[i]
  }

  const SORTED: seq<Name> := [CommandFile, NativeResult, Request, Start, Stdin, Termination]

  /** The files of a slot in the order of their names. */
  function Present(files: Files, k: nat): seq<Name>
    requires k <= 6
  {
    if k == 0 then [] else Present(files, k - 1) + if SORTED[k - 1] in files then [SORTED[k - 1]] else []
  }

  lemma CallLimits()
    ensures Limit(Request) == 65536 && Limit(CommandFile) == 131072 && Limit(Stdin) == 65536
  {
  }

  lemma SoundIsValidated(d: Disk)
    requires Sound(d)
    ensures Validated(d)
  {
  }

  lemma NewRecordOk(record: Record, journal: Journal)
    requires 1 <= journal.nextSequence == record.sequence && OwnerOk(record.phase, record.generation)
    requires 1 <= record.maximumOutput <= MAX_OUTPUT_BYTES && record.stage.Preparing? && record.files == map[]
    ensures RecordOk(record, journal.nextSequence + 1)
  {
  }

  lemma EmptyBefore(d: Disk, slot: Slot)
    requires Sound(d) && d.journal.At(slot).None?
    ensures d.In(slot) == map[]
  {
  }

  lemma AdmittedFields(journal: Journal, slot: Slot, record: Record)
    ensures Admitted(journal, slot, record).At(slot) == Some(record)
    ensures Admitted(journal, slot, record).At(Other(slot)) == journal.At(Other(slot))
    ensures Admitted(journal, slot, record).nextSequence == journal.nextSequence + 1
    ensures Admitted(journal, slot, record).history == journal.history
  {
  }

  lemma BoundIsAdmitted(journal: Journal, slot: Slot, record: Record, files: Files)
    ensures Admitted(journal, slot, record).With(slot, Some(Bind(record, files))) == Admitted(journal, slot, Bind(record, files))
    ensures Admitted(journal, slot, Bind(record, files)).At(slot) == Some(Bind(record, files))
    ensures Admitted(journal, slot, Bind(record, files)).At(Other(slot)) == journal.At(Other(slot))
    ensures Admitted(journal, slot, Bind(record, files)).nextSequence == journal.nextSequence + 1
  {
  }

  lemma LimitsHold(i: nat, request: Bytes, command: Bytes)
    requires i < 6 && |request| <= Limit(Request) && |command| <= Limit(CommandFile)
    ensures Listed(ORDER[i])
    ensures ORDER[i].Request? ==> |request| <= Limit(ORDER[i])
    ensures ORDER[i].CommandFile? ==> |command| <= Limit(ORDER[i])
    ensures i >= 3 ==> Limit(ORDER[i]) >= 0
    ensures (ORDER[i].Request? <==> i == 0) && (ORDER[i].CommandFile? <==> i == 1) && (ORDER[i].Stdin? <==> i == 2)
  {
  }

  lemma WroteNext(before: Files, after: Files, bodies: seq<Bytes>, i: nat)
    requires i < 6 == |bodies| && Wrote(before, bodies, i)
    requires ORDER[i] in after && after[ORDER[i]].body == bodies[i] && after == before[ORDER[i] := after[ORDER[i]]]
    ensures Wrote(after, bodies, i + 1)
  {
    assert ORDER[..i + 1] == ORDER[..i] + [ORDER[i]];
    forall j | 0 <= j < i ensures ORDER[j] != ORDER[i] { Different(j, i); }
  }

  lemma Different(j: nat, i: nat)
    requires j < i < 6
    ensures ORDER[j] != ORDER[i]
  {
  }

  lemma WroteAll(record: Record, files: Files, bodies: seq<Bytes>)
    requires bodies == [record.request, record.command, record.stdin, [], [], []] && Wrote(files, bodies, 6)
    requires record.request != [] && record.command != []
    ensures Written(record, files)
  {
    assert ORDER[..6] == ORDER;
    assert ORDER[0] == Request && ORDER[1] == CommandFile && ORDER[2] == Stdin;
    assert files.Keys == {Request, CommandFile, Stdin, Start, Termination, NativeResult};
  }

  lemma PreparedHasAll(d: Disk, slot: Slot, record: Record)
    requires Sound(d) && d.journal.At(slot) == Some(record) && record.stage.Prepared?
    ensures AllListed(d.In(slot).Keys)
  {
  }

  lemma AllUnlinked(files: Files)
    requires AllListed(files.Keys)
    ensures files - NameSet(ORDER) == map[]
  {
    assert forall name :: name in files ==> name in ORDER;
  }

  lemma PresentAre(files: Files, k: nat)
    requires k <= 6
    ensures forall name :: name in Present(files, k) <==> name in files && name in SORTED[..k]
  {
    if k > 0 {
      PresentAre(files, k - 1);
      assert SORTED[..k] == SORTED[..k - 1] + [SORTED[k - 1]];
    }
  }

  lemma PresentAreAll(d: Disk, slot: Slot)
    requires Validated(d)
    ensures d.In(slot) - NameSet(Present(d.In(slot), 6)) == map[]
    ensures forall name :: name in d.In(slot) ==> name in Present(d.In(slot), 6)
  {
    var files := d.In(slot);
    PresentAre(files, 6);
    assert SORTED[..6] == SORTED;
    forall name | name in files ensures name in SORTED { assert Listed(name); }
  }

  lemma FoldedBoth(a: Journal, b: Journal, c: Journal)
    requires b.instrumentation == a.instrumentation
    requires FoldedIn(b.history) == FoldedIn(a.history) + if a.command.Some? then multiset{a.command.value.sequence} else multiset{}
    requires FoldedIn(c.history) == FoldedIn(b.history) + if b.instrumentation.Some? then multiset{b.instrumentation.value.sequence} else multiset{}
    ensures FoldedIn(c.history) == FoldedIn(a.history) + Live(a)
  {
    hide FoldedIn;
  }
}
