/** Preparing and discarding recovery copies on disk, one effect at a time, with a crash or a refused check possible
    before any of them.  `budget` is the number of effects left before the crash. */
module RecoveryStagings {
  import opened Wrappers
  import opened Binary
  import opened RecoveryMaterials

  datatype Outcome = Done | Refused | Failed | Crashed

  class RecoveryStaging {
    const intent: Intent
    var disk: Disk
    var identities: nat
    var budget: nat

    ghost predicate Valid()
      reads this
    {
      Sound(disk, intent)
    }

    /** A completely staged operation. */
    constructor (intent: Intent, budget: nat)
      requires IntentOk(intent)
      ensures Valid() && this.intent == intent && this.budget == budget
      ensures disk == Disk(StagePrepared, None, None, intent)
    {
      this.intent := intent;
      disk := Disk(StagePrepared, None, None, intent);
      identities := 0;
      this.budget := budget;
    }

    /** A new process finds the disk as the last effect left it. */
    method Restart(effects: nat)
      requires Valid()
      modifies this`budget
      ensures Valid() && disk == old(disk) && budget == effects
    {
      budget := effects;
    }

    // -------------------------------------------------------------------------------------------
    // Effects
    // -------------------------------------------------------------------------------------------

    method Put(next: Disk) returns (alive: bool)
      modifies this`disk, this`budget
      ensures alive == (old(budget) > 0) && budget == if alive then old(budget) - 1 else 0
      ensures disk == if alive then next else old(disk)
    {
      if budget == 0 { return false; }
      budget := budget - 1;
      disk := next;
      alive := true;
    }

    /** A write to a staged file: only one whose identity is recorded is ever written. */
    method WriteFile(name: Apk, body: Bytes) returns (alive: bool)
      requires disk.materials.Some? && name in disk.materials.value.files && name in disk.staging
      requires disk.materials.value.files[name] == Some(disk.staging[name].identity)
      modifies this`disk, this`budget
      ensures alive == (old(budget) > 0) && budget == if alive then old(budget) - 1 else 0
      ensures disk == if alive then old(disk).(staging := old(disk).staging[name := old(disk).staging[name].(body := body)]) else old(disk)
    {
      alive := Put(disk.(staging := disk.staging[name := disk.staging[name].(body := body)]));
    }

    // -------------------------------------------------------------------------------------------
    // Validation
    // -------------------------------------------------------------------------------------------

    method ValidateMaterials(full: bool) returns (ok: bool)
      requires intent.Keys == AllNames()
      ensures ok <==> MaterialsOk(disk, intent, full)
    {
      if disk.materials.None? { return true; }
      var m := disk.materials.value;
      if !(m.files.Keys <= Recreatable() && disk.discard.Some?) { return false; }
      if m.state.Preparing? {
        if m.digest.Some? { return false; }
      } else {
        if !(AllRegistered(m.files) && m.digest == Some(m.files)) { return false; }
      }
      var names := disk.staging.Keys;
      if !(names <= AllNames()) { return false; }
      if m.state.Prepared? && !(Recreatable() <= names) { return false; }
      if m.state.Discarded? && m.files.Keys * names != {} { return false; }
      var left := m.files.Keys;
      while left != {}
        invariant left <= m.files.Keys
        invariant forall name :: name in m.files && name !in left ==> EntryOk(m, disk.staging, intent, name, full)
        decreases |left|
      {
        var name :| name in left;
        left := left - {name};
        var identity := m.files[name];
        if name !in names {
          if !(m.state.Discarding? || m.state.Discarded? || (m.state.Preparing? && identity.None?)) { return false; }
          continue;
        }
        var file, expected := disk.staging[name], intent[name];
        if identity.Some? && file.identity != identity.value { return false; }
        if identity.None? {
          if !(m.state.Preparing? && |file.body| == 0) { return false; }
        } else if m.state.Preparing? {
          if |file.body| > |expected.body| { return false; }
        } else {
          if |file.body| != |expected.body| { return false; }
          if full && file.body != expected.body { return false; }
        }
      }
      ok := true;
    }

    /** The names are those the stage calls for; then each file that recovery has not recreated is looked at. */
    method CheckStaging(full: bool) returns (ok: bool)
      requires intent.Keys == AllNames()
      ensures ok <==> StagedOk(disk, intent, full)
    {
      hide OriginalOk;
      var names, recreated := disk.staging.Keys, Recreated(disk);
      if (disk.stage.StageEmpty? || disk.stage.StagePrepared?) && disk.discard.None? {
        if names != AllNames() { return false; }
      } else {
        if !(disk.discard.Some? && names <= AllNames()) { return false; }
      }
      var left := names - recreated;
      while left != {}
        invariant left <= names - recreated
        invariant forall name :: name in disk.staging && name !in recreated && name !in left ==> OriginalOk(disk, intent, name, full)
        decreases |left|
      {
        var name :| name in left;
        left := left - {name};
        ok := CheckOriginal(name, full);
        if !ok { return; }
      }
      ok := true;
    }

    /** A complete file is compared byte for byte when the stage or the caller asks for it. */
    method CheckOriginal(name: Apk, full: bool) returns (ok: bool)
      requires name in disk.staging && name in intent
      ensures ok <==> OriginalOk(disk, intent, name, full)
    {
      var file, expected := disk.staging[name], intent[name];
      if file.identity != expected.identity || |file.body| > |expected.body| { return false; }
      var staged := disk.stage != StageEmpty || disk.discard.Some?;
      if staged || (full && |file.body| == |expected.body|) {
        if file.body != expected.body { return false; }
      }
      ok := true;
    }

    /** `_stage_status`: once the record and the files are accepted, the status is told from the records. */
    method ReadStageStatus(full: bool) returns (r: Option<Status>)
      requires intent.Keys == AllNames()
      ensures r == StageStatus(disk, intent, full)
    {
      hide MaterialsOk, StagedOk;
      var ok := ValidateMaterials(full);
      if !ok { return None; }
      ok := CheckStaging(full);
      if !ok { return None; }
      if disk.materials.Some? && (disk.materials.value.state.Preparing? || disk.materials.value.state.Prepared?) {
        return Some(if disk.materials.value.state.Preparing? then CopyIncomplete else ApksPrepared);
      }
      if disk.discard.None? { return Some(if disk.stage.StagePrepared? then StagedPrepared else StagingIncomplete); }
      if disk.stage.StagePrepared? { return Some(DiscardIntentUncommitted); }
      if disk.stage.StageDiscarding? {
        return Some(if disk.discard.value.DiscardDone? then DiscardStateUncommitted else StagedDiscardIncomplete);
      }
      if !(disk.stage.StageDiscarded? && disk.discard.value.DiscardDone? && disk.staging.Keys == {}) { return None; }
      assert disk.staging == map[];
      r := Some(StagedDiscarded);
    }

    // -------------------------------------------------------------------------------------------
    // Preparing the copies
    // -------------------------------------------------------------------------------------------

    /** `_copy_apk`: truncate, then write what the source yields, in pieces of any size; `source` is what is read,
        which need no longer be what was checked before. */
    method CopyApk(name: Apk, source: Bytes) returns (r: Outcome)
      requires Valid() && Copying(disk, intent) && name in disk.materials.value.files && name in disk.staging && name in intent
      requires disk.materials.value.files[name] == Some(disk.staging[name].identity)
      modifies this`disk, this`budget
      ensures Valid() && Copying(disk, intent) && name in disk.staging
      ensures disk == old(disk).(staging := old(disk).staging[name := old(disk).staging[name].(body := disk.staging[name].body)])
      ensures r == Done ==> disk.staging[name].body == source == intent[name].body
      ensures r == Failed ==> source != intent[name].body
      ensures if r == Crashed then old(budget) < 1 + |intent[name].body| else old(budget) <= budget + 1 + |intent[name].body|
      ensures r != Refused
    {
      hide Sound;
      var expected := intent[name].body;
      WritingIsSound(disk, intent, name, []);
      var alive := WriteFile(name, []);
      if !alive { return Crashed; }
      var total := 0;
      while total < |source|
        invariant total <= |source| && total <= |expected| && Valid() && Copying(disk, intent)
        invariant old(budget) <= budget + 1 + total
        invariant disk == old(disk).(staging := old(disk).staging[name := old(disk).staging[name].(body := source[..total])])
        decreases |source| - total
      {
        var size: nat :| 0 < size <= |source| - total by { assert 0 < 1 <= |source| - total; }
        if total + size > |expected| { return Failed; }
        var offset := 0;
        while offset < size
          invariant offset <= size && Valid() && Copying(disk, intent)
          invariant old(budget) <= budget + 1 + total + offset
          invariant disk == old(disk).(staging := old(disk).staging[name := old(disk).staging[name].(body := source[..total + offset])])
          decreases size - offset
        {
          var written: nat :| 0 < written <= size - offset by { assert 0 < 1 <= size - offset; }
          offset := offset + written;
          WritingIsSound(disk, intent, name, source[..total + offset]);
          alive := WriteFile(name, source[..total + offset]);
          if !alive { return Crashed; }
        }
        total := total + size;
      }
      assert source[..total] == source;
      if source != expected || disk.staging[name].body != expected { return Failed; }
      r := Done;
    }

    /** A planned file is created if it is not there, and its identity recorded before anything is written to it. */
    method OpenApk(name: Apk) returns (r: Outcome)
      requires Valid() && Copying(disk, intent) && name in disk.materials.value.files
      modifies this
      ensures Valid() && Copying(disk, intent) && OnlyTouches(old(disk), disk, name)
      ensures r == Done || r == Crashed
      ensures r == Done ==> name in disk.staging && disk.materials.value.files[name] == Some(disk.staging[name].identity)
      ensures r == Done && name !in old(disk).staging ==> disk.staging[name].identity == old(identities) < identities
      ensures if r == Crashed then old(budget) < 2 else old(budget) <= budget + 2
    {
      hide Sound;
      RecordedAreKnown(disk, intent, name);
      if name !in disk.staging {
        if disk.materials.value.files[name].Some? { return Refused; }
        var created := identities;
        identities := identities + 1;
        CreatingIsSound(disk, intent, name, created);
        var alive := Put(disk.(staging := disk.staging[name := StagedFile(created, [])]));
        if !alive { return Crashed; }
      }
      RecordedIdentity(disk, intent, name);
      if disk.materials.value.files[name].None? {
        RegisteringIsSound(disk, intent, name);
        var alive := Put(disk.(materials := Some(Register(disk.materials.value, name, disk.staging[name].identity))));
        if !alive { return Crashed; }
      }
      r := Done;
    }

    /** One planned package: its file is opened, then its bytes are copied. */
    method PrepareApk(name: Apk, source: Bytes) returns (r: Outcome)
      requires Valid() && Copying(disk, intent) && name in disk.materials.value.files
      modifies this
      ensures Valid() && Copying(disk, intent) && OnlyTouches(old(disk), disk, name)
      ensures r == Done ==> Copied(disk, intent, name) && source == intent[name].body
      ensures name in intent && (r == Failed ==> source != intent[name].body)
      ensures if r == Crashed then old(budget) < ApkEffects(intent, name) else old(budget) <= budget + ApkEffects(intent, name)
      ensures r != Refused
    {
      hide Sound;
      RecordedAreKnown(disk, intent, name);
      r := OpenApk(name);
      if r == Done { r := CopyApk(name, source); }
    }

    /** `prepare_recovery_materials`: `sources` are the packages as they are checked, `copies` as they are copied.
        Whatever happens, the copies can be prepared by a later call; with enough effects left this one does it. */
    method Prepare(sources: map<Apk, Bytes>, copies: map<Apk, Bytes>) returns (r: Outcome)
      requires Valid() && Recreatable() <= sources.Keys && Recreatable() <= copies.Keys
      modifies this
      ensures Valid() && (MayPrepare(disk) <==> MayPrepare(old(disk)))
      ensures r == Done ==> StageStatus(disk, intent, true) == Some(ApksPrepared)
                            && forall name :: name in Recreatable() ==> name in disk.staging && disk.staging[name].body == intent[name].body
      ensures r == Refused <==> !MayPrepare(old(disk)) || Differs(old(disk), intent, sources)
      ensures r == Refused ==> disk == old(disk)
      ensures (r == Failed ==> Differs(old(disk), intent, copies)) && (r == Done ==> !Differs(old(disk), intent, copies))
      ensures r == Crashed ==> old(budget) < PrepareEffects(intent, |NAMES|)
    {
      hide Sound, StageStatus, MaterialsOk, EntryOk;
      SoundHasStatus(disk, intent);
      var status := ReadStageStatus(true);
      if !(status.Some? && status.value in {DiscardIntentUncommitted, StagedDiscardIncomplete, DiscardStateUncommitted, StagedDiscarded, CopyIncomplete, ApksPrepared}) {
        NotPreparable(disk, intent);
        return Refused;
      }
      HasDiscard(disk, intent);
      if disk.materials.Some? && disk.materials.value.state.Prepared? {
        AlreadyPrepared(disk, intent);
        return Done;
      }
      if disk.materials.Some? && !disk.materials.value.state.Preparing? { return Refused; }
      var planned := Planned(disk);
      PlannedAreRecreatable(disk, intent);
      if !Same(planned, intent, sources) { return Refused; }
      if disk.materials.None? {
        RecordingIsSound(disk, intent);
        var alive := Put(disk.(materials := Some(FirstRecord(planned))));
        if !alive { return Crashed; }
      }
      r := CopyPlanned(copies);
    }

    /** The packages of the record one after the other, and the record that ends them. */
    method CopyPlanned(copies: map<Apk, Bytes>) returns (r: Outcome)
      requires Valid() && Copying(disk, intent) && disk.discard.Some? && Recreatable() <= copies.Keys
      modifies this
      ensures Valid() && MayPrepare(disk) && r != Refused
      ensures r == Done ==> StageStatus(disk, intent, true) == Some(ApksPrepared) && Same(old(disk).materials.value.files.Keys, intent, copies)
                            && forall name :: name in Recreatable() ==> name in disk.staging && disk.staging[name].body == intent[name].body
      ensures r == Failed ==> !Same(old(disk).materials.value.files.Keys, intent, copies)
      ensures r == Crashed ==> old(budget) + 1 < PrepareEffects(intent, |NAMES|)
    {
      hide Sound, StageStatus, MaterialsOk, EntryOk;
      var planned := disk.materials.value.files.Keys;
      PlannedAreRecreatable(disk, intent);
      for i := 0 to |NAMES|
        invariant Valid() && Copying(disk, intent) && disk.materials.value.files.Keys == planned && disk.discard == old(disk).discard
        invariant old(budget) + 2 <= budget + PrepareEffects(intent, i)
        invariant forall k :: 0 <= k < i && NAMES[k] in planned ==> Copied(disk, intent, NAMES[k]) && copies[NAMES[k]] == intent[NAMES[k]].body
      {
        if NAMES[i] in planned {
          ghost var before := disk;
          r := PrepareApk(NAMES[i], copies[NAMES[i]]);
          if r != Done { MoreEffects(intent, i + 1); return; }
          OthersStayCopied(before, disk, intent, i);
        }
      }
      AllCopied(disk, intent);
      FinishingIsSound(disk, intent);
      ghost var finished := disk.(materials := Some(Finish(disk.materials.value)));
      BothExact(finished, intent);
      var alive := Put(disk.(materials := Some(Finish(disk.materials.value))));
      assert NAMES[0] == Original && NAMES[1] == Helper;
      r := if alive then Done else Crashed;
    }

    // -------------------------------------------------------------------------------------------
    // Discarding
    // -------------------------------------------------------------------------------------------

    /** The staged files are removed, each checked just before. */
    method RemoveStaged() returns (r: Outcome)
      requires Valid() && Dropping(disk, intent)
      modifies this`disk, this`budget
      ensures Valid() && Dropping(disk, intent) && disk.materials == old(disk).materials && disk.discard == old(disk).discard
      ensures r == Done || r == Crashed
      ensures r == Done ==> disk.staging == map[] && old(budget) - budget <= 3
      ensures r == Crashed ==> old(budget) < 3 && budget == 0
    {
      hide Sound, Dropping;
      for i := 0 to |APK_NAMES|
        invariant Valid() && Dropping(disk, intent) && disk.materials == old(disk).materials && disk.discard == old(disk).discard
        invariant disk.staging == old(disk).staging - (set k | 0 <= k < i :: APK_NAMES[k]) && budget <= old(budget) <= budget + i
      {
        var name := APK_NAMES[i];
        assert (set k | 0 <= k < i + 1 :: APK_NAMES[k]) == (set k | 0 <= k < i :: APK_NAMES[k]) + {name};
        if name in disk.staging {
          RemovedIsExpected(disk, intent, name);
          var identity := if disk.materials.Some? && name in disk.materials.value.files then disk.materials.value.files[name] else Some(intent[name].identity);
          if identity != Some(disk.staging[name].identity) || disk.staging[name].body != intent[name].body { return Failed; }
          RemovingIsSound(disk, intent, name);
          var alive := Put(disk.(staging := disk.staging - {name}));
          if !alive { return Crashed; }
        }
      }
      NothingStaged(old(disk), intent);
      r := Done;
    }

    /** `_Session.discard`, which may be repeated after a crash. */
    method Discard() returns (r: Outcome)
      requires Valid()
      modifies this`disk, this`budget
      ensures Valid()
      ensures r == Done ==> StageStatus(disk, intent, true) == Some(StagedDiscarded) && disk.staging == map[]
      ensures r == Refused <==> NotDiscardable(old(disk), intent)
      ensures r == Refused ==> disk == old(disk)
      ensures r == Crashed ==> old(budget) < 9 && !NotDiscardable(disk, intent)
      ensures r != Failed
    {
      hide Sound, StageStatus, MaterialsOk, Dropping;
      SoundHasStatus(disk, intent);
      var status := ReadStageStatus(true);
      var s := status.value;
      StatusMeans(disk, intent);
      if s == StagedDiscarded { return Done; }
      if !(s in {StagedPrepared, DiscardIntentUncommitted, StagedDiscardIncomplete, DiscardStateUncommitted, ApksPrepared}) { return Refused; }
      var alive;
      if s == StagedPrepared {
        IntendingIsSound(disk, intent);
        alive := Put(disk.(discard := Some(DiscardPending)));
        if !alive { return Crashed; }
      }
      Discardable(disk, intent);
      StagingIsSound(disk, intent);
      Discardable(disk.(stage := StageDiscarding), intent);
      alive := Put(disk.(stage := StageDiscarding));
      if !alive { return Crashed; }
      if disk.materials.Some? && disk.materials.value.state.Prepared? {
        DroppingIsSound(disk, intent);
        alive := Put(disk.(materials := Some(disk.materials.value.(state := Discarding))));
        if !alive { return Crashed; }
      }
      NowDropping(disk, intent);
      r := RemoveStaged();
      Discardable(disk, intent);
      if r != Done { return; }
      EmptyingIsSound(disk, intent);
      if disk.materials.Some? {
        DroppingIsSoundState(disk.(materials := Some(disk.materials.value.(state := Discarded))), intent);
        alive := Put(disk.(materials := Some(disk.materials.value.(state := Discarded))));
        if !alive { return Crashed; }
        EmptyingIsSound(disk, intent);
        Discardable(disk, intent);
      }
      DroppingIsSoundState(disk.(discard := Some(DiscardDone)), intent);
      alive := Put(disk.(discard := Some(DiscardDone)));
      if !alive { return Crashed; }
      EmptyingIsSound(disk, intent);
      Discardable(disk, intent);
      alive := Put(disk.(stage := StageDiscarded));
      r := if alive then Done else Crashed;
    }

    // -------------------------------------------------------------------------------------------
    // Through any number of crashes
    // -------------------------------------------------------------------------------------------

    /** However often preparing has crashed, failed or been refused, an attempt with the right packages and enough
        effects ends with both of them staged byte for byte. */
    method PrepareThroughCrashes(attempts: seq<Attempt>) returns (r: Outcome)
      requires Valid() && MayPrepare(disk) && attempts != []
      requires forall k :: 0 <= k < |attempts| ==> attempts[k].Complete()
      modifies this
      ensures Valid() && MayPrepare(disk)
      ensures var last := attempts[|attempts| - 1];
              last.effects >= PrepareEffects(intent, |NAMES|) && last.Genuine(intent) ==>
                r == Done && StageStatus(disk, intent, true) == Some(ApksPrepared)
                && forall name :: name in Recreatable() ==> name in disk.staging && disk.staging[name].body == intent[name].body
    {
      r := Refused;
      for i := 0 to |attempts|
        invariant Valid() && MayPrepare(disk)
        invariant i == |attempts| && attempts[i - 1].effects >= PrepareEffects(intent, |NAMES|) && attempts[i - 1].Genuine(intent) ==>
                    r == Done && StageStatus(disk, intent, true) == Some(ApksPrepared)
                    && forall name :: name in Recreatable() ==> name in disk.staging && disk.staging[name].body == intent[name].body
      {
        hide Sound, StageStatus, MayPrepare;
        Restart(attempts[i].effects);
        if attempts[i].Genuine(intent) { GenuineAgrees(disk, intent, attempts[i]); }
        r := Prepare(attempts[i].sources, attempts[i].copies);
      }
    }

    /** A discard that is not refused is never refused afterwards: repeated through any crashes, it ends when it has
        nine effects left. */
    method DiscardThroughCrashes(crashes: seq<nat>) returns (r: Outcome)
      requires Valid() && !NotDiscardable(disk, intent) && crashes != []
      modifies this
      ensures Valid() && !NotDiscardable(disk, intent)
      ensures crashes[|crashes| - 1] >= 9 ==>
                r == Done && StageStatus(disk, intent, true) == Some(StagedDiscarded) && disk.staging == map[]
    {
      r := Refused;
      for i := 0 to |crashes|
        invariant Valid() && !NotDiscardable(disk, intent)
        invariant i == |crashes| && crashes[i - 1] >= 9 ==>
                    r == Done && StageStatus(disk, intent, true) == Some(StagedDiscarded) && disk.staging == map[]
      {
        hide Sound, StageStatus;
        Restart(crashes[i]);
        r := Discard();
      }
    }
  }

  /** One call of `prepare_recovery_materials` in a process that lives for so many effects. */
  datatype Attempt = Attempt(sources: map<Apk, Bytes>, copies: map<Apk, Bytes>, effects: nat) {
    predicate Complete() {
      Recreatable() <= sources.Keys && Recreatable() <= copies.Keys
    }

    /** The packages offered are those the operation was admitted with. */
    predicate Genuine(intent: Intent)
      requires Complete()
    {
      forall name :: name in Recreatable() && name in intent ==> sources[name] == copies[name] == intent[name].body
    }
  }

  /** The effects of preparing one package, and of starting a record, preparing the first `count` packages and
      finishing the record. */
  function ApkEffects(intent: Intent, name: Apk): nat
    requires name in intent
  {
    3 + |intent[name].body|
  }

  function PrepareEffects(intent: Intent, count: nat): nat
    requires count <= |NAMES|
  {
    if count == 0 then 2
    else PrepareEffects(intent, count - 1) + if NAMES[count - 1] in intent then ApkEffects(intent, NAMES[count - 1]) else 0
  }

  lemma {:induction false} MoreEffects(intent: Intent, count: nat)
    requires count <= |NAMES|
    ensures PrepareEffects(intent, count) <= PrepareEffects(intent, |NAMES|)
    decreases |NAMES| - count
  {
    if count < |NAMES| { MoreEffects(intent, count + 1); }
  }

  /** A package that is still to be copied is not the admitted one. */
  predicate Differs(d: Disk, intent: Intent, packages: map<Apk, Bytes>) {
    !(d.materials.Some? && d.materials.value.state.Prepared?) && !Same(Planned(d), intent, packages)
  }

  /** The packages of these names are the admitted ones. */
  predicate Same(names: set<Apk>, intent: Intent, packages: map<Apk, Bytes>) {
    forall name :: name in names && name in intent && name in packages ==> packages[name] == intent[name].body
  }

  lemma GenuineAgrees(d: Disk, intent: Intent, a: Attempt)
    requires Sound(d, intent) && a.Complete() && a.Genuine(intent)
    ensures !Differs(d, intent, a.sources) && !Differs(d, intent, a.copies)
  {
    PlannedAreRecreatable(d, intent);
  }

  /** The states of a disk in which a discard is refused. */
  predicate NotDiscardable(d: Disk, intent: Intent)
    requires intent.Keys == AllNames()
  {
    StageStatus(d, intent, true) in {Some(StagingIncomplete), Some(CopyIncomplete)}
  }

  lemma Discardable(d: Disk, intent: Intent)
    requires Sound(d, intent) && (MayDiscard(d) || Dropping(d, intent))
    ensures !NotDiscardable(d, intent)
  {
  }

  /** A disk on which preparing copies may start or go on. */
  predicate MayPrepare(d: Disk) {
    d.discard.Some? && (d.materials.Some? ==> d.materials.value.state.Preparing? || d.materials.value.state.Prepared?)
  }

  /** Only the file and the recorded identity of one package differ. */
  predicate OnlyTouches(before: Disk, after: Disk, name: Apk) {
    && after.stage == before.stage && after.discard == before.discard && before.materials.Some? && after.materials.Some?
    && after.materials.value.files.Keys == before.materials.value.files.Keys
    && before.staging.Keys <= after.staging.Keys
    && (forall x :: x in before.staging && x != name ==> after.staging[x] == before.staging[x])
    && (forall x :: x in before.materials.value.files && x != name ==> after.materials.value.files[x] == before.materials.value.files[x])
  }

  lemma SoundHasStatus(d: Disk, intent: Intent)
    requires Sound(d, intent)
    ensures intent.Keys == AllNames() && StageStatus(d, intent, true).Some?
  {
  }

  lemma RecordedAreKnown(d: Disk, intent: Intent, name: Apk)
    requires Copying(d, intent) && name in d.materials.value.files
    ensures name in intent && (d.materials.value.files[name].Some? ==> name in d.staging)
  {
    assert EntryOk(d.materials.value, d.staging, intent, name, true);
  }

  lemma RecordedIdentity(d: Disk, intent: Intent, name: Apk)
    requires Copying(d, intent) && name in d.materials.value.files && name in d.staging
    ensures d.materials.value.files[name].Some? ==> d.materials.value.files[name] == Some(d.staging[name].identity)
  {
    assert EntryOk(d.materials.value, d.staging, intent, name, true);
  }

  lemma NotPreparable(d: Disk, intent: Intent)
    requires Sound(d, intent)
    requires StageStatus(d, intent, true).value !in {DiscardIntentUncommitted, StagedDiscardIncomplete, DiscardStateUncommitted, StagedDiscarded, CopyIncomplete, ApksPrepared}
    ensures !MayPrepare(d)
  {
  }

  lemma AlreadyPrepared(d: Disk, intent: Intent)
    requires Sound(d, intent) && d.materials.Some? && d.materials.value.state.Prepared?
    ensures StageStatus(d, intent, true) == Some(ApksPrepared)
    ensures forall name :: name in Recreatable() ==> name in d.staging && d.staging[name].body == intent[name].body
  {
    BothExact(d, intent);
  }

  lemma BothExact(d: Disk, intent: Intent)
    requires Sound(d, intent) && StageStatus(d, intent, true) == Some(ApksPrepared)
    ensures forall name :: name in Recreatable() ==> name in d.staging && d.staging[name].body == intent[name].body
  {
    forall name | name in Recreatable() ensures name in d.staging && d.staging[name].body == intent[name].body { PreparedIsExact(d, intent, name); }
  }

  lemma PlannedAreRecreatable(d: Disk, intent: Intent)
    requires Sound(d, intent)
    ensures Planned(d) <= Recreatable() <= intent.Keys
  {
  }

  lemma HasDiscard(d: Disk, intent: Intent)
    requires Sound(d, intent)
    requires StageStatus(d, intent, true).value in {DiscardIntentUncommitted, StagedDiscardIncomplete, DiscardStateUncommitted, StagedDiscarded, CopyIncomplete, ApksPrepared}
    ensures d.discard.Some?
  {
  }

  lemma OthersStayCopied(before: Disk, after: Disk, intent: Intent, i: nat)
    requires i < |NAMES| && OnlyTouches(before, after, NAMES[i]) && Copied(after, intent, NAMES[i])
    requires forall k :: 0 <= k < i && NAMES[k] in before.materials.value.files ==> Copied(before, intent, NAMES[k])
    ensures forall k :: 0 <= k <= i && NAMES[k] in before.materials.value.files ==> Copied(after, intent, NAMES[k])
  {
    forall k | 0 <= k < i && NAMES[k] in before.materials.value.files ensures Copied(after, intent, NAMES[k]) {
      assert NAMES[0] != NAMES[1];
      assert Copied(before, intent, NAMES[k]);
    }
  }

  lemma AllCopied(d: Disk, intent: Intent)
    requires Copying(d, intent)
    requires forall k :: 0 <= k < |NAMES| && NAMES[k] in d.materials.value.files ==> Copied(d, intent, NAMES[k])
    ensures forall name :: name in d.materials.value.files ==> Copied(d, intent, name)
  {
    assert NAMES[0] == Original && NAMES[1] == Helper;
    assert d.materials.value.files.Keys <= Recreatable();
  }

  lemma NothingStaged(d: Disk, intent: Intent)
    requires Sound(d, intent)
    ensures d.staging - (set k | 0 <= k < |APK_NAMES| :: APK_NAMES[k]) == map[]
  {
    assert APK_NAMES[0] == Candidate && APK_NAMES[1] == Original && APK_NAMES[2] == Helper;
    assert d.staging.Keys <= AllNames();
  }

  lemma StatusMeans(d: Disk, intent: Intent)
    requires Sound(d, intent)
    ensures var s := StageStatus(d, intent, true).value;
            && (s == StagedDiscarded ==> d.staging == map[])
            && (s in {DiscardIntentUncommitted, StagedDiscardIncomplete, DiscardStateUncommitted, ApksPrepared} ==> MayDiscard(d))
            && (s == StagedPrepared ==> d.materials.None?)
  {
  }

  lemma NowDropping(d: Disk, intent: Intent)
    requires Sound(d, intent) && MayDiscard(d) && d.stage.StageDiscarding?
    requires d.materials.Some? ==> !d.materials.value.state.Prepared?
    ensures Dropping(d, intent)
  {
  }

  lemma DroppingIsSoundState(d: Disk, intent: Intent)
    requires Dropping(d, intent)
    ensures Sound(d, intent)
  {
  }
}
