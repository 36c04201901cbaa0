/** The records and the staged files that recovery works on: which of them are accepted at which stage, and what
    every single effect does to them.  A digest is the body it is taken of; a file identity is a number. */
module RecoveryMaterials {
  import opened Wrappers
  import opened Binary

  datatype Apk = Candidate | Original | Helper | Foreign(name: string)

  /** The staged packages, and those that recovery may recreate. */
  const APK_NAMES: seq<Apk> := [Candidate, Original, Helper]
  const NAMES: seq<Apk> := [Original, Helper]

  function AllNames(): set<Apk> {
    {Candidate, Original, Helper}
  }

  function Recreatable(): set<Apk> {
    {Original, Helper}
  }

  datatype StagedFile = StagedFile(identity: nat, body: Bytes)

  type Staging = map<Apk, StagedFile>

  /** The files the operation was admitted with. */
  type Intent = map<Apk, StagedFile>

  datatype MaterialsState = Preparing | Prepared | Discarding | Discarded

  /** The recovery record; `digest` stands for the digest of everything else in it but the state. */
  datatype Materials = Materials(state: MaterialsState, files: map<Apk, Option<nat>>, digest: Option<map<Apk, Option<nat>>>)

  datatype Stage = StageEmpty | StagePrepared | StageDiscarding | StageDiscarded

  datatype Discard = DiscardPending | DiscardDone

  datatype Disk = Disk(stage: Stage, discard: Option<Discard>, materials: Option<Materials>, staging: Staging)

  datatype Status =
    | StagingIncomplete | StagedPrepared | DiscardIntentUncommitted | StagedDiscardIncomplete | DiscardStateUncommitted
    | StagedDiscarded | CopyIncomplete | ApksPrepared

  predicate IntentOk(intent: Intent) {
    intent.Keys == AllNames() && forall name :: name in intent ==> intent[name].body != []
  }

  // ---------------------------------------------------------------------------------------------
  // The recovery record
  // ---------------------------------------------------------------------------------------------

  predicate AllRegistered(files: map<Apk, Option<nat>>) {
    forall name :: name in files ==> files[name].Some?
  }

  predicate HeadOk(m: Materials) {
    && m.files.Keys <= Recreatable()
    && (if m.state.Preparing? then m.digest.None? else AllRegistered(m.files) && m.digest == Some(m.files))
  }

  /** A recorded file on disk: empty until its identity is recorded, within its size while it is copied, and
      afterwards exact. */
  predicate FileOk(m: Materials, identity: Option<nat>, file: StagedFile, expected: StagedFile, full: bool) {
    match identity
    case None => m.state.Preparing? && file.body == []
    case Some(id) =>
      && file.identity == id
      && (if m.state.Preparing? then |file.body| <= |expected.body|
          else |file.body| == |expected.body| && (full ==> file.body == expected.body))
  }

  /** A recorded file may be missing before its creation and once it is to be discarded. */
  predicate EntryOk(m: Materials, staging: Staging, intent: Intent, name: Apk, full: bool)
    requires name in m.files && name in intent
  {
    if name in staging then FileOk(m, m.files[name], staging[name], intent[name], full)
    else m.state.Discarding? || m.state.Discarded? || (m.state.Preparing? && m.files[name].None?)
  }

  /** `validate_materials`. */
  predicate MaterialsOk(d: Disk, intent: Intent, full: bool)
    requires intent.Keys == AllNames()
  {
    d.materials.None? ||
    var m := d.materials.value;
    && HeadOk(m) && d.discard.Some? && d.staging.Keys <= AllNames()
    && (m.state.Prepared? ==> Recreatable() <= d.staging.Keys)
    && (m.state.Discarded? ==> m.files.Keys !! d.staging.Keys)
    && forall name :: name in m.files ==> EntryOk(m, d.staging, intent, name, full)
  }

  // ---------------------------------------------------------------------------------------------
  // The stage
  // ---------------------------------------------------------------------------------------------

  function Recreated(d: Disk): set<Apk> {
    if d.materials.Some? then d.materials.value.files.Keys else {}
  }

  /** A file that recovery has not recreated is the admitted one, complete once the stage is. */
  predicate OriginalOk(d: Disk, intent: Intent, name: Apk, full: bool)
    requires name in d.staging && name in intent
  {
    var file, expected := d.staging[name], intent[name];
    && file.identity == expected.identity && |file.body| <= |expected.body|
    && (d.stage != StageEmpty || d.discard.Some? ==> file.body == expected.body)
    && (full && |file.body| == |expected.body| ==> file.body == expected.body)
  }

  /** The names are those the stage calls for, and the files that are not recreated are the admitted ones. */
  predicate StagedOk(d: Disk, intent: Intent, full: bool)
    requires intent.Keys == AllNames()
  {
    && (if (d.stage.StageEmpty? || d.stage.StagePrepared?) && d.discard.None? then d.staging.Keys == AllNames()
        else d.discard.Some? && d.staging.Keys <= AllNames())
    && forall name :: name in d.staging && name !in Recreated(d) ==> OriginalOk(d, intent, name, full)
  }

  /** `_stage_status`. */
  function StageStatus(d: Disk, intent: Intent, full: bool): Option<Status>
    requires intent.Keys == AllNames()
  {
    if !MaterialsOk(d, intent, full) || !StagedOk(d, intent, full) then None
    else if d.materials.Some? && d.materials.value.state.Preparing? then Some(CopyIncomplete)
    else if d.materials.Some? && d.materials.value.state.Prepared? then Some(ApksPrepared)
    else if d.discard.None? then Some(if d.stage.StagePrepared? then StagedPrepared else StagingIncomplete)
    else if d.stage.StagePrepared? then Some(DiscardIntentUncommitted)
    else if d.stage.StageDiscarding? then Some(if d.discard.value.DiscardDone? then DiscardStateUncommitted else StagedDiscardIncomplete)
    else if d.stage.StageDiscarded? && d.discard.value.DiscardDone? && d.staging == map[] then Some(StagedDiscarded)
    else None
  }

  /** While copies are being prepared, every package that can be recreated is recorded or still staged. */
  predicate Covered(d: Disk) {
    d.materials.Some? && d.materials.value.state.Preparing? ==> Recreatable() <= d.materials.value.files.Keys + d.staging.Keys
  }

  /** The state every crash point leaves. */
  predicate Sound(d: Disk, intent: Intent) {
    IntentOk(intent) && StageStatus(d, intent, true).Some? && Covered(d)
  }

  /** Every staged file is the one expected there, byte for byte: the recreated one under the identity recorded for
      it, or the admitted one. */
  predicate Exact(d: Disk, intent: Intent) {
    forall name :: name in d.staging ==>
      && name in intent && d.staging[name].body == intent[name].body
      && (if name in Recreated(d) then d.materials.value.files[name] == Some(d.staging[name].identity)
          else d.staging[name].identity == intent[name].identity)
  }

  /** Between the intent to discard and its end only expected files are left; none of those that recovery recreated
      is left once its record says so. */
  predicate Thinning(d: Disk, intent: Intent) {
    && d.discard.Some? && Exact(d, intent)
    && (d.materials.Some? ==>
          var m := d.materials.value;
          && HeadOk(m) && (m.state.Discarding? || m.state.Discarded?)
          && (m.state.Discarded? ==> m.files.Keys !! d.staging.Keys))
  }

  /** What is on disk in each status. */
  predicate Describes(d: Disk, intent: Intent, s: Status) {
    match s
    case StagingIncomplete =>
      && d.stage.StageEmpty? && d.discard.None? && d.materials.None? && d.staging.Keys == intent.Keys
      && forall name :: name in d.staging ==>
           d.staging[name].identity == intent[name].identity
           && (|d.staging[name].body| < |intent[name].body| || d.staging[name] == intent[name])
    case StagedPrepared => d == Disk(StagePrepared, None, None, intent)
    case DiscardIntentUncommitted => d.stage.StagePrepared? && Thinning(d, intent)
    case StagedDiscardIncomplete => d.stage.StageDiscarding? && d.discard == Some(DiscardPending) && Thinning(d, intent)
    case DiscardStateUncommitted => d.stage.StageDiscarding? && d.discard == Some(DiscardDone) && Thinning(d, intent)
    case StagedDiscarded => d.stage.StageDiscarded? && d.discard == Some(DiscardDone) && d.staging == map[] && Thinning(d, intent)
    case CopyIncomplete =>
      && d.discard.Some? && d.materials.Some? && d.materials.value.state.Preparing? && HeadOk(d.materials.value)
      && Exact(d.(staging := d.staging - Recreated(d)), intent)
      && forall name :: name in Recreated(d) ==>
           (match d.materials.value.files[name]
            case None => name in d.staging ==> d.staging[name].body == []
            case Some(id) => name in d.staging && name in intent && d.staging[name].identity == id && |d.staging[name].body| <= |intent[name].body|)
    case ApksPrepared =>
      && d.discard.Some? && d.materials.Some? && d.materials.value.state.Prepared? && HeadOk(d.materials.value)
      && Recreatable() <= d.staging.Keys && Exact(d, intent)
  }

  /** Outside the copying of files, the record and the files are accepted exactly when every file is the expected one. */
  lemma AcceptedIsExact(d: Disk, intent: Intent)
    requires IntentOk(intent) && (d.discard.Some? || d.stage != StageEmpty)
    requires d.materials.Some? ==> d.discard.Some? && HeadOk(d.materials.value) && !d.materials.value.state.Preparing?
    requires d.materials.Some? && d.materials.value.state.Prepared? ==> Recreatable() <= d.staging.Keys
    ensures (d.staging.Keys <= AllNames()
             && (d.materials.Some? ==> forall name :: name in d.materials.value.files ==> EntryOk(d.materials.value, d.staging, intent, name, true))
             && forall name :: name in d.staging && name !in Recreated(d) ==> OriginalOk(d, intent, name, true))
            <==> Exact(d, intent)
  {
    if Exact(d, intent) {
      if d.materials.Some? {
        forall name | name in d.materials.value.files ensures EntryOk(d.materials.value, d.staging, intent, name, true) {
          assert d.materials.value.files[name].Some?;
        }
      }
    } else {
      var name :| name in d.staging
        && !(name in intent && d.staging[name].body == intent[name].body
             && (if name in Recreated(d) then d.materials.value.files[name] == Some(d.staging[name].identity)
                 else d.staging[name].identity == intent[name].identity));
      if name in intent && name in Recreated(d) { assert !EntryOk(d.materials.value, d.staging, intent, name, true); }
      if name in intent && name !in Recreated(d) { assert !OriginalOk(d, intent, name, true); }
    }
  }

  lemma WhileCopying(d: Disk, intent: Intent)
    requires IntentOk(intent) && d.materials.Some? && d.materials.value.state.Preparing?
    ensures StageStatus(d, intent, true) == Some(CopyIncomplete) <==> Describes(d, intent, CopyIncomplete)
    ensures StageStatus(d, intent, true) in {None, Some(CopyIncomplete)}
  {
    var rest := d.(staging := d.staging - Recreated(d));
    if StageStatus(d, intent, true).Some? {
      forall name | name in rest.staging ensures name in intent && rest.staging[name] == intent[name] {
        assert OriginalOk(d, intent, name, true);
      }
      forall name | name in Recreated(d) ensures EntryOk(d.materials.value, d.staging, intent, name, true) { }
    }
    if Describes(d, intent, CopyIncomplete) {
      forall name | name in d.staging ensures name in intent && (name !in Recreated(d) ==> OriginalOk(d, intent, name, true)) {
        if name !in Recreated(d) { assert name in rest.staging; }
      }
      forall name | name in Recreated(d) ensures EntryOk(d.materials.value, d.staging, intent, name, true) { }
    }
  }

  lemma WhileStaging(d: Disk, intent: Intent)
    requires IntentOk(intent) && d.discard.None? && d.stage.StageEmpty?
    ensures StageStatus(d, intent, true) == Some(StagingIncomplete) <==> Describes(d, intent, StagingIncomplete)
    ensures StageStatus(d, intent, true) in {None, Some(StagingIncomplete)}
  {
    if StageStatus(d, intent, true).Some? {
      forall name | name in d.staging ensures d.staging[name].identity == intent[name].identity
                                        && (|d.staging[name].body| < |intent[name].body| || d.staging[name] == intent[name]) {
        assert OriginalOk(d, intent, name, true);
      }
    }
  }

  lemma UntouchedIsIntent(d: Disk, intent: Intent)
    requires IntentOk(intent) && d.materials.None? && d.staging.Keys == AllNames()
    ensures Exact(d, intent) <==> d.staging == intent
  {
  }

  /** The status found tells exactly what is on disk; whatever no status describes is refused. */
  lemma StatusTells(d: Disk, intent: Intent, s: Status)
    requires IntentOk(intent)
    ensures StageStatus(d, intent, true) == Some(s) <==> Describes(d, intent, s)
  {
    hide Exact, EntryOk, OriginalOk;
    if d.materials.Some? && d.materials.value.state.Preparing? {
      WhileCopying(d, intent);
    } else if d.discard.Some? || d.stage != StageEmpty {
      if (d.materials.Some? ==> d.discard.Some? && HeadOk(d.materials.value))
         && (d.materials.Some? && d.materials.value.state.Prepared? ==> Recreatable() <= d.staging.Keys) {
        AcceptedIsExact(d, intent);
        if d.materials.None? && d.staging.Keys == AllNames() { UntouchedIsIntent(d, intent); }
      }
    } else {
      WhileStaging(d, intent);
    }
  }

  /** `expected_apk`: what a consumer must find under a name. */
  function ExpectedApk(d: Disk, intent: Intent, name: Apk): Option<StagedFile>
    requires intent.Keys == AllNames()
  {
    if name !in intent || !MaterialsOk(d, intent, false) then None
    else if d.materials.Some? && name in d.materials.value.files then
      if d.materials.value.state.Prepared? then Some(StagedFile(d.materials.value.files[name].value, intent[name].body)) else None
    else Some(intent[name])
  }

  // ---------------------------------------------------------------------------------------------
  // Copying
  // ---------------------------------------------------------------------------------------------

  /** Copies of the planned packages are being prepared. */
  predicate Copying(d: Disk, intent: Intent) {
    Sound(d, intent) && d.materials.Some? && d.materials.value.state.Preparing?
  }

  function FirstRecord(planned: set<Apk>): Materials {
    Materials(Preparing, map name | name in planned :: None, None)
  }

  function Planned(d: Disk): set<Apk> {
    if d.materials.Some? then d.materials.value.files.Keys else Recreatable() - d.staging.Keys
  }

  lemma RecordingIsSound(d: Disk, intent: Intent)
    requires Sound(d, intent) && d.materials.None? && d.discard.Some?
    ensures Copying(d.(materials := Some(FirstRecord(Planned(d)))), intent)
  {
  }

  lemma CreatingIsSound(d: Disk, intent: Intent, name: Apk, identity: nat)
    requires Copying(d, intent) && name in d.materials.value.files && d.materials.value.files[name].None? && name !in d.staging
    ensures Copying(d.(staging := d.staging[name := StagedFile(identity, [])]), intent)
  {
    var m, t := d.materials.value, d.(staging := d.staging[name := StagedFile(identity, [])]);
    forall x | x in m.files ensures EntryOk(m, t.staging, intent, x, true) { assert EntryOk(m, d.staging, intent, x, true); }
    forall x | x in t.staging && x !in Recreated(t) ensures OriginalOk(t, intent, x, true) { assert OriginalOk(d, intent, x, true); }
  }

  function Register(m: Materials, name: Apk, identity: nat): Materials {
    m.(files := m.files[name := Some(identity)])
  }

  lemma RegisteringIsSound(d: Disk, intent: Intent, name: Apk)
    requires Copying(d, intent) && name in d.materials.value.files && d.materials.value.files[name].None? && name in d.staging
    ensures d.staging[name].body == []
    ensures Copying(d.(materials := Some(Register(d.materials.value, name, d.staging[name].identity))), intent)
  {
    var m := d.materials.value;
    var t := d.(materials := Some(Register(m, name, d.staging[name].identity)));
    assert t.materials.value.files.Keys == m.files.Keys;
    forall x | x in m.files ensures EntryOk(t.materials.value, t.staging, intent, x, true) { assert EntryOk(m, d.staging, intent, x, true); }
    forall x | x in t.staging && x !in Recreated(t) ensures OriginalOk(t, intent, x, true) { assert OriginalOk(d, intent, x, true); }
  }

  /** Bytes may go into a file whose identity is recorded, up to its size. */
  lemma WritingIsSound(d: Disk, intent: Intent, name: Apk, body: Bytes)
    requires Copying(d, intent) && name in d.materials.value.files && name in d.staging
    requires d.materials.value.files[name] == Some(d.staging[name].identity) && name in intent && |body| <= |intent[name].body|
    ensures Copying(d.(staging := d.staging[name := d.staging[name].(body := body)]), intent)
  {
    var m, t := d.materials.value, d.(staging := d.staging[name := d.staging[name].(body := body)]);
    assert t.staging.Keys == d.staging.Keys;
    forall x | x in m.files ensures EntryOk(m, t.staging, intent, x, true) { assert EntryOk(m, d.staging, intent, x, true); }
    forall x | x in t.staging && x !in Recreated(t) ensures OriginalOk(t, intent, x, true) { assert OriginalOk(d, intent, x, true); }
  }

  function Finish(m: Materials): Materials {
    m.(state := Prepared, digest := Some(m.files))
  }

  /** A recorded package is complete. */
  predicate Copied(d: Disk, intent: Intent, name: Apk) {
    && d.materials.Some? && name in d.materials.value.files && name in d.staging && name in intent
    && d.materials.value.files[name] == Some(d.staging[name].identity) && d.staging[name].body == intent[name].body
  }

  lemma FinishingIsSound(d: Disk, intent: Intent)
    requires Copying(d, intent) && forall name :: name in d.materials.value.files ==> Copied(d, intent, name)
    ensures Sound(d.(materials := Some(Finish(d.materials.value))), intent)
    ensures StageStatus(d.(materials := Some(Finish(d.materials.value))), intent, true) == Some(ApksPrepared)
  {
    var m, t := d.materials.value, d.(materials := Some(Finish(d.materials.value)));
    forall x | x in m.files ensures EntryOk(Finish(m), t.staging, intent, x, true) && m.files[x].Some? { assert Copied(d, intent, x); }
    forall x | x in t.staging && x !in Recreated(t) ensures OriginalOk(t, intent, x, true) { assert OriginalOk(d, intent, x, true); }
    forall x | x in Recreatable() ensures x in t.staging { if x in m.files { assert Copied(d, intent, x); } }
  }

  /** What a consumer is told to expect is what is staged. */
  lemma ExpectedIsStaged(d: Disk, intent: Intent, name: Apk)
    requires Sound(d, intent) && name in d.staging && ExpectedApk(d, intent, name).Some?
    requires d.stage != StageEmpty || d.discard.Some?
    ensures d.staging[name] == ExpectedApk(d, intent, name).value
  {
    if d.materials.Some? && name in d.materials.value.files {
      assert EntryOk(d.materials.value, d.staging, intent, name, true);
    } else {
      assert OriginalOk(d, intent, name, true);
    }
  }

  /** Which file is expected is told without reading the bytes of any: it depends on identities and lengths alone. */
  lemma ExpectationReadsNoBytes(d: Disk, e: Disk, intent: Intent, name: Apk)
    requires IntentOk(intent) && e == d.(staging := e.staging) && e.staging.Keys == d.staging.Keys
    requires forall x :: x in d.staging ==> e.staging[x].identity == d.staging[x].identity && |e.staging[x].body| == |d.staging[x].body|
    ensures ExpectedApk(d, intent, name) == ExpectedApk(e, intent, name)
  {
    if d.materials.Some? {
      var m := d.materials.value;
      forall x | x in m.files && x in intent ensures EntryOk(m, d.staging, intent, x, false) <==> EntryOk(m, e.staging, intent, x, false) { }
    }
  }

  /** Once the copies are prepared, both packages are staged byte for byte. */
  lemma PreparedIsExact(d: Disk, intent: Intent, name: Apk)
    requires Sound(d, intent) && StageStatus(d, intent, true) == Some(ApksPrepared) && name in Recreatable()
    ensures name in d.staging && d.staging[name].body == intent[name].body
    ensures ExpectedApk(d, intent, name) == Some(d.staging[name])
  {
    var m := d.materials.value;
    forall x | x in m.files ensures EntryOk(m, d.staging, intent, x, false) { assert EntryOk(m, d.staging, intent, x, true); }
    if name in m.files { assert EntryOk(m, d.staging, intent, name, true); } else { assert OriginalOk(d, intent, name, true); }
  }

  // ---------------------------------------------------------------------------------------------
  // Discarding
  // ---------------------------------------------------------------------------------------------

  /** The durable intent to discard. */
  lemma IntendingIsSound(d: Disk, intent: Intent)
    requires Sound(d, intent) && StageStatus(d, intent, true) == Some(StagedPrepared)
    ensures Sound(d.(discard := Some(DiscardPending)), intent)
  {
    var t := d.(discard := Some(DiscardPending));
    forall x | x in t.staging && x !in Recreated(t) ensures OriginalOk(t, intent, x, true) { assert OriginalOk(d, intent, x, true); }
  }

  /** A stage at which staged files may be discarded. */
  predicate MayDiscard(d: Disk) {
    d.discard.Some? && !(d.materials.Some? && d.materials.value.state.Preparing?)
  }

  lemma StagingIsSound(d: Disk, intent: Intent)
    requires Sound(d, intent) && MayDiscard(d)
    ensures Sound(d.(stage := StageDiscarding), intent)
  {
    var t := d.(stage := StageDiscarding);
    forall x | x in t.staging && x !in Recreated(t) ensures OriginalOk(t, intent, x, true) { assert OriginalOk(d, intent, x, true); }
  }

  lemma DroppingIsSound(d: Disk, intent: Intent)
    requires Sound(d, intent) && MayDiscard(d) && d.stage.StageDiscarding? && d.materials.Some? && d.materials.value.state.Prepared?
    ensures Sound(d.(materials := Some(d.materials.value.(state := Discarding))), intent)
  {
    var m, t := d.materials.value, d.(materials := Some(d.materials.value.(state := Discarding)));
    forall x | x in m.files ensures EntryOk(t.materials.value, t.staging, intent, x, true) { assert EntryOk(m, d.staging, intent, x, true); }
    forall x | x in t.staging && x !in Recreated(t) ensures OriginalOk(t, intent, x, true) { assert OriginalOk(d, intent, x, true); }
  }

  /** Discarding has begun durably. */
  predicate Dropping(d: Disk, intent: Intent) {
    && Sound(d, intent) && d.discard.Some? && d.stage.StageDiscarding?
    && (d.materials.Some? ==> d.materials.value.state.Discarding? || d.materials.value.state.Discarded?)
  }

  lemma RemovingIsSound(d: Disk, intent: Intent, name: Apk)
    requires Dropping(d, intent)
    ensures Dropping(d.(staging := d.staging - {name}), intent)
  {
    var t := d.(staging := d.staging - {name});
    if d.materials.Some? {
      var m := d.materials.value;
      forall x | x in m.files ensures EntryOk(m, t.staging, intent, x, true) { assert EntryOk(m, d.staging, intent, x, true); }
    }
    forall x | x in t.staging && x !in Recreated(t) ensures OriginalOk(t, intent, x, true) { assert OriginalOk(d, intent, x, true); }
  }

  /** A staged file, just before it is removed, is the one expected there. */
  lemma RemovedIsExpected(d: Disk, intent: Intent, name: Apk)
    requires Dropping(d, intent) && name in d.staging
    ensures name in intent && d.staging[name].body == intent[name].body
    ensures if name in Recreated(d) then d.materials.value.files[name] == Some(d.staging[name].identity)
            else d.staging[name].identity == intent[name].identity
  {
    if name in Recreated(d) { assert EntryOk(d.materials.value, d.staging, intent, name, true); }
    else { assert OriginalOk(d, intent, name, true); }
  }

  lemma EmptyingIsSound(d: Disk, intent: Intent)
    requires Dropping(d, intent) && d.staging == map[]
    ensures d.materials.Some? ==> Dropping(d.(materials := Some(d.materials.value.(state := Discarded))), intent)
    ensures Dropping(d.(discard := Some(DiscardDone)), intent)
    ensures d.discard == Some(DiscardDone) ==>
              Sound(d.(stage := StageDiscarded), intent) && StageStatus(d.(stage := StageDiscarded), intent, true) == Some(StagedDiscarded)
  {
    if d.materials.Some? {
      var m, t := d.materials.value, d.(materials := Some(d.materials.value.(state := Discarded)));
      forall x | x in m.files ensures EntryOk(t.materials.value, t.staging, intent, x, true) { assert EntryOk(m, d.staging, intent, x, true); }
    }
  }
}
