/** The journal and the files of the native-call slots: what a validated workspace is, and what every single file
    effect does to it.  A digest is the body it is taken of, and a chained digest is the chain. */
module NativeJournal {
  import opened Wrappers
  import opened Binary

  const MAX_OUTPUT_BYTES: nat := 4 * 1024 * 1024
  const SEQUENCE_BOUND: nat := 0x8000_0000_0000_0000

  datatype Slot = CommandSlot | InstrumentationSlot

  datatype Name = Request | CommandFile | Stdin | Start | Termination | NativeResult | Foreign(name: string)

  /** The six files of a slot in the order in which the table of limits lists them. */
  const ORDER: seq<Name> := [Request, CommandFile, Stdin, Start, Termination, NativeResult]

  function Limit(name: Name): nat {
    match name
    case Request => 64 * 1024
    case CommandFile => 128 * 1024
    case Stdin => 64 * 1024
    case Start => 4096
    case Termination => 4096
    case NativeResult => 2 * MAX_OUTPUT_BYTES + 4096
    case Foreign(_) => 0
  }

  predicate Listed(name: Name) {
    !name.Foreign?
  }

  datatype HostFile = HostFile(identity: nat, body: Bytes)

  type Files = map<Name, HostFile>

  datatype Phase = Install | Replay(number: int) | Cleanup

  datatype Stage = Preparing | Prepared | Retiring

  /** The record of an occupied slot; the three bodies stand for their digests. */
  datatype Record = Record(
    sequence: nat, phase: Phase, generation: int, request: Bytes, command: Bytes, stdin: Bytes,
    maximumOutput: int, stage: Stage, files: map<Name, nat>)

  /** The chained history digest. */
  datatype History =
    | NoHistory
    | Collected(before: History, sequence: nat, request: Bytes, guardian: Bytes, returnCode: int, bounded: bool)
    | ForRecovery(before: History, record: Record, bodies: map<Name, Bytes>)

  datatype Journal = Journal(nextSequence: nat, history: History, command: Option<Record>, instrumentation: Option<Record>) {
    function At(slot: Slot): Option<Record> {
      if slot.CommandSlot? then command else instrumentation
    }

    function With(slot: Slot, record: Option<Record>): Journal {
      if slot.CommandSlot? then this.(command := record) else this.(instrumentation := record)
    }
  }

  datatype Disk = Disk(journal: Journal, command: Files, instrumentation: Files) {
    function In(slot: Slot): Files {
      if slot.CommandSlot? then command else instrumentation
    }

    function WithFiles(slot: Slot, files: Files): Disk {
      if slot.CommandSlot? then this.(command := files) else this.(instrumentation := files)
    }
  }

  function Other(slot: Slot): Slot {
    if slot.CommandSlot? then InstrumentationSlot else CommandSlot
  }

  // ---------------------------------------------------------------------------------------------
  // The validated workspace
  // ---------------------------------------------------------------------------------------------

  predicate AllListed(names: set<Name>) {
    names == {Request, CommandFile, Stdin, Start, Termination, NativeResult}
  }

  predicate OwnerOk(phase: Phase, generation: int) {
    (phase.Replay? ==> 1 <= phase.number <= 128) && 1 <= generation < SEQUENCE_BOUND
  }

  predicate RecordOk(r: Record, nextSequence: nat) {
    && 1 <= r.sequence < nextSequence && OwnerOk(r.phase, r.generation)
    && 1 <= r.maximumOutput <= MAX_OUTPUT_BYTES
    && (if r.stage.Preparing? then r.files == map[] else AllListed(r.files.Keys))
  }

  /** The body a prepared record binds a file to. */
  function Bound(r: Record, name: Name): Option<Bytes> {
    match name
    case Request => Some(r.request)
    case CommandFile => Some(r.command)
    case Stdin => Some(r.stdin)
    case _ => None
  }

  /** A file of an occupied slot: the one that was recorded, within its limit, and, once prepared, with the bound
      body, which only the standard input may leave empty. */
  predicate FileOk(r: Record, name: Name, file: HostFile) {
    && Listed(name)
    && (name in r.files ==> file.identity == r.files[name])
    && |file.body| <= Limit(name)
    && (r.stage.Prepared? && Bound(r, name).Some? ==> file.body == Bound(r, name).value && (file.body != [] || name.Stdin?))
  }

  predicate SlotOk(record: Option<Record>, nextSequence: nat, files: Files) {
    match record
    case None => files == map[]
    case Some(r) =>
      && RecordOk(r, nextSequence)
      && (r.stage.Prepared? ==> AllListed(files.Keys))
      && forall name :: name in files ==> FileOk(r, name, files[name])
  }

  predicate DistinctSequences(j: Journal) {
    j.command.Some? && j.instrumentation.Some? ==> j.command.value.sequence != j.instrumentation.value.sequence
  }

  /** What validation accepts. */
  predicate Validated(d: Disk) {
    && 1 <= d.journal.nextSequence < SEQUENCE_BOUND
    && SlotOk(d.journal.command, d.journal.nextSequence, d.command)
    && SlotOk(d.journal.instrumentation, d.journal.nextSequence, d.instrumentation)
    && DistinctSequences(d.journal)
  }

  predicate Occupied(j: Journal) {
    j.command.Some? || j.instrumentation.Some?
  }

  // ---------------------------------------------------------------------------------------------
  // Conservation of sequence numbers
  // ---------------------------------------------------------------------------------------------

  /** The sequence numbers folded into the history, each as often as it was folded. */
  function FoldedIn(h: History): multiset<nat> {
    match h
    case NoHistory => multiset{}
    case Collected(before, sequence, _, _, _, _) => FoldedIn(before) + multiset{sequence}
    case ForRecovery(before, record, _) => FoldedIn(before) + multiset{record.sequence}
  }

  function Live(j: Journal): multiset<nat> {
    (if j.command.Some? then multiset{j.command.value.sequence} else multiset{})
    + (if j.instrumentation.Some? then multiset{j.instrumentation.value.sequence} else multiset{})
  }

  /** The numbers from 1 to below a bound, once each. */
  function Issued(bound: nat): multiset<nat> {
    if bound <= 1 then multiset{} else Issued(bound - 1) + multiset{bound - 1}
  }

  /** Every number issued so far is live or folded, and only once. */
  predicate Conserved(j: Journal) {
    FoldedIn(j.history) + Live(j) == Issued(j.nextSequence)
  }

  lemma {:induction false} IssuedCounts(bound: nat, n: nat)
    ensures Issued(bound)[n] == if 1 <= n < bound then 1 else 0
    decreases bound
  {
    if bound > 1 { IssuedCounts(bound - 1, n); }
  }

  /** A conserved journal: no number is lost, none is used twice, none is both live and folded. */
  lemma EveryNumberOnce(j: Journal, n: nat)
    requires Conserved(j)
    ensures 1 <= n < j.nextSequence <==> n in FoldedIn(j.history) || n in Live(j)
    ensures FoldedIn(j.history)[n] + Live(j)[n] <= 1
  {
    IssuedCounts(j.nextSequence, n);
    assert (FoldedIn(j.history) + Live(j))[n] == Issued(j.nextSequence)[n];
  }

  /** The state every crash point leaves. */
  predicate Sound(d: Disk) {
    Validated(d) && Conserved(d.journal)
  }

  // ---------------------------------------------------------------------------------------------
  // Single effects
  // ---------------------------------------------------------------------------------------------

  lemma SlotGrows(record: Option<Record>, nextSequence: nat, more: nat, files: Files)
    requires SlotOk(record, nextSequence, files) && nextSequence <= more
    ensures SlotOk(record, more, files)
  {
  }

  /** A change to one slot keeps the workspace accepted when that slot is, and its number stays its own. */
  lemma OneSlotChanges(d: Disk, t: Disk, slot: Slot)
    requires Validated(d) && d.journal.nextSequence <= t.journal.nextSequence < SEQUENCE_BOUND
    requires t.journal.At(Other(slot)) == d.journal.At(Other(slot)) && t.In(Other(slot)) == d.In(Other(slot))
    requires SlotOk(t.journal.At(slot), t.journal.nextSequence, t.In(slot)) && DistinctSequences(t.journal)
    ensures Validated(t)
  {
    hide SlotOk;
    SlotGrows(d.journal.At(Other(slot)), d.journal.nextSequence, t.journal.nextSequence, d.In(Other(slot)));
  }

  /** The journal with a new preparing record. */
  function Admitted(j: Journal, slot: Slot, r: Record): Journal {
    j.(nextSequence := j.nextSequence + 1).With(slot, Some(r))
  }

  lemma AdmittedConserves(j: Journal, slot: Slot, r: Record)
    requires Conserved(j) && j.At(slot).None? && r.sequence == j.nextSequence >= 1
    ensures Conserved(Admitted(j, slot, r))
  {
    hide Live, FoldedIn;
    LiveGrows(j, slot, r);
    Regroup(FoldedIn(j.history), Live(j), multiset{r.sequence});
    assert Issued(j.nextSequence + 1) == Issued(j.nextSequence) + multiset{j.nextSequence};
  }

  lemma LiveGrows(j: Journal, slot: Slot, r: Record)
    requires j.At(slot).None?
    ensures Live(Admitted(j, slot, r)) == Live(j) + multiset{r.sequence} && Admitted(j, slot, r).history == j.history
  {
  }

  lemma Regroup(a: multiset<nat>, b: multiset<nat>, c: multiset<nat>)
    ensures a + (b + c) == (a + b) + c
  {
  }

  lemma AdmittingIsSound(d: Disk, slot: Slot, r: Record)
    requires Sound(d) && d.journal.At(slot).None? && d.journal.nextSequence < SEQUENCE_BOUND - 1
    requires r.sequence == d.journal.nextSequence && r.stage.Preparing? && RecordOk(r, d.journal.nextSequence + 1)
    ensures Sound(d.(journal := Admitted(d.journal, slot, r)))
  {
    hide RecordOk, FileOk, AllListed, Conserved, Issued;
    var j := Admitted(d.journal, slot, r);
    LiveBelow(d, Other(slot));
    assert SlotOk(j.At(slot), j.nextSequence, d.In(slot));
    OneSlotChanges(d, d.(journal := j), slot);
    AdmittedConserves(d.journal, slot, r);
  }

  lemma LiveBelow(d: Disk, slot: Slot)
    requires Validated(d)
    ensures d.journal.At(slot).Some? ==> d.journal.At(slot).value.sequence < d.journal.nextSequence
  {
  }

  /** While a record is being prepared, any listed file within its limit may appear or grow. */
  lemma WritingIsSound(d: Disk, slot: Slot, name: Name, file: HostFile)
    requires Sound(d) && d.journal.At(slot).Some? && d.journal.At(slot).value.stage.Preparing?
    requires Listed(name) && |file.body| <= Limit(name)
    ensures Sound(d.WithFiles(slot, d.In(slot)[name := file]))
  {
    hide Limit;
    var r, files := d.journal.At(slot).value, d.In(slot)[name := file];
    assert RecordOk(r, d.journal.nextSequence) && r.files == map[];
    forall x | x in files ensures FileOk(r, x, files[x]) { if x != name { assert FileOk(r, x, d.In(slot)[x]); } }
    OneSlotChanges(d, d.WithFiles(slot, files), slot);
  }

  /** The record once its files are there. */
  function Bind(r: Record, files: Files): Record {
    r.(stage := Prepared, files := map name | name in files :: files[name].identity)
  }

  /** The three bodies a record binds are in its files. */
  predicate Written(r: Record, files: Files) {
    && AllListed(files.Keys)
    && files[Request].body == r.request != [] && files[CommandFile].body == r.command != [] && files[Stdin].body == r.stdin
  }

  lemma BoundSlot(r: Record, nextSequence: nat, files: Files)
    requires SlotOk(Some(r), nextSequence, files) && r.stage.Preparing? && Written(r, files)
    ensures SlotOk(Some(Bind(r, files)), nextSequence, files)
  {
    hide Limit;
    var bound := Bind(r, files);
    assert bound.files.Keys == files.Keys;
    forall name | name in files ensures FileOk(bound, name, files[name]) { assert FileOk(r, name, files[name]); }
  }

  /** The six files with the bound bodies make a record prepared. */
  lemma PreparingEnds(d: Disk, slot: Slot, r: Record)
    requires Sound(d) && d.journal.At(slot) == Some(r) && r.stage.Preparing? && Written(r, d.In(slot))
    ensures Sound(d.(journal := d.journal.With(slot, Some(Bind(r, d.In(slot))))))
  {
    hide SlotOk, Written;
    var t := d.(journal := d.journal.With(slot, Some(Bind(r, d.In(slot)))));
    BoundSlot(r, d.journal.nextSequence, d.In(slot));
    OneSlotChanges(d, t, slot);
    assert Live(t.journal) == Live(d.journal);
  }

  lemma RetiringSlot(r: Record, nextSequence: nat, files: Files)
    requires SlotOk(Some(r), nextSequence, files) && !r.stage.Preparing?
    ensures SlotOk(Some(r.(stage := Retiring)), nextSequence, files)
  {
    hide Limit;
    forall name | name in files ensures FileOk(r.(stage := Retiring), name, files[name]) { assert FileOk(r, name, files[name]); }
  }

  /** A prepared record may be declared to be retired; nothing else changes. */
  lemma RetiringIsSound(d: Disk, slot: Slot, r: Record)
    requires Sound(d) && d.journal.At(slot) == Some(r) && !r.stage.Preparing?
    ensures Sound(d.(journal := d.journal.With(slot, Some(r.(stage := Retiring)))))
  {
    hide SlotOk;
    var t := d.(journal := d.journal.With(slot, Some(r.(stage := Retiring))));
    RetiringSlot(r, d.journal.nextSequence, d.In(slot));
    OneSlotChanges(d, t, slot);
    assert Live(t.journal) == Live(d.journal);
  }

  function Removed(files: Files, name: Name): Files {
    files - {name}
  }

  /** A file of a record that is not prepared may disappear. */
  lemma RemovingIsSound(d: Disk, slot: Slot, r: Record, name: Name)
    requires Sound(d) && d.journal.At(slot) == Some(r) && !r.stage.Prepared?
    ensures Sound(d.WithFiles(slot, Removed(d.In(slot), name)))
  {
    hide RecordOk, Limit;
    OneSlotChanges(d, d.WithFiles(slot, Removed(d.In(slot), name)), slot);
  }

  /** The journal after a slot's number went into the history. */
  function FoldedJournal(j: Journal, slot: Slot, h: History): Journal {
    j.(history := h).With(slot, None)
  }

  lemma FoldingIsSound(d: Disk, slot: Slot, r: Record, h: History)
    requires Sound(d) && d.journal.At(slot) == Some(r) && d.In(slot) == map[]
    requires FoldedIn(h) == FoldedIn(d.journal.history) + multiset{r.sequence}
    ensures Sound(d.(journal := FoldedJournal(d.journal, slot, h)))
  {
    hide RecordOk, FileOk, AllListed;
    var t := d.(journal := FoldedJournal(d.journal, slot, h));
    OneSlotChanges(d, t, slot);
    LiveGrows(t.journal, slot, r);
    LiveOf(d.journal, Admitted(t.journal, slot, r), slot);
    Regroup(FoldedIn(d.journal.history), multiset{r.sequence}, Live(t.journal));
    assert multiset{r.sequence} + Live(t.journal) == Live(t.journal) + multiset{r.sequence};
  }

  lemma LiveOf(a: Journal, b: Journal, slot: Slot)
    requires a.At(Other(slot)) == b.At(Other(slot)) && a.At(slot) == b.At(slot)
    ensures Live(a) == Live(b)
  {
  }

  /** The guardian may rewrite its three records of a prepared slot, in place and within their limits. */
  lemma GuardianIsSound(d: Disk, slot: Slot, r: Record, name: Name, body: Bytes)
    requires Sound(d) && d.journal.At(slot) == Some(r) && name in d.In(slot) && Bound(r, name).None? && |body| <= Limit(name)
    ensures Sound(d.WithFiles(slot, d.In(slot)[name := d.In(slot)[name].(body := body)]))
  {
    hide RecordOk, Limit, SlotOk, Bound;
    var files := d.In(slot)[name := d.In(slot)[name].(body := body)];
    GuardianKeepsSlot(r, d.journal.nextSequence, d.In(slot), name, body);
    OneSlotChanges(d, d.WithFiles(slot, files), slot);
  }

  lemma GuardianKeepsSlot(r: Record, nextSequence: nat, files: Files, name: Name, body: Bytes)
    requires SlotOk(Some(r), nextSequence, files) && name in files && Bound(r, name).None? && |body| <= Limit(name)
    ensures SlotOk(Some(r), nextSequence, files[name := files[name].(body := body)])
  {
    hide RecordOk, Limit;
    var changed := files[name := files[name].(body := body)];
    assert changed.Keys == files.Keys;
    forall x | x in changed ensures FileOk(r, x, changed[x]) { assert FileOk(r, x, files[x]); }
  }

  /** A fresh workspace is sound. */
  lemma InitialIsSound()
    ensures Sound(Disk(Journal(1, NoHistory, None, None), map[], map[]))
  {
  }

  // ---------------------------------------------------------------------------------------------
  // What validation notices
  // ---------------------------------------------------------------------------------------------

  /** The size a file may have. */
  predicate WithinLimit(name: Name, size: nat) {
    match name
    case Request => size <= 65536
    case CommandFile => size <= 131072
    case Stdin => size <= 65536
    case Start => size <= 4096
    case Termination => size <= 4096
    case NativeResult => size <= 8 * 1024 * 1024 + 4096
    case Foreign(_) => false
  }

  /** A file may be put into a slot of an accepted workspace exactly when the slot has a record, the file is one of the
      six, within its size, has the identity recorded for it and, once the record is prepared, the request, the command
      and the input are the ones recorded, the first two not empty. */
  lemma EditIsExact(d: Disk, slot: Slot, name: Name, file: HostFile)
    requires Validated(d)
    ensures Validated(d.WithFiles(slot, d.In(slot)[name := file])) <==>
              && d.journal.At(slot).Some?
              && var r := d.journal.At(slot).value;
                 && WithinLimit(name, |file.body|) && (name in r.files ==> file.identity == r.files[name])
                 && (r.stage == Prepared ==>
                       && (name == Request ==> file.body == r.request && file.body != [])
                       && (name == CommandFile ==> file.body == r.command && file.body != [])
                       && (name == Stdin ==> file.body == r.stdin))
  {
    hide RecordOk, FileOk, Limit, WithinLimit;
    var t := d.WithFiles(slot, d.In(slot)[name := file]);
    assert name in t.In(slot) && t.In(slot)[name] == file && t.journal == d.journal && t.In(Other(slot)) == d.In(Other(slot));
    if d.journal.At(slot).Some? {
      EditedSlot(d.journal.At(slot).value, d.journal.nextSequence, d.In(slot), name, file);
      FileIsExact(d.journal.At(slot).value, name, file);
    }
  }

  lemma EditedSlot(r: Record, nextSequence: nat, files: Files, name: Name, file: HostFile)
    requires SlotOk(Some(r), nextSequence, files)
    ensures SlotOk(Some(r), nextSequence, files[name := file]) <==> FileOk(r, name, file)
  {
    hide RecordOk, Limit;
    var edited := files[name := file];
    assert name in edited && edited[name] == file;
    forall x | x in edited && x != name ensures FileOk(r, x, edited[x]) { assert FileOk(r, x, files[x]); }
    if r.stage.Prepared? && Listed(name) { assert edited.Keys == files.Keys; }
  }

  lemma FileIsExact(r: Record, name: Name, file: HostFile)
    ensures FileOk(r, name, file) <==>
              && WithinLimit(name, |file.body|) && (name in r.files ==> file.identity == r.files[name])
              && (r.stage == Prepared ==>
                    && (name == Request ==> file.body == r.request && file.body != [])
                    && (name == CommandFile ==> file.body == r.command && file.body != [])
                    && (name == Stdin ==> file.body == r.stdin))
  {
  }

  /** A file may be removed exactly from a slot whose record is not prepared. */
  lemma RemovalIsExact(d: Disk, slot: Slot, name: Name)
    requires Validated(d) && name in d.In(slot)
    ensures d.journal.At(slot).Some?
    ensures Validated(d.WithFiles(slot, d.In(slot) - {name})) <==> d.journal.At(slot).value.stage != Prepared
  {
    hide RecordOk, Limit;
    var t := d.WithFiles(slot, d.In(slot) - {name});
    var r := d.journal.At(slot).value;
    assert FileOk(r, name, d.In(slot)[name]) && Listed(name) && name !in t.In(slot);
    forall x | x in t.In(slot) ensures FileOk(r, x, t.In(slot)[x]) { assert FileOk(r, x, d.In(slot)[x]); }
  }

  /** A preparing record may be put into an empty slot exactly when its number was issued and is not the other slot's, and
      its phase, generation and output bound are within theirs. */
  lemma IntentIsExact(d: Disk, slot: Slot, r: Record)
    requires Validated(d) && d.journal.At(slot).None? && r.stage == Preparing
    ensures Validated(d.(journal := d.journal.With(slot, Some(r)))) <==>
              && 1 <= r.sequence < d.journal.nextSequence && r.files == map[]
              && (r.phase.Replay? ==> 1 <= r.phase.number <= 128)
              && 1 <= r.generation <= 0x7FFF_FFFF_FFFF_FFFF && 1 <= r.maximumOutput <= 4_194_304
              && (d.journal.At(Other(slot)).Some? ==> d.journal.At(Other(slot)).value.sequence != r.sequence)
    ensures 1 <= d.journal.nextSequence <= 0x7FFF_FFFF_FFFF_FFFF
  {
  }
}
