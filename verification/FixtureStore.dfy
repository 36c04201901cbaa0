/** The durable tables of the fixture allocator and the critical sections that change them.

    One step is one critical section of the coordinator.  Several operations, reconciliations and
    restarts may therefore interleave between the steps of one call.  Digests are taken to be
    injective, so a digest is represented by what it digests and a plan binding is the plan itself. */
module FixtureStore {
  import opened Wrappers

  const MAX_OPERATIONS := 100_000

  datatype Plan = Plan(
    project: string, revision: string, application: string, fixture: string,
    checks: seq<string>, cleanup: string, remoteFencing: bool, terminalStatus: bool)
  {
    /** A recipe has one operation kind, so the three roles of a registered plan never share a recipe. */
    predicate Valid() {
      && fixture !in checks && cleanup !in checks && fixture != cleanup
      && forall i, j :: 0 <= i < j < |checks| ==> checks[i] != checks[j]
    }

    function SlotOf(): Slot {
      Slot(project, fixture)
    }
  }

  datatype Slot = Slot(project: string, fixture: string)

  /** An operation identity: the caller's, or derived from the preparation for its n-th check. */
  datatype OpId = Named(name: string) | Derived(base: OpId, index: nat)

  datatype Kind = Prepare | Check | Cleanup

  datatype OpState = Admitted | Dispatched | Running | Unknown | Complete | Failed {
    predicate Terminal() {
      Complete? || Failed?
    }
  }

  datatype Phase = Reserved | Preparing | Prepared | Checking | Ready | Cleaning | Quarantined | Available

  datatype Row = Row(
    plan: Plan, owner: string, device: string, generation: nat, phase: Phase, reason: Option<string>)

  datatype Op = Op(
    allocation: string, generation: nat, kind: Kind, recipe: string, payload: string,
    state: OpState, completed: Option<int>, retention: Option<int>, unsafePrior: bool)

  /** The three tables; allocations and history are keyed by the allocation identity. */
  datatype Store = Store(allocations: map<string, Row>, operations: map<OpId, Op>, history: map<string, Row>)

  /** A caller's authority over one allocation. */
  datatype Handle = Handle(id: string, fixture: string, generation: nat, owner: string)

  datatype RemoteStatus = RemoteRunning | RemoteComplete | RemoteFailed | RemoteUnknown | RemoteExpired

  datatype Remote = Remote(
    op: OpId, generation: nat, status: RemoteStatus, completed: Option<int>, retention: Option<int>, fence: nat)

  /** What an admission answers: a refusal, the recorded outcome of an operation already known, or a new one. */
  datatype Reply = Refused | Known(op: Op) | Fresh

  // ---------------------------------------------------------------------------------------------
  // Lookups
  // ---------------------------------------------------------------------------------------------

  /** `_allocation`: the handle names a current row of the same fixture, generation and owner. */
  predicate Current(s: Store, h: Handle) {
    && h.id in s.allocations
    && s.allocations[h.id].plan.fixture == h.fixture
    && s.allocations[h.id].generation == h.generation
    && s.allocations[h.id].owner == h.owner
  }

  /** `_allocation` followed by `_require_plan_binding`. */
  predicate Bound(s: Store, h: Handle, plan: Plan) {
    Current(s, h) && s.allocations[h.id].plan == plan
  }

  predicate Belongs(s: Store, op: OpId, id: string, generation: nat) {
    op in s.operations && s.operations[op].allocation == id && s.operations[op].generation == generation
  }

  /** Some operation of the generation is neither complete nor failed. */
  ghost predicate SomeUnresolved(s: Store, id: string, generation: nat) {
    exists o :: Belongs(s, o, id, generation) && !s.operations[o].state.Terminal()
  }

  ghost predicate SomeEffectUnresolved(s: Store, id: string, generation: nat) {
    exists o :: Belongs(s, o, id, generation) && !s.operations[o].kind.Cleanup? && !s.operations[o].state.Terminal()
  }

  ghost predicate OtherUnresolved(s: Store, id: string, generation: nat, op: OpId) {
    exists o :: o != op && Belongs(s, o, id, generation) && !s.operations[o].state.Terminal()
  }

  /** The allocation that holds a slot. */
  ghost function Holder(s: Store, slot: Slot): (r: Option<string>)
    ensures r.Some? ==> r.value in s.allocations && s.allocations[r.value].plan.SlotOf() == slot
    ensures r.None? ==> forall id :: id in s.allocations ==> s.allocations[id].plan.SlotOf() != slot
  {
    if exists id :: id in s.allocations && s.allocations[id].plan.SlotOf() == slot then
      var id :| id in s.allocations && s.allocations[id].plan.SlotOf() == slot;
      Some(id)
    else None
  }

  function WithPhase(s: Store, id: string, generation: nat, phase: Phase, reason: Option<string>): Store {
    if id in s.allocations && s.allocations[id].generation == generation then
      s.(allocations := s.allocations[id := s.allocations[id].(phase := phase, reason := reason)])
    else s
  }

  function WithState(s: Store, op: OpId, state: OpState): Store {
    if op in s.operations then
      s.(operations := s.operations[op := s.operations[op].(state := state)])
    else s
  }

  // ---------------------------------------------------------------------------------------------
  // Critical sections
  // ---------------------------------------------------------------------------------------------

  /** `reserve`: the first allocation of a slot, or the reuse of an available one. */
  ghost predicate CanReserve(s: Store, plan: Plan, id: string) {
    && id !in s.allocations && id !in s.history
    && (Holder(s, plan.SlotOf()).Some? ==>
          s.allocations[Holder(s, plan.SlotOf()).value].phase.Available? && |s.history| < MAX_OPERATIONS)
  }

  ghost function Reserve(s: Store, plan: Plan, owner: string, device: string, id: string): Store {
    if !CanReserve(s, plan, id) then s
    else
      match Holder(s, plan.SlotOf())
      case None =>
        s.(allocations := s.allocations[id := Row(plan, owner, device, 1, Reserved, None)])
      case Some(prior) =>
        var row := s.allocations[prior];
        s.(allocations := (s.allocations - {prior})[id := Row(plan, owner, device, row.generation + 1, Reserved, None)],
           history := if prior in s.history then s.history else s.history[prior := row])
  }

  /** The stored operation matches the call that presents its identity again. */
  predicate SameCall(o: Op, h: Handle, recipe: string, payload: string) {
    o.allocation == h.id && o.generation == h.generation && o.recipe == recipe && o.payload == payload
  }

  predicate Lapsed(o: Op, now: int) {
    o.retention.Some? && o.retention.value <= now
  }

  ghost predicate Admissible(s: Store, h: Handle, kind: Kind)
    requires Current(s, h)
  {
    match kind
    case Prepare => s.allocations[h.id].phase.Reserved?
    case Check =>
      && (s.allocations[h.id].phase.Prepared? || s.allocations[h.id].phase.Checking?)
      && !SomeUnresolved(s, h.id, h.generation)
    case Cleanup => !s.allocations[h.id].phase.Cleaning?
  }

  function Entered(kind: Kind): Phase {
    match kind
    case Prepare => Preparing
    case Check => Checking
    case Cleanup => Cleaning
  }

  /** The first critical section of `_operate`. */
  ghost function Admit(s: Store, plan: Plan, h: Handle, kind: Kind, recipe: string, payload: string,
                       op: OpId, now: int): (r: (Store, Reply))
  {
    if !Bound(s, h, plan) || s.allocations[h.id].phase.Available? then (s, Refused)
    else if op in s.operations then
      if !SameCall(s.operations[op], h, recipe, payload) then (s, Refused)
      else if Lapsed(s.operations[op], now) then
        var s' := WithPhase(WithState(s, op, Unknown), h.id, h.generation, Quarantined, Some("retention_expired"));
        (s', Known(s'.operations[op]))
      else (s, Known(s.operations[op]))
    else if !Admissible(s, h, kind) || |s.operations| >= MAX_OPERATIONS then (s, Refused)
    else
      var unsafe := kind.Cleanup? && SomeEffectUnresolved(s, h.id, h.generation);
      var o := Op(h.id, h.generation, kind, recipe, payload, Admitted, None, None, unsafe);
      (WithPhase(s.(operations := s.operations[op := o]), h.id, h.generation, Entered(kind), None), Fresh)
  }

  /** The state that a matching reply leaves in the operation, with the reason given to the allocation. */
  function Settled(remote: Remote, now: int): (OpState, Option<string>) {
    match remote.status
    case RemoteComplete => if Attested(remote, now) then (Complete, None) else (Unknown, Some("retention_expired"))
    case RemoteFailed => if Attested(remote, now) then (Failed, Some("remote_failed")) else (Unknown, Some("retention_expired"))
    case RemoteExpired => (Unknown, Some("retention_expired"))
    case _ => (Unknown, Some("remote_nonterminal"))
  }

  /** A terminal reply counts only while it is retained and not from the future. */
  predicate Attested(remote: Remote, now: int) {
    && remote.retention.Some? && now < remote.retention.value
    && remote.completed.Some? && remote.completed.value <= now
  }

  predicate Fenced(remote: Remote, op: OpId, h: Handle) {
    remote.op == op && remote.generation == h.generation && remote.fence == h.generation
  }

  /** `_finish_unknown`: it consults no handle. */
  function FinishUnknown(s: Store, h: Handle, op: OpId, reason: string): Store {
    WithPhase(WithState(s, op, Unknown), h.id, h.generation, Quarantined, Some(reason))
  }

  /** The phase and reason that a settled operation leaves. */
  ghost function PhaseAfter(s: Store, h: Handle, op: OpId, state: OpState, reason: Option<string>): (Phase, Option<string>)
    requires h.id in s.allocations && op in s.operations
  {
    var o := s.operations[op];
    var phase := s.allocations[h.id].phase;
    if !state.Complete? then (Quarantined, reason)
    else if o.kind.Cleanup? && !o.unsafePrior && phase.Cleaning? then
      if OtherUnresolved(s, h.id, h.generation, op) then (Quarantined, Some("prior_operation_unknown"))
      else (Available, reason)
    else if o.kind.Prepare? && phase.Preparing? then (Prepared, reason)
    else if o.kind.Check? && phase.Checking? then (Checking, reason)
    else (Quarantined, reason)
  }

  /** `_finish_remote_locked`; a handle that is no longer current is refused. */
  ghost function FinishRemote(s: Store, h: Handle, op: OpId, remote: Remote, now: int): Store {
    if !Current(s, h) || op !in s.operations then s
    else if !Fenced(remote, op, h) then FinishUnknown(s, h, op, "fence_mismatch")
    else
      var (state, reason) := Settled(remote, now);
      var (phase, why) := PhaseAfter(s, h, op, state, reason);
      var o := s.operations[op].(state := state, completed := remote.completed, retention := remote.retention);
      WithPhase(s.(operations := s.operations[op := o]), h.id, h.generation, phase, why)
  }

  /** The last critical section of `prepare`. */
  function MarkReady(s: Store, plan: Plan, h: Handle): Store {
    if Bound(s, h, plan) && s.allocations[h.id].phase in {Prepared, Checking, Ready} then
      WithPhase(s, h.id, h.generation, Ready, None)
    else s
  }

  function RetainForCleanup(s: Store, h: Handle): Store {
    if Current(s, h) then WithPhase(s, h.id, h.generation, Quarantined, Some("producer_cleanup_unknown")) else s
  }

  /** The last critical section of `reconcile`. */
  function EndReconcile(s: Store, h: Handle): Store {
    if Current(s, h) && !s.allocations[h.id].phase.Available? then
      WithPhase(s, h.id, h.generation, Quarantined,
                if s.allocations[h.id].reason.None? then Some("reconciliation_required") else s.allocations[h.id].reason)
    else s
  }

  ghost predicate Unstarted(s: Store, id: string, generation: nat) {
    forall o :: !Belongs(s, o, id, generation)
  }

  /** The branch of `recover_cleanup` for a bound current allocation without any operation. */
  ghost function RecoverUnstarted(s: Store, plan: Plan, id: string, generation: nat, owner: string, device: string): Store {
    if && id in s.allocations && s.allocations[id].plan == plan && s.allocations[id].generation == generation
       && s.allocations[id].owner == owner && s.allocations[id].device == device
       && Unstarted(s, id, generation)
       && s.allocations[id].phase in {Reserved, Quarantined}
    then WithPhase(s, id, generation, Available, Some("unstarted_recovery"))
    else s
  }

  function SealRow(plan: Plan, owner: string, device: string): Row {
    Row(plan, owner, device, 0, Available, Some("unstarted-reservation-sealed"))
  }

  /** `seal_unstarted_reservation`: an absence marker, written once. */
  function Seal(s: Store, plan: Plan, id: string, owner: string, device: string): Store {
    if id in s.allocations || id in s.history || |s.history| >= MAX_OPERATIONS then s
    else s.(history := s.history[id := SealRow(plan, owner, device)])
  }

  function Interrupted(o: Op): Op {
    if o.state in {Admitted, Dispatched, Running} then o.(state := Unknown) else o
  }

  function Stranded(row: Row): Row {
    if row.phase.Available? || row.phase.Quarantined? then row
    else row.(phase := Quarantined, reason := Some("process_restarted"))
  }

  /** `_recover_unfinished`, run before a restarted process serves anything. */
  function RecoverUnfinished(s: Store): Store {
    s.(operations := map o | o in s.operations :: Interrupted(s.operations[o]),
       allocations := map id | id in s.allocations :: Stranded(s.allocations[id]))
  }
}
