/** Runs of the fixture allocator: any interleaving of critical sections, replies and restarts. */
module FixtureRuns {
  import opened Wrappers
  import opened FixtureStore

  /** The tables, with what the process and the adapter remember beside them.
      awaiting: operations this process has admitted and will still send.
      executed: operations handed to the adapter, in order, over all restarts.
      seen:     operations whose recorded outcome was returned to a caller as complete.
      issued:   identities that a reservation returned. */
  datatype World = World(
    store: Store, awaiting: set<OpId>, executed: seq<OpId>, seen: set<OpId>, issued: set<string>)

  datatype Event =
    | EvReserve(plan: Plan, owner: string, device: string, id: string)
    | EvPrepare(plan: Plan, handle: Handle, op: OpId, payload: string, now: int)
    | EvCheck(plan: Plan, handle: Handle, base: OpId, index: nat, payload: string, now: int)
    | EvCleanup(plan: Plan, handle: Handle, op: OpId, payload: string, now: int)
    | EvDispatch(op: OpId)
    | EvReply(handle: Handle, op: OpId, remote: Remote, now: int)
    | EvLost(handle: Handle, op: OpId, reason: string)
    | EvReady(plan: Plan, handle: Handle, base: OpId)
    | EvRetain(handle: Handle)
    | EvEndReconcile(handle: Handle)
    | EvUnstarted(plan: Plan, id: string, generation: nat, owner: string, device: string)
    | EvSeal(plan: Plan, id: string, owner: string, device: string)
    | EvRestart

  const Initial := World(Store(map[], map[], map[]), {}, [], {}, {})

  /** A caller was given the complete outcome of this operation for this handle and recipe. */
  predicate Returned(w: World, h: Handle, op: OpId, recipe: string) {
    op in w.seen && Belongs(w.store, op, h.id, h.generation) && w.store.operations[op].recipe == recipe
  }

  /** What the callers of a critical section have established before it: the order of the calls in
      `prepare`, and that a result is reported only for an operation of the handle. */
  predicate Enabled(w: World, e: Event) {
    match e
    case EvReserve(plan, _, _, _) => plan.Valid()
    case EvPrepare(plan, _, _, _, _) => plan.Valid()
    case EvCheck(plan, h, base, index, _, _) =>
      && 1 <= index <= |plan.checks|
      && Returned(w, h, base, plan.fixture)
    case EvCleanup(plan, _, _, _, _) => plan.Valid()
    case EvDispatch(op) => op in w.awaiting
    case EvReply(h, op, remote, _) => Belongs(w.store, op, h.id, h.generation)
    case EvLost(h, op, _) => Belongs(w.store, op, h.id, h.generation)
    case EvReady(plan, h, base) =>
      && Returned(w, h, base, plan.fixture)
      && forall i | 1 <= i <= |plan.checks| :: Returned(w, h, Derived(base, i), plan.checks[i - 1])
    case _ => true
  }

  /** The one assumption about the adapter: it reports an operation as ended only after receiving it. */
  predicate Honest(w: World, e: Event) {
    (e.EvReply? && Fenced(e.remote, e.op, e.handle) && (e.remote.status.RemoteComplete? || e.remote.status.RemoteFailed?))
    ==> e.op in w.executed
  }

  ghost function AfterAdmit(w: World, plan: Plan, op: OpId, r: (Store, Reply)): World {
    w.(store := r.0,
       awaiting := if r.1.Fresh? && plan.remoteFencing && plan.terminalStatus then w.awaiting + {op} else w.awaiting,
       seen := if r.1.Known? && r.1.op.state.Complete? then w.seen + {op} else w.seen)
  }

  ghost function Step(w: World, e: Event): World {
    match e
    case EvReserve(plan, owner, device, id) =>
      w.(store := Reserve(w.store, plan, owner, device, id),
         issued := if CanReserve(w.store, plan, id) then w.issued + {id} else w.issued)
    case EvPrepare(plan, h, op, payload, now) =>
      AfterAdmit(w, plan, op, Admit(w.store, plan, h, Prepare, plan.fixture, payload, op, now))
    case EvCheck(plan, h, base, index, payload, now) =>
      if 1 <= index <= |plan.checks| then
        AfterAdmit(w, plan, Derived(base, index),
                   Admit(w.store, plan, h, Check, plan.checks[index - 1], payload, Derived(base, index), now))
      else w
    case EvCleanup(plan, h, op, payload, now) =>
      AfterAdmit(w, plan, op, Admit(w.store, plan, h, Cleanup, plan.cleanup, payload, op, now))
    case EvDispatch(op) =>
      w.(store := WithState(w.store, op, Dispatched), awaiting := w.awaiting - {op}, executed := w.executed + [op])
    case EvReply(h, op, remote, now) =>
      var s := FinishRemote(w.store, h, op, remote, now);
      w.(store := s, seen := if op in s.operations && s.operations[op].state.Complete? then w.seen + {op} else w.seen)
    case EvLost(h, op, reason) => w.(store := FinishUnknown(w.store, h, op, reason))
    case EvReady(plan, h, _) => w.(store := MarkReady(w.store, plan, h))
    case EvRetain(h) => w.(store := RetainForCleanup(w.store, h))
    case EvEndReconcile(h) => w.(store := EndReconcile(w.store, h))
    case EvUnstarted(plan, id, generation, owner, device) =>
      w.(store := RecoverUnstarted(w.store, plan, id, generation, owner, device))
    case EvSeal(plan, id, owner, device) => w.(store := Seal(w.store, plan, id, owner, device))
    case EvRestart => w.(store := RecoverUnfinished(w.store), awaiting := {}, seen := {})
  }

  ghost function Run(w: World, events: seq<Event>): World
    decreases |events|
  {
    if events == [] then w else Run(Step(w, events[0]), events[1..])
  }

  /** Every event of the run is one the callers can cause, with an honest adapter. */
  ghost predicate Legal(w: World, events: seq<Event>)
    decreases |events|
  {
    events == [] || (Enabled(w, events[0]) && Honest(w, events[0]) && Legal(Step(w, events[0]), events[1..]))
  }

  // ---------------------------------------------------------------------------------------------
  // Invariant
  // ---------------------------------------------------------------------------------------------

  /** 0..4 while a preparation is under way, 5 once the generation is being given back. */
  function Rank(phase: Phase): nat {
    match phase
    case Reserved => 0
    case Preparing => 1
    case Prepared => 2
    case Checking => 3
    case Ready => 4
    case _ => 5
  }

  function RecipeOf(plan: Plan, kind: Kind, recipe: string): bool {
    match kind
    case Prepare => recipe == plan.fixture
    case Check => recipe in plan.checks
    case Cleanup => recipe == plan.cleanup
  }

  ghost predicate RowsOk(s: Store) {
    && (forall id :: id in s.allocations ==> s.allocations[id].generation >= 1 && s.allocations[id].plan.Valid() && id !in s.history)
    && (forall a, b :: a in s.allocations && b in s.allocations && s.allocations[a].plan.SlotOf() == s.allocations[b].plan.SlotOf() ==> a == b)
  }

  ghost predicate OpOk(s: Store, o: OpId)
    requires o in s.operations
  {
    var op := s.operations[o];
    && (op.allocation in s.allocations || op.allocation in s.history)
    && (op.allocation in s.allocations ==>
          && op.generation == s.allocations[op.allocation].generation
          && RecipeOf(s.allocations[op.allocation].plan, op.kind, op.recipe))
  }

  ghost predicate Owns(s: Store, id: string, o: OpId) {
    o in s.operations && s.operations[o].allocation == id
  }

  /** The one preparation of a generation that is still going forward. */
  ghost predicate Leads(s: Store, id: string, p: OpId) {
    Owns(s, id, p) && s.operations[p].kind.Prepare?
  }

  ghost predicate Follows(s: Store, id: string, p: OpId, c: OpId)
    requires Owns(s, id, c) && id in s.allocations
  {
    var checks := s.allocations[id].plan.checks;
    && s.operations[c].kind.Check? && c.Derived? && c.base == p
    && 1 <= c.index <= |checks| && s.operations[c].recipe == checks[c.index - 1]
  }

  /** The preparation is complete and every other operation of the generation is one of its checks. */
  ghost predicate UnderWay(s: Store, id: string, p: OpId)
    requires id in s.allocations
  {
    && Leads(s, id, p) && s.operations[p].state.Complete?
    && forall o :: Owns(s, id, o) && o != p ==> Follows(s, id, p, o)
  }

  ghost predicate AtMostOnePrepare(s: Store) {
    forall p, q, id :: Leads(s, id, p) && Leads(s, id, q) ==> p == q
  }

  /** What the phase of a row says about the operations of its generation. */
  ghost predicate PhaseOk(s: Store, id: string)
    requires id in s.allocations
  {
    var phase := s.allocations[id].phase;
    && (phase.Reserved? ==> forall o :: !Owns(s, id, o))
    && (phase.Preparing? ==> forall o :: Owns(s, id, o) ==> s.operations[o].kind.Prepare?)
    && (phase.Prepared? ==> forall o :: Owns(s, id, o) ==> s.operations[o].kind.Prepare? && s.operations[o].state.Complete?)
    && (phase.Checking? || phase.Ready? ==> exists p :: UnderWay(s, id, p))
    && (phase.Ready? ==> ReadyOk(s, id))
    && (Rank(phase) <= 4 ==> forall o :: Owns(s, id, o) ==> !s.operations[o].kind.Cleanup?)
    && (phase.Available? ==> AvailableOk(s, id))
  }

  /** Nothing is unresolved in the generation of an available slot, and a cleanup that saw nothing
      unresolved before it has completed. */
  ghost predicate AvailableOk(s: Store, id: string) {
    && (forall o :: Owns(s, id, o) ==> s.operations[o].state.Terminal())
    && ((exists o :: Owns(s, id, o)) ==>
          exists c :: Owns(s, id, c) && s.operations[c].kind.Cleanup? && s.operations[c].state.Complete? && !s.operations[c].unsafePrior)
  }

  /** The preparation and every check of the plan are complete, and the generation has no other operation. */
  ghost predicate ReadyOk(s: Store, id: string)
    requires id in s.allocations
  {
    && (forall o :: Owns(s, id, o) ==> s.operations[o].state.Complete?)
    && exists p :: Covered(s, id, p)
  }

  ghost predicate Covered(s: Store, id: string, p: OpId)
    requires id in s.allocations
  {
    var checks := s.allocations[id].plan.checks;
    && Leads(s, id, p)
    && forall i | 1 <= i <= |checks| :: Owns(s, id, Derived(p, i)) && s.operations[Derived(p, i)].recipe == checks[i - 1]
  }

  ghost predicate TokensOk(w: World) {
    && (forall o :: o in w.awaiting ==> o in w.store.operations && !w.store.operations[o].state.Terminal() && o !in w.executed)
    && (forall i, j :: 0 <= i < j < |w.executed| ==> w.executed[i] != w.executed[j])
    && (forall o :: o in w.executed ==> o in w.store.operations)
    && (forall o :: o in w.store.operations && w.store.operations[o].state.Terminal() ==> o in w.executed)
  }

  /** While a generation goes forward, an outcome returned as complete is still the recorded one. */
  ghost predicate SeenOk(w: World) {
    forall o :: o in w.seen ==> StillComplete(w.store, o)
  }

  ghost predicate StillComplete(s: Store, o: OpId) {
    && o in s.operations
    && (s.operations[o].allocation in s.allocations && Rank(s.allocations[s.operations[o].allocation].phase) <= 4
        ==> s.operations[o].state.Complete?)
  }

  ghost predicate IdentitiesOk(w: World) {
    && (forall id :: id in w.issued ==> id in w.store.allocations || id in w.store.history)
    && (forall id :: id in w.store.allocations ==> id in w.issued)
    && (forall id :: id in w.store.history ==> RetiredOk(w.store.history[id], id in w.issued))
  }

  /** An issued identity is retired from an available slot; a sealed one was never issued. */
  predicate RetiredOk(row: Row, issued: bool) {
    if issued then row.phase.Available? && row.generation >= 1 else row.generation == 0
  }

  ghost predicate Inv(w: World) {
    StoreOk(w.store) && TokensOk(w) && SeenOk(w) && IdentitiesOk(w)
  }

  ghost predicate StoreOk(s: Store) {
    RowsOk(s) && OpsOk(s) && AtMostOnePrepare(s) && PhasesOk(s)
  }

  ghost predicate OpsOk(s: Store) {
    forall o :: o in s.operations ==> OpOk(s, o)
  }

  ghost predicate PhasesOk(s: Store) {
    forall id :: id in s.allocations ==> PhaseOk(s, id)
  }

  // ---------------------------------------------------------------------------------------------
  // Preservation
  // ---------------------------------------------------------------------------------------------

  lemma UnderWayFrame(s: Store, t: Store, id: string, p: OpId)
    requires id in s.allocations && id in t.allocations && s.allocations[id].plan == t.allocations[id].plan
    requires UnderWay(s, id, p) && Owns(t, id, p) && t.operations[p].state.Complete?
    requires forall o :: Owns(t, id, o) ==> Owns(s, id, o) && t.operations[o].kind == s.operations[o].kind && t.operations[o].recipe == s.operations[o].recipe
    ensures UnderWay(t, id, p)
  {
    forall o | Owns(t, id, o) && o != p ensures Follows(t, id, p, o) {
      assert Follows(s, id, p, o);
    }
  }

  /** A row keeps its facts when neither it nor any operation of its own changes. */
  lemma PhaseFrame(s: Store, t: Store, id: string)
    requires id in s.allocations && id in t.allocations && s.allocations[id] == t.allocations[id]
    requires forall o :: Owns(s, id, o) <==> Owns(t, id, o)
    requires forall o :: Owns(s, id, o) ==> o in t.operations && s.operations[o] == t.operations[o]
    requires PhaseOk(s, id)
    ensures PhaseOk(t, id)
  {
    var phase := s.allocations[id].phase;
    if phase.Checking? || phase.Ready? {
      var p :| UnderWay(s, id, p);
      UnderWayFrame(s, t, id, p);
    }
    if phase.Ready? {
      var p :| Covered(s, id, p);
      assert Covered(t, id, p);
    }
    if phase.Available? && exists o :: Owns(t, id, o) {
      var o :| Owns(t, id, o);
      assert Owns(s, id, o);
      var c :| Owns(s, id, c) && s.operations[c].kind.Cleanup? && s.operations[c].state.Complete? && !s.operations[c].unsafePrior;
      assert Owns(t, id, c);
    }
  }

  lemma ReserveRows(s: Store, plan: Plan, owner: string, device: string, id: string)
    requires RowsOk(s) && plan.Valid()
    ensures RowsOk(Reserve(s, plan, owner, device, id))
  {
  }

  lemma ReservePhases(s: Store, plan: Plan, owner: string, device: string, id: string)
    requires OpsOk(s) && PhasesOk(s)
    ensures OpsOk(Reserve(s, plan, owner, device, id)) && PhasesOk(Reserve(s, plan, owner, device, id))
  {
    var t := Reserve(s, plan, owner, device, id);
    forall o | o in t.operations ensures OpOk(t, o) { assert OpOk(s, o); }
    forall x | x in t.allocations ensures PhaseOk(t, x) {
      if CanReserve(s, plan, id) && x == id {
        forall o ensures !Owns(t, id, o) { if o in s.operations { assert OpOk(s, o); } }
      } else {
        PhaseFrame(s, t, x);
      }
    }
  }

  lemma SamePrepares(s: Store, t: Store)
    requires AtMostOnePrepare(s) && t.operations.Keys <= s.operations.Keys
    requires forall o :: o in t.operations ==>
               t.operations[o].allocation == s.operations[o].allocation && t.operations[o].kind == s.operations[o].kind
    ensures AtMostOnePrepare(t)
  {
    forall p, q, id | Leads(t, id, p) && Leads(t, id, q) ensures p == q {
      assert Leads(s, id, p) && Leads(s, id, q);
    }
  }

  /** The operations of an identity that leaves the current table no longer constrain anything. */
  lemma SeenFrame(w: World, w': World)
    requires SeenOk(w) && w'.seen <= w.seen && w'.store.operations == w.store.operations
    requires forall id :: id in w'.store.allocations && Rank(w'.store.allocations[id].phase) <= 4 ==>
               (id in w.store.allocations && Rank(w.store.allocations[id].phase) <= 4)
               || (forall o :: !Owns(w.store, id, o))
    ensures SeenOk(w')
  {
    forall o | o in w'.seen ensures StillComplete(w'.store, o) {
      assert StillComplete(w.store, o) && Owns(w.store, w.store.operations[o].allocation, o);
    }
  }

  lemma ReserveKeeps(w: World, plan: Plan, owner: string, device: string, id: string)
    requires Inv(w) && plan.Valid()
    ensures Inv(Step(w, EvReserve(plan, owner, device, id)))
  {
    var w' := Step(w, EvReserve(plan, owner, device, id));
    ReserveRows(w.store, plan, owner, device, id);
    ReservePhases(w.store, plan, owner, device, id);
    SamePrepares(w.store, w'.store);
    ReserveIdentities(w, plan, owner, device, id);
    ReserveSeen(w, plan, owner, device, id);
    assert TokensOk(w');
  }

  lemma ReserveSeen(w: World, plan: Plan, owner: string, device: string, id: string)
    requires SeenOk(w) && OpsOk(w.store)
    ensures SeenOk(Step(w, EvReserve(plan, owner, device, id)))
  {
    var w' := Step(w, EvReserve(plan, owner, device, id));
    forall x | x in w'.store.allocations && x !in w.store.allocations ensures forall o :: !Owns(w.store, x, o) {
      forall o ensures !Owns(w.store, x, o) { if o in w.store.operations { assert OpOk(w.store, o); } }
    }
    SeenFrame(w, w');
  }

  lemma ReserveIdentities(w: World, plan: Plan, owner: string, device: string, id: string)
    requires IdentitiesOk(w) && RowsOk(w.store)
    ensures IdentitiesOk(Step(w, EvReserve(plan, owner, device, id)))
  {
    var w' := Step(w, EvReserve(plan, owner, device, id));
    if CanReserve(w.store, plan, id) {
      forall x | x in w'.store.history ensures RetiredOk(w'.store.history[x], x in w'.issued) {
        if x in w.store.history { assert RetiredOk(w.store.history[x], x in w.issued); }
      }
      forall x | x in w'.issued ensures x in w'.store.allocations || x in w'.store.history {}
    }
  }

  /** A store that differs from another at most in the phase of one row and the outcome of one operation of it. */
  ghost predicate Touches(s: Store, t: Store, id: string, op: Option<OpId>) {
    && t.history == s.history
    && t.allocations.Keys == s.allocations.Keys
    && t.operations.Keys == s.operations.Keys
    && (forall x :: x in s.allocations && x != id ==> t.allocations[x] == s.allocations[x])
    && (id in s.allocations ==>
          t.allocations[id] == s.allocations[id].(phase := t.allocations[id].phase, reason := t.allocations[id].reason))
    && (forall o :: o in s.operations && Some(o) != op ==> t.operations[o] == s.operations[o])
    && (op.Some? && op.value in s.operations ==>
          && s.operations[op.value].allocation == id
          && t.operations[op.value] == s.operations[op.value].(state := t.operations[op.value].state,
                                                               completed := t.operations[op.value].completed,
                                                               retention := t.operations[op.value].retention))
  }

  lemma TouchKeepsOps(s: Store, t: Store, id: string, op: Option<OpId>)
    requires Touches(s, t, id, op) && OpsOk(s)
    ensures OpsOk(t)
  {
    forall o | o in t.operations ensures OpOk(t, o) { assert OpOk(s, o); }
  }

  lemma TouchKeepsPhases(s: Store, t: Store, id: string, op: Option<OpId>)
    requires Touches(s, t, id, op) && PhasesOk(s)
    requires id in t.allocations ==> PhaseOk(t, id)
    ensures PhasesOk(t)
  {
    forall x | x in t.allocations ensures PhaseOk(t, x) {
      if x != id { PhaseFrame(s, t, x); }
    }
  }

  /** Rows keep their facts while plans and generations stay. */
  lemma SameSlots(s: Store, t: Store)
    requires RowsOk(s) && t.history == s.history && t.allocations.Keys == s.allocations.Keys
    requires forall id :: id in s.allocations ==>
               t.allocations[id].plan == s.allocations[id].plan && t.allocations[id].generation == s.allocations[id].generation
    ensures RowsOk(t)
  {
    forall a, b | a in t.allocations && b in t.allocations && t.allocations[a].plan.SlotOf() == t.allocations[b].plan.SlotOf()
      ensures a == b
    {
      assert s.allocations[a].plan == t.allocations[a].plan && s.allocations[b].plan == t.allocations[b].plan;
    }
  }

  lemma TouchKeepsRows(s: Store, t: Store, id: string, op: Option<OpId>)
    requires Touches(s, t, id, op) && RowsOk(s)
    ensures RowsOk(t)
  {
    hide RowsOk;
    SameSlots(s, t);
  }

  lemma TouchKeepsStore(s: Store, t: Store, id: string, op: Option<OpId>)
    requires Touches(s, t, id, op) && StoreOk(s)
    requires id in t.allocations ==> PhaseOk(t, id)
    ensures StoreOk(t)
  {
    TouchKeepsRows(s, t, id, op);
    TouchKeepsOps(s, t, id, op);
    TouchKeepsPhases(s, t, id, op);
    SamePrepares(s, t);
  }

  lemma TouchKeepsSeen(w: World, w': World, id: string, op: Option<OpId>)
    requires SeenOk(w) && Touches(w.store, w'.store, id, op)
    requires forall o :: o in w'.seen ==> o in w.seen || Some(o) == op
    requires id in w.store.allocations && Rank(w'.store.allocations[id].phase) <= 4 ==> Rank(w.store.allocations[id].phase) <= 4
    requires op.Some? && op.value in w'.seen ==> StillComplete(w'.store, op.value)
    ensures SeenOk(w')
  {
    forall o | o in w'.seen ensures StillComplete(w'.store, o) {
      if Some(o) != op { assert StillComplete(w.store, o); }
    }
  }

  /** The history of sends grows by the touched operation, or not at all. */
  predicate Sends(w: World, w': World, op: Option<OpId>) {
    && w'.awaiting <= w.awaiting
    && (w'.executed == w.executed
        || (op.Some? && op.value in w.awaiting && op.value !in w'.awaiting && w'.executed == w.executed + [op.value]))
  }

  predicate OutcomeOk(w': World, op: OpId) {
    op in w'.store.operations ==>
      && (w'.store.operations[op].state.Terminal() ==> op in w'.executed)
      && (op in w'.awaiting ==> !w'.store.operations[op].state.Terminal())
  }

  lemma TouchKeepsTokens(w: World, w': World, id: string, op: Option<OpId>)
    requires TokensOk(w) && Touches(w.store, w'.store, id, op) && Sends(w, w', op)
    requires op.Some? ==> OutcomeOk(w', op.value)
    ensures TokensOk(w')
  {
  }

  /** What a step that touches one row and one operation has to show. */
  lemma TouchKeeps(w: World, w': World, id: string, op: Option<OpId>)
    requires Inv(w) && Touches(w.store, w'.store, id, op) && Sends(w, w', op) && w'.issued == w.issued
    requires forall o :: o in w'.seen ==> o in w.seen || Some(o) == op
    requires id in w'.store.allocations ==> PhaseOk(w'.store, id)
    requires id in w.store.allocations && Rank(w'.store.allocations[id].phase) <= 4 ==> Rank(w.store.allocations[id].phase) <= 4
    requires op.Some? ==> OutcomeOk(w', op.value)
    requires op.Some? && op.value in w'.seen ==> StillComplete(w'.store, op.value)
    ensures Inv(w')
  {
    TouchKeepsStore(w.store, w'.store, id, op);
    TouchKeepsSeen(w, w', id, op);
    TouchKeepsTokens(w, w', id, op);
    assert IdentitiesOk(w');
  }

  /** A quarantined row promises nothing about its operations. */
  lemma QuarantineKeeps(w: World, w': World, id: string, op: Option<OpId>)
    requires Inv(w) && Touches(w.store, w'.store, id, op) && Sends(w, w', op) && w'.issued == w.issued
    requires forall o :: o in w'.seen ==> o in w.seen || Some(o) == op
    requires id in w'.store.allocations ==> w'.store.allocations[id].phase.Quarantined?
    requires op.Some? ==> OutcomeOk(w', op.value)
    requires op.Some? && op.value in w'.seen ==> op.value in w'.store.operations
    ensures Inv(w')
  {
    TouchKeeps(w, w', id, op);
  }

  lemma DispatchPhase(s: Store, op: OpId)
    requires StoreOk(s) && op in s.operations && !s.operations[op].state.Terminal() && s.operations[op].allocation in s.allocations
    ensures PhaseOk(WithState(s, op, Dispatched), s.operations[op].allocation)
  {
    hide RowsOk, OpsOk, AtMostOnePrepare;
    var t, id := WithState(s, op, Dispatched), s.operations[op].allocation;
    assert PhaseOk(s, id) && Owns(s, id, op);
    assert forall o :: Owns(t, id, o) <==> Owns(s, id, o);
    if s.allocations[id].phase.Checking? {
      var p :| UnderWay(s, id, p);
      UnderWayFrame(s, t, id, p);
    }
  }

  lemma DispatchKeeps(w: World, op: OpId)
    requires Inv(w) && op in w.awaiting
    ensures Inv(Step(w, EvDispatch(op)))
  {
    hide RowsOk, AtMostOnePrepare, PhaseOk;
    var w' := Step(w, EvDispatch(op));
    var id := w.store.operations[op].allocation;
    if id in w.store.allocations { DispatchPhase(w.store, op); }
    if op in w.seen { assert StillComplete(w.store, op); }
    TouchKeeps(w, w', id, Some(op));
  }

  lemma LostKeeps(w: World, h: Handle, op: OpId, reason: string)
    requires Inv(w) && Belongs(w.store, op, h.id, h.generation)
    ensures Inv(Step(w, EvLost(h, op, reason)))
  {
    hide RowsOk, AtMostOnePrepare, PhasesOk;
    var w' := Step(w, EvLost(h, op, reason));
    assert OpOk(w.store, op);
    if op in w.seen { assert StillComplete(w.store, op); }
    QuarantineKeeps(w, w', h.id, Some(op));
  }

  /** The last cleanup leaves nothing unresolved behind. */
  lemma ReplyFrees(s: Store, h: Handle, op: OpId, remote: Remote, now: int)
    requires OpsOk(s) && Belongs(s, op, h.id, h.generation) && Current(s, h) && Fenced(remote, op, h)
    requires FinishRemote(s, h, op, remote, now).allocations[h.id].phase.Available?
    ensures AvailableOk(FinishRemote(s, h, op, remote, now), h.id)
  {
    var t := FinishRemote(s, h, op, remote, now);
    assert Owns(t, h.id, op);
    forall o | Owns(t, h.id, o) ensures t.operations[o].state.Terminal() {
      if o != op {
        assert OpOk(s, o);
        assert !(Belongs(s, o, h.id, h.generation) && !s.operations[o].state.Terminal());
      }
    }
  }

  /** A reply that settles the preparation or a check leaves the generation under way. */
  lemma ReplyPhase(s: Store, h: Handle, op: OpId, remote: Remote, now: int)
    requires StoreOk(s) && Belongs(s, op, h.id, h.generation) && Current(s, h) && Fenced(remote, op, h)
    ensures PhaseOk(FinishRemote(s, h, op, remote, now), h.id)
  {
    var t := FinishRemote(s, h, op, remote, now);
    var phase := t.allocations[h.id].phase;
    if phase.Available? {
      ReplyFrees(s, h, op, remote, now);
    } else if phase.Prepared? || phase.Checking? {
      ReplyForward(s, h, op, remote, now);
    }
  }

  lemma ReplyForward(s: Store, h: Handle, op: OpId, remote: Remote, now: int)
    requires PhasesOk(s) && AtMostOnePrepare(s) && Belongs(s, op, h.id, h.generation) && Current(s, h) && Fenced(remote, op, h)
    requires FinishRemote(s, h, op, remote, now).allocations[h.id].phase in {Prepared, Checking}
    ensures PhaseOk(FinishRemote(s, h, op, remote, now), h.id)
  {
    var t := FinishRemote(s, h, op, remote, now);
    assert PhaseOk(s, h.id);
    assert forall o :: Owns(t, h.id, o) <==> Owns(s, h.id, o);
    if t.allocations[h.id].phase.Prepared? {
      forall o | Owns(t, h.id, o) ensures t.operations[o].kind.Prepare? && t.operations[o].state.Complete? {
        assert Leads(s, h.id, o) && Leads(s, h.id, op);
      }
    } else {
      var p :| UnderWay(s, h.id, p);
      UnderWayFrame(s, t, h.id, p);
    }
  }

  lemma ReplyRank(s: Store, h: Handle, op: OpId, remote: Remote, now: int)
    requires Belongs(s, op, h.id, h.generation) && Current(s, h) && Fenced(remote, op, h)
    ensures Rank(FinishRemote(s, h, op, remote, now).allocations[h.id].phase) <= 4 ==>
              Rank(s.allocations[h.id].phase) <= 4 && FinishRemote(s, h, op, remote, now).operations[op].state.Complete?
  {
  }

  lemma ReplyKeeps(w: World, h: Handle, op: OpId, remote: Remote, now: int)
    requires Inv(w) && Enabled(w, EvReply(h, op, remote, now)) && Honest(w, EvReply(h, op, remote, now))
    ensures Inv(Step(w, EvReply(h, op, remote, now)))
  {
    hide RowsOk, AtMostOnePrepare, UnderWay, AvailableOk, ReadyOk, PhaseAfter, Settled;
    var w' := Step(w, EvReply(h, op, remote, now));
    assert OpOk(w.store, op);
    if op in w.seen { assert StillComplete(w.store, op); }
    ReplyTouches(w.store, h, op, remote, now);
    if !Current(w.store, h) {
      if h.id in w.store.allocations { assert PhaseOk(w.store, h.id); }
    } else if Fenced(remote, op, h) {
      ReplyPhase(w.store, h, op, remote, now);
      ReplyRank(w.store, h, op, remote, now);
    }
    TouchKeeps(w, w', h.id, Some(op));
  }

  lemma ReplyTouches(s: Store, h: Handle, op: OpId, remote: Remote, now: int)
    requires Belongs(s, op, h.id, h.generation)
    ensures Touches(s, FinishRemote(s, h, op, remote, now), h.id, Some(op))
    ensures var o := FinishRemote(s, h, op, remote, now).operations[op];
            o.state == s.operations[op].state || !o.state.Terminal()
            || (Fenced(remote, op, h) && (remote.status.RemoteComplete? || remote.status.RemoteFailed?))
    ensures Current(s, h) && !Fenced(remote, op, h) ==> FinishRemote(s, h, op, remote, now).allocations[h.id].phase.Quarantined?
  {
  }

  /** The callers that report ready have been given every outcome of the generation. */
  lemma AllReturned(w: World, plan: Plan, h: Handle, base: OpId, o: OpId)
    requires Inv(w) && Enabled(w, EvReady(plan, h, base)) && Bound(w.store, h, plan)
    requires w.store.allocations[h.id].phase in {Prepared, Checking, Ready} && Owns(w.store, h.id, o)
    ensures UnderWay(w.store, h.id, base) && w.store.operations[o].state.Complete?
  {
    var s := w.store;
    assert PhaseOk(s, h.id) && OpOk(s, base) && StillComplete(s, base) && Leads(s, h.id, base);
    if s.allocations[h.id].phase.Prepared? {
      assert Leads(s, h.id, o);
      forall x | Owns(s, h.id, x) ensures x == base { assert Leads(s, h.id, x); }
    } else {
      var p :| UnderWay(s, h.id, p);
      if o != base {
        assert Follows(s, h.id, p, o);
        assert o == Derived(base, o.index) && Returned(w, h, Derived(base, o.index), plan.checks[o.index - 1]);
        assert StillComplete(s, o);
      }
    }
  }

  lemma ReadyPhase(w: World, plan: Plan, h: Handle, base: OpId)
    requires Inv(w) && Enabled(w, EvReady(plan, h, base)) && Bound(w.store, h, plan)
    requires w.store.allocations[h.id].phase in {Prepared, Checking, Ready}
    ensures PhaseOk(MarkReady(w.store, plan, h), h.id)
  {
    var s, t := w.store, MarkReady(w.store, plan, h);
    assert Owns(s, h.id, base);
    AllReturned(w, plan, h, base, base);
    forall o | Owns(t, h.id, o) ensures t.operations[o].state.Complete? && !t.operations[o].kind.Cleanup? {
      assert Owns(s, h.id, o);
      AllReturned(w, plan, h, base, o);
      if o != base { assert Follows(s, h.id, base, o); }
    }
    UnderWayFrame(s, t, h.id, base);
    forall i | 1 <= i <= |plan.checks|
      ensures Owns(t, h.id, Derived(base, i)) && t.operations[Derived(base, i)].recipe == plan.checks[i - 1]
    {
      assert Returned(w, h, Derived(base, i), plan.checks[i - 1]);
    }
    assert Covered(t, h.id, base);
  }

  lemma ReadyKeeps(w: World, plan: Plan, h: Handle, base: OpId)
    requires Inv(w) && Enabled(w, EvReady(plan, h, base))
    ensures Inv(Step(w, EvReady(plan, h, base)))
  {
    var w' := Step(w, EvReady(plan, h, base));
    if Bound(w.store, h, plan) && w.store.allocations[h.id].phase in {Prepared, Checking, Ready} {
      ReadyPhase(w, plan, h, base);
      TouchKeeps(w, w', h.id, None);
    }
  }

  lemma UnstartedKeeps(w: World, plan: Plan, id: string, generation: nat, owner: string, device: string)
    requires Inv(w)
    ensures Inv(Step(w, EvUnstarted(plan, id, generation, owner, device)))
  {
    var w' := Step(w, EvUnstarted(plan, id, generation, owner, device));
    if w' != w {
      forall o ensures !Owns(w'.store, id, o) {
        if Owns(w.store, id, o) { assert OpOk(w.store, o) && Belongs(w.store, o, id, generation); }
      }
      TouchKeeps(w, w', id, None);
    }
  }

  lemma SealKeeps(w: World, plan: Plan, id: string, owner: string, device: string)
    requires Inv(w)
    ensures Inv(Step(w, EvSeal(plan, id, owner, device)))
  {
    var w' := Step(w, EvSeal(plan, id, owner, device));
    if w' != w {
      forall o | o in w'.store.operations ensures OpOk(w'.store, o) { assert OpOk(w.store, o); }
      forall x | x in w'.store.allocations ensures PhaseOk(w'.store, x) { PhaseFrame(w.store, w'.store, x); }
      SamePrepares(w.store, w'.store);
      SeenFrame(w, w');
      forall x | x in w'.store.history ensures RetiredOk(w'.store.history[x], x in w'.issued) {
        if x != id { assert RetiredOk(w.store.history[x], x in w.issued); }
      }
    }
  }

  lemma RestartPhases(s: Store)
    requires PhasesOk(s)
    ensures PhasesOk(RecoverUnfinished(s))
  {
    var t := RecoverUnfinished(s);
    forall x | x in t.allocations ensures PhaseOk(t, x) {
      if s.allocations[x].phase.Available? {
        assert PhaseOk(s, x);
        forall o | Owns(s, x, o) ensures t.operations[o] == s.operations[o] { assert s.operations[o].state.Terminal(); }
        PhaseFrame(s, t, x);
      }
    }
  }

  lemma RestartRows(s: Store)
    requires RowsOk(s)
    ensures RowsOk(RecoverUnfinished(s))
  {
    hide RowsOk;
    SameSlots(s, RecoverUnfinished(s));
  }

  lemma RestartOps(s: Store)
    requires OpsOk(s)
    ensures OpsOk(RecoverUnfinished(s))
  {
    var t := RecoverUnfinished(s);
    forall o | o in t.operations ensures OpOk(t, o) { assert OpOk(s, o); }
  }

  lemma RestartKeeps(w: World)
    requires Inv(w)
    ensures Inv(Step(w, EvRestart))
  {
    hide StoreOk, RowsOk, OpsOk, PhasesOk, AtMostOnePrepare;
    RestartStore(w.store);
  }

  lemma RestartStore(s: Store)
    requires StoreOk(s)
    ensures StoreOk(RecoverUnfinished(s))
  {
    hide RowsOk, OpsOk, PhasesOk, AtMostOnePrepare;
    RestartRows(s);
    RestartOps(s);
    RestartPhases(s);
    SamePrepares(s, RecoverUnfinished(s));
  }

  // Admissions -----------------------------------------------------------------------------------

  /** The tables after a new operation. */
  ghost function Inserted(s: Store, h: Handle, op: OpId, o: Op): Store {
    WithPhase(s.(operations := s.operations[op := o]), h.id, h.generation, Entered(o.kind), None)
  }

  lemma FreshPhase(s: Store, h: Handle, op: OpId, o: Op)
    requires StoreOk(s) && Current(s, h) && op !in s.operations && o.allocation == h.id && o.state.Admitted?
    requires o.kind.Prepare? ==> s.allocations[h.id].phase.Reserved?
    requires o.kind.Check? ==> exists p :: UnderWay(s, h.id, p) && Follows(Inserted(s, h, op, o), h.id, p, op)
    ensures PhaseOk(Inserted(s, h, op, o), h.id)
  {
    hide RowsOk, OpsOk, AtMostOnePrepare;
    var t := Inserted(s, h, op, o);
    assert PhaseOk(s, h.id);
    assert forall x :: Owns(t, h.id, x) <==> Owns(s, h.id, x) || x == op;
    if o.kind.Check? {
      var p :| UnderWay(s, h.id, p) && Follows(t, h.id, p, op);
      forall x | Owns(t, h.id, x) && x != p ensures Follows(t, h.id, p, x) {
        if x != op { assert Follows(s, h.id, p, x); }
      }
      assert UnderWay(t, h.id, p);
    }
  }

  lemma FreshStore(s: Store, h: Handle, op: OpId, o: Op)
    requires StoreOk(s) && Current(s, h) && op !in s.operations && o.allocation == h.id && o.generation == h.generation
    requires RecipeOf(s.allocations[h.id].plan, o.kind, o.recipe) && o.state.Admitted?
    requires o.kind.Prepare? ==> s.allocations[h.id].phase.Reserved?
    requires o.kind.Check? ==> exists p :: UnderWay(s, h.id, p) && Follows(Inserted(s, h, op, o), h.id, p, op)
    ensures StoreOk(Inserted(s, h, op, o))
  {
    var t := Inserted(s, h, op, o);
    FreshPhase(s, h, op, o);
    FreshRows(s, h, op, o);
    FreshOps(s, h, op, o);
    FreshOthers(s, h, op, o);
    FreshPrepares(s, h, op, o);
  }

  lemma FreshOps(s: Store, h: Handle, op: OpId, o: Op)
    requires OpsOk(s) && Current(s, h) && op !in s.operations && o.allocation == h.id && o.generation == h.generation
    requires RecipeOf(s.allocations[h.id].plan, o.kind, o.recipe)
    ensures OpsOk(Inserted(s, h, op, o))
  {
    var t := Inserted(s, h, op, o);
    forall x | x in t.operations ensures OpOk(t, x) { if x != op { assert OpOk(s, x); } }
  }

  lemma FreshOthers(s: Store, h: Handle, op: OpId, o: Op)
    requires PhasesOk(s) && op !in s.operations && o.allocation == h.id && h.id in s.allocations
    requires PhaseOk(Inserted(s, h, op, o), h.id)
    ensures PhasesOk(Inserted(s, h, op, o))
  {
    var t := Inserted(s, h, op, o);
    forall x | x in t.allocations ensures PhaseOk(t, x) { if x != h.id { PhaseFrame(s, t, x); } }
  }

  lemma FreshRows(s: Store, h: Handle, op: OpId, o: Op)
    requires RowsOk(s)
    ensures RowsOk(Inserted(s, h, op, o))
  {
    var t := Inserted(s, h, op, o);
    forall a, b | a in t.allocations && b in t.allocations && t.allocations[a].plan.SlotOf() == t.allocations[b].plan.SlotOf()
      ensures a == b
    {
      assert s.allocations[a].plan.SlotOf() == s.allocations[b].plan.SlotOf();
    }
  }

  lemma FreshPrepares(s: Store, h: Handle, op: OpId, o: Op)
    requires AtMostOnePrepare(s) && PhasesOk(s) && Current(s, h) && op !in s.operations && o.allocation == h.id
    requires o.kind.Prepare? ==> s.allocations[h.id].phase.Reserved?
    ensures AtMostOnePrepare(Inserted(s, h, op, o))
  {
    var t := Inserted(s, h, op, o);
    assert PhaseOk(s, h.id);
    forall p, q, id | Leads(t, id, p) && Leads(t, id, q) ensures p == q {
      if p != op && q != op {
        assert Leads(s, id, p) && Leads(s, id, q);
      } else {
        assert p != op ==> Owns(s, h.id, p);
        assert q != op ==> Owns(s, h.id, q);
      }
    }
  }

  /** The record of a new operation. */
  ghost function Newcomer(s: Store, h: Handle, kind: Kind, recipe: string, payload: string): Op {
    Op(h.id, h.generation, kind, recipe, payload, Admitted, None, None, kind.Cleanup? && SomeEffectUnresolved(s, h.id, h.generation))
  }

  lemma AdmitShape(s: Store, plan: Plan, h: Handle, kind: Kind, recipe: string, payload: string, op: OpId, now: int)
    ensures var r := Admit(s, plan, h, kind, recipe, payload, op, now);
            match r.1
            case Refused => r.0 == s
            case Known(o) =>
              && Bound(s, h, plan) && Touches(s, r.0, h.id, Some(op)) && op in r.0.operations && o == r.0.operations[op]
              && (r.0 == s || (r.0.allocations[h.id].phase.Quarantined? && o.state.Unknown?))
            case Fresh =>
              && Bound(s, h, plan) && op !in s.operations && Admissible(s, h, kind)
              && r.0 == Inserted(s, h, op, Newcomer(s, h, kind, recipe, payload))
  {
  }

  lemma KnownKeeps(w: World, w': World, h: Handle, op: OpId)
    requires Inv(w) && Touches(w.store, w'.store, h.id, Some(op)) && h.id in w.store.allocations && op in w.store.operations
    requires w'.store == w.store || (w'.store.allocations[h.id].phase.Quarantined? && w'.store.operations[op].state.Unknown?)
    requires w'.awaiting == w.awaiting && w'.executed == w.executed && w'.issued == w.issued
    requires w'.seen == w.seen || (w'.seen == w.seen + {op} && w'.store.operations[op].state.Complete?)
    ensures Inv(w')
  {
    assert PhaseOk(w.store, h.id);
    if op in w.seen { assert StillComplete(w.store, op); }
    TouchKeeps(w, w', h.id, Some(op));
  }

  /** An admission refuses, answers from the record, or inserts an operation of the plan. */
  lemma AdmitKeeps(w: World, w': World, plan: Plan, h: Handle, kind: Kind, recipe: string, payload: string, op: OpId, now: int)
    requires Inv(w) && w' == AfterAdmit(w, plan, op, Admit(w.store, plan, h, kind, recipe, payload, op, now))
    requires RecipeOf(plan, kind, recipe)
    requires kind.Check? && Admit(w.store, plan, h, kind, recipe, payload, op, now).1.Fresh? ==>
               exists p :: UnderWay(w.store, h.id, p) && Follows(Inserted(w.store, h, op, Newcomer(w.store, h, kind, recipe, payload)), h.id, p, op)
    ensures Inv(w')
  {
    var r := Admit(w.store, plan, h, kind, recipe, payload, op, now);
    AdmitShape(w.store, plan, h, kind, recipe, payload, op, now);
    if r.1.Known? {
      KnownKeeps(w, w', h, op);
    } else if r.1.Fresh? {
      var o := Newcomer(w.store, h, kind, recipe, payload);
      FreshStore(w.store, h, op, o);
      FreshSeen(w, w', h, op, o);
      FreshTokens(w, w', h, op, o);
    } else {
      assert w' == w;
    }
  }

  lemma FreshTokens(w: World, w': World, h: Handle, op: OpId, o: Op)
    requires TokensOk(w) && IdentitiesOk(w) && w'.store == Inserted(w.store, h, op, o) && op !in w.store.operations && o.state.Admitted?
    requires w'.executed == w.executed && w'.issued == w.issued && w'.awaiting <= w.awaiting + {op}
    ensures TokensOk(w') && IdentitiesOk(w')
  {
  }

  lemma FreshSeen(w: World, w': World, h: Handle, op: OpId, o: Op)
    requires SeenOk(w) && w'.seen == w.seen && w'.store == Inserted(w.store, h, op, o)
    requires Current(w.store, h) && op !in w.store.operations && o.allocation == h.id
    requires o.kind.Cleanup? || Rank(w.store.allocations[h.id].phase) <= 4
    ensures SeenOk(w')
  {
    forall x | x in w'.seen ensures StillComplete(w'.store, x) {
      assert StillComplete(w.store, x);
    }
  }

  lemma CheckFollows(s: Store, plan: Plan, h: Handle, base: OpId, index: nat, o: Op)
    requires AtMostOnePrepare(s) && PhasesOk(s) && Bound(s, h, plan) && Admissible(s, h, Check) && 1 <= index <= |plan.checks|
    requires Leads(s, h.id, base) && StillComplete(s, base)
    requires o.kind.Check? && o.allocation == h.id && o.recipe == plan.checks[index - 1] && Derived(base, index) !in s.operations
    ensures UnderWay(s, h.id, base) && Follows(Inserted(s, h, Derived(base, index), o), h.id, base, Derived(base, index))
  {
    assert PhaseOk(s, h.id);
    if s.allocations[h.id].phase.Prepared? {
      forall x | Owns(s, h.id, x) ensures x == base { assert Leads(s, h.id, x); }
    } else {
      var p :| UnderWay(s, h.id, p);
      assert p == base;
    }
  }

  lemma BaseLeads(w: World, plan: Plan, h: Handle, base: OpId)
    requires OpsOk(w.store) && SeenOk(w) && RowsOk(w.store) && Returned(w, h, base, plan.fixture) && Bound(w.store, h, plan)
    ensures Leads(w.store, h.id, base) && StillComplete(w.store, base)
  {
    assert OpOk(w.store, base) && StillComplete(w.store, base) && plan.Valid();
  }

  lemma CheckKeeps(w: World, plan: Plan, h: Handle, base: OpId, index: nat, payload: string, now: int)
    requires Inv(w) && Enabled(w, EvCheck(plan, h, base, index, payload, now))
    ensures Inv(Step(w, EvCheck(plan, h, base, index, payload, now)))
  {
    var op, recipe := Derived(base, index), plan.checks[index - 1];
    if Admit(w.store, plan, h, Check, recipe, payload, op, now).1.Fresh? {
      AdmitShape(w.store, plan, h, Check, recipe, payload, op, now);
      BaseLeads(w, plan, h, base);
      CheckFollows(w.store, plan, h, base, index, Newcomer(w.store, h, Check, recipe, payload));
    }
    AdmitKeeps(w, Step(w, EvCheck(plan, h, base, index, payload, now)), plan, h, Check, recipe, payload, op, now);
  }
}
