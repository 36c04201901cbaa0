/** The coordinator object: its tables are updated in place, one critical section at a time. */
module FixtureCoordinators {
  import opened Wrappers
  import opened FixtureStore
  import opened FixtureRuns
  import opened FixtureSafety
  import opened FixtureCalls

  class FixtureCoordinator {
    var allocations: map<string, Row>
    var operations: map<OpId, Op>
    var history: map<string, Row>
    ghost var awaiting: set<OpId>
    ghost var executed: seq<OpId>
    ghost var seen: set<OpId>
    ghost var issued: set<string>

    ghost function Tables(): Store
      reads this
    {
      Store(allocations, operations, history)
    }

    ghost function Now(): World
      reads this
    {
      World(Tables(), awaiting, executed, seen, issued)
    }

    ghost predicate Valid()
      reads this
    {
      Reachable(Now())
    }

    /** Opening a store settles whatever an earlier process left behind. */
    constructor (rows: map<string, Row>, ops: map<OpId, Op>, retired: map<string, Row>, ghost prior: World)
      requires Reachable(prior) && prior.store == Store(rows, ops, retired)
      ensures Valid() && Now() == Step(prior, EvRestart)
    {
      allocations, operations, history := rows, ops, retired;
      awaiting, executed, seen, issued := {}, prior.executed, {}, prior.issued;
      new;
      operations := map o | o in operations :: Interrupted(operations[o]);
      allocations := map id | id in allocations :: Stranded(allocations[id]);
      ReachableStep(prior, EvRestart);
    }

    /** `_allocation`: the row that a handle still names. */
    function Lookup(h: Handle): (r: Option<Row>)
      reads this
      ensures r.Some? <==> Current(Tables(), h)
      ensures r.Some? ==> r.value == allocations[h.id]
    {
      if h.id in allocations && allocations[h.id].plan.fixture == h.fixture && allocations[h.id].generation == h.generation
         && allocations[h.id].owner == h.owner
      then Some(allocations[h.id]) else None
    }

    /** The row of a slot, found by scanning the table. */
    method FindHolder(slot: Slot) returns (r: Option<string>)
      requires RowsOk(Tables())
      ensures r == Holder(Tables(), slot)
    {
      var todo := allocations.Keys;
      r := None;
      while todo != {}
        invariant todo <= allocations.Keys
        invariant r.None? ==> forall id :: id in allocations.Keys - todo ==> allocations[id].plan.SlotOf() != slot
        invariant r.Some? ==> r.value in allocations && allocations[r.value].plan.SlotOf() == slot
        decreases todo
      {
        var id :| id in todo;
        if allocations[id].plan.SlotOf() == slot { r := Some(id); }
        todo := todo - {id};
      }
    }

    /** Whether the generation has an unresolved operation, optionally of effects only or besides one. */
    method CountUnresolved(id: string, generation: nat, effectsOnly: bool, besides: Option<OpId>) returns (found: bool)
      ensures !effectsOnly && besides.None? ==> found == SomeUnresolved(Tables(), id, generation)
      ensures effectsOnly && besides.None? ==> found == SomeEffectUnresolved(Tables(), id, generation)
      ensures !effectsOnly && besides.Some? ==> found == OtherUnresolved(Tables(), id, generation, besides.value)
    {
      found := false;
      ghost var example: Option<OpId> := None;
      var todo := operations.Keys;
      while todo != {}
        invariant todo <= operations.Keys
        invariant found ==> example.Some? && example.value in operations && Pending(example.value, id, generation, effectsOnly, besides)
        invariant !found ==> forall o :: o in operations && o !in todo ==> !Pending(o, id, generation, effectsOnly, besides)
        decreases todo
      {
        var o :| o in todo;
        if Pending(o, id, generation, effectsOnly, besides) { found := true; example := Some(o); }
        todo := todo - {o};
      }
      assert found ==> Belongs(Tables(), example.value, id, generation);
      assert !found ==> forall o :: Belongs(Tables(), o, id, generation) ==> !Pending(o, id, generation, effectsOnly, besides);
    }

    predicate Pending(o: OpId, id: string, generation: nat, effectsOnly: bool, besides: Option<OpId>)
      requires o in operations
      reads this
    {
      var op := operations[o];
      && op.allocation == id && op.generation == generation && Some(o) != besides && !op.state.Terminal()
      && (effectsOnly ==> !op.kind.Cleanup?)
    }

    method Reserve(plan: Plan, owner: string, device: string, id: string) returns (handle: Option<Handle>)
      requires Valid() && plan.Valid()
      modifies this
      ensures Valid() && Now() == Step(old(Now()), EvReserve(plan, owner, device, id))
      ensures handle.Some? <==> CanReserve(old(Tables()), plan, id)
      ensures handle.Some? ==> handle.value.id == id && Current(Tables(), handle.value)
    {
      ReachableStep(Now(), EvReserve(plan, owner, device, id));
      assert RowsOk(Tables()) by { ReachableKeeps(Now()); }
      handle := ReserveRow(plan, owner, device, id);
      issued := if handle.Some? then issued + {id} else issued;
    }

    method ReserveRow(plan: Plan, owner: string, device: string, id: string) returns (handle: Option<Handle>)
      requires RowsOk(Tables())
      modifies this`allocations, this`history
      ensures Tables() == FixtureStore.Reserve(old(Tables()), plan, owner, device, id)
      ensures handle.Some? <==> CanReserve(old(Tables()), plan, id)
      ensures handle.Some? ==> handle.value.id == id && Current(Tables(), handle.value)
    {
      if id in allocations || id in history { return None; }
      var holder := FindHolder(plan.SlotOf());
      handle := Occupy(holder, plan, owner, device, id);
    }

    /** Insert the row of a slot, retiring the available row that held it. */
    method Occupy(holder: Option<string>, plan: Plan, owner: string, device: string, id: string) returns (handle: Option<Handle>)
      requires id !in allocations && id !in history && holder == Holder(Tables(), plan.SlotOf())
      modifies this`allocations, this`history
      ensures Tables() == FixtureStore.Reserve(old(Tables()), plan, owner, device, id)
      ensures handle.Some? <==> CanReserve(old(Tables()), plan, id)
      ensures handle.Some? ==> handle.value.id == id && Current(Tables(), handle.value)
    {
      var generation: nat := 1;
      if holder.Some? {
        var row := allocations[holder.value];
        if !row.phase.Available? || |history| >= MAX_OPERATIONS { return None; }
        if holder.value !in history { history := history[holder.value := row]; }
        generation := row.generation + 1;
        allocations := allocations - {holder.value};
      }
      allocations := allocations[id := Row(plan, owner, device, generation, Reserved, None)];
      handle := Some(Handle(id, plan.fixture, generation, owner));
    }

    /** The admission critical section of `_operate`. */
    method Admit(plan: Plan, h: Handle, kind: Kind, recipe: string, payload: string, op: OpId, now: int) returns (reply: Reply)
      modifies this`allocations, this`operations
      ensures (Tables(), reply) == FixtureStore.Admit(old(Tables()), plan, h, kind, recipe, payload, op, now)
    {
      var current := Lookup(h);
      if current.None? || current.value.plan != plan || current.value.phase.Available? { return Refused; }
      var row := current.value;
      if op in operations {
        var known := operations[op];
        if known.allocation != h.id || known.generation != h.generation || known.recipe != recipe || known.payload != payload {
          return Refused;
        }
        if known.retention.Some? && known.retention.value <= now {
          operations := operations[op := known.(state := Unknown)];
          allocations := allocations[h.id := row.(phase := Quarantined, reason := Some("retention_expired"))];
        }
        return Known(operations[op]);
      }
      var unsafe := false;
      match kind {
        case Prepare =>
          if !row.phase.Reserved? { return Refused; }
        case Check =>
          if !row.phase.Prepared? && !row.phase.Checking? { return Refused; }
          var pending := CountUnresolved(h.id, h.generation, false, None);
          if pending { return Refused; }
        case Cleanup =>
          if row.phase.Cleaning? { return Refused; }
          unsafe := CountUnresolved(h.id, h.generation, true, None);
      }
      if |operations| >= MAX_OPERATIONS { return Refused; }
      operations := operations[op := Op(h.id, h.generation, kind, recipe, payload, Admitted, None, None, unsafe)];
      allocations := allocations[h.id := row.(phase := Entered(kind), reason := None)];
      reply := Fresh;
    }

    /** `_finish_remote_locked`. */
    method FinishRemote(h: Handle, op: OpId, remote: Remote, now: int)
      requires Valid() && Enabled(Now(), EvReply(h, op, remote, now)) && Honest(Now(), EvReply(h, op, remote, now))
      modifies this
      ensures Valid() && Now() == Step(old(Now()), EvReply(h, op, remote, now))
    {
      ghost var w := Now();
      ReachableStep(w, EvReply(h, op, remote, now));
      if Lookup(h).Some? {
          if remote.op != op || remote.generation != h.generation || remote.fence != h.generation {
            SetUnknown(h, op, "fence_mismatch");
          } else {
            Settle(h, op, remote, now);
          }
      }
      seen := if operations[op].state.Complete? then seen + {op} else seen;
    }

    /** The part of `_finish_remote_locked` after the fence. */
    method Settle(h: Handle, op: OpId, remote: Remote, now: int)
      requires Current(Tables(), h) && op in operations && Fenced(remote, op, h)
      modifies this`allocations, this`operations
      ensures Tables() == FixtureStore.FinishRemote(old(Tables()), h, op, remote, now)
    {
      var row, o := allocations[h.id], operations[op];
      var state, reason: Option<string> := Unknown, Some("remote_nonterminal");
      if remote.status.RemoteComplete? || remote.status.RemoteFailed? {
        if remote.retention.None? || remote.retention.value <= now || remote.completed.None? || remote.completed.value > now {
          reason := Some("retention_expired");
        } else if remote.status.RemoteComplete? {
          state, reason := Complete, None;
        } else {
          state, reason := Failed, Some("remote_failed");
        }
      } else if remote.status.RemoteExpired? {
        reason := Some("retention_expired");
      }
      var phase := Quarantined;
      if state.Complete? {
        if o.kind.Cleanup? && !o.unsafePrior && row.phase.Cleaning? {
          var others := CountUnresolved(h.id, h.generation, false, Some(op));
          if others { reason := Some("prior_operation_unknown"); } else { phase := Available; }
        } else if o.kind.Prepare? && row.phase.Preparing? {
          phase := Prepared;
        } else if o.kind.Check? && row.phase.Checking? {
          phase := Checking;
        }
      }
      operations := operations[op := o.(state := state, completed := remote.completed, retention := remote.retention)];
      allocations := allocations[h.id := row.(phase := phase, reason := reason)];
    }

    method SetUnknown(h: Handle, op: OpId, reason: string)
      requires op in operations
      modifies this`allocations, this`operations
      ensures Tables() == FinishUnknown(old(Tables()), h, op, reason)
    {
      operations := operations[op := operations[op].(state := Unknown)];
      if h.id in allocations && allocations[h.id].generation == h.generation {
        allocations := allocations[h.id := allocations[h.id].(phase := Quarantined, reason := Some(reason))];
      }
    }

    method Lose(h: Handle, op: OpId, reason: string)
      requires Valid() && Enabled(Now(), EvLost(h, op, reason))
      modifies this
      ensures Valid() && Now() == Step(old(Now()), EvLost(h, op, reason))
    {
      ReachableStep(Now(), EvLost(h, op, reason));
      SetUnknown(h, op, reason);
    }

    method Dispatch(op: OpId)
      requires Valid() && op in awaiting
      modifies this
      ensures Valid() && Now() == Step(old(Now()), EvDispatch(op))
    {
      ReachableStep(Now(), EvDispatch(op));
      assert op in operations by { ReachableKeeps(Now()); }
      operations := operations[op := operations[op].(state := Dispatched)];
      awaiting, executed := awaiting - {op}, executed + [op];
    }

    /** The admission of one of the three kinds of operation, as the step it is. */
    method Propose(plan: Plan, h: Handle, kind: Kind, recipe: string, op: OpId, payload: string, now: int, ghost admission: Event)
      returns (reply: Reply)
      requires Valid() && Enabled(Now(), admission) && IsAdmission(admission, plan, h, kind, recipe, op, payload, now)
      modifies this
      ensures Valid() && Now() == Step(old(Now()), admission)
      ensures executed == old(executed) && issued == old(issued) && old(seen) <= seen
      ensures reply == FixtureStore.Admit(old(Tables()), plan, h, kind, recipe, payload, op, now).1
      ensures reply.Fresh? ==> Belongs(Tables(), op, h.id, h.generation) && operations[op].recipe == recipe && Current(Tables(), h)
      ensures reply.Fresh? ==> (op in awaiting <==> plan.remoteFencing && plan.terminalStatus)
      ensures reply.Known? && reply.op.state.Complete? ==> Returned(Now(), h, op, recipe)
    {
      hide Reachable, Legal, Run, Honest, FixtureStore.Admit;
      ghost var w := Now();
      ReachableStep(w, admission);
      AdmissionShape(w, plan, h, kind, recipe, payload, op, now);
      AdmissionStep(w, admission, plan, h, kind, recipe, op, payload, now);
      assert op !in operations ==> op !in awaiting by { ReachableKeeps(w); }
      reply := Admit(plan, h, kind, recipe, payload, op, now);
      awaiting := if reply.Fresh? && plan.remoteFencing && plan.terminalStatus then awaiting + {op} else awaiting;
      seen := if reply.Known? && reply.op.state.Complete? then seen + {op} else seen;
    }

    /** `_operate`: admit, send, and record what came back. */
    method Operate(plan: Plan, h: Handle, kind: Kind, recipe: string, op: OpId, payload: string, now: int, answer: Answer,
                   ghost admission: Event)
      returns (status: Option<OpState>, ghost trace: seq<Event>)
      requires Valid() && Enabled(Now(), admission) && IsAdmission(admission, plan, h, kind, recipe, op, payload, now)
      modifies this
      ensures Valid() && Now() == Run(old(Now()), trace) && Legal(old(Now()), trace)
      ensures var reply := FixtureStore.Admit(old(Tables()), plan, h, kind, recipe, payload, op, now).1;
              && trace == OperateEvents(admission, reply, plan, h, op, answer)
              && (status.None? <==> reply.Refused?)
              && (reply.Known? ==> status == Some(reply.op.state))
              && (reply.Fresh? ==> op in operations && status == Some(operations[op].state))
              && (status == Some(Complete) <==> Succeeds(reply, plan, h, op, answer))
      ensures status == Some(Complete) ==> Returned(Now(), h, op, recipe)
      ensures Held(old(Tables()), plan, h) && Presented(old(Tables()), h, recipe, op, payload) ==>
                var known := old(operations)[op];
                if known.retention.Some? && known.retention.value <= now
                then status == Some(Unknown) && operations == old(operations)[op := known.(state := Unknown)]
                     && allocations == old(allocations)[h.id := old(allocations)[h.id].(phase := Quarantined, reason := Some("retention_expired"))]
                else status == Some(known.state) && Tables() == old(Tables())
      ensures issued == old(issued) && old(seen) <= seen
    {
      hide Reachable, FixtureStore.Admit;
      ghost var w := Now();
      KnownReply(w, admission, plan, h, kind, recipe, op, payload, now);
      var reply := Propose(plan, h, kind, recipe, op, payload, now, admission);
      trace := [admission];
      RunOne(w, admission);
      status := None;
      if reply.Known? {
        status := Some(reply.op.state);
      } else if reply.Fresh? {
        ghost var w1 := Now();
        ghost var rest := Send(plan, h, op, answer);
        RunAppend(w, trace, rest);
        LegalAppend(w, trace, rest);
        trace := trace + rest;
        RunKeepsFacts(w1, rest, op);
        status := Some(operations[op].state);
      }
      assert [admission] + [] == [admission];
    }

    /** The send of a new operation and the result it is given. */
    method Send(plan: Plan, h: Handle, op: OpId, answer: Answer) returns (ghost trace: seq<Event>)
      requires Valid() && Belongs(Tables(), op, h.id, h.generation)
      requires op in awaiting <==> CanFence(plan)
      modifies this
      ensures Valid() && Now() == Run(old(Now()), trace) && Legal(old(Now()), trace)
      ensures trace == SendEvents(plan, h, op, answer)
      ensures executed == old(executed) + if CanFence(plan) then [op] else []
      ensures op in operations && (operations[op].state.Complete? ==> op in seen)
      ensures Current(old(Tables()), h) ==> (operations[op].state.Complete? <==> Confirmed(plan, h, op, answer))
      ensures issued == old(issued) && old(seen) <= seen
    {
      hide Reachable;
      ghost var w := Now();
      if !plan.remoteFencing || !plan.terminalStatus {
        Lose(h, op, "adapter_unfenced");
        trace := [EvLost(h, op, "adapter_unfenced")];
        RunOne(w, trace[0]);
        return;
      }
      Dispatch(op);
      ghost var w1 := Now();
      ghost var last;
      match answer {
        case Replied(remote, at) =>
          last := EvReply(h, op, remote, at);
          assert w1.executed[|w1.executed| - 1] == op;
          FinishRemote(h, op, remote, at);
          ReplyTouches(w1.store, h, op, remote, at);
          if Current(w1.store, h) { ReplyCompletes(w1.store, h, op, remote, at); }
        case Silent(reason) =>
          last := EvLost(h, op, reason);
          Lose(h, op, reason);
      }
      trace := [EvDispatch(op), last];
      RunTwo(w, EvDispatch(op), last);
    }

    /** `prepare`: the preparation, then each check in turn, then the ready mark.  The call carries what the
        authorizer says before each effect, what the adapter answers to each send, and when. */
    method Prepare(call: Call) returns (complete: bool, receipts: seq<OpId>, ghost trace: seq<Event>)
      requires Valid() && call.plan.Valid()
      modifies this
      ensures Valid() && Now() == Run(old(Now()), trace) && Legal(old(Now()), trace)
      ensures trace == PrepareRun(old(Now()), call)
      ensures complete <==> Completes(old(Now()), call)
      ensures complete ==> Current(Tables(), call.handle) && allocations[call.handle.id].phase.Ready?
                           && receipts == Receipts(call.op, |call.plan.checks|)
    {
      hide Reachable, Run, Legal, Step, ChecksPass, ChecksRun;
      complete, receipts, trace := false, [], [];
      ghost var w := Now();
      RunNone(w);
      if !call.authorized(0) { return; }
      var plan, h, op := call.plan, call.handle, call.op;
      var status;
      status, trace := Operate(plan, h, FixtureStore.Prepare, plan.fixture, op, call.payload, call.times(0), call.answers(0), call.First());
      assert trace == FirstEvents(w, call) && Now() == AfterFirst(w, call);
      assert trace + [] + [] == trace;
      if status != Some(Complete) { return; }
      var passed;
      ghost var part;
      passed, receipts, part := RunChecks(call);
      RunAppend(w, trace, part);
      LegalAppend(w, trace, part);
      trace := trace + part;
      assert trace + [] == trace;
      if !passed || !call.authorized(|plan.checks| + 1) { return; }
      ghost var e := EvReady(plan, h, op);
      ghost var before := Now();
      assert before == Run(AfterFirst(w, call), part);
      RunOne(before, e);
      RunAppend(w, trace, [e]);
      LegalAppend(w, trace, [e]);
      trace := trace + [e];
      complete := CompletePreparation(plan, h, op);
    }

    /** The loop of `prepare`: it stops at the first check that is not authorized or not complete. */
    method RunChecks(call: Call) returns (passed: bool, receipts: seq<OpId>, ghost trace: seq<Event>)
      requires Valid() && Gathered(Now(), call.handle, call.plan, call.op, 0)
      modifies this
      ensures Valid() && Now() == Run(old(Now()), trace) && Legal(old(Now()), trace)
      ensures trace == ChecksRun(old(Now()), call, 1)
      ensures passed <==> ChecksPass(old(Now()), call, 1)
      ensures passed ==> Gathered(Now(), call.handle, call.plan, call.op, |call.plan.checks|) && receipts == Receipts(call.op, |call.plan.checks|)
    {
      hide Run, Legal, Step, Reachable, Honest, Gathered, CheckEvents, CheckPasses;
      passed, receipts, trace := false, [call.op], [];
      ghost var w := Now();
      RunNone(w);
      var index := 1;
      while index <= |call.plan.checks|
        invariant 1 <= index <= |call.plan.checks| + 1
        invariant Valid() && Now() == Run(w, trace) && Legal(w, trace)
        invariant trace + ChecksRun(Now(), call, index) == ChecksRun(w, call, 1)
        invariant ChecksPass(Now(), call, index) <==> ChecksPass(w, call, 1)
        invariant Gathered(Now(), call.handle, call.plan, call.op, index - 1) && receipts == Receipts(call.op, index - 1)
      {
        if !call.authorized(index) { return; }
        ghost var part;
        var complete;
        complete, part := RunCheck(call, index);
        RunAppend(w, trace, part);
        LegalAppend(w, trace, part);
        ghost var before := trace;
        trace := trace + part;
        if !complete { return; }
        assert before + (part + ChecksRun(Now(), call, index + 1)) == trace + ChecksRun(Now(), call, index + 1);
        receipts := receipts + [Derived(call.op, index)];
        index := index + 1;
      }
      passed := true;
    }

    /** One check of the loop. */
    method RunCheck(call: Call, index: nat) returns (complete: bool, ghost trace: seq<Event>)
      requires Valid() && 1 <= index <= |call.plan.checks| && Gathered(Now(), call.handle, call.plan, call.op, index - 1)
      modifies this
      ensures Valid() && Now() == Run(old(Now()), trace) && Legal(old(Now()), trace)
      ensures trace == CheckEvents(old(Now()), call, index) && (complete <==> CheckPasses(old(Now()), call, index))
      ensures complete ==> Gathered(Now(), call.handle, call.plan, call.op, index)
    {
      hide Run, Legal, Step, Reachable, Honest, Gathered, FixtureStore.Admit, Succeeds, OperateEvents;
      ghost var w := Now();
      GatheredAllows(w, call.handle, call.plan, call.op, index, call.payload, call.times(index));
      var status;
      status, trace := Operate(call.plan, call.handle, Check, call.plan.checks[index - 1], Derived(call.op, index), call.payload,
                               call.times(index), call.answers(index), call.Next(index));
      complete := status == Some(Complete);
      if complete { GatheredGrows(w, trace, call.handle, call.plan, call.op, index); }
    }

    /** The last critical section of `prepare`. */
    method CompletePreparation(plan: Plan, h: Handle, op: OpId) returns (complete: bool)
      requires Valid() && Enabled(Now(), EvReady(plan, h, op))
      modifies this
      ensures Valid() && Now() == Step(old(Now()), EvReady(plan, h, op))
      ensures complete <==> Bound(old(Tables()), h, plan) && old(allocations)[h.id].phase in {Prepared, Checking, Ready}
      ensures complete ==> Current(Tables(), h) && allocations[h.id].phase.Ready?
    {
      ReachableStep(Now(), EvReady(plan, h, op));
      complete := false;
      var row := Lookup(h);
      if row.Some? && row.value.plan == plan && row.value.phase in {Prepared, Checking, Ready} {
        allocations := allocations[h.id := row.value.(phase := Ready, reason := None)];
        complete := true;
      }
    }

    /** The operations of one generation, each once. */
    method ListGeneration(id: string, generation: nat) returns (listing: seq<OpId>)
      ensures forall o :: o in listing <==> Belongs(Tables(), o, id, generation)
      ensures forall i, j :: 0 <= i < j < |listing| ==> listing[i] != listing[j]
    {
      listing := [];
      var todo := operations.Keys;
      while todo != {}
        invariant todo <= operations.Keys
        invariant forall o :: o in listing <==> o !in todo && Belongs(Tables(), o, id, generation)
        invariant forall i, j :: 0 <= i < j < |listing| ==> listing[i] != listing[j]
        decreases todo
      {
        var o :| o in todo;
        if operations[o].allocation == id && operations[o].generation == generation { listing := listing + [o]; }
        todo := todo - {o};
      }
    }

    /** `reconcile`: ask the adapter about every operation of the generation and record each answer.  It leaves
        ended exactly the operations whose end was attested, and nothing in flight; a slot that was neither being
        cleaned nor available ends quarantined. */
    method Reconcile(plan: Plan, h: Handle, answers: OpId -> Answer) returns (done: bool, ghost trace: seq<Event>)
      requires Valid()
      requires forall o :: Belongs(Tables(), o, h.id, h.generation) ==> Truthful(executed, h, o, answers(o))
      modifies this
      ensures Valid() && Now() == Run(old(Now()), trace) && Legal(old(Now()), trace)
      ensures done <==> Bound(old(Tables()), h, plan)
      ensures !done ==> trace == [] && Now() == old(Now())
      ensures done ==> exists listing :: Lists(old(Tables()), h, listing) && trace == Recordings(h, listing, answers) + [EvEndReconcile(h)]
      ensures done ==> Bound(Tables(), h, plan) && allocations[h.id].phase in {Quarantined, Available}
      ensures done && old(allocations)[h.id].phase !in {Cleaning, Available} ==> allocations[h.id].phase.Quarantined?
      ensures done ==> Recorded(old(Tables()), Tables(), h, answers)
    {
      hide Reachable, Run, Legal, Step, Recordings;
      trace := [];
      ghost var w := Now();
      RunNone(w);
      if Lookup(h).None? || Lookup(h).value.plan != plan { return false, []; }
      done := true;
      var listing := ListGeneration(h.id, h.generation);
      trace := RecordAll(h, listing, answers);
      ghost var v := Now();
      PlanStays(w, trace, h.id);
      EndReconcile(h);
      RunOne(v, EvEndReconcile(h));
      RunAppend(w, trace, [EvEndReconcile(h)]);
      LegalAppend(w, trace, [EvEndReconcile(h)]);
      assert Lists(w.store, h, listing) && trace + [EvEndReconcile(h)] == Recordings(h, listing, answers) + [EvEndReconcile(h)];
      trace := trace + [EvEndReconcile(h)];
    }

    /** The loop of `reconcile`. */
    method RecordAll(h: Handle, listing: seq<OpId>, answers: OpId -> Answer) returns (ghost trace: seq<Event>)
      requires Valid() && Current(Tables(), h) && Lists(Tables(), h, listing)
      requires forall o :: o in listing ==> Truthful(executed, h, o, answers(o))
      modifies this
      ensures Valid() && Now() == Run(old(Now()), trace) && Legal(old(Now()), trace) && Current(Tables(), h)
      ensures trace == Recordings(h, listing, answers)
      ensures StaysTaken(old(Tables()), Tables(), h.id)
      ensures Recorded(old(Tables()), Tables(), h, answers)
    {
      hide Run, Legal, Step, Reachable, Honest, Enabled, Truthful, AnsweredBy, Touches, Current, SameOperations, StaysTaken, Recordings;
      trace := [];
      ghost var w := Now();
      RunNone(w);
      NothingRecorded(w.store, h);
      assert listing[..0] == [];
      RecordingsOf(h, [], answers);
      for k := 0 to |listing|
        invariant Valid() && Now() == Run(w, trace) && Legal(w, trace) && trace == Recordings(h, listing[..k], answers)
        invariant executed == w.executed && Current(Tables(), h) && SameOperations(w.store, Tables())
        invariant StaysTaken(w.store, Tables(), h.id)
        invariant forall i | 0 <= i < k :: listing[i] in operations && AnsweredBy(operations[listing[i]], h, listing[i], answers(listing[i]))
      {
        var o := listing[k];
        assert o in listing;
        StillBelongs(w.store, Tables(), h, o);
        ghost var v := Now();
        ghost var e := RecordEvent(h, o, answers(o));
        Record(h, o, answers(o));
        RecordedOne(w.store, v.store, Tables(), h, o);
        RunOne(v, e);
        RunAppend(w, trace, [e]);
        LegalAppend(w, trace, [e]);
        assert listing[..k + 1] == listing[..k] + [o];
        RecordingsOf(h, listing[..k], answers);
        trace := trace + [e];
      }
      assert listing[..|listing|] == listing;
      forall o | Belongs(Tables(), o, h.id, h.generation) ensures AnsweredBy(operations[o], h, o, answers(o)) {
        StillBelongs(w.store, Tables(), h, o);
        assert o in listing;
      }
    }

    /** The last critical section of `reconcile`. */
    method EndReconcile(h: Handle)
      requires Valid() && Current(Tables(), h)
      modifies this
      ensures Valid() && Now() == Step(old(Now()), EvEndReconcile(h))
      ensures operations == old(operations) && h.id in allocations && allocations[h.id].phase in {Quarantined, Available}
      ensures allocations[h.id].phase.Available? <==> old(allocations)[h.id].phase.Available?
      ensures allocations[h.id] == old(allocations)[h.id].(phase := allocations[h.id].phase, reason := allocations[h.id].reason)
    {
      ReachableStep(Now(), EvEndReconcile(h));
      var row := allocations[h.id];
      if !row.phase.Available? {
        allocations := allocations[h.id := row.(phase := Quarantined,
                                                reason := if row.reason.None? then Some("reconciliation_required") else row.reason)];
      }
    }

    /** One answer of a reconciliation. */
    method Record(h: Handle, o: OpId, answer: Answer)
      requires Valid() && Belongs(Tables(), o, h.id, h.generation) && Current(Tables(), h) && Truthful(executed, h, o, answer)
      modifies this
      ensures Valid() && Now() == Step(old(Now()), RecordEvent(h, o, answer))
      ensures Enabled(old(Now()), RecordEvent(h, o, answer)) && Honest(old(Now()), RecordEvent(h, o, answer))
      ensures Touches(old(Tables()), Tables(), h.id, Some(o)) && Current(Tables(), h) && executed == old(executed)
      ensures StaysTaken(old(Tables()), Tables(), h.id)
      ensures AnsweredBy(operations[o], h, o, answer)
    {
      hide Reachable, FixtureStore.FinishRemote, FinishUnknown, Touches, AnsweredBy, Current;
      RecordShape(Now(), h, o, answer);
      match answer {
        case Replied(remote, at) => FinishRemote(h, o, remote, at);
        case Silent(_) => Lose(h, o, "status_unknown");
      }
    }

    method RetainForCleanup(h: Handle)
      requires Valid()
      modifies this
      ensures Valid() && Now() == Step(old(Now()), EvRetain(h))
    {
      ReachableStep(Now(), EvRetain(h));
      if Lookup(h).Some? {
        allocations := allocations[h.id := allocations[h.id].(phase := Quarantined, reason := Some("producer_cleanup_unknown"))];
      }
    }

    /** `seal_unstarted_reservation`: succeeds when the marker is written now or was written for the same caller. */
    method SealUnstartedReservation(plan: Plan, id: string, owner: string, device: string) returns (sealed: bool)
      requires Valid()
      modifies this
      ensures Valid() && Now() == Step(old(Now()), EvSeal(plan, id, owner, device))
      ensures sealed ==> id in history && history[id] == SealRow(plan, owner, device) && id !in allocations
      ensures sealed <==> id !in old(allocations) && (if id in old(history) then old(history)[id] == SealRow(plan, owner, device)
                                                      else |old(history)| < MAX_OPERATIONS)
    {
      ReachableStep(Now(), EvSeal(plan, id, owner, device));
      if id in allocations { return false; }
      if id in history { return history[id] == SealRow(plan, owner, device); }
      if |history| >= MAX_OPERATIONS { return false; }
      history := history[id := SealRow(plan, owner, device)];
      sealed := true;
    }

    /** Whether every operation of the generation ended and a safe cleanup of this recipe is complete. */
    method GenerationIsClean(id: string, generation: nat, recipe: string) returns (clean: bool)
      ensures clean <==> CleanHistory(Tables(), id, generation, recipe)
    {
      var listing := ListGeneration(id, generation);
      var allEnded, cleaned := true, false;
      ghost var example: OpId := Named("");
      for k := 0 to |listing|
        invariant allEnded <==> forall i | 0 <= i < k :: Belongs(Tables(), listing[i], id, generation) && operations[listing[i]].state.Terminal()
        invariant cleaned ==> Belongs(Tables(), example, id, generation) && SafeCleanup(operations[example], recipe)
        invariant !cleaned ==> forall i | 0 <= i < k :: Belongs(Tables(), listing[i], id, generation) ==> !SafeCleanup(operations[listing[i]], recipe)
      {
        assert listing[k] in listing;
        var op := operations[listing[k]];
        if !op.state.Terminal() { allEnded := false; }
        if SafeCleanup(op, recipe) { cleaned := true; example := listing[k]; }
      }
      clean := allEnded && cleaned;
      assert forall o :: Belongs(Tables(), o, id, generation) ==> o in listing;
    }

    /** The inspecting half of `recover_cleanup`: a settled generation is reported, one that never started is
        released, a quarantined one is cleaned, and anything else is refused. */
    method Inspect(plan: Plan, h: Handle, device: string, prepareOp: OpId, payload: string, allowUnstarted: bool)
      returns (decision: Decision)
      requires plan.fixture == h.fixture
      ensures decision == Conclude(Historical) <==> h.id !in allocations && GivenBack(Tables(), plan, h, device, prepareOp, payload, allowUnstarted)
      ensures decision == Conclude(Recovered) <==> h.id in allocations && GivenBack(Tables(), plan, h, device, prepareOp, payload, allowUnstarted)
      ensures decision == Release <==> Releasable(Tables(), plan, h, device, allowUnstarted)
      ensures decision == Clean <==> Cleanable(Tables(), plan, h, device, prepareOp, payload)
      ensures decision != Conclude(Inconclusive)
    {
      var historical := h.id !in allocations;
      if historical && h.id !in history { return Conclude(Denied); }
      var row := if historical then history[h.id] else allocations[h.id];
      if row.plan != plan || row.generation != h.generation || row.owner != h.owner || row.device != device { return Conclude(Denied); }
      var listing := ListGeneration(h.id, h.generation);
      assert listing != [] ==> listing[0] in listing;
      if allowUnstarted && listing == [] {
        if row.phase !in {Reserved, Quarantined, Available} || (historical && !row.phase.Available?) { return Conclude(Denied); }
        if historical { return Conclude(Historical); }
        return if row.phase.Available? then Conclude(Recovered) else Release;
      }
      if prepareOp !in listing { return Conclude(Denied); }
      var prepared := operations[prepareOp];
      if !prepared.kind.Prepare? || prepared.recipe != plan.fixture || prepared.payload != payload { return Conclude(Denied); }
      if row.phase.Available? {
        var clean := GenerationIsClean(h.id, h.generation, plan.cleanup);
        return if !clean then Conclude(Denied) else if historical then Conclude(Historical) else Conclude(Recovered);
      }
      decision := if historical || !row.phase.Quarantined? then Conclude(Denied) else Clean;
    }

    /** `recover_cleanup`.  A quarantined generation is recovered exactly when the end of each of its operations is
        attested and a new cleanup is confirmed. */
    method RecoverCleanup(plan: Plan, h: Handle, device: string, prepareOp: OpId, payload: string, cleanupOp: OpId,
                          allowUnstarted: bool, now: int, answers: OpId -> Answer, cleanupAnswer: Answer)
      returns (verdict: Recovery, ghost trace: seq<Event>)
      requires Valid() && plan.fixture == h.fixture
      requires forall o :: Belongs(Tables(), o, h.id, h.generation) ==> Truthful(executed, h, o, answers(o))
      modifies this
      ensures Valid() && Now() == Run(old(Now()), trace) && Legal(old(Now()), trace)
      ensures verdict == Denied <==> !GivenBack(old(Tables()), plan, h, device, prepareOp, payload, allowUnstarted)
                                     && !Releasable(old(Tables()), plan, h, device, allowUnstarted)
                                     && !Cleanable(old(Tables()), plan, h, device, prepareOp, payload)
      ensures verdict == Historical <==> h.id !in old(allocations) && GivenBack(old(Tables()), plan, h, device, prepareOp, payload, allowUnstarted)
      ensures verdict == Recovered <==>
                || (h.id in old(allocations) && GivenBack(old(Tables()), plan, h, device, prepareOp, payload, allowUnstarted))
                || Releasable(old(Tables()), plan, h, device, allowUnstarted)
                || (Cleanable(old(Tables()), plan, h, device, prepareOp, payload)
                    && Restores(old(Tables()), plan, h, cleanupOp, answers, cleanupAnswer))
      ensures verdict in {Denied, Historical} ==> Now() == old(Now())
      ensures verdict == Historical ==> h.id in history && history[h.id].phase.Available?
      ensures verdict == Recovered ==> h.id in allocations && allocations[h.id].phase.Available? && allocations[h.id].plan == plan
      ensures verdict in {Historical, Recovered} ==> Settlement(Tables(), h.id, h.generation, plan.cleanup)
    {
      var decision := Inspect(plan, h, device, prepareOp, payload, allowUnstarted);
      RunNone(Now());
      match decision {
        case Conclude(v) => verdict, trace := v, [];
        case Release =>
          verdict := Recovered;
          trace := ReleaseUnstarted(plan, h, device);
        case Clean => verdict, trace := CleanQuarantined(plan, h, cleanupOp, now, answers, cleanupAnswer);
      }
    }

    /** Free a bound allocation that started nothing. */
    method ReleaseUnstarted(plan: Plan, h: Handle, device: string) returns (ghost trace: seq<Event>)
      requires Valid() && Bound(Tables(), h, plan) && allocations[h.id].device == device
      requires allocations[h.id].phase in {Reserved, Quarantined} && Unstarted(Tables(), h.id, h.generation)
      modifies this
      ensures Valid() && Now() == Run(old(Now()), trace) && Legal(old(Now()), trace)
      ensures h.id in allocations && allocations[h.id].phase.Available? && allocations[h.id].plan == plan
      ensures Settlement(Tables(), h.id, h.generation, plan.cleanup)
    {
      ghost var e := EvUnstarted(plan, h.id, h.generation, h.owner, device);
      RunOne(Now(), e);
      trace := [e];
      MarkAvailable(plan, h, device);
    }

    method MarkAvailable(plan: Plan, h: Handle, device: string)
      requires Valid() && Bound(Tables(), h, plan) && allocations[h.id].device == device
      requires allocations[h.id].phase in {Reserved, Quarantined} && Unstarted(Tables(), h.id, h.generation)
      modifies this
      ensures Valid() && Now() == Step(old(Now()), EvUnstarted(plan, h.id, h.generation, h.owner, device))
      ensures Unstarted(Tables(), h.id, h.generation)
      ensures h.id in allocations && allocations[h.id] == old(allocations)[h.id].(phase := Available, reason := Some("unstarted_recovery"))
    {
      ReachableStep(Now(), EvUnstarted(plan, h.id, h.generation, h.owner, device));
      allocations := allocations[h.id := allocations[h.id].(phase := Available, reason := Some("unstarted_recovery"))];
      assert forall o :: Belongs(Tables(), o, h.id, h.generation) ==> Belongs(old(Tables()), o, h.id, h.generation);
    }

    /** Reconcile a quarantined allocation, then clean it. */
    method CleanQuarantined(plan: Plan, h: Handle, cleanupOp: OpId, now: int, answers: OpId -> Answer, cleanupAnswer: Answer)
      returns (verdict: Recovery, ghost trace: seq<Event>)
      requires Valid() && Bound(Tables(), h, plan) && allocations[h.id].phase.Quarantined?
      requires forall o :: Belongs(Tables(), o, h.id, h.generation) ==> Truthful(executed, h, o, answers(o))
      modifies this
      ensures Valid() && Now() == Run(old(Now()), trace) && Legal(old(Now()), trace)
      ensures verdict in {Recovered, Inconclusive}
      ensures verdict == Recovered <==> Restores(old(Tables()), plan, h, cleanupOp, answers, cleanupAnswer)
      ensures verdict == Recovered ==> h.id in allocations && allocations[h.id].phase.Available? && allocations[h.id].plan == plan
                                       && Settlement(Tables(), h.id, h.generation, plan.cleanup)
    {
      hide Reachable, Honest, Run, Legal, Step, FixtureStore.Admit, Recorded, Restores;
      ghost var w := Now();
      assert plan.Valid() by { ReachableKeeps(w); }
      var done;
      done, trace := Reconcile(plan, h, answers);
      ghost var part;
      ghost var v := Now();
      var status;
      status, part := Operate(plan, h, Cleanup, plan.cleanup, cleanupOp, "{}", now, cleanupAnswer, EvCleanup(plan, h, cleanupOp, "{}", now));
      RunAppend(w, trace, part);
      LegalAppend(w, trace, part);
      trace := trace + part;
      CleanupOutcome(v, plan, h, cleanupOp, now, cleanupAnswer);
      RestoresAfter(w.store, v.store, plan, h, cleanupOp, answers, cleanupAnswer);
      verdict := Inconclusive;
      var row := Lookup(h);
      if status == Some(Complete) && row.Some? && row.value.phase.Available? {
        PlanStays(w, trace, h.id);
        CurrentAvailableIsClean(Now(), h, plan, cleanupOp);
        verdict := Recovered;
      }
    }
  }

  /** How a recovery ends. */
  datatype Decision = Conclude(recovery: Recovery) | Release | Clean

  datatype Recovery = Denied | Historical | Recovered | Inconclusive

  /** A current allocation keeps the plan it was bound to. */
  lemma PlanStays(w: World, events: seq<Event>, id: string)
    requires Reachable(w) && Legal(w, events) && id in w.store.allocations && id in Run(w, events).store.allocations
    ensures Run(w, events).store.allocations[id].plan == w.store.allocations[id].plan
    decreases |events|
  {
    if events != [] {
      var w' := Step(w, events[0]);
      ReachableStep(w, events[0]);
      ReachableKeeps(w);
      ReachableKeeps(w');
      if id in w'.store.allocations {
        PlanStep(w, events[0], id);
        PlanStays(w', events[1..], id);
      } else {
        LeavesToHistory(w, events[0], id);
        HistoryIsFrozen(w', events[1..], id);
        assert false;
      }
    }
  }

  lemma PlanStep(w: World, e: Event, id: string)
    requires Enabled(w, e) && id in w.store.allocations && id in Step(w, e).store.allocations
    requires e.EvReserve? ==> e.id !in w.store.allocations || Step(w, e) == w
    ensures Step(w, e).store.allocations[id].plan == w.store.allocations[id].plan
  {
    hide FixtureStore.FinishRemote, FixtureStore.Admit;
    match e
    case EvPrepare(plan, h, op, payload, now) => AdmitShape(w.store, plan, h, Prepare, plan.fixture, payload, op, now);
    case EvCheck(plan, h, base, index, payload, now) =>
      AdmitShape(w.store, plan, h, Check, plan.checks[index - 1], payload, Derived(base, index), now);
    case EvCleanup(plan, h, op, payload, now) => AdmitShape(w.store, plan, h, Cleanup, plan.cleanup, payload, op, now);
    case EvReply(h, op, remote, now) => ReplyTouches(w.store, h, op, remote, now);
    case _ =>
  }

  /** The evidence that a recovery asks of an available allocation is always there. */
  lemma CurrentAvailableIsClean(w: World, h: Handle, plan: Plan, op: OpId)
    requires Reachable(w) && Bound(w.store, h, plan) && w.store.allocations[h.id].phase.Available?
    requires Belongs(w.store, op, h.id, h.generation)
    ensures CleanHistory(w.store, h.id, h.generation, plan.cleanup)
  {
    ReachableKeeps(w);
    assert StoreOk(w.store);
    AvailableRow(w.store, h.id);
    assert Owns(w.store, h.id, op);
    var c :| Owns(w.store, h.id, c) && SafeCleanup(w.store.operations[c], plan.cleanup);
    assert OpOk(w.store, c);
  }

  /** A caller holds the complete outcome of the preparation and of its first n checks. */
  predicate Gathered(w: World, h: Handle, plan: Plan, op: OpId, n: nat) {
    Returned(w, h, op, plan.fixture) && n <= |plan.checks| && forall i | 1 <= i <= n :: Returned(w, h, Derived(op, i), plan.checks[i - 1])
  }

  lemma GatheredGrows(w: World, events: seq<Event>, h: Handle, plan: Plan, op: OpId, n: nat)
    requires 1 <= n <= |plan.checks| && Gathered(w, h, plan, op, n - 1) && Legal(w, events) && w.seen <= Run(w, events).seen
    requires Returned(Run(w, events), h, Derived(op, n), plan.checks[n - 1])
    ensures Gathered(Run(w, events), h, plan, op, n)
  {
    ReturnedSurvives(w, events, h, op, plan.fixture);
    forall i | 1 <= i < n ensures Returned(Run(w, events), h, Derived(op, i), plan.checks[i - 1]) {
      ReturnedSurvives(w, events, h, Derived(op, i), plan.checks[i - 1]);
    }
  }

  /** The receipts of a preparation and its first n checks, in order. */
  function Receipts(op: OpId, n: nat): seq<OpId> {
    if n == 0 then [op] else Receipts(op, n - 1) + [Derived(op, n)]
  }

  lemma AdmissionStep(w: World, e: Event, plan: Plan, h: Handle, kind: Kind, recipe: string, op: OpId, payload: string, now: int)
    requires IsAdmission(e, plan, h, kind, recipe, op, payload, now)
    ensures Step(w, e) == AfterAdmit(w, plan, op, Admit(w.store, plan, h, kind, recipe, payload, op, now))
  {
    hide Admit;
  }

  /** What an admission leaves for the call that made it. */
  lemma AdmissionShape(w: World, plan: Plan, h: Handle, kind: Kind, recipe: string, payload: string, op: OpId, now: int)
    ensures var r := Admit(w.store, plan, h, kind, recipe, payload, op, now);
            && (r.1.Fresh? ==> op !in w.store.operations && Belongs(r.0, op, h.id, h.generation) && r.0.operations[op].recipe == recipe && Current(r.0, h))
            && (r.1.Known? ==> Belongs(r.0, op, h.id, h.generation) && r.0.operations[op] == r.1.op && r.1.op.recipe == recipe)
  {
  }

  lemma RecordingsOf(h: Handle, listing: seq<OpId>, answers: OpId -> Answer)
    ensures listing == [] ==> Recordings(h, listing, answers) == []
    ensures forall o :: Recordings(h, listing + [o], answers) == Recordings(h, listing, answers) + [RecordEvent(h, o, answers(o))]
  {
  }

  lemma RunNone(w: World)
    ensures Run(w, []) == w && Legal(w, [])
  {
  }

  /** With the preparation and the checks before it returned, the next check may be admitted. */
  lemma GatheredAllows(w: World, h: Handle, plan: Plan, op: OpId, index: nat, payload: string, now: int)
    requires 1 <= index <= |plan.checks| && Gathered(w, h, plan, op, index - 1)
    ensures Enabled(w, EvCheck(plan, h, op, index, payload, now))
  {
  }

  lemma RunOne(w: World, e: Event)
    ensures Run(w, [e]) == Step(w, e)
    ensures Enabled(w, e) && Honest(w, e) ==> Legal(w, [e])
  {
    assert [e][1..] == [];
  }

  lemma RunTwo(w: World, e: Event, f: Event)
    ensures Run(w, [e, f]) == Step(Step(w, e), f)
    ensures Enabled(w, e) && Honest(w, e) && Enabled(Step(w, e), f) && Honest(Step(w, e), f) ==> Legal(w, [e, f])
  {
    assert [e, f][1..] == [f];
    RunOne(Step(w, e), f);
  }

  /** An outcome returned to a caller stays recorded for that call while the process lives. */
  lemma ReturnedSurvives(w: World, events: seq<Event>, h: Handle, op: OpId, recipe: string)
    requires Legal(w, events) && Returned(w, h, op, recipe) && op in Run(w, events).seen
    ensures Returned(Run(w, events), h, op, recipe)
  {
    RunKeepsFacts(w, events, op);
  }
}
