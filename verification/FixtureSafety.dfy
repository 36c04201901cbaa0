/** What holds in every run of the fixture allocator. */
module FixtureSafety {
  import opened Wrappers
  import opened FixtureStore
  import opened FixtureRuns

  // ---------------------------------------------------------------------------------------------
  // The invariant over every run
  // ---------------------------------------------------------------------------------------------

  lemma StepKeeps(w: World, e: Event)
    requires Inv(w) && Enabled(w, e) && Honest(w, e)
    ensures Inv(Step(w, e))
  {
    var w' := Step(w, e);
    match e
    case EvReserve(plan, owner, device, id) => ReserveKeeps(w, plan, owner, device, id);
    case EvPrepare(plan, h, op, payload, now) => AdmitKeeps(w, w', plan, h, Prepare, plan.fixture, payload, op, now);
    case EvCheck(plan, h, base, index, payload, now) => CheckKeeps(w, plan, h, base, index, payload, now);
    case EvCleanup(plan, h, op, payload, now) => AdmitKeeps(w, w', plan, h, Cleanup, plan.cleanup, payload, op, now);
    case EvDispatch(op) => DispatchKeeps(w, op);
    case EvReply(h, op, remote, now) => ReplyKeeps(w, h, op, remote, now);
    case EvLost(h, op, reason) => LostKeeps(w, h, op, reason);
    case EvReady(plan, h, base) => ReadyKeeps(w, plan, h, base);
    case EvRetain(h) => RetainKeeps(w, h);
    case EvEndReconcile(h) => EndReconcileKeeps(w, h);
    case EvUnstarted(plan, id, generation, owner, device) => UnstartedKeeps(w, plan, id, generation, owner, device);
    case EvSeal(plan, id, owner, device) => SealKeeps(w, plan, id, owner, device);
    case EvRestart => RestartKeeps(w);
  }

  lemma RetainKeeps(w: World, h: Handle)
    requires Inv(w)
    ensures Inv(Step(w, EvRetain(h)))
  {
    if Current(w.store, h) { QuarantineKeeps(w, Step(w, EvRetain(h)), h.id, None); }
  }

  lemma EndReconcileKeeps(w: World, h: Handle)
    requires Inv(w)
    ensures Inv(Step(w, EvEndReconcile(h)))
  {
    if Current(w.store, h) && !w.store.allocations[h.id].phase.Available? {
      QuarantineKeeps(w, Step(w, EvEndReconcile(h)), h.id, None);
    }
  }

  lemma {:induction false} RunKeeps(w: World, events: seq<Event>)
    requires Inv(w) && Legal(w, events)
    ensures Inv(Run(w, events))
    decreases |events|
  {
    if events != [] {
      StepKeeps(w, events[0]);
      RunKeeps(Step(w, events[0]), events[1..]);
    }
  }

  lemma EveryRunKeeps(events: seq<Event>)
    requires Legal(Initial, events)
    ensures Inv(Run(Initial, events))
  {
    RunKeeps(Initial, events);
  }

  /** The worlds that legal runs lead to. */
  ghost predicate Reachable(w: World) {
    exists events :: Legal(Initial, events) && w == Run(Initial, events)
  }

  lemma ReachableKeeps(w: World)
    requires Reachable(w)
    ensures Inv(w)
  {
    var events :| Legal(Initial, events) && w == Run(Initial, events);
    EveryRunKeeps(events);
  }

  lemma ReachableStep(w: World, e: Event)
    requires Reachable(w) && Enabled(w, e) && Honest(w, e)
    ensures Reachable(Step(w, e))
  {
    var events :| Legal(Initial, events) && w == Run(Initial, events);
    assert [e][1..] == [];
    RunAppend(Initial, events, [e]);
    LegalAppend(Initial, events, [e]);
  }

  lemma {:induction false} RunAppend(w: World, a: seq<Event>, b: seq<Event>)
    ensures Run(w, a + b) == Run(Run(w, a), b)
    decreases |a|
  {
    hide Step;
    if a == [] {
      assert a + b == b;
    } else {
      assert (a + b)[1..] == a[1..] + b && (a + b)[0] == a[0];
      RunAppend(Step(w, a[0]), a[1..], b);
    }
  }

  lemma {:induction false} LegalAppend(w: World, a: seq<Event>, b: seq<Event>)
    requires Legal(w, a) && Legal(Run(w, a), b)
    ensures Legal(w, a + b)
    decreases |a|
  {
    hide Step, Enabled, Honest;
    if a == [] {
      assert a + b == b;
    } else {
      assert (a + b)[1..] == a[1..] + b && (a + b)[0] == a[0];
      LegalAppend(Step(w, a[0]), a[1..], b);
    }
  }

  // ---------------------------------------------------------------------------------------------
  // Available slots
  // ---------------------------------------------------------------------------------------------

  /** In every run, an available slot has only ended operations in its generation, and if it has any,
      one is a completed cleanup of its own plan that was admitted with nothing unresolved before it. */
  lemma AvailableSlotsAreSettled(events: seq<Event>, id: string)
    requires Legal(Initial, events)
    requires id in Run(Initial, events).store.allocations && Run(Initial, events).store.allocations[id].phase.Available?
    ensures var s := Run(Initial, events).store;
            && (forall o | o in s.operations && s.operations[o].allocation == id :: s.operations[o].state in {Complete, Failed})
            && ((exists o :: Owns(s, id, o)) ==>
                  exists c :: Owns(s, id, c) && s.operations[c].kind.Cleanup? && s.operations[c].recipe == s.allocations[id].plan.cleanup
                              && s.operations[c].state.Complete? && !s.operations[c].unsafePrior)
  {
    EveryRunKeeps(events);
    var s := Run(Initial, events).store;
    assert StoreOk(s);
    AvailableRow(s, id);
  }

  lemma AvailableRow(s: Store, id: string)
    requires OpsOk(s) && PhasesOk(s) && id in s.allocations && s.allocations[id].phase.Available?
    ensures forall o | o in s.operations && s.operations[o].allocation == id :: s.operations[o].state in {Complete, Failed}
    ensures (exists o :: Owns(s, id, o)) ==>
              exists c :: Owns(s, id, c) && s.operations[c].kind.Cleanup? && s.operations[c].recipe == s.allocations[id].plan.cleanup
                          && s.operations[c].state.Complete? && !s.operations[c].unsafePrior
  {
    assert PhaseOk(s, id);
    forall o | o in s.operations && s.operations[o].allocation == id ensures s.operations[o].state in {Complete, Failed} {
      assert Owns(s, id, o);
    }
    if exists o :: Owns(s, id, o) {
      var c :| Owns(s, id, c) && s.operations[c].kind.Cleanup? && s.operations[c].state.Complete? && !s.operations[c].unsafePrior;
      assert OpOk(s, c);
    }
  }

  /** The moves of one allocation's phase, by the step that makes them. */
  predicate Moves(e: Event, before: Phase, after: Phase) {
    || after == before
    || after.Quarantined?
    || (e.EvPrepare? && before.Reserved? && after.Preparing?)
    || (e.EvCheck? && before in {Prepared, Checking} && after.Checking?)
    || (e.EvCleanup? && before !in {Cleaning, Available} && after.Cleaning?)
    || (e.EvReady? && before in {Prepared, Checking, Ready} && after.Ready?)
    || (e.EvReply? && ((before.Preparing? && after.Prepared?) || (before.Cleaning? && after.Available?)))
    || (e.EvUnstarted? && before in {Reserved, Quarantined} && after.Available?)
  }

  lemma AdmitMoves(s: Store, plan: Plan, h: Handle, kind: Kind, recipe: string, payload: string, op: OpId, now: int, id: string)
    requires id in s.allocations
    ensures var t := Admit(s, plan, h, kind, recipe, payload, op, now).0;
            && id in t.allocations && t.history == s.history && t.allocations.Keys == s.allocations.Keys
            && var before, after := s.allocations[id].phase, t.allocations[id].phase;
               || after == before || after.Quarantined?
               || (kind.Prepare? && before.Reserved? && after.Preparing?)
               || (kind.Check? && before in {Prepared, Checking} && after.Checking?)
               || (kind.Cleanup? && before !in {Cleaning, Available} && after.Cleaning?)
  {
    AdmitShape(s, plan, h, kind, recipe, payload, op, now);
  }

  /** Every step but a reservation keeps the current identities, and only a seal adds to the history. */
  lemma StepKeepsTables(w: World, e: Event)
    requires Enabled(w, e) && !e.EvReserve?
    ensures Step(w, e).store.allocations.Keys == w.store.allocations.Keys
    ensures !e.EvSeal? ==> Step(w, e).store.history == w.store.history
  {
    hide Admit, FinishRemote;
    match e
    case EvPrepare(plan, h, op, payload, now) => AdmitShape(w.store, plan, h, Prepare, plan.fixture, payload, op, now);
    case EvCheck(plan, h, base, index, payload, now) =>
      AdmitShape(w.store, plan, h, Check, plan.checks[index - 1], payload, Derived(base, index), now);
    case EvCleanup(plan, h, op, payload, now) => AdmitShape(w.store, plan, h, Cleanup, plan.cleanup, payload, op, now);
    case EvReply(h, op, remote, now) => ReplyTouches(w.store, h, op, remote, now);
    case _ =>
  }

  /** Every step moves an allocation along the diagram; only a reservation takes one out of the table, and only an
      available one. */
  lemma StepsFollowTheDiagram(w: World, e: Event, id: string)
    requires Enabled(w, e) && id in w.store.allocations
    ensures id in Step(w, e).store.allocations ==> Moves(e, w.store.allocations[id].phase, Step(w, e).store.allocations[id].phase)
    ensures id !in Step(w, e).store.allocations ==> e.EvReserve? && w.store.allocations[id].phase.Available?
  {
    hide Admit, FinishRemote, Reserve;
    match e
    case EvReserve(plan, owner, device, added) => ReserveLeavesOthers(w.store, plan, owner, device, added, id);
    case EvPrepare(plan, h, op, payload, now) => AdmitMoves(w.store, plan, h, Prepare, plan.fixture, payload, op, now, id);
    case EvCheck(plan, h, base, index, payload, now) =>
      AdmitMoves(w.store, plan, h, Check, plan.checks[index - 1], payload, Derived(base, index), now, id);
    case EvCleanup(plan, h, op, payload, now) => AdmitMoves(w.store, plan, h, Cleanup, plan.cleanup, payload, op, now, id);
    case EvReply(h, op, remote, now) => ReplyMoves(w.store, h, op, remote, now, id);
    case _ =>
  }

  lemma ReplyMoves(s: Store, h: Handle, op: OpId, remote: Remote, now: int, id: string)
    requires Belongs(s, op, h.id, h.generation) && id in s.allocations
    ensures var t := FinishRemote(s, h, op, remote, now);
            && id in t.allocations
            && var before, after := s.allocations[id].phase, t.allocations[id].phase;
               after == before || after.Quarantined? || (before.Preparing? && after.Prepared?) || (before.Cleaning? && after.Available?)
  {
    ReplyTouches(s, h, op, remote, now);
  }

  /** From quarantine only the admission of a cleanup, or the recovery of a generation that never started, leads out:
      whatever is replied, reconciled or restarted, an orphaned slot is not freed by it. */
  lemma {:induction false} QuarantineHolds(w: World, events: seq<Event>, id: string)
    requires Legal(w, events) && id in w.store.allocations && w.store.allocations[id].phase.Quarantined?
    requires forall i :: 0 <= i < |events| ==> !events[i].EvCleanup? && !events[i].EvUnstarted?
    ensures id in Run(w, events).store.allocations && Run(w, events).store.allocations[id].phase.Quarantined?
    decreases |events|
  {
    if events != [] {
      StepsFollowTheDiagram(w, events[0], id);
      QuarantineHolds(Step(w, events[0]), events[1..], id);
    }
  }

  /** A reply frees an allocation only as the attested end of a safe cleanup after which nothing is unresolved. */
  lemma ReplyFreesOnlyAfterSafeCleanup(s: Store, h: Handle, op: OpId, remote: Remote, now: int)
    requires Belongs(s, op, h.id, h.generation) && h.id in s.allocations && !s.allocations[h.id].phase.Available?
    requires FinishRemote(s, h, op, remote, now).allocations[h.id].phase.Available?
    ensures s.operations[op].kind.Cleanup? && !s.operations[op].unsafePrior && Fenced(remote, op, h)
    ensures remote.status.RemoteComplete? && Attested(remote, now) && !OtherUnresolved(s, h.id, h.generation, op)
  {
  }

  /** Only two steps free an allocation: the attested reply of a safe cleanup after which nothing is
      unresolved, and the recovery of an allocation that never started anything. */
  lemma WhatFreesASlot(w: World, e: Event, id: string)
    requires OpsOk(w.store) && Enabled(w, e)
    requires id in w.store.allocations && !w.store.allocations[id].phase.Available?
    requires id in Step(w, e).store.allocations && Step(w, e).store.allocations[id].phase.Available?
    ensures (e.EvUnstarted? && forall o :: !Owns(w.store, id, o))
         || (e.EvReply? && e.handle.id == id && Owns(w.store, id, e.op)
             && w.store.operations[e.op].kind.Cleanup? && !w.store.operations[e.op].unsafePrior
             && e.remote.status.RemoteComplete? && Fenced(e.remote, e.op, e.handle) && Attested(e.remote, e.now)
             && forall o :: Owns(w.store, id, o) && o != e.op ==> w.store.operations[o].state.Terminal())
  {
    StepsFollowTheDiagram(w, e, id);
    if e.EvUnstarted? {
      NothingOwned(w.store, id, e.generation);
    } else {
      ReplyTouches(w.store, e.handle, e.op, e.remote, e.now);
      ReplyFreesOnlyAfterSafeCleanup(w.store, e.handle, e.op, e.remote, e.now);
      OthersEnded(w.store, id, e.handle.generation, e.op);
    }
  }

  lemma NothingOwned(s: Store, id: string, generation: nat)
    requires OpsOk(s) && id in s.allocations && s.allocations[id].generation == generation && Unstarted(s, id, generation)
    ensures forall o :: !Owns(s, id, o)
  {
    forall o ensures !Owns(s, id, o) {
      if Owns(s, id, o) { assert OpOk(s, o) && Belongs(s, o, id, generation); }
    }
  }

  lemma OthersEnded(s: Store, id: string, generation: nat, op: OpId)
    requires OpsOk(s) && id in s.allocations && s.allocations[id].generation == generation && !OtherUnresolved(s, id, generation, op)
    ensures forall o :: Owns(s, id, o) && o != op ==> s.operations[o].state.Terminal()
  {
    forall o | Owns(s, id, o) && o != op ensures s.operations[o].state.Terminal() {
      assert OpOk(s, o);
      assert !(Belongs(s, o, id, generation) && !s.operations[o].state.Terminal());
    }
  }

  lemma ReserveLeavesOthers(s: Store, plan: Plan, owner: string, device: string, id: string, other: string)
    requires other in s.allocations
    ensures var t := Reserve(s, plan, owner, device, id);
            if other in t.allocations then t.allocations[other] == s.allocations[other]
            else s.allocations[other].phase.Available? && (RowsOk(s) ==> other in t.history && t.history[other] == s.allocations[other])
  {
  }

  /** What an admission recorded about an operation never changes. */
  predicate SameFacts(a: Op, b: Op) {
    && a.allocation == b.allocation && a.generation == b.generation && a.kind == b.kind
    && a.recipe == b.recipe && a.payload == b.payload && a.unsafePrior == b.unsafePrior
  }

  lemma AdmitKeepsFacts(s: Store, plan: Plan, h: Handle, kind: Kind, recipe: string, payload: string, op: OpId, now: int, x: OpId)
    requires x in s.operations
    ensures var t := Admit(s, plan, h, kind, recipe, payload, op, now).0; x in t.operations && SameFacts(s.operations[x], t.operations[x])
  {
    AdmitShape(s, plan, h, kind, recipe, payload, op, now);
  }

  lemma StepKeepsFacts(w: World, e: Event, x: OpId)
    requires x in w.store.operations && Enabled(w, e)
    ensures x in Step(w, e).store.operations && SameFacts(w.store.operations[x], Step(w, e).store.operations[x])
  {
    hide Admit, FinishRemote;
    match e
    case EvPrepare(plan, h, op, payload, now) => AdmitKeepsFacts(w.store, plan, h, Prepare, plan.fixture, payload, op, now, x);
    case EvCheck(plan, h, base, index, payload, now) =>
      AdmitKeepsFacts(w.store, plan, h, Check, plan.checks[index - 1], payload, Derived(base, index), now, x);
    case EvCleanup(plan, h, op, payload, now) => AdmitKeepsFacts(w.store, plan, h, Cleanup, plan.cleanup, payload, op, now, x);
    case EvReply(h, op, remote, now) => ReplyTouches(w.store, h, op, remote, now);
    case _ =>
  }

  lemma {:induction false} RunKeepsFacts(w: World, events: seq<Event>, op: OpId)
    requires op in w.store.operations && Legal(w, events)
    ensures op in Run(w, events).store.operations && SameFacts(w.store.operations[op], Run(w, events).store.operations[op])
    decreases |events|
  {
    if events != [] {
      StepKeepsFacts(w, events[0], op);
      RunKeepsFacts(Step(w, events[0]), events[1..], op);
    }
  }

  /** A cleanup admitted while a preparation or check was unresolved never frees the slot, however long
      the run goes on and whatever the adapter replies about it. */
  lemma UnsafeCleanupNeverFrees(w: World, admit: Event, later: seq<Event>, reply: Event)
    requires Inv(w) && admit.EvCleanup? && Enabled(w, admit) && Honest(w, admit)
    requires admit.op !in w.store.operations && admit.op in Step(w, admit).store.operations
    requires SomeEffectUnresolved(w.store, admit.handle.id, admit.handle.generation)
    requires Legal(Step(w, admit), later)
    requires var v := Run(Step(w, admit), later); reply.EvReply? && reply.op == admit.op && Enabled(v, reply) && Honest(v, reply)
    ensures var v := Run(Step(w, admit), later);
            forall id :: id in v.store.allocations && !v.store.allocations[id].phase.Available? && id in Step(v, reply).store.allocations
                         ==> !Step(v, reply).store.allocations[id].phase.Available?
  {
    var v0 := Step(w, admit);
    AdmitShape(w.store, admit.plan, admit.handle, Cleanup, admit.plan.cleanup, admit.payload, admit.op, admit.now);
    assert v0.store.operations[admit.op].unsafePrior;
    StepKeeps(w, admit);
    RunKeeps(v0, later);
    RunKeepsFacts(v0, later, admit.op);
    var v := Run(v0, later);
    forall id | id in v.store.allocations && !v.store.allocations[id].phase.Available? && id in Step(v, reply).store.allocations
      ensures !Step(v, reply).store.allocations[id].phase.Available?
    {
      if Step(v, reply).store.allocations[id].phase.Available? { WhatFreesASlot(v, reply, id); assert false; }
    }
  }

  // A run in which the adapter reports preparation P complete before P is sent.
  const PLAN := Plan("p", "r", "app", "f", [], "c", true, true)
  const HANDLE := Handle("a", "f", 1, "me")
  const P := Named("p")
  const C := Named("c")
  const ROW := Row(PLAN, "me", "d", 1, Reserved, None)
  const PREPARE := Op("a", 1, Prepare, "f", "x", Admitted, None, None, false)
  const CLEANUP := Op("a", 1, Cleanup, "c", "{}", Admitted, None, None, false)

  function Ended(o: Op): Op {
    o.(state := Complete, completed := Some(0), retention := Some(10))
  }

  function Done(op: OpId): Event {
    EvReply(HANDLE, op, Remote(op, 1, RemoteComplete, Some(0), Some(10), 1), 1)
  }

  lemma ReserveFirst() returns (w: World)
    ensures w == Run(Initial, [EvReserve(PLAN, "me", "d", "a")])
    ensures w.store == Store(map["a" := ROW], map[], map[]) && w.awaiting == {} && w.executed == []
  {
    var e := EvReserve(PLAN, "me", "d", "a");
    w := Step(Initial, e);
    Unroll(Initial, e, []);
    assert [e] + [] == [e];
  }

  lemma PrepareNext(w: World) returns (v: World)
    requires w.store == Store(map["a" := ROW], map[], map[]) && w.awaiting == {} && w.executed == []
    ensures v == Run(w, [EvPrepare(PLAN, HANDLE, P, "x", 1)])
    ensures v.store == Store(map["a" := ROW.(phase := Preparing)], map[P := PREPARE], map[]) && v.awaiting == {P} && v.executed == []
  {
    var e := EvPrepare(PLAN, HANDLE, P, "x", 1);
    v := Step(w, e);
    Unroll(w, e, []);
    assert [e] + [] == [e];
  }

  lemma LyingReply(w: World) returns (v: World)
    requires w.store == Store(map["a" := ROW.(phase := Preparing)], map[P := PREPARE], map[]) && w.awaiting == {P}
    ensures v == Run(w, [Done(P)])
    ensures v.store == Store(map["a" := ROW.(phase := Prepared)], map[P := Ended(PREPARE)], map[]) && v.awaiting == {P}
  {
    v := Step(w, Done(P));
    assert v.store.operations == map[P := Ended(PREPARE)];
    assert v.store.allocations == map["a" := ROW.(phase := Prepared)];
    Unroll(w, Done(P), []);
    assert [Done(P)] + [] == [Done(P)];
  }

  lemma CleanupFrees(w: World) returns (v: World)
    requires w.store == Store(map["a" := ROW.(phase := Prepared)], map[P := Ended(PREPARE)], map[])
    ensures v == Run(w, [EvCleanup(PLAN, HANDLE, C, "{}", 1), EvDispatch(C), Done(C)])
    ensures v.store.allocations == map["a" := ROW.(phase := Available)] && P in v.store.operations && v.store.operations[P] == Ended(PREPARE)
  {
    var e3, e4, e5 := EvCleanup(PLAN, HANDLE, C, "{}", 1), EvDispatch(C), Done(C);
    assert !SomeEffectUnresolved(w.store, "a", 1);
    var w4 := Step(w, e3);
    assert w4.store == Store(map["a" := ROW.(phase := Cleaning)], map[P := Ended(PREPARE), C := CLEANUP], map[]);
    var w5 := Step(w4, e4);
    assert w5.store.allocations == w4.store.allocations && w5.store.operations[C] == CLEANUP.(state := Dispatched);
    assert !OtherUnresolved(w5.store, "a", 1, C);
    v := Step(w5, e5);
    assert v.store.allocations == map["a" := ROW.(phase := Available)];
    Unroll(w, e3, [e4, e5]); Unroll(w4, e4, [e5]); Unroll(w5, e5, []);
    assert [e3] + [e4, e5] == [e3, e4, e5] && [e4] + [e5] == [e4, e5] && [e5] + [] == [e5];
  }

  /** The assumption on the adapter is needed: one that reports a preparation as complete before receiving
      it lets the slot be freed, and the pending send then marks an operation of the freed slot dispatched. */
  lemma DishonestAdapterBreaksIt() returns (events: seq<Event>)
    ensures var s := Run(Initial, events).store;
            && "a" in s.allocations && s.allocations["a"].phase.Available?
            && Owns(s, "a", P) && s.operations[P].state.Dispatched?
    ensures !Legal(Initial, events)
  {
    var first, second, third := [EvReserve(PLAN, "me", "d", "a")], [EvPrepare(PLAN, HANDLE, P, "x", 1)], [Done(P)];
    var fourth, last := [EvCleanup(PLAN, HANDLE, C, "{}", 1), EvDispatch(C), Done(C)], [EvDispatch(P)];
    var w1 := ReserveFirst();
    var w2 := PrepareNext(w1);
    var w3 := LyingReply(w2);
    var w4 := CleanupFrees(w3);
    events := first + (second + (third + (fourth + last)));
    RunAppend(Initial, first, second + (third + (fourth + last)));
    RunAppend(w1, second, third + (fourth + last));
    RunAppend(w2, third, fourth + last);
    RunAppend(w3, fourth, last);
    Unroll(w4, EvDispatch(P), []);
    assert [EvDispatch(P)] + [] == last;
    var s := Run(Initial, events).store;
    assert s == WithState(w4.store, P, Dispatched);
    assert Owns(s, "a", P);
    if Legal(Initial, events) { AvailableSlotsAreSettled(events, "a"); assert false; }
  }

  lemma Unroll(w: World, e: Event, rest: seq<Event>)
    ensures Run(w, [e] + rest) == Run(Step(w, e), rest)
  {
    assert ([e] + rest)[1..] == rest;
  }

  // ---------------------------------------------------------------------------------------------
  // Phases of one generation
  // ---------------------------------------------------------------------------------------------

  /** The generation has a check of this recipe. */
  ghost predicate Checked(s: Store, id: string, recipe: string) {
    exists o :: Owns(s, id, o) && s.operations[o].kind.Check? && s.operations[o].recipe == recipe
  }

  /** In every run, a ready allocation has a complete preparation, a complete check for every check of
      its plan, and no operation that is not complete. */
  lemma ReadyMeansEverythingComplete(events: seq<Event>, id: string)
    requires Legal(Initial, events)
    requires id in Run(Initial, events).store.allocations && Run(Initial, events).store.allocations[id].phase.Ready?
    ensures var s := Run(Initial, events).store;
            var checks := s.allocations[id].plan.checks;
            && (forall o | o in s.operations && s.operations[o].allocation == id :: s.operations[o].state.Complete?)
            && (exists p :: Owns(s, id, p) && s.operations[p].kind.Prepare?)
            && (forall i | 0 <= i < |checks| :: Checked(s, id, checks[i]))
  {
    EveryRunKeeps(events);
    var s := Run(Initial, events).store;
    assert StoreOk(s);
    ReadyRow(s, id);
  }

  lemma ReadyRow(s: Store, id: string)
    requires PhasesOk(s) && OpsOk(s) && RowsOk(s) && id in s.allocations && s.allocations[id].phase.Ready?
    ensures var checks := s.allocations[id].plan.checks;
            && (forall o | o in s.operations && s.operations[o].allocation == id :: s.operations[o].state.Complete?)
            && (exists p :: Owns(s, id, p) && s.operations[p].kind.Prepare?)
            && (forall i | 0 <= i < |checks| :: Checked(s, id, checks[i]))
  {
    assert PhaseOk(s, id);
    var p :| Covered(s, id, p);
    var checks := s.allocations[id].plan.checks;
    forall o | o in s.operations && s.operations[o].allocation == id ensures s.operations[o].state.Complete? { assert Owns(s, id, o); }
    forall i | 0 <= i < |checks| ensures Checked(s, id, checks[i]) {
      var o := Derived(p, i + 1);
      assert Owns(s, id, o) && OpOk(s, o);
      assert s.allocations[id].plan.Valid() && s.operations[o].recipe == checks[i];
    }
  }

  lemma PhaseNeverGoesBack(w: World, e: Event, id: string)
    requires Enabled(w, e) && id in w.store.allocations && id in Step(w, e).store.allocations
    ensures Rank(w.store.allocations[id].phase) <= Rank(Step(w, e).store.allocations[id].phase)
  {
    StepsFollowTheDiagram(w, e, id);
    if e.EvReserve? { ReserveLeavesOthers(w.store, e.plan, e.owner, e.device, e.id, id); }
  }

  /** An allocation that has left the current table does not come back. */
  lemma RetiredStaysRetired(w: World, e: Event, id: string)
    requires RowsOk(w.store) && Enabled(w, e) && id in w.store.history
    ensures id in Step(w, e).store.history && Step(w, e).store.history[id] == w.store.history[id]
    ensures id !in Step(w, e).store.allocations
  {
    if !e.EvReserve? { StepKeepsTables(w, e); }
  }

  lemma {:induction false} HistoryIsFrozen(w: World, events: seq<Event>, id: string)
    requires Inv(w) && Legal(w, events) && id in w.store.history
    ensures id in Run(w, events).store.history && Run(w, events).store.history[id] == w.store.history[id]
    ensures id !in Run(w, events).store.allocations
    decreases |events|
  {
    if events != [] {
      RetiredStaysRetired(w, events[0], id);
      StepKeeps(w, events[0]);
      HistoryIsFrozen(Step(w, events[0]), events[1..], id);
    }
  }

  /** Over a whole run, an allocation that is still current has moved forward only. */
  lemma {:induction false} PhasesOnlyMoveForward(w: World, events: seq<Event>, id: string)
    requires Inv(w) && Legal(w, events) && id in w.store.allocations && id in Run(w, events).store.allocations
    ensures Rank(w.store.allocations[id].phase) <= Rank(Run(w, events).store.allocations[id].phase)
    decreases |events|
  {
    if events != [] {
      var w' := Step(w, events[0]);
      StepKeeps(w, events[0]);
      if id in w'.store.allocations {
        PhaseNeverGoesBack(w, events[0], id);
        PhasesOnlyMoveForward(w', events[1..], id);
      } else {
        assert id in w'.store.history by { LeavesToHistory(w, events[0], id); }
        HistoryIsFrozen(w', events[1..], id);
        assert false;
      }
    }
  }

  lemma LeavesToHistory(w: World, e: Event, id: string)
    requires RowsOk(w.store) && Enabled(w, e) && id in w.store.allocations && id !in Step(w, e).store.allocations
    ensures e.EvReserve? && w.store.allocations[id].phase.Available?
    ensures id in Step(w, e).store.history && Step(w, e).store.history[id] == w.store.allocations[id]
  {
    if !e.EvReserve? { StepKeepsTables(w, e); assert false; }
    ReserveLeavesOthers(w.store, e.plan, e.owner, e.device, e.id, id);
  }

  /** A preparation is admitted only into a generation that has no operation at all. */
  lemma PreparationStartsTheGeneration(w: World, e: Event)
    requires OpsOk(w.store) && PhasesOk(w.store) && e.EvPrepare? && e.op !in w.store.operations && e.op in Step(w, e).store.operations
    ensures forall x :: !Owns(w.store, e.handle.id, x)
  {
    AdmissionFinds(w.store, e.plan, e.handle, Prepare, e.plan.fixture, e.payload, e.op, e.now, e.op);
  }

  /** A check is admitted only while the generation has no cleanup and nothing unresolved. */
  lemma NoCheckAfterCleanup(w: World, e: Event)
    requires OpsOk(w.store) && PhasesOk(w.store) && Enabled(w, e) && e.EvCheck?
    requires Derived(e.base, e.index) !in w.store.operations && Derived(e.base, e.index) in Step(w, e).store.operations
    ensures forall x :: Owns(w.store, e.handle.id, x) ==> !w.store.operations[x].kind.Cleanup? && w.store.operations[x].state.Terminal()
  {
    var op := Derived(e.base, e.index);
    AdmissionFinds(w.store, e.plan, e.handle, Check, e.plan.checks[e.index - 1], e.payload, op, e.now, op);
  }

  lemma AdmissionFinds(s: Store, plan: Plan, h: Handle, kind: Kind, recipe: string, payload: string, x: OpId, now: int, op: OpId)
    requires OpsOk(s) && PhasesOk(s) && op !in s.operations && op in Admit(s, plan, h, kind, recipe, payload, x, now).0.operations
    ensures var o := Admit(s, plan, h, kind, recipe, payload, x, now).0.operations[op];
            && o.kind == kind && o.allocation == h.id
            && (kind.Prepare? ==> forall y :: !Owns(s, h.id, y))
            && (kind.Check? ==> forall y :: Owns(s, h.id, y) ==> !s.operations[y].kind.Cleanup? && s.operations[y].state.Terminal())
  {
    AdmitShape(s, plan, h, kind, recipe, payload, x, now);
    assert PhaseOk(s, h.id);
    if kind.Check? { NothingUnresolved(s, h.id, h.generation); }
  }

  lemma NothingUnresolved(s: Store, id: string, generation: nat)
    requires OpsOk(s) && id in s.allocations && s.allocations[id].generation == generation && !SomeUnresolved(s, id, generation)
    ensures forall o :: Owns(s, id, o) ==> s.operations[o].state.Terminal()
  {
    forall o | Owns(s, id, o) ensures s.operations[o].state.Terminal() {
      assert OpOk(s, o);
      assert !(Belongs(s, o, id, generation) && !s.operations[o].state.Terminal());
    }
  }

  lemma OnlyAdmissionsInsert(w: World, e: Event, op: OpId)
    requires Enabled(w, e) && op !in w.store.operations && op in Step(w, e).store.operations
    ensures e.EvPrepare? || e.EvCheck? || e.EvCleanup?
  {
    if e.EvReply? { ReplyTouches(w.store, e.handle, e.op, e.remote, e.now); }
  }

  lemma OnePreparationPerAllocation(events: seq<Event>, p: OpId, q: OpId)
    requires Legal(Initial, events)
    requires var s := Run(Initial, events).store;
             p in s.operations && q in s.operations && s.operations[p].kind.Prepare? && s.operations[q].kind.Prepare?
             && s.operations[p].allocation == s.operations[q].allocation
    ensures p == q
  {
    EveryRunKeeps(events);
    var s := Run(Initial, events).store;
    assert Leads(s, s.operations[p].allocation, p) && Leads(s, s.operations[p].allocation, q);
  }

  // ---------------------------------------------------------------------------------------------
  // Late results and restarts
  // ---------------------------------------------------------------------------------------------

  /** A result changes no row but the one its handle names; once that identity is retired it changes no
      row at all, so a later generation of the slot never feels it. */
  lemma LateResultsStayInTheirGeneration(w: World, e: Event)
    requires RowsOk(w.store) && Enabled(w, e) && (e.EvReply? || e.EvLost?)
    ensures Touches(w.store, Step(w, e).store, e.handle.id, Some(e.op))
    ensures e.handle.id in w.store.history ==> Step(w, e).store.allocations == w.store.allocations
  {
    if e.EvReply? { ReplyTouches(w.store, e.handle, e.op, e.remote, e.now); }
  }

  /** After a restart every allocation is available or quarantined and every operation complete, failed or
      unknown; what was available stays available, and nothing admitted before is still going to be sent. */
  lemma RestartSettles(events: seq<Event>)
    requires Legal(Initial, events)
    ensures var w, v := Run(Initial, events), Step(Run(Initial, events), EvRestart);
            && Inv(v) && v.awaiting == {}
            && v.store.allocations.Keys == w.store.allocations.Keys && v.store.operations.Keys == w.store.operations.Keys
            && (forall id :: id in v.store.allocations ==>
                  v.store.allocations[id].phase == (if w.store.allocations[id].phase.Available? then Available else Quarantined))
            && (forall o :: o in v.store.operations ==> v.store.operations[o].state in {Complete, Failed, Unknown})
  {
    hide Run, Legal, Inv, RecoverUnfinished;
    var w := Run(Initial, events);
    EveryRunKeeps(events);
    RestartKeeps(w);
    RecoveryPhases(w.store);
  }

  lemma RecoveryPhases(s: Store)
    ensures var t := RecoverUnfinished(s);
            && t.allocations.Keys == s.allocations.Keys && t.operations.Keys == s.operations.Keys
            && (forall id :: id in t.allocations ==> t.allocations[id].phase == (if s.allocations[id].phase.Available? then Available else Quarantined))
            && (forall o :: o in t.operations ==> t.operations[o].state in {Complete, Failed, Unknown})
  {
    var t := RecoverUnfinished(s);
    assert t.allocations.Keys == s.allocations.Keys;
    assert t.operations.Keys == s.operations.Keys;
    forall o | o in t.operations ensures t.operations[o].state in {Complete, Failed, Unknown} {
      assert t.operations[o] == Interrupted(s.operations[o]);
      var before := s.operations[o].state;
      assert before == Admitted || before == Dispatched || before == Running || before == Unknown || before == Complete || before == Failed;
      assert before in {Admitted, Dispatched, Running} <==> before == Admitted || before == Dispatched || before == Running;
    }
  }

  // ---------------------------------------------------------------------------------------------
  // Identities
  // ---------------------------------------------------------------------------------------------

  lemma {:induction false} IssuedStays(w: World, events: seq<Event>, id: string)
    requires id in w.issued
    ensures id in Run(w, events).issued
    decreases |events|
  {
    if events != [] { IssuedStays(Step(w, events[0]), events[1..], id); }
  }

  /** An identity that was issued once is never issued again, whatever happened to it since. */
  lemma IssuedNeverAgain(events: seq<Event>, later: seq<Event>, again: Event)
    requires Legal(Initial, events) && Legal(Run(Initial, events), later) && again.EvReserve? && again.id in Run(Initial, events).issued
    ensures var w := Run(Run(Initial, events), later); Step(w, again) == w
  {
    hide Run;
    IssuedStays(Run(Initial, events), later, again.id);
    RunAppend(Initial, events, later);
    LegalAppend(Initial, events, later);
    IssuedIdentityHasOnePlace(events + later, again.id);
  }

  /** In every run an issued identity is in exactly one of the current table and the history. */
  lemma IssuedIdentityHasOnePlace(events: seq<Event>, id: string)
    requires Legal(Initial, events) && id in Run(Initial, events).issued
    ensures var s := Run(Initial, events).store; (id in s.allocations) != (id in s.history)
  {
    EveryRunKeeps(events);
  }

  /** A reservation of a held slot retires the old row unchanged and raises the generation by exactly one. */
  lemma ReuseRaisesTheGenerationByOne(w: World, e: Event, prior: string)
    requires Inv(w) && e.EvReserve? && CanReserve(w.store, e.plan, e.id)
    requires prior in w.store.allocations && w.store.allocations[prior].plan.SlotOf() == e.plan.SlotOf()
    ensures var s, t := w.store, Step(w, e).store;
            && prior !in t.allocations && prior in t.history && t.history[prior] == s.allocations[prior]
            && t.allocations[e.id].generation == s.allocations[prior].generation + 1
            && s.allocations[prior].phase.Available? && t.allocations[e.id].phase.Reserved?
            && forall id :: id in s.allocations && id != prior ==> id in t.allocations && t.allocations[id] == s.allocations[id]
  {
    assert Holder(w.store, e.plan.SlotOf()) == Some(prior);
  }

  /** Once an identity is sealed, no later reservation of it succeeds, whatever happens in between. */
  lemma SealedNeverReserved(w: World, plan: Plan, id: string, owner: string, device: string, events: seq<Event>, e: Event)
    requires Inv(w) && id !in w.store.allocations && |w.store.history| < MAX_OPERATIONS
    requires Legal(Step(w, EvSeal(plan, id, owner, device)), events) && e.EvReserve? && e.id == id
    ensures var v := Run(Step(w, EvSeal(plan, id, owner, device)), events); Step(v, e) == v && id !in v.store.allocations
  {
    var w' := Step(w, EvSeal(plan, id, owner, device));
    SealKeeps(w, plan, id, owner, device);
    HistoryIsFrozen(w', events, id);
  }

  /** Over all restarts, each operation identity reaches the adapter at most once. */
  lemma ExecutedAtMostOnce(events: seq<Event>, i: nat, j: nat)
    requires Legal(Initial, events) && i < j < |Run(Initial, events).executed|
    ensures Run(Initial, events).executed[i] != Run(Initial, events).executed[j]
  {
    EveryRunKeeps(events);
  }
}
