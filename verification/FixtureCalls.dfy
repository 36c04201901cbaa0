/** What a whole call of the coordinator does: the steps it takes, and exactly when it succeeds. */
module FixtureCalls {
  import opened Wrappers
  import opened FixtureStore
  import opened FixtureRuns
  import opened FixtureSafety

  /** What the adapter gave back for one send: a response and when it is recorded, or none with the reason recorded. */
  datatype Answer = Replied(remote: Remote, at: int) | Silent(reason: string)

  // ---------------------------------------------------------------------------------------------
  // One operation
  // ---------------------------------------------------------------------------------------------

  predicate CanFence(plan: Plan) {
    plan.remoteFencing && plan.terminalStatus
  }

  /** An adapter that cannot fence is never called; otherwise the operation is dispatched and its answer recorded. */
  function SendEvents(plan: Plan, h: Handle, op: OpId, answer: Answer): seq<Event> {
    if !CanFence(plan) then [EvLost(h, op, "adapter_unfenced")]
    else [EvDispatch(op), match answer
                          case Replied(remote, at) => EvReply(h, op, remote, at)
                          case Silent(reason) => EvLost(h, op, reason)]
  }

  /** The adapter can be fenced, and attests that this operation is complete. */
  predicate Confirmed(plan: Plan, h: Handle, op: OpId, answer: Answer) {
    CanFence(plan) && Attests(h, op, answer) && answer.remote.status.RemoteComplete?
  }

  /** The answer attests that this operation has ended. */
  predicate Attests(h: Handle, op: OpId, answer: Answer) {
    && answer.Replied? && Fenced(answer.remote, op, h) && Attested(answer.remote, answer.at)
    && (answer.remote.status.RemoteComplete? || answer.remote.status.RemoteFailed?)
  }

  /** A current handle's reply leaves its operation complete, or ended, exactly when it attests that. */
  lemma ReplyCompletes(s: Store, h: Handle, op: OpId, remote: Remote, at: int)
    requires Current(s, h) && op in s.operations
    ensures var o := FinishRemote(s, h, op, remote, at).operations[op];
            && (o.state.Terminal() <==> Attests(h, op, Replied(remote, at)))
            && (o.state.Complete? <==> Attests(h, op, Replied(remote, at)) && remote.status.RemoteComplete?)
  {
  }

  /** A call for one operation ends complete: the recorded outcome of a known one, or a confirmed new one. */
  predicate Succeeds(reply: Reply, plan: Plan, h: Handle, op: OpId, answer: Answer) {
    match reply
    case Refused => false
    case Known(o) => o.state.Complete?
    case Fresh => Confirmed(plan, h, op, answer)
  }

  function OperateEvents(admission: Event, reply: Reply, plan: Plan, h: Handle, op: OpId, answer: Answer): seq<Event> {
    [admission] + if reply.Fresh? then SendEvents(plan, h, op, answer) else []
  }

  // ---------------------------------------------------------------------------------------------
  // An admission
  // ---------------------------------------------------------------------------------------------

  /** The event that admits this operation. */
  predicate IsAdmission(e: Event, plan: Plan, h: Handle, kind: Kind, recipe: string, op: OpId, payload: string, now: int) {
    match kind
    case Prepare => e == EvPrepare(plan, h, op, payload, now) && recipe == plan.fixture
    case Check => e.EvCheck? && e == EvCheck(plan, h, e.base, e.index, payload, now) && op == Derived(e.base, e.index)
                  && 1 <= e.index <= |plan.checks| && recipe == plan.checks[e.index - 1]
    case Cleanup => e == EvCleanup(plan, h, op, payload, now) && recipe == plan.cleanup
  }

  /** The handle names the current row, which is bound to the plan and has not been given back. */
  predicate Held(s: Store, plan: Plan, h: Handle) {
    && h.id in s.allocations && s.allocations[h.id].plan == plan && plan.fixture == h.fixture
    && s.allocations[h.id].generation == h.generation && s.allocations[h.id].owner == h.owner && s.allocations[h.id].phase != Available
  }

  /** The identity is known, from the same call. */
  predicate Presented(s: Store, h: Handle, recipe: string, op: OpId, payload: string) {
    && op in s.operations && s.operations[op].allocation == h.id && s.operations[op].generation == h.generation
    && s.operations[op].recipe == recipe && s.operations[op].payload == payload
  }

  /** Without a held handle nothing is admitted, and an identity known from another call is refused. */
  lemma NothingAdmitted(w: World, e: Event, plan: Plan, h: Handle, kind: Kind, recipe: string, op: OpId, payload: string, now: int)
    requires IsAdmission(e, plan, h, kind, recipe, op, payload, now)
    requires !Held(w.store, plan, h) || (op in w.store.operations && !Presented(w.store, h, recipe, op, payload))
    ensures Step(w, e) == w
  {
  }

  /** A known identity presented again changes nothing while its outcome is retained. Once the retention has passed,
      the operation is unknown and its allocation quarantined. */
  lemma KnownIsReplayed(w: World, e: Event, plan: Plan, h: Handle, kind: Kind, recipe: string, op: OpId, payload: string, now: int)
    requires IsAdmission(e, plan, h, kind, recipe, op, payload, now)
    requires Held(w.store, plan, h) && Presented(w.store, h, recipe, op, payload)
    ensures var known, t := w.store.operations[op], Step(w, e).store;
            if known.retention.Some? && known.retention.value <= now
            then t == w.store.(operations := w.store.operations[op := known.(state := Unknown)],
                               allocations := w.store.allocations[h.id := w.store.allocations[h.id].(phase := Quarantined, reason := Some("retention_expired"))])
            else t == w.store
  {
  }

  /** The answer to a known identity is its state after that. */
  lemma KnownReply(w: World, e: Event, plan: Plan, h: Handle, kind: Kind, recipe: string, op: OpId, payload: string, now: int)
    requires IsAdmission(e, plan, h, kind, recipe, op, payload, now)
    ensures Held(w.store, plan, h) && Presented(w.store, h, recipe, op, payload) ==>
              var known, t := w.store.operations[op], Step(w, e).store;
              && op in t.operations && Admit(w.store, plan, h, kind, recipe, payload, op, now).1 == Known(t.operations[op])
              && (if known.retention.Some? && known.retention.value <= now
                  then t.operations == w.store.operations[op := known.(state := Unknown)]
                       && t.allocations == w.store.allocations[h.id := w.store.allocations[h.id].(phase := Quarantined, reason := Some("retention_expired"))]
                  else t == w.store)
  {
    if Held(w.store, plan, h) && Presented(w.store, h, recipe, op, payload) { KnownIsReplayed(w, e, plan, h, kind, recipe, op, payload, now); }
  }

  /** A new identity is admitted exactly while the limit of operations is not reached and the phase calls for it: a
      preparation of a reserved row, a check of a prepared one with nothing unresolved, a cleanup unless one is under
      way. A cleanup remembers whether an effect was unresolved before it. */
  lemma NewIsAdmitted(w: World, e: Event, plan: Plan, h: Handle, kind: Kind, recipe: string, op: OpId, payload: string, now: int)
    requires IsAdmission(e, plan, h, kind, recipe, op, payload, now)
    requires Held(w.store, plan, h) && op !in w.store.operations
    ensures var s, t, row := w.store, Step(w, e).store, w.store.allocations[h.id];
            var due := match kind
                       case Prepare => row.phase == Reserved
                       case Check => row.phase in {Prepared, Checking} && forall o :: Belongs(s, o, h.id, h.generation) ==> s.operations[o].state in {Complete, Failed}
                       case Cleanup => row.phase != Cleaning;
            var phase := match kind case Prepare => Preparing case Check => Checking case Cleanup => Cleaning;
            if !due || |s.operations| >= 100_000 then Step(w, e) == w
            else
              && op in t.operations && t.operations == s.operations[op := t.operations[op]]
              && t.allocations == s.allocations[h.id := row.(phase := phase, reason := None)] && t.history == s.history
              && t.operations[op] == Op(h.id, h.generation, kind, recipe, payload, Admitted, None, None, t.operations[op].unsafePrior)
              && (t.operations[op].unsafePrior <==>
                    kind == Cleanup && exists o :: Belongs(s, o, h.id, h.generation) && s.operations[o].kind != Cleanup
                                                   && s.operations[o].state !in {Complete, Failed})
              && (op in Step(w, e).awaiting <==> op in w.awaiting || (plan.remoteFencing && plan.terminalStatus))
  {
    AdmitShape(w.store, plan, h, kind, recipe, payload, op, now);
  }

  // ---------------------------------------------------------------------------------------------
  // A preparation
  // ---------------------------------------------------------------------------------------------

  /** One call of `prepare`: the k-th effect is asked for at `times(k)` if `authorized(k)`, and answered by `answers(k)`. */
  datatype Call = Call(plan: Plan, handle: Handle, payload: string, op: OpId,
                       times: nat -> int, authorized: nat -> bool, answers: nat -> Answer)
  {
    function First(): Event {
      EvPrepare(plan, handle, op, payload, times(0))
    }

    function Next(index: nat): Event {
      EvCheck(plan, handle, op, index, payload, times(index))
    }
  }

  ghost function FirstReply(w: World, c: Call): Reply {
    Admit(w.store, c.plan, c.handle, Prepare, c.plan.fixture, c.payload, c.op, c.times(0)).1
  }

  ghost predicate FirstPasses(w: World, c: Call) {
    Succeeds(FirstReply(w, c), c.plan, c.handle, c.op, c.answers(0))
  }

  ghost function FirstEvents(w: World, c: Call): seq<Event> {
    OperateEvents(c.First(), FirstReply(w, c), c.plan, c.handle, c.op, c.answers(0))
  }

  ghost function CheckReply(w: World, c: Call, index: nat): Reply
    requires 1 <= index <= |c.plan.checks|
  {
    Admit(w.store, c.plan, c.handle, Check, c.plan.checks[index - 1], c.payload, Derived(c.op, index), c.times(index)).1
  }

  ghost predicate CheckPasses(w: World, c: Call, index: nat)
    requires 1 <= index <= |c.plan.checks|
  {
    Succeeds(CheckReply(w, c, index), c.plan, c.handle, Derived(c.op, index), c.answers(index))
  }

  ghost function CheckEvents(w: World, c: Call, index: nat): seq<Event>
    requires 1 <= index <= |c.plan.checks|
  {
    OperateEvents(c.Next(index), CheckReply(w, c, index), c.plan, c.handle, Derived(c.op, index), c.answers(index))
  }

  /** The checks from `index` on are authorized and pass, each in the state the one before it leaves. */
  ghost predicate ChecksPass(w: World, c: Call, index: nat)
    requires index >= 1
    decreases |c.plan.checks| + 1 - index
  {
    index <= |c.plan.checks| ==>
      c.authorized(index) && CheckPasses(w, c, index) && ChecksPass(Run(w, CheckEvents(w, c, index)), c, index + 1)
  }

  /** What happens in the loop of checks: it goes on until one is not authorized or does not pass. */
  ghost function ChecksRun(w: World, c: Call, index: nat): seq<Event>
    requires index >= 1
    decreases |c.plan.checks| + 1 - index
  {
    if index > |c.plan.checks| || !c.authorized(index) then []
    else
      var events := CheckEvents(w, c, index);
      events + if CheckPasses(w, c, index) then ChecksRun(Run(w, events), c, index + 1) else []
  }

  ghost function AfterFirst(w: World, c: Call): World {
    Run(w, FirstEvents(w, c))
  }

  ghost predicate AllPass(w: World, c: Call) {
    c.authorized(0) && FirstPasses(w, c) && ChecksPass(AfterFirst(w, c), c, 1) && c.authorized(|c.plan.checks| + 1)
  }

  ghost function PrepareRun(w: World, c: Call): seq<Event> {
    if !c.authorized(0) then []
    else
      FirstEvents(w, c)
      + (if FirstPasses(w, c) then ChecksRun(AfterFirst(w, c), c, 1) else [])
      + (if AllPass(w, c) then [EvReady(c.plan, c.handle, c.op)] else [])
  }

  /** The call reports completion. */
  ghost predicate Completes(w: World, c: Call) {
    && AllPass(w, c)
    && var s := Run(AfterFirst(w, c), ChecksRun(AfterFirst(w, c), c, 1)).store;
       Bound(s, c.handle, c.plan) && s.allocations[c.handle.id].phase in {Prepared, Checking, Ready}
  }

  // ---------------------------------------------------------------------------------------------
  // A reconciliation
  // ---------------------------------------------------------------------------------------------

  /** The event that records an answer of a reconciliation. */
  function RecordEvent(h: Handle, o: OpId, answer: Answer): Event {
    match answer
    case Replied(remote, at) => EvReply(h, o, remote, at)
    case Silent(_) => EvLost(h, o, "status_unknown")
  }

  function Recordings(h: Handle, listing: seq<OpId>, answers: OpId -> Answer): seq<Event> {
    seq(|listing|, k requires 0 <= k < |listing| => RecordEvent(h, listing[k], answers(listing[k])))
  }

  /** The operations of one generation, each once. */
  ghost predicate Lists(s: Store, h: Handle, listing: seq<OpId>) {
    && (forall o :: o in listing <==> Belongs(s, o, h.id, h.generation))
    && (forall i, j :: 0 <= i < j < |listing| ==> listing[i] != listing[j])
  }

  /** The adapter's answer about an operation it was never sent is not an ending. */
  predicate Truthful(sent: seq<OpId>, h: Handle, o: OpId, answer: Answer) {
    answer.Replied? && Fenced(answer.remote, o, h) && (answer.remote.status.RemoteComplete? || answer.remote.status.RemoteFailed?)
    ==> o in sent
  }

  predicate Answered(o: Op) {
    o.state.Terminal() || o.state.Unknown?
  }

  /** An operation has ended if the answer about it attests that, and is unknown otherwise. */
  predicate AnsweredBy(op: Op, h: Handle, o: OpId, answer: Answer) {
    Answered(op) && (op.state.Terminal() <==> Attests(h, o, answer))
  }

  ghost predicate SameOperations(s: Store, t: Store) {
    t.operations.Keys == s.operations.Keys && forall o :: o in s.operations ==> SameFacts(s.operations[o], t.operations[o])
  }

  /** The generation has the operations it had, each as its answer leaves it. */
  ghost predicate Recorded(s: Store, t: Store, h: Handle, answers: OpId -> Answer) {
    && SameOperations(s, t)
    && forall o :: Belongs(t, o, h.id, h.generation) ==> AnsweredBy(t.operations[o], h, o, answers(o))
  }

  /** A slot that is neither being cleaned nor available stays so. */
  ghost predicate StaysTaken(s: Store, t: Store, id: string) {
    && id in s.allocations && id in t.allocations
    && (s.allocations[id].phase !in {Cleaning, Available} ==> t.allocations[id].phase !in {Cleaning, Available})
  }

  /** What one answer of a reconciliation does. */
  lemma RecordShape(w: World, h: Handle, o: OpId, answer: Answer)
    requires Belongs(w.store, o, h.id, h.generation) && Current(w.store, h)
    ensures var t := Step(w, RecordEvent(h, o, answer)).store;
            && Touches(w.store, t, h.id, Some(o)) && Current(t, h)
            && AnsweredBy(t.operations[o], h, o, answer)
            && StaysTaken(w.store, t, h.id)
  {
    if answer.Replied? {
      ReplyTouches(w.store, h, o, answer.remote, answer.at);
      ReplyCompletes(w.store, h, o, answer.remote, answer.at);
    }
  }

  lemma NothingRecorded(s: Store, h: Handle)
    requires Current(s, h)
    ensures SameOperations(s, s) && StaysTaken(s, s, h.id)
  {
  }

  lemma StillBelongs(s: Store, t: Store, h: Handle, o: OpId)
    requires SameOperations(s, t)
    ensures Belongs(s, o, h.id, h.generation) <==> Belongs(t, o, h.id, h.generation)
  {
  }

  lemma RecordedOne(s: Store, t: Store, u: Store, h: Handle, o: OpId)
    requires SameOperations(s, t) && Touches(t, u, h.id, Some(o)) && StaysTaken(s, t, h.id) && StaysTaken(t, u, h.id)
    ensures SameOperations(s, u) && StaysTaken(s, u, h.id) && u.operations.Keys == t.operations.Keys
    ensures forall x :: x in t.operations && x != o ==> u.operations[x] == t.operations[x]
  {
  }

  // ---------------------------------------------------------------------------------------------
  // A recovery
  // ---------------------------------------------------------------------------------------------

  /** The row of an identity, current or retired. */
  function RowOf(s: Store, id: string): Option<Row> {
    if id in s.allocations then Some(s.allocations[id]) else if id in s.history then Some(s.history[id]) else None
  }

  predicate Found(s: Store, plan: Plan, h: Handle, device: string) {
    var row := RowOf(s, h.id);
    row.Some? && row.value.plan == plan && row.value.generation == h.generation && row.value.owner == h.owner && row.value.device == device
  }

  /** The generation began with the preparation that the recovery names. */
  predicate StartedBy(s: Store, plan: Plan, h: Handle, prepareOp: OpId, payload: string) {
    && Belongs(s, prepareOp, h.id, h.generation)
    && s.operations[prepareOp].kind.Prepare? && s.operations[prepareOp].recipe == plan.fixture && s.operations[prepareOp].payload == payload
  }

  predicate SafeCleanup(o: Op, recipe: string) {
    o.kind.Cleanup? && o.recipe == recipe && o.state.Complete? && !o.unsafePrior
  }

  ghost predicate CleanHistory(s: Store, id: string, generation: nat, recipe: string) {
    && (forall o :: Belongs(s, o, id, generation) ==> s.operations[o].state.Terminal())
    && (exists o :: Belongs(s, o, id, generation) && SafeCleanup(s.operations[o], recipe))
  }

  /** What a report of success rests on. */
  ghost predicate Settlement(s: Store, id: string, generation: nat, recipe: string) {
    Unstarted(s, id, generation) || CleanHistory(s, id, generation, recipe)
  }

  /** The generation has been given back, with the evidence the recovery asks for. */
  ghost predicate GivenBack(s: Store, plan: Plan, h: Handle, device: string, prepareOp: OpId, payload: string, allowUnstarted: bool) {
    && Found(s, plan, h, device) && RowOf(s, h.id).value.phase.Available?
    && (|| (allowUnstarted && Unstarted(s, h.id, h.generation))
        || (StartedBy(s, plan, h, prepareOp, payload) && CleanHistory(s, h.id, h.generation, plan.cleanup)))
  }

  /** The allocation started nothing and may be freed as it is. */
  ghost predicate Releasable(s: Store, plan: Plan, h: Handle, device: string, allowUnstarted: bool) {
    && h.id in s.allocations && Found(s, plan, h, device) && s.allocations[h.id].phase in {Reserved, Quarantined}
    && allowUnstarted && Unstarted(s, h.id, h.generation)
  }

  /** The allocation is quarantined and has to be cleaned. */
  ghost predicate Cleanable(s: Store, plan: Plan, h: Handle, device: string, prepareOp: OpId, payload: string) {
    && h.id in s.allocations && Found(s, plan, h, device) && s.allocations[h.id].phase.Quarantined?
    && StartedBy(s, plan, h, prepareOp, payload)
  }

  /** Every operation so far is attested to have ended, and a new cleanup is confirmed. */
  ghost predicate Restores(s: Store, plan: Plan, h: Handle, cleanupOp: OpId, answers: OpId -> Answer, cleanupAnswer: Answer) {
    && cleanupOp !in s.operations && |s.operations| < MAX_OPERATIONS && Confirmed(plan, h, cleanupOp, cleanupAnswer)
    && forall o :: Belongs(s, o, h.id, h.generation) ==> Attests(h, o, answers(o))
  }

  ghost function CleanupReply(w: World, plan: Plan, h: Handle, op: OpId, now: int): Reply {
    Admit(w.store, plan, h, Cleanup, plan.cleanup, "{}", op, now).1
  }

  ghost function AfterCleanup(w: World, plan: Plan, h: Handle, op: OpId, now: int, answer: Answer): World {
    Run(w, OperateEvents(EvCleanup(plan, h, op, "{}", now), CleanupReply(w, plan, h, op, now), plan, h, op, answer))
  }

  /** A cleanup of a quarantined slot frees it exactly when it is new, confirmed and nothing before it is unresolved. */
  lemma CleanupOutcome(w: World, plan: Plan, h: Handle, op: OpId, now: int, answer: Answer)
    requires Bound(w.store, h, plan) && w.store.allocations[h.id].phase.Quarantined?
    ensures var s := AfterCleanup(w, plan, h, op, now, answer).store;
            Current(s, h) && (Succeeds(CleanupReply(w, plan, h, op, now), plan, h, op, answer) && s.allocations[h.id].phase.Available?
              <==> op !in w.store.operations && |w.store.operations| < MAX_OPERATIONS && Confirmed(plan, h, op, answer)
                   && !SomeUnresolved(w.store, h.id, h.generation))
  {
    hide Run;
    var e, reply := EvCleanup(plan, h, op, "{}", now), CleanupReply(w, plan, h, op, now);
    RunsOne(w, e);
    assert [e] + [] == [e];
    AdmitShape(w.store, plan, h, Cleanup, plan.cleanup, "{}", op, now);
    if reply.Fresh? {
      var v := Step(w, e);
      RunAppend(w, [e], SendEvents(plan, h, op, answer));
      FreshCleanup(w, plan, h, op, now, answer);
    }
  }

  /** A confirmed send is recorded as its reply; any other leaves the slot quarantined. */
  lemma SentOutcome(w: World, plan: Plan, h: Handle, op: OpId, answer: Answer)
    requires Current(w.store, h) && Belongs(w.store, op, h.id, h.generation)
    ensures var t := Run(w, SendEvents(plan, h, op, answer)).store;
            && Current(t, h) && op in t.operations
            && (Confirmed(plan, h, op, answer) ==> t == FinishRemote(WithState(w.store, op, Dispatched), h, op, answer.remote, answer.at))
            && (!Confirmed(plan, h, op, answer) ==> t.allocations[h.id].phase.Quarantined?)
  {
    hide Run;
    var events := SendEvents(plan, h, op, answer);
    if !CanFence(plan) {
      RunsOne(w, events[0]);
    } else {
      RunsTwo(w, events[0], events[1]);
      var v := Step(w, EvDispatch(op));
      if answer.Replied? { ReplyTouches(v.store, h, op, answer.remote, answer.at); }
    }
  }

  lemma RunsTwo(w: World, e: Event, f: Event)
    ensures Run(w, [e, f]) == Step(Step(w, e), f)
  {
    assert [e, f][1..] == [f];
    RunsOne(Step(w, e), f);
  }

  lemma FreshCleanup(w: World, plan: Plan, h: Handle, op: OpId, now: int, answer: Answer)
    requires Bound(w.store, h, plan) && w.store.allocations[h.id].phase.Quarantined? && CleanupReply(w, plan, h, op, now).Fresh?
    ensures var s := Run(Step(w, EvCleanup(plan, h, op, "{}", now)), SendEvents(plan, h, op, answer)).store;
            Current(s, h) && (Confirmed(plan, h, op, answer) ==> (s.allocations[h.id].phase.Available? <==> !SomeUnresolved(w.store, h.id, h.generation)))
  {
    hide Run;
    AdmitShape(w.store, plan, h, Cleanup, plan.cleanup, "{}", op, now);
    var v := Step(w, EvCleanup(plan, h, op, "{}", now));
    assert v.store == Inserted(w.store, h, op, Newcomer(w.store, h, Cleanup, plan.cleanup, "{}"));
    SentOutcome(v, plan, h, op, answer);
    var t := WithState(v.store, op, Dispatched);
    assert OtherUnresolved(t, h.id, h.generation, op) <==> SomeUnresolved(w.store, h.id, h.generation) by {
      if SomeUnresolved(w.store, h.id, h.generation) {
        var o :| Belongs(w.store, o, h.id, h.generation) && !w.store.operations[o].state.Terminal();
        assert Belongs(t, o, h.id, h.generation) && !t.operations[o].state.Terminal();
      }
      if OtherUnresolved(t, h.id, h.generation, op) {
        var o :| o != op && Belongs(t, o, h.id, h.generation) && !t.operations[o].state.Terminal();
        assert Belongs(w.store, o, h.id, h.generation) && !w.store.operations[o].state.Terminal();
      }
    }
    assert SomeEffectUnresolved(w.store, h.id, h.generation) ==> SomeUnresolved(w.store, h.id, h.generation);
  }

  lemma RunsOne(w: World, e: Event)
    ensures Run(w, [e]) == Step(w, e)
  {
    assert [e][1..] == [];
  }

  /** After a reconciliation the operations of the generation have ended exactly where that was attested. */
  lemma RestoresAfter(s: Store, t: Store, plan: Plan, h: Handle, cleanupOp: OpId, answers: OpId -> Answer, cleanupAnswer: Answer)
    requires Recorded(s, t, h, answers)
    ensures Restores(s, plan, h, cleanupOp, answers, cleanupAnswer)
            <==> cleanupOp !in t.operations && |t.operations| < MAX_OPERATIONS && Confirmed(plan, h, cleanupOp, cleanupAnswer)
                 && !SomeUnresolved(t, h.id, h.generation)
  {
    assert |s.operations| == |s.operations.Keys| == |t.operations.Keys| == |t.operations|;
    forall o ensures Belongs(s, o, h.id, h.generation) <==> Belongs(t, o, h.id, h.generation) { }
    if !SomeUnresolved(t, h.id, h.generation) {
      forall o | Belongs(s, o, h.id, h.generation) ensures Attests(h, o, answers(o)) { assert Belongs(t, o, h.id, h.generation); }
    }
  }

  // ---------------------------------------------------------------------------------------------
  // When a preparation completes
  // ---------------------------------------------------------------------------------------------

  /** The generation goes forward with n operations, all of them complete, and room for the others of the call. */
  ghost predicate Forward(s: Store, c: Call, n: nat) {
    && Bound(s, c.handle, c.plan) && s.allocations[c.handle.id].phase in {Prepared, Checking}
    && !SomeUnresolved(s, c.handle.id, c.handle.generation)
    && n <= |c.plan.checks| + 1 && |s.operations| + (|c.plan.checks| + 1 - n) <= MAX_OPERATIONS
    && forall i :: n <= i <= |c.plan.checks| ==> Derived(c.op, i) !in s.operations
  }

  /** None of the identities of the call is used, and the allocation has just been reserved. */
  ghost predicate Untried(s: Store, c: Call) {
    && Bound(s, c.handle, c.plan) && s.allocations[c.handle.id].phase.Reserved? && Unstarted(s, c.handle.id, c.handle.generation)
    && |s.operations| + |c.plan.checks| + 1 <= MAX_OPERATIONS
    && c.op !in s.operations && forall i :: 1 <= i <= |c.plan.checks| ==> Derived(c.op, i) !in s.operations
  }

  /** A new operation that is confirmed is complete, and its generation goes on. */
  lemma ConfirmedGoesOn(w: World, w': World, plan: Plan, h: Handle, kind: Kind, recipe: string, payload: string, op: OpId, now: int,
                        answer: Answer)
    requires Bound(w.store, h, plan) && op !in w.store.operations && !kind.Cleanup?
    requires Admit(w.store, plan, h, kind, recipe, payload, op, now).1.Fresh?
    requires w'.store == Admit(w.store, plan, h, kind, recipe, payload, op, now).0 && Confirmed(plan, h, op, answer)
    ensures var s := Run(w', SendEvents(plan, h, op, answer)).store;
            && Bound(s, h, plan) && s.allocations[h.id].phase == (if kind.Prepare? then Prepared else Checking)
            && s.operations.Keys == w.store.operations.Keys + {op} && s.operations[op].state.Complete?
            && forall o :: o in w.store.operations ==> s.operations[o] == w.store.operations[o]
  {
    hide Run;
    AdmitShape(w.store, plan, h, kind, recipe, payload, op, now);
    SentOutcome(w', plan, h, op, answer);
  }

  /** The k-th effect of the call is authorized and confirmed; the 0-th is the preparation. */
  predicate Granted(c: Call, k: nat) {
    c.authorized(k) && Confirmed(c.plan, c.handle, if k == 0 then c.op else Derived(c.op, k), c.answers(k))
  }

  lemma RunsFirst(w: World, e: Event, rest: seq<Event>)
    ensures Run(w, [e] + rest) == Run(Step(w, e), rest)
  {
    RunsOne(w, e);
    RunAppend(w, [e], rest);
  }

  lemma FirstGoes(w: World, c: Call)
    requires Untried(w.store, c)
    ensures FirstPasses(w, c) <==> Confirmed(c.plan, c.handle, c.op, c.answers(0))
    ensures FirstPasses(w, c) ==> Forward(AfterFirst(w, c).store, c, 1)
  {
    hide Run, Confirmed;
    if FirstPasses(w, c) {
      var h := c.handle;
      RunsFirst(w, c.First(), SendEvents(c.plan, h, c.op, c.answers(0)));
      ConfirmedGoesOn(w, Step(w, c.First()), c.plan, h, Prepare, c.plan.fixture, c.payload, c.op, c.times(0), c.answers(0));
      OneMore(w.store, AfterFirst(w, c).store, h, c.op);
      forall i | 1 <= i <= |c.plan.checks| ensures Derived(c.op, i) !in AfterFirst(w, c).store.operations { assert Derived(c.op, i) != c.op; }
    }
  }

  lemma OneMore(s: Store, t: Store, h: Handle, op: OpId)
    requires op !in s.operations && t.operations.Keys == s.operations.Keys + {op} && t.operations[op].state.Complete?
    requires forall o :: o in s.operations ==> t.operations[o] == s.operations[o]
    ensures |t.operations| == |s.operations| + 1
    ensures !SomeUnresolved(s, h.id, h.generation) ==> !SomeUnresolved(t, h.id, h.generation)
  {
    assert |t.operations| == |t.operations.Keys| == |s.operations.Keys + {op}| == |s.operations.Keys| + 1;
    if SomeUnresolved(t, h.id, h.generation) {
      var o :| Belongs(t, o, h.id, h.generation) && !t.operations[o].state.Terminal();
      assert Belongs(s, o, h.id, h.generation);
    }
  }

  lemma CheckGoes(w: World, c: Call, index: nat)
    requires 1 <= index <= |c.plan.checks| && Forward(w.store, c, index)
    ensures CheckPasses(w, c, index) <==> Confirmed(c.plan, c.handle, Derived(c.op, index), c.answers(index))
    ensures CheckPasses(w, c, index) ==> Forward(Run(w, CheckEvents(w, c, index)).store, c, index + 1)
  {
    hide Run, Confirmed;
    var h, op := c.handle, Derived(c.op, index);
    assert op !in w.store.operations;
    if CheckPasses(w, c, index) {
      RunsFirst(w, c.Next(index), SendEvents(c.plan, h, op, c.answers(index)));
      ConfirmedGoesOn(w, Step(w, c.Next(index)), c.plan, h, Check, c.plan.checks[index - 1], c.payload, op, c.times(index), c.answers(index));
      OneMore(w.store, Run(w, CheckEvents(w, c, index)).store, h, op);
    }
  }

  lemma {:induction false} ChecksGo(w: World, c: Call, index: nat)
    requires index >= 1 && Forward(w.store, c, index)
    ensures ChecksPass(w, c, index) <==> forall k :: index <= k <= |c.plan.checks| ==> Granted(c, k)
    ensures ChecksPass(w, c, index) ==> Forward(Run(w, ChecksRun(w, c, index)).store, c, |c.plan.checks| + 1)
    decreases |c.plan.checks| + 1 - index
  {
    hide Forward, Confirmed, CheckPasses, CheckEvents;
    ForwardBound(w.store, c, index);
    if index <= |c.plan.checks| {
      CheckGoes(w, c, index);
      var v := Run(w, CheckEvents(w, c, index));
      if CheckPasses(w, c, index) {
        ChecksGo(v, c, index + 1);
        RunAppend(w, CheckEvents(w, c, index), ChecksRun(v, c, index + 1));
      }
      assert Granted(c, index) <==> c.authorized(index) && CheckPasses(w, c, index);
    }
  }

  lemma ForwardBound(s: Store, c: Call, n: nat)
    requires Forward(s, c, n)
    ensures n <= |c.plan.checks| + 1
  {
  }

  /** The preparation of an allocation just reserved completes exactly when the adapter can be fenced, every effect is
      authorized and the completion of every effect is attested. */
  lemma PreparationCompletesIff(w: World, c: Call)
    requires Untried(w.store, c)
    ensures Completes(w, c) <==> (forall k :: 0 <= k <= |c.plan.checks| ==> Granted(c, k)) && c.authorized(|c.plan.checks| + 1)
  {
    hide Confirmed, Run, ChecksPass, ChecksRun, FirstPasses;
    FirstGoes(w, c);
    if FirstPasses(w, c) { ChecksGo(AfterFirst(w, c), c, 1); }
    assert Granted(c, 0) <==> c.authorized(0) && FirstPasses(w, c);
  }
}
