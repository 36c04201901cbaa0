/** What the steps do to the tables, said of the tables and the arguments alone. */
module FixtureLaws {
  import opened Wrappers
  import opened FixtureStore
  import opened FixtureRuns
  import opened FixtureSafety

  /** The handle names the current row. */
  predicate Names(s: Store, h: Handle) {
    && h.id in s.allocations && s.allocations[h.id].plan.fixture == h.fixture
    && s.allocations[h.id].generation == h.generation && s.allocations[h.id].owner == h.owner
  }

  /** A reservation succeeds exactly for an identity never seen and a slot that is free, or that an available row holds
      while the history has room. The row is the caller's, in the generation after the one it replaces. */
  lemma ReservationIsExact(w: World, plan: Plan, owner: string, device: string, id: string)
    requires RowsOk(w.store)
    ensures var s, t := w.store, Step(w, EvReserve(plan, owner, device, id)).store;
            var holders := Holders(s, plan);
            if id in s.allocations || id in s.history
               || exists x :: x in holders && (s.allocations[x].phase != Available || |s.history| >= 100_000)
            then Step(w, EvReserve(plan, owner, device, id)) == w
            else
              && id in t.allocations && t.operations == s.operations
              && t.allocations == (map x | x in s.allocations && x !in holders :: s.allocations[x])[id := t.allocations[id]]
              && t.allocations[id] == Row(plan, owner, device, t.allocations[id].generation, Reserved, None)
              && (holders == {} ==> t.allocations[id].generation == 1 && t.history == s.history)
              && (forall x :: x in holders ==> t.allocations[id].generation == s.allocations[x].generation + 1 && t.history == s.history[x := s.allocations[x]])
  {
    var s := w.store;
    HoldersOfASlot(s, plan);
    var rest := map x | x in s.allocations && x !in Holders(s, plan) :: s.allocations[x];
    var holder := Holder(s, plan.SlotOf());
    if holder.Some? {
      assert Holders(s, plan) == {holder.value} && holder.value in Holders(s, plan);
      assert s.allocations - {holder.value} == rest;
    } else {
      assert s.allocations == rest;
    }
  }

  /** The rows that hold the slot of a plan. */
  function Holders(s: Store, plan: Plan): set<string> {
    set x | x in s.allocations && s.allocations[x].plan.project == plan.project && s.allocations[x].plan.fixture == plan.fixture
  }

  lemma HoldersOfASlot(s: Store, plan: Plan)
    requires RowsOk(s)
    ensures Holders(s, plan) == match Holder(s, plan.SlotOf()) case None => {} case Some(h) => {h}
  {
    var holder := Holder(s, plan.SlotOf());
    forall x | x in Holders(s, plan) ensures holder == Some(x) { assert s.allocations[x].plan.SlotOf() == plan.SlotOf(); }
  }

  /** A reply through a handle that no longer names a row is refused. One for another operation, generation or fence
      leaves the operation unknown. Otherwise the operation ends as the reply says if its end is retained and not from
      the future, and is unknown if not. */
  lemma ReplyIsExact(w: World, h: Handle, op: OpId, remote: Remote, now: int)
    requires Belongs(w.store, op, h.id, h.generation)
    ensures var s, t := w.store, Step(w, EvReply(h, op, remote, now)).store;
            var matching := remote.op == op && remote.generation == h.generation && remote.fence == h.generation;
            var lasting := remote.retention.Some? && remote.retention.value > now && remote.completed.Some? && remote.completed.value <= now;
            if !Names(s, h) then t == s
            else if !matching then
              && t.operations == s.operations[op := s.operations[op].(state := Unknown)]
              && t.allocations == s.allocations[h.id := s.allocations[h.id].(phase := Quarantined, reason := Some("fence_mismatch"))]
            else
              t.operations == s.operations[op := s.operations[op].(
                state := if lasting && remote.status == RemoteComplete then Complete else if lasting && remote.status == RemoteFailed then Failed else Unknown,
                completed := remote.completed, retention := remote.retention)]
    ensures var t := Step(w, EvReply(h, op, remote, now));
            t.seen == w.seen + if t.store.operations[op].state == Complete then {op} else {}
  {
  }

  /** The row after a matching reply: an attested completion moves it on from the phase of its own kind, and a safe
      cleanup with nothing else unresolved frees it; everything else quarantines it, with the reason. */
  lemma ReplyMovesTheRow(w: World, h: Handle, op: OpId, remote: Remote, now: int)
    requires Belongs(w.store, op, h.id, h.generation) && Names(w.store, h)
    requires remote.op == op && remote.generation == h.generation && remote.fence == h.generation
    ensures var s, t := w.store, Step(w, EvReply(h, op, remote, now)).store;
            var row, o := s.allocations[h.id], s.operations[op];
            var complete := remote.status == RemoteComplete && t.operations[op].state == Complete;
            var others := exists x :: x != op && Belongs(s, x, h.id, h.generation) && s.operations[x].state !in {Complete, Failed};
            t.allocations == s.allocations[h.id :=
              if complete && o.kind == Cleanup && !o.unsafePrior && row.phase == Cleaning then
                if others then row.(phase := Quarantined, reason := Some("prior_operation_unknown")) else row.(phase := Available, reason := None)
              else if complete && o.kind == Prepare && row.phase == Preparing then row.(phase := Prepared, reason := None)
              else if complete && o.kind == Check && row.phase == Checking then row.(phase := Checking, reason := None)
              else row.(phase := Quarantined,
                        reason := if complete then None
                                  else if t.operations[op].state == Failed then Some("remote_failed")
                                  else if remote.status in {RemoteComplete, RemoteFailed, RemoteExpired} then Some("retention_expired")
                                  else Some("remote_nonterminal"))]
  {
  }

  /** A lost result leaves the operation unknown whatever happened since, and quarantines the row only if it is still of
      that generation. */
  lemma LossIsExact(w: World, h: Handle, op: OpId, reason: string)
    requires op in w.store.operations
    ensures var s, t := w.store, Step(w, EvLost(h, op, reason)).store;
            && t.operations == s.operations[op := s.operations[op].(state := Unknown)] && t.history == s.history
            && t.allocations == if h.id in s.allocations && s.allocations[h.id].generation == h.generation
                                then s.allocations[h.id := s.allocations[h.id].(phase := Quarantined, reason := Some(reason))] else s.allocations
  {
  }

  /** A send marks the operation dispatched and is the only step that hands one to the adapter. */
  lemma SendIsExact(w: World, e: Event)
    requires e.EvDispatch? ==> e.op in w.store.operations
    ensures Step(w, e).executed == if e.EvDispatch? then w.executed + [e.op] else w.executed
    ensures e.EvDispatch? ==>
              && Step(w, e).store == w.store.(operations := w.store.operations[e.op := w.store.operations[e.op].(state := Dispatched)])
              && e.op !in Step(w, e).awaiting
  {
  }

  /** The three sections that only move a row, each for a handle that names it. */
  lemma MarksAreExact(w: World, plan: Plan, h: Handle, base: OpId)
    ensures var s := w.store;
            var row := if h.id in s.allocations then s.allocations[h.id] else Row(plan, "", "", 0, Available, None);
            && Step(w, EvReady(plan, h, base)).store
               == (if Names(s, h) && row.plan == plan && row.phase in {Prepared, Checking, Ready}
                   then s.(allocations := s.allocations[h.id := row.(phase := Ready, reason := None)]) else s)
            && Step(w, EvRetain(h)).store
               == (if Names(s, h) then s.(allocations := s.allocations[h.id := row.(phase := Quarantined, reason := Some("producer_cleanup_unknown"))]) else s)
            && Step(w, EvEndReconcile(h)).store
               == (if Names(s, h) && row.phase != Available
                   then s.(allocations := s.allocations[h.id := row.(phase := Quarantined,
                          reason := if row.reason.Some? then row.reason else Some("reconciliation_required"))]) else s)
  {
  }

  /** A row is released only for its own plan, generation, owner and device, while nothing was started in it; and an
      identity never seen is sealed in the history for its caller while there is room. */
  lemma RecoveryMarksAreExact(w: World, plan: Plan, id: string, generation: nat, owner: string, device: string)
    ensures var s := w.store;
            Step(w, EvUnstarted(plan, id, generation, owner, device)).store
            == if id in s.allocations && s.allocations[id].plan == plan && s.allocations[id].generation == generation
                  && s.allocations[id].owner == owner && s.allocations[id].device == device && s.allocations[id].phase in {Reserved, Quarantined}
                  && forall o :: !Belongs(s, o, id, generation)
               then s.(allocations := s.allocations[id := s.allocations[id].(phase := Available, reason := Some("unstarted_recovery"))]) else s
    ensures var s := w.store;
            Step(w, EvSeal(plan, id, owner, device)).store
            == if id in s.allocations || id in s.history || |s.history| >= 100_000 then s
               else s.(history := s.history[id := Row(plan, owner, device, 0, Available, Some("unstarted-reservation-sealed"))])
  {
  }

  /** A restart leaves ended operations as they were and makes every other one unknown, quarantines every row that is
      not available, and forgets what the process was about to send. */
  lemma RestartIsExact(w: World)
    ensures var s, v := w.store, Step(w, EvRestart);
            && v.awaiting == {} && v.store.history == s.history
            && v.store.allocations.Keys == s.allocations.Keys && v.store.operations.Keys == s.operations.Keys
            && (forall o :: o in s.operations ==> v.store.operations[o] == EndedOrUnknown(s.operations[o]))
            && (forall id :: id in s.allocations ==> v.store.allocations[id] == Closed(s.allocations[id]))
  {
    var s, t := w.store, RecoverUnfinished(w.store);
    forall o | o in s.operations ensures t.operations[o] == EndedOrUnknown(s.operations[o]) {
      assert t.operations[o] == Interrupted(s.operations[o]);
      var before := s.operations[o].state;
      assert before == Admitted || before == Dispatched || before == Running || before == Unknown || before == Complete || before == Failed;
      assert before in {Admitted, Dispatched, Running} <==> before == Admitted || before == Dispatched || before == Running;
    }
    forall id | id in s.allocations ensures t.allocations[id] == Closed(s.allocations[id]) { assert t.allocations[id] == Stranded(s.allocations[id]); }
  }

  function EndedOrUnknown(o: Op): Op {
    if o.state == Complete || o.state == Failed then o else o.(state := Unknown)
  }

  function Closed(row: Row): Row {
    if row.phase == Available || row.phase == Quarantined then row else row.(phase := Quarantined, reason := Some("process_restarted"))
  }
}
