/** What `clear` costs the pointer transport: exactly which runs with it lose a wakeup. */
module PointerClear {
  import opened Wrappers
  import opened PointerSteps
  import opened PointerInvariant
  import opened PointerProofs
  import opened PointerTheorems

  // ---------------------------------------------------------------------------------------------
  // A send that a clear has made stale
  // ---------------------------------------------------------------------------------------------

  /** The send in flight was started before the last clear: its completion will choose nothing. */
  predicate Waiting(s: State) {
    s.inflight.Some? && s.inflight.value.generation < s.generation
  }

  /** Nothing that a send would have to carry. */
  predicate Blank(s: State) {
    s.active == [] && s.queue == [] && s.cancelPending.None? && !s.cancelling
  }

  /** A packet waits to be chosen. */
  predicate Loaded(s: State) {
    s.queue != [] || s.cancelPending.Some?
  }

  /** A call that gives the transport an edge or a cancel to send. */
  predicate Carries(e: Event) {
    e.EvDown? || e.EvCancel?
  }

  /** The call at i is followed by no clear. */
  predicate Stranded(events: seq<Event>, i: nat) {
    i < |events| && Carries(events[i]) && forall j :: i < j < |events| ==> !events[j].EvClear?
  }

  predicate NoDone(events: seq<Event>) {
    forall i :: 0 <= i < |events| ==> !events[i].EvDone?
  }

  lemma WaitingStep(s: State, e: Event)
    requires s.Wf() && Waiting(s) && !e.EvDone? && 0 < s.maxPointers
    requires Blank(s) || Loaded(s)
    ensures var t := Step(s, e);
            && t.Wf() && Waiting(t) && t.maxPointers == s.maxPointers
            && (Blank(t) || Loaded(t)) && !(Blank(t) && Loaded(t))
            && (Loaded(t) <==> Carries(e) || (Loaded(s) && !e.EvClear?))
  {
    StepKeepsWf(s, e);
    if e.EvDown? && Blank(s) { assert FreeSlot(s.gestures, [], 0, s.maxPointers) == Some(0); }
  }

  /** While a stale send is in flight, what is called is chosen by nobody until the next clear forgets it. */
  lemma {:induction false} WaitingRun(s: State, events: seq<Event>)
    requires s.Wf() && Waiting(s) && NoDone(events) && 0 < s.maxPointers
    requires Blank(s) != Loaded(s)
    ensures var t := Run(s, events);
            && t.Wf() && Waiting(t) && (Blank(t) != Loaded(t))
            && (Loaded(t) <==> (exists i: nat :: Stranded(events, i)) || (Loaded(s) && NoClear(events)))
    decreases |events|
  {
    if events != [] {
      var t, rest := Step(s, events[0]), events[1..];
      WaitingStep(s, events[0]);
      WaitingRun(t, rest);
      forall i: nat | Stranded(rest, i) ensures Stranded(events, i + 1) { }
      forall i: nat | Stranded(events, i) && i > 0 ensures Stranded(rest, i - 1) { }
      assert NoClear(events) <==> !events[0].EvClear? && NoClear(rest) by {
        if !events[0].EvClear? && NoClear(rest) {
          forall i | 0 <= i < |events| ensures !events[i].EvClear? { assert i > 0 ==> events[i] == rest[i - 1]; }
        }
      }
      assert Carries(events[0]) && NoClear(rest) ==> Stranded(events, 0);
      assert Stranded(events, 0) ==> NoClear(rest);
    }
  }

  lemma StaleEnds(s: State, now: real)
    requires s.Wf() && Waiting(s) && Blank(s) != Loaded(s)
    ensures Step(s, EvDone(now)).Wf() && (Quiet(Step(s, EvDone(now))) <==> Blank(s))
  {
    StaleCompletionIsQuietIff(s, now);
  }

  lemma ClearedIsBlank(s: State)
    requires s.Wf()
    ensures Clear(s).Wf() && Blank(Clear(s)) && !Loaded(Clear(s))
  {
  }

  /** A send in flight is of this or an earlier generation. */
  predicate Dated(s: State) {
    0 < s.maxPointers && (s.inflight.Some? ==> s.inflight.value.generation <= s.generation)
  }

  lemma {:induction false} NextEdgeDates(s: State, now: real)
    requires s.Wf()
    ensures var t := NextEdge(s, now).0; t.inflight == s.inflight && t.generation == s.generation && t.maxPointers == s.maxPointers
    decreases |s.queue|
  {
    if s.queue != [] && Stale(s, s.queue[0]) {
      NextEdgeDates(Put(s, s.queue[0], s.gestures[s.queue[0]].(edgeQueued := false)).(queue := s.queue[1..]), now);
    }
  }

  lemma PumpDates(s: State, now: real)
    requires s.Wf() && Dated(s)
    ensures Dated(Pump(s, now))
  {
    NextEdgeKeepsWf(s, now);
    NextEdgeDates(s, now);
  }

  lemma QueueDates(s: State, g: nat, now: real)
    requires s.Wf() && g < |s.gestures| && Dated(s)
    ensures Dated(QueueEdge(s, g, now))
  {
    if !(s.cancelPending.Some? || s.gestures[g].edgeQueued || Stale(s, g)) {
      PumpDates(Put(s, g, s.gestures[g].(edgeQueued := true)).(queue := s.queue + [g]), now);
    }
  }

  lemma SettleDates(s: State, packet: Packet, now: real)
    requires s.Wf() && Dated(s) && (!packet.Cancel? ==> packet.gesture < |s.gestures|)
    ensures Dated(Settle(s, packet, now))
  {
    if packet.Down? && s.gestures[packet.gesture].up.Some? { QueueDates(s, packet.gesture, now); }
  }

  lemma StepDates(s: State, e: Event)
    requires s.Wf() && Dated(s)
    ensures Dated(Step(s, e))
  {
    hide Pump, QueueEdge, Settle;
    match e
    case EvDown(pointer, body, now) =>
      var slot := FreeSlot(s.gestures, s.active, 0, s.maxPointers);
      if slot.Some? {
        var gesture := Gesture(pointer, slot.value, s.generation, body, None, false, false, None, false, false, None, false, false);
        QueueDates(Opening(s, gesture), |s.gestures|, now);
      }
    case EvMove(pointer, body, now) =>
      var found := Find(s.gestures, s.active, pointer);
      if found.Some? {
        var t := AcceptMove(s, found.value, body);
        PumpDates(Put(t, found.value, t.gestures[found.value].(moveReady := true)), now);
      }
    case EvUp(pointer, body, now) =>
      var found := Find(s.gestures, s.active, pointer);
      if found.Some? {
        QueueDates(Closing(s, found.value, body), found.value, now);
      }
    case EvCancel(body, now) => PumpDates(Swept(s, body), now);
    case EvTimer(g, now) => if g < |s.gestures| { PumpDates(Put(s, g, s.gestures[g].(timer := false, moveReady := true)), now); }
    case EvDone(now) =>
      if s.inflight.Some? {
        var t := s.(inflight := None, trace := s.trace + [Done(s.inflight.value.packet)]);
        SettleKeepsWf(t, s.inflight.value.packet, now);
        SettleDates(t, s.inflight.value.packet, now);
        PumpDates(Settle(t, s.inflight.value.packet, now), now);
      }
    case EvClear =>
  }

  lemma {:induction false} RunDates(s: State, events: seq<Event>)
    requires s.Wf() && Dated(s)
    ensures Run(s, events).Wf() && Dated(Run(s, events))
    decreases |events|
  {
    if events != [] {
      StepKeepsWf(s, events[0]);
      StepDates(s, events[0]);
      RunDates(Step(s, events[0]), events[1..]);
    }
  }

  /** Let a clear come while something is in flight, and calls, timers and further clears before its completion. The
      scheduler is then left idle with something to send exactly when a down or a cancel was called after the last of
      those clears. */
  lemma WakeupIsLostIff(s: State, events: seq<Event>, now: real)
    requires s.Wf() && Dated(s) && s.inflight.Some? && NoDone(events)
    ensures Run(Clear(s), events).Wf() && Step(Run(Clear(s), events), EvDone(now)).Wf()
    ensures !Quiet(Step(Run(Clear(s), events), EvDone(now))) <==> exists i: nat :: Stranded(events, i)
  {
    hide Step, Run, Quiet, NoDone, Stranded, NoClear, Clear, State.Wf;
    var cleared := Clear(s);
    ClearedIsBlank(s);
    ClearedWaits(s);
    WaitingRun(cleared, events);
    StaleEnds(Run(cleared, events), now);
  }

  lemma ClearedWaits(s: State)
    requires Dated(s) && s.inflight.Some?
    ensures Waiting(Clear(s)) && 0 < Clear(s).maxPointers
  {
  }

  /** Every state of every run, with clears or without, is one that the previous lemma speaks of. */
  lemma EveryRunIsDated(maxPointers: nat, interval: real, events: seq<Event>)
    requires 0 < maxPointers
    ensures Run(Initial(maxPointers, interval), events).Wf() && Dated(Run(Initial(maxPointers, interval), events))
  {
    RunDates(Initial(maxPointers, interval), events);
  }

  // ---------------------------------------------------------------------------------------------
  // Life after a clear: a twin that was never cleared
  // ---------------------------------------------------------------------------------------------

  /** The two states differ only in the generation they count and in gestures below n, which are gone in both. */
  ghost predicate Twins(s: State, t: State, n: nat) {
    && s.Wf() && t.Wf() && n <= |s.gestures| == |t.gestures|
    && s.maxPointers == t.maxPointers && s.interval == t.interval && s.motions == t.motions
    && s.active == t.active && s.queue == t.queue && s.cancelPending == t.cancelPending
    && s.cancelling == t.cancelling && s.waiters == t.waiters
    && (forall i :: 0 <= i < |s.active| ==> n <= s.active[i])
    && (forall i :: 0 <= i < |s.queue| ==> n <= s.queue[i])
    && (forall g :: 0 <= g < |s.gestures| ==> TwinGestures(s, t, n, g))
    && TwinFlights(s, t, n)
  }

  ghost predicate TwinGestures(s: State, t: State, n: nat, g: nat)
    requires g < |s.gestures| == |t.gestures|
  {
    if g < n then s.gestures[g].removed && t.gestures[g].removed && !s.gestures[g].timer && !t.gestures[g].timer
    else s.gestures[g] == t.gestures[g].(generation := s.generation) && t.gestures[g].generation == t.generation
  }

  ghost predicate TwinFlights(s: State, t: State, n: nat) {
    match s.inflight
    case None => t.inflight.None?
    case Some(f) => t.inflight == Some(Flight(f.packet, t.generation)) && f.generation == s.generation && (!f.packet.Cancel? ==> n <= f.packet.gesture)
  }

  lemma {:induction false} TwinFind(s: State, t: State, n: nat, active: seq<nat>, pointer: int)
    requires Twins(s, t, n) && forall i :: 0 <= i < |active| ==> n <= active[i] < |s.gestures|
    ensures Find(s.gestures, active, pointer) == Find(t.gestures, active, pointer)
    decreases |active|
  {
    if active != [] {
      assert TwinGestures(s, t, n, active[0]);
      TwinFind(s, t, n, active[1..], pointer);
    }
  }

  lemma {:induction false} TwinFreeSlot(s: State, t: State, n: nat, slot: nat)
    requires Twins(s, t, n)
    ensures FreeSlot(s.gestures, s.active, slot, s.maxPointers) == FreeSlot(t.gestures, t.active, slot, t.maxPointers)
    decreases s.maxPointers - slot
  {
    if slot < s.maxPointers {
      forall i | 0 <= i < |s.active| ensures s.gestures[s.active[i]].slot == t.gestures[s.active[i]].slot { assert TwinGestures(s, t, n, s.active[i]); }
      assert SlotUsed(s.gestures, s.active, slot) <==> SlotUsed(t.gestures, t.active, slot);
      TwinFreeSlot(s, t, n, slot + 1);
    }
  }

  lemma {:induction false} TwinSelect(s: State, t: State, n: nat, active: seq<nat>, selected: Option<nat>)
    requires Twins(s, t, n) && forall i :: 0 <= i < |active| ==> n <= active[i] < |s.gestures|
    requires selected.Some? ==> n <= selected.value < |s.gestures|
    ensures Select(s.gestures, active, selected) == Select(t.gestures, active, selected)
    ensures Select(s.gestures, active, selected).Some? ==> n <= Select(s.gestures, active, selected).value
    decreases |active|
  {
    if active != [] {
      var g := active[0];
      assert TwinGestures(s, t, n, g);
      if selected.Some? { assert TwinGestures(s, t, n, selected.value); }
      var better := Ready(s.gestures[g]) && (selected.None? || Before(s.gestures[g].lastMoveAt, s.gestures[selected.value].lastMoveAt));
      TwinSelect(s, t, n, active[1..], if better then Some(g) else selected);
    }
  }

  /** The same change of a live gesture keeps twins. */
  lemma TwinPut(s: State, t: State, n: nat, g: nat, a: Gesture, b: Gesture)
    requires Twins(s, t, n) && n <= g < |s.gestures|
    requires a == b.(generation := s.generation) && b.generation == t.generation
    ensures Twins(Put(s, g, a), Put(t, g, b), n)
  {
    var s1, t1 := Put(s, g, a), Put(t, g, b);
    forall x | 0 <= x < |s1.gestures| ensures TwinGestures(s1, t1, n, x) { assert TwinGestures(s, t, n, x); }
  }

  lemma TwinQueue(s: State, t: State, n: nat, queue: seq<nat>)
    requires Twins(s, t, n) && forall i :: 0 <= i < |queue| ==> n <= queue[i] < |s.gestures|
    ensures Twins(s.(queue := queue), t.(queue := queue), n)
  {
    var s1, t1 := s.(queue := queue), t.(queue := queue);
    forall x | 0 <= x < |s1.gestures| ensures TwinGestures(s1, t1, n, x) { assert TwinGestures(s, t, n, x); }
  }

  lemma TwinLaunch(s: State, t: State, n: nat, packet: Packet)
    requires Twins(s, t, n) && (!packet.Cancel? ==> n <= packet.gesture < |s.gestures|)
    ensures Twins(Launch(s, packet), Launch(t, packet), n)
  {
    var s1, t1 := Launch(s, packet), Launch(t, packet);
    forall x | 0 <= x < |s1.gestures| ensures TwinGestures(s1, t1, n, x) { assert TwinGestures(s, t, n, x); }
  }

  lemma TwinHeads(s: State, t: State, n: nat)
    requires Twins(s, t, n)
    ensures s.Wf() && t.Wf() && |s.gestures| == |t.gestures| && s.queue == t.queue
    ensures s.queue != [] ==> n <= s.queue[0] < |s.gestures| && TwinGestures(s, t, n, s.queue[0])
  {
    if s.queue != [] { assert TwinGestures(s, t, n, s.queue[0]); }
  }

  /** The head of the queue leaves it. */
  lemma TwinShift(s: State, t: State, n: nat, a: Gesture, b: Gesture)
    requires Twins(s, t, n) && s.queue != [] && a == b.(generation := s.generation) && b.generation == t.generation
    ensures s.queue[0] < |s.gestures| == |t.gestures|
    ensures Twins(Put(s, s.queue[0], a).(queue := s.queue[1..]), Put(t, s.queue[0], b).(queue := s.queue[1..]), n)
  {
    TwinPut(s, t, n, s.queue[0], a, b);
    TwinQueue(Put(s, s.queue[0], a), Put(t, s.queue[0], b), n, s.queue[1..]);
  }

  function Unqueued(s: State): State
    requires s.queue != [] && s.queue[0] < |s.gestures|
  {
    Put(s, s.queue[0], s.gestures[s.queue[0]].(edgeQueued := false)).(queue := s.queue[1..])
  }

  lemma StaleHead(s: State, now: real)
    requires s.Wf() && s.queue != [] && Stale(s, s.queue[0])
    ensures Unqueued(s).Wf() && NextEdge(s, now) == NextEdge(Unqueued(s), now)
  {
  }

  lemma TwinUnqueued(s: State, t: State, n: nat)
    requires Twins(s, t, n) && s.queue != []
    ensures s.queue[0] < |t.gestures| && Twins(Unqueued(s), Unqueued(t), n)
  {
    var a, b := s.gestures[s.queue[0]], t.gestures[s.queue[0]];
    TwinHeads(s, t, n);
    TwinShift(s, t, n, a.(edgeQueued := false), b.(edgeQueued := false));
  }

  /** What a head that is not stale sends. */
  lemma TwinChosen(s: State, t: State, n: nat, now: real)
    requires Twins(s, t, n) && s.queue != [] && !Stale(s, s.queue[0])
    ensures Twins(NextEdge(s, now).0, NextEdge(t, now).0, n) && NextEdge(s, now).1 == NextEdge(t, now).1
    ensures NextEdge(s, now).1.Some? && !NextEdge(s, now).1.value.Cancel? && NextEdge(s, now).1.value.gesture == s.queue[0]
  {
    var g := s.queue[0];
    TwinHeads(s, t, n);
    var a, b := s.gestures[g], t.gestures[g];
    if !a.downDispatched {
      TwinUnqueued(s, t, n);
      TwinPut(Unqueued(s), Unqueued(t), n, g, a.(edgeQueued := false, downDispatched := true), b.(edgeQueued := false, downDispatched := true));
    } else if a.up.Some? && a.pending.Some? {
      TwinPut(s, t, n, g, a.(moveReady := false, lastMoveAt := Some(now)), b.(moveReady := false, lastMoveAt := Some(now)));
    } else {
      TwinUnqueued(s, t, n);
    }
  }

  lemma {:induction false} TwinNextEdge(s: State, t: State, n: nat, now: real)
    requires Twins(s, t, n)
    ensures Twins(NextEdge(s, now).0, NextEdge(t, now).0, n) && NextEdge(s, now).1 == NextEdge(t, now).1
    ensures NextEdge(s, now).1.Some? ==> !NextEdge(s, now).1.value.Cancel? && n <= NextEdge(s, now).1.value.gesture < |s.gestures|
    decreases |s.queue|
  {
    TwinHeads(s, t, n);
    if s.queue != [] {
      hide Twins, NextEdge;
      if Stale(s, s.queue[0]) {
        StaleHead(s, now);
        StaleHead(t, now);
        TwinUnqueued(s, t, n);
        TwinNextEdge(Unqueued(s), Unqueued(t), n, now);
      } else {
        TwinChosen(s, t, n, now);
      }
    }
  }

  lemma TwinNextMove(s: State, t: State, n: nat, now: real)
    requires Twins(s, t, n)
    ensures Twins(NextMove(s, now).0, NextMove(t, now).0, n) && NextMove(s, now).1 == NextMove(t, now).1
    ensures NextMove(s, now).1.Some? ==> !NextMove(s, now).1.value.Cancel? && n <= NextMove(s, now).1.value.gesture < |NextMove(s, now).0.gestures|
  {
    TwinSelect(s, t, n, s.active, None);
    var found := Select(s.gestures, s.active, None);
    if found.Some? {
      var g := found.value;
      assert TwinGestures(s, t, n, g);
      TwinPut(s, t, n, g, s.gestures[g].(moveReady := false, lastMoveAt := Some(now)), t.gestures[g].(moveReady := false, lastMoveAt := Some(now)));
    }
  }

  lemma TwinNoCancel(s: State, t: State, n: nat)
    requires Twins(s, t, n)
    ensures Twins(s.(cancelPending := None), t.(cancelPending := None), n)
  {
    var s1, t1 := s.(cancelPending := None), t.(cancelPending := None);
    forall x | 0 <= x < |s1.gestures| ensures TwinGestures(s1, t1, n, x) { assert TwinGestures(s, t, n, x); }
  }

  lemma TwinPump(s: State, t: State, n: nat, now: real)
    requires Twins(s, t, n)
    ensures Twins(Pump(s, now), Pump(t, now), n)
  {
    hide NextEdge, NextMove, TwinGestures;
    if s.inflight.None? {
      TwinNextEdge(s, t, n, now);
      var s1, t1 := NextEdge(s, now).0, NextEdge(t, now).0;
      NextEdgeKeepsWf(s, now);
      if NextEdge(s, now).1.Some? {
        TwinLaunch(s1, t1, n, NextEdge(s, now).1.value);
      } else if s1.cancelPending.Some? {
        TwinNoCancel(s1, t1, n);
        TwinLaunch(s1.(cancelPending := None), t1.(cancelPending := None), n, Cancel(s1.cancelPending.value));
      } else {
        TwinNextMove(s1, t1, n, now);
        var s2, t2 := NextMove(s1, now).0, NextMove(t1, now).0;
        if NextMove(s1, now).1.Some? { TwinLaunch(s2, t2, n, NextMove(s1, now).1.value); }
      }
    }
  }

  lemma TwinQueueEdge(s: State, t: State, n: nat, g: nat, now: real)
    requires Twins(s, t, n) && n <= g < |s.gestures|
    ensures Twins(QueueEdge(s, g, now), QueueEdge(t, g, now), n)
  {
    hide Pump;
    assert TwinGestures(s, t, n, g);
    if !(s.cancelPending.Some? || s.gestures[g].edgeQueued || Stale(s, g)) {
      TwinPut(s, t, n, g, s.gestures[g].(edgeQueued := true), t.gestures[g].(edgeQueued := true));
      var s1, t1 := Put(s, g, s.gestures[g].(edgeQueued := true)), Put(t, g, t.gestures[g].(edgeQueued := true));
      TwinQueue(s1, t1, n, s.queue + [g]);
      TwinPump(s1.(queue := s.queue + [g]), t1.(queue := s.queue + [g]), n, now);
    }
  }

  lemma TwinOpen(s: State, t: State, n: nat, a: Gesture, b: Gesture)
    requires Twins(s, t, n) && a == b.(generation := s.generation) && b.generation == t.generation
    ensures var g := |s.gestures|;
            Twins(Opening(s, a), Opening(t, b), n)
  {
    var g := |s.gestures|;
    var s1, t1 := Opening(s, a), Opening(t, b);
    forall x | 0 <= x < |s1.gestures| ensures TwinGestures(s1, t1, n, x) { if x < g { assert TwinGestures(s, t, n, x); } }
  }

  lemma TwinDown(s: State, t: State, n: nat, pointer: int, body: Body, now: real)
    requires Twins(s, t, n)
    ensures Twins(PointerDown(s, pointer, body, now).0, PointerDown(t, pointer, body, now).0, n)
  {
    hide QueueEdge, TwinGestures;
    TwinFind(s, t, n, s.active, pointer);
    TwinFreeSlot(s, t, n, 0);
    var slot := FreeSlot(s.gestures, s.active, 0, s.maxPointers);
    if slot.Some? {
      var a := Gesture(pointer, slot.value, s.generation, body, None, false, false, None, false, false, None, false, false);
      var b := a.(generation := t.generation);
      var g := |s.gestures|;
      TwinOpen(s, t, n, a, b);
      TwinQueueEdge(Opening(s, a), Opening(t, b), n, g, now);
    }
  }

  lemma TwinAccept(s: State, t: State, n: nat, g: nat, body: Body)
    requires Twins(s, t, n) && n <= g < |s.gestures|
    ensures Twins(AcceptMove(s, g, body), AcceptMove(t, g, body), n) && g < |AcceptMove(s, g, body).gestures|
  {
    assert TwinGestures(s, t, n, g);
    var motion := Some(Motion(s.motions, body));
    TwinPut(s, t, n, g, s.gestures[g].(pending := motion), t.gestures[g].(pending := motion));
    var s1, t1 := Put(s, g, s.gestures[g].(pending := motion)), Put(t, g, t.gestures[g].(pending := motion));
    var s2, t2 := AcceptMove(s, g, body), AcceptMove(t, g, body);
    forall x | 0 <= x < |s2.gestures| ensures TwinGestures(s2, t2, n, x) { assert TwinGestures(s1, t1, n, x); }
  }

  lemma TwinMove(s: State, t: State, n: nat, pointer: int, body: Body, now: real)
    requires Twins(s, t, n)
    ensures Twins(PointerMove(s, pointer, body, now).0, PointerMove(t, pointer, body, now).0, n)
  {
    hide Pump, AcceptMove;
    TwinFind(s, t, n, s.active, pointer);
    var found := Find(s.gestures, s.active, pointer);
    if found.Some? {
      var g := found.value;
      assert TwinGestures(s, t, n, g);
      TwinAccept(s, t, n, g, body);
      var s1, t1 := AcceptMove(s, g, body), AcceptMove(t, g, body);
      assert TwinGestures(s1, t1, n, g);
      TwinPut(s1, t1, n, g, s1.gestures[g].(moveReady := true), t1.gestures[g].(moveReady := true));
      TwinPut(s1, t1, n, g, s1.gestures[g].(timer := true), t1.gestures[g].(timer := true));
      TwinPump(Put(s1, g, s1.gestures[g].(moveReady := true)), Put(t1, g, t1.gestures[g].(moveReady := true)), n, now);
    }
  }

  lemma TwinClosing(s: State, t: State, n: nat, g: nat, body: Body)
    requires Twins(s, t, n) && n <= g < |s.gestures|
    ensures Twins(Closing(s, g, body), Closing(t, g, body), n)
  {
    assert TwinGestures(s, t, n, g);
    var a := s.gestures[g].(closing := true, up := Some(body), timer := false, moveReady := s.gestures[g].pending.Some?);
    var b := t.gestures[g].(closing := true, up := Some(body), timer := false, moveReady := t.gestures[g].pending.Some?);
    TwinPut(s, t, n, g, a, b);
    var s1, t1 := Closing(s, g, body), Closing(t, g, body);
    forall x | 0 <= x < |s1.gestures| ensures TwinGestures(s1, t1, n, x) { assert TwinGestures(Put(s, g, a), Put(t, g, b), n, x); }
  }

  lemma TwinUp(s: State, t: State, n: nat, pointer: int, body: Body, now: real)
    requires Twins(s, t, n)
    ensures Twins(PointerUp(s, pointer, body, now).0, PointerUp(t, pointer, body, now).0, n)
  {
    hide QueueEdge;
    TwinFind(s, t, n, s.active, pointer);
    var found := Find(s.gestures, s.active, pointer);
    if found.Some? {
      var g := found.value;
      assert TwinGestures(s, t, n, g);
      TwinClosing(s, t, n, g, body);
      TwinQueueEdge(Closing(s, g, body), Closing(t, g, body), n, g, now);
    }
  }

  lemma TwinTimer(s: State, t: State, n: nat, g: nat, now: real)
    requires Twins(s, t, n) && g < |s.gestures|
    ensures Twins(TimerFires(s, g, now), TimerFires(t, g, now), n)
  {
    hide Pump;
    assert TwinGestures(s, t, n, g);
    if g >= n {
      TwinPut(s, t, n, g, s.gestures[g].(timer := false, moveReady := true), t.gestures[g].(timer := false, moveReady := true));
      TwinPut(s, t, n, g, s.gestures[g].(timer := false), t.gestures[g].(timer := false));
      TwinPump(Put(s, g, s.gestures[g].(timer := false, moveReady := true)), Put(t, g, t.gestures[g].(timer := false, moveReady := true)), n, now);
    }
  }

  lemma TwinCancel(s: State, t: State, n: nat, body: Body, now: real)
    requires Twins(s, t, n)
    ensures Twins(CancelAll(s, body, now), CancelAll(t, body, now), n)
  {
    hide Pump, Swept, Twins;
    TwinsAgree(s, t, n);
    TwinSwept(s, t, n, body);
    TwinPump(Swept(s, body), Swept(t, body), n, now);
  }

  function Dropped(gesture: Gesture): Gesture {
    gesture.(closing := true, pending := None, moveReady := false, timer := false)
  }

  lemma SweptFields(s: State, body: Body, x: nat)
    requires x < |s.gestures|
    ensures var t := Swept(s, body);
            && |t.gestures| == |s.gestures| && t.generation == s.generation
            && t.gestures[x] == if x in s.active then Dropped(s.gestures[x]) else s.gestures[x]
  {
  }

  lemma TwinSwept(s: State, t: State, n: nat, body: Body)
    requires Twins(s, t, n)
    ensures Twins(Swept(s, body), Swept(t, body), n)
  {
    hide TwinGestures;
    var s1, t1 := Swept(s, body), Swept(t, body);
    assert |s1.gestures| == |s.gestures| == |t1.gestures|;
    forall x | 0 <= x < |s1.gestures| ensures TwinGestures(s1, t1, n, x) {
      assert TwinGestures(s, t, n, x);
      TwinSweptGesture(s, t, n, x, body);
    }
  }

  lemma TwinSweptGesture(s: State, t: State, n: nat, x: nat, body: Body)
    requires x < |s.gestures| == |t.gestures| && s.active == t.active && TwinGestures(s, t, n, x)
    ensures TwinGestures(Swept(s, body), Swept(t, body), n, x)
  {
    hide Swept;
    SweptFields(s, body, x);
    SweptFields(t, body, x);
  }

  lemma TwinRemove(s: State, t: State, n: nat, g: nat)
    requires Twins(s, t, n) && n <= g < |s.gestures|
    ensures Twins(Remove(s, g), Remove(t, g), n)
  {
    var s1, t1 := Remove(s, g), Remove(t, g);
    assert TwinGestures(s, t, n, g);
    forall x | 0 <= x < |s1.gestures| ensures TwinGestures(s1, t1, n, x) { assert TwinGestures(s, t, n, x); }
    forall i | 0 <= i < |s1.active| ensures n <= s1.active[i] < |s.gestures| { assert s1.active[i] in s.active; }
  }

  lemma TwinSettle(s: State, t: State, n: nat, packet: Packet, now: real)
    requires Twins(s, t, n) && (!packet.Cancel? ==> n <= packet.gesture < |s.gestures|)
    ensures Twins(Settle(s, packet, now), Settle(t, packet, now), n)
  {
    hide QueueEdge, Remove;
    match packet
    case Down(g, _, _) => assert TwinGestures(s, t, n, g); TwinQueueEdge(s, t, n, g, now);
    case Up(g, _, _) => TwinRemove(s, t, n, g);
    case Move(g, _, motion) =>
      assert TwinGestures(s, t, n, g);
      TwinPut(s, t, n, g, s.gestures[g].(pending := None), t.gestures[g].(pending := None));
    case Cancel(_) =>
      var s1, t1 := Settle(s, packet, now), Settle(t, packet, now);
      forall x | 0 <= x < |s1.gestures| ensures TwinGestures(s1, t1, n, x) { assert TwinGestures(s, t, n, x); }
  }

  lemma TwinDone(s: State, t: State, n: nat, now: real)
    requires Twins(s, t, n)
    ensures Twins(Completed(s, now), Completed(t, now), n)
  {
    hide Pump, Settle;
    if s.inflight.Some? {
      var packet := s.inflight.value.packet;
      var s1, t1 := s.(inflight := None, trace := s.trace + [Done(packet)]), t.(inflight := None, trace := t.trace + [Done(packet)]);
      forall x | 0 <= x < |s1.gestures| ensures TwinGestures(s1, t1, n, x) { assert TwinGestures(s, t, n, x); }
      TwinSettle(s1, t1, n, packet, now);
      TwinPump(Settle(s1, packet, now), Settle(t1, packet, now), n, now);
    }
  }

  /** Twins stay twins. */
  lemma TwinStep(s: State, t: State, n: nat, e: Event)
    requires Twins(s, t, n) && !e.EvClear?
    ensures Twins(Step(s, e), Step(t, e), n)
  {
    hide Twins, PointerDown, PointerMove, PointerUp, CancelAll, TimerFires, Completed;
    TwinsAgree(s, t, n);
    match e
    case EvDown(pointer, body, now) => TwinDown(s, t, n, pointer, body, now);
    case EvMove(pointer, body, now) => TwinMove(s, t, n, pointer, body, now);
    case EvUp(pointer, body, now) => TwinUp(s, t, n, pointer, body, now);
    case EvCancel(body, now) => TwinCancel(s, t, n, body, now);
    case EvTimer(g, now) => if g < |s.gestures| { TwinTimer(s, t, n, g, now); }
    case EvDone(now) => TwinDone(s, t, n, now);
  }

  lemma TwinsAgree(s: State, t: State, n: nat)
    requires Twins(s, t, n)
    ensures s.Wf() && t.Wf() && |s.gestures| == |t.gestures|
    ensures Quiet(s) <==> Quiet(t)
    ensures !Waiting(s) && s.maxPointers == t.maxPointers && (0 < s.maxPointers ==> Dated(s))
    ensures Inv(t) ==> s.maxPointers <= MAX_POINTERS
  {
    forall g | g in s.active ensures TwinGestures(s, t, n, g) { }
  }

  /** Every gesture so far is gone. */
  ghost predicate AllGone(s: State) {
    forall g :: 0 <= g < |s.gestures| ==> s.gestures[g].removed && !s.gestures[g].timer
  }

  /** The twin of a scheduler in which everything is gone: one that has just begun. */
  function Forgotten(s: State): State {
    State(s.maxPointers, s.interval, seq(|s.gestures|, i requires 0 <= i < |s.gestures| => Gone(s.gestures[i])),
          [], [], None, false, s.waiters, None, 0, s.motions, [])
  }

  function Gone(gesture: Gesture): Gesture {
    gesture.(slot := 0, generation := 0, pending := None, removed := true, timer := false)
  }

  lemma ForgottenIsTwin(s: State)
    requires s.Wf() && Blank(s) && AllGone(s) && s.inflight.None? && 0 < s.maxPointers <= MAX_POINTERS
    ensures Inv(Forgotten(s)) && Twins(s, Forgotten(s), |s.gestures|)
  {
    var t := Forgotten(s);
    forall g | 0 <= g < |t.gestures| ensures BasicOk(t, g) && MovesOk(t, g) { assert t.gestures[g] == Gone(s.gestures[g]); }
    forall g | 0 <= g < |s.gestures| ensures TwinGestures(s, t, |s.gestures|, g) { assert t.gestures[g] == Gone(s.gestures[g]); }
    assert Holding(t) == {};
  }

  ghost predicate Mirrored(s: State) {
    exists t, n: nat :: Inv(t) && Twins(s, t, n)
  }

  /** Either the scheduler behaves like one that was never cleared, or it waits for a stale send with nothing to do. */
  ghost predicate Safe(s: State) {
    s.Wf() && 0 < s.maxPointers <= MAX_POINTERS && (Mirrored(s) || (Waiting(s) && Blank(s) && AllGone(s)))
  }

  /** No down and no cancel is called while a send from before the last clear is in flight. */
  predicate Heeds(s: State, e: Event) {
    Carries(e) ==> !Waiting(s)
  }

  lemma ClearedIsSafe(s: State, t: State, n: nat)
    requires Inv(t) && Twins(s, t, n) && 0 < s.maxPointers <= MAX_POINTERS
    ensures Safe(Clear(s))
  {
    var cleared := Clear(s);
    forall g | 0 <= g < |cleared.gestures| ensures cleared.gestures[g].removed && !cleared.gestures[g].timer {
      assert TwinGestures(s, t, n, g) && BasicOk(t, g);
    }
    if cleared.inflight.None? { ForgottenIsTwin(cleared); }
  }

  lemma MirroredStep(s: State, e: Event)
    requires Mirrored(s) && 0 < s.maxPointers <= MAX_POINTERS
    ensures s.Wf() && Safe(Step(s, e))
  {
    hide Inv, Twins, Step;
    var t, n: nat :| Inv(t) && Twins(s, t, n);
    TwinsAgree(s, t, n);
    if e.EvClear? {
      ClearedIsSafe(s, t, n);
      StepClears(s);
    } else {
      StepKeeps(t, e);
      TwinStep(s, t, n, e);
      TwinsAgree(Step(s, e), Step(t, e), n);
      StepDates(s, e);
    }
  }

  lemma StepClears(s: State)
    requires s.Wf()
    ensures Step(s, EvClear) == Clear(s)
  {
  }

  lemma WaitingKeepsSafe(s: State, e: Event)
    requires Safe(s) && Waiting(s) && Blank(s) && AllGone(s) && !Carries(e)
    ensures Safe(Step(s, e))
  {
    hide Step, Mirrored;
    if e.EvDone? {
      StaleCompletionIsQuietIff(s, e.now);
      ForgottenIsTwin(Step(s, e));
      IsMirrored(Step(s, e), Forgotten(Step(s, e)), |s.gestures|);
    } else if e.EvClear? {
      ClearedAgain(s);
    } else {
      NothingToDo(s, e);
    }
  }

  lemma IsMirrored(s: State, t: State, n: nat)
    requires Inv(t) && Twins(s, t, n)
    ensures Mirrored(s)
  {
  }

  lemma NothingRemoved(gestures: seq<Gesture>)
    ensures RemoveAll(gestures, []) == gestures
  {
  }

  lemma ClearedAgain(s: State)
    requires s.Wf() && Waiting(s) && Blank(s) && AllGone(s)
    ensures var t := Step(s, EvClear); t.Wf() && Waiting(t) && Blank(t) && AllGone(t) && t.maxPointers == s.maxPointers
  {
    hide Step;
    StepClears(s);
    NothingRemoved(s.gestures);
  }

  lemma NothingToDo(s: State, e: Event)
    requires s.Wf() && Blank(s) && AllGone(s) && (e.EvMove? || e.EvUp? || e.EvTimer?)
    ensures Step(s, e) == s
  {
  }

  lemma StepKeepsSafe(s: State, e: Event)
    requires Safe(s) && Heeds(s, e)
    ensures Safe(Step(s, e))
  {
    hide Step, AllGone;
    if Mirrored(s) { MirroredStep(s, e); } else { WaitingKeepsSafe(s, e); }
  }

  lemma SafeIsQuiet(s: State)
    requires Safe(s)
    ensures Quiet(s)
  {
    if Mirrored(s) {
      var t, n: nat :| Inv(t) && Twins(s, t, n);
      TwinsAgree(s, t, n);
    }
  }

  ghost predicate Heedful(s: State, events: seq<Event>)
    requires s.Wf()
    decreases |events|
  {
    events == [] || (Heeds(s, events[0]) && (StepKeepsWf(s, events[0]); Heedful(Step(s, events[0]), events[1..])))
  }

  lemma {:induction false} SafeRun(s: State, events: seq<Event>)
    requires Safe(s) && Heedful(s, events)
    ensures Safe(Run(s, events))
    decreases |events|
  {
    hide Step, Mirrored, AllGone;
    if events != [] {
      StepKeepsSafe(s, events[0]);
      SafeRun(Step(s, events[0]), events[1..]);
    }
  }

  /** No wakeup is lost in a run with clears either, wherever they come, if no down and no cancel is called while a
      send from before the last clear is still in flight. */
  lemma NothingIsLostAcrossClears(maxPointers: nat, interval: real, events: seq<Event>)
    requires 0 < maxPointers && Heedful(Initial(maxPointers, interval), events)
    ensures Run(Initial(maxPointers, interval), events).Wf() && Quiet(Run(Initial(maxPointers, interval), events))
  {
    var s := Initial(maxPointers, interval);
    InitialOk(maxPointers, interval);
    assert Twins(s, s, 0);
    RunDates(s, events);
    SafeRun(s, events);
    SafeIsQuiet(Run(s, events));
  }
}
