/** Which calls are accepted, what each is recorded as, and when a move is sent. */
module PointerCalls {
  import opened Wrappers
  import opened PointerSteps
  import opened PointerInvariant
  import opened PointerTheorems

  /** Nothing is sent, or one packet is. */
  predicate SendsAtMostOne(before: seq<Act>, after: seq<Act>) {
    before <= after && |after| <= |before| + 1 && (|after| > |before| ==> after[|before|].Sent?)
  }

  lemma {:induction false} EdgeKeepsTrace(s: State, now: real)
    requires s.Wf()
    ensures var t := NextEdge(s, now).0;
            && t.trace == s.trace && t.inflight == s.inflight && t.cancelPending == s.cancelPending && t.motions == s.motions
            && t.active == s.active && |t.gestures| == |s.gestures| && t.cancelling == s.cancelling && t.waiters == s.waiters
    decreases |s.queue|
  {
    if s.queue != [] && Stale(s, s.queue[0]) {
      EdgeKeepsTrace(Put(s, s.queue[0], s.gestures[s.queue[0]].(edgeQueued := false)).(queue := s.queue[1..]), now);
    }
  }

  lemma PumpSends(s: State, now: real)
    requires s.Wf()
    ensures var t := Pump(s, now);
            && SendsAtMostOne(s.trace, t.trace) && |t.gestures| == |s.gestures| && t.active == s.active && t.motions == s.motions
            && t.cancelling == s.cancelling && t.waiters == s.waiters
    ensures s.inflight.Some? ==> Pump(s, now) == s
  {
    NextEdgeKeepsWf(s, now);
    EdgeKeepsTrace(s, now);
  }

  lemma QueueSends(s: State, g: nat, now: real)
    requires s.Wf() && g < |s.gestures|
    ensures SendsAtMostOne(s.trace, QueueEdge(s, g, now).trace) && |QueueEdge(s, g, now).gestures| == |s.gestures|
    ensures QueueEdge(s, g, now).active == s.active
  {
    if !(s.cancelPending.Some? || s.gestures[g].edgeQueued || Stale(s, g)) {
      PumpSends(Put(s, g, s.gestures[g].(edgeQueued := true)).(queue := s.queue + [g]), now);
    }
  }

  predicate PointerIsDown(s: State, pointer: int)
    requires s.Wf()
  {
    exists i :: 0 <= i < |s.active| && s.gestures[s.active[i]].pointer == pointer
  }

  predicate SlotIsTaken(s: State, slot: nat)
    requires s.Wf()
  {
    exists i :: 0 <= i < |s.active| && s.gestures[s.active[i]].slot == slot
  }

  /** A down is accepted exactly for a pointer that is not down, while no cancel is under way and a slot is free. It
      opens a gesture in the least free slot, and is recorded with it before anything is sent. */
  lemma DownIsExact(s: State, pointer: int, body: Body, now: real)
    requires s.Wf()
    ensures var t, accepted, g := Step(s, EvDown(pointer, body, now)), PointerDown(s, pointer, body, now).1, |s.gestures|;
            && (accepted <==> !s.cancelling && !PointerIsDown(s, pointer) && exists slot: nat :: slot < s.maxPointers && !SlotIsTaken(s, slot))
            && (!accepted ==> t == s)
            && (accepted ==>
                  && |t.gestures| == g + 1 && t.active == s.active + [g] && s.trace < t.trace
                  && t.trace[|s.trace|].TookDown? && SendsAtMostOne(s.trace + [t.trace[|s.trace|]], t.trace)
                  && var slot := t.trace[|s.trace|].slot;
                     && t.trace[|s.trace|] == TookDown(g, pointer, slot, body)
                     && slot < s.maxPointers && !SlotIsTaken(s, slot) && forall lower: nat :: lower < slot ==> SlotIsTaken(s, lower))
  {
    hide QueueEdge;
    var slot := FreeSlot(s.gestures, s.active, 0, s.maxPointers);
    forall k: nat ensures SlotUsed(s.gestures, s.active, k) <==> SlotIsTaken(s, k) { }
    if !s.cancelling && Find(s.gestures, s.active, pointer).None? && slot.Some? {
      var gesture := Gesture(pointer, slot.value, s.generation, body, None, false, false, None, false, false, None, false, false);
      QueueSends(Opening(s, gesture), |s.gestures|, now);
    }
    PointerIsFound(s, pointer);
  }

  lemma PointerIsFound(s: State, pointer: int)
    requires s.Wf()
    ensures Find(s.gestures, s.active, pointer).Some? <==> PointerIsDown(s, pointer)
  {
    var found := Find(s.gestures, s.active, pointer);
    if found.Some? { var i :| 0 <= i < |s.active| && s.active[i] == found.value; }
  }

  /** The gesture of a pointer that is down. */
  lemma GestureIsFound(s: State, pointer: int, g: nat)
    requires Reached(s) && g in s.active && g < |s.gestures| && s.gestures[g].pointer == pointer
    ensures s.Wf() && Find(s.gestures, s.active, pointer) == Some(g)
    ensures !s.gestures[g].removed && s.gestures[g].generation == s.generation
  {
    EveryReachedStateKeeps(s);
    PointerIsFound(s, pointer);
    assert BasicOk(s, g);
  }

  /** Calls for a pointer that is not down are refused. */
  lemma UnknownPointerIsRefused(s: State, pointer: int, body: Body, now: real)
    requires s.Wf() && !PointerIsDown(s, pointer)
    ensures !PointerMove(s, pointer, body, now).1 && Step(s, EvMove(pointer, body, now)) == s
    ensures !PointerUp(s, pointer, body, now).1 && Step(s, EvUp(pointer, body, now)) == s
  {
    PointerIsFound(s, pointer);
  }

  /** An up is accepted exactly while its gesture is open and no cancel is pending; it is recorded for that gesture, which
      is closing from then on. */
  lemma UpIsExact(s: State, pointer: int, body: Body, now: real, g: nat)
    requires Reached(s) && g in s.active && g < |s.gestures| && s.gestures[g].pointer == pointer
    ensures var t, accepted := Step(s, EvUp(pointer, body, now)), PointerUp(s, pointer, body, now).1;
            && (accepted <==> !s.gestures[g].closing && s.cancelPending.None?)
            && (!accepted ==> t == s)
            && (accepted ==> SendsAtMostOne(s.trace + [TookUp(g, body)], t.trace) && t.active == s.active)
  {
    hide QueueEdge, Find, Reached;
    GestureIsFound(s, pointer, g);
    if !s.gestures[g].closing && s.cancelPending.None? {
      QueueSends(Closing(s, g, body), g, now);
    }
  }

  /** A move is accepted exactly while its gesture is open, and recorded for it. With a send in flight it waits: marked
      ready once the interval has passed since the last move of the gesture, and for its timer until then. */
  lemma MoveIsExact(s: State, pointer: int, body: Body, now: real, g: nat)
    requires Reached(s) && g in s.active && g < |s.gestures| && s.gestures[g].pointer == pointer
    ensures var t, accepted := Step(s, EvMove(pointer, body, now)), PointerMove(s, pointer, body, now).1;
            var last, motion := s.gestures[g].lastMoveAt, Motion(s.motions, body);
            && (accepted <==> !s.gestures[g].closing) && (!accepted ==> t == s)
            && (accepted ==> t.active == s.active && t.motions == s.motions + 1
                             && SendsAtMostOne(s.trace + [Took(g, motion)], t.trace))
            && (accepted && s.inflight.Some? ==>
                  t == s.(motions := s.motions + 1, trace := s.trace + [Took(g, motion)],
                          gestures := s.gestures[g := if last.None? || now - last.value >= s.interval
                                                      then s.gestures[g].(pending := Some(motion), moveReady := true)
                                                      else s.gestures[g].(pending := Some(motion), timer := true)]))
  {
    hide Pump, Find, Reached;
    GestureIsFound(s, pointer, g);
    if !s.gestures[g].closing {
      var s1 := AcceptMove(s, g, body);
      var due := Put(s1, g, s1.gestures[g].(moveReady := true));
      PumpSends(due, now);
      var moved := s.gestures[g].(pending := Some(Motion(s.motions, body)));
      assert s.gestures[g := moved][g := moved.(moveReady := true)] == s.gestures[g := moved.(moveReady := true)];
      assert s.gestures[g := moved][g := moved.(timer := true)] == s.gestures[g := moved.(timer := true)];
    }
  }

  /** With nothing in flight a move that is due is sent at once, and its time noted; one that is not due waits for its timer. */
  lemma IdleMoveIsSent(s: State, pointer: int, body: Body, now: real, g: nat)
    requires Reached(s) && g in s.active && g < |s.gestures| && s.gestures[g].pointer == pointer
    requires s.inflight.None? && forall h :: h in s.active && h != g ==> !s.gestures[h].moveReady
    ensures var t, last, motion := Step(s, EvMove(pointer, body, now)), s.gestures[g].lastMoveAt, Motion(s.motions, body);
            && |t.gestures| == |s.gestures|
            && (if last.None? || now - last.value >= s.interval then
                  && t.inflight == Some(Flight(Move(g, s.gestures[g].slot, motion), s.generation)) && t.gestures[g].lastMoveAt == Some(now)
                  && t.trace == s.trace + [Took(g, motion)] + [Sent(Move(g, s.gestures[g].slot, motion))]
                else
                  && t.inflight.None? && t.gestures[g].pending == Some(motion) && t.gestures[g].timer
                  && t.trace == s.trace + [Took(g, motion)])
  {
    hide Find, Reached, Select;
    GestureIsFound(s, pointer, g);
    IdleIsEmpty(s, g);
    var last := s.gestures[g].lastMoveAt;
    if last.None? || now - last.value >= s.interval {
      var s1 := AcceptMove(s, g, body);
      var due := Put(s1, g, s1.gestures[g].(moveReady := true));
      OnlyReady(due.gestures, due.active, g);
    }
  }

  /** A timer that still stands lets the open gesture's move go, if one is left: with a send in flight it is marked
      ready, and otherwise sent, the only ready move there is. */
  lemma TimerIsExact(s: State, g: nat, now: real)
    requires Reached(s) && g < |s.gestures|
    ensures var t, gesture := Step(s, EvTimer(g, now)), s.gestures[g];
            var waiting := gesture.timer && !gesture.closing && gesture.pending.Some?;
            && (!waiting ==> t == s.(gestures := s.gestures[g := gesture.(timer := false)]))
            && (waiting && s.inflight.Some? ==> t == s.(gestures := s.gestures[g := gesture.(timer := false, moveReady := true)]))
            && (waiting && s.inflight.None? && g in s.active && (forall h :: h in s.active && h != g ==> !s.gestures[h].moveReady) ==>
                  && t.trace == s.trace + [Sent(Move(g, gesture.slot, gesture.pending.value))]
                  && |t.gestures| == |s.gestures| && t.gestures[g].lastMoveAt == Some(now) && !t.gestures[g].timer)
  {
    hide Reached, Select;
    ReachedIsWf(s);
    var gesture := s.gestures[g];
    if !gesture.timer {
      assert s.gestures[g := gesture.(timer := false)] == s.gestures;
    } else if !gesture.closing && gesture.pending.Some? {
      var due := Put(s, g, gesture.(timer := false, moveReady := true));
      PumpSends(due, now);
      if s.inflight.None? && g in s.active && forall h :: h in s.active && h != g ==> !s.gestures[h].moveReady {
        IdleIsEmpty(s, g);
        OnlyReady(due.gestures, due.active, g);
      }
    }
  }

  lemma ReachedIsWf(s: State)
    requires Reached(s)
    ensures s.Wf()
    ensures forall g :: g in s.active ==> g < |s.gestures| && !s.gestures[g].removed
  {
    EveryReachedStateKeeps(s);
    forall g | g in s.active ensures g < |s.gestures| && !s.gestures[g].removed {
      assert BasicOk(s, g);
    }
  }

  lemma IdleIsEmpty(s: State, g: nat)
    requires Reached(s) && s.inflight.None? && g in s.active && g < |s.gestures|
    ensures s.queue == [] && s.cancelPending.None? && !s.gestures[g].closing
  {
    EveryReachedStateKeeps(s);
  }

  /** The one ready gesture is the one selected. */
  lemma OnlyReady(gestures: seq<Gesture>, active: seq<nat>, g: nat)
    requires (forall i :: 0 <= i < |active| ==> active[i] < |gestures|) && g in active
    requires Ready(gestures[g]) && forall h :: h in active && h != g ==> !gestures[h].moveReady
    ensures Select(gestures, active, None) == Some(g)
  {
    var chosen := Select(gestures, active, None);
    assert chosen.Some? ==> chosen.value in active;
  }

  /** A cancel is always accepted: every active gesture is closed without its move, and the caller waits. */
  lemma CancelIsExact(s: State, body: Body, now: real)
    requires Reached(s)
    ensures var t := Step(s, EvCancel(body, now));
            && t.cancelling && t.waiters == s.waiters + 1 && t.active == s.active && |t.gestures| == |s.gestures|
            && SendsAtMostOne(s.trace + [TookCancel(body)], t.trace)
            && forall g :: g in s.active ==> g < |s.gestures| && t.gestures[g].closing && t.gestures[g].pending.None? && !t.gestures[g].timer
  {
    hide Pump;
    EveryReachedStateKeeps(s);
    var swept := Swept(s, body);
    PumpSends(swept, now);
    forall g | g in s.active ensures swept.gestures[g].closing && swept.gestures[g].pending.None? && !swept.gestures[g].timer { }
    SweptIsPumped(swept, now);
  }

  /** With a cancel pending and nothing queued no gesture changes. */
  lemma SweptIsPumped(s: State, now: real)
    requires s.Wf() && s.queue == [] && s.cancelPending.Some?
    ensures Pump(s, now).gestures == s.gestures
  {
  }
}
