/** What the packets carry: the bodies of the calls they were accepted from. */
module PointerPackets {
  import opened Wrappers
  import opened PointerSteps
  import opened PointerInvariant
  import opened PointerTheorems

  /** The cancel that waits to be sent: the first called since the last one was sent. */
  function PendingCancel(trace: seq<Act>): Option<Body> {
    if trace == [] then None
    else
      var before, act := PendingCancel(trace[..|trace| - 1]), trace[|trace| - 1];
      if act.TookCancel? && before.None? then Some(act.body)
      else if act.Sent? && act.packet.Cancel? then None
      else before
  }

  /** A packet has a body that a call before it brought. */
  ghost predicate Carried(before: seq<Act>, p: Packet) {
    match p
    case Down(g, slot, body) => exists pointer :: TookDown(g, pointer, slot, body) in before
    case Up(g, _, body) => TookUp(g, body) in before
    case Cancel(body) => PendingCancel(before) == Some(body)
    case Move(_, _, _) => true
  }

  ghost predicate AllCarried(trace: seq<Act>) {
    forall k :: 0 <= k < |trace| && trace[k].Sent? ==> Carried(trace[..k], trace[k].packet)
  }

  lemma CarriedNext(trace: seq<Act>, act: Act)
    requires AllCarried(trace) && (act.Sent? ==> Carried(trace, act.packet))
    ensures AllCarried(trace + [act])
    ensures PendingCancel(trace + [act]) == if act.TookCancel? && PendingCancel(trace).None? then Some(act.body)
                                             else if act.Sent? && act.packet.Cancel? then None else PendingCancel(trace)
  {
    var t := trace + [act];
    assert t[..|trace|] == trace;
    forall k | 0 <= k < |t| && t[k].Sent? ensures Carried(t[..k], t[k].packet) {
      if k < |trace| { assert t[..k] == trace[..k]; }
    }
  }

  /** The gestures are those of the accepted calls. */
  ghost predicate Known(s: State) {
    && s.Wf() && AllCarried(s.trace) && s.cancelPending == PendingCancel(s.trace)
    && (forall g :: 0 <= g < |s.gestures| ==> GestureKnown(s, g))
    && (forall k :: 0 <= k < |s.trace| ==> CallKnown(s, s.trace[k]))
  }

  predicate GestureKnown(s: State, g: nat)
    requires g < |s.gestures|
  {
    && TookDown(g, s.gestures[g].pointer, s.gestures[g].slot, s.gestures[g].down) in s.trace
    && (s.gestures[g].up.Some? ==> s.gestures[g].closing && TookUp(g, s.gestures[g].up.value) in s.trace)
  }

  predicate CallKnown(s: State, act: Act) {
    match act
    case TookDown(g, pointer, slot, body) => g < |s.gestures| && s.gestures[g].pointer == pointer && s.gestures[g].slot == slot && s.gestures[g].down == body
    case TookUp(g, body) => g < |s.gestures| && s.gestures[g].up == Some(body)
    case _ => true
  }

  /** Nothing that a call brought is changed. */
  predicate SameFingers(s: State, t: State) {
    && |t.gestures| == |s.gestures|
    && forall g :: 0 <= g < |s.gestures| ==>
         && t.gestures[g].pointer == s.gestures[g].pointer && t.gestures[g].slot == s.gestures[g].slot && t.gestures[g].down == s.gestures[g].down
         && t.gestures[g].up == s.gestures[g].up && (s.gestures[g].closing ==> t.gestures[g].closing)
  }

  lemma KnownStays(s: State, t: State)
    requires Known(s) && t.Wf() && SameFingers(s, t) && t.trace == s.trace && t.cancelPending == s.cancelPending
    ensures Known(t)
  {
    forall g | 0 <= g < |t.gestures| ensures GestureKnown(t, g) { assert GestureKnown(s, g); }
    forall k | 0 <= k < |t.trace| ensures CallKnown(t, t.trace[k]) { assert CallKnown(s, s.trace[k]); }
  }

  /** A send, or its end, brings no call. */
  lemma KnownGrows(s: State, t: State, act: Act)
    requires Known(s) && t.Wf() && SameFingers(s, t) && t.trace == s.trace + [act]
    requires (act.Sent? && Carried(s.trace, act.packet)) || act.Done? || act.Took? || act.TookCancel?
    requires t.cancelPending == if act.TookCancel? && s.cancelPending.None? then Some(act.body)
                                else if act.Sent? && act.packet.Cancel? then None else s.cancelPending
    ensures Known(t)
  {
    CarriedNext(s.trace, act);
    forall g | 0 <= g < |t.gestures| ensures GestureKnown(t, g) { assert GestureKnown(s, g); }
    forall k | 0 <= k < |t.trace| ensures CallKnown(t, t.trace[k]) { if k < |s.trace| { assert CallKnown(s, s.trace[k]); } }
  }

  predicate FromGesture(s: State, p: Packet) {
    match p
    case Down(g, slot, body) => g < |s.gestures| && slot == s.gestures[g].slot && body == s.gestures[g].down
    case Up(g, _, body) => g < |s.gestures| && s.gestures[g].up == Some(body)
    case Cancel(_) => false
    case Move(_, _, _) => true
  }

  lemma FromGestureIsCarried(s: State, p: Packet)
    requires Known(s) && FromGesture(s, p)
    ensures Carried(s.trace, p)
  {
    if p.Down? || p.Up? { assert GestureKnown(s, p.gesture); }
  }

  lemma {:induction false} EdgeFromGesture(s: State, now: real)
    requires s.Wf()
    ensures var (t, p) := NextEdge(s, now);
            && SameFingers(s, t) && t.trace == s.trace && t.cancelPending == s.cancelPending
            && (p.Some? ==> FromGesture(s, p.value))
    decreases |s.queue|
  {
    if s.queue != [] && Stale(s, s.queue[0]) {
      var g := s.queue[0];
      EdgeFromGesture(Put(s, g, s.gestures[g].(edgeQueued := false)).(queue := s.queue[1..]), now);
    }
  }

  lemma PumpKnown(s: State, now: real)
    requires Known(s)
    ensures Known(Pump(s, now))
  {
    hide AllCarried, PendingCancel, NextEdge, Known;
    if s.inflight.None? {
      KnownIsWf(s);
      EdgeFromGesture(s, now);
      NextEdgeKeepsWf(s, now);
      NextEdgePacket(s, now);
      PumpKeepsWf(s, now);
      var (s1, edge) := NextEdge(s, now);
      KnownStays(s, s1);
      if edge.Some? {
        FromGestureIsCarried(s, edge.value);
        KnownGrows(s1, Launch(s1, edge.value), Sent(edge.value));
      } else if s1.cancelPending.Some? {
        CancelIsCarried(s1);
        KnownGrows(s1, Launch(s1.(cancelPending := None), Cancel(s1.cancelPending.value)), Sent(Cancel(s1.cancelPending.value)));
      } else {
        var (s2, move) := NextMove(s1, now);
        KnownStays(s1, s2);
        if move.Some? { KnownGrows(s2, Launch(s2, move.value), Sent(move.value)); }
      }
    }
  }

  lemma KnownIsWf(s: State)
    requires Known(s)
    ensures s.Wf()
  {
  }

  lemma CancelIsCarried(s: State)
    requires Known(s) && s.cancelPending.Some?
    ensures Carried(s.trace, Cancel(s.cancelPending.value))
  {
  }

  lemma QueueKnown(s: State, g: nat, now: real)
    requires Known(s) && g < |s.gestures|
    ensures Known(QueueEdge(s, g, now))
  {
    hide Pump;
    if !(s.cancelPending.Some? || s.gestures[g].edgeQueued || Stale(s, g)) {
      var t := Put(s, g, s.gestures[g].(edgeQueued := true)).(queue := s.queue + [g]);
      KnownStays(s, t);
      PumpKnown(t, now);
    }
  }

  lemma OpeningKnown(s: State, gesture: Gesture)
    requires Known(s) && gesture.up.None?
    ensures Known(Opening(s, gesture))
  {
    var t, act := Opening(s, gesture), TookDown(|s.gestures|, gesture.pointer, gesture.slot, gesture.down);
    CarriedNext(s.trace, act);
    assert t.trace[|s.trace|] == act;
    forall g | 0 <= g < |t.gestures| ensures GestureKnown(t, g) { if g < |s.gestures| { assert GestureKnown(s, g); } }
    forall k | 0 <= k < |t.trace| ensures CallKnown(t, t.trace[k]) { if k < |s.trace| { assert CallKnown(s, s.trace[k]); } }
  }

  lemma ClosingKnown(s: State, g: nat, body: Body)
    requires Known(s) && g < |s.gestures| && !s.gestures[g].closing
    ensures Known(Closing(s, g, body)) && |Closing(s, g, body).gestures| == |s.gestures|
  {
    var t, act := Closing(s, g, body), TookUp(g, body);
    assert GestureKnown(s, g);
    CarriedNext(s.trace, act);
    assert t.trace[|s.trace|] == act;
    forall x | 0 <= x < |t.gestures| ensures GestureKnown(t, x) { assert GestureKnown(s, x); }
    forall k | 0 <= k < |t.trace| ensures CallKnown(t, t.trace[k]) { if k < |s.trace| { assert CallKnown(s, s.trace[k]); } }
  }

  lemma SettleKnown(s: State, packet: Packet, now: real)
    requires Known(s) && (!packet.Cancel? ==> packet.gesture < |s.gestures|)
    ensures Known(Settle(s, packet, now))
  {
    hide QueueEdge;
    SettleKeepsWf(s, packet, now);
    if packet.Down? { if s.gestures[packet.gesture].up.Some? { QueueKnown(s, packet.gesture, now); } }
    else { KnownStays(s, Settle(s, packet, now)); }
  }

  lemma DownKnown(s: State, pointer: int, body: Body, now: real)
    requires Known(s)
    ensures Known(PointerDown(s, pointer, body, now).0)
  {
    hide QueueEdge, Known;
    KnownIsWf(s);
    var slot := FreeSlot(s.gestures, s.active, 0, s.maxPointers);
    if slot.Some? {
      var gesture := Gesture(pointer, slot.value, s.generation, body, None, false, false, None, false, false, None, false, false);
      OpeningKnown(s, gesture);
      QueueKnown(Opening(s, gesture), |s.gestures|, now);
    }
  }

  lemma UpKnown(s: State, pointer: int, body: Body, now: real)
    requires Known(s)
    ensures Known(PointerUp(s, pointer, body, now).0)
  {
    hide QueueEdge, Known, Closing;
    KnownIsWf(s);
    var found := Find(s.gestures, s.active, pointer);
    if found.Some? && !s.gestures[found.value].closing {
      ClosingKnown(s, found.value, body);
      QueueKnown(Closing(s, found.value, body), found.value, now);
    }
  }

  lemma CancelKnown(s: State, body: Body, now: real)
    requires Known(s)
    ensures Known(CancelAll(s, body, now))
  {
    hide Pump, Known;
    KnownIsWf(s);
    KnownGrows(s, Swept(s, body), TookCancel(body));
    PumpKnown(Swept(s, body), now);
  }

  lemma TimerKnown(s: State, g: nat, now: real)
    requires Known(s) && g < |s.gestures|
    ensures Known(TimerFires(s, g, now))
  {
    hide Pump, Known;
    KnownIsWf(s);
    var due := Put(s, g, s.gestures[g].(timer := false, moveReady := true));
    KnownStays(s, due);
    KnownStays(s, Put(s, g, s.gestures[g].(timer := false)));
    PumpKnown(due, now);
  }

  lemma DoneKnown(s: State, now: real)
    requires Known(s)
    ensures Known(Completed(s, now))
  {
    hide Pump, Settle, Known;
    KnownIsWf(s);
    if s.inflight.Some? {
      var packet := s.inflight.value.packet;
      var t := s.(inflight := None, trace := s.trace + [Done(packet)]);
      KnownGrows(s, t, Done(packet));
      SettleKnown(t, packet, now);
      SettleKeepsWf(t, packet, now);
      PumpKnown(Settle(t, packet, now), now);
    }
  }

  lemma StepKnown(s: State, e: Event)
    requires Known(s) && !e.EvClear?
    ensures Known(Step(s, e))
  {
    hide PointerDown, PointerMove, PointerUp, CancelAll, TimerFires, Completed, Known;
    KnownIsWf(s);
    match e
    case EvDown(pointer, body, now) => DownKnown(s, pointer, body, now);
    case EvMove(pointer, body, now) => MoveKnown(s, pointer, body, now);
    case EvUp(pointer, body, now) => UpKnown(s, pointer, body, now);
    case EvCancel(body, now) => CancelKnown(s, body, now);
    case EvTimer(g, now) => if g < |s.gestures| { TimerKnown(s, g, now); }
    case EvDone(now) => DoneKnown(s, now);
  }

  lemma MoveKnown(s: State, pointer: int, body: Body, now: real)
    requires Known(s)
    ensures Known(PointerMove(s, pointer, body, now).0)
  {
    hide Pump, Known, AcceptMove;
    KnownIsWf(s);
    var found := Find(s.gestures, s.active, pointer);
    if found.Some? { MovedKnown(s, found.value, body, now); }
  }

  lemma MovedKnown(s: State, g: nat, body: Body, now: real)
    requires Known(s) && g < |s.gestures|
    ensures var t := AcceptMove(s, g, body);
            && g < |t.gestures| && Known(Put(t, g, t.gestures[g].(timer := true)))
            && Known(Pump(Put(t, g, t.gestures[g].(moveReady := true)), now))
  {
    hide Pump;
    var t := AcceptMove(s, g, body);
    KnownGrows(s, t, Took(g, Motion(s.motions, body)));
    KnownStays(t, Put(t, g, t.gestures[g].(timer := true)));
    KnownStays(t, Put(t, g, t.gestures[g].(moveReady := true)));
    PumpKnown(Put(t, g, t.gestures[g].(moveReady := true)), now);
  }

  lemma {:induction false} RunKnown(s: State, events: seq<Event>)
    requires Known(s) && NoClear(events)
    ensures Known(Run(s, events))
    decreases |events|
  {
    if events != [] {
      StepKnown(s, events[0]);
      RunKnown(Step(s, events[0]), events[1..]);
    }
  }

  lemma ReachedIsKnown(s: State)
    requires Reached(s)
    ensures Known(s)
  {
    var maxPointers: nat, interval: real, events :| NoClear(events) && s == Run(Initial(maxPointers, interval), events);
    RunKnown(Initial(maxPointers, interval), events);
  }

  predicate IsCancel(act: Act) {
    act.Sent? && act.packet.Cancel?
  }

  /** Where the pending cancel was called. */
  lemma {:induction false} PendingIsFirst(trace: seq<Act>) returns (j: nat)
    requires PendingCancel(trace).Some?
    ensures j < |trace| && trace[j] == TookCancel(PendingCancel(trace).value)
    ensures forall i :: j < i < |trace| ==> !IsCancel(trace[i])
    ensures forall i :: 0 <= i < j && trace[i].TookCancel? ==> exists m :: i < m < j && IsCancel(trace[m])
    decreases |trace|
  {
    var before := trace[..|trace| - 1];
    if PendingCancel(before).Some? {
      j := PendingIsFirst(before);
      assert forall i :: 0 <= i < |before| ==> before[i] == trace[i];
      forall i | 0 <= i < j && trace[i].TookCancel? ensures exists m :: i < m < j && IsCancel(trace[m]) {
        assert before[i].TookCancel?;
        var m :| i < m < j && IsCancel(before[m]);
        assert IsCancel(trace[m]);
      }
    } else {
      j := |trace| - 1;
      forall i | 0 <= i < j && trace[i].TookCancel? ensures exists m :: i < m < j && IsCancel(trace[m]) {
        var m := NoneIsPending(before, i);
        assert IsCancel(trace[m]);
      }
    }
  }

  /** When none is pending, every cancel called was followed by one sent. */
  lemma {:induction false} NoneIsPending(trace: seq<Act>, i: nat) returns (m: nat)
    requires PendingCancel(trace).None? && i < |trace| && trace[i].TookCancel?
    ensures i < m < |trace| && IsCancel(trace[m])
    decreases |trace|
  {
    var before, act := trace[..|trace| - 1], trace[|trace| - 1];
    if IsCancel(act) {
      m := |trace| - 1;
    } else {
      m := NoneIsPending(before, i);
    }
  }

  /** Every packet that is sent carries what its call brought: a down the body and slot of the accepted down of its
      gesture, an up the body of the accepted up of that gesture, and a cancel the body of the first cancel called since
      the cancel before it was sent. */
  lemma PacketsCarryTheirCalls(s: State, k: nat) returns (j: nat)
    requires Reached(s) && k < |s.trace| && s.trace[k].Sent? && !s.trace[k].packet.Move?
    ensures j < k
    ensures match s.trace[k].packet
            case Down(g, slot, body) =>
              && s.trace[j].TookDown? && s.trace[j].gesture == g && s.trace[j].slot == slot && s.trace[j].body == body
              && forall i :: 0 <= i < |s.trace| && s.trace[i].TookDown? && s.trace[i].gesture == g ==> s.trace[i] == s.trace[j]
            case Up(g, _, body) =>
              && s.trace[j] == TookUp(g, body)
              && forall i :: 0 <= i < |s.trace| && s.trace[i].TookUp? && s.trace[i].gesture == g ==> s.trace[i] == s.trace[j]
            case Cancel(body) =>
              && s.trace[j] == TookCancel(body) && (forall i :: j < i < k ==> !IsCancel(s.trace[i]))
              && forall i :: 0 <= i < j && s.trace[i].TookCancel? ==> exists m :: i < m < j && IsCancel(s.trace[m])
            case Move(_, _, _) => true
  {
    ReachedIsKnown(s);
    var before, packet := s.trace[..k], s.trace[k].packet;
    assert Carried(before, packet);
    match packet
    case Down(g, slot, body) =>
      var pointer :| TookDown(g, pointer, slot, body) in before;
      j :| 0 <= j < k && before[j] == TookDown(g, pointer, slot, body);
      assert CallKnown(s, s.trace[j]);
      forall i | 0 <= i < |s.trace| && s.trace[i].TookDown? && s.trace[i].gesture == g ensures s.trace[i] == s.trace[j] { assert CallKnown(s, s.trace[i]); }
    case Up(g, _, body) =>
      j :| 0 <= j < k && before[j] == TookUp(g, body);
      assert CallKnown(s, s.trace[j]);
      forall i | 0 <= i < |s.trace| && s.trace[i].TookUp? && s.trace[i].gesture == g ensures s.trace[i] == s.trace[j] { assert CallKnown(s, s.trace[i]); }
    case Cancel(body) =>
      j := PendingIsFirst(before);
      assert forall i :: 0 <= i < k ==> before[i] == s.trace[i];
  }
}
