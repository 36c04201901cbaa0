/** The pointer scheduler as the object it is: every call, timer and completed send updates its fields, and
    each is proved to do exactly the step that the theorems about runs speak of. */
module PointerScheduling {
  import opened Wrappers
  import opened PointerSteps

  class PointerScheduler {
    const maxPointers: nat
    const interval: real
    var gestures: seq<Gesture>
    var active: seq<nat>
    var edgeQueue: seq<nat>
    var cancelPending: Option<Body>
    var cancelling: bool
    var waiters: nat
    var inflight: Option<Flight>
    var generation: nat
    var motions: nat
    ghost var trace: seq<Act>

    ghost function Abs(): State
      reads this
    {
      State(maxPointers, interval, gestures, active, edgeQueue, cancelPending, cancelling, waiters, inflight, generation, motions, trace)
    }

    ghost predicate Valid()
      reads this
    {
      Abs().Wf()
    }

    constructor (maxPointers: nat, interval: real)
      ensures Valid() && Abs() == Initial(maxPointers, interval)
      ensures this.maxPointers == (if maxPointers <= 5 then maxPointers else 5) && active == [] && inflight.None?
    {
      this.maxPointers := if maxPointers < MAX_POINTERS then maxPointers else MAX_POINTERS;
      this.interval := interval;
      gestures, active, edgeQueue := [], [], [];
      cancelPending, cancelling, waiters := None, false, 0;
      inflight, generation, motions := None, 0, 0;
      trace := [];
    }

    // -------------------------------------------------------------------------------------------
    // Choosing
    // -------------------------------------------------------------------------------------------

    method AvailableSlot() returns (slot: Option<nat>)
      requires Valid()
      ensures slot == FreeSlot(gestures, active, 0, maxPointers)
    {
      var used := set i | 0 <= i < |active| :: gestures[active[i]].slot;
      var next := 0;
      while next < maxPointers
        invariant next <= maxPointers
        invariant FreeSlot(gestures, active, 0, maxPointers) == FreeSlot(gestures, active, next, maxPointers)
      {
        assert next in used <==> SlotUsed(gestures, active, next);
        if next !in used { return Some(next); }
        next := next + 1;
      }
      slot := None;
    }

    method ChooseEdge(now: real) returns (edge: Option<Packet>)
      requires Valid()
      modifies this
      ensures Valid() && (Abs(), edge) == NextEdge(old(Abs()), now)
    {
      while |edgeQueue| > 0
        invariant Valid() && NextEdge(Abs(), now) == NextEdge(old(Abs()), now)
        decreases |edgeQueue|
      {
        ghost var before := Abs();
        var g := edgeQueue[0];
        var gesture := gestures[g];
        if gesture.removed || gesture.generation != generation {
          edgeQueue := edgeQueue[1..];
          gestures := gestures[g := gesture.(edgeQueued := false)];
          assert NextEdge(before, now) == NextEdge(Abs(), now);
          continue;
        }
        if !gesture.downDispatched {
          edgeQueue := edgeQueue[1..];
          gestures := gestures[g := gesture.(edgeQueued := false)];
          gestures := gestures[g := gestures[g].(downDispatched := true)];
          return Some(Down(g, gesture.slot, gesture.down));
        }
        if gesture.up.Some? && gesture.pending.Some? {
          gestures := gestures[g := gesture.(moveReady := false, lastMoveAt := Some(now))];
          return Some(Move(g, gesture.slot, gesture.pending.value));
        }
        edgeQueue := edgeQueue[1..];
        gestures := gestures[g := gesture.(edgeQueued := false)];
        return Some(if gesture.up.Some? then Up(g, gesture.slot, gesture.up.value) else Down(g, gesture.slot, gesture.down));
      }
      edge := None;
    }

    method ChooseMove(now: real) returns (move: Option<Packet>)
      requires Valid()
      modifies this`gestures
      ensures Valid() && (Abs(), move) == NextMove(old(Abs()), now)
    {
      var selected: Option<nat>, i := None, 0;
      while i < |active|
        invariant i <= |active| && (selected.Some? ==> selected.value < |gestures|)
        invariant Select(gestures, active[i..], selected) == Select(gestures, active, None)
      {
        var gesture := gestures[active[i]];
        if gesture.moveReady && gesture.pending.Some? && !gesture.closing && !gesture.removed {
          if selected.None? || Before(gesture.lastMoveAt, gestures[selected.value].lastMoveAt) { selected := Some(active[i]); }
        }
        assert active[i..][1..] == active[i + 1..];
        i := i + 1;
      }
      if selected.None? { return None; }
      var g := selected.value;
      var gesture := gestures[g];
      gestures := gestures[g := gesture.(moveReady := false, lastMoveAt := Some(now))];
      move := Some(Move(g, gesture.slot, gesture.pending.value));
    }

    method StartNext(now: real)
      requires Valid()
      modifies this
      ensures Valid() && Abs() == Pump(old(Abs()), now)
    {
      PumpKeepsWf(Abs(), now);
      if inflight.Some? { return; }
      ghost var before := Abs();
      EdgeKeepsFlight(before, now);
      var next := ChooseEdge(now);
      if next.None? && cancelPending.None? { next := ChooseMove(now); }
      if next.None? && cancelPending.Some? && |edgeQueue| == 0 {
        next := Some(Cancel(cancelPending.value));
        cancelPending := None;
      }
      if next.None? { return; }
      inflight := Some(Flight(next.value, generation));
      trace := trace + [Sent(next.value)];
    }

    method QueueEdge(g: nat, now: real)
      requires Valid() && g < |gestures|
      modifies this
      ensures Valid() && Abs() == PointerSteps.QueueEdge(old(Abs()), g, now)
    {
      var gesture := gestures[g];
      if cancelPending.Some? || gesture.edgeQueued || gesture.removed || gesture.generation != generation { return; }
      gestures := gestures[g := gesture.(edgeQueued := true)];
      edgeQueue := edgeQueue + [g];
      StartNext(now);
    }

    // -------------------------------------------------------------------------------------------
    // Calls
    // -------------------------------------------------------------------------------------------

    method PointerDown(pointer: int, body: Body, now: real) returns (accepted: bool)
      requires Valid()
      modifies this
      ensures Valid() && Abs() == Step(old(Abs()), EvDown(pointer, body, now))
      ensures accepted == PointerSteps.PointerDown(old(Abs()), pointer, body, now).1
    {
      StepKeepsWf(Abs(), EvDown(pointer, body, now));
      if cancelling || Find(gestures, active, pointer).Some? { return false; }
      var slot := AvailableSlot();
      if slot.None? { return false; }
      var g := |gestures|;
      gestures := gestures + [Gesture(pointer, slot.value, generation, body, None, false, false, None, false, false, None, false, false)];
      active := active + [g];
      trace := trace + [TookDown(g, pointer, slot.value, body)];
      QueueEdge(g, now);
      accepted := true;
    }

    method PointerMove(pointer: int, body: Body, now: real) returns (accepted: bool)
      requires Valid()
      modifies this
      ensures Valid() && Abs() == Step(old(Abs()), EvMove(pointer, body, now))
      ensures accepted == PointerSteps.PointerMove(old(Abs()), pointer, body, now).1
    {
      var found := Find(gestures, active, pointer);
      if found.None? { return false; }
      var g := found.value;
      if gestures[g].closing || gestures[g].removed { return false; }
      var motion := Motion(motions, body);
      gestures := gestures[g := gestures[g].(pending := Some(motion))];
      motions := motions + 1;
      trace := trace + [Took(g, motion)];
      if gestures[g].lastMoveAt.None? || now - gestures[g].lastMoveAt.value >= interval {
        gestures := gestures[g := gestures[g].(moveReady := true)];
        StartNext(now);
      } else {
        gestures := gestures[g := gestures[g].(timer := true)];
      }
      accepted := true;
    }

    /** The timer a move has set. */
    method TimerFires(g: nat, now: real)
      requires Valid() && g < |gestures|
      modifies this
      ensures Valid() && Abs() == Step(old(Abs()), EvTimer(g, now))
    {
      if !gestures[g].timer { return; }
      ghost var gesture := gestures[g];
      gestures := gestures[g := gestures[g].(timer := false)];
      if !gestures[g].closing && gestures[g].pending.Some? {
        gestures := gestures[g := gestures[g].(moveReady := true)];
        assert old(gestures)[g := gesture.(timer := false)][g := gesture.(timer := false, moveReady := true)]
            == old(gestures)[g := gesture.(timer := false, moveReady := true)];
        StartNext(now);
      }
    }

    method PointerUp(pointer: int, body: Body, now: real) returns (accepted: bool)
      requires Valid()
      modifies this
      ensures Valid() && Abs() == Step(old(Abs()), EvUp(pointer, body, now))
      ensures accepted == PointerSteps.PointerUp(old(Abs()), pointer, body, now).1
    {
      var found := Find(gestures, active, pointer);
      if found.None? { return false; }
      var g := found.value;
      var gesture := gestures[g];
      if gesture.closing || gesture.removed || cancelPending.Some? { return false; }
      gestures := gestures[g := gesture.(closing := true, up := Some(body), timer := false, moveReady := gesture.pending.Some?)];
      trace := trace + [TookUp(g, body)];
      QueueEdge(g, now);
      accepted := true;
    }

    method CloseActive()
      requires Valid()
      modifies this`gestures
      ensures Valid() && gestures == Sweep(old(gestures), active)
    {
      var i := 0;
      while i < |active|
        invariant i <= |active| && gestures == Sweep(old(gestures), active[..i])
      {
        var g := active[i];
        SweepNext(old(gestures), active, i);
        gestures := gestures[g := gestures[g].(closing := true, pending := None, moveReady := false, timer := false)];
        i := i + 1;
      }
      assert active[..i] == active;
    }

    method CancelAll(body: Body, now: real)
      requires Valid()
      modifies this
      ensures Valid() && Abs() == Step(old(Abs()), EvCancel(body, now))
    {
      hide Pump, Swept;
      RequestCancel(body);
      StartNext(now);
    }

    /** Everything is closed, and the queue gives way to the cancel. */
    method RequestCancel(body: Body)
      requires Valid()
      modifies this
      ensures Valid() && Abs() == Swept(old(Abs()), body)
    {
      hide Sweep;
      cancelling := true;
      trace := trace + [TookCancel(body)];
      CloseActive();
      if cancelPending.None? {
        cancelPending := Some(body);
        edgeQueue := [];
      }
      waiters := waiters + 1;
    }

    /** The send in flight has finished, with or without an error. */
    method SendCompleted(now: real)
      requires Valid()
      modifies this
      ensures Valid() && Abs() == Step(old(Abs()), EvDone(now))
    {
      if inflight.None? { return; }
      var flight := inflight.value;
      inflight := None;
      trace := trace + [Done(flight.packet)];
      if flight.generation != generation { return; }
      ghost var before := Abs();
      SettleKeepsWf(before, flight.packet, now);
      SettleSend(flight.packet, now);
      StartNext(now);
    }

    /** What a finished send changes before the next one is chosen. */
    method SettleSend(packet: Packet, now: real)
      requires Valid() && (!packet.Cancel? ==> packet.gesture < |gestures|)
      modifies this
      ensures Valid() && Abs() == Settle(old(Abs()), packet, now)
    {
      match packet {
        case Down(g, _, _) => if gestures[g].up.Some? { QueueEdge(g, now); }
        case Up(g, _, _) => RemoveGesture(g);
        case Move(g, _, motion) => if gestures[g].pending == Some(motion) { gestures := gestures[g := gestures[g].(pending := None)]; }
        case Cancel(_) =>
          cancelling := false;
          RemoveActive();
          waiters := 0;
      }
    }

    method RemoveGesture(g: nat)
      requires Valid() && g < |gestures|
      modifies this`gestures, this`active
      ensures Valid() && Abs() == Remove(old(Abs()), g)
    {
      gestures := gestures[g := gestures[g].(removed := true, timer := false)];
      active := Without(active, g);
      assert forall i :: 0 <= i < |active| ==> active[i] in Without(old(active), g);
    }

    method RemoveActive()
      requires Valid()
      modifies this`gestures, this`active
      ensures Valid() && Abs() == old(Abs()).(gestures := RemoveAll(old(gestures), old(active)), active := [])
    {
      var order, i := active, 0;
      while i < |order|
        invariant i <= |order| && Valid()
        invariant gestures == RemoveAll(old(gestures), order[..i])
        invariant forall x :: x in active ==> x in order[i..]
      {
        RemoveNext(old(gestures), order, i);
        WithoutNext(active, order, i);
        RemoveGesture(order[i]);
        i := i + 1;
      }
      assert order[..i] == order && order[i..] == [];
      NoneLeft(active, order[i..]);
    }

    method DiscardActive()
      requires Valid()
      modifies this`gestures
      ensures Valid() && gestures == RemoveAll(old(gestures), active)
    {
      var i := 0;
      while i < |active|
        invariant i <= |active| && gestures == RemoveAll(old(gestures), active[..i])
      {
        var g := active[i];
        RemoveNext(old(gestures), active, i);
        gestures := gestures[g := gestures[g].(removed := true, timer := false)];
        i := i + 1;
      }
      assert active[..i] == active;
    }

    method Clear()
      requires Valid()
      modifies this
      ensures Valid()
      ensures Abs() == PointerSteps.Clear(old(Abs()))
    {
      hide RemoveAll;
      DiscardActive();
      generation := generation + 1;
      active, edgeQueue := [], [];
      cancelPending, cancelling, waiters := None, false, 0;
    }
  }

  /** One more gesture of the order is closed. */
  lemma SweepNext(gestures: seq<Gesture>, order: seq<nat>, i: nat)
    requires i < |order| && order[i] < |gestures|
    ensures var before := Sweep(gestures, order[..i]);
            Sweep(gestures, order[..i + 1]) == before[order[i] := before[order[i]].(closing := true, pending := None, moveReady := false, timer := false)]
  {
    assert order[..i + 1] == order[..i] + [order[i]];
  }

  /** One more gesture of the order is removed. */
  lemma RemoveNext(gestures: seq<Gesture>, order: seq<nat>, i: nat)
    requires i < |order| && order[i] < |gestures|
    ensures var before := RemoveAll(gestures, order[..i]);
            RemoveAll(gestures, order[..i + 1]) == before[order[i] := before[order[i]].(removed := true, timer := false)]
  {
    assert order[..i + 1] == order[..i] + [order[i]];
  }

  /** Without the gesture at its head, what is left is in the rest of the order. */
  lemma WithoutNext(active: seq<nat>, order: seq<nat>, i: nat)
    requires i < |order| && forall x :: x in active ==> x in order[i..]
    ensures forall x :: x in Without(active, order[i]) ==> x in order[i + 1..]
  {
    assert order[i..] == [order[i]] + order[i + 1..];
  }

  lemma NoneLeft(left: seq<nat>, order: seq<nat>)
    requires order == [] && forall x :: x in left ==> x in order
    ensures left == []
  {
    if left != [] {
      Nonempty(left);
      assert false;
    }
  }

  lemma Nonempty(left: seq<nat>)
    requires left != []
    ensures exists x :: x in left
  {
    assert left[0] in left;
  }

  lemma EdgeKeepsFlight(s: State, now: real)
    requires s.Wf()
    ensures NextEdge(s, now).0.inflight == s.inflight && NextEdge(s, now).0.cancelPending == s.cancelPending
    ensures NextEdge(s, now).0.Wf()
    decreases |s.queue|
  {
  }
}
