/** The pointer transport: the state of the scheduler and what each call, timer and completed send does to it.

    A gesture object is the number of its creation, and the object identity of a move packet is the number
    of its acceptance.  The trace records every accepted call and the start and end of every send. */
module PointerSteps {
  import opened Wrappers

  const MAX_POINTERS: nat := 5

  type Body = int

  /** A pending or sent move packet. */
  datatype Motion = Motion(id: nat, body: Body)

  datatype Packet =
    | Down(gesture: nat, slot: nat, body: Body)
    | Move(gesture: nat, slot: nat, motion: Motion)
    | Up(gesture: nat, slot: nat, body: Body)
    | Cancel(body: Body)

  datatype Gesture = Gesture(
    pointer: int, slot: nat, generation: nat, down: Body, up: Option<Body>,
    edgeQueued: bool, downDispatched: bool, pending: Option<Motion>, moveReady: bool, timer: bool,
    lastMoveAt: Option<real>, closing: bool, removed: bool)

  datatype Flight = Flight(packet: Packet, generation: nat)

  datatype Act =
    | TookDown(gesture: nat, pointer: int, slot: nat, body: Body)
    | Took(gesture: nat, motion: Motion)
    | TookUp(gesture: nat, body: Body)
    | TookCancel(body: Body)
    | Sent(packet: Packet)
    | Done(packet: Packet)

  datatype State = State(
    maxPointers: nat, interval: real, gestures: seq<Gesture>, active: seq<nat>, queue: seq<nat>,
    cancelPending: Option<Body>, cancelling: bool, waiters: nat, inflight: Option<Flight>,
    generation: nat, motions: nat, trace: seq<Act>)
  {
    ghost predicate Wf() {
      && (forall i :: 0 <= i < |active| ==> active[i] < |gestures|)
      && (forall i :: 0 <= i < |queue| ==> queue[i] < |gestures|)
      && (inflight.Some? && !inflight.value.packet.Cancel? ==> inflight.value.packet.gesture < |gestures|)
    }
  }

  datatype Event =
    | EvDown(pointer: int, body: Body, now: real)
    | EvMove(pointer: int, body: Body, now: real)
    | EvUp(pointer: int, body: Body, now: real)
    | EvCancel(body: Body, now: real)
    | EvTimer(gesture: nat, now: real)
    | EvDone(now: real)
    | EvClear

  function Initial(maxPointers: nat, interval: real): State {
    State(if maxPointers < MAX_POINTERS then maxPointers else MAX_POINTERS, interval,
          [], [], [], None, false, 0, None, 0, 0, [])
  }

  // ---------------------------------------------------------------------------------------------
  // Lookups
  // ---------------------------------------------------------------------------------------------

  /** `active.get`: the gesture of a browser pointer. */
  function Find(gestures: seq<Gesture>, active: seq<nat>, pointer: int): (r: Option<nat>)
    requires forall i :: 0 <= i < |active| ==> active[i] < |gestures|
    ensures r.Some? ==> r.value in active && gestures[r.value].pointer == pointer
    ensures r.None? ==> forall i :: 0 <= i < |active| ==> gestures[active[i]].pointer != pointer
  {
    if active == [] then None
    else if gestures[active[0]].pointer == pointer then Some(active[0])
    else Find(gestures, active[1..], pointer)
  }

  predicate SlotUsed(gestures: seq<Gesture>, active: seq<nat>, slot: nat)
    requires forall i :: 0 <= i < |active| ==> active[i] < |gestures|
  {
    exists i :: 0 <= i < |active| && gestures[active[i]].slot == slot
  }

  /** The least slot from `slot` on that no active gesture uses. */
  function FreeSlot(gestures: seq<Gesture>, active: seq<nat>, slot: nat, limit: nat): (r: Option<nat>)
    requires forall i :: 0 <= i < |active| ==> active[i] < |gestures|
    ensures r.Some? ==> slot <= r.value < limit && !SlotUsed(gestures, active, r.value)
                        && forall k :: slot <= k < r.value ==> SlotUsed(gestures, active, k)
    ensures r.None? ==> forall k :: slot <= k < limit ==> SlotUsed(gestures, active, k)
    decreases limit - slot
  {
    if slot >= limit then None
    else if !SlotUsed(gestures, active, slot) then Some(slot)
    else FreeSlot(gestures, active, slot + 1, limit)
  }

  function Without(active: seq<nat>, g: nat): (r: seq<nat>)
    ensures forall x :: x in r <==> x in active && x != g
  {
    if active == [] then []
    else if active[0] == g then Without(active[1..], g)
    else [active[0]] + Without(active[1..], g)
  }

  function Put(s: State, g: nat, gesture: Gesture): State
    requires g < |s.gestures|
  {
    s.(gestures := s.gestures[g := gesture])
  }

  // ---------------------------------------------------------------------------------------------
  // Choosing and launching a packet
  // ---------------------------------------------------------------------------------------------

  function Launch(s: State, packet: Packet): State {
    s.(inflight := Some(Flight(packet, s.generation)), trace := s.trace + [Sent(packet)])
  }

  predicate Stale(s: State, g: nat)
    requires g < |s.gestures|
  {
    s.gestures[g].removed || s.gestures[g].generation != s.generation
  }

  /** `_nextEdge`: the head of the queue that is not stale, and what it sends. */
  function NextEdge(s: State, now: real): (r: (State, Option<Packet>))
    requires s.Wf()
    ensures r.1.None? ==> r.0.queue == []
    decreases |s.queue|
  {
    if s.queue == [] then (s, None)
    else
      var g := s.queue[0];
      var gesture := s.gestures[g];
      var shifted := Put(s, g, gesture.(edgeQueued := false)).(queue := s.queue[1..]);
      if Stale(s, g) then NextEdge(shifted, now)
      else if !gesture.downDispatched then
        (Put(shifted, g, gesture.(edgeQueued := false, downDispatched := true)), Some(Down(g, gesture.slot, gesture.down)))
      else if gesture.up.Some? && gesture.pending.Some? then
        (Put(s, g, gesture.(moveReady := false, lastMoveAt := Some(now))), Some(Move(g, gesture.slot, gesture.pending.value)))
      else
        (shifted, Some(if gesture.up.Some? then Up(g, gesture.slot, gesture.up.value) else Down(g, gesture.slot, gesture.down)))
  }

  predicate Ready(gesture: Gesture) {
    gesture.moveReady && gesture.pending.Some? && !gesture.closing && !gesture.removed
  }

  /** Earlier in time; a gesture that never sent a move comes first. */
  predicate Before(a: Option<real>, b: Option<real>) {
    b.Some? && (a.None? || a.value < b.value)
  }

  /** The scan of `_nextMove`: the first of the longest waiting ready gestures, starting from one already selected. */
  function Select(gestures: seq<Gesture>, active: seq<nat>, selected: Option<nat>): (r: Option<nat>)
    requires forall i :: 0 <= i < |active| ==> active[i] < |gestures|
    requires selected.Some? ==> selected.value < |gestures|
    ensures r.Some? ==> r.value < |gestures| && (r == selected || (r.value in active && Ready(gestures[r.value])))
    ensures r.None? ==> selected.None? && forall g :: g in active ==> !Ready(gestures[g])
  {
    if active == [] then selected
    else
      var g := active[0];
      var better := Ready(gestures[g]) && (selected.None? || Before(gestures[g].lastMoveAt, gestures[selected.value].lastMoveAt));
      Select(gestures, active[1..], if better then Some(g) else selected)
  }

  function NextMove(s: State, now: real): (State, Option<Packet>)
    requires s.Wf()
  {
    match Select(s.gestures, s.active, None)
    case None => (s, None)
    case Some(g) =>
      var gesture := s.gestures[g];
      (Put(s, g, gesture.(moveReady := false, lastMoveAt := Some(now))), Some(Move(g, gesture.slot, gesture.pending.value)))
  }

  /** `_pump`: start the next send unless one is in flight. */
  function Pump(s: State, now: real): State
    requires s.Wf()
  {
    if s.inflight.Some? then s
    else
      var (s1, edge) := NextEdge(s, now);
      if edge.Some? then Launch(s1, edge.value)
      else if s1.cancelPending.Some? then Launch(s1.(cancelPending := None), Cancel(s1.cancelPending.value))
      else
        NextEdgeKeepsWf(s, now);
        var (s2, move) := NextMove(s1, now);
        if move.Some? then Launch(s2, move.value) else s2
  }

  lemma NextEdgeKeepsWf(s: State, now: real)
    requires s.Wf()
    ensures NextEdge(s, now).0.Wf() && |NextEdge(s, now).0.gestures| == |s.gestures| && NextEdge(s, now).0.active == s.active
    decreases |s.queue|
  {
  }

  function QueueEdge(s: State, g: nat, now: real): State
    requires s.Wf() && g < |s.gestures|
  {
    if s.cancelPending.Some? || s.gestures[g].edgeQueued || Stale(s, g) then s
    else Pump(Put(s, g, s.gestures[g].(edgeQueued := true)).(queue := s.queue + [g]), now)
  }

  // ---------------------------------------------------------------------------------------------
  // Calls, timers and completions
  // ---------------------------------------------------------------------------------------------

  /** A new gesture becomes active. */
  function Opening(s: State, gesture: Gesture): State {
    s.(gestures := s.gestures + [gesture], active := s.active + [|s.gestures|],
       trace := s.trace + [TookDown(|s.gestures|, gesture.pointer, gesture.slot, gesture.down)])
  }

  function PointerDown(s: State, pointer: int, body: Body, now: real): (State, bool)
    requires s.Wf()
  {
    if s.cancelling || Find(s.gestures, s.active, pointer).Some? then (s, false)
    else
      match FreeSlot(s.gestures, s.active, 0, s.maxPointers)
      case None => (s, false)
      case Some(slot) =>
        var g := |s.gestures|;
        var gesture := Gesture(pointer, slot, s.generation, body, None, false, false, None, false, false, None, false, false);
        (QueueEdge(Opening(s, gesture), g, now), true)
  }

  /** The packet replaces any pending one; it is sent when the interval has passed, now or by the timer. */
  function AcceptMove(s: State, g: nat, body: Body): State
    requires g < |s.gestures|
  {
    var motion := Motion(s.motions, body);
    Put(s, g, s.gestures[g].(pending := Some(motion))).(motions := s.motions + 1, trace := s.trace + [Took(g, motion)])
  }

  predicate Due(gesture: Gesture, interval: real, now: real) {
    gesture.lastMoveAt.None? || now - gesture.lastMoveAt.value >= interval
  }

  function PointerMove(s: State, pointer: int, body: Body, now: real): (State, bool)
    requires s.Wf()
  {
    match Find(s.gestures, s.active, pointer)
    case None => (s, false)
    case Some(g) =>
      if s.gestures[g].closing || s.gestures[g].removed then (s, false)
      else
        var s1 := AcceptMove(s, g, body);
        if Due(s.gestures[g], s.interval, now) then (Pump(Put(s1, g, s1.gestures[g].(moveReady := true)), now), true)
        else (Put(s1, g, s1.gestures[g].(timer := true)), true)
  }

  function TimerFires(s: State, g: nat, now: real): State
    requires s.Wf() && g < |s.gestures|
  {
    var gesture := s.gestures[g];
    if !gesture.timer then s
    else if !gesture.closing && gesture.pending.Some? then Pump(Put(s, g, gesture.(timer := false, moveReady := true)), now)
    else Put(s, g, gesture.(timer := false))
  }

  /** A gesture gets its up. */
  function Closing(s: State, g: nat, body: Body): State
    requires g < |s.gestures|
  {
    Put(s, g, s.gestures[g].(closing := true, up := Some(body), timer := false, moveReady := s.gestures[g].pending.Some?))
    .(trace := s.trace + [TookUp(g, body)])
  }

  /** `_finish` with the phase "up", the only one it is called with. */
  function PointerUp(s: State, pointer: int, body: Body, now: real): (State, bool)
    requires s.Wf()
  {
    match Find(s.gestures, s.active, pointer)
    case None => (s, false)
    case Some(g) =>
      var gesture := s.gestures[g];
      if gesture.closing || gesture.removed || s.cancelPending.Some? then (s, false)
      else
        (QueueEdge(Closing(s, g, body), g, now), true)
  }

  function Sweep(gestures: seq<Gesture>, active: seq<nat>): (r: seq<Gesture>)
    ensures |r| == |gestures|
  {
    seq(|gestures|, i requires 0 <= i < |gestures| =>
      if i in active then gestures[i].(closing := true, pending := None, moveReady := false, timer := false) else gestures[i])
  }

  /** Every active gesture is closed without its pending move, and the queue gives way to the cancel. */
  function Swept(s: State, body: Body): State {
    var s1 := s.(cancelling := true, gestures := Sweep(s.gestures, s.active), waiters := s.waiters + 1, trace := s.trace + [TookCancel(body)]);
    if s.cancelPending.Some? then s1 else s1.(cancelPending := Some(body), queue := [])
  }

  function CancelAll(s: State, body: Body, now: real): State
    requires s.Wf()
  {
    Pump(Swept(s, body), now)
  }

  function Remove(s: State, g: nat): State
    requires g < |s.gestures|
  {
    Put(s, g, s.gestures[g].(removed := true, timer := false)).(active := Without(s.active, g))
  }

  function RemoveAll(gestures: seq<Gesture>, active: seq<nat>): (r: seq<Gesture>)
    ensures |r| == |gestures|
  {
    seq(|gestures|, i requires 0 <= i < |gestures| =>
      if i in active then gestures[i].(removed := true, timer := false) else gestures[i])
  }

  /** The effect of a finished send on the gestures, before the next packet is chosen. */
  function Settle(s: State, packet: Packet, now: real): State
    requires s.Wf() && (!packet.Cancel? ==> packet.gesture < |s.gestures|)
  {
    match packet
    case Down(g, _, _) => if s.gestures[g].up.Some? then QueueEdge(s, g, now) else s
    case Up(g, _, _) => Remove(s, g)
    case Move(g, _, motion) => if s.gestures[g].pending == Some(motion) then Put(s, g, s.gestures[g].(pending := None)) else s
    case Cancel(_) => s.(cancelling := false, gestures := RemoveAll(s.gestures, s.active), active := [], waiters := 0)
  }

  /** A finished send: of an older generation it only ends, otherwise it settles and the next one starts. */
  function Completed(s: State, now: real): State
    requires s.Wf()
  {
    if s.inflight.None? then s
    else
      var flight := s.inflight.value;
      var s1 := s.(inflight := None, trace := s.trace + [Done(flight.packet)]);
      if flight.generation != s.generation then s1
      else
        SettleKeepsWf(s1, flight.packet, now);
        Pump(Settle(s1, flight.packet, now), now)
  }

  lemma PumpKeepsWf(s: State, now: real)
    requires s.Wf()
    ensures Pump(s, now).Wf() && |Pump(s, now).gestures| == |s.gestures|
  {
    NextEdgeKeepsWf(s, now);
    NextEdgePacket(s, now);
  }

  lemma NextEdgePacket(s: State, now: real)
    requires s.Wf()
    ensures NextEdge(s, now).1.Some? ==> !NextEdge(s, now).1.value.Cancel? && NextEdge(s, now).1.value.gesture < |s.gestures|
    decreases |s.queue|
  {
  }

  lemma SettleKeepsWf(s: State, packet: Packet, now: real)
    requires s.Wf() && (!packet.Cancel? ==> packet.gesture < |s.gestures|)
    ensures Settle(s, packet, now).Wf()
  {
    if packet.Down? && s.gestures[packet.gesture].up.Some? { QueueEdgeKeepsWf(s, packet.gesture, now); }
    if packet.Up? { forall i | 0 <= i < |Settle(s, packet, now).active| ensures Settle(s, packet, now).active[i] < |s.gestures| {
      assert Settle(s, packet, now).active[i] in Without(s.active, packet.gesture); } }
  }

  lemma QueueEdgeKeepsWf(s: State, g: nat, now: real)
    requires s.Wf() && g < |s.gestures|
    ensures QueueEdge(s, g, now).Wf() && |QueueEdge(s, g, now).gestures| == |s.gestures|
  {
    if !(s.cancelPending.Some? || s.gestures[g].edgeQueued || Stale(s, g)) {
      PumpKeepsWf(Put(s, g, s.gestures[g].(edgeQueued := true)).(queue := s.queue + [g]), now);
    }
  }

  function Clear(s: State): State {
    s.(generation := s.generation + 1, gestures := RemoveAll(s.gestures, s.active), active := [], queue := [],
       cancelPending := None, cancelling := false, waiters := 0)
  }

  function Step(s: State, e: Event): State
    requires s.Wf()
  {
    match e
    case EvDown(pointer, body, now) => PointerDown(s, pointer, body, now).0
    case EvMove(pointer, body, now) => PointerMove(s, pointer, body, now).0
    case EvUp(pointer, body, now) => PointerUp(s, pointer, body, now).0
    case EvCancel(body, now) => CancelAll(s, body, now)
    case EvTimer(g, now) => if g < |s.gestures| then TimerFires(s, g, now) else s
    case EvDone(now) => Completed(s, now)
    case EvClear => Clear(s)
  }

  lemma DownKeepsWf(s: State, pointer: int, body: Body, now: real)
    requires s.Wf()
    ensures PointerDown(s, pointer, body, now).0.Wf()
  {
    if !(s.cancelling || Find(s.gestures, s.active, pointer).Some?) {
      var slot := FreeSlot(s.gestures, s.active, 0, s.maxPointers);
      if slot.Some? {
        var gesture := Gesture(pointer, slot.value, s.generation, body, None, false, false, None, false, false, None, false, false);
        QueueEdgeKeepsWf(Opening(s, gesture), |s.gestures|, now);
      }
    }
  }

  lemma MoveKeepsWf(s: State, pointer: int, body: Body, now: real)
    requires s.Wf()
    ensures PointerMove(s, pointer, body, now).0.Wf()
  {
    var found := Find(s.gestures, s.active, pointer);
    if found.Some? && !s.gestures[found.value].closing && !s.gestures[found.value].removed {
      var s1 := AcceptMove(s, found.value, body);
      PumpKeepsWf(Put(s1, found.value, s1.gestures[found.value].(moveReady := true)), now);
    }
  }

  lemma UpKeepsWf(s: State, pointer: int, body: Body, now: real)
    requires s.Wf()
    ensures PointerUp(s, pointer, body, now).0.Wf()
  {
    var found := Find(s.gestures, s.active, pointer);
    if found.Some? {
      QueueEdgeKeepsWf(Closing(s, found.value, body), found.value, now);
    }
  }

  lemma CompletedKeepsWf(s: State, now: real)
    requires s.Wf()
    ensures Completed(s, now).Wf()
  {
    if s.inflight.Some? {
      var s1 := s.(inflight := None, trace := s.trace + [Done(s.inflight.value.packet)]);
      SettleKeepsWf(s1, s.inflight.value.packet, now);
      PumpKeepsWf(Settle(s1, s.inflight.value.packet, now), now);
    }
  }

  lemma StepKeepsWf(s: State, e: Event)
    requires s.Wf()
    ensures Step(s, e).Wf()
  {
    match e
    case EvDown(pointer, body, now) => DownKeepsWf(s, pointer, body, now);
    case EvMove(pointer, body, now) => MoveKeepsWf(s, pointer, body, now);
    case EvUp(pointer, body, now) => UpKeepsWf(s, pointer, body, now);
    case EvCancel(body, now) => PumpKeepsWf(Swept(s, body), now);
    case EvTimer(g, now) =>
      if g < |s.gestures| { PumpKeepsWf(Put(s, g, s.gestures[g].(timer := false, moveReady := true)), now); }
    case EvDone(now) => CompletedKeepsWf(s, now);
    case EvClear =>
  }

  ghost function Run(s: State, events: seq<Event>): State
    requires s.Wf()
    decreases |events|
  {
    if events == [] then s
    else
      StepKeepsWf(s, events[0]);
      Run(Step(s, events[0]), events[1..])
  }
}
