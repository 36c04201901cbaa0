/** The invariant of the pointer transport over every run in which `clear` is not called. */
module PointerInvariant {
  import opened Wrappers
  import opened PointerSteps

  // ---------------------------------------------------------------------------------------------
  // What a trace may look like
  // ---------------------------------------------------------------------------------------------

  /** A slot that a gesture holds down. */
  datatype Hold = Hold(slot: nat, gesture: nat)

  predicate Free(held: set<Hold>, slot: nat) {
    forall h :: h in held ==> h.slot != slot
  }

  /** The send in flight and the slots held down after a trace; none if the trace breaks the protocol. */
  datatype Watch = Watch(flying: Option<Packet>, held: set<Hold>) | Broken

  function Watching(trace: seq<Act>): Watch {
    if trace == [] then Watch(None, {})
    else Watched(Watching(trace[..|trace| - 1]), trace[|trace| - 1])
  }

  function Watched(w: Watch, act: Act): Watch {
    if w.Broken? then Broken
    else
      match act
      case TookDown(_, _, _, _) => w
      case Took(_, _) => w
      case TookUp(_, _) => w
      case TookCancel(_) => w
      case Done(p) => if w.flying == Some(p) then Watch(None, w.held) else Broken
      case Sent(p) =>
        if w.flying.Some? then Broken
        else
          match p
          case Down(g, slot, _) => if Free(w.held, slot) then Watch(Some(p), w.held + {Hold(slot, g)}) else Broken
          case Move(g, slot, _) => if Hold(slot, g) in w.held then Watch(Some(p), w.held) else Broken
          case Up(g, slot, _) => if Hold(slot, g) in w.held then Watch(Some(p), w.held - {Hold(slot, g)}) else Broken
          case Cancel(_) => Watch(Some(p), {})
  }

  /** The moves accepted for a gesture, in order. */
  function Takes(trace: seq<Act>, g: nat): seq<Motion> {
    if trace == [] then []
    else
      var rest, act := Takes(trace[..|trace| - 1], g), trace[|trace| - 1];
      if act.Took? && act.gesture == g then rest + [act.motion] else rest
  }

  /** The moves sent for a gesture, in order. */
  function Sends(trace: seq<Act>, g: nat): seq<Motion> {
    if trace == [] then []
    else
      var rest, act := Sends(trace[..|trace| - 1], g), trace[|trace| - 1];
      if act.Sent? && act.packet.Move? && act.packet.gesture == g then rest + [act.packet.motion] else rest
  }

  /** a is b with elements left out. */
  predicate Subsequence<T(==)>(a: seq<T>, b: seq<T>)
    decreases |b|
  {
    a == [] || (b != [] && (if a[|a| - 1] == b[|b| - 1] then Subsequence(a[..|a| - 1], b[..|b| - 1]) else Subsequence(a, b[..|b| - 1])))
  }

  /** The last accepted move, if there is one, has been sent. */
  predicate CaughtUp(trace: seq<Act>, g: nat) {
    Takes(trace, g) == [] || (Sends(trace, g) != [] && Last(Sends(trace, g)) == Last(Takes(trace, g)))
  }

  function Last<T>(a: seq<T>): T
    requires a != []
  {
    a[|a| - 1]
  }

  predicate IsUp(act: Act, g: nat) {
    act.Sent? && act.packet.Up? && act.packet.gesture == g
  }

  /** An up follows the last accepted move of its gesture, and no move is accepted after it. */
  predicate UpsOk(trace: seq<Act>) {
    trace == [] ||
    var before, act := trace[..|trace| - 1], trace[|trace| - 1];
    && UpsOk(before)
    && (act.Sent? && act.packet.Up? ==> CaughtUp(before, act.packet.gesture))
    && (act.Took? ==> forall k :: 0 <= k < |before| ==> !IsUp(before[k], act.gesture))
  }

  lemma Snoc(trace: seq<Act>, act: Act)
    ensures (trace + [act])[..|trace + [act]| - 1] == trace
    ensures Watching(trace + [act]) == Watched(Watching(trace), act)
    ensures forall g :: Takes(trace + [act], g) == if act.Took? && act.gesture == g then Takes(trace, g) + [act.motion] else Takes(trace, g)
    ensures forall g :: Sends(trace + [act], g) == if act.Sent? && act.packet.Move? && act.packet.gesture == g
                                                    then Sends(trace, g) + [act.packet.motion] else Sends(trace, g)
    ensures UpsOk(trace + [act]) <==>
              && UpsOk(trace)
              && (act.Sent? && act.packet.Up? ==> CaughtUp(trace, act.packet.gesture))
              && (act.Took? ==> forall k :: 0 <= k < |trace| ==> !IsUp(trace[k], act.gesture))
  {
    assert (trace + [act])[..|trace + [act]| - 1] == trace;
  }

  // ---------------------------------------------------------------------------------------------
  // The invariant
  // ---------------------------------------------------------------------------------------------

  predicate InCancel(s: State) {
    s.cancelPending.Some? || (s.inflight.Some? && s.inflight.value.packet.Cancel?)
  }

  predicate FliesDown(s: State, g: nat) {
    s.inflight.Some? && s.inflight.value.packet.Down? && s.inflight.value.packet.gesture == g
  }

  predicate FliesMove(s: State, g: nat) {
    s.inflight.Some? && s.inflight.value.packet.Move? && s.inflight.value.packet.gesture == g
  }

  predicate FliesUp(s: State, g: nat) {
    s.inflight.Some? && s.inflight.value.packet.Up? && s.inflight.value.packet.gesture == g
  }

  ghost predicate Distinct(a: seq<nat>) {
    forall i, j :: 0 <= i < j < |a| ==> a[i] != a[j]
  }

  ghost predicate Shape(s: State) {
    && s.Wf() && s.generation == 0 && s.maxPointers <= MAX_POINTERS
    && Distinct(s.active) && Distinct(s.queue)
    && (forall a, b :: a in s.active && b in s.active && a != b ==>
          s.gestures[a].slot != s.gestures[b].slot && s.gestures[a].pointer != s.gestures[b].pointer)
    && (forall g :: 0 <= g < |s.gestures| ==> BasicOk(s, g))
    && (s.inflight.Some? ==> s.inflight.value.generation == 0)
    && (s.inflight.Some? && !s.inflight.value.packet.Cancel? ==>
          s.inflight.value.packet.gesture in s.active
          && s.inflight.value.packet.slot == s.gestures[s.inflight.value.packet.gesture].slot)
    && (s.cancelPending.Some? ==> s.queue == [] && s.cancelling)
  }

  ghost predicate BasicOk(s: State, g: nat)
    requires g < |s.gestures|
  {
    var gesture := s.gestures[g];
    && gesture.generation == 0 && gesture.slot < s.maxPointers
    && (gesture.removed <==> g !in s.active)
    && (gesture.removed ==> !gesture.timer)
    && (g in s.queue ==> gesture.edgeQueued)
    && (g in s.active && s.cancelPending.Some? ==> gesture.closing && gesture.pending.None?)
  }

  /** Where the edges of a live gesture are, when no cancel is pending or in flight. */
  ghost predicate EdgeOk(s: State, g: nat)
    requires g < |s.gestures|
  {
    var gesture := s.gestures[g];
    && (gesture.closing <==> gesture.up.Some?)
    && (gesture.edgeQueued <==> g in s.queue)
    && (!gesture.downDispatched ==> g in s.queue && !FliesDown(s, g) && !FliesMove(s, g) && !FliesUp(s, g))
    && (gesture.downDispatched && gesture.up.None? ==> g !in s.queue && !FliesUp(s, g))
    && (gesture.downDispatched && gesture.up.Some? ==> g in s.queue || FliesDown(s, g) || FliesUp(s, g))
    && (FliesUp(s, g) ==> g !in s.queue && gesture.pending.None?)
  }

  /** A pending move of an open gesture is about to be sent, waits for a timer, or is in flight. */
  ghost predicate MoveWaits(s: State, g: nat)
    requires g < |s.gestures|
  {
    var gesture := s.gestures[g];
    gesture.pending.Some? && !gesture.closing ==>
      gesture.moveReady || gesture.timer || (FliesMove(s, g) && s.inflight.value.packet.motion == gesture.pending.value)
  }

  ghost predicate EdgesOk(s: State)
    requires s.Wf()
  {
    !InCancel(s) ==> forall g :: g in s.active ==> g < |s.gestures| && EdgeOk(s, g) && MoveWaits(s, g)
  }

  /** The slots whose down has been sent and whose up has not, until a cancel is sent, each with its gesture. */
  function Holding(s: State): set<Hold>
    requires s.Wf()
  {
    if s.inflight.Some? && s.inflight.value.packet.Cancel? then {}
    else set i | 0 <= i < |s.active| && s.gestures[s.active[i]].downDispatched && !FliesUp(s, s.active[i]) :: Hold(s.gestures[s.active[i]].slot, s.active[i])
  }

  ghost predicate TraceOk(s: State)
    requires s.Wf()
  {
    && Watching(s.trace) == Watch(if s.inflight.Some? then Some(s.inflight.value.packet) else None, Holding(s))
    && UpsOk(s.trace)
    && (forall k :: 0 <= k < |s.trace| ==> ActOk(s, s.trace[k]))
  }

  /** A gesture whose up was sent is gone or closing, and every accepted move is known. */
  ghost predicate ActOk(s: State, act: Act) {
    && (act.Sent? && !act.packet.Cancel? ==> act.packet.gesture < |s.gestures|)
    && (act.Sent? && act.packet.Up? ==> act.packet.gesture !in s.active || s.gestures[act.packet.gesture].closing)
    && (act.Took? ==> act.gesture < |s.gestures| && act.motion.id < s.motions)
  }

  ghost predicate Rising(moves: seq<Motion>) {
    forall i, j :: 0 <= i < j < |moves| ==> moves[i].id < moves[j].id
  }

  ghost predicate MovesOk(s: State, g: nat)
    requires g < |s.gestures|
  {
    var takes, sends, pending := Takes(s.trace, g), Sends(s.trace, g), s.gestures[g].pending;
    && Subsequence(sends, takes) && Rising(takes)
    && (pending.Some? ==> takes != [] && Last(takes) == pending.value)
    && (pending.Some? && sends != [] && Last(sends) == pending.value ==> FliesMove(s, g) && s.inflight.value.packet.motion == pending.value)
    && (g in s.active && !InCancel(s) && pending.None? ==> CaughtUp(s.trace, g))
    && (FliesMove(s, g) ==> sends != [] && Last(sends) == s.inflight.value.packet.motion)
  }

  /** Facts about the transport that hold before the next packet is chosen as well as after. */
  ghost predicate Core(s: State) {
    && Shape(s) && EdgesOk(s) && TraceOk(s)
    && (forall g :: 0 <= g < |s.gestures| ==> MovesOk(s, g))
  }

  /** Nothing is in flight only when there is nothing to send. */
  ghost predicate Quiet(s: State)
    requires s.Wf()
  {
    s.inflight.None? ==>
      && s.queue == [] && s.cancelPending.None?
      && forall g :: g in s.active ==> s.gestures[g].downDispatched && !s.gestures[g].closing && (s.gestures[g].pending.Some? ==> s.gestures[g].timer)
  }

  ghost predicate Inv(s: State) {
    Core(s) && Quiet(s)
  }

  lemma InitialOk(maxPointers: nat, interval: real)
    ensures Inv(Initial(maxPointers, interval))
  {
  }
}
