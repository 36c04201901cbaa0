/** The byte relay of the device gateway: two connections, each copied to the other through a bounded buffer, with
    half-closes passed on. */
module AdbRelay {
  import opened Binary

  const BUFFER_BYTES: nat := 65536
  const RECEIVE_BYTES: nat := 16384
  const MAX_TOTAL_BYTES: nat := 520 * 1024 * 1024

  datatype Side = Left | Right

  function Peer(side: Side): Side {
    if side.Left? then Right else Left
  }

  /** One value for each connection. */
  datatype Both<T> = Both(left: T, right: T) {
    function At(side: Side): T {
      if side.Left? then left else right
    }

    function With(side: Side, value: T): Both<T> {
      if side.Left? then this.(left := value) else this.(right := value)
    }
  }

  /** What the sockets do in one round, and which of them is read first: a receive may block, break, or give at most so many of the next bytes, none
      once the other end has closed; a send may block, break, or take so many bytes. */
  datatype Receive = NothingYet | ReceiveBroken | UpTo(count: nat)
  datatype Send = NoRoom | SendBroken | Took(count: nat)
  datatype Turn = Turn(ready: bool, receive: Receive, writable: bool, send: Send)
  datatype Round = Round(halted: bool, turns: Both<Turn>, first: Side)

  /** What a connection sees of the relay. */
  datatype Act = Wrote(bytes: Bytes) | HalfClosed

  datatype Outcome = Finished | Failed | Running

  datatype State = State(
    pending: Both<Bytes>,      // received from the peer, not yet sent to this side
    unread: Both<Bytes>,       // produced by this side, not yet received
    readable: Both<bool>, shut: Both<bool>, total: nat, sent: Both<Bytes>, acts: Both<seq<Act>>)

  // ---------------------------------------------------------------------------------------------
  // What every round keeps
  // ---------------------------------------------------------------------------------------------

  function Written(acts: seq<Act>): Bytes {
    if acts == [] then []
    else
      var rest, last := Written(acts[..|acts| - 1]), acts[|acts| - 1];
      if last.Wrote? then rest + last.bytes else rest
  }

  /** A half-close comes last, if at all. */
  predicate Proper(acts: seq<Act>) {
    forall i :: 0 <= i < |acts| - 1 ==> acts[i].Wrote?
  }

  predicate Ended(acts: seq<Act>) {
    acts != [] && acts[|acts| - 1].HalfClosed?
  }

  /** Everything the peer produced is what was sent, what is pending and what is unread, in this order; a side that
      was half-closed has been sent everything. */
  ghost predicate SideOk(s: State, input: Both<Bytes>, side: Side) {
    && s.sent.At(side) + s.pending.At(side) + s.unread.At(Peer(side)) == input.At(Peer(side))
    && |s.pending.At(side)| < BUFFER_BYTES + RECEIVE_BYTES
    && (!s.readable.At(Peer(side)) ==> s.unread.At(Peer(side)) == [])
    && Proper(s.acts.At(side)) && Written(s.acts.At(side)) == s.sent.At(side)
    && (s.shut.At(side) <==> Ended(s.acts.At(side)))
    && (s.shut.At(side) ==> !s.readable.At(Peer(side)) && s.pending.At(side) == [])
  }

  ghost predicate StateOk(s: State, input: Both<Bytes>) {
    && SideOk(s, input, Left) && SideOk(s, input, Right)
    && s.total == |s.sent.left| + |s.pending.left| + |s.sent.right| + |s.pending.right| <= MAX_TOTAL_BYTES
  }

  /** A side that has nothing more to come has been told so. */
  predicate Told(s: State, side: Side) {
    !s.readable.At(Peer(side)) && s.pending.At(side) == [] ==> s.shut.At(side)
  }

  predicate Open(s: State) {
    s.readable.left || s.readable.right || s.pending.left != [] || s.pending.right != []
  }

  // ---------------------------------------------------------------------------------------------
  // Progress
  // ---------------------------------------------------------------------------------------------

  /** Both sockets give and take at least one byte whenever they are asked. */
  predicate Generous(round: Round) {
    && !round.halted
    && forall side :: side in {Left, Right} ==>
         var turn := round.turns.At(side);
         turn.ready && turn.receive.UpTo? && turn.writable && turn.send.Took? && turn.send.count > 0
  }

  predicate AllGenerous(script: seq<Round>) {
    forall k :: 0 <= k < |script| ==> Generous(script[k])
  }

  function One(b: bool): nat {
    if b then 1 else 0
  }

  /** What is left to do. */
  function Measure(s: State): nat {
    2 * (|s.unread.left| + |s.unread.right|) + |s.pending.left| + |s.pending.right| + One(s.readable.left) + One(s.readable.right)
  }

  function InputSize(input: Both<Bytes>): nat {
    |input.left| + |input.right|
  }

  /** The bytes not yet received still fit under the total. */
  lemma UnreadFits(s: State, input: Both<Bytes>, side: Side)
    requires StateOk(s, input) && InputSize(input) <= MAX_TOTAL_BYTES
    ensures s.total + |s.unread.At(side)| <= MAX_TOTAL_BYTES
  {
    assert SideOk(s, input, Left) && SideOk(s, input, Right);
    assert |input.right| == |s.sent.left| + |s.pending.left| + |s.unread.right|;
    assert |input.left| == |s.sent.right| + |s.pending.right| + |s.unread.left|;
  }

  // ---------------------------------------------------------------------------------------------
  // Steps
  // ---------------------------------------------------------------------------------------------

  function Received(s: State, side: Side, count: nat): State
    requires count <= |s.unread.At(side)|
  {
    var body := s.unread.At(side)[..count];
    s.(unread := s.unread.With(side, s.unread.At(side)[count..]),
       pending := s.pending.With(Peer(side), s.pending.At(Peer(side)) + body),
       total := s.total + count)
  }

  lemma ReceivingIsOk(s: State, input: Both<Bytes>, side: Side, count: nat)
    requires StateOk(s, input) && s.readable.At(side) && count <= |s.unread.At(side)| && count <= RECEIVE_BYTES
    requires |s.pending.At(Peer(side))| < BUFFER_BYTES && s.total + count <= MAX_TOTAL_BYTES
    ensures StateOk(Received(s, side, count), input)
  {
    var unread, sent, pending := s.unread.At(side), s.sent.At(Peer(side)), s.pending.At(Peer(side));
    assert sent + (pending + unread[..count]) + unread[count..] == sent + pending + unread;
    assert SideOk(Received(s, side, count), input, side);
  }

  lemma ClosingIsOk(s: State, input: Both<Bytes>, side: Side)
    requires StateOk(s, input) && s.unread.At(side) == []
    ensures StateOk(s.(readable := s.readable.With(side, false)), input)
  {
    assert SideOk(s.(readable := s.readable.With(side, false)), input, side);
  }

  function Delivered(s: State, side: Side, count: nat): State
    requires count <= |s.pending.At(side)|
  {
    var body := s.pending.At(side)[..count];
    s.(pending := s.pending.With(side, s.pending.At(side)[count..]), sent := s.sent.With(side, s.sent.At(side) + body),
       acts := s.acts.With(side, s.acts.At(side) + [Wrote(body)]))
  }

  lemma WrittenNext(acts: seq<Act>, act: Act)
    requires Proper(acts) && !Ended(acts)
    ensures Proper(acts + [act]) && Written(acts + [act]) == Written(acts) + if act.Wrote? then act.bytes else []
    ensures Ended(acts + [act]) <==> act.HalfClosed?
  {
    assert (acts + [act])[..|acts + [act]| - 1] == acts;
  }

  lemma SendingIsOk(s: State, input: Both<Bytes>, side: Side, count: nat)
    requires StateOk(s, input) && 0 < count <= |s.pending.At(side)|
    ensures StateOk(Delivered(s, side, count), input)
  {
    var pending, sent := s.pending.At(side), s.sent.At(side);
    WrittenNext(s.acts.At(side), Wrote(pending[..count]));
    assert sent + pending[..count] + pending[count..] == sent + pending;
    assert SideOk(Delivered(s, side, count), input, Peer(side));
  }

  function Shut(s: State, side: Side): State {
    s.(shut := s.shut.With(side, true), acts := s.acts.With(side, s.acts.At(side) + [HalfClosed]))
  }

  lemma ShuttingIsOk(s: State, input: Both<Bytes>, side: Side)
    requires StateOk(s, input) && !s.readable.At(Peer(side)) && s.pending.At(side) == [] && !s.shut.At(side)
    ensures StateOk(Shut(s, side), input)
  {
    WrittenNext(s.acts.At(side), HalfClosed);
    assert s.sent.At(side) + [] == s.sent.At(side);
    assert SideOk(Shut(s, side), input, Peer(side));
  }

  // ---------------------------------------------------------------------------------------------
  // The loop
  // ---------------------------------------------------------------------------------------------

  lemma GenerousGives(round: Round)
    requires Generous(round)
    ensures !round.halted && Generous(Round(false, round.turns, Left)) && Gives(round.turns.left) && Gives(round.turns.right)
  {
    assert round.turns.At(Left) == round.turns.left && round.turns.At(Right) == round.turns.right;
    assert forall side :: side in {Left, Right} ==> Round(false, round.turns, Left).turns.At(side) == round.turns.At(side);
  }

  /** A side is willing to give at least one byte whenever it is asked. */
  predicate Gives(turn: Turn) {
    turn.ready && turn.receive.UpTo?
  }

  /** A side fails when it is read. */
  predicate BreaksOff(turn: Turn) {
    turn.ready && turn.receive.ReceiveBroken?
  }

  /** A side fails, or takes nothing, when it is written to. */
  predicate TakesNothing(turn: Turn) {
    turn.writable && (turn.send.SendBroken? || (turn.send.Took? && turn.send.count == 0))
  }

  /** One receive, from a side whose peer's buffer has room. */
  method ReceiveFrom(s0: State, side: Side, turn: Turn, ghost input: Both<Bytes>) returns (s: State, ok: bool)
    requires StateOk(s0, input) && s0.readable.At(side) && |s0.pending.At(Peer(side))| < BUFFER_BYTES
    ensures StateOk(s, input) && s.shut == s0.shut
    ensures s.readable.At(Peer(side)) == s0.readable.At(Peer(side)) && s.unread.At(Peer(side)) == s0.unread.At(Peer(side))
    ensures s.pending.At(side) == s0.pending.At(side) && |s.pending.At(Peer(side))| >= |s0.pending.At(Peer(side))|
    ensures Measure(s) <= Measure(s0) && (Gives(turn) && ok ==> Measure(s) < Measure(s0))
    ensures Gives(turn) && InputSize(input) <= MAX_TOTAL_BYTES ==> ok
    ensures (BreaksOff(turn) ==> !ok) && (!ok ==> BreaksOff(turn) || InputSize(input) > MAX_TOTAL_BYTES)
    ensures !Gives(turn) ==> s == s0
  {
    hide StateOk;
    s, ok := s0, true;
    if !turn.ready { return; }
    match turn.receive {
      case NothingYet =>
      case ReceiveBroken => ok := false;
      case UpTo(count) =>
        var unread := s.unread.At(side);
        if |unread| == 0 {
          ClosingIsOk(s, input, side);
          s := s.(readable := s.readable.With(side, false));
        } else {
          var wanted := if count == 0 then 1 else count;
          var got := Least(wanted, RECEIVE_BYTES, |unread|);
          if InputSize(input) <= MAX_TOTAL_BYTES { UnreadFits(s, input, side); }
          if s.total + got > MAX_TOTAL_BYTES { return s, false; }
          ReceivingIsOk(s, input, side, got);
          s := Received(s, side, got);
        }
    }
  }

  /** A side is read in a round that finds it readable and its peer's buffer below the limit. */
  predicate Asked(s: State, side: Side) {
    s.readable.At(side) && |s.pending.At(Peer(side))| < 65536
  }

  /** The receives of one round, in either order, from the sides that were selected when their peer's buffer had room. */
  method ReceiveAll(s0: State, turns: Both<Turn>, first: Side, ghost input: Both<Bytes>) returns (s: State, ok: bool)
    requires StateOk(s0, input)
    ensures StateOk(s, input) && s.shut == s0.shut
    ensures |s.pending.left| < 65536 + 16384 && |s.pending.right| < 65536 + 16384
    ensures Measure(s) <= Measure(s0) && |s.pending.left| >= |s0.pending.left| && |s.pending.right| >= |s0.pending.right|
    ensures Gives(turns.left) && Gives(turns.right) && InputSize(input) <= MAX_TOTAL_BYTES ==> ok
    ensures Gives(turns.left) && Gives(turns.right) && ok && s0.pending == Both([], []) && (s0.readable.left || s0.readable.right) ==>
              Measure(s) < Measure(s0)
    ensures !ok ==> BreaksOff(turns.left) || BreaksOff(turns.right) || InputSize(input) > MAX_TOTAL_BYTES
    ensures forall side :: Asked(s0, side) && BreaksOff(turns.At(side)) ==> !ok
    ensures forall side :: !Asked(s0, side) ==> s.readable.At(side) == s0.readable.At(side) && s.unread.At(side) == s0.unread.At(side)
  {
    hide StateOk, Measure, Gives;
    s, ok := s0, true;
    PendingIsBounded(s, input);
    var second := Peer(first);
    if s0.readable.At(first) && |s0.pending.At(second)| < BUFFER_BYTES {
      s, ok := ReceiveFrom(s, first, turns.At(first), input);
      PendingIsBounded(s, input);
      if !ok { return; }
    }
    if s0.readable.At(second) && |s0.pending.At(first)| < BUFFER_BYTES {
      s, ok := ReceiveFrom(s, second, turns.At(second), input);
      PendingIsBounded(s, input);
    }
  }

  function Least(a: nat, b: nat, c: nat): (r: nat)
    ensures r <= a && r <= b && r <= c && (r == a || r == b || r == c)
  {
    var ab := if a < b then a else b;
    if ab < c then ab else c
  }

  /** The sends of one round, left before right, to the sides that had something pending when the round began. */
  method SendAll(s0: State, begun: State, turns: Both<Turn>, ghost input: Both<Bytes>) returns (s: State, ok: bool)
    requires StateOk(s0, input)
    requires |s0.pending.left| >= |begun.pending.left| && |s0.pending.right| >= |begun.pending.right|
    ensures StateOk(s, input) && s.shut == s0.shut
    ensures Measure(s) <= Measure(s0)
    ensures Generous(Round(false, turns, Left)) ==> ok
    ensures Generous(Round(false, turns, Left)) && begun.pending != Both([], []) ==> Measure(s) < Measure(s0)
    ensures !ok ==> TakesNothing(turns.left) || TakesNothing(turns.right)
    ensures (begun.pending.left != [] && TakesNothing(turns.left)) || (begun.pending.right != [] && TakesNothing(turns.right)) ==> !ok
  {
    hide StateOk;
    s := s0;
    var sides := [Left, Right];
    for i := 0 to 2
      invariant StateOk(s, input) && s.shut == s0.shut
      invariant Measure(s) <= Measure(s0) && (i == 0 ==> s == s0) && (i <= 1 ==> s.pending.right == s0.pending.right)
      invariant Generous(Round(false, turns, Left)) ==>
                  (i >= 1 && begun.pending.left != [] ==> Measure(s) < Measure(s0)) && (i >= 2 && begun.pending.right != [] ==> Measure(s) < Measure(s0))
      invariant (i >= 1 && begun.pending.left != [] ==> !TakesNothing(turns.left)) && (i >= 2 && begun.pending.right != [] ==> !TakesNothing(turns.right))
    {
      var side := sides[i];
      var turn := turns.At(side);
      assert side in {Left, Right};
      if begun.pending.At(side) != [] && turn.writable {
        match turn.send {
          case NoRoom =>
          case SendBroken => return s, false;
          case Took(count) =>
            var taken := Least(count, count, |s.pending.At(side)|);
            if taken == 0 { return s, false; }
            SendingIsOk(s, input, side, taken);
            s := Delivered(s, side, taken);
        }
      }
    }
    ok := true;
  }

  /** Half-closes for the sides whose peer has ended and to which nothing is pending. */
  method ShutAll(s0: State, ghost input: Both<Bytes>) returns (s: State)
    requires StateOk(s0, input)
    ensures StateOk(s, input) && Told(s, Left) && Told(s, Right) && Measure(s) == Measure(s0)
  {
    hide StateOk;
    s := s0;
    var sides := [Left, Right];
    for i := 0 to 2
      invariant StateOk(s, input)
      invariant s.readable == s0.readable && s.pending == s0.pending && s.unread == s0.unread
      invariant (i >= 1 ==> Told(s, Left)) && (i >= 2 ==> Told(s, Right))
    {
      var side := sides[i];
      if !s.readable.At(Peer(side)) && s.pending.At(side) == [] && !s.shut.At(side) {
        ShuttingIsOk(s, input, side);
        s := Shut(s, side);
      }
    }
  }

  function Initial(input: Both<Bytes>): State {
    State(Both([], []), input, Both(true, true), Both(false, false), 0, Both([], []), Both([], []))
  }

  lemma InitialIsOk(input: Both<Bytes>)
    ensures StateOk(Initial(input), input) && Told(Initial(input), Left) && Told(Initial(input), Right)
  {
    forall side: Side ensures SideOk(Initial(input), input, side) {
      assert [] + [] + input.At(Peer(side)) == input.At(Peer(side));
    }
  }

  /** What the relay has done to one side, whatever happened. */
  ghost predicate Faithful(input: Both<Bytes>, sent: Both<Bytes>, acts: Both<seq<Act>>, side: Side) {
    && sent.At(side) <= input.At(Peer(side))
    && Written(acts.At(side)) == sent.At(side) && Proper(acts.At(side))
    && (Ended(acts.At(side)) ==> sent.At(side) == input.At(Peer(side)))
  }

  /** A round in which the relay is told to stop, or a socket fails or takes nothing. */
  predicate Troubled(round: Round) {
    || round.halted || BreaksOff(round.turns.left) || BreaksOff(round.turns.right)
    || TakesNothing(round.turns.left) || TakesNothing(round.turns.right)
  }

  /** `_relay` over the rounds of a script; `input` is what each side produces before it closes. */
  method Relay(input: Both<Bytes>, script: seq<Round>)
    returns (outcome: Outcome, sent: Both<Bytes>, acts: Both<seq<Act>>, peak: nat, rounds: nat)
    ensures Faithful(input, sent, acts, Left) && Faithful(input, sent, acts, Right)
    ensures outcome == Finished ==> sent == Both(input.right, input.left) && Ended(acts.left) && Ended(acts.right)
    ensures peak < 65536 + 16384 && |sent.left| + |sent.right| <= 520 * 1024 * 1024
    ensures rounds <= |script| && (outcome == Running ==> rounds == |script|)
    ensures forall k :: 0 <= k < rounds && script[k].halted ==> outcome == Failed && k == rounds - 1
    ensures outcome == Failed ==> rounds > 0 && (Troubled(script[rounds - 1]) || InputSize(input) > 520 * 1024 * 1024)
    ensures AllGenerous(script) && InputSize(input) <= MAX_TOTAL_BYTES && |script| >= 2 * InputSize(input) + 2 ==> outcome == Finished
  {
    hide StateOk;
    ghost var generous := AllGenerous(script) && InputSize(input) <= MAX_TOTAL_BYTES;
    var s := Initial(input);
    InitialIsOk(input);
    outcome, peak := Running, 0;
    var k := 0;
    while Open(s) && k < |script|
      invariant k <= |script| && StateOk(s, input) && peak < BUFFER_BYTES + RECEIVE_BYTES
      invariant outcome == Running && Told(s, Left) && Told(s, Right)
      invariant generous ==> Measure(s) + k <= 2 * InputSize(input) + 2
      invariant forall j :: 0 <= j < k ==> !script[j].halted
      decreases |script| - k
    {
      var round := script[k];
      if generous { GenerousGives(round); }
      k := k + 1;
      if round.halted {
        outcome := Failed;
        break;
      }
      var begun, ok := s, true;
      s, ok := ReceiveAll(s, round.turns, round.first, input);
      peak := Highest(peak, |s.pending.left|, |s.pending.right|);
      if ok { s, ok := SendAll(s, begun, round.turns, input); }
      if !ok {
        outcome := Failed;
        break;
      }
      s := ShutAll(s, input);
    }
    if outcome == Running && !Open(s) {
      ClosedIsDelivered(s, input);
      outcome := Finished;
    }
    StateIsFaithful(s, input);
    sent, acts, rounds := s.sent, s.acts, k;
  }

  function Highest(a: nat, b: nat, c: nat): nat {
    var ab := if a < b then b else a;
    if ab < c then c else ab
  }

  lemma PendingIsBounded(s: State, input: Both<Bytes>)
    requires StateOk(s, input)
    ensures |s.pending.left| < BUFFER_BYTES + RECEIVE_BYTES && |s.pending.right| < BUFFER_BYTES + RECEIVE_BYTES
  {
    assert SideOk(s, input, Left) && SideOk(s, input, Right);
  }

  lemma SideIsFaithful(s: State, input: Both<Bytes>, side: Side)
    requires SideOk(s, input, side)
    ensures Faithful(input, s.sent, s.acts, side)
  {
    assert s.sent.At(side) + s.pending.At(side) + s.unread.At(Peer(side)) == s.sent.At(side) + (s.pending.At(side) + s.unread.At(Peer(side)));
    if s.shut.At(side) { assert s.sent.At(side) + [] + [] == s.sent.At(side); }
  }

  lemma StateIsFaithful(s: State, input: Both<Bytes>)
    requires StateOk(s, input)
    ensures Faithful(input, s.sent, s.acts, Left) && Faithful(input, s.sent, s.acts, Right)
    ensures |s.sent.left| + |s.sent.right| <= MAX_TOTAL_BYTES
  {
    SideIsFaithful(s, input, Left);
    SideIsFaithful(s, input, Right);
  }

  /** Nothing readable and nothing pending: everything was delivered, and both sides were told. */
  lemma ClosedIsDelivered(s: State, input: Both<Bytes>)
    requires StateOk(s, input) && !Open(s) && Told(s, Left) && Told(s, Right)
    ensures s.sent == Both(input.right, input.left) && Ended(s.acts.left) && Ended(s.acts.right)
  {
    assert SideOk(s, input, Left) && SideOk(s, input, Right);
    assert s.sent.left + [] + [] == s.sent.left && s.sent.right + [] + [] == s.sent.right;
  }
}
