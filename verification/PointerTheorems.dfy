/** What every run of the pointer transport without `clear` guarantees, and what `clear` costs. */
module PointerTheorems {
  import opened Wrappers
  import opened PointerSteps
  import opened PointerInvariant
  import opened PointerProofs

  predicate NoClear(events: seq<Event>) {
    forall i :: 0 <= i < |events| ==> !events[i].EvClear?
  }

  lemma StepKeeps(s: State, e: Event)
    requires Inv(s) && !e.EvClear?
    ensures Inv(Step(s, e))
  {
    match e
    case EvDown(pointer, body, now) => DownKeeps(s, pointer, body, now);
    case EvMove(pointer, body, now) => MoveKeeps(s, pointer, body, now);
    case EvUp(pointer, body, now) => UpKeeps(s, pointer, body, now);
    case EvCancel(body, now) => CancelKeeps(s, body, now);
    case EvTimer(g, now) => if g < |s.gestures| { TimerKeeps(s, g, now); }
    case EvDone(now) => DoneKeeps(s, now);
  }

  lemma {:induction false} RunKeeps(s: State, events: seq<Event>)
    requires Inv(s) && NoClear(events)
    ensures Inv(Run(s, events))
    decreases |events|
  {
    if events != [] {
      StepKeeps(s, events[0]);
      RunKeeps(Step(s, events[0]), events[1..]);
    }
  }

  /** A state that a run without `clear` leads to. */
  ghost predicate Reached(s: State) {
    s.Wf() && exists maxPointers: nat, interval: real, events :: NoClear(events) && s == Run(Initial(maxPointers, interval), events)
  }

  lemma EveryReachedStateKeeps(s: State)
    requires Reached(s)
    ensures Inv(s)
  {
    var maxPointers: nat, interval: real, events :| NoClear(events) && s == Run(Initial(maxPointers, interval), events);
    InitialOk(maxPointers, interval);
    RunKeeps(Initial(maxPointers, interval), events);
  }

  // ---------------------------------------------------------------------------------------------
  // One send at a time, and what each slot sees
  // ---------------------------------------------------------------------------------------------

  /** The sends and completions of a trace. */
  function Transport(trace: seq<Act>): seq<Act> {
    if trace == [] then []
    else
      var rest, act := Transport(trace[..|trace| - 1]), trace[|trace| - 1];
      if act.Sent? || act.Done? then rest + [act] else rest
  }

  /** Each send is followed by its own completion before the next send. */
  predicate Alternates(acts: seq<Act>) {
    forall k :: 0 <= k < |acts| ==> TurnAt(acts, k)
  }

  predicate TurnAt(acts: seq<Act>, k: nat)
    requires k < |acts|
  {
    if k % 2 == 0 then acts[k].Sent? else acts[k - 1].Sent? && acts[k] == Done(acts[k - 1].packet)
  }

  lemma AlternatesGrow(acts: seq<Act>, act: Act)
    requires Alternates(acts) && TurnAt(acts + [act], |acts|)
    ensures Alternates(acts + [act])
  {
    forall k | 0 <= k < |acts + [act]| ensures TurnAt(acts + [act], k) {
      if k < |acts| { assert TurnAt(acts, k); }
    }
  }

  lemma {:induction false} WatchedAlternates(trace: seq<Act>)
    requires Watching(trace).Watch?
    ensures Alternates(Transport(trace))
    ensures var acts := Transport(trace);
            match Watching(trace).flying
            case None => |acts| % 2 == 0
            case Some(p) => |acts| % 2 == 1 && acts[|acts| - 1] == Sent(p)
    decreases |trace|
  {
    if trace != [] {
      var before, act := Transport(trace[..|trace| - 1]), trace[|trace| - 1];
      WatchedAlternates(trace[..|trace| - 1]);
      if act.Sent? || act.Done? {
        assert TurnAt(before + [act], |before|);
        AlternatesGrow(before, act);
      }
    }
  }

  /** At most one send is in flight, and exactly the last one sent. */
  lemma OneSendAtATime(s: State)
    requires Reached(s)
    ensures Alternates(Transport(s.trace))
    ensures s.inflight.Some? <==> |Transport(s.trace)| % 2 == 1
    ensures s.inflight.Some? ==> Last(Transport(s.trace)) == Sent(s.inflight.value.packet)
  {
    EveryReachedStateKeeps(s);
    WatchedAlternates(s.trace);
  }

  /** Active gestures have slots of their own, below the bound. */
  lemma SlotsAreDistinctAndBounded(s: State, a: nat, b: nat)
    requires Reached(s) && a in s.active && b in s.active
    ensures a < |s.gestures| && b < |s.gestures| && s.gestures[a].slot < s.maxPointers <= 5
    ensures a != b ==> s.gestures[a].slot != s.gestures[b].slot
  {
    EveryReachedStateKeeps(s);
    assert BasicOk(s, a);
  }

  /** What a slot sees of the packets sent: its own, and every cancel. */
  function SlotSees(trace: seq<Act>, slot: nat): seq<Packet> {
    if trace == [] then []
    else
      var rest, act := SlotSees(trace[..|trace| - 1], slot), trace[|trace| - 1];
      if act.Sent? && (act.packet.Cancel? || act.packet.slot == slot) then rest + [act.packet] else rest
  }

  /** Runs of down, moves, up of one gesture each; a cancel may cut a run short or come between runs. */
  predicate Runs(seen: seq<Packet>) {
    forall k :: 0 <= k < |seen| ==> FitsAt(seen, k)
  }

  predicate FitsAt(seen: seq<Packet>, k: nat)
    requires k < |seen|
  {
    Fits(if k == 0 then None else Some(seen[k - 1]), seen[k])
  }

  /** A packet may come after the one before it. */
  predicate Fits(before: Option<Packet>, p: Packet) {
    match p
    case Down(_, _, _) => before.None? || before.value.Up? || before.value.Cancel?
    case Move(g, _, _) => before.Some? && (before.value.Down? || before.value.Move?) && before.value.gesture == g
    case Up(g, _, _) => before.Some? && (before.value.Down? || before.value.Move?) && before.value.gesture == g
    case Cancel(_) => true
  }

  lemma RunsGrow(seen: seq<Packet>, p: Packet)
    requires Runs(seen) && Fits(if seen == [] then None else Some(Last(seen)), p)
    ensures Runs(seen + [p])
  {
    forall k | 0 <= k < |seen + [p]| ensures FitsAt(seen + [p], k) {
      if k < |seen| { assert FitsAt(seen, k); }
    }
  }

  /** A slot is in the middle of a run. */
  predicate MidRun(seen: seq<Packet>) {
    seen != [] && (Last(seen).Down? || Last(seen).Move?)
  }

  lemma {:induction false} WatchedRuns(trace: seq<Act>, slot: nat)
    requires Watching(trace).Watch?
    ensures Runs(SlotSees(trace, slot))
    ensures !Free(Watching(trace).held, slot) <==> MidRun(SlotSees(trace, slot))
    ensures forall h :: h in Watching(trace).held && h.slot == slot && MidRun(SlotSees(trace, slot)) ==>
              h.gesture == Last(SlotSees(trace, slot)).gesture
    decreases |trace|
  {
    if trace != [] {
      var before, act := SlotSees(trace[..|trace| - 1], slot), trace[|trace| - 1];
      WatchedRuns(trace[..|trace| - 1], slot);
      if act.Sent? && (act.packet.Cancel? || act.packet.slot == slot) {
        assert Fits(if before == [] then None else Some(Last(before)), act.packet);
        RunsGrow(before, act.packet);
      }
    }
  }

  /** Every slot sees whole runs of the down, the moves and the up of one gesture, possibly cut by a cancel. */
  lemma SlotsSeeWholeRuns(s: State, slot: nat)
    requires Reached(s)
    ensures Runs(SlotSees(s.trace, slot))
  {
    EveryReachedStateKeeps(s);
    WatchedRuns(s.trace, slot);
  }

  predicate Releases(p: Packet, slot: nat) {
    p.Cancel? || (p.Up? && p.slot == slot)
  }

  predicate Lowers(act: Act, slot: nat) {
    act.Sent? && act.packet.Down? && act.packet.slot == slot
  }

  /** A watched trace has watched prefixes. */
  lemma {:induction false} WatchedPrefix(trace: seq<Act>, k: nat)
    requires k <= |trace| && Watching(trace).Watch?
    ensures Watching(trace[..k]).Watch?
    decreases |trace|
  {
    if k < |trace| {
      assert trace[..|trace| - 1][..k] == trace[..k];
      WatchedPrefix(trace[..|trace| - 1], k);
    } else {
      assert trace[..k] == trace;
    }
  }

  /** A slot that was held at j and is free at k was given back by a send that has completed, or is in flight. */
  lemma {:induction false} ReleasedBetween(trace: seq<Act>, slot: nat, j: nat, k: nat)
    requires j < k <= |trace| && Watching(trace).Watch? && Watching(trace[..j + 1]).Watch? && Watching(trace[..k]).Watch?
    requires !Free(Watching(trace[..j + 1]).held, slot) && Free(Watching(trace[..k]).held, slot)
    ensures (exists m :: j < m < k && trace[m].Done? && Releases(trace[m].packet, slot))
         || (Watching(trace[..k]).flying.Some? && Releases(Watching(trace[..k]).flying.value, slot))
    decreases k
  {
    if k > j + 1 {
      assert trace[..k][..k - 1] == trace[..k - 1] && trace[..k][k - 1] == trace[k - 1];
      WatchedPrefix(trace, k - 1);
      if Free(Watching(trace[..k - 1]).held, slot) {
        ReleasedBetween(trace, slot, j, k - 1);
        if trace[k - 1].Done? && Releases(trace[k - 1].packet, slot) { assert j < k - 1 < k; }
      }
    }
  }

  /** A down is sent to a free slot, with nothing in flight. */
  lemma DownAt(trace: seq<Act>, slot: nat, k: nat)
    requires Watching(trace).Watch? && k < |trace| && Lowers(trace[k], slot)
    ensures Watching(trace[..k]).Watch? && Watching(trace[..k + 1]).Watch?
    ensures Free(Watching(trace[..k]).held, slot) && Watching(trace[..k]).flying.None?
    ensures !Free(Watching(trace[..k + 1]).held, slot)
  {
    WatchedPrefix(trace, k + 1);
    WatchedPrefix(trace, k);
    assert trace[..k + 1][..k] == trace[..k] && trace[..k + 1][k] == trace[k];
  }

  /** A slot sees a second down only after its up, or a cancel, has completed. */
  lemma NewDownWaitsForRelease(s: State, slot: nat, j: nat, k: nat)
    requires Reached(s) && j < k < |s.trace| && Lowers(s.trace[j], slot) && Lowers(s.trace[k], slot)
    ensures exists m :: j < m < k && s.trace[m].Done? && Releases(s.trace[m].packet, slot)
  {
    EveryReachedStateKeeps(s);
    SecondDown(s.trace, slot, j, k);
  }

  lemma SecondDown(trace: seq<Act>, slot: nat, j: nat, k: nat)
    requires Watching(trace).Watch? && j < k < |trace| && Lowers(trace[j], slot) && Lowers(trace[k], slot)
    ensures exists m :: j < m < k && trace[m].Done? && Releases(trace[m].packet, slot)
  {
    DownAt(trace, slot, j);
    DownAt(trace, slot, k);
    ReleasedBetween(trace, slot, j, k);
  }

  // ---------------------------------------------------------------------------------------------
  // Moves
  // ---------------------------------------------------------------------------------------------

  /** The moves sent for a gesture are moves accepted for it, in order, with some left out and none twice. */
  lemma SentMovesAreASubsequence(s: State, g: nat)
    requires Reached(s)
    ensures Subsequence(Sends(s.trace, g), Takes(s.trace, g))
    ensures forall i, j :: 0 <= i < j < |Takes(s.trace, g)| ==> Takes(s.trace, g)[i] != Takes(s.trace, g)[j]
  {
    EveryReachedStateKeeps(s);
    if g < |s.gestures| { assert MovesOk(s, g); } else { NothingOf(s, s.trace, g); }
  }

  /** In a trace where an up follows the last move, everything accepted before it was sent or overtaken,
      and nothing is accepted after it. */
  lemma {:induction false} UpsAt(trace: seq<Act>, k: nat)
    requires UpsOk(trace) && k < |trace| && trace[k].Sent? && trace[k].packet.Up?
    ensures CaughtUp(trace[..k], trace[k].packet.gesture)
    ensures Takes(trace, trace[k].packet.gesture) == Takes(trace[..k], trace[k].packet.gesture)
    decreases |trace|
  {
    var before, last := trace[..|trace| - 1], trace[|trace| - 1];
    if k < |before| {
      UpsAt(before, k);
      assert before[..k] == trace[..k] && before[k] == trace[k];
      assert IsUp(before[k], trace[k].packet.gesture);
    } else {
      assert trace[..k] == before;
    }
  }

  /** When the up of a gesture is sent, its last accepted move has already been sent: no move is accepted
      afterwards, and what was sent before the up ends with the last move accepted. */
  lemma LastMoveIsSentBeforeTheUp(s: State, k: nat)
    requires Reached(s) && k < |s.trace| && s.trace[k].Sent? && s.trace[k].packet.Up?
    ensures var g := s.trace[k].packet.gesture;
            var accepted, sentBefore := Takes(s.trace, g), Sends(s.trace[..k], g);
            accepted != [] ==> sentBefore != [] && Last(sentBefore) == Last(accepted)
  {
    EveryReachedStateKeeps(s);
    UpsAt(s.trace, k);
  }

  // ---------------------------------------------------------------------------------------------
  // Cancel, and nothing lost
  // ---------------------------------------------------------------------------------------------

  /** After a cancel request the cancel is in flight, or waits for the one send before it with nothing queued. */
  lemma CancelPreempts(s: State, body: Body, now: real)
    requires Reached(s)
    ensures var t := Step(s, EvCancel(body, now));
            if s.inflight.None? then t.inflight.Some? && t.inflight.value.packet == Cancel(body)
            else t.cancelPending == (if s.cancelPending.Some? then s.cancelPending else Some(body))
                 && t.queue == [] && t.inflight == s.inflight && t.trace == s.trace + [TookCancel(body)]
  {
    EveryReachedStateKeeps(s);
  }

  /** A finished send, while a cancel is pending and nothing is queued, is followed by that cancel. */
  lemma DoneSendsCancel(s: State, now: real)
    requires s.Wf() && s.cancelPending.Some? && s.queue == [] && s.inflight.Some? && s.inflight.value.generation == s.generation
    ensures Step(s, EvDone(now)).trace == s.trace + [Done(s.inflight.value.packet), Sent(Cancel(s.cancelPending.value))]
  {
    var packet := s.inflight.value.packet;
    assert s.trace + [Done(packet)] + [Sent(Cancel(s.cancelPending.value))] == s.trace + [Done(packet), Sent(Cancel(s.cancelPending.value))];
  }

  /** While a cancel is pending no step sends anything but that cancel. */
  lemma PendingCancelIsNext(s: State, e: Event)
    requires Reached(s) && s.cancelPending.Some? && !e.EvClear?
    ensures var t := Step(s, e);
            || (t.cancelPending == s.cancelPending && (t.trace == s.trace || exists act: Act :: (act.Took? || act.TookCancel?) && t.trace == s.trace + [act]))
            || (e.EvDone? && s.inflight.Some? && t.trace == s.trace + [Done(s.inflight.value.packet), Sent(Cancel(s.cancelPending.value))])
  {
    EveryReachedStateKeeps(s);
    assert s.inflight.Some?;
    match e
    case EvDown(_, _, _) =>
    case EvMove(pointer, _, _) =>
      var found := Find(s.gestures, s.active, pointer);
      if found.Some? { assert BasicOk(s, found.value); }
    case EvUp(_, _, _) =>
    case EvCancel(_, _) =>
    case EvTimer(g, _) => if g < |s.gestures| { assert BasicOk(s, g); }
    case EvDone(now) => DoneSendsCancel(s, now);
  }

  /** A completed cancel leaves no active gesture, and resolves every waiting caller. */
  lemma CancelEmptiesActive(s: State, now: real)
    requires Reached(s) && s.inflight.Some? && s.inflight.value.packet.Cancel?
    ensures Step(s, EvDone(now)).active == [] && Step(s, EvDone(now)).waiters == 0
  {
    EveryReachedStateKeeps(s);
    assert s.inflight.value.generation == s.generation;
    CancelLandsEmpty(s, now);
  }

  lemma CancelLandsEmpty(s: State, now: real)
    requires s.Wf() && s.inflight.Some? && s.inflight.value.packet.Cancel? && s.inflight.value.generation == s.generation
    ensures Step(s, EvDone(now)).active == [] && Step(s, EvDone(now)).waiters == 0
  {
    var t := CancelLanded(s);
    assert t.Wf();
    CancelDone(s, now);
    PumpFields(t, now);
    assert t.active == [] && t.waiters == 0;
  }

  lemma CancelDone(s: State, now: real)
    requires s.Wf() && s.inflight.Some? && s.inflight.value.packet.Cancel? && s.inflight.value.generation == s.generation
    ensures CancelLanded(s).Wf() && Step(s, EvDone(now)) == Pump(CancelLanded(s), now)
  {
    var landed := s.(inflight := None, trace := s.trace + [Done(s.inflight.value.packet)]);
    assert Settle(landed, s.inflight.value.packet, now) == CancelLanded(s);
  }

  /** Choosing a packet changes neither which gestures are active nor who waits for a cancel. */
  lemma PumpFields(s: State, now: real)
    requires s.Wf()
    ensures Pump(s, now).active == s.active && Pump(s, now).waiters == s.waiters
  {
    NextEdgeFields(s, now);
  }

  lemma {:induction false} NextEdgeFields(s: State, now: real)
    requires s.Wf()
    ensures var t := NextEdge(s, now).0; t.active == s.active && t.waiters == s.waiters && t.cancelPending == s.cancelPending
    decreases |s.queue|
  {
    if s.queue != [] && Stale(s, s.queue[0]) {
      NextEdgeFields(Put(s, s.queue[0], s.gestures[s.queue[0]].(edgeQueued := false)).(queue := s.queue[1..]), now);
    }
  }

  /** No wakeup is lost: whenever nothing is in flight no edge is queued, no cancel is pending, every active
      gesture is down and open, and every pending move has its timer running. */
  lemma NothingIsLost(s: State)
    requires Reached(s) && s.inflight.None?
    ensures s.queue == [] && s.cancelPending.None?
    ensures forall g :: g in s.active ==> g < |s.gestures| && s.gestures[g].downDispatched && !s.gestures[g].closing
    ensures forall g :: g in s.active && s.gestures[g].pending.Some? ==> s.gestures[g].timer
  {
    EveryReachedStateKeeps(s);
  }

  // ---------------------------------------------------------------------------------------------
  // Who comes next
  // ---------------------------------------------------------------------------------------------

  /** Of the ready gestures none has waited longer than the chosen one. */
  lemma {:induction false} LongestWaitingMoveIsChosen(gestures: seq<Gesture>, active: seq<nat>, selected: Option<nat>, k: nat)
    requires forall i :: 0 <= i < |active| ==> active[i] < |gestures|
    requires selected.Some? ==> selected.value < |gestures|
    requires k < |active| && Ready(gestures[active[k]])
    ensures var chosen := Select(gestures, active, selected);
            chosen.Some? && !Before(gestures[active[k]].lastMoveAt, gestures[chosen.value].lastMoveAt)
    decreases |active|
  {
    var g := active[0];
    var better := Ready(gestures[g]) && (selected.None? || Before(gestures[g].lastMoveAt, gestures[selected.value].lastMoveAt));
    var next := if better then Some(g) else selected;
    if k > 0 {
      LongestWaitingMoveIsChosen(gestures, active[1..], next, k - 1);
    } else {
      SelectOnlyImproves(gestures, active[1..], next);
    }
  }

  lemma {:induction false} SelectOnlyImproves(gestures: seq<Gesture>, active: seq<nat>, selected: Option<nat>)
    requires forall i :: 0 <= i < |active| ==> active[i] < |gestures|
    requires selected.Some? && selected.value < |gestures|
    ensures var chosen := Select(gestures, active, selected);
            chosen.Some? && !Before(gestures[selected.value].lastMoveAt, gestures[chosen.value].lastMoveAt)
    decreases |active|
  {
    if active != [] {
      var g := active[0];
      if Ready(gestures[g]) && Before(gestures[g].lastMoveAt, gestures[selected.value].lastMoveAt) {
        SelectOnlyImproves(gestures, active[1..], Some(g));
      } else {
        SelectOnlyImproves(gestures, active[1..], selected);
      }
    }
  }

  /** The edge chosen is that of the first gesture in the queue that is not stale; there is none only when all are. */
  lemma {:induction false} FirstLiveEdgeIsChosen(s: State, now: real) returns (k: nat)
    requires s.Wf()
    ensures k <= |s.queue| && forall i :: 0 <= i < k ==> Stale(s, s.queue[i])
    ensures match NextEdge(s, now).1
            case None => k == |s.queue|
            case Some(packet) => k < |s.queue| && !Stale(s, s.queue[k]) && !packet.Cancel? && packet.gesture == s.queue[k]
                                 && packet.slot == s.gestures[s.queue[k]].slot
    decreases |s.queue|
  {
    k := 0;
    if s.queue != [] && Stale(s, s.queue[0]) {
      var g := s.queue[0];
      var shifted := Put(s, g, s.gestures[g].(edgeQueued := false)).(queue := s.queue[1..]);
      var later := FirstLiveEdgeIsChosen(shifted, now);
      k := later + 1;
      forall i | 0 <= i < k ensures Stale(s, s.queue[i]) { if i > 0 { assert Stale(shifted, shifted.queue[i - 1]); } }
    }
  }

  // ---------------------------------------------------------------------------------------------
  // Clear
  // ---------------------------------------------------------------------------------------------

  // A run of four steps: down, clear, a second down while the first is in flight, completion.

  function Lowered(): State {
    State(1, 10.0, [Gesture(7, 0, 0, 1, None, false, true, None, false, false, None, false, false)], [0], [], None, false, 0,
          Some(Flight(Down(0, 0, 1), 0)), 0, 0, [TookDown(0, 7, 0, 1), Sent(Down(0, 0, 1))])
  }

  function Cleared(): State {
    Lowered().(gestures := [Lowered().gestures[0].(removed := true)], active := [], generation := 1)
  }

  function LoweredAgain(): State {
    var second := Gesture(8, 0, 1, 2, None, true, false, None, false, false, None, false, false);
    Cleared().(gestures := Cleared().gestures + [second], active := [1], queue := [1], trace := Cleared().trace + [TookDown(1, 8, 0, 2)])
  }

  function Stuck(): State {
    LoweredAgain().(inflight := None, trace := LoweredAgain().trace + [Done(Down(0, 0, 1))])
  }

  /** With `clear` the wakeup can be lost: a pointer that goes down after a clear, while an older send is in
      flight, stays queued when that send finishes. */
  lemma ClearCanLoseAWakeup() returns (s: State)
    ensures s == Run(Initial(1, 10.0), [EvDown(7, 1, 0.0), EvClear, EvDown(8, 2, 1.0), EvDone(2.0)])
    ensures s.inflight.None? && s.Wf() && s.queue != [] && !Stale(s, s.queue[0]) && !s.gestures[s.queue[0]].downDispatched
  {
    s := Stuck();
    FirstDown();
    Clearing();
    DownAgain();
    LastDone();
    RunOfFour(Initial(1, 10.0), Lowered(), Cleared(), LoweredAgain(), [EvDown(7, 1, 0.0), EvClear, EvDown(8, 2, 1.0), EvDone(2.0)]);
  }

  lemma RunOfFour(s0: State, s1: State, s2: State, s3: State, events: seq<Event>)
    requires |events| == 4 && s0.Wf() && s1.Wf() && s2.Wf() && s3.Wf()
    requires s1 == Step(s0, events[0]) && s2 == Step(s1, events[1]) && s3 == Step(s2, events[2])
    ensures Run(s0, events) == Step(s3, events[3])
  {
    assert Run(s0, events) == Run(s1, events[1..]);
    assert Run(s1, events[1..]) == Run(s2, events[1..][1..]);
    assert Run(s2, events[1..][1..]) == Run(s3, events[1..][1..][1..]);
    StepKeepsWf(s3, events[3]);
    assert events[1..][1..][1..][1..] == [];
  }

  lemma FirstDown()
    ensures Step(Initial(1, 10.0), EvDown(7, 1, 0.0)) == Lowered()
  {
    var began := Opened(Initial(1, 10.0), 7, 0, 1);
    var gesture := began.gestures[0].(edgeQueued := false);
    assert FreeSlot([], [], 0, 1) == Some(0);
    assert ([] + [gesture])[0 := gesture.(edgeQueued := true)] == began.gestures;
    assert [] + [0] == began.queue;
    assert began.gestures[0 := gesture][0 := gesture.(downDispatched := true)] == [gesture.(downDispatched := true)];
    assert [0][1..] == [] && [] + [TookDown(0, 7, 0, 1)] + [Sent(Down(0, 0, 1))] == [TookDown(0, 7, 0, 1), Sent(Down(0, 0, 1))];
  }

  lemma Clearing()
    ensures Step(Lowered(), EvClear) == Cleared()
  {
    assert RemoveAll(Lowered().gestures, [0]) == Cleared().gestures;
  }

  lemma DownAgain()
    ensures Step(Cleared(), EvDown(8, 2, 1.0)) == LoweredAgain()
  {
    var second := LoweredAgain().gestures[1];
    assert FreeSlot(Cleared().gestures, [], 0, 1) == Some(0);
    assert (Cleared().gestures + [second.(edgeQueued := false)])[1 := second] == LoweredAgain().gestures;
  }

  lemma LastDone()
    ensures Step(LoweredAgain(), EvDone(2.0)) == Stuck()
  {
    assert LoweredAgain().trace + [Done(Down(0, 0, 1))] == Stuck().trace;
  }

  /** A send that finishes after a clear chooses nothing: what is idle afterwards is quiet exactly when
      nothing was accepted meanwhile that a send would have to carry. */
  lemma StaleCompletionIsQuietIff(s: State, now: real)
    requires s.Wf() && s.inflight.Some? && s.inflight.value.generation != s.generation
    ensures var t := Step(s, EvDone(now));
            && t == s.(inflight := None, trace := s.trace + [Done(s.inflight.value.packet)])
            && (Quiet(t) <==> s.queue == [] && s.cancelPending.None?
                              && forall g :: g in s.active ==> s.gestures[g].downDispatched && !s.gestures[g].closing
                                                               && (s.gestures[g].pending.Some? ==> s.gestures[g].timer))
  {
  }
}
