/** Every step of the pointer transport keeps its invariant. */
module PointerProofs {
  import opened Wrappers
  import opened PointerSteps
  import opened PointerInvariant

  // ---------------------------------------------------------------------------------------------
  // Sequences
  // ---------------------------------------------------------------------------------------------

  /** A longer sequence still has the subsequence. */
  lemma SubsequenceExtend<T>(a: seq<T>, b: seq<T>, x: T)
    requires Subsequence(a, b) && (a != [] ==> Last(a) != x)
    ensures Subsequence(a, b + [x])
  {
    assert (b + [x])[..|b + [x]| - 1] == b;
  }

  /** The last element may be taken when it has not been taken yet. */
  lemma SubsequenceTake<T>(a: seq<T>, b: seq<T>)
    requires Subsequence(a, b) && b != [] && (a != [] ==> Last(a) != Last(b))
    ensures Subsequence(a + [Last(b)], b)
  {
    assert (a + [Last(b)])[..|a + [Last(b)]| - 1] == a;
  }

  lemma {:induction false} WithoutDistinct(a: seq<nat>, g: nat)
    requires Distinct(a)
    ensures Distinct(Without(a, g))
  {
    if a != [] {
      var rest := Without(a[1..], g);
      WithoutDistinct(a[1..], g);
      if a[0] != g {
        forall i, j | 0 <= i < j < |[a[0]] + rest| ensures ([a[0]] + rest)[i] != ([a[0]] + rest)[j] {
          if i == 0 {
            assert rest[j - 1] in rest && rest[j - 1] in a[1..];
          } else {
            assert rest[i - 1] != rest[j - 1];
          }
        }
      }
    }
  }

  // ---------------------------------------------------------------------------------------------
  // Frames
  // ---------------------------------------------------------------------------------------------

  /** A gesture whose own moves, flight and packet are untouched keeps what is known of its moves. */
  lemma MovesFrame(s: State, t: State, g: nat)
    requires g < |s.gestures| && g < |t.gestures| && MovesOk(s, g)
    requires Takes(t.trace, g) == Takes(s.trace, g) && Sends(t.trace, g) == Sends(s.trace, g)
    requires t.gestures[g].pending == s.gestures[g].pending
    requires FliesMove(s, g) == FliesMove(t, g) && (FliesMove(s, g) ==> s.inflight == t.inflight)
    requires g in t.active && !InCancel(t) ==> g in s.active && !InCancel(s)
    ensures MovesOk(t, g)
  {
  }

  /** What the trace has shown stays true when nothing is recorded and nothing sent changes hands. */
  lemma TraceFrame(s: State, t: State)
    requires s.Wf() && t.Wf() && TraceOk(s) && t.trace == s.trace && t.inflight == s.inflight && s.motions <= t.motions
    requires Holding(t) == Holding(s) && |s.gestures| <= |t.gestures|
    requires forall g :: 0 <= g < |s.gestures| && g in t.active ==> g in s.active && (s.gestures[g].closing ==> t.gestures[g].closing)
    ensures TraceOk(t)
  {
    forall k | 0 <= k < |t.trace| ensures ActOk(t, t.trace[k]) { assert ActOk(s, s.trace[k]); }
  }

  /** A call other than a move shows nothing new of the sends. */
  lemma CallRecorded(s: State, t: State, act: Act)
    requires s.Wf() && t.Wf() && TraceOk(s) && t.trace == s.trace + [act] && t.inflight == s.inflight && s.motions <= t.motions
    requires act.TookDown? || act.TookUp? || act.TookCancel?
    requires Holding(t) == Holding(s) && |s.gestures| <= |t.gestures|
    requires forall g :: 0 <= g < |s.gestures| && g in t.active ==> g in s.active && (s.gestures[g].closing ==> t.gestures[g].closing)
    ensures TraceOk(t)
    ensures forall g :: Takes(t.trace, g) == Takes(s.trace, g) && Sends(t.trace, g) == Sends(s.trace, g)
  {
    Snoc(s.trace, act);
    ActsGrow(s, t, act);
  }

  /** One more act in the trace. */
  lemma ActsGrow(s: State, t: State, act: Act)
    requires s.Wf() && t.Wf() && t.trace == s.trace + [act] && ActOk(t, act) && s.motions <= t.motions && |s.gestures| <= |t.gestures|
    requires forall k :: 0 <= k < |s.trace| ==> ActOk(s, s.trace[k])
    requires forall g :: 0 <= g < |s.gestures| && g in t.active ==> g in s.active && (s.gestures[g].closing ==> t.gestures[g].closing)
    ensures forall k :: 0 <= k < |t.trace| ==> ActOk(t, t.trace[k])
  {
    forall k | 0 <= k < |t.trace| ensures ActOk(t, t.trace[k]) {
      if k < |s.trace| { assert t.trace[k] == s.trace[k] && ActOk(s, s.trace[k]); }
    }
  }

  // ---------------------------------------------------------------------------------------------
  // Choosing a packet
  // ---------------------------------------------------------------------------------------------

  lemma LaunchCancel(s: State)
    requires Core(s) && s.inflight.None? && s.cancelPending.Some?
    ensures Core(Launch(s.(cancelPending := None), Cancel(s.cancelPending.value)))
  {
    var t := Launch(s.(cancelPending := None), Cancel(s.cancelPending.value));
    Snoc(s.trace, Sent(Cancel(s.cancelPending.value)));
    ActsGrow(s, t, Sent(Cancel(s.cancelPending.value)));
    forall g | 0 <= g < |t.gestures| ensures MovesOk(t, g) { assert MovesOk(s, g); }
    forall g | 0 <= g < |t.gestures| ensures BasicOk(t, g) { assert BasicOk(s, g); }
  }

  lemma DropStale(s: State)
    requires Core(s) && s.queue != [] && Stale(s, s.queue[0])
    ensures var g := s.queue[0]; Core(Put(s, g, s.gestures[g].(edgeQueued := false)).(queue := s.queue[1..]))
  {
    var g := s.queue[0];
    var t := Put(s, g, s.gestures[g].(edgeQueued := false)).(queue := s.queue[1..]);
    assert BasicOk(s, g);
    DropStaleTrace(s, t);
    hide MovesOk, TraceOk, Holding, Takes, Sends;
    forall x | 0 <= x < |t.gestures| ensures BasicOk(t, x) { assert BasicOk(s, x); }
    if !InCancel(t) {
      forall x | x in t.active ensures EdgeOk(t, x) && MoveWaits(t, x) {
        assert EdgeOk(s, x) && x != g;
        assert x in s.queue <==> x in t.queue;
      }
    }
  }

  lemma DropStaleTrace(s: State, t: State)
    requires Core(s) && s.queue != [] && Stale(s, s.queue[0])
    requires t == Put(s, s.queue[0], s.gestures[s.queue[0]].(edgeQueued := false)).(queue := s.queue[1..])
    ensures TraceOk(t) && forall x :: 0 <= x < |t.gestures| ==> MovesOk(t, x)
  {
    hide EdgesOk, Takes, Sends;
    forall x | 0 <= x < |t.gestures| ensures MovesOk(t, x) { MovesFrame(s, t, x); }
    assert Holding(t) == Holding(s);
    TraceFrame(s, t);
  }

  // Down -----------------------------------------------------------------------------------------

  ghost predicate HeadReady(s: State) {
    Core(s) && s.inflight.None? && s.cancelPending.None? && s.queue != [] && !Stale(s, s.queue[0])
  }

  function AfterDown(s: State): State
    requires s.Wf() && s.queue != []
  {
    var g := s.queue[0];
    Launch(Put(s, g, s.gestures[g].(edgeQueued := false, downDispatched := true)).(queue := s.queue[1..]),
           Down(g, s.gestures[g].slot, s.gestures[g].down))
  }

  lemma AfterDownEdges(s: State)
    requires HeadReady(s) && !s.gestures[s.queue[0]].downDispatched
    ensures Shape(AfterDown(s)) && EdgesOk(AfterDown(s))
  {
    var g, t := s.queue[0], AfterDown(s);
    assert BasicOk(s, g);
    forall x | 0 <= x < |t.gestures| ensures BasicOk(t, x) { assert BasicOk(s, x); }
    forall x | x in t.active ensures EdgeOk(t, x) && MoveWaits(t, x) {
      assert EdgeOk(s, x) && MoveWaits(s, x);
      assert x != g ==> (x in s.queue <==> x in t.queue);
    }
  }

  lemma AfterDownTrace(s: State)
    requires HeadReady(s) && !s.gestures[s.queue[0]].downDispatched
    ensures TraceOk(AfterDown(s))
  {
    var g, t := s.queue[0], AfterDown(s);
    assert BasicOk(s, g);
    Snoc(s.trace, Sent(t.inflight.value.packet));
    ActsGrow(s, t, Sent(t.inflight.value.packet));
    HoldingDown(s, t, g);
  }

  lemma LaunchDown(s: State)
    requires HeadReady(s) && !s.gestures[s.queue[0]].downDispatched
    ensures Core(AfterDown(s))
  {
    var t := AfterDown(s);
    AfterDownEdges(s);
    AfterDownTrace(s);
    Snoc(s.trace, Sent(t.inflight.value.packet));
    forall x | 0 <= x < |t.gestures| ensures MovesOk(t, x) { MovesFrame(s, t, x); }
  }

  lemma HoldingDown(s: State, t: State, g: nat)
    requires Shape(s) && t.Wf() && g in s.active && !s.gestures[g].downDispatched && s.inflight.None? && FliesDown(t, g)
    requires t.active == s.active && |t.gestures| == |s.gestures|
    requires forall x :: 0 <= x < |s.gestures| ==> t.gestures[x].slot == s.gestures[x].slot && t.gestures[x].downDispatched == (s.gestures[x].downDispatched || x == g)
    ensures Holding(t) == Holding(s) + {Hold(s.gestures[g].slot, g)} && Free(Holding(s), s.gestures[g].slot)
  {
    var k :| 0 <= k < |s.active| && s.active[k] == g;
    forall x ensures x in Holding(t) <==> x in Holding(s) + {Hold(s.gestures[g].slot, g)} {
      if x == Hold(s.gestures[g].slot, g) { assert Hold(t.gestures[t.active[k]].slot, t.active[k]) == x; }
      if x in Holding(s) {
        var i :| 0 <= i < |s.active| && s.gestures[s.active[i]].downDispatched && Hold(s.gestures[s.active[i]].slot, s.active[i]) == x;
        assert t.gestures[t.active[i]].downDispatched && !FliesUp(t, t.active[i]);
      }
    }
  }

  // Up -------------------------------------------------------------------------------------------

  function AfterUp(s: State): State
    requires s.Wf() && s.queue != [] && s.gestures[s.queue[0]].up.Some?
  {
    var g := s.queue[0];
    Launch(Put(s, g, s.gestures[g].(edgeQueued := false)).(queue := s.queue[1..]), Up(g, s.gestures[g].slot, s.gestures[g].up.value))
  }

  ghost predicate HeadLifts(s: State) {
    HeadReady(s) && s.gestures[s.queue[0]].downDispatched && s.gestures[s.queue[0]].up.Some? && s.gestures[s.queue[0]].pending.None?
  }

  lemma AfterUpEdges(s: State)
    requires HeadLifts(s)
    ensures Shape(AfterUp(s)) && EdgesOk(AfterUp(s))
  {
    var g, t := s.queue[0], AfterUp(s);
    assert BasicOk(s, g);
    forall x | 0 <= x < |t.gestures| ensures BasicOk(t, x) { assert BasicOk(s, x); }
    forall x | x in t.active ensures EdgeOk(t, x) && MoveWaits(t, x) {
      assert EdgeOk(s, x) && MoveWaits(s, x);
      assert x != g ==> (x in s.queue <==> x in t.queue);
    }
  }

  lemma HoldingUp(s: State, t: State, g: nat)
    requires Shape(s) && t.Wf() && g in s.active && s.gestures[g].downDispatched && s.inflight.None? && FliesUp(t, g)
    requires t.active == s.active && |t.gestures| == |s.gestures|
    requires forall x :: 0 <= x < |s.gestures| ==> t.gestures[x].slot == s.gestures[x].slot && t.gestures[x].downDispatched == s.gestures[x].downDispatched
    ensures Holding(t) == Holding(s) - {Hold(s.gestures[g].slot, g)} && Hold(s.gestures[g].slot, g) in Holding(s)
  {
    var k :| 0 <= k < |s.active| && s.active[k] == g;
    assert Hold(s.gestures[s.active[k]].slot, s.active[k]) in Holding(s);
    forall x ensures x in Holding(t) <==> x in Holding(s) - {Hold(s.gestures[g].slot, g)} {
      if x in Holding(s) && x.gesture != g {
        var i :| 0 <= i < |s.active| && s.gestures[s.active[i]].downDispatched && Hold(s.gestures[s.active[i]].slot, s.active[i]) == x;
        assert t.gestures[t.active[i]].downDispatched && !FliesUp(t, t.active[i]);
      }
      if x in Holding(t) {
        var i :| 0 <= i < |t.active| && t.gestures[t.active[i]].downDispatched && !FliesUp(t, t.active[i]) && Hold(t.gestures[t.active[i]].slot, t.active[i]) == x;
        assert s.active[i] in s.active && s.active[i] != g && Hold(s.gestures[s.active[i]].slot, s.active[i]) == x;
      }
    }
  }

  lemma AfterUpTrace(s: State)
    requires HeadLifts(s)
    ensures TraceOk(AfterUp(s))
  {
    var g, t := s.queue[0], AfterUp(s);
    assert BasicOk(s, g) && EdgeOk(s, g) && MovesOk(s, g);
    Snoc(s.trace, Sent(t.inflight.value.packet));
    ActsGrow(s, t, Sent(t.inflight.value.packet));
    HoldingUp(s, t, g);
  }

  lemma LaunchUp(s: State)
    requires HeadLifts(s)
    ensures Core(AfterUp(s))
  {
    var t := AfterUp(s);
    AfterUpEdges(s);
    AfterUpTrace(s);
    Snoc(s.trace, Sent(t.inflight.value.packet));
    forall x | 0 <= x < |t.gestures| ensures MovesOk(t, x) { MovesFrame(s, t, x); }
  }

  // Move -----------------------------------------------------------------------------------------

  /** The launch of the pending move of a gesture, by the edge queue or by the scan. */
  function AfterMove(s: State, g: nat, now: real): State
    requires g < |s.gestures| && s.gestures[g].pending.Some?
  {
    Launch(Put(s, g, s.gestures[g].(moveReady := false, lastMoveAt := Some(now))), Move(g, s.gestures[g].slot, s.gestures[g].pending.value))
  }

  ghost predicate MoveDue(s: State, g: nat) {
    && Core(s) && s.inflight.None? && s.cancelPending.None?
    && g in s.active && g < |s.gestures| && s.gestures[g].downDispatched && s.gestures[g].pending.Some?
  }

  lemma AfterMoveEdges(s: State, g: nat, now: real)
    requires MoveDue(s, g)
    ensures Shape(AfterMove(s, g, now)) && EdgesOk(AfterMove(s, g, now))
  {
    var t := AfterMove(s, g, now);
    forall x | 0 <= x < |t.gestures| ensures BasicOk(t, x) { assert BasicOk(s, x); }
    forall x | x in t.active ensures EdgeOk(t, x) && MoveWaits(t, x) { assert EdgeOk(s, x) && MoveWaits(s, x); }
  }

  lemma AfterMoveTrace(s: State, g: nat, now: real)
    requires MoveDue(s, g)
    ensures TraceOk(AfterMove(s, g, now))
  {
    var t := AfterMove(s, g, now);
    Snoc(s.trace, Sent(t.inflight.value.packet));
    ActsGrow(s, t, Sent(t.inflight.value.packet));
    assert Holding(t) == Holding(s);
    var k :| 0 <= k < |s.active| && s.active[k] == g;
    assert Hold(s.gestures[s.active[k]].slot, s.active[k]) in Holding(s);
  }

  lemma LaunchMove(s: State, g: nat, now: real)
    requires MoveDue(s, g)
    ensures Core(AfterMove(s, g, now))
  {
    var t := AfterMove(s, g, now);
    AfterMoveEdges(s, g, now);
    AfterMoveTrace(s, g, now);
    Snoc(s.trace, Sent(t.inflight.value.packet));
    forall x | 0 <= x < |t.gestures| ensures MovesOk(t, x) {
      assert MovesOk(s, x);
      if x != g { MovesFrame(s, t, x); } else { SubsequenceTake(Sends(s.trace, g), Takes(s.trace, g)); }
    }
  }

  // Pump -----------------------------------------------------------------------------------------

  /** The head of the queue, once stale entries are dropped, is launched; or the queue is empty. */
  lemma EdgeKeeps(s: State, now: real)
    requires Core(s) && s.inflight.None? && s.cancelPending.None?
    ensures var (t, edge) := NextEdge(s, now);
            if edge.Some? then Core(Launch(t, edge.value)) else Core(t) && t.inflight.None? && t.cancelPending.None? && t.queue == []
    decreases |s.queue|
  {
    if s.queue != [] {
      var g := s.queue[0];
      assert BasicOk(s, g);
      if Stale(s, g) {
        DropStale(s);
        EdgeKeeps(Put(s, g, s.gestures[g].(edgeQueued := false)).(queue := s.queue[1..]), now);
      } else {
        assert EdgeOk(s, g);
        if !s.gestures[g].downDispatched {
          var first, last := s.gestures[g].(edgeQueued := false), s.gestures[g].(edgeQueued := false, downDispatched := true);
          assert s.gestures[g := first][g := last] == s.gestures[g := last];
          LaunchDown(s);
        } else if s.gestures[g].up.Some? && s.gestures[g].pending.Some? { LaunchMove(s, g, now); }
        else { LaunchUp(s); }
      }
    }
  }

  lemma EdgeFields(s: State, now: real)
    requires s.Wf()
    ensures var (t, edge) := NextEdge(s, now); t.inflight == s.inflight && t.cancelPending == s.cancelPending
    decreases |s.queue|
  {
  }

  /** Choosing the next packet restores the invariant, and leaves nothing idle that could be sent. */
  lemma PumpKeeps(s: State, now: real)
    requires Core(s)
    ensures Inv(Pump(s, now))
  {
    if s.inflight.None? {
      EdgeFields(s, now);
      NextEdgeKeepsWf(s, now);
      if s.cancelPending.Some? {
        LaunchCancel(s);
      } else {
        EdgeKeeps(s, now);
        var (t, edge) := NextEdge(s, now);
        if edge.None? {
          var g := Select(t.gestures, t.active, None);
          if g.Some? {
            assert EdgeOk(t, g.value);
            LaunchMove(t, g.value, now);
          } else {
            IdleIsQuiet(t);
          }
        }
      }
    }
  }

  lemma IdleIsQuiet(t: State)
    requires Core(t) && t.inflight.None? && t.cancelPending.None? && t.queue == []
    requires forall g :: g in t.active ==> !Ready(t.gestures[g])
    ensures Quiet(t)
  {
    forall g | g in t.active
      ensures t.gestures[g].downDispatched && !t.gestures[g].closing && (t.gestures[g].pending.Some? ==> t.gestures[g].timer)
    {
      assert BasicOk(t, g) && EdgeOk(t, g) && MoveWaits(t, g) && !Ready(t.gestures[g]);
    }
  }

  // ---------------------------------------------------------------------------------------------
  // Calls
  // ---------------------------------------------------------------------------------------------

  // pointerDown ----------------------------------------------------------------------------------

  function Opened(s: State, pointer: int, slot: nat, body: Body): State {
    var gesture := Gesture(pointer, slot, s.generation, body, None, true, false, None, false, false, None, false, false);
    Opening(s, gesture).(queue := s.queue + [|s.gestures|])
  }

  ghost predicate CanOpen(s: State, pointer: int, slot: nat) {
    && Core(s) && !s.cancelling && slot < s.maxPointers && !SlotUsed(s.gestures, s.active, slot)
    && forall i :: 0 <= i < |s.active| ==> s.gestures[s.active[i]].pointer != pointer
  }

  lemma OpenedShape(s: State, pointer: int, slot: nat, body: Body)
    requires CanOpen(s, pointer, slot)
    ensures Shape(Opened(s, pointer, slot, body))
  {
    var t := Opened(s, pointer, slot, body);
    forall x | 0 <= x < |t.gestures| ensures BasicOk(t, x) { if x < |s.gestures| { assert BasicOk(s, x); } }
    forall i | 0 <= i < |s.active| ensures s.active[i] < |s.gestures| {}
    forall a, b | a in t.active && b in t.active && a != b
      ensures t.gestures[a].slot != t.gestures[b].slot && t.gestures[a].pointer != t.gestures[b].pointer
    {
      if a == |s.gestures| || b == |s.gestures| {
        var old_ := if a == |s.gestures| then b else a;
        assert old_ in s.active;
        var i :| 0 <= i < |s.active| && s.active[i] == old_;
        assert s.gestures[s.active[i]].slot != slot;
      } else {
        assert a in s.active && b in s.active;
      }
    }
  }

  lemma OpenedEdges(s: State, pointer: int, slot: nat, body: Body)
    requires CanOpen(s, pointer, slot)
    ensures Opened(s, pointer, slot, body).Wf() && EdgesOk(Opened(s, pointer, slot, body))
  {
    var t := Opened(s, pointer, slot, body);
    if !InCancel(t) {
      forall x | x in t.active ensures x < |t.gestures| && EdgeOk(t, x) && MoveWaits(t, x) {
        if x < |s.gestures| { assert x in s.active && EdgeOk(s, x) && MoveWaits(s, x); }
        else { assert t.queue[|s.queue|] == x; }
      }
    }
  }

  lemma OpenedTrace(s: State, pointer: int, slot: nat, body: Body)
    requires CanOpen(s, pointer, slot) && Opened(s, pointer, slot, body).Wf()
    ensures TraceOk(Opened(s, pointer, slot, body))
    ensures forall g :: 0 <= g < |s.gestures| + 1 ==> MovesOk(Opened(s, pointer, slot, body), g)
  {
    var t, g := Opened(s, pointer, slot, body), |s.gestures|;
    HoldingOpened(s, t);
    NothingOf(s, s.trace, g);
    CallRecorded(s, t, TookDown(g, pointer, slot, body));
    forall x | 0 <= x < |t.gestures| ensures MovesOk(t, x) { if x < g { MovesFrame(s, t, x); } }
  }

  lemma HoldingOpened(s: State, t: State)
    requires s.Wf() && t.Wf() && t.inflight == s.inflight && t.active == s.active + [|s.gestures|]
    requires |t.gestures| == |s.gestures| + 1 && t.gestures[..|s.gestures|] == s.gestures && !t.gestures[|s.gestures|].downDispatched
    ensures Holding(t) == Holding(s)
  {
    forall x ensures x in Holding(t) <==> x in Holding(s) {
      if x in Holding(s) {
        var i :| 0 <= i < |s.active| && s.gestures[s.active[i]].downDispatched && !FliesUp(s, s.active[i]) && Hold(s.gestures[s.active[i]].slot, s.active[i]) == x;
        assert t.active[i] == s.active[i] && t.gestures[t.active[i]] == s.gestures[s.active[i]];
      }
      if x in Holding(t) {
        var i :| 0 <= i < |t.active| && t.gestures[t.active[i]].downDispatched && !FliesUp(t, t.active[i]) && Hold(t.gestures[t.active[i]].slot, t.active[i]) == x;
        assert i < |s.active| && s.gestures[s.active[i]] == t.gestures[t.active[i]];
      }
    }
  }

  /** A gesture that does not exist yet has no moves. */
  lemma {:induction false} NothingOf(s: State, trace: seq<Act>, g: nat)
    requires g >= |s.gestures| && forall k :: 0 <= k < |trace| ==> ActOk(s, trace[k])
    ensures Takes(trace, g) == [] && Sends(trace, g) == []
    decreases |trace|
  {
    if trace != [] {
      assert ActOk(s, trace[|trace| - 1]);
      NothingOf(s, trace[..|trace| - 1], g);
    }
  }

  lemma DownKeeps(s: State, pointer: int, body: Body, now: real)
    requires Inv(s)
    ensures Inv(Step(s, EvDown(pointer, body, now)))
  {
    if !s.cancelling && Find(s.gestures, s.active, pointer).None? {
      var slot := FreeSlot(s.gestures, s.active, 0, s.maxPointers);
      if slot.Some? {
        OpenedShape(s, pointer, slot.value, body);
        OpenedEdges(s, pointer, slot.value, body);
        OpenedTrace(s, pointer, slot.value, body);
        var t := Opened(s, pointer, slot.value, body);
        PumpKeeps(t, now);
        DownIsOpened(s, pointer, slot.value, body, now);
      }
    }
  }

  lemma DownIsOpened(s: State, pointer: int, slot: nat, body: Body, now: real)
    requires s.Wf() && !s.cancelling && Find(s.gestures, s.active, pointer).None? && s.cancelPending.None?
    requires FreeSlot(s.gestures, s.active, 0, s.maxPointers) == Some(slot)
    ensures Opened(s, pointer, slot, body).Wf()
    ensures PointerDown(s, pointer, body, now).0 == Pump(Opened(s, pointer, slot, body), now)
  {
    hide Pump;
    var t := Opened(s, pointer, slot, body);
    var gesture := Gesture(pointer, slot, s.generation, body, None, false, false, None, false, false, None, false, false);
    assert (s.gestures + [gesture])[|s.gestures| := gesture.(edgeQueued := true)] == t.gestures;
  }

  // pointerMove ----------------------------------------------------------------------------------

  /** An accepted move, with the ready mark or the timer that will send it. */
  function Pended(s: State, g: nat, body: Body, ready: bool, timer: bool): State
    requires g < |s.gestures|
  {
    var motion := Motion(s.motions, body);
    Put(s, g, s.gestures[g].(pending := Some(motion), moveReady := ready, timer := timer))
    .(motions := s.motions + 1, trace := s.trace + [Took(g, motion)])
  }

  ghost predicate CanPend(s: State, g: nat) {
    Core(s) && g in s.active && g < |s.gestures| && !s.gestures[g].closing && !s.gestures[g].removed
  }

  lemma PendedEdges(s: State, g: nat, body: Body, ready: bool, timer: bool)
    requires CanPend(s, g) && (ready || timer)
    ensures Shape(Pended(s, g, body, ready, timer)) && EdgesOk(Pended(s, g, body, ready, timer))
  {
    var t := Pended(s, g, body, ready, timer);
    forall x | 0 <= x < |t.gestures| ensures BasicOk(t, x) { assert BasicOk(s, x); }
    if !InCancel(t) {
      forall x | x in t.active ensures EdgeOk(t, x) && MoveWaits(t, x) { assert EdgeOk(s, x) && MoveWaits(s, x); }
    }
  }

  lemma PendedTrace(s: State, g: nat, body: Body, ready: bool, timer: bool)
    requires CanPend(s, g)
    ensures Pended(s, g, body, ready, timer).Wf() && TraceOk(Pended(s, g, body, ready, timer))
  {
    var t := Pended(s, g, body, ready, timer);
    var act := Took(g, Motion(s.motions, body));
    Snoc(s.trace, act);
    ActsGrow(s, t, act);
    assert Holding(t) == Holding(s);
    forall k | 0 <= k < |s.trace| ensures !IsUp(s.trace[k], g) { assert ActOk(s, s.trace[k]); }
  }

  lemma PendedMoves(s: State, g: nat, body: Body, ready: bool, timer: bool, x: nat)
    requires CanPend(s, g) && x < |s.gestures|
    ensures MovesOk(Pended(s, g, body, ready, timer), x)
  {
    var t := Pended(s, g, body, ready, timer);
    var motion := Motion(s.motions, body);
    assert MovesOk(s, x) && TraceOk(s) && s.Wf();
    Snoc(s.trace, Took(g, motion));
    if x == g {
      PendedOwn(s, t, g, motion);
    } else {
      hide Core, MovesOk, TraceOk, UpsOk, Takes, Sends;
      MovesFrame(s, t, x);
    }
  }

  /** The accepted move is the last one of its gesture, and has not been sent. */
  lemma PendedOwn(s: State, t: State, g: nat, motion: Motion)
    requires s.Wf() && g < |s.gestures| && g < |t.gestures| && MovesOk(s, g) && TraceOk(s)
    requires t.gestures[g].pending == Some(motion) && motion.id == s.motions && t.inflight == s.inflight
    requires Takes(t.trace, g) == Takes(s.trace, g) + [motion] && Sends(t.trace, g) == Sends(s.trace, g)
    ensures MovesOk(t, g)
  {
    hide Takes, Sends, Subsequence, UpsOk, Watching, Holding;
    TakesBelow(s, s.trace, g);
    if Sends(s.trace, g) != [] { SentAreTaken(s, g); }
    SubsequenceExtend(Sends(s.trace, g), Takes(s.trace, g), motion);
  }

  /** A move that was sent had been accepted, so its number is below the next one. */
  lemma SentAreTaken(s: State, g: nat)
    requires s.Wf() && TraceOk(s) && g < |s.gestures| && MovesOk(s, g) && Sends(s.trace, g) != []
    ensures Last(Sends(s.trace, g)).id < s.motions
  {
    SubsequenceMember(Sends(s.trace, g), Takes(s.trace, g));
    TakesBelow(s, s.trace, g);
  }

  lemma {:induction false} SubsequenceMember<T>(a: seq<T>, b: seq<T>)
    requires Subsequence(a, b) && a != []
    ensures Last(a) in b
    decreases |b|
  {
    if Last(a) != Last(b) { SubsequenceMember(a, b[..|b| - 1]); }
  }

  lemma {:induction false} TakesBelow(s: State, trace: seq<Act>, g: nat)
    requires forall k :: 0 <= k < |trace| ==> ActOk(s, trace[k])
    ensures forall m :: m in Takes(trace, g) ==> m.id < s.motions
    decreases |trace|
  {
    if trace != [] {
      assert ActOk(s, trace[|trace| - 1]);
      TakesBelow(s, trace[..|trace| - 1], g);
    }
  }

  lemma PendedKeeps(s: State, g: nat, body: Body, ready: bool, timer: bool)
    requires CanPend(s, g) && (ready || timer)
    ensures Core(Pended(s, g, body, ready, timer))
  {
    PendedEdges(s, g, body, ready, timer);
    PendedTrace(s, g, body, ready, timer);
    forall x | 0 <= x < |s.gestures| ensures MovesOk(Pended(s, g, body, ready, timer), x) { PendedMoves(s, g, body, ready, timer, x); }
  }

  lemma MoveKeeps(s: State, pointer: int, body: Body, now: real)
    requires Inv(s)
    ensures Inv(Step(s, EvMove(pointer, body, now)))
  {
    var found := Find(s.gestures, s.active, pointer);
    if found.Some? && !s.gestures[found.value].closing && !s.gestures[found.value].removed {
      var g := found.value;
      var due := Due(s.gestures[g], s.interval, now);
      var t := Pended(s, g, body, due || s.gestures[g].moveReady, !due || s.gestures[g].timer);
      PendedKeeps(s, g, body, due || s.gestures[g].moveReady, !due || s.gestures[g].timer);
      PendedIs(s, g, body, due);
      if due { PumpKeeps(t, now); } else { PendedQuiet(s, t, g); }
    }
  }

  lemma PendedIs(s: State, g: nat, body: Body, due: bool)
    requires g < |s.gestures|
    ensures var s1 := AcceptMove(s, g, body);
            Pended(s, g, body, due || s.gestures[g].moveReady, !due || s.gestures[g].timer)
            == if due then Put(s1, g, s1.gestures[g].(moveReady := true)) else Put(s1, g, s1.gestures[g].(timer := true))
  {
  }

  lemma PendedQuiet(s: State, t: State, g: nat)
    requires s.Wf() && t.Wf() && Quiet(s) && g < |s.gestures| && t.inflight == s.inflight && t.queue == s.queue && t.cancelPending == s.cancelPending
    requires t.active == s.active && |t.gestures| == |s.gestures| && t.gestures == s.gestures[g := t.gestures[g]] && t.gestures[g].timer
    requires t.gestures[g].downDispatched == s.gestures[g].downDispatched && t.gestures[g].closing == s.gestures[g].closing
    ensures Quiet(t)
  {
  }

  // timers ---------------------------------------------------------------------------------------

  /** A gesture whose own bookkeeping of its moves changes, and nothing else. */
  lemma TouchUp(s: State, g: nat, gesture: Gesture)
    requires Core(s) && g < |s.gestures| && (s.gestures[g].removed ==> !gesture.timer)
    requires gesture == s.gestures[g].(moveReady := gesture.moveReady, timer := gesture.timer)
    requires g in s.active && !InCancel(s) ==> MoveWaits(Put(s, g, gesture), g)
    ensures Core(Put(s, g, gesture))
  {
    var t := Put(s, g, gesture);
    TouchUpEdges(s, g, gesture);
    forall x | 0 <= x < |t.gestures| ensures MovesOk(t, x) { MovesFrame(s, t, x); }
    assert Holding(t) == Holding(s);
    TraceFrame(s, t);
  }

  lemma TouchUpEdges(s: State, g: nat, gesture: Gesture)
    requires Shape(s) && EdgesOk(s) && g < |s.gestures| && (s.gestures[g].removed ==> !gesture.timer)
    requires gesture == s.gestures[g].(moveReady := gesture.moveReady, timer := gesture.timer)
    requires g in s.active && !InCancel(s) ==> MoveWaits(Put(s, g, gesture), g)
    ensures Shape(Put(s, g, gesture)) && EdgesOk(Put(s, g, gesture))
  {
    var t := Put(s, g, gesture);
    forall x | 0 <= x < |t.gestures| ensures BasicOk(t, x) { assert BasicOk(s, x); }
    if !InCancel(t) {
      forall x | x in t.active ensures EdgeOk(t, x) && MoveWaits(t, x) { assert EdgeOk(s, x) && MoveWaits(s, x); }
    }
  }

  lemma TimerKeeps(s: State, g: nat, now: real)
    requires Inv(s) && g < |s.gestures|
    ensures Inv(Step(s, EvTimer(g, now)))
  {
    var gesture := s.gestures[g];
    if gesture.timer {
      assert BasicOk(s, g);
      if !gesture.closing && gesture.pending.Some? {
        TouchUp(s, g, gesture.(timer := false, moveReady := true));
        PumpKeeps(Put(s, g, gesture.(timer := false, moveReady := true)), now);
      } else {
        TouchUp(s, g, gesture.(timer := false));
      }
    }
  }

  // pointerUp ------------------------------------------------------------------------------------

  /** A closing gesture, queued for its up unless its down is still queued. */
  function Closed(s: State, g: nat, body: Body, queued: bool): State
    requires g < |s.gestures|
  {
    var gesture := s.gestures[g];
    Put(s, g, gesture.(closing := true, up := Some(body), timer := false, moveReady := gesture.pending.Some?, edgeQueued := true))
    .(queue := if queued then s.queue + [g] else s.queue, trace := s.trace + [TookUp(g, body)])
  }

  ghost predicate CanClose(s: State, g: nat) {
    CanPend(s, g) && s.cancelPending.None?
  }

  lemma ClosedEdges(s: State, g: nat, body: Body)
    requires CanClose(s, g)
    ensures Shape(Closed(s, g, body, !s.gestures[g].edgeQueued)) && EdgesOk(Closed(s, g, body, !s.gestures[g].edgeQueued))
  {
    var t := Closed(s, g, body, !s.gestures[g].edgeQueued);
    assert BasicOk(s, g);
    forall x | 0 <= x < |t.gestures| ensures BasicOk(t, x) { assert BasicOk(s, x); }
    if !InCancel(t) {
      forall x | x in t.active ensures EdgeOk(t, x) && MoveWaits(t, x) {
        assert EdgeOk(s, x) && MoveWaits(s, x);
        if x != g { assert x in s.queue <==> x in t.queue; }
        else if !s.gestures[g].edgeQueued { assert t.queue[|s.queue|] == g; }
      }
    }
  }

  lemma ClosedKeeps(s: State, g: nat, body: Body)
    requires CanClose(s, g)
    ensures Core(Closed(s, g, body, !s.gestures[g].edgeQueued))
  {
    var t := Closed(s, g, body, !s.gestures[g].edgeQueued);
    ClosedEdges(s, g, body);
    assert Holding(t) == Holding(s);
    CallRecorded(s, t, TookUp(g, body));
    forall x | 0 <= x < |t.gestures| ensures MovesOk(t, x) { MovesFrame(s, t, x); }
  }

  predicate MayClose(s: State, pointer: int)
    requires s.Wf()
  {
    var found := Find(s.gestures, s.active, pointer);
    found.Some? && !s.gestures[found.value].closing && !s.gestures[found.value].removed && s.cancelPending.None?
  }

  lemma UpIs(s: State, pointer: int, body: Body, now: real)
    requires s.Wf() && MayClose(s, pointer)
    requires s.gestures[Find(s.gestures, s.active, pointer).value].generation == s.generation
    ensures var g := Find(s.gestures, s.active, pointer).value;
            var t := Closed(s, g, body, !s.gestures[g].edgeQueued);
            t.Wf() && PointerUp(s, pointer, body, now).0 == if s.gestures[g].edgeQueued then t else Pump(t, now)
  {
    var g := Find(s.gestures, s.active, pointer).value;
    var gesture := s.gestures[g];
    var closing := gesture.(closing := true, up := Some(body), timer := false, moveReady := gesture.pending.Some?);
    assert s.gestures[g := closing][g := closing.(edgeQueued := true)] == s.gestures[g := closing.(edgeQueued := true)];
  }

  lemma UpKeeps(s: State, pointer: int, body: Body, now: real)
    requires Inv(s)
    ensures Inv(Step(s, EvUp(pointer, body, now)))
  {
    hide EdgeOk, MoveWaits, MovesOk, TraceOk, Pump, QueueEdge, Holding;
    if MayClose(s, pointer) {
      var g := Find(s.gestures, s.active, pointer).value;
      assert BasicOk(s, g);
      ClosedKeeps(s, g, body);
      UpIs(s, pointer, body, now);
      if s.gestures[g].edgeQueued { ClosedQueued(s, g, body); } else { PumpKeeps(Closed(s, g, body, true), now); }
    }
  }

  /** A gesture whose edge is still queued is closing while something is in flight. */
  lemma ClosedQueued(s: State, g: nat, body: Body)
    requires Inv(s) && CanClose(s, g) && s.gestures[g].edgeQueued
    ensures Quiet(Closed(s, g, body, false))
  {
    assert !InCancel(s) ==> EdgeOk(s, g);
  }

  // cancelAll ------------------------------------------------------------------------------------

  lemma SweptKeeps(s: State, body: Body)
    requires Core(s)
    ensures Core(Swept(s, body))
  {
    var t := Swept(s, body);
    forall x | 0 <= x < |t.gestures| ensures BasicOk(t, x) { assert BasicOk(s, x); }
    assert Shape(t);
    HoldingSwept(s, t);
    CallRecorded(s, t, TookCancel(body));
    forall x | 0 <= x < |t.gestures| ensures MovesOk(t, x) { assert MovesOk(s, x); }
  }

  lemma HoldingSwept(s: State, t: State)
    requires s.Wf() && t.Wf() && t.active == s.active && t.inflight == s.inflight && |t.gestures| == |s.gestures|
    requires forall x :: 0 <= x < |s.gestures| ==> t.gestures[x].slot == s.gestures[x].slot && t.gestures[x].downDispatched == s.gestures[x].downDispatched
    ensures Holding(t) == Holding(s)
  {
    assert forall i :: 0 <= i < |s.active| ==> t.gestures[s.active[i]].slot == s.gestures[s.active[i]].slot;
  }

  lemma CancelKeeps(s: State, body: Body, now: real)
    requires Inv(s)
    ensures Inv(Step(s, EvCancel(body, now)))
  {
    SweptKeeps(s, body);
    PumpKeeps(Swept(s, body), now);
  }

  // completions ----------------------------------------------------------------------------------

  function Landed(s: State): State
    requires s.inflight.Some?
  {
    s.(inflight := None, trace := s.trace + [Done(s.inflight.value.packet)])
  }

  lemma LandedTrace(s: State, t: State)
    requires Core(s) && s.inflight.Some? && t.Wf() && t.inflight.None? && t.trace == Landed(s).trace && t.motions == s.motions
    requires |t.gestures| == |s.gestures| && Holding(t) == Holding(s)
    requires forall g :: 0 <= g < |s.gestures| && g in t.active ==> g in s.active && (s.gestures[g].closing ==> t.gestures[g].closing)
    ensures TraceOk(t)
  {
    var act := Done(s.inflight.value.packet);
    Snoc(s.trace, act);
    ActsGrow(s, t, act);
  }

  // A finished down queues the up that was asked for meanwhile.

  function DownLanded(s: State): State
    requires s.Wf() && s.inflight.Some? && s.inflight.value.packet.Down?
  {
    var g := s.inflight.value.packet.gesture;
    if s.gestures[g].up.Some? && s.cancelPending.None? && !s.gestures[g].edgeQueued then
      Put(Landed(s), g, s.gestures[g].(edgeQueued := true)).(queue := s.queue + [g])
    else Landed(s)
  }

  lemma DownLandedEdges(s: State)
    requires Inv(s) && s.inflight.Some? && s.inflight.value.packet.Down?
    ensures Shape(DownLanded(s)) && EdgesOk(DownLanded(s))
  {
    var g, t := s.inflight.value.packet.gesture, DownLanded(s);
    assert BasicOk(s, g);
    forall x | 0 <= x < |t.gestures| ensures BasicOk(t, x) { assert BasicOk(s, x); }
    if !InCancel(t) {
      forall x | x in t.active ensures EdgeOk(t, x) && MoveWaits(t, x) {
        assert EdgeOk(s, x) && MoveWaits(s, x);
        if x != g { assert x in s.queue <==> x in t.queue; }
        else if |t.queue| > |s.queue| { assert t.queue[|s.queue|] == g; }
      }
    }
  }

  lemma DownLandedMoves(s: State)
    requires s.Wf() && s.inflight.Some? && s.inflight.value.packet.Down?
    requires forall x :: 0 <= x < |s.gestures| ==> MovesOk(s, x)
    ensures forall x :: 0 <= x < |DownLanded(s).gestures| ==> MovesOk(DownLanded(s), x)
  {
    var t := DownLanded(s);
    Snoc(s.trace, Done(s.inflight.value.packet));
    forall x | 0 <= x < |t.gestures| ensures MovesOk(t, x) { MovesFrame(s, t, x); }
  }

  lemma DownLandedKeeps(s: State)
    requires Inv(s) && s.inflight.Some? && s.inflight.value.packet.Down?
    ensures Core(DownLanded(s))
  {
    hide MovesOk, EdgesOk, TraceOk;
    var t := DownLanded(s);
    DownLandedEdges(s);
    assert Holding(t) == Holding(s);
    LandedTrace(s, t);
    DownLandedMoves(s);
  }

  // A finished move is no longer pending, unless a newer one replaced it.

  function MoveLanded(s: State): State
    requires s.Wf() && s.inflight.Some? && s.inflight.value.packet.Move?
  {
    var p := s.inflight.value.packet;
    if s.gestures[p.gesture].pending == Some(p.motion) then
      Put(Landed(s), p.gesture, s.gestures[p.gesture].(pending := None))
    else Landed(s)
  }

  lemma MoveLandedShape(s: State)
    requires Inv(s) && s.inflight.Some? && s.inflight.value.packet.Move?
    ensures Shape(MoveLanded(s))
  {
    var t := MoveLanded(s);
    forall x | 0 <= x < |t.gestures| ensures BasicOk(t, x) { assert BasicOk(s, x); }
  }

  lemma MoveLandedEdges(s: State)
    requires s.Wf() && EdgesOk(s) && s.inflight.Some? && s.inflight.value.packet.Move?
    ensures MoveLanded(s).Wf() && EdgesOk(MoveLanded(s))
  {
    var t := MoveLanded(s);
    if !InCancel(t) {
      forall x | x in t.active ensures x < |t.gestures| && EdgeOk(t, x) && MoveWaits(t, x) { assert EdgeOk(s, x) && MoveWaits(s, x); }
    }
  }

  lemma MoveLandedMoves(s: State)
    requires s.Wf() && s.inflight.Some? && s.inflight.value.packet.Move?
    requires forall x :: 0 <= x < |s.gestures| ==> MovesOk(s, x)
    ensures forall x :: 0 <= x < |MoveLanded(s).gestures| ==> MovesOk(MoveLanded(s), x)
  {
    var g, t := s.inflight.value.packet.gesture, MoveLanded(s);
    Snoc(s.trace, Done(s.inflight.value.packet));
    forall x | 0 <= x < |t.gestures| ensures MovesOk(t, x) {
      assert MovesOk(s, x);
      if x != g { MovesFrame(s, t, x); }
    }
  }

  lemma MoveLandedKeeps(s: State)
    requires Inv(s) && s.inflight.Some? && s.inflight.value.packet.Move?
    ensures Core(MoveLanded(s))
  {
    hide MovesOk, EdgesOk, TraceOk;
    var t := MoveLanded(s);
    MoveLandedShape(s);
    MoveLandedEdges(s);
    assert Holding(t) == Holding(s);
    LandedTrace(s, t);
    MoveLandedMoves(s);
  }

  // A finished up gives the slot back.

  function UpLanded(s: State): State
    requires s.Wf() && s.inflight.Some? && s.inflight.value.packet.Up?
  {
    Remove(Landed(s), s.inflight.value.packet.gesture)
  }

  lemma UpLandedShape(s: State)
    requires Inv(s) && s.inflight.Some? && s.inflight.value.packet.Up?
    ensures Shape(UpLanded(s)) && EdgesOk(UpLanded(s))
  {
    var g, t := s.inflight.value.packet.gesture, UpLanded(s);
    WithoutDistinct(s.active, g);
    forall i | 0 <= i < |t.active| ensures t.active[i] < |t.gestures| { assert t.active[i] in Without(s.active, g); }
    forall x | 0 <= x < |t.gestures| ensures BasicOk(t, x) { assert BasicOk(s, x); }
    forall a, b | a in t.active && b in t.active && a != b
      ensures t.gestures[a].slot != t.gestures[b].slot && t.gestures[a].pointer != t.gestures[b].pointer
    {
      assert a in s.active && b in s.active;
    }
    if !InCancel(t) {
      forall x | x in t.active ensures EdgeOk(t, x) && MoveWaits(t, x) { assert EdgeOk(s, x) && MoveWaits(s, x); }
    }
  }

  lemma HoldingLanded(s: State, t: State, g: nat)
    requires s.Wf() && t.Wf() && FliesUp(s, g) && t.inflight.None? && t.active == Without(s.active, g) && |t.gestures| == |s.gestures|
    requires forall x :: 0 <= x < |s.gestures| ==> t.gestures[x].slot == s.gestures[x].slot && t.gestures[x].downDispatched == s.gestures[x].downDispatched
    ensures Holding(t) == Holding(s)
  {
    forall x ensures x in Holding(t) <==> x in Holding(s) {
      if x in Holding(s) {
        var i :| 0 <= i < |s.active| && s.gestures[s.active[i]].downDispatched && !FliesUp(s, s.active[i]) && Hold(s.gestures[s.active[i]].slot, s.active[i]) == x;
        assert s.active[i] in t.active;
        var j :| 0 <= j < |t.active| && t.active[j] == s.active[i];
        assert Hold(t.gestures[t.active[j]].slot, t.active[j]) == x;
      }
      if x in Holding(t) {
        var j :| 0 <= j < |t.active| && t.gestures[t.active[j]].downDispatched && Hold(t.gestures[t.active[j]].slot, t.active[j]) == x;
        assert t.active[j] in s.active;
        var i :| 0 <= i < |s.active| && s.active[i] == t.active[j];
        assert !FliesUp(s, s.active[i]) && Hold(s.gestures[s.active[i]].slot, s.active[i]) == x;
      }
    }
  }

  lemma UpLandedKeeps(s: State)
    requires Inv(s) && s.inflight.Some? && s.inflight.value.packet.Up?
    ensures Core(UpLanded(s))
  {
    var g, t := s.inflight.value.packet.gesture, UpLanded(s);
    UpLandedShape(s);
    HoldingLanded(s, t, g);
    LandedTrace(s, t);
    Snoc(s.trace, Done(s.inflight.value.packet));
    forall x | 0 <= x < |t.gestures| ensures MovesOk(t, x) { MovesFrame(s, t, x); }
  }

  // A finished cancel gives every slot back.

  function CancelLanded(s: State): State
    requires s.inflight.Some? && s.inflight.value.packet.Cancel?
  {
    Landed(s).(cancelling := false, gestures := RemoveAll(s.gestures, s.active), active := [], waiters := 0)
  }

  lemma CancelLandedTrace(s: State)
    requires Inv(s) && s.inflight.Some? && s.inflight.value.packet.Cancel?
    ensures TraceOk(CancelLanded(s))
    ensures forall x :: 0 <= x < |s.gestures| ==> MovesOk(CancelLanded(s), x)
  {
    var t := CancelLanded(s);
    LandedTrace(s, t);
    Snoc(s.trace, Done(s.inflight.value.packet));
    forall x | 0 <= x < |t.gestures| ensures MovesOk(t, x) { MovesFrame(s, t, x); }
  }

  /** The state after a finished cancel breaks only the rule that a pending cancel is being waited for, and
      the pending cancel, if any, starts at once. */
  lemma CancelDoneKeeps(s: State, now: real)
    requires Inv(s) && s.inflight.Some? && s.inflight.value.packet.Cancel?
    ensures Inv(Pump(CancelLanded(s), now)) && CancelLanded(s).active == []
  {
    var t := CancelLanded(s);
    CancelLandedTrace(s);
    forall x | 0 <= x < |t.gestures| ensures BasicOk(t, x) { assert BasicOk(s, x); }
    if s.cancelPending.None? {
      assert Core(t);
      PumpKeeps(t, now);
    } else {
      var waiting := t.(cancelling := true);
      assert TraceOk(waiting) && Core(waiting) by {
        TraceFrame(t, waiting);
        forall x | 0 <= x < |t.gestures| ensures MovesOk(waiting, x) && BasicOk(waiting, x) { assert MovesOk(t, x) && BasicOk(t, x); }
      }
      LaunchCancel(waiting);
      Uncancelling(Launch(waiting.(cancelPending := None), Cancel(s.cancelPending.value)));
    }
  }

  /** While a cancel is in flight, the cancelling mark decides only whether a pointer may go down. */
  lemma Uncancelling(s: State)
    requires Core(s) && s.inflight.Some? && s.cancelPending.None?
    ensures Inv(s.(cancelling := false))
  {
    var t := s.(cancelling := false);
    forall x | 0 <= x < |t.gestures| ensures MovesOk(t, x) && BasicOk(t, x) { assert MovesOk(s, x) && BasicOk(s, x); }
    assert Holding(t) == Holding(s);
    TraceFrame(s, t);
    if !InCancel(t) {
      forall x | x in t.active ensures EdgeOk(t, x) && MoveWaits(t, x) { assert EdgeOk(s, x) && MoveWaits(s, x); }
    }
  }

  lemma DownDoneKeeps(s: State, now: real)
    requires Inv(s) && s.inflight.Some? && s.inflight.value.packet.Down?
    ensures Inv(Completed(s, now))
  {
    var g := s.inflight.value.packet.gesture;
    assert BasicOk(s, g);
    DownLandedKeeps(s);
    PumpKeeps(DownLanded(s), now);
    if s.gestures[g].up.Some? && s.cancelPending.None? && !s.gestures[g].edgeQueued {
      PumpKeeps(Pump(DownLanded(s), now), now);
    }
  }

  lemma DoneKeeps(s: State, now: real)
    requires Inv(s)
    ensures Inv(Step(s, EvDone(now)))
  {
    if s.inflight.Some? {
      match s.inflight.value.packet
      case Down(_, _, _) => DownDoneKeeps(s, now);
      case Move(_, _, _) =>
        MoveLandedKeeps(s);
        PumpKeeps(MoveLanded(s), now);
      case Up(_, _, _) =>
        UpLandedKeeps(s);
        PumpKeeps(UpLanded(s), now);
      case Cancel(_) => CancelDoneKeeps(s, now);
    }
  }
}
