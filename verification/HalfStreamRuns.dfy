/** Whole runs of a half-stream: any sequence of segments, acknowledgements and
    closes, as the flow table drives them. */
module HalfStreamRuns {
  import opened Basics
  import opened Intervals
  import opened SequenceSpace
  import opened Tiling
  import opened HalfStream
  import opened HalfStreamClosing

  datatype Limits = Limits(maxOoo: nat, maxSegments: nat, gapTimeout: nat)

  /** What a direction is given, at its true absolute position. */
  datatype Event =
    | Arrives(pos: nat, fin: bool, ts: nat, data: seq<Byte>)
    | Ack(pos: nat, ts: nat)
    | Close

  ghost function Step(s: State, e: Event, l: Limits): Run {
    match e
    case Arrives(pos, fin, ts, data) => Accept(s, pos, fin, ts, data, l.maxOoo, l.maxSegments, l.gapTimeout)
    case Ack(pos, ts) => Acknowledge(s, pos, ts, l.gapTimeout)
    case Close => Finalize(s)
  }

  /** The same event as it is seen on the wire: only 32 bits of its position. */
  ghost function Seen(e: Event, next: nat): Event {
    match e
    case Arrives(pos, fin, ts, data) => Arrives(ExtendSeq(pos % TURN, next), fin, ts, data)
    case Ack(pos, ts) => Ack(ExtendSeq(pos % TURN, next), ts)
    case Close => Close
  }

  /** A run, and everything it reports. */
  ghost function Runs(s: State, events: seq<Event>, l: Limits): Run
    decreases |events|
  {
    if events == [] then Run(s, NOTHING)
    else
      var first := Step(s, events[0], l);
      Joined(first, Runs(first.s, events[1..], l))
  }

  ghost function RunsOnWire(s: State, events: seq<Event>, l: Limits): Run
    decreases |events|
  {
    if events == [] then Run(s, NOTHING)
    else
      var first := Step(s, Seen(events[0], s.next), l);
      Joined(first, RunsOnWire(first.s, events[1..], l))
  }

  ghost function Joined(first: Run, rest: Run): Run {
    Run(rest.s, Outcome(first.out.emitted + rest.out.emitted, first.out.gaps + rest.out.gaps,
                        first.out.retransmit || rest.out.retransmit, first.out.outOfOrder || rest.out.outOfOrder,
                        first.out.finConsumed || rest.out.finConsumed))
  }

  /** Every event lies, when it arrives, in the window around the next position. */
  ghost predicate InWindows(s: State, events: seq<Event>, l: Limits)
    decreases |events|
  {
    events != [] ==>
      && (!events[0].Close? ==> InWindow(events[0].pos, s.next))
      && InWindows(Step(s, events[0], l).s, events[1..], l)
  }

  lemma {:induction false} TilesJoin(e1: seq<Chunk>, g1: seq<Gap>, e2: seq<Chunk>, g2: seq<Gap>,
                                     stream: seq<Option<Byte>>, from: nat, mid: nat, to: nat)
    requires Tiles(e1, g1, stream, from, mid) && Tiles(e2, g2, stream, mid, to)
    ensures Tiles(e1 + e2, g1 + g2, stream, from, to)
    decreases |e2| + |g2|
  {
    if mid == to {
      assert e1 + e2 == e1 && g1 + g2 == g1;
    } else if e2 != [] && LastChunkFits(e2, stream, mid, to)
              && Tiles(e2[..|e2| - 1], g2, stream, mid, e2[|e2| - 1].offset) {
      TilesJoin(e1, g1, e2[..|e2| - 1], g2, stream, from, mid, e2[|e2| - 1].offset);
      assert (e1 + e2)[..|e1 + e2| - 1] == e1 + e2[..|e2| - 1];
      assert LastChunkFits(e1 + e2, stream, from, to);
    } else {
      TilesJoin(e1, g1, e2, g2[..|g2| - 1], stream, from, mid, g2[|g2| - 1].offset);
      assert (g1 + g2)[..|g1 + g2| - 1] == g1 + g2[..|g2| - 1];
      assert LastGapFits(g1 + g2, stream, from, to);
    }
  }

  ghost function ByteOf(e: Event, p: nat): Option<Byte> {
    if e.Arrives? then Cell(e.pos, e.data, p) else None
  }

  /** The event presents a byte for position `p`, not yet passed by an open half. */
  ghost predicate Hears(s: State, e: Event, p: nat) {
    !s.finConsumed && s.next <= p && ByteOf(e, p).Some?
  }

  /** The byte on record for a position after an event: the one on record before, else
      the one the event presents. */
  ghost function RecordAfter(s: State, e: Event, p: nat): Option<Byte> {
    if s.history(p).Some? then s.history(p)
    else if Hears(s, e, p) then ByteOf(e, p)
    else None
  }

  lemma StepKeeps(s: State, e: Event, l: Limits)
    requires Settled(s)
    ensures var y := Step(s, e, l);
      && Settled(y.s) && s.stream <= y.s.stream && y.s.base == s.base
      && Tiles(y.out.emitted, y.out.gaps, y.s.stream, |s.stream|, |y.s.stream|)
      && (s.finConsumed ==> y.s.finConsumed && y.s.stream == s.stream)
      && (!Over(s, l.maxOoo, l.maxSegments) ==> !Over(y.s, l.maxOoo, l.maxSegments))
      && (forall p: nat :: y.s.history(p) == RecordAfter(s, e, p))
  {
    hide Settled, Tiles, Accept, Acknowledge, Finalize;
    match e
    case Arrives(pos, fin, ts, data) =>
      AcceptFacts(s, pos, fin, ts, data, l.maxOoo, l.maxSegments, l.gapTimeout);
    case Ack(pos, ts) =>
      AcknowledgeFacts(s, pos, ts, l.gapTimeout);
      if !Over(s, l.maxOoo, l.maxSegments) { AcknowledgeBounded(s, pos, ts, l); }
    case Close =>
      FinalizeFacts(s);
      if !Over(s, l.maxOoo, l.maxSegments) { FinalizeBounded(s, l); }
  }

  lemma AcknowledgeBounded(s: State, ack: nat, ts: nat, l: Limits)
    requires Settled(s) && !Over(s, l.maxOoo, l.maxSegments)
    ensures !Over(Acknowledge(s, ack, ts, l.gapTimeout).s, l.maxOoo, l.maxSegments)
  {
    var x := Run(Acked(s, ack), NOTHING);
    var from := |s.stream|;
    AckedReady(s, ack);
    AckedKeeps(s, ack);
    NothingAccounts(x.s);
    if !(x.s.ooo == [] && x.s.pendingFin.None?) {
      hide Ready, Settled, Accounts, Advances, RecoverAck, RecoverTimeout, Acked, IsSuffix, Core;
      RecoverAckAdvances(x, from);
      var y := RecoverAck(x);
      Parts(x, y, from);
      RecoverTimeoutAdvances(y, l.gapTimeout, ts, from);
      var t := RecoverTimeout(y, l.gapTimeout, ts);
      Chain(x, y, t, from);
      Within(x, t, from, l);
    } else {
      StillWithin(s, x.s, l);
    }
  }

  lemma StillWithin(s: State, t: State, l: Limits)
    requires !Over(s, l.maxOoo, l.maxSegments) && t.ooo == s.ooo && t.oooBytes == s.oooBytes
    ensures !Over(t, l.maxOoo, l.maxSegments)
  {
  }

  lemma Within(x: Run, t: Run, from: nat, l: Limits)
    requires Ready(x.s) && Advances(x, t, from) && !Over(x.s, l.maxOoo, l.maxSegments)
    ensures !Over(t.s, l.maxOoo, l.maxSegments) && !Over(ConsumeFin(t).s, l.maxOoo, l.maxSegments)
  {
    if !t.s.finConsumed { StillOpen(x, t, from); }
    SuffixWithin(x.s, t.s, l.maxOoo, l.maxSegments);
  }

  lemma FinalizeBounded(s: State, l: Limits)
    requires Settled(s) && !Over(s, l.maxOoo, l.maxSegments)
    ensures !Over(Finalize(s).s, l.maxOoo, l.maxSegments)
  {
    var x := Run(s, NOTHING);
    NothingAccounts(s);
    hide Ready, Accounts, Advances, Drain;
    DrainAdvances(x, |s.stream|);
    Within(x, Drain(x), |s.stream|, l);
  }

  // ---------- Whole runs ----------

  /** Safety of every run: what it reports, put end to end, tiles exactly the stream
      it delivered; each delivered byte is the one on record for its position, and
      records are never revised; the store keeps its limits; and nothing is
      delivered after a consumed FIN. */
  lemma {:induction false} RunsDeliver(s: State, events: seq<Event>, l: Limits)
    requires Settled(s)
    ensures var y := Runs(s, events, l);
      && Settled(y.s) && s.stream <= y.s.stream && y.s.base == s.base
      && Tiles(y.out.emitted, y.out.gaps, y.s.stream, |s.stream|, |y.s.stream|)
      && Shows(y.s.stream, y.s.base, y.s.history)
      && (forall p: nat :: s.history(p).Some? ==> y.s.history(p) == s.history(p))
      && (s.finConsumed ==> y.s.finConsumed && y.s.stream == s.stream)
      && (!Over(s, l.maxOoo, l.maxSegments) ==> !Over(y.s, l.maxOoo, l.maxSegments))
    decreases |events|
  {
    SettledShows(s);
    if events != [] {
      hide Settled, Tiles, Step, Shows, Over, RecordAfter;
      var first := Step(s, events[0], l);
      var rest := Runs(first.s, events[1..], l);
      StepKeeps(s, events[0], l);
      RecordsStay(s, events[0], first.s);
      RunsDeliver(first.s, events[1..], l);
      TilesFollow(first, rest, |s.stream|);
    }
  }

  lemma RecordsStay(s: State, e: Event, t: State)
    requires forall p: nat :: t.history(p) == RecordAfter(s, e, p)
    ensures forall p: nat | s.history(p).Some? :: t.history(p) == s.history(p)
  {
  }

  lemma TilesFollow(first: Run, rest: Run, from: nat)
    requires first.s.stream <= rest.s.stream
    requires Tiles(first.out.emitted, first.out.gaps, first.s.stream, from, |first.s.stream|)
    requires Tiles(rest.out.emitted, rest.out.gaps, rest.s.stream, |first.s.stream|, |rest.s.stream|)
    ensures var y := Joined(first, rest); Tiles(y.out.emitted, y.out.gaps, rest.s.stream, from, |rest.s.stream|)
  {
    hide Tiles;
    TilesGrow(first.out.emitted, first.out.gaps, first.s.stream, rest.s.stream, from, |first.s.stream|);
    TilesJoin(first.out.emitted, first.out.gaps, rest.out.emitted, rest.out.gaps, rest.s.stream,
              from, |first.s.stream|, |rest.s.stream|);
  }

  /** The half just before event `k`. */
  ghost function Before(s: State, events: seq<Event>, l: Limits, k: nat): State
    requires k <= |events|
  {
    Runs(s, events[..k], l).s
  }

  /** Event `k` is the first that presents a byte for position `p` in time. */
  ghost predicate FirstToPresent(s: State, events: seq<Event>, l: Limits, p: nat, k: nat) {
    && k < |events| && Hears(Before(s, events, l, k), events[k], p)
    && forall j | 0 <= j < k :: !Hears(Before(s, events, l, j), events[j], p)
  }

  ghost predicate NeverPresented(s: State, events: seq<Event>, l: Limits, p: nat) {
    forall k | 0 <= k < |events| :: !Hears(Before(s, events, l, k), events[k], p)
  }

  lemma BeforeShifts(s: State, events: seq<Event>, l: Limits, k: nat)
    requires k < |events|
    ensures Before(s, events, l, 0) == s
    ensures Before(s, events, l, k + 1) == Before(Step(s, events[0], l).s, events[1..], l, k)
  {
    hide Step;
    assert events[..k + 1][0] == events[0] && events[..k + 1][1..] == events[1..][..k];
  }

  /** What is on record after any run: what was there before, else the byte of the first
      segment that presented the position while the half was open and had not passed it. */
  lemma {:induction false} RecordIsFirstSeen(s: State, events: seq<Event>, l: Limits, p: nat)
    requires Settled(s)
    ensures var h := Runs(s, events, l).s.history(p);
      && (s.history(p).Some? ==> h == s.history(p))
      && (s.history(p).None? && NeverPresented(s, events, l, p) ==> h == None)
      && (s.history(p).None? && !NeverPresented(s, events, l, p) ==>
            exists k: nat :: FirstToPresent(s, events, l, p, k) && h == ByteOf(events[k], p) && h.Some?)
    decreases |events|
  {
    hide Settled, Tiles, Step, Hears;
    if events != [] {
      var first := Step(s, events[0], l).s;
      StepKeeps(s, events[0], l);
      RunsDeliver(first, events[1..], l);
      if s.history(p).None? {
        forall k | 0 <= k < |events|
          ensures Before(s, events, l, 0) == s
          ensures Before(s, events, l, k + 1) == Before(first, events[1..], l, k)
        {
          BeforeShifts(s, events, l, k);
        }
        if Hears(s, events[0], p) {
          assert ByteOf(events[0], p).Some? by { HearsByte(s, events[0], p); }
          assert FirstToPresent(s, events, l, p, 0);
        } else {
          RecordIsFirstSeen(first, events[1..], l, p);
          PresentedShifts(s, events, l, p);
          if !NeverPresented(s, events, l, p) {
            var h := Runs(first, events[1..], l).s.history(p);
            var k: nat :| FirstToPresent(first, events[1..], l, p, k) && h == ByteOf(events[1..][k], p) && h.Some?;
            assert FirstToPresent(s, events, l, p, k + 1) && events[1..][k] == events[k + 1];
          }
        }
      }
    }
  }

  lemma HearsByte(s: State, e: Event, p: nat)
    requires Hears(s, e, p)
    ensures ByteOf(e, p).Some?
  {
  }

  lemma PresentedShifts(s: State, events: seq<Event>, l: Limits, p: nat)
    requires events != [] && !Hears(s, events[0], p)
    ensures var first := Step(s, events[0], l).s;
      && (NeverPresented(s, events, l, p) <==> NeverPresented(first, events[1..], l, p))
      && (forall k: nat | FirstToPresent(first, events[1..], l, p, k) :: FirstToPresent(s, events, l, p, k + 1))
  {
    hide Step, Hears, Runs, Before;
    var first := Step(s, events[0], l).s;
    assert Before(s, events, l, 0) == s by { BeforeShifts(s, events, l, 0); }
    forall k | 0 <= k < |events| - 1
      ensures Hears(Before(first, events[1..], l, k), events[1..][k], p) == Hears(Before(s, events, l, k + 1), events[k + 1], p)
    {
      BeforeShifts(s, events, l, k);
    }
    if !NeverPresented(s, events, l, p) {
      var k :| 0 <= k < |events| && Hears(Before(s, events, l, k), events[k], p);
      assert k > 0;
      assert Hears(Before(first, events[1..], l, k - 1), events[1..][k - 1], p);
    }
    forall k: nat | FirstToPresent(first, events[1..], l, p, k)
      ensures FirstToPresent(s, events, l, p, k + 1)
    {
      forall j | 0 <= j < k + 1
        ensures !Hears(Before(s, events, l, j), events[j], p)
      {
        if j > 0 {
          assert !Hears(Before(first, events[1..], l, j - 1), events[1..][j - 1], p);
        }
      }
    }
  }

  /** A half that has seen its first packet, which gives it its first position. */
  ghost function Initial(first: nat): State {
    State(first, 0, [], 0, None, false, false, None, None, None, first, p => None, [])
  }

  lemma InitialSettled(first: nat)
    requires first >= INITIAL_SEQ_EPOCH
    ensures Settled(Initial(first))
  {
  }

  /** First-seen delivery over every run from the first packet on: each delivered byte is
      the one presented first for its position, and a position given up was presented by
      no segment before the half had passed it. */
  lemma DeliversFirstSeen(first: nat, events: seq<Event>, l: Limits, i: nat)
    requires first >= INITIAL_SEQ_EPOCH && i < |Runs(Initial(first), events, l).s.stream|
    ensures var s := Initial(first); var x := Runs(s, events, l).s.stream[i];
      if x.None? then NeverPresented(s, events, l, first + i)
      else exists k: nat :: FirstToPresent(s, events, l, first + i, k) && x == ByteOf(events[k], first + i)
  {
    hide Settled, Tiles, Runs, Step, Hears, Before;
    var s := Initial(first);
    InitialSettled(first);
    RunsDeliver(s, events, l);
    RecordIsFirstSeen(s, events, l, first + i);
  }

  lemma SettledShows(s: State)
    requires Settled(s)
    ensures Shows(s.stream, s.base, s.history) && s.next >= INITIAL_SEQ_EPOCH
    ensures Tiles([], [], s.stream, |s.stream|, |s.stream|)
  {
  }

  /** A run on wrapped wire numbers is the run on true positions, as long as every
      event arrives within half a turn of the next position. */
  lemma {:induction false} WireRunIsTrueRun(s: State, events: seq<Event>, l: Limits)
    requires Settled(s) && InWindows(s, events, l)
    ensures RunsOnWire(s, events, l) == Runs(s, events, l)
    decreases |events|
  {
    if events != [] {
      SettledShows(s);
      var e := events[0];
      if !e.Close? {
        ExtendSeqExact(e.pos % TURN, s.next);
      }
      assert Seen(e, s.next) == e;
      StepKeeps(s, e, l);
      hide Settled, Step, Seen;
      WireRunIsTrueRun(Step(s, e, l).s, events[1..], l);
    }
  }

  /** Whether an event settles that nothing follows a FIN at `f`: its own FIN is in
      sequence, or it acknowledges the FIN. */
  predicate Confirms(s: State, e: Event, f: nat) {
    match e
    case Arrives(pos, fin, ts, data) => InSequence(s, pos, fin, data)
    case Ack(pos, ts) => pos > f
    case Close => false
  }

  /** When an event closes the half, the delivered stream goes past the FIN marker if and
      only if a segment buffered before starts below the marker and ends beyond it, or
      starts right at it and the event does not confirm the FIN. */
  lemma ClosedPastMarkerIff(s: State, e: Event, l: Limits, f: nat)
    requires Settled(s) && !s.finConsumed
    requires var t := Step(s, e, l).s; t.finConsumed && t.pendingFin == Some(f)
    ensures Passes(Step(s, e, l).s) <==> Straddled(s.ooo, f) || (Abutted(s.ooo, f) && !Confirms(s, e, f))
  {
    hide Settled, Passes, Straddled, Abutted, Accept, Acknowledge, Finalize;
    match e
    case Arrives(pos, fin, ts, data) =>
      AcceptPasses(s, pos, fin, ts, data, l.maxOoo, l.maxSegments, l.gapTimeout, f);
    case Ack(pos, ts) => AcknowledgePasses(s, pos, ts, l.gapTimeout, f);
    case Close => FinalizePasses(s, f);
  }

  /** Four bytes in sequence, four at `at`, then a FIN at offset eight, then the close. */
  function FinBefore(e: nat, at: nat): seq<Event> {
    [Arrives(e, false, 0, [1, 2, 3, 4]), Arrives(at, false, 0, [5, 6, 7, 8]), Arrives(e + 8, true, 0, []), Close]
  }

  lemma FirstFour(e: nat, l: Limits)
    ensures var y := Step(Initial(e), Arrives(e, false, 0, [1, 2, 3, 4]), l);
      y.s == Initial(e).(next := e + 4, streamOffset := 4, stream := y.s.stream, history := y.s.history) && |y.s.stream| == 4
  {
  }

  lemma FourAhead(s: State, e: nat, at: nat, l: Limits)
    requires at > e + 4 && s.next == e + 4 && s.ooo == [] && s.oooBytes == 0 && s.pendingFin.None? && !s.finConsumed
    requires s.peerAck.None? && s.gapStarted.None? && l.maxOoo >= 4 && l.maxSegments >= 1
    ensures var y := Step(s, Arrives(at, false, 0, [5, 6, 7, 8]), l);
      y.s == s.(ooo := [Segment(at, [5, 6, 7, 8], 0)], oooBytes := 4, gapStarted := Some(0), history := y.s.history)
  {
    var d := [5, 6, 7, 8];
    assert d[0..4] == d;
    InsertDone([Segment(at, d, 0)], at, d, 0, at + 4);
    assert Spliced([], 0, Segment(at, d, 0)) == [Segment(at, d, 0)];
    assert InsertFrom([], at, d, 0, at) == Inserted([Segment(at, d, 0)], 4, false);
  }

  lemma FinBetween(s: State, e: nat, at: nat, l: Limits)
    requires at > e + 4 && s.next == e + 4 && s.ooo == [Segment(at, [5, 6, 7, 8], 0)] && s.pendingFin.None? && !s.finConsumed
    requires s.peerAck.None? && s.gapStarted == Some(0) && l.gapTimeout > 0
    ensures var y := Step(s, Arrives(e + 8, true, 0, []), l);
      y.s == s.(pendingFin := Some(e + 8), finNeedsAck := true, history := y.s.history)
  {
  }

  lemma CloseStrands(s: State, e: nat)
    requires s.next == e + 4 && s.ooo == [Segment(e + 12, [5, 6, 7, 8], 0)] && s.pendingFin == Some(e + 8) && !s.finConsumed
    requires s.peerAck.None? && s.finNeedsAck && |s.stream| == 4
    ensures var y := Finalize(s).s; y.ooo == s.ooo && |y.stream| == 8 && !y.finConsumed
  {
    var x := Run(s, NOTHING);
    var y := SkipHole(x, e + 12);
    assert y.s.next == e + 8 && !y.s.finConsumed;
    assert Flush(y) == y;
  }

  lemma CloseDelivers(s: State, e: nat)
    requires s.next == e + 4 && s.ooo == [Segment(e + 8, [5, 6, 7, 8], 0)] && s.pendingFin == Some(e + 8) && !s.finConsumed
    requires s.peerAck.None? && s.finNeedsAck && |s.stream| == 4
    ensures var y := Finalize(s).s; |y.stream| == 12 && y.finConsumed && y.pendingFin == Some(e + 8)
  {
    var x := Run(s, NOTHING);
    var y := SkipHole(x, e + 8);
    assert y.s.next == e + 8 && !y.s.finConsumed && y.s.ooo == s.ooo;
    var z := FlushOne(y);
    assert z.s.finConsumed && |z.s.stream| == 12;
    assert Flush(y) == z;
  }

  /** The state in which such a flow is closed. */
  lemma BeforeClose(e: nat, at: nat, l: Limits) returns (s: State)
    requires at > e + 4 && l.maxOoo >= 4 && l.maxSegments >= 1 && l.gapTimeout > 0
    ensures Runs(Initial(e), FinBefore(e, at), l).s == Finalize(s).s
    ensures s.next == e + 4 && s.ooo == [Segment(at, [5, 6, 7, 8], 0)] && s.pendingFin == Some(e + 8) && !s.finConsumed
    ensures s.peerAck.None? && s.finNeedsAck && |s.stream| == 4
  {
    hide Step, Finalize;
    var s0, events := Initial(e), FinBefore(e, at);
    FirstFour(e, l);
    var s1 := Step(s0, events[0], l).s;
    FourAhead(s1, e, at, l);
    var s2 := Step(s1, events[1], l).s;
    FinBetween(s2, e, at, l);
    s := Step(s2, events[2], l).s;
    CloseIsFinalize(s, l);
    RunsFour(s0, events, l);
  }

  /** Closing a flow can leave captured bytes undelivered: those four bytes beyond the FIN. */
  lemma FinalizeStrands(e: nat, l: Limits)
    requires e >= INITIAL_SEQ_EPOCH && l.maxOoo >= 4 && l.maxSegments >= 1 && l.gapTimeout > 0
    ensures var y := Runs(Initial(e), FinBefore(e, e + 12), l).s;
      |y.stream| == 8 && y.ooo == [Segment(e + 12, [5, 6, 7, 8], 0)]
  {
    var s := BeforeClose(e, e + 12, l);
    CloseStrands(s, e);
  }

  /** And bytes that start right at the FIN are delivered past it. */
  lemma AbuttedPasses(e: nat, l: Limits)
    requires e >= INITIAL_SEQ_EPOCH && l.maxOoo >= 4 && l.maxSegments >= 1 && l.gapTimeout > 0
    ensures var y := Runs(Initial(e), FinBefore(e, e + 8), l).s;
      y.finConsumed && y.pendingFin == Some(e + 8) && |y.stream| == 12
  {
    var s := BeforeClose(e, e + 8, l);
    CloseDelivers(s, e);
  }

  lemma CloseIsFinalize(s: State, l: Limits)
    ensures Step(s, Close, l) == Finalize(s)
  {
  }

  lemma RunsFour(s: State, events: seq<Event>, l: Limits)
    requires |events| == 4
    ensures Runs(s, events, l).s
         == Step(Step(Step(Step(s, events[0], l).s, events[1], l).s, events[2], l).s, events[3], l).s
  {
    hide Step;
    var s1 := Step(s, events[0], l).s;
    var s2 := Step(s1, events[1], l).s;
    var s3 := Step(s2, events[2], l).s;
    var s4 := Step(s3, events[3], l).s;
    var r1, r2, r3 := events[1..], events[2..], events[3..];
    assert r1[1..] == r2 && r2[1..] == r3 && r3[1..] == [];
    assert Runs(s4, [], l).s == s4;
    assert Runs(s3, r3, l).s == s4;
    assert Runs(s2, r2, l).s == s4;
    assert Runs(s1, r1, l).s == s4;
  }
}
