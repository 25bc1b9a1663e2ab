/** What one direction of a TCP connection does, as functions on values. The class
    in Reassembly performs these steps in place; here they are shown to deliver
    exactly the first byte accepted for each position, and nothing else. */
module HalfStream {
  import opened Basics
  import opened Intervals
  import opened SequenceSpace
  import opened Tiling

  /** The first byte presented for position `p`, once `data` has been presented at
      `start` while positions below `expected` were already delivered past. */
  ghost function Recorded(history: nat -> Option<Byte>, start: nat, data: seq<Byte>, expected: nat, p: nat)
    : Option<Byte>
  {
    if history(p).Some? then history(p)
    else if expected <= p then Cell(start, data, p)
    else None
  }

  /** The stream delivered from position `base` shows exactly the accepted bytes. */
  ghost predicate Shows(stream: seq<Option<Byte>>, base: nat, history: nat -> Option<Byte>) {
    forall i {:trigger stream[i]} | 0 <= i < |stream| :: stream[i] == history(base + i)
  }

  /** A FIN the stream went past lies on a byte that was received. */
  ghost predicate FinSound(pendingFin: Option<nat>, base: nat, end: nat, history: nat -> Option<Byte>) {
    pendingFin.Some? ==>
      base <= pendingFin.value && (pendingFin.value < end ==> history(pendingFin.value).Some?)
  }

  datatype Clip = Clip(data: seq<Byte>, pendingFin: Option<nat>, finNeedsAck: bool, trimmed: bool)

  predicate AckPast(peerAck: Option<nat>, f: nat) {
    peerAck.Some? && peerAck.value > f
  }

  /** Payload against a pending FIN: an unacknowledged tentative marker yields to
      payload beyond it, any other marker is a hard bound. */
  function ClipAtFin(start: nat, data: seq<Byte>, pendingFin: Option<nat>, finNeedsAck: bool, peerAck: Option<nat>): Clip {
    match pendingFin
    case None => Clip(data, pendingFin, finNeedsAck, false)
    case Some(f) =>
      if start + |data| <= f then Clip(data, pendingFin, finNeedsAck, false)
      else if finNeedsAck && !AckPast(peerAck, f) then Clip(data, None, false, false)
      else if start >= f then Clip([], pendingFin, finNeedsAck, data != [])
      else Clip(data[..f - start], pendingFin, finNeedsAck, true)
  }

  /** The marker an open half is left with after a segment `[start, end)`. */
  ghost function TentativeFin(pending: Option<nat>, fin: bool, start: nat, end: nat, expected: nat): Option<nat> {
    var marked := if pending.None? && fin && end >= expected then Some(end) else pending;
    if marked.Some? && end > marked.value then None else marked
  }

  /** The value of a half-stream that has seen a packet. Beside the program's fields
      it carries the position of stream offset zero, the first byte accepted for
      each position, and what has been delivered so far (None inside a gap). */
  datatype State = State(
    next: nat, streamOffset: nat, ooo: seq<Segment>, oooBytes: nat, pendingFin: Option<nat>,
    finNeedsAck: bool, finConsumed: bool, peerAck: Option<nat>, gapStarted: Option<nat>,
    synSeq: Option<Seq32>, base: nat, history: nat -> Option<Byte>, stream: seq<Option<Byte>>)

  /** A half in the middle of a call, with what the call has reported so far. */
  datatype Run = Run(s: State, out: Outcome)

  // ---------- Transitions ----------

  ghost predicate FinReady(s: State) {
    && s.pendingFin.Some? && !s.finConsumed
    && s.pendingFin.value <= s.next
    && (s.pendingFin.value == s.next ==> !s.finNeedsAck || AckPast(s.peerAck, s.pendingFin.value))
  }

  ghost function ConsumeFin(x: Run): (y: Run)
    ensures y.s.peerAck == x.s.peerAck && y.s.pendingFin == x.s.pendingFin
    ensures y.s.ooo == x.s.ooo || y.s.ooo == []
  {
    if FinReady(x.s) then
      Run(x.s.(next := Max(x.s.next, x.s.pendingFin.value + 1), finConsumed := true, finNeedsAck := false,
               ooo := [], oooBytes := 0, gapStarted := None),
          x.out.(finConsumed := true))
    else x
  }

  ghost function Known(data: seq<Byte>): seq<Option<Byte>> {
    seq(|data|, i requires 0 <= i < |data| => Some(data[i]))
  }

  ghost function Unknown(n: nat): seq<Option<Byte>> {
    seq(n, i => None)
  }

  ghost function Extended(s: State, data: seq<Byte>): State {
    s.(next := s.next + |data|, streamOffset := s.streamOffset + |data|, stream := s.stream + Known(data))
  }

  ghost function Skipped(s: State, bound: nat): State
    requires s.next <= bound
  {
    s.(next := bound, streamOffset := s.streamOffset + (bound - s.next), stream := s.stream + Unknown(bound - s.next))
  }

  ghost function Emit(x: Run, data: seq<Byte>, ts: nat): Run {
    if data == [] then x
    else ConsumeFin(Run(Extended(x.s, data), x.out.(emitted := x.out.emitted + [Chunk(x.s.streamOffset, ts, data)])))
  }

  /** A gap is never synthesized across a FIN marker. */
  ghost function GapBound(s: State, target: nat): nat {
    if s.pendingFin.Some? then Min(target, s.pendingFin.value) else target
  }

  ghost function EmitGap(x: Run, target: nat): (y: Run)
    ensures y.s.peerAck == x.s.peerAck && y.s.pendingFin == x.s.pendingFin
    ensures y.s.ooo == x.s.ooo || y.s.ooo == []
  {
    var bound := GapBound(x.s, target);
    if bound <= x.s.next then x
    else ConsumeFin(Run(Skipped(x.s, bound), x.out.(gaps := x.out.gaps + [Gap(x.s.streamOffset, bound - x.s.next)])))
  }

  ghost function Popped(s: State): State
    requires s.ooo != []
  {
    s.(ooo := s.ooo[1..], oooBytes := Max(s.oooBytes - |s.ooo[0].data|, 0))
  }

  /** Removes the first buffered segment and delivers what of it is new. */
  ghost function FlushOne(x: Run): (y: Run)
    requires x.s.ooo != []
    ensures |y.s.ooo| < |x.s.ooo| && y.s.peerAck == x.s.peerAck
  {
    var first := x.s.ooo[0];
    var overlap := Max(x.s.next - first.start, 0);
    var rest := x.(s := Popped(x.s));
    if overlap >= |first.data| then rest else Emit(rest, first.data[overlap..], first.ts)
  }

  /** Delivers every buffered byte that has become contiguous. */
  ghost function Flush(x: Run): (y: Run)
    ensures |y.s.ooo| < |x.s.ooo| || y == x
    ensures y.s.peerAck == x.s.peerAck
    decreases |x.s.ooo|
  {
    if x.s.finConsumed || x.s.ooo == [] || x.s.ooo[0].start > x.s.next then x else Flush(FlushOne(x))
  }

  /** Gives up the hole before the first buffered segment, up to `target`. */
  ghost function SkipHole(x: Run, target: nat): Run
    requires x.s.ooo != []
  {
    if x.s.ooo[0].start > x.s.next then EmitGap(x, target) else x
  }

  ghost predicate Stuck(y: Run, z: Run) {
    z.s.next == y.s.next && z.s.oooBytes == y.s.oooBytes
  }

  /** The peer's cumulative ACK resolves every hole below it. */
  ghost function RecoverAck(x: Run): Run
    decreases |x.s.ooo|
  {
    if x.s.peerAck.None? || x.s.next >= x.s.peerAck.value then x
    else if x.s.ooo == [] then
      if x.s.pendingFin.Some? && x.s.pendingFin.value > x.s.next && AckPast(x.s.peerAck, x.s.pendingFin.value)
      then ConsumeFin(EmitGap(x, x.s.pendingFin.value))
      else x
    else
      var y := SkipHole(x, Min(x.s.ooo[0].start, x.s.peerAck.value));
      if y.s.next >= x.s.peerAck.value then y
      else
        var z := Flush(y);
        if z.s.finConsumed || Stuck(y, z) then z else RecoverAck(z)
  }

  ghost predicate Over(s: State, maxOoo: nat, maxSegments: nat) {
    s.oooBytes > maxOoo || |s.ooo| > maxSegments
  }

  /** Memory pressure gives up holes until the store fits its limits. */
  ghost function RecoverPressure(x: Run, maxOoo: nat, maxSegments: nat): Run
    decreases |x.s.ooo|
  {
    if !Over(x.s, maxOoo, maxSegments) || x.s.ooo == [] then x
    else
      var y := SkipHole(x, x.s.ooo[0].start);
      var z := Flush(y);
      if z.s.finConsumed || z.s.oooBytes >= y.s.oooBytes then z
      else RecoverPressure(z, maxOoo, maxSegments)
  }

  /** A hole that stayed open for `maxAge` is given up; a fresh one starts a timer. */
  ghost function RecoverTimeout(x: Run, maxAge: nat, ts: nat): Run {
    if x.s.ooo == [] then x.(s := x.s.(gapStarted := None))
    else if x.s.ooo[0].start <= x.s.next then Flush(x.(s := x.s.(gapStarted := None)))
    else if x.s.gapStarted.None? then x.(s := x.s.(gapStarted := Some(ts)))
    else if Max(ts - x.s.gapStarted.value, 0) < maxAge then x
    else
      var z := Flush(EmitGap(x, x.s.ooo[0].start));
      z.(s := z.s.(gapStarted := if z.s.ooo != [] && z.s.ooo[0].start > z.s.next then Some(ts) else None))
  }

  /** Closing a flow drains what is still buffered. */
  ghost function Drain(x: Run): Run
    decreases |x.s.ooo|
  {
    if x.s.ooo == [] then x
    else
      var y := SkipHole(x, x.s.ooo[0].start);
      var z := Flush(y);
      if z.s.finConsumed || Stuck(y, z) then z else Drain(z)
  }

  datatype Inserted = Inserted(ooo: seq<Segment>, added: nat, overlapped: bool)

  /** Nothing held covers `cursor`. */
  predicate InHole(ooo: seq<Segment>, cursor: nat) {
    var n := CountUpTo(ooo, cursor);
    n > 0 ==> ooo[n - 1].End() <= cursor
  }

  /** Where the piece that starts at `cursor` must end. */
  function PieceEnd(ooo: seq<Segment>, end: nat, cursor: nat): nat {
    var n := CountUpTo(ooo, cursor);
    if n < |ooo| && ooo[n].start < end then ooo[n].start else end
  }

  /** A held segment starts right where that piece ends. */
  predicate NextInWay(ooo: seq<Segment>, end: nat, cursor: nat) {
    var n := CountUpTo(ooo, cursor);
    n < |ooo| && ooo[n].start < end && ooo[n].End() > PieceEnd(ooo, end, cursor)
  }

  /** One turn of the insertion: the next cursor, and the store after it. */
  function CursorAfter(ooo: seq<Segment>, end: nat, cursor: nat): (further: nat)
    ensures cursor < end ==> cursor < further <= end
  {
    var n := CountUpTo(ooo, cursor);
    if !InHole(ooo, cursor) then Min(ooo[n - 1].End(), end)
    else if NextInWay(ooo, end, cursor) then Min(ooo[n].End(), end)
    else PieceEnd(ooo, end, cursor)
  }

  function StoreAfter(ooo: seq<Segment>, start: nat, data: seq<Byte>, ts: nat, cursor: nat): seq<Segment>
    requires start <= cursor < start + |data|
  {
    if !InHole(ooo, cursor) then ooo
    else
      var n := CountUpTo(ooo, cursor);
      var pieceEnd := PieceEnd(ooo, start + |data|, cursor);
      Spliced(ooo, n, Segment(cursor, data[cursor - start..pieceEnd - start], ts))
  }

  /** Files `data[cursor - start..]` into the holes of the store: bytes already held
      stay as they are, so the first copy seen wins. */
  function InsertFrom(ooo: seq<Segment>, start: nat, data: seq<Byte>, ts: nat, cursor: nat): Inserted
    requires start <= cursor
    decreases start + |data| - cursor
  {
    var end := start + |data|;
    if cursor >= end then Inserted(ooo, 0, false)
    else
      var rest := InsertFrom(StoreAfter(ooo, start, data, ts, cursor), start, data, ts, CursorAfter(ooo, end, cursor));
      if !InHole(ooo, cursor) then rest.(overlapped := true)
      else Inserted(rest.ooo, rest.added + (PieceEnd(ooo, end, cursor) - cursor),
                    rest.overlapped || NextInWay(ooo, end, cursor))
  }

  /** One turn, seen from the whole insertion. */
  lemma InsertTurn(ooo: seq<Segment>, start: nat, data: seq<Byte>, ts: nat, cursor: nat)
    requires start <= cursor < start + |data|
    ensures var end := start + |data|;
      var r := InsertFrom(ooo, start, data, ts, cursor);
      var rest := InsertFrom(StoreAfter(ooo, start, data, ts, cursor), start, data, ts, CursorAfter(ooo, end, cursor));
      && r.ooo == rest.ooo
      && r.added == rest.added + (if InHole(ooo, cursor) then PieceEnd(ooo, end, cursor) - cursor else 0)
      && r.overlapped == (rest.overlapped || !InHole(ooo, cursor) || NextInWay(ooo, end, cursor))
  {
  }

  lemma InsertDone(ooo: seq<Segment>, start: nat, data: seq<Byte>, ts: nat, cursor: nat)
    requires start <= cursor && start + |data| <= cursor
    ensures InsertFrom(ooo, start, data, ts, cursor) == Inserted(ooo, 0, false)
  {
  }

  ghost function Insert(x: Run, start: nat, ts: nat, data: seq<Byte>): Run {
    var r := InsertFrom(x.s.ooo, start, data, ts, start);
    Run(x.s.(ooo := r.ooo, oooBytes := x.s.oooBytes + r.added),
        x.out.(retransmit := x.out.retransmit || r.overlapped))
  }

  /** `data` at `start` has been heard; the copy heard first stays on record. */
  ghost function Heard(s: State, start: nat, data: seq<Byte>): State {
    s.(history := (p: nat) => Recorded(s.history, start, data, s.next, p))
  }

  /** What a segment's payload does. */
  ghost function Payload(x0: Run, start: nat, ts: nat, data: seq<Byte>, maxOoo: nat, maxSegments: nat): Run {
    var x := x0.(s := Heard(x0.s, start, data));
    if data == [] then x
    else if start > x.s.next then
      RecoverPressure(RecoverAck(Insert(x.(out := x.out.(outOfOrder := true)), start, ts, data)), maxOoo, maxSegments)
    else
      var overlap := x.s.next - start;
      var y := x.(out := x.out.(retransmit := x.out.retransmit || overlap > 0));
      if overlap >= |data| then y
      else if x.s.ooo == [] then Emit(y, data[overlap..], ts)
      else RecoverPressure(RecoverAck(Flush(Insert(y, x.s.next, ts, data[overlap..]))), maxOoo, maxSegments)
  }

  datatype Marker = Marker(pendingFin: Option<nat>, finNeedsAck: bool)

  /** How a FIN at the end of `[start, end)` changes the pending marker. */
  function MarkFin(m: Marker, fin: bool, start: nat, end: nat, expected: nat): Marker {
    if !fin || end < expected then m
    else match m.pendingFin
      case None => Marker(Some(end), start > expected)
      case Some(existing) =>
        if existing == end && start <= expected then m.(finNeedsAck := false)
        else if m.finNeedsAck && start <= expected then Marker(Some(end), false)
        else m
  }

  ghost function Accept(s: State, start: nat, fin: bool, ts: nat, data: seq<Byte>,
                        maxOoo: nat, maxSegments: nat, gapTimeout: nat): Run
  {
    if s.finConsumed then Run(s, NOTHING.(retransmit := data != []))
    else
      var m := MarkFin(Marker(s.pendingFin, s.finNeedsAck), fin, start, start + |data|, s.next);
      var c := ClipAtFin(start, data, m.pendingFin, m.finNeedsAck, s.peerAck);
      var marked := s.(pendingFin := c.pendingFin, finNeedsAck := c.finNeedsAck);
      var x := Payload(Run(marked, NOTHING.(retransmit := c.trimmed)), start, ts, c.data, maxOoo, maxSegments);
      var y := if x.s.pendingFin.Some? && !x.s.finConsumed then RecoverAck(x) else x;
      ConsumeFin(RecoverTimeout(y, gapTimeout, ts))
  }

  /** The highest cumulative ACK seen is remembered. */
  ghost function Acked(s: State, ack: nat): State {
    if ack > s.next && (s.peerAck.None? || ack > s.peerAck.value) then s.(peerAck := Some(ack)) else s
  }

  ghost function Acknowledge(s: State, ack: nat, ts: nat, gapTimeout: nat): Run {
    var t := Acked(s, ack);
    if t.ooo == [] && t.pendingFin.None? then Run(t, NOTHING)
    else ConsumeFin(RecoverTimeout(RecoverAck(Run(t, NOTHING)), gapTimeout, ts))
  }

  ghost function Finalize(s: State): Run {
    var z := ConsumeFin(Drain(Run(s, NOTHING)));
    z.(s := z.s.(gapStarted := None))
  }

  // ---------- Invariants ----------

  /** What holds at every point inside a call. */
  ghost predicate Core(s: State) {
    && |s.stream| == s.streamOffset
    && s.base >= INITIAL_SEQ_EPOCH
    && Shows(s.stream, s.base, s.history)
    && Sorted(s.ooo) && s.oooBytes == Bytes(s.ooo)
    && FinSound(s.pendingFin, s.base, s.base + |s.stream|, s.history)
    && if s.finConsumed then Closed(s) else
         && s.next == s.base + |s.stream|
         && (s.pendingFin.Some? ==> s.next <= s.pendingFin.value)
  }

  /** A consumed FIN leaves nothing buffered and takes one sequence number. */
  ghost predicate Closed(s: State) {
    && s.ooo == [] && s.gapStarted == None && s.pendingFin.Some?
    && s.pendingFin.value <= s.base + |s.stream|
    && s.next == Max(s.base + |s.stream|, s.pendingFin.value + 1)
  }

  /** From `p` on, the out-of-order store holds exactly the accepted bytes. */
  ghost predicate Buffered(s: State, p: nat) {
    forall q: nat | q >= p :: At(s.ooo, q) == s.history(q)
  }

  ghost predicate Ready(s: State) {
    Core(s) && (!s.finConsumed ==> Buffered(s, s.next))
  }

  /** What holds between calls. An open half has delivered everything it could:
      nothing buffered is deliverable or below the peer's ACK, and a FIN that was
      validated or acknowledged would already have closed it. */
  ghost predicate Settled(s: State) {
    && Ready(s)
    && (!s.finConsumed ==>
          && (s.ooo != [] ==> s.ooo[0].start > s.next)
          && (s.ooo != [] && s.peerAck.Some? ==> s.peerAck.value <= s.next)
          && (if s.pendingFin.Some? then s.finNeedsAck && !AckPast(s.peerAck, s.pendingFin.value)
              else !s.finNeedsAck))
  }

  /** How every step inside a call may change a half. */
  ghost predicate Evolves(s: State, t: State) {
    && t.synSeq == s.synSeq && t.base == s.base && t.history == s.history
    && t.peerAck == s.peerAck && t.pendingFin == s.pendingFin
    && s.stream <= t.stream
    && (s.finConsumed ==> t == s)
    && (!t.finConsumed ==> t.finNeedsAck == s.finNeedsAck && (FinReady(t) ==> FinReady(s)))
    && (t.finConsumed && !s.finConsumed && t.pendingFin.Some? ==>
          t.pendingFin.value < t.base + |t.stream| || !s.finNeedsAck || AckPast(s.peerAck, t.pendingFin.value))
  }

  /** Whether a buffered segment is left to a FIN: it starts beyond the marker, or at a
      marker that is a hard bound and not yet reached. */
  ghost predicate LeftToFin(s: State, start: nat, f: nat) {
    start > f || (start == f && !(s.finNeedsAck && !AckPast(s.peerAck, f)) && !FinReady(s))
  }

  /** What becomes of the segments buffered in `s`: an open half keeps a suffix and
      has delivered the rest whole; a half just closed delivered some whole and
      dropped the others whole, among them all that are left to its FIN. */
  ghost predicate Fate(s: State, t: State) {
    var end := t.base + |t.stream|;
    && (!t.finConsumed ==>
          && IsSuffix(t.ooo, s.ooo)
          && forall i | 0 <= i < |s.ooo| - |t.ooo| :: s.ooo[i].End() <= end)
    && (t.finConsumed && !s.finConsumed ==>
          && t.pendingFin.Some?
          && (forall i | 0 <= i < |s.ooo| :: s.ooo[i].End() <= end || end <= s.ooo[i].start)
          && (forall i | 0 <= i < |s.ooo| && LeftToFin(s, s.ooo[i].start, t.pendingFin.value) :: end <= s.ooo[i].start))
  }

  /** Nothing but deliveries is reported, and a FIN that got consumed. */
  ghost predicate Reports(x: Run, y: Run) {
    y.out == x.out.(emitted := y.out.emitted, gaps := y.out.gaps,
                    finConsumed := x.out.finConsumed || (y.s.finConsumed && !x.s.finConsumed))
  }

  /** What the call reported tiles the stream delivered since offset `from`. */
  ghost predicate Accounts(x: Run, from: nat) {
    Tiles(x.out.emitted, x.out.gaps, x.s.stream, from, |x.s.stream|)
  }

  ghost predicate Advances(x: Run, y: Run, from: nat) {
    && Ready(y.s) && Evolves(x.s, y.s) && Fate(x.s, y.s) && Reports(x, y) && Accounts(y, from)
  }

  // ---------- Every step advances ----------

  lemma EvolvesTrans(s: State, t: State, u: State)
    requires Evolves(s, t) && Evolves(t, u)
    ensures Evolves(s, u)
  {
  }

  lemma FateTrans(s: State, t: State, u: State)
    requires Core(t) && Evolves(s, t) && Evolves(t, u) && Fate(s, t) && Fate(t, u)
    ensures Fate(s, u)
  {
    if !u.finConsumed {
      SuffixTrans(u.ooo, t.ooo, s.ooo);
    }
    if !t.finConsumed {
      var k := |s.ooo| - |t.ooo|;
      assert forall i | k <= i < |s.ooo| :: s.ooo[i] == t.ooo[i - k];
    }
  }

  lemma ReportsTrans(x: Run, y: Run, z: Run)
    requires Reports(x, y) && Reports(y, z) && Evolves(x.s, y.s) && Evolves(y.s, z.s)
    ensures Reports(x, z)
  {
  }

  lemma Chain(x: Run, y: Run, z: Run, from: nat)
    requires Advances(x, y, from) && Advances(y, z, from)
    ensures Advances(x, z, from)
  {
    hide Evolves, Fate, Reports, Core, Buffered, Accounts;
    EvolvesTrans(x.s, y.s, z.s);
    FateTrans(x.s, y.s, z.s);
    ReportsTrans(x, y, z);
  }

  lemma Still(x: Run, from: nat)
    requires Ready(x.s) && Accounts(x, from)
    ensures Advances(x, x, from)
  {
  }

  /** Before the first buffered segment, no byte from the next position on is known. */
  lemma NothingBelowFirst(s: State, p: nat)
    requires Ready(s) && !s.finConsumed
    requires p >= s.next && (s.ooo != [] ==> p < s.ooo[0].start)
    ensures s.history(p) == None
  {
    AtHole(s.ooo, 0, p);
  }

  /** The program's invariant, between extending the stream and looking at the FIN. */
  ghost predicate Unchecked(s: State) {
    && |s.stream| == s.streamOffset
    && s.base >= INITIAL_SEQ_EPOCH
    && Shows(s.stream, s.base, s.history)
    && Sorted(s.ooo) && s.oooBytes == Bytes(s.ooo)
    && FinSound(s.pendingFin, s.base, s.base + |s.stream|, s.history)
    && !s.finConsumed && s.next == s.base + |s.stream|
    && Buffered(s, s.next)
  }

  lemma ConsumeReady(x: Run)
    requires Unchecked(x.s)
    ensures Ready(ConsumeFin(x).s) && !FinReady(ConsumeFin(x).s)
    ensures Evolves(x.s, ConsumeFin(x).s) && Reports(x, ConsumeFin(x))
    ensures ConsumeFin(x).s.stream == x.s.stream
    ensures ConsumeFin(x).out.emitted == x.out.emitted && ConsumeFin(x).out.gaps == x.out.gaps
    ensures !ConsumeFin(x).s.finConsumed ==> ConsumeFin(x) == x
  {
  }

  lemma EvolvesSelf(x: Run)
    ensures Evolves(x.s, x.s) && Reports(x, x)
  {
  }

  lemma ShowsBytes(s: State, data: seq<Byte>)
    requires Core(s) && !s.finConsumed
    requires forall p: nat | s.next <= p < s.next + |data| :: s.history(p) == Cell(s.next, data, p)
    ensures Shows(s.stream + Known(data), s.base, s.history)
  {
    var longer := s.stream + Known(data);
    forall i | 0 <= i < |longer|
      ensures longer[i] == s.history(s.base + i)
    {
      if i >= |s.stream| {
        assert s.history(s.base + i) == Cell(s.next, data, s.base + i);
      }
    }
  }

  lemma ExtendedUnchecked(s: State, data: seq<Byte>)
    requires Core(s) && !s.finConsumed && Buffered(s, s.next + |data|)
    requires forall p: nat | s.next <= p < s.next + |data| :: s.history(p) == Cell(s.next, data, p)
    ensures Unchecked(Extended(s, data))
  {
    ShowsBytes(s, data);
    hide Shows, Sorted, Bytes;
    if s.pendingFin.Some? && s.pendingFin.value < s.next + |data| {
      assert s.history(s.pendingFin.value) == Cell(s.next, data, s.pendingFin.value);
    }
  }

  lemma EmitEvolves(x: Run, data: seq<Byte>, ts: nat, from: nat)
    requires Core(x.s) && !x.s.finConsumed && Buffered(x.s, x.s.next + |data|) && Accounts(x, from)
    requires forall p: nat | x.s.next <= p < x.s.next + |data| :: x.s.history(p) == Cell(x.s.next, data, p)
    ensures var y := Emit(x, data, ts);
      && Ready(y.s) && Evolves(x.s, y.s) && Reports(x, y) && Accounts(y, from)
      && |y.s.stream| == |x.s.stream| + |data|
      && y.out.gaps == x.out.gaps
      && (!y.s.finConsumed ==> y.s == Extended(x.s, data))
  {
    CoreFacts(x.s);
    hide Core, Unchecked, Buffered, Tiles, ConsumeFin, Evolves, Reports;
    if data == [] {
      assert Extended(x.s, data) == x.s;
      EvolvesSelf(x);
    } else {
      var c := Chunk(x.s.streamOffset, ts, data);
      var t := Run(Extended(x.s, data), x.out.(emitted := x.out.emitted + [c]));
      ExtendedUnchecked(x.s, data);
      TilesAddChunk(x.out.emitted, x.out.gaps, x.s.stream, t.s.stream, from, c);
      ConsumeReady(t);
      LongerEvolves(x, t, ConsumeFin(t));
    }
  }

  lemma SkippedUnchecked(s: State, bound: nat)
    requires Ready(s) && !s.finConsumed && s.next < bound && (s.ooo != [] ==> bound <= s.ooo[0].start)
    requires s.pendingFin.Some? ==> bound <= s.pendingFin.value
    ensures Unchecked(Skipped(s, bound))
  {
    var longer := s.stream + Unknown(bound - s.next);
    assert Shows(longer, s.base, s.history) by {
      forall i | 0 <= i < |longer|
        ensures longer[i] == s.history(s.base + i)
      {
        if i >= |s.stream| {
          NothingBelowFirst(s, s.base + i);
        }
      }
    }
  }

  /** A gap covers no byte known at that moment, and never passes the FIN. */
  lemma GapAdvances(x: Run, target: nat, from: nat)
    requires Ready(x.s) && !x.s.finConsumed && Accounts(x, from)
    requires x.s.ooo != [] ==> target <= x.s.ooo[0].start
    ensures var y := EmitGap(x, target);
      && Advances(x, y, from)
      && y.out.emitted == x.out.emitted
      && (!y.s.finConsumed ==>
            y.s == if GapBound(x.s, target) <= x.s.next then x.s else Skipped(x.s, GapBound(x.s, target)))
  {
    hide Core, Unchecked, Buffered, Tiles, Sorted, Fate, ConsumeFin, Evolves, Reports;
    var bound := GapBound(x.s, target);
    CoreFacts(x.s);
    if bound > x.s.next {
      var g := Gap(x.s.streamOffset, bound - x.s.next);
      var t := Run(Skipped(x.s, bound), x.out.(gaps := x.out.gaps + [g]));
      SkippedUnchecked(x.s, bound);
      TilesAddGap(x.out.emitted, x.out.gaps, x.s.stream, t.s.stream, from, g);
      ConsumeReady(t);
      var y := ConsumeFin(t);
      CoreFacts(y.s);
      LongerEvolves(x, t, y);
      GapFate(x.s, bound, y.s);
    } else {
      Still(x, from);
    }
  }

  lemma LongerEvolves(x: Run, t: Run, y: Run)
    requires !x.s.finConsumed && x.s.stream <= t.s.stream
    requires t.s == x.s.(next := t.s.next, streamOffset := t.s.streamOffset, stream := t.s.stream)
    requires t.out == x.out.(emitted := t.out.emitted, gaps := t.out.gaps)
    requires Evolves(t.s, y.s) && Reports(t, y) && !FinReady(y.s)
    ensures Evolves(x.s, y.s) && Reports(x, y)
  {
  }

  lemma GapFate(s: State, bound: nat, t: State)
    requires Core(s) && !s.finConsumed && (s.ooo != [] ==> bound <= s.ooo[0].start)
    requires t.base + |t.stream| == bound && (t.finConsumed ==> t.pendingFin.Some?) && (!t.finConsumed ==> t.ooo == s.ooo)
    ensures Fate(s, t)
  {
    FirstIsLowest(s.ooo);
  }

  lemma FirstIsLowest(ooo: seq<Segment>)
    requires Sorted(ooo)
    ensures forall i | 0 <= i < |ooo| :: ooo[0].start <= ooo[i].start
    ensures forall i | 0 < i < |ooo| :: ooo[0].End() <= ooo[i].start
  {
  }

  /** A buffered segment that reaches the next position supplies the bytes due. */
  lemma HeadIsDue(s: State)
    requires Ready(s) && !s.finConsumed && s.ooo != [] && s.ooo[0].start <= s.next
    ensures Core(Popped(s)) && Buffered(Popped(s), Max(s.next, s.ooo[0].End()))
    ensures forall p: nat | s.next <= p < s.ooo[0].End() :: s.history(p) == Cell(s.ooo[0].start, s.ooo[0].data, p)
  {
    forall q: nat | q >= Max(s.next, s.ooo[0].End())
      ensures At(s.ooo[1..], q) == s.history(q)
    {
      assert At(s.ooo, q) == At(s.ooo[1..], q);
    }
    forall p: nat | s.next <= p < s.ooo[0].End()
      ensures s.history(p) == Cell(s.ooo[0].start, s.ooo[0].data, p)
    {
      assert At(s.ooo, p) == s.history(p);
    }
  }

  lemma CellTail(start: nat, data: seq<Byte>, overlap: nat)
    requires overlap <= |data|
    ensures forall p: nat | start + overlap <= p < start + |data| :: Cell(start + overlap, data[overlap..], p) == Cell(start, data, p)
  {
  }

  lemma CoreFacts(s: State)
    requires Core(s)
    ensures |s.stream| == s.streamOffset && Sorted(s.ooo) && s.oooBytes == Bytes(s.ooo)
    ensures if s.finConsumed then Closed(s) else s.next == s.base + |s.stream|
  {
  }

  lemma PoppedFate(x: Run, y: Run)
    requires Core(x.s) && !x.s.finConsumed && x.s.ooo != [] && x.s.ooo[0].start <= x.s.next
    requires Evolves(Popped(x.s), y.s) && (!y.s.finConsumed ==> y.s.ooo == x.s.ooo[1..])
    requires y.s.base + |y.s.stream| == Max(x.s.next, x.s.ooo[0].End())
    requires y.s.finConsumed ==> x.s.ooo[0].End() > x.s.next && y.s.pendingFin.Some?
    ensures Fate(x.s, y.s)
  {
    FirstIsLowest(x.s.ooo);
  }

  lemma FlushOneAdvances(x: Run, from: nat)
    requires Ready(x.s) && !x.s.finConsumed && x.s.ooo != [] && x.s.ooo[0].start <= x.s.next && Accounts(x, from)
    ensures var y := FlushOne(x);
      && Advances(x, y, from)
      && y.out.gaps == x.out.gaps
      && (!y.s.finConsumed ==> y.s.ooo == x.s.ooo[1..] && y.s.gapStarted == x.s.gapStarted)
  {
    HeadIsDue(x.s);
    CoreFacts(x.s);
    var first := x.s.ooo[0];
    var overlap := x.s.next - first.start;
    var rest := x.(s := Popped(x.s));
    if overlap < |first.data| {
      FlushOneEmits(x, from);
    } else {
      PoppedFate(x, rest);
    }
  }

  lemma PoppedEvolves(x: Run, y: Run)
    requires !x.s.finConsumed && x.s.ooo != [] && Evolves(Popped(x.s), y.s) && Reports(x.(s := Popped(x.s)), y)
    ensures Evolves(x.s, y.s) && Reports(x, y)
  {
  }

  lemma FlushOneEmits(x: Run, from: nat)
    requires Ready(x.s) && !x.s.finConsumed && x.s.ooo != [] && x.s.ooo[0].start <= x.s.next < x.s.ooo[0].End()
    requires Accounts(x, from)
    ensures var y := FlushOne(x);
      && Advances(x, y, from)
      && y.out.gaps == x.out.gaps
      && (!y.s.finConsumed ==> y.s.ooo == x.s.ooo[1..] && y.s.gapStarted == x.s.gapStarted)
    ensures FlushOne(x).s.base + |FlushOne(x).s.stream| == x.s.ooo[0].End()
    ensures FlushOne(x).out.emitted == x.out.emitted
      + [Chunk(x.s.streamOffset, x.s.ooo[0].ts, x.s.ooo[0].data[x.s.next - x.s.ooo[0].start..])]
  {
    hide Buffered, Tiles, Sorted, Emit, Shows, Fate, FlushOne, Evolves, Reports, FinSound, Bytes;
    HeadIsDue(x.s);
    CoreFacts(x.s);
    CoreFacts(Popped(x.s));
    FlushOneShape(x);
    hide Core;
    var first := x.s.ooo[0];
    var overlap := x.s.next - first.start;
    var rest := x.(s := Popped(x.s));
    var y := FlushOne(x);
    CellTail(first.start, first.data, overlap);
    EmitEvolves(rest, first.data[overlap..], first.ts, from);
    CoreFacts(y.s);
    PoppedFate(x, y);
    PoppedEvolves(x, y);
  }

  /** What flushing one segment that reaches over the next position emits. */
  lemma FlushOneShape(x: Run)
    requires !x.s.finConsumed && x.s.ooo != [] && x.s.ooo[0].start <= x.s.next < x.s.ooo[0].End()
    ensures var first := x.s.ooo[0]; var rest := first.data[x.s.next - first.start..];
      && FlushOne(x) == Emit(x.(s := Popped(x.s)), rest, first.ts) && FlushOne(x).s.base == x.s.base
      && |rest| == first.End() - x.s.next
      && FlushOne(x).out.emitted == x.out.emitted + [Chunk(x.s.streamOffset, first.ts, rest)]
  {
  }

  lemma {:induction false} FlushAdvances(x: Run, from: nat)
    requires Ready(x.s) && Accounts(x, from)
    ensures Advances(x, Flush(x), from)
    ensures Flush(x).out.gaps == x.out.gaps
    ensures !Flush(x).s.finConsumed ==>
      && Flush(x).s.gapStarted == x.s.gapStarted
      && (Flush(x).s.ooo != [] ==> Flush(x).s.ooo[0].start > Flush(x).s.next)
    decreases |x.s.ooo|
  {
    hide Ready, Accounts, Advances;
    if x.s.finConsumed || x.s.ooo == [] || x.s.ooo[0].start > x.s.next {
      Still(x, from);
    } else {
      var y := FlushOne(x);
      FlushOneAdvances(x, from);
      Parts(x, y, from);
      FlushAdvances(y, from);
      Chain(x, y, Flush(y), from);
      StaysConsumed(y, Flush(y), from);
    }
  }

  lemma Parts(x: Run, y: Run, from: nat)
    requires Advances(x, y, from)
    ensures Ready(y.s) && Accounts(y, from)
    ensures y.s.pendingFin == x.s.pendingFin && y.s.peerAck == x.s.peerAck
    ensures y.s.finConsumed ==> y.s.ooo == [] && y.s.pendingFin.Some? && y.s.pendingFin.value < y.s.next
    ensures !y.s.finConsumed ==> Sorted(y.s.ooo) && y.s.oooBytes == Bytes(y.s.ooo)
  {
  }

  lemma StaysConsumed(x: Run, y: Run, from: nat)
    requires Advances(x, y, from)
    ensures x.s.finConsumed ==> y.s == x.s
  {
  }

  lemma SkipHoleAdvances(x: Run, target: nat, from: nat)
    requires Ready(x.s) && x.s.ooo != [] && target <= x.s.ooo[0].start && Accounts(x, from)
    ensures Advances(x, SkipHole(x, target), from)
    ensures var y := SkipHole(x, target).s; !y.finConsumed ==>
      && y.ooo == x.s.ooo && y.gapStarted == x.s.gapStarted
      && (x.s.ooo[0].start > x.s.next ==> y.next == Max(x.s.next, GapBound(x.s, target)))
      && (x.s.ooo[0].start <= x.s.next ==> y == x.s)
  {
    assert !x.s.finConsumed;
    hide Ready, Accounts, Advances, EmitGap;
    if x.s.ooo[0].start > x.s.next {
      GapAdvances(x, target, from);
    } else {
      Still(x, from);
    }
  }

  /** The half waits at a FIN marker short of all it has buffered. */
  ghost predicate AtMarker(s: State, target: nat) {
    && s.pendingFin.Some? && s.next == s.pendingFin.value < target
    && s.ooo != [] && target <= s.ooo[0].start
  }

  /** One turn of a recovery loop: a hole given up, then a flush. */
  lemma TurnAdvances(x: Run, target: nat, from: nat)
    requires Ready(x.s) && x.s.ooo != [] && target <= x.s.ooo[0].start && Accounts(x, from)
    ensures var y := SkipHole(x, target);
      Advances(x, y, from) && Advances(y, Flush(y), from) && Advances(x, Flush(y), from)
    ensures var z := Flush(SkipHole(x, target)).s; !z.finConsumed ==>
      && z.gapStarted == x.s.gapStarted
      && (z.ooo != [] ==> z.ooo[0].start > z.next)
  {
    hide Ready, Accounts, Advances, SkipHole, Flush;
    var y := SkipHole(x, target);
    SkipHoleAdvances(x, target, from);
    Parts(x, y, from);
    FlushAdvances(y, from);
    StaysConsumed(y, Flush(y), from);
    Chain(x, y, Flush(y), from);
  }

  lemma StillOpen(x: Run, y: Run, from: nat)
    requires Advances(x, y, from) && !y.s.finConsumed
    ensures !x.s.finConsumed && IsSuffix(y.s.ooo, x.s.ooo)
  {
  }

  /** A turn that leaves the half open delivers something or ends at a FIN marker. */
  lemma TurnProgress(x: Run, target: nat, from: nat)
    requires Ready(x.s) && x.s.ooo != [] && target <= x.s.ooo[0].start && Accounts(x, from)
    requires !Flush(SkipHole(x, target)).s.finConsumed
    ensures var y := SkipHole(x, target); var z := Flush(y);
      && !y.s.finConsumed
      && (Stuck(y, z) <==> z == y)
      && (z.s.oooBytes >= y.s.oooBytes <==> z == y)
      && (z != y ==> |z.s.ooo| < |x.s.ooo|)
  {
    hide Ready, Accounts, Advances, SkipHole, Flush, Sorted, Bytes, IsSuffix;
    var y := SkipHole(x, target);
    var z := Flush(y);
    TurnAdvances(x, target, from);
    StillOpen(y, z, from);
    Parts(x, y, from);
    Parts(x, z, from);
    SkipHoleAdvances(x, target, from);
    if z != y {
      assert |z.s.ooo| < |y.s.ooo|;
      ShorterSuffix(z.s.ooo, y.s.ooo);
    }
  }

  /** A turn without effect was stopped by a FIN marker. */
  lemma TurnStopped(x: Run, target: nat, from: nat)
    requires Ready(x.s) && x.s.ooo != [] && target <= x.s.ooo[0].start && Accounts(x, from)
    requires var y := SkipHole(x, target); !y.s.finConsumed && Flush(y) == y && (y.s.next < target || target == x.s.ooo[0].start)
    ensures AtMarker(SkipHole(x, target).s, target)
  {
    hide Ready, Accounts, Advances, SkipHole;
    SkipHoleAdvances(x, target, from);
    TurnAdvances(x, target, from);
    Parts(x, SkipHole(x, target), from);
    CoreNext(x.s);
  }

  lemma CoreNext(s: State)
    requires Ready(s)
    ensures !s.finConsumed && s.pendingFin.Some? ==> s.next <= s.pendingFin.value
    ensures s.ooo != [] ==> !s.finConsumed
  {
  }

  lemma {:induction false} RecoverAckAdvances(x: Run, from: nat)
    requires Ready(x.s) && Accounts(x, from)
    ensures Advances(x, RecoverAck(x), from)
    ensures !RecoverAck(x).s.finConsumed ==> RecoverAck(x).s.gapStarted == x.s.gapStarted
    decreases |x.s.ooo|
  {
    hide Ready, Accounts, Advances, SkipHole, Flush, EmitGap, Emit;
    if x.s.peerAck.None? || x.s.next >= x.s.peerAck.value {
      Still(x, from);
    } else if x.s.ooo == [] {
      Still(x, from);
      Parts(x, x, from);
      if x.s.pendingFin.Some? && x.s.pendingFin.value > x.s.next && AckPast(x.s.peerAck, x.s.pendingFin.value) {
        GapAdvances(x, x.s.pendingFin.value, from);
        AckedFinCloses(x);
      }
    } else {
      var target := Min(x.s.ooo[0].start, x.s.peerAck.value);
      var y := SkipHole(x, target);
      var z := Flush(y);
      SkipHoleAdvances(x, target, from);
      TurnAdvances(x, target, from);
      Parts(x, z, from);
      if !(y.s.next >= x.s.peerAck.value) && !z.s.finConsumed && !Stuck(y, z) {
        TurnProgress(x, target, from);
        RecoverAckAdvances(z, from);
        Chain(x, z, RecoverAck(z), from);
        StaysConsumed(z, RecoverAck(z), from);
      }
    }
  }

  /** An acknowledged FIN closes the half once everything below it is given up. */
  lemma AckedFinCloses(x: Run)
    requires !x.s.finConsumed
    requires x.s.pendingFin.Some? && x.s.pendingFin.value > x.s.next && AckPast(x.s.peerAck, x.s.pendingFin.value)
    ensures EmitGap(x, x.s.pendingFin.value).s.finConsumed
    ensures ConsumeFin(EmitGap(x, x.s.pendingFin.value)) == EmitGap(x, x.s.pendingFin.value)
  {
  }

  /** One turn of the recovery. */
  lemma RecoverAckUnfolds(x: Run)
    requires x.s.peerAck.Some? && x.s.next < x.s.peerAck.value && x.s.ooo != []
    ensures var y := SkipHole(x, Min(x.s.ooo[0].start, x.s.peerAck.value)); var z := Flush(y);
      RecoverAck(x) == if y.s.next >= x.s.peerAck.value then y
                       else if z.s.finConsumed || Stuck(y, z) then z
                       else RecoverAck(z)
  {
    hide SkipHole, Flush, EmitGap, Emit;
  }

  /** With nothing buffered. */
  lemma RecoverAckEmpty(x: Run)
    requires x.s.ooo == [] && x.s.peerAck.Some? && !RecoverAck(x).s.finConsumed && !x.s.finConsumed
    ensures RecoverAck(x) == x
    ensures x.s.next < x.s.peerAck.value && x.s.pendingFin.Some? && AckPast(x.s.peerAck, x.s.pendingFin.value) ==>
      x.s.pendingFin.value <= x.s.next
  {
    if x.s.next < x.s.peerAck.value && x.s.pendingFin.Some? && x.s.pendingFin.value > x.s.next
       && AckPast(x.s.peerAck, x.s.pendingFin.value) {
      AckedFinCloses(x);
    }
  }

  /** What remains below the peer's ACK is resolved, or a FIN ready to be consumed. */
  lemma {:induction false} RecoverAckResolves(x: Run, from: nat)
    requires Ready(x.s) && Accounts(x, from) && x.s.peerAck.Some?
    requires !RecoverAck(x).s.finConsumed && RecoverAck(x).s.next < x.s.peerAck.value
    ensures var z := RecoverAck(x).s;
      FinReady(z) || (z.ooo == [] && (z.pendingFin.Some? ==> !AckPast(z.peerAck, z.pendingFin.value)))
    decreases |x.s.ooo|
  {
    hide Ready, Accounts, Advances, SkipHole, Flush, EmitGap, Emit, RecoverAck, Bytes, Sorted;
    RecoverAckAdvances(x, from);
    StillOpen(x, RecoverAck(x), from);
    CoreNext(x.s);
    NextGrows(x, RecoverAck(x), from);
    if x.s.ooo == [] {
      RecoverAckEmpty(x);
    } else {
      var target := Min(x.s.ooo[0].start, x.s.peerAck.value);
      var y := SkipHole(x, target);
      var z := Flush(y);
      RecoverAckUnfolds(x);
      TurnAdvances(x, target, from);
      Parts(x, y, from);
      Parts(x, z, from);
      TurnProgress(x, target, from);
      if z == y {
        TurnStopped(x, target, from);
      } else {
        RecoverAckResolves(z, from);
      }
    }
  }

  lemma {:induction false} RecoverPressureAdvances(x: Run, maxOoo: nat, maxSegments: nat, from: nat)
    requires Ready(x.s) && Accounts(x, from)
    ensures var z := RecoverPressure(x, maxOoo, maxSegments);
      && Advances(x, z, from)
      && (!z.s.finConsumed ==> z.s.gapStarted == x.s.gapStarted)
      && (!z.s.finConsumed ==>
            || !Over(z.s, maxOoo, maxSegments)
            || (z.s.pendingFin.Some? && z.s.ooo != [] && z.s.pendingFin.value < z.s.ooo[0].start))
    decreases |x.s.ooo|
  {
    hide Ready, Accounts, Advances, SkipHole, Flush;
    Still(x, from);
    Parts(x, x, from);
    if Over(x.s, maxOoo, maxSegments) && x.s.ooo != [] {
      var target := x.s.ooo[0].start;
      var y := SkipHole(x, target);
      var z := Flush(y);
      TurnAdvances(x, target, from);
      Parts(x, z, from);
      if !z.s.finConsumed {
        TurnProgress(x, target, from);
        if z == y {
          TurnStopped(x, target, from);
        } else {
          RecoverPressureAdvances(z, maxOoo, maxSegments, from);
          var u := RecoverPressure(z, maxOoo, maxSegments);
          Chain(x, z, u, from);
        }
      }
    }
  }

  ghost predicate TimedOut(s: State, maxAge: nat, ts: nat) {
    s.gapStarted.Some? && Max(ts - s.gapStarted.value, 0) >= maxAge
  }

  /** Setting or clearing the gap timer changes nothing else. */
  lemma TimerAdvances(x: Run, gapStarted: Option<nat>, from: nat)
    requires Ready(x.s) && Accounts(x, from) && (x.s.finConsumed ==> gapStarted == None)
    ensures Advances(x, x.(s := x.s.(gapStarted := gapStarted)), from)
  {
    assert x.s.finConsumed ==> x.s.(gapStarted := gapStarted) == x.s;
  }

  lemma RecoverTimeoutAdvances(x: Run, maxAge: nat, ts: nat, from: nat)
    requires Ready(x.s) && Accounts(x, from)
    ensures var z := RecoverTimeout(x, maxAge, ts);
      && Advances(x, z, from)
      && (!z.s.finConsumed ==> z.s.ooo != [] ==> z.s.ooo[0].start > z.s.next)
      && (z.out.gaps == x.out.gaps || TimedOut(x.s, maxAge, ts))
  {
    hide Ready, Accounts, Advances, Flush, EmitGap;
    Still(x, from);
    Parts(x, x, from);
    CoreNext(x.s);
    if x.s.ooo == [] {
      TimerAdvances(x, None, from);
    } else if x.s.ooo[0].start <= x.s.next {
      var t := x.(s := x.s.(gapStarted := None));
      TimerAdvances(x, None, from);
      Parts(x, t, from);
      FlushAdvances(t, from);
      Chain(x, t, Flush(t), from);
    } else if x.s.gapStarted.None? {
      TimerAdvances(x, Some(ts), from);
    } else if TimedOut(x.s, maxAge, ts) {
      var y := EmitGap(x, x.s.ooo[0].start);
      assert y == SkipHole(x, x.s.ooo[0].start);
      var z := Flush(y);
      TurnAdvances(x, x.s.ooo[0].start, from);
      Parts(x, z, from);
      var restart := if z.s.ooo != [] && z.s.ooo[0].start > z.s.next then Some(ts) else None;
      TimerAdvances(z, restart, from);
      Chain(x, z, z.(s := z.s.(gapStarted := restart)), from);
    }
  }

  /** A flush delivers the first segment, once due, to its end. */
  lemma FlushDelivers(x: Run, from: nat)
    requires Ready(x.s) && Accounts(x, from) && !x.s.finConsumed && x.s.ooo != [] && x.s.ooo[0].start <= x.s.next
    ensures Flush(x).s.base + |Flush(x).s.stream| >= x.s.ooo[0].End()
  {
    CoreFactsOf(x.s);
    OpenEnd(x.s);
    FlushOneAdvances(x, from);
    if x.s.next < x.s.ooo[0].End() { FlushOneEmits(x, from); }
    hide Ready, Accounts, Advances, FlushOne;
    Parts(x, FlushOne(x), from);
    FlushAdvances(FlushOne(x), from);
    StreamGrows(x, FlushOne(x), from);
    StreamGrows(FlushOne(x), Flush(FlushOne(x)), from);
  }

  lemma OpenEnd(s: State)
    requires Ready(s) && !s.finConsumed
    ensures s.next == s.base + |s.stream|
    ensures s.pendingFin.Some? ==> s.next <= s.pendingFin.value
  {
  }

  lemma StreamGrows(x: Run, y: Run, from: nat)
    requires Advances(x, y, from)
    ensures y.s.base == x.s.base && |x.s.stream| <= |y.s.stream|
  {
  }

  /** A hole that is old enough is given up: the first buffered segment is delivered
      whole, if and only if it is not left to a FIN. */
  lemma TimeoutDeliversIff(x: Run, maxAge: nat, ts: nat, from: nat)
    requires Ready(x.s) && !x.s.finConsumed && Accounts(x, from) && TimedOut(x.s, maxAge, ts)
    requires x.s.ooo != [] && x.s.ooo[0].start > x.s.next
    ensures var z := RecoverTimeout(x, maxAge, ts).s;
      x.s.ooo[0].End() <= z.base + |z.stream|
      <==> x.s.pendingFin.None? || !LeftToFin(x.s, x.s.ooo[0].start, x.s.pendingFin.value)
  {
    hide Ready, Accounts, Advances, EmitGap, Flush, RecoverTimeout, TimedOut, LeftToFin, Sorted;
    var start := x.s.ooo[0].start;
    var y := EmitGap(x, start);
    TimeoutUnfolds(x, maxAge, ts);
    FirstHasBytes(x.s);
    OpenEnd(x.s);
    GapAdvances(x, start, from);
    Parts(x, y, from);
    StreamGrows(x, y, from);
    if y.s.finConsumed {
      GapClosesAt(x, start);
      ClosedStays(y);
    } else {
      GapLeaves(x, start);
      OpenEnd(y.s);
      if GapBound(x.s, start) == start {
        FlushDelivers(y, from);
      } else {
        FlushWaits(y);
      }
    }
  }

  lemma TimeoutUnfolds(x: Run, maxAge: nat, ts: nat)
    requires x.s.ooo != [] && x.s.ooo[0].start > x.s.next && TimedOut(x.s, maxAge, ts)
    ensures var z := Flush(EmitGap(x, x.s.ooo[0].start)).s; var t := RecoverTimeout(x, maxAge, ts).s;
      t.base == z.base && t.stream == z.stream
  {
    hide Flush, EmitGap;
  }

  lemma FirstHasBytes(s: State)
    requires Ready(s) && s.ooo != []
    ensures s.ooo[0].End() > s.ooo[0].start
  {
  }

  lemma FlushWaits(x: Run)
    requires x.s.ooo != [] && x.s.ooo[0].start > x.s.next
    ensures Flush(x) == x
  {
  }

  /** A gap that leaves the half open stops below the segment exactly if that is left to a FIN. */
  lemma GapLeaves(x: Run, target: nat)
    requires Ready(x.s) && !x.s.finConsumed && x.s.next < target && !EmitGap(x, target).s.finConsumed
    ensures GapBound(x.s, target) == target <==> x.s.pendingFin.None? || !LeftToFin(x.s, target, x.s.pendingFin.value)
  {
  }

  /** A gap that closes the half ends at its marker, which was a hard bound. */
  lemma GapClosesAt(x: Run, target: nat)
    requires !x.s.finConsumed && Ready(x.s) && x.s.next < target && EmitGap(x, target).s.finConsumed
    ensures x.s.pendingFin.Some? && LeftToFin(x.s, target, x.s.pendingFin.value)
    ensures var y := EmitGap(x, target).s; y.base + |y.stream| <= target
  {
  }

  lemma ClosedStays(x: Run)
    requires x.s.finConsumed
    ensures Flush(x) == x
  {
  }

  /** Closing a flow delivers the buffered segments up to the first one that starts
      beyond a tentative FIN, and strands exactly those that do. */
  lemma {:induction false} DrainAdvances(x: Run, from: nat)
    requires Ready(x.s) && Accounts(x, from)
    ensures Advances(x, Drain(x), from)
    ensures var z := Drain(x).s; !z.finConsumed && z.ooo != [] ==>
      z.pendingFin.Some? && z.pendingFin.value == z.next < z.ooo[0].start
    decreases |x.s.ooo|
  {
    hide Ready, Accounts, Advances, SkipHole, Flush;
    Still(x, from);
    if x.s.ooo != [] {
      var target := x.s.ooo[0].start;
      var y := SkipHole(x, target);
      var z := Flush(y);
      TurnAdvances(x, target, from);
      Parts(x, z, from);
      if !z.s.finConsumed {
        TurnProgress(x, target, from);
        if z == y {
          TurnStopped(x, target, from);
        } else {
          DrainAdvances(z, from);
          Chain(x, z, Drain(z), from);
        }
      }
    }
  }

  // ---------- First-seen insertion ----------

  /** Filling the hole at `cursor` adds exactly the piece that fits into it. */
  lemma FillShape(ooo: seq<Segment>, start: nat, data: seq<Byte>, ts: nat, cursor: nat)
    requires Sorted(ooo) && start <= cursor < start + |data|
    ensures Sorted(StoreAfter(ooo, start, data, ts, cursor))
    ensures Bytes(StoreAfter(ooo, start, data, ts, cursor))
         == Bytes(ooo) + if InHole(ooo, cursor) then PieceEnd(ooo, start + |data|, cursor) - cursor else 0
  {
    hide Spliced, Sorted, CountUpTo, Bytes;
    if InHole(ooo, cursor) {
      var n, pieceEnd := CountUpTo(ooo, cursor), PieceEnd(ooo, start + |data|, cursor);
      var piece := Segment(cursor, data[cursor - start..pieceEnd - start], ts);
      SortedInsert(ooo, n, piece);
      InsertBytes(ooo, n, piece);
    }
  }

  lemma FillAt(ooo: seq<Segment>, start: nat, data: seq<Byte>, ts: nat, cursor: nat, q: nat)
    requires Sorted(ooo) && start <= cursor < start + |data| && InHole(ooo, cursor)
    ensures var pieceEnd := PieceEnd(ooo, start + |data|, cursor);
      && At(StoreAfter(ooo, start, data, ts, cursor), q)
           == (if cursor <= q < pieceEnd then Cell(start, data, q) else At(ooo, q))
      && (cursor <= q < pieceEnd ==> At(ooo, q) == None && Cell(start, data, q).Some?)
  {
    FillShape(ooo, start, data, ts, cursor);
    var n, pieceEnd := CountUpTo(ooo, cursor), PieceEnd(ooo, start + |data|, cursor);
    var piece := Segment(cursor, data[cursor - start..pieceEnd - start], ts);
    assert StoreAfter(ooo, start, data, ts, cursor) == Spliced(ooo, n, piece) && piece.End() == pieceEnd;
    hide Spliced, Sorted, CountUpTo, At, StoreAfter, PieceEnd, InHole;
    InsertAt(ooo, n, piece, q);
    if cursor <= q < pieceEnd {
      assert piece.data[q - cursor] == data[q - start];
    }
  }

  /** Whatever the cursor jumps over without filing is already held. */
  lemma JumpedIsHeld(ooo: seq<Segment>, end: nat, cursor: nat, q: nat)
    requires Sorted(ooo) && cursor < end
    requires (if InHole(ooo, cursor) then PieceEnd(ooo, end, cursor) else cursor) <= q < CursorAfter(ooo, end, cursor)
    ensures At(ooo, q).Some?
  {
    var n := CountUpTo(ooo, cursor);
    AtIndex(ooo, if InHole(ooo, cursor) then n else n - 1, q);
  }

  lemma TurnShape(ooo: seq<Segment>, start: nat, data: seq<Byte>, ts: nat, cursor: nat)
    requires start <= cursor < start + |data|
    ensures InHole(ooo, cursor) ==>
      && cursor < PieceEnd(ooo, start + |data|, cursor) <= CursorAfter(ooo, start + |data|, cursor)
      && |StoreAfter(ooo, start, data, ts, cursor)| == |ooo| + 1
    ensures !InHole(ooo, cursor) ==> StoreAfter(ooo, start, data, ts, cursor) == ooo
  {
  }

  lemma {:induction false} InsertShape(ooo: seq<Segment>, start: nat, data: seq<Byte>, ts: nat, cursor: nat)
    requires Sorted(ooo) && start <= cursor
    ensures var r := InsertFrom(ooo, start, data, ts, cursor);
      && Sorted(r.ooo)
      && Bytes(r.ooo) == Bytes(ooo) + r.added
      && r.added <= Max(start + |data| - cursor, 0)
      && |r.ooo| <= |ooo| + r.added
    decreases start + |data| - cursor
  {
    hide Spliced, Sorted, CountUpTo, Bytes;
    if cursor < start + |data| {
      FillShape(ooo, start, data, ts, cursor);
      TurnShape(ooo, start, data, ts, cursor);
      hide StoreAfter, CursorAfter, InHole, PieceEnd, NextInWay;
      InsertShape(StoreAfter(ooo, start, data, ts, cursor), start, data, ts, CursorAfter(ooo, start + |data|, cursor));
    }
  }

  /** First seen wins at `q`: `filed` keeps what `ooo` held and takes `data`, from
      `cursor` on, only where it held nothing. */
  ghost predicate KeepsFirst(ooo: seq<Segment>, filed: seq<Segment>, start: nat, data: seq<Byte>, cursor: nat, q: nat) {
    At(filed, q) == if At(ooo, q).Some? then At(ooo, q) else if cursor <= q then Cell(start, data, q) else None
  }

  lemma TurnKeepsFirst(ooo: seq<Segment>, filed: seq<Segment>, start: nat, data: seq<Byte>, ts: nat, cursor: nat, q: nat)
    requires Sorted(ooo) && start <= cursor < start + |data|
    requires KeepsFirst(StoreAfter(ooo, start, data, ts, cursor), filed, start, data,
                        CursorAfter(ooo, start + |data|, cursor), q)
    ensures KeepsFirst(ooo, filed, start, data, cursor, q)
  {
    var end := start + |data|;
    var further := CursorAfter(ooo, end, cursor);
    if InHole(ooo, cursor) {
      FillAt(ooo, start, data, ts, cursor, q);
      if PieceEnd(ooo, end, cursor) <= q < further { JumpedIsHeld(ooo, end, cursor, q); }
    } else if cursor <= q < further {
      JumpedIsHeld(ooo, end, cursor, q);
    }
    hide Sorted, At, Cell, StoreAfter, CountUpTo;
  }

  lemma KeepsFirstDone(ooo: seq<Segment>, start: nat, data: seq<Byte>, cursor: nat, q: nat)
    requires cursor >= start + |data|
    ensures KeepsFirst(ooo, ooo, start, data, cursor, q)
  {
  }

  lemma {:induction false} InsertKeepsFirst(ooo: seq<Segment>, start: nat, data: seq<Byte>, ts: nat, cursor: nat, q: nat)
    requires Sorted(ooo) && start <= cursor
    ensures KeepsFirst(ooo, InsertFrom(ooo, start, data, ts, cursor).ooo, start, data, cursor, q)
    decreases start + |data| - cursor
  {
    hide Sorted, CountUpTo, StoreAfter, CursorAfter, InHole, PieceEnd, NextInWay, KeepsFirst;
    if cursor >= start + |data| {
      KeepsFirstDone(ooo, start, data, cursor, q);
    } else {
      var store, further := StoreAfter(ooo, start, data, ts, cursor), CursorAfter(ooo, start + |data|, cursor);
      FillShape(ooo, start, data, ts, cursor);
      InsertKeepsFirst(store, start, data, ts, further, q);
      TurnKeepsFirst(ooo, InsertFrom(store, start, data, ts, further).ooo, start, data, ts, cursor, q);
    }
  }

  ghost predicate HeldIn(ooo: seq<Segment>, from: nat, end: nat) {
    exists q: nat :: from <= q < end && At(ooo, q).Some?
  }

  lemma TurnOverlap(ooo: seq<Segment>, start: nat, data: seq<Byte>, ts: nat, cursor: nat)
    requires Sorted(ooo) && start <= cursor < start + |data|
    ensures !InHole(ooo, cursor) || NextInWay(ooo, start + |data|, cursor) ==> HeldIn(ooo, cursor, start + |data|)
    ensures InHole(ooo, cursor) && !NextInWay(ooo, start + |data|, cursor) ==>
      (HeldIn(StoreAfter(ooo, start, data, ts, cursor), CursorAfter(ooo, start + |data|, cursor), start + |data|)
       <==> HeldIn(ooo, cursor, start + |data|))
  {
    hide Sorted, At, StoreAfter, Cell;
    var end, further := start + |data|, CursorAfter(ooo, start + |data|, cursor);
    var store := StoreAfter(ooo, start, data, ts, cursor);
    if !InHole(ooo, cursor) {
      JumpedIsHeld(ooo, end, cursor, cursor);
    } else if NextInWay(ooo, end, cursor) {
      JumpedIsHeld(ooo, end, cursor, PieceEnd(ooo, end, cursor));
    } else {
      if HeldIn(ooo, cursor, end) {
        var q: nat :| cursor <= q < end && At(ooo, q).Some?;
        FillAt(ooo, start, data, ts, cursor, q);
      }
      if HeldIn(store, further, end) {
        var q: nat :| further <= q < end && At(store, q).Some?;
        FillAt(ooo, start, data, ts, cursor, q);
      }
    }
  }

  /** The retransmission flag says whether some inserted position was already held. */
  lemma {:induction false} InsertOverlap(ooo: seq<Segment>, start: nat, data: seq<Byte>, ts: nat, cursor: nat)
    requires Sorted(ooo) && start <= cursor
    ensures InsertFrom(ooo, start, data, ts, cursor).overlapped <==> HeldIn(ooo, cursor, start + |data|)
    decreases start + |data| - cursor
  {
    if cursor < start + |data| {
      hide Spliced, Sorted, CountUpTo, StoreAfter, CursorAfter, InHole, PieceEnd, NextInWay, HeldIn;
      FillShape(ooo, start, data, ts, cursor);
      TurnOverlap(ooo, start, data, ts, cursor);
      InsertOverlap(StoreAfter(ooo, start, data, ts, cursor), start, data, ts, CursorAfter(ooo, start + |data|, cursor));
    }
  }

  lemma TurnAfter(ooo: seq<Segment>, start: nat, data: seq<Byte>, ts: nat, cursor: nat, f: nat)
    requires Sorted(ooo) && start <= cursor < start + |data| <= f
    ensures After(StoreAfter(ooo, start, data, ts, cursor), f) == After(ooo, f)
  {
    hide Spliced, Sorted, CountUpTo, After, Bytes;
    if InHole(ooo, cursor) {
      FillShape(ooo, start, data, ts, cursor);
      var n, pieceEnd := CountUpTo(ooo, cursor), PieceEnd(ooo, start + |data|, cursor);
      AfterInsert(ooo, n, Segment(cursor, data[cursor - start..pieceEnd - start], ts), f);
    }
  }

  /** Segments above the inserted range are untouched. */
  lemma {:induction false} InsertAfter(ooo: seq<Segment>, start: nat, data: seq<Byte>, ts: nat, cursor: nat, f: nat)
    requires Sorted(ooo) && start <= cursor && start + |data| <= f
    ensures After(InsertFrom(ooo, start, data, ts, cursor).ooo, f) == After(ooo, f)
    decreases start + |data| - cursor
  {
    if cursor < start + |data| {
      hide Spliced, Sorted, CountUpTo, After, StoreAfter, CursorAfter, InHole, PieceEnd, NextInWay;
      FillShape(ooo, start, data, ts, cursor);
      TurnAfter(ooo, start, data, ts, cursor, f);
      InsertAfter(StoreAfter(ooo, start, data, ts, cursor), start, data, ts, CursorAfter(ooo, start + |data|, cursor), f);
    }
  }

  // ---------- One accepted segment ----------

  lemma HeardCore(s: State, start: nat, data: seq<Byte>)
    requires Core(s) && !s.finConsumed
    ensures Core(Heard(s, start, data))
  {
    var h := Heard(s, start, data);
    forall i | 0 <= i < |h.stream|
      ensures h.stream[i] == h.history(h.base + i)
    {
      assert s.stream[i] == s.history(s.base + i);
    }
  }

  /** With nothing new at or above the next position, the record does not change. */
  lemma HeardNothing(s: State, start: nat, data: seq<Byte>)
    requires Ready(s) && !s.finConsumed && (data == [] || start + |data| <= s.next)
    ensures Ready(Heard(s, start, data)) && forall p: nat :: Heard(s, start, data).history(p) == s.history(p)
  {
    HeardCore(s, start, data);
  }

  lemma {:induction false} InsertReady(x: Run, start: nat, ts: nat, data: seq<Byte>, at: nat, tail: seq<Byte>)
    requires Ready(x.s) && !x.s.finConsumed && tail != []
    requires at == Max(start, x.s.next) && at - start <= |data| && tail == data[at - start..]
    ensures var h := Heard(x.s, start, data);
      var i := Insert(x.(s := h), at, ts, tail);
      && Ready(i.s)
      && x.s.oooBytes <= i.s.oooBytes <= x.s.oooBytes + |tail|
      && |i.s.ooo| <= |x.s.ooo| + |tail|
      && i.s == h.(ooo := i.s.ooo, oooBytes := i.s.oooBytes)
      && i.out == x.out.(retransmit := x.out.retransmit || HeldIn(x.s.ooo, at, start + |data|))
  {
    hide Sorted, Shows, Bytes, InsertFrom, Recorded, HeldIn;
    var h := Heard(x.s, start, data);
    var r := InsertFrom(x.s.ooo, at, tail, ts, at);
    HeardCore(x.s, start, data);
    CoreFacts(x.s);
    InsertShape(x.s.ooo, at, tail, ts, at);
    InsertOverlap(x.s.ooo, at, tail, ts, at);
    var i := Insert(x.(s := h), at, ts, tail);
    StoreCore(h, r.ooo, i.s.oooBytes);
    hide Core;
    forall q: nat | q >= x.s.next
      ensures At(i.s.ooo, q) == i.s.history(q)
    {
      InsertRecords(x.s, start, ts, data, at, tail, q);
    }
  }

  /** Position by position, the store filed and the record heard agree. */
  lemma InsertRecords(s: State, start: nat, ts: nat, data: seq<Byte>, at: nat, tail: seq<Byte>, q: nat)
    requires Ready(s) && !s.finConsumed && tail != [] && q >= s.next
    requires at == Max(start, s.next) && at - start <= |data| && tail == data[at - start..]
    ensures At(InsertFrom(s.ooo, at, tail, ts, at).ooo, q) == Recorded(s.history, start, data, s.next, q)
  {
    CoreFacts(s);
    assert At(s.ooo, q) == s.history(q);
    hide Core, Sorted, InsertFrom, Buffered, At;
    InsertKeepsFirst(s.ooo, at, tail, ts, at, q);
    if at <= q { SameCell(start, data, at, q); }
  }

  lemma SameCell(start: nat, data: seq<Byte>, at: nat, q: nat)
    requires start <= at <= q && at - start <= |data|
    ensures Cell(at, data[at - start..], q) == Cell(start, data, q)
  {
  }

  lemma StoreCore(s: State, ooo: seq<Segment>, oooBytes: nat)
    requires Core(s) && !s.finConsumed && Sorted(ooo) && oooBytes == Bytes(ooo)
    ensures Core(s.(ooo := ooo, oooBytes := oooBytes))
  {
  }

  /** The outcome of hearing a payload: everything delivered is accounted for, and
      the flags say what the payload was. */
  ghost predicate Received(x: Run, y: Run, start: nat, data: seq<Byte>, from: nat) {
    && Ready(y.s) && Evolves(Heard(x.s, start, data), y.s) && Accounts(y, from)
    && y.out.outOfOrder == (x.out.outOfOrder || (data != [] && start > x.s.next))
    && y.out.retransmit == (x.out.retransmit || Repeats(x.s, start, data))
    && y.out.finConsumed == (x.out.finConsumed || y.s.finConsumed)
  }

  /** Some byte of the payload was already delivered past or is already held. */
  ghost predicate Repeats(s: State, start: nat, data: seq<Byte>) {
    data != [] && (start < s.next || HeldIn(s.ooo, Max(start, s.next), start + |data|))
  }

  /** No buffered byte waits for a hole below the peer's ACK. */
  ghost predicate AckSettled(s: State) {
    s.finConsumed || FinReady(s) || s.ooo == [] || s.peerAck.None? || s.peerAck.value <= s.next
  }

  /** Why a payload may have given up a hole. */
  ghost predicate MayGiveUp(s: State, data: seq<Byte>, maxOoo: nat, maxSegments: nat) {
    || AckPast(s.peerAck, s.next)
    || s.oooBytes + |data| > maxOoo
    || |s.ooo| + |data| > maxSegments
  }

  /** The state just after filing a payload, and after the recoveries that follow. */
  lemma RecoverTwice(i: Run, maxOoo: nat, maxSegments: nat, from: nat)
    requires Ready(i.s) && Accounts(i, from)
    ensures var p := RecoverPressure(RecoverAck(i), maxOoo, maxSegments);
      && Advances(i, p, from)
      && AckSettled(p.s)
      && (!p.s.finConsumed ==>
            || !Over(p.s, maxOoo, maxSegments)
            || (p.s.pendingFin.Some? && p.s.ooo != [] && p.s.pendingFin.value < p.s.ooo[0].start))
      && (!AckPast(i.s.peerAck, i.s.next) && !Over(i.s, maxOoo, maxSegments) ==> p == i)
  {
    hide Ready, Accounts, Advances, Flush, SkipHole, EmitGap;
    var a := RecoverAck(i);
    var p := RecoverPressure(a, maxOoo, maxSegments);
    RecoverAckAdvances(i, from);
    Parts(i, a, from);
    RecoverPressureAdvances(a, maxOoo, maxSegments, from);
    Chain(i, a, p, from);
    RecoverAckSettles(i, from);
    AckStaysSettled(a, p, from);
  }

  lemma RecoverAckSettles(x: Run, from: nat)
    requires Ready(x.s) && Accounts(x, from)
    ensures AckSettled(RecoverAck(x).s)
  {
    hide Ready, Accounts, Advances, Flush, SkipHole, EmitGap, RecoverAck;
    RecoverAckAdvances(x, from);
    Parts(x, RecoverAck(x), from);
    if x.s.peerAck.Some? && !RecoverAck(x).s.finConsumed && RecoverAck(x).s.next < x.s.peerAck.value {
      RecoverAckResolves(x, from);
    }
  }

  lemma AckStaysSettled(x: Run, y: Run, from: nat)
    requires Advances(x, y, from) && AckSettled(x.s) && Ready(x.s)
    ensures AckSettled(y.s)
  {
  }

  lemma PayloadAhead(x: Run, start: nat, ts: nat, data: seq<Byte>, maxOoo: nat, maxSegments: nat, from: nat)
    requires Ready(x.s) && !x.s.finConsumed && Accounts(x, from) && data != [] && start > x.s.next
    ensures var y := Payload(x, start, ts, data, maxOoo, maxSegments);
      && Received(x, y, start, data, from)
      && AckSettled(y.s)
      && (y.out.gaps == x.out.gaps || MayGiveUp(x.s, data, maxOoo, maxSegments))
  {
    hide Ready, Accounts, Advances, RecoverAck, RecoverPressure, Evolves, HeldIn, Insert, Sorted;
    var marked := x.(out := x.out.(outOfOrder := true));
    InsertReady(marked, start, ts, data, start, data);
    var h := Heard(x.s, start, data);
    var i := Insert(marked.(s := h), start, ts, data);
    SameAccounts(x, i, from);
    RecoverTwice(i, maxOoo, maxSegments, from);
    var y := RecoverPressure(RecoverAck(i), maxOoo, maxSegments);
    FiledEvolves(h, i, y, from);
  }

  lemma SameAccounts(x: Run, y: Run, from: nat)
    requires Accounts(x, from) && y.s.stream == x.s.stream && y.out.emitted == x.out.emitted && y.out.gaps == x.out.gaps
    ensures Accounts(y, from)
  {
  }

  lemma FiledEvolves(h: State, i: Run, y: Run, from: nat)
    requires !h.finConsumed && i.s == h.(ooo := i.s.ooo, oooBytes := i.s.oooBytes) && Advances(i, y, from)
    ensures Evolves(h, y.s) && Ready(y.s) && Accounts(y, from)
    ensures y.out == i.out.(emitted := y.out.emitted, gaps := y.out.gaps, finConsumed := i.out.finConsumed || y.s.finConsumed)
  {
  }

  /** Payload that reaches the next position of a half with something buffered. */
  lemma BridgeUnfolds(x: Run, start: nat, ts: nat, data: seq<Byte>, maxOoo: nat, maxSegments: nat)
    requires start <= x.s.next < start + |data| && x.s.ooo != []
    ensures var overlap := x.s.next - start;
      var marked := Run(Heard(x.s, start, data), x.out.(retransmit := x.out.retransmit || overlap > 0));
      Payload(x, start, ts, data, maxOoo, maxSegments)
      == RecoverPressure(RecoverAck(Flush(Insert(marked, x.s.next, ts, data[overlap..]))), maxOoo, maxSegments)
  {
    hide Insert, Flush, RecoverAck, RecoverPressure, Recorded;
  }

  lemma PayloadBridge(x: Run, start: nat, ts: nat, data: seq<Byte>, maxOoo: nat, maxSegments: nat, from: nat)
    requires Ready(x.s) && !x.s.finConsumed && Accounts(x, from)
    requires start <= x.s.next < start + |data| && x.s.ooo != []
    ensures var y := Payload(x, start, ts, data, maxOoo, maxSegments);
      && Received(x, y, start, data, from)
      && AckSettled(y.s)
      && (y.out.gaps == x.out.gaps || MayGiveUp(x.s, data, maxOoo, maxSegments))
  {
    hide Ready, Accounts, Advances, RecoverAck, RecoverPressure, Evolves, HeldIn, Insert, Sorted, Flush, Payload, AckSettled,
      Received, MayGiveUp, Over, Recorded, AckPast;
    BridgeUnfolds(x, start, ts, data, maxOoo, maxSegments);
    var overlap := x.s.next - start;
    var marked := x.(out := x.out.(retransmit := x.out.retransmit || overlap > 0));
    var tail := data[overlap..];
    InsertReady(marked, start, ts, data, x.s.next, tail);
    var i := Insert(marked.(s := Heard(x.s, start, data)), x.s.next, ts, tail);
    SameAccounts(x, i, from);
    FlushAdvances(i, from);
    var f := Flush(i);
    Parts(i, f, from);
    RecoverTwice(f, maxOoo, maxSegments, from);
    var y := RecoverPressure(RecoverAck(f), maxOoo, maxSegments);
    Chain(i, f, y, from);
    FlushShrinks(i, f, from);
    BridgeReceived(x, i, y, start, data, from);
    BridgeGivesUp(x.s, f.s, data, maxOoo, maxSegments);
  }

  /** What was filed and then recovered counts as received. */
  lemma BridgeReceived(x: Run, i: Run, y: Run, start: nat, data: seq<Byte>, from: nat)
    requires !x.s.finConsumed && start <= x.s.next < start + |data| && Advances(i, y, from)
    requires i.s == Heard(x.s, start, data).(ooo := i.s.ooo, oooBytes := i.s.oooBytes)
    requires i.out == x.out.(retransmit :=
      (x.out.retransmit || x.s.next > start) || HeldIn(x.s.ooo, x.s.next, start + |data|))
    ensures Received(x, y, start, data, from)
  {
    hide Ready, Accounts, Advances, Evolves, HeldIn, Recorded;
    FiledEvolves(Heard(x.s, start, data), i, y, from);
  }

  lemma BridgeGivesUp(s: State, f: State, data: seq<Byte>, maxOoo: nat, maxSegments: nat)
    requires f.oooBytes <= s.oooBytes + |data| && |f.ooo| <= |s.ooo| + |data| && f.next >= s.next && f.peerAck == s.peerAck
    ensures AckPast(f.peerAck, f.next) || Over(f, maxOoo, maxSegments) ==> MayGiveUp(s, data, maxOoo, maxSegments)
  {
  }

  lemma FlushShrinks(i: Run, f: Run, from: nat)
    requires Advances(i, f, from) && Ready(i.s)
    ensures f.s.oooBytes <= i.s.oooBytes && |f.s.ooo| <= |i.s.ooo| && f.s.next >= i.s.next
    ensures f.s.peerAck == i.s.peerAck
  {
    if !f.s.finConsumed { BytesSuffix(f.s.ooo, i.s.ooo); }
  }

  lemma PayloadInOrder(x: Run, start: nat, ts: nat, data: seq<Byte>, maxOoo: nat, maxSegments: nat, from: nat)
    requires Ready(x.s) && !x.s.finConsumed && Accounts(x, from)
    requires start <= x.s.next < start + |data| && x.s.ooo == []
    ensures var y := Payload(x, start, ts, data, maxOoo, maxSegments);
      && Received(x, y, start, data, from)
      && y.s.ooo == []
      && y.out.gaps == x.out.gaps
  {
    hide Ready, Accounts, Core, Buffered, Evolves, Reports, HeldIn;
    var overlap := x.s.next - start;
    var h := Heard(x.s, start, data);
    var y := x.(s := h, out := x.out.(retransmit := x.out.retransmit || overlap > 0));
    var tail := data[overlap..];
    InOrderReady(x.s, start, data);
    SameAccounts(x, y, from);
    EmitEvolves(y, tail, ts, from);
    var z := Emit(y, tail, ts);
    ClosedIsEmpty(z.s);
    NothingHeld(Max(start, x.s.next), start + |data|);
    ReportsFacts(y, z);
  }

  lemma InOrderReady(s: State, start: nat, data: seq<Byte>)
    requires Ready(s) && !s.finConsumed && s.ooo == [] && start <= s.next < start + |data|
    ensures var h, tail := Heard(s, start, data), data[s.next - start..];
      && Core(h) && Buffered(h, h.next + |tail|)
      && forall p: nat | h.next <= p < h.next + |tail| :: h.history(p) == Cell(h.next, tail, p)
  {
    HeardCore(s, start, data);
    CellTail(start, data, s.next - start);
    forall q: nat | q >= s.next
      ensures Heard(s, start, data).history(q) == Cell(start, data, q)
    {
      assert At(s.ooo, q) == s.history(q);
    }
  }

  lemma ReportsFacts(y: Run, z: Run)
    requires Reports(y, z) && !y.s.finConsumed
    ensures z.out.retransmit == y.out.retransmit && z.out.outOfOrder == y.out.outOfOrder
    ensures z.out.finConsumed == (y.out.finConsumed || z.s.finConsumed)
  {
  }

  lemma ClosedIsEmpty(s: State)
    requires Ready(s)
    ensures s.finConsumed ==> s.ooo == []
  {
  }

  lemma NothingHeld(from: nat, end: nat)
    ensures !HeldIn([], from, end)
  {
  }

  /** Payload with nothing at or above the next position only counts as a repeat. */
  lemma PayloadOld(x: Run, start: nat, ts: nat, data: seq<Byte>, maxOoo: nat, maxSegments: nat, from: nat)
    requires Ready(x.s) && !x.s.finConsumed && Accounts(x, from)
    requires data == [] || start + |data| <= x.s.next
    ensures var y := Payload(x, start, ts, data, maxOoo, maxSegments);
      && Received(x, y, start, data, from)
      && y.s == Heard(x.s, start, data)
      && y.out.gaps == x.out.gaps
  {
    HeardNothing(x.s, start, data);
    var h := Heard(x.s, start, data);
    EvolvesSelf(x.(s := h));
    SameAccounts(x, Payload(x, start, ts, data, maxOoo, maxSegments), from);
  }

  /** What holds after the payload of any segment. */
  lemma PayloadReceived(x: Run, start: nat, ts: nat, data: seq<Byte>, maxOoo: nat, maxSegments: nat, from: nat)
    requires Ready(x.s) && !x.s.finConsumed && Accounts(x, from) && AckSettled(x.s)
    ensures var y := Payload(x, start, ts, data, maxOoo, maxSegments);
      && Received(x, y, start, data, from)
      && AckSettled(y.s)
      && (y.out.gaps == x.out.gaps || MayGiveUp(x.s, data, maxOoo, maxSegments))
  {
    hide Ready, Accounts, Received, Payload, MayGiveUp;
    if data == [] || start + |data| <= x.s.next {
      PayloadOld(x, start, ts, data, maxOoo, maxSegments, from);
    } else if start > x.s.next {
      PayloadAhead(x, start, ts, data, maxOoo, maxSegments, from);
    } else if x.s.ooo == [] {
      PayloadInOrder(x, start, ts, data, maxOoo, maxSegments, from);
    } else {
      PayloadBridge(x, start, ts, data, maxOoo, maxSegments, from);
    }
  }

  // ---------- Memory bound ----------

  /** What a FIN marker keeps from being drained was already there before. */
  lemma StrandedWithin(ooo: seq<Segment>, filed: seq<Segment>, left: seq<Segment>, f: nat)
    requires After(filed, f) == After(ooo, f) && IsSuffix(left, filed) && left != [] && left[0].start > f
    ensures Bytes(left) <= Bytes(ooo) && |left| <= |ooo|
  {
    SuffixInAfter(left, filed, f);
    AfterIsSuffix(ooo, f);
    SuffixTrans(left, After(ooo, f), ooo);
    BytesSuffix(left, ooo);
  }

  lemma PayloadBounded(x: Run, start: nat, ts: nat, data: seq<Byte>, maxOoo: nat, maxSegments: nat, from: nat)
    requires Ready(x.s) && !x.s.finConsumed && Accounts(x, from) && !Over(x.s, maxOoo, maxSegments)
    requires x.s.pendingFin.Some? ==> start + |data| <= x.s.pendingFin.value
    ensures var y := Payload(x, start, ts, data, maxOoo, maxSegments).s;
      y.finConsumed || !Over(y, maxOoo, maxSegments)
  {
    hide Ready, Accounts, Advances, RecoverAck, RecoverPressure, Evolves, HeldIn, Flush, Sorted;
    if data == [] || start + |data| <= x.s.next {
      PayloadOld(x, start, ts, data, maxOoo, maxSegments, from);
    } else if start <= x.s.next && x.s.ooo == [] {
      PayloadInOrder(x, start, ts, data, maxOoo, maxSegments, from);
      ReceivedStore(x, Payload(x, start, ts, data, maxOoo, maxSegments), start, data, from);
    } else {
      FiledBounded(x, start, ts, data, maxOoo, maxSegments, from);
    }
  }

  /** Payload that takes the slow path is filed first, and only then recovered. */
  lemma FiledThenRecovered(x: Run, start: nat, ts: nat, data: seq<Byte>, maxOoo: nat, maxSegments: nat, from: nat)
    returns (i: Run)
    requires Ready(x.s) && !x.s.finConsumed && Accounts(x, from)
    requires start > x.s.next || x.s.ooo != []
    requires data != [] && start + |data| > x.s.next
    ensures var at := Max(start, x.s.next);
      i.s.ooo == InsertFrom(x.s.ooo, at, data[at - start..], ts, at).ooo
    ensures Ready(i.s) && i.s == Heard(x.s, start, data).(ooo := i.s.ooo, oooBytes := i.s.oooBytes)
    ensures var y := Payload(x, start, ts, data, maxOoo, maxSegments);
      && Advances(i, y, from)
      && (!y.s.finConsumed ==>
            || !Over(y.s, maxOoo, maxSegments)
            || (y.s.pendingFin.Some? && y.s.ooo != [] && y.s.pendingFin.value < y.s.ooo[0].start))
  {
    hide Ready, Accounts, Advances, RecoverAck, RecoverPressure, HeldIn, Flush, InsertFrom, Over;
    if start > x.s.next {
      var marked := x.(out := x.out.(outOfOrder := true));
      InsertReady(marked, start, ts, data, start, data);
      assert data[0..] == data;
      i := Insert(marked.(s := Heard(x.s, start, data)), start, ts, data);
      SameAccounts(x, i, from);
      RecoverTwice(i, maxOoo, maxSegments, from);
    } else {
      var overlap := x.s.next - start;
      var marked := x.(out := x.out.(retransmit := x.out.retransmit || overlap > 0));
      InsertReady(marked, start, ts, data, x.s.next, data[overlap..]);
      i := Insert(marked.(s := Heard(x.s, start, data)), x.s.next, ts, data[overlap..]);
      SameAccounts(x, i, from);
      FlushAdvances(i, from);
      Parts(i, Flush(i), from);
      RecoverTwice(Flush(i), maxOoo, maxSegments, from);
      Chain(i, Flush(i), RecoverPressure(RecoverAck(Flush(i)), maxOoo, maxSegments), from);
    }
  }

  lemma FiledBounded(x: Run, start: nat, ts: nat, data: seq<Byte>, maxOoo: nat, maxSegments: nat, from: nat)
    requires Ready(x.s) && !x.s.finConsumed && Accounts(x, from) && !Over(x.s, maxOoo, maxSegments)
    requires x.s.pendingFin.Some? ==> start + |data| <= x.s.pendingFin.value
    requires start > x.s.next || x.s.ooo != []
    requires data != [] && start + |data| > x.s.next
    ensures var y := Payload(x, start, ts, data, maxOoo, maxSegments).s;
      y.finConsumed || !Over(y, maxOoo, maxSegments)
  {
    hide Ready, Accounts, Advances, Payload, Sorted, After, InsertFrom, IsSuffix;
    var i := FiledThenRecovered(x, start, ts, data, maxOoo, maxSegments, from);
    var y := Payload(x, start, ts, data, maxOoo, maxSegments);
    var at := Max(start, x.s.next);
    if !y.s.finConsumed && Over(y.s, maxOoo, maxSegments) {
      StillOpen(i, y, from);
      Parts(i, y, from);
      CoreFactsOf(x.s);
      InsertAfter(x.s.ooo, at, data[at - start..], ts, at, y.s.pendingFin.value);
      StrandedWithin(x.s.ooo, i.s.ooo, y.s.ooo, y.s.pendingFin.value);
    }
  }

  lemma CoreFactsOf(s: State)
    requires Ready(s)
    ensures Sorted(s.ooo) && s.oooBytes == Bytes(s.ooo)
  {
  }

  lemma ReceivedStore(x: Run, y: Run, start: nat, data: seq<Byte>, from: nat)
    requires Received(x, y, start, data, from)
    ensures y.s.oooBytes == Bytes(y.s.ooo)
  {
  }

  // ---------- Whole calls ----------

  /** The half once the segment's FIN has been noted and its payload clipped. */
  ghost function Noted(s: State, start: nat, fin: bool, data: seq<Byte>): State {
    var m := MarkFin(Marker(s.pendingFin, s.finNeedsAck), fin, start, start + |data|, s.next);
    var c := ClipAtFin(start, data, m.pendingFin, m.finNeedsAck, s.peerAck);
    s.(pendingFin := c.pendingFin, finNeedsAck := c.finNeedsAck)
  }

  /** Between calls no FIN is a hard bound: payload is never clipped, and a marker
      that stays is at or beyond the payload's end. */
  lemma NotedSettled(s: State, start: nat, fin: bool, data: seq<Byte>)
    requires Settled(s) && !s.finConsumed
    ensures var m := MarkFin(Marker(s.pendingFin, s.finNeedsAck), fin, start, start + |data|, s.next);
      var c := ClipAtFin(start, data, m.pendingFin, m.finNeedsAck, s.peerAck);
      c.data == data && !c.trimmed
    ensures var n := Noted(s, start, fin, data);
      && Ready(n) && AckSettled(n)
      && (n.pendingFin.Some? ==> start + |data| <= n.pendingFin.value)
      && (n.pendingFin.None? ==> !n.finNeedsAck)
      && (!n.finNeedsAck && n.pendingFin.Some? ==> n.pendingFin.value == start + |data| && start <= s.next)
      && (n.finNeedsAck ==> n.pendingFin == TentativeFin(s.pendingFin, fin, start, start + |data|, s.next))
      && (n.pendingFin.None? ==> TentativeFin(s.pendingFin, fin, start, start + |data|, s.next) == None)
      && (fin && start <= s.next <= start + |data| ==> n.pendingFin.Some? && !n.finNeedsAck)
  {
  }

  /** Once a payload that reaches the next position is heard, it is delivered to its end. */
  lemma PayloadReaches(x: Run, start: nat, ts: nat, data: seq<Byte>, maxOoo: nat, maxSegments: nat, from: nat)
    requires Ready(x.s) && !x.s.finConsumed && Accounts(x, from) && start <= x.s.next <= start + |data|
    ensures var y := Payload(x, start, ts, data, maxOoo, maxSegments).s;
      y.finConsumed || y.next >= start + |data|
  {
    hide Ready, Accounts, Advances, Evolves;
    if data == [] || start + |data| <= x.s.next {
      PayloadOld(x, start, ts, data, maxOoo, maxSegments, from);
    } else if x.s.ooo == [] {
      PayloadInOrder(x, start, ts, data, maxOoo, maxSegments, from);
      var overlap := x.s.next - start;
      var y := x.(s := Heard(x.s, start, data), out := x.out.(retransmit := x.out.retransmit || overlap > 0));
      SameAccounts(x, y, from);
      InOrderReady(x.s, start, data);
      EmitEvolves(y, data[overlap..], ts, from);
    } else {
      BridgeReaches(x, start, ts, data, maxOoo, maxSegments, from);
    }
  }

  lemma BridgeReaches(x: Run, start: nat, ts: nat, data: seq<Byte>, maxOoo: nat, maxSegments: nat, from: nat)
    requires Ready(x.s) && !x.s.finConsumed && Accounts(x, from)
    requires start <= x.s.next < start + |data| && x.s.ooo != []
    ensures var y := Payload(x, start, ts, data, maxOoo, maxSegments).s;
      y.finConsumed || y.next >= start + |data|
  {
    hide Ready, Accounts, Advances, Evolves, RecoverAck, RecoverPressure, Flush, Insert, HeldIn;
    var overlap := x.s.next - start;
    var marked := x.(out := x.out.(retransmit := x.out.retransmit || overlap > 0));
    InsertReady(marked, start, ts, data, x.s.next, data[overlap..]);
    var i := Insert(marked.(s := Heard(x.s, start, data)), x.s.next, ts, data[overlap..]);
    SameAccounts(x, i, from);
    FlushAdvances(i, from);
    var f := Flush(i);
    Parts(i, f, from);
    RecoverTwice(f, maxOoo, maxSegments, from);
    var y := RecoverPressure(RecoverAck(f), maxOoo, maxSegments);
    NextGrows(f, y, from);
    StaysConsumed(f, y, from);
    if !f.s.finConsumed && f.s.next < start + |data| {
      NextGrows(i, f, from);
      NothingBelowFirst(f.s, f.s.next);
      HistoryKept(i, f, from);
      assert false;
    }
  }

  lemma NextGrows(x: Run, y: Run, from: nat)
    requires Advances(x, y, from) && Ready(x.s)
    ensures x.s.next <= y.s.next
  {
  }

  lemma HistoryKept(x: Run, y: Run, from: nat)
    requires Advances(x, y, from)
    ensures y.s.history == x.s.history
  {
  }

  /** The state between payload and timeout in an accepted segment. */
  ghost function AfterPayload(s: State, start: nat, fin: bool, ts: nat, data: seq<Byte>, maxOoo: nat, maxSegments: nat): Run {
    var x := Payload(Run(Noted(s, start, fin, data), NOTHING), start, ts, data, maxOoo, maxSegments);
    if x.s.pendingFin.Some? && !x.s.finConsumed then RecoverAck(x) else x
  }

  lemma AcceptUnfolds(s: State, start: nat, fin: bool, ts: nat, data: seq<Byte>,
                      maxOoo: nat, maxSegments: nat, gapTimeout: nat)
    requires Settled(s) && !s.finConsumed
    ensures Accept(s, start, fin, ts, data, maxOoo, maxSegments, gapTimeout)
         == ConsumeFin(RecoverTimeout(AfterPayload(s, start, fin, ts, data, maxOoo, maxSegments), gapTimeout, ts))
  {
    NotedSettled(s, start, fin, data);
    hide Settled, Payload, RecoverAck, RecoverTimeout, ConsumeFin;
  }

  lemma NothingAccounts(s: State)
    requires Core(s)
    ensures Accounts(Run(s, NOTHING), |s.stream|)
  {
  }

  /** A pending marker is tentative and unacknowledged, or ready to be consumed. */
  ghost predicate MarkerOpen(s: State) {
    s.finConsumed || FinReady(s) ||
    if s.pendingFin.Some? then s.finNeedsAck && !AckPast(s.peerAck, s.pendingFin.value) else !s.finNeedsAck
  }

  lemma MarkerStaysOpen(x: Run, y: Run, from: nat)
    requires Advances(x, y, from) && Ready(x.s) && MarkerOpen(x.s)
    ensures MarkerOpen(y.s)
  {
  }

  lemma RecoverAckOpens(x: Run, from: nat)
    requires Ready(x.s) && Accounts(x, from) && !x.s.finConsumed
    requires x.s.pendingFin.Some? ==> x.s.finNeedsAck || x.s.next >= x.s.pendingFin.value
    requires x.s.pendingFin.None? ==> !x.s.finNeedsAck
    ensures MarkerOpen(RecoverAck(x).s)
  {
    hide Ready, Accounts, Advances, RecoverAck;
    var y := RecoverAck(x);
    RecoverAckAdvances(x, from);
    Parts(x, y, from);
    NextGrows(x, y, from);
    CoreNext(y.s);
    KeepsMarker(x, y, from);
    if !y.s.finConsumed && y.s.pendingFin.Some? && y.s.peerAck.Some? && y.s.next < y.s.peerAck.value {
      RecoverAckResolves(x, from);
    }
  }

  lemma KeepsMarker(x: Run, y: Run, from: nat)
    requires Advances(x, y, from)
    ensures !y.s.finConsumed ==> y.s.finNeedsAck == x.s.finNeedsAck && y.s.pendingFin == x.s.pendingFin
  {
  }

  /** A call ends settled: timeout recovery and FIN consumption close what is left. */
  lemma CallSettles(y: Run, gapTimeout: nat, ts: nat, from: nat)
    requires Ready(y.s) && Accounts(y, from) && AckSettled(y.s) && MarkerOpen(y.s)
    ensures var z := ConsumeFin(RecoverTimeout(y, gapTimeout, ts));
      && Settled(z.s) && Evolves(y.s, z.s) && Accounts(z, from) && Reports(y, z)
      && (z.out.gaps == y.out.gaps || TimedOut(y.s, gapTimeout, ts))
      && (!z.s.finConsumed ==> IsSuffix(z.s.ooo, y.s.ooo))
  {
    hide Accounts, RecoverTimeout, Core, Buffered, Evolves, Fate, Reports;
    var t := RecoverTimeout(y, gapTimeout, ts);
    RecoverTimeoutAdvances(y, gapTimeout, ts, from);
    AckStaysSettled(y, t, from);
    MarkerStaysOpen(y, t, from);
    ConsumeLast(t, from);
    var z := ConsumeFin(t);
    EvolvesTrans(y.s, t.s, z.s);
    ReportsTrans(y, t, z);
    if !t.s.finConsumed { StillOpen(y, t, from); }
  }

  lemma ConsumeLast(t: Run, from: nat)
    requires Ready(t.s) && Accounts(t, from) && AckSettled(t.s) && MarkerOpen(t.s)
    requires !t.s.finConsumed && t.s.ooo != [] ==> t.s.ooo[0].start > t.s.next
    ensures var z := ConsumeFin(t);
      && Settled(z.s) && Evolves(t.s, z.s) && Accounts(z, from) && Reports(t, z)
      && z.out.gaps == t.out.gaps && (!z.s.finConsumed ==> z == t)
  {
    if !t.s.finConsumed { ConsumeReady(t); } else { EvolvesSelf(t); }
  }

  lemma PayloadOpens(x: Run, start: nat, ts: nat, data: seq<Byte>, maxOoo: nat, maxSegments: nat, from: nat)
    requires Ready(x.s) && !x.s.finConsumed && Accounts(x, from) && AckSettled(x.s)
    requires x.s.pendingFin.None? ==> !x.s.finNeedsAck
    requires !x.s.finNeedsAck && x.s.pendingFin.Some? ==> x.s.pendingFin.value == start + |data| && start <= x.s.next
    requires x.s.pendingFin.Some? ==> start + |data| <= x.s.pendingFin.value
    ensures var p := Payload(x, start, ts, data, maxOoo, maxSegments);
      var y := if p.s.pendingFin.Some? && !p.s.finConsumed then RecoverAck(p) else p;
      && Received(x, y, start, data, from)
      && AckSettled(y.s) && MarkerOpen(y.s)
      && (y.out.gaps == x.out.gaps || MayGiveUp(x.s, data, maxOoo, maxSegments))
  {
    hide Ready, Accounts, Payload, RecoverAck, Evolves, HeldIn, Advances;
    var p := Payload(x, start, ts, data, maxOoo, maxSegments);
    PayloadReceived(x, start, ts, data, maxOoo, maxSegments, from);
    ReceivedMarker(x, p, start, data, from);
    if p.s.pendingFin.Some? && !p.s.finConsumed {
      CoreNextOf(x.s);
      if !x.s.finNeedsAck { PayloadReaches(x, start, ts, data, maxOoo, maxSegments, from); }
      RecoverAckOpens(p, from);
      RecoverAckAdvances(p, from);
      RecoverAckSettles(p, from);
      ReceivedThen(x, p, RecoverAck(p), start, data, from);
      RecoverAckGaps(p);
    }
  }

  lemma CoreNextOf(s: State)
    requires Ready(s) && !s.finConsumed && s.pendingFin.Some?
    ensures s.next <= s.pendingFin.value
  {
  }

  lemma RecoverAckGaps(x: Run)
    ensures !AckPast(x.s.peerAck, x.s.next) ==> RecoverAck(x) == x
  {
  }

  lemma ReceivedMarker(x: Run, y: Run, start: nat, data: seq<Byte>, from: nat)
    requires Received(x, y, start, data, from) && !x.s.finConsumed
    ensures y.s.pendingFin == x.s.pendingFin && y.s.peerAck == x.s.peerAck && Ready(y.s) && Accounts(y, from)
    ensures !y.s.finConsumed ==> y.s.finNeedsAck == x.s.finNeedsAck
    ensures Ready(x.s) ==> x.s.next <= y.s.next
  {
  }

  lemma ReceivedThen(x: Run, p: Run, y: Run, start: nat, data: seq<Byte>, from: nat)
    requires Received(x, p, start, data, from) && Advances(p, y, from)
    ensures Received(x, y, start, data, from)
  {
    hide Ready, Accounts, Fate, Repeats;
    EvolvesTrans(Heard(x.s, start, data), p.s, y.s);
  }

  /** Only a timeout check starts the gap timer. */
  ghost predicate TimerKept(s: State, t: State) {
    t.gapStarted == s.gapStarted || t.gapStarted == None
  }

  lemma {:induction false} FlushTimer(x: Run)
    ensures TimerKept(x.s, Flush(x).s)
    decreases |x.s.ooo|
  {
    if !(x.s.finConsumed || x.s.ooo == [] || x.s.ooo[0].start > x.s.next) {
      FlushTimer(FlushOne(x));
    }
  }

  lemma {:induction false} RecoverAckTimer(x: Run)
    ensures TimerKept(x.s, RecoverAck(x).s)
    decreases |x.s.ooo|
  {
    if x.s.peerAck.Some? && x.s.next < x.s.peerAck.value && x.s.ooo != [] {
      var y := SkipHole(x, Min(x.s.ooo[0].start, x.s.peerAck.value));
      var z := Flush(y);
      FlushTimer(y);
      if y.s.next < x.s.peerAck.value && !z.s.finConsumed && !Stuck(y, z) {
        RecoverAckTimer(z);
      }
    }
  }

  lemma {:induction false} RecoverPressureTimer(x: Run, maxOoo: nat, maxSegments: nat)
    ensures TimerKept(x.s, RecoverPressure(x, maxOoo, maxSegments).s)
    decreases |x.s.ooo|
  {
    if Over(x.s, maxOoo, maxSegments) && x.s.ooo != [] {
      var y := SkipHole(x, x.s.ooo[0].start);
      var z := Flush(y);
      FlushTimer(y);
      if !z.s.finConsumed && z.s.oooBytes < y.s.oooBytes {
        RecoverPressureTimer(z, maxOoo, maxSegments);
      }
    }
  }

  lemma AfterPayloadTimer(s: State, start: nat, fin: bool, ts: nat, data: seq<Byte>, maxOoo: nat, maxSegments: nat)
    ensures TimerKept(s, AfterPayload(s, start, fin, ts, data, maxOoo, maxSegments).s)
  {
    hide Insert, HeldIn, Flush, RecoverAck, RecoverPressure, Noted;
    NotedTimer(s, start, fin, data);
    var x := Run(Noted(s, start, fin, data), NOTHING);
    PayloadTimer(x, start, ts, data, maxOoo, maxSegments);
    hide Payload;
    RecoverAckTimer(Payload(x, start, ts, data, maxOoo, maxSegments));
  }

  lemma NotedTimer(s: State, start: nat, fin: bool, data: seq<Byte>)
    ensures Noted(s, start, fin, data).gapStarted == s.gapStarted
  {
  }

  lemma PayloadTimer(x: Run, start: nat, ts: nat, data: seq<Byte>, maxOoo: nat, maxSegments: nat)
    ensures TimerKept(x.s, Payload(x, start, ts, data, maxOoo, maxSegments).s)
  {
    hide Flush, RecoverAck, RecoverPressure;
    var h := x.(s := Heard(x.s, start, data));
    if data != [] && start > x.s.next {
      var i := Insert(h.(out := h.out.(outOfOrder := true)), start, ts, data);
      RecoverAckTimer(i);
      RecoverPressureTimer(RecoverAck(i), maxOoo, maxSegments);
    } else if data != [] && x.s.next - start < |data| && x.s.ooo != [] {
      var overlap := x.s.next - start;
      var y := h.(out := h.out.(retransmit := h.out.retransmit || overlap > 0));
      var i := Insert(y, x.s.next, ts, data[overlap..]);
      FlushTimer(i);
      RecoverAckTimer(Flush(i));
      RecoverPressureTimer(RecoverAck(Flush(i)), maxOoo, maxSegments);
    }
  }

  /** What one accepted segment does to an open, settled half: the half settles
      again; its delivered stream only grows, by exactly what is reported; the record
      gains the payload's bytes where it had none; and a FIN the stream has reached
      closes the half. */
  lemma AcceptSettles(s: State, start: nat, fin: bool, ts: nat, data: seq<Byte>,
                      maxOoo: nat, maxSegments: nat, gapTimeout: nat)
    requires Settled(s) && !s.finConsumed
    ensures var y := Accept(s, start, fin, ts, data, maxOoo, maxSegments, gapTimeout);
      && Settled(y.s)
      && Evolves(Heard(Noted(s, start, fin, data), start, data), y.s)
      && Accounts(y, |s.stream|)
      && y.out.outOfOrder == (data != [] && start > s.next)
      && y.out.retransmit == Repeats(s, start, data)
      && y.out.finConsumed == y.s.finConsumed
      && (y.out.gaps == [] || MayGiveUp(s, data, maxOoo, maxSegments) || TimedOut(s, gapTimeout, ts))
  {
    hide Accounts, Evolves, AfterPayload, RecoverTimeout, ConsumeFin, Reports, HeldIn;
    var n := Noted(s, start, fin, data);
    NotedSettled(s, start, fin, data);
    NothingAccounts(n);
    var y := AfterPayload(s, start, fin, ts, data, maxOoo, maxSegments);
    AfterPayloadOpens(s, start, fin, ts, data, maxOoo, maxSegments);
    AcceptUnfolds(s, start, fin, ts, data, maxOoo, maxSegments, gapTimeout);
    CallSettles(y, gapTimeout, ts, |s.stream|);
    AfterPayloadTimer(s, start, fin, ts, data, maxOoo, maxSegments);
    var z := ConsumeFin(RecoverTimeout(y, gapTimeout, ts));
    EvolvesTrans(Heard(n, start, data), y.s, z.s);
    ReportsOf(y, z);
  }

  lemma ReportsOf(y: Run, z: Run)
    requires Reports(y, z) && Evolves(y.s, z.s)
    ensures z.out.retransmit == y.out.retransmit && z.out.outOfOrder == y.out.outOfOrder
    ensures y.out.finConsumed == y.s.finConsumed ==> z.out.finConsumed == z.s.finConsumed
  {
  }

  lemma AfterPayloadOpens(s: State, start: nat, fin: bool, ts: nat, data: seq<Byte>, maxOoo: nat, maxSegments: nat)
    requires Settled(s) && !s.finConsumed
    ensures var y := AfterPayload(s, start, fin, ts, data, maxOoo, maxSegments);
      && Ready(y.s) && Accounts(y, |s.stream|) && AckSettled(y.s) && MarkerOpen(y.s)
      && Evolves(Heard(Noted(s, start, fin, data), start, data), y.s)
      && y.out.outOfOrder == (data != [] && start > s.next)
      && y.out.retransmit == Repeats(s, start, data)
      && y.out.finConsumed == y.s.finConsumed
      && (y.out.gaps == [] || MayGiveUp(s, data, maxOoo, maxSegments))
  {
    hide Ready, Accounts, Evolves, Payload, RecoverAck, HeldIn;
    var n := Noted(s, start, fin, data);
    NotedSettled(s, start, fin, data);
    CoreOf(n);
    NothingAccounts(n);
    PayloadOpens(Run(n, NOTHING), start, ts, data, maxOoo, maxSegments, |s.stream|);
  }

  lemma CoreOf(s: State)
    requires Ready(s)
    ensures Core(s)
  {
  }

  /** The marker left after a segment, and the closing of a FIN in sequence. */
  lemma AcceptFin(s: State, start: nat, fin: bool, ts: nat, data: seq<Byte>,
                  maxOoo: nat, maxSegments: nat, gapTimeout: nat)
    requires Settled(s) && !s.finConsumed
    ensures var t := Accept(s, start, fin, ts, data, maxOoo, maxSegments, gapTimeout).s;
      && (!t.finConsumed ==> t.pendingFin == TentativeFin(s.pendingFin, fin, start, start + |data|, s.next))
      && (fin && start <= s.next <= start + |data| ==> t.finConsumed)
  {
    hide Accept, Ready, Noted;
    AcceptSettles(s, start, fin, ts, data, maxOoo, maxSegments, gapTimeout);
    NotedSettled(s, start, fin, data);
  }

  lemma SuffixWithin(s: State, t: State, maxOoo: nat, maxSegments: nat)
    requires Ready(s) && Ready(t) && (!t.finConsumed ==> IsSuffix(t.ooo, s.ooo))
    requires s.finConsumed || !Over(s, maxOoo, maxSegments)
    requires s.finConsumed ==> t.finConsumed
    ensures !Over(t, maxOoo, maxSegments)
  {
    if !t.finConsumed { BytesSuffix(t.ooo, s.ooo); }
  }

  lemma AfterPayloadBounded(s: State, start: nat, fin: bool, ts: nat, data: seq<Byte>, maxOoo: nat, maxSegments: nat)
    requires Settled(s) && !s.finConsumed && !Over(s, maxOoo, maxSegments)
    ensures !Over(AfterPayload(s, start, fin, ts, data, maxOoo, maxSegments).s, maxOoo, maxSegments)
  {
    var x := Run(Noted(s, start, fin, data), NOTHING);
    var from := |s.stream|;
    NotedSettled(s, start, fin, data);
    CoreOf(x.s);
    NothingAccounts(x.s);
    hide Accounts, Ready, Settled, Payload, RecoverAck, Noted, Evolves, Reports, Advances, IsSuffix, HeldIn;
    var p := Payload(x, start, ts, data, maxOoo, maxSegments);
    PayloadBounded(x, start, ts, data, maxOoo, maxSegments, from);
    PayloadReceived(x, start, ts, data, maxOoo, maxSegments, from);
    ReceivedMarker(x, p, start, data, from);
    var y := AfterPayload(s, start, fin, ts, data, maxOoo, maxSegments);
    if y == p {
      SuffixSelf(p.s.ooo);
    } else {
      RecoverAckAdvances(p, from);
      Parts(p, y, from);
      if !y.s.finConsumed { StillOpen(p, y, from); }
    }
    SuffixWithin(p.s, y.s, maxOoo, maxSegments);
  }

  lemma SuffixSelf<T>(s: seq<T>)
    ensures IsSuffix(s, s)
  {
  }

  /** Between calls the store respects its limits, whatever segment arrives: what a
      FIN marker keeps from being drained already fitted before. */
  lemma AcceptBounded(s: State, start: nat, fin: bool, ts: nat, data: seq<Byte>,
                      maxOoo: nat, maxSegments: nat, gapTimeout: nat)
    requires Settled(s) && !Over(s, maxOoo, maxSegments)
    ensures !Over(Accept(s, start, fin, ts, data, maxOoo, maxSegments, gapTimeout).s, maxOoo, maxSegments)
  {
    if !s.finConsumed {
      hide Accounts, Ready, AfterPayload, RecoverTimeout, ConsumeFin, Noted, Evolves, Reports, IsSuffix, HeldIn;
      var y := AfterPayload(s, start, fin, ts, data, maxOoo, maxSegments);
      AfterPayloadOpens(s, start, fin, ts, data, maxOoo, maxSegments);
      AfterPayloadBounded(s, start, fin, ts, data, maxOoo, maxSegments);
      AcceptUnfolds(s, start, fin, ts, data, maxOoo, maxSegments, gapTimeout);
      CallSettles(y, gapTimeout, ts, |s.stream|);
      var z := ConsumeFin(RecoverTimeout(y, gapTimeout, ts));
      ConsumedStays(y.s, z.s);
      SuffixWithin(y.s, z.s, maxOoo, maxSegments);
    }
  }

  lemma ConsumedStays(s: State, t: State)
    requires Evolves(s, t)
    ensures s.finConsumed ==> t.finConsumed
  {
  }

  // ---------- Acknowledgement and close ----------

  /** A cumulative ACK resolves everything below it that bounds a known byte: the
      half settles, and if it stays open with bytes buffered the ACK is not above
      the next position. */
  lemma AcknowledgeSettles(s: State, ack: nat, ts: nat, gapTimeout: nat)
    requires Settled(s)
    ensures var y := Acknowledge(s, ack, ts, gapTimeout);
      && Settled(y.s)
      && Evolves(Acked(s, ack), y.s)
      && Accounts(y, |s.stream|)
      && y.out == NOTHING.(emitted := y.out.emitted, gaps := y.out.gaps, finConsumed := y.s.finConsumed && !s.finConsumed)
      && (y.out.gaps == [] || ack > s.next || TimedOut(s, gapTimeout, ts))
      && (s.pendingFin.Some? && ack > s.pendingFin.value ==> y.s.finConsumed)
  {
    var t := Acked(s, ack);
    AckedReady(s, ack);
    NothingAccounts(t);
    if t.ooo == [] && t.pendingFin.None? {
      EvolvesSelf(Run(t, NOTHING));
    } else {
      AcknowledgeRecovers(s, ack, ts, gapTimeout);
    }
  }

  lemma AckedReady(s: State, ack: nat)
    requires Settled(s)
    ensures Ready(Acked(s, ack)) && Core(Acked(s, ack))
    ensures Acked(s, ack).ooo == [] && Acked(s, ack).pendingFin.None? ==> Settled(Acked(s, ack))
    ensures !s.finConsumed ==> (if s.pendingFin.Some? then s.finNeedsAck && s.next <= s.pendingFin.value else !s.finNeedsAck)
    ensures !s.finConsumed && s.peerAck.Some? ==> (s.ooo == [] || s.peerAck.value <= s.next)
  {
  }

  lemma AcknowledgeRecovers(s: State, ack: nat, ts: nat, gapTimeout: nat)
    requires Settled(s) && !(s.ooo == [] && s.pendingFin.None?)
    ensures var y := Acknowledge(s, ack, ts, gapTimeout);
      && Settled(y.s)
      && Evolves(Acked(s, ack), y.s)
      && Accounts(y, |s.stream|)
      && y.out == NOTHING.(emitted := y.out.emitted, gaps := y.out.gaps, finConsumed := y.s.finConsumed && !s.finConsumed)
      && (y.out.gaps == [] || ack > s.next || TimedOut(s, gapTimeout, ts))
      && (s.pendingFin.Some? && ack > s.pendingFin.value ==> y.s.finConsumed)
  {
    var x := Run(Acked(s, ack), NOTHING);
    var from := |s.stream|;
    AckedReady(s, ack);
    AckedKeeps(s, ack);
    NothingAccounts(x.s);
    RecoverAckGapsOpen(s, ack);
    hide Ready, Accounts, Core, Advances, Evolves, Reports, RecoverAck, RecoverTimeout, ConsumeFin, Buffered, FinReady, Settled, Acked;
    var y := RecoverAck(x);
    RecoverAckAdvances(x, from);
    RecoverAckSettles(x, from);
    if x.s.finConsumed {
      StaysConsumed(x, y, from);
    } else {
      RecoverAckOpens(x, from);
    }
    RecoverAckTimer(x);
    Parts(x, y, from);
    CallSettles(y, gapTimeout, ts, from);
    var z := ConsumeFin(RecoverTimeout(y, gapTimeout, ts));
    AdvancesParts(x, y, from);
    EvolvesTrans(x.s, y.s, z.s);
    ReportsTrans(x, y, z);
    EvolvesAck(x.s, z.s);
    if !z.s.finConsumed { SettledMarker(z.s); }
  }

  lemma AckedKeeps(s: State, ack: nat)
    ensures var t := Acked(s, ack);
      && t.finConsumed == s.finConsumed && t.pendingFin == s.pendingFin && t.ooo == s.ooo && t.stream == s.stream
      && t.gapStarted == s.gapStarted && t.finNeedsAck == s.finNeedsAck && t.next == s.next
    ensures ack > s.next ==> Acked(s, ack).peerAck.Some? && Acked(s, ack).peerAck.value >= ack
  {
  }

  lemma SettledMarker(s: State)
    requires Settled(s) && !s.finConsumed
    ensures s.pendingFin.Some? ==> !AckPast(s.peerAck, s.pendingFin.value) && s.next <= s.pendingFin.value
  {
  }

  lemma AdvancesParts(x: Run, y: Run, from: nat)
    requires Advances(x, y, from)
    ensures Evolves(x.s, y.s) && Reports(x, y)
  {
  }

  lemma EvolvesAck(s: State, t: State)
    requires Evolves(s, t)
    ensures t.peerAck == s.peerAck && t.pendingFin == s.pendingFin && (s.finConsumed ==> t.finConsumed)
  {
  }

  lemma RecoverAckGapsOpen(s: State, ack: nat)
    requires Settled(s)
    ensures RecoverAck(Run(Acked(s, ack), NOTHING)).out.gaps == [] || ack > s.next
  {
    if ack <= s.next {
      assert Acked(s, ack) == s;
      RecoverAckGaps(Run(s, NOTHING));
    }
  }

  /** Whether closing the flow delivers a buffered segment: not if it starts beyond
      a FIN that is still tentative. */
  predicate DrainReaches(pendingFin: Option<nat>, seg: Segment) {
    pendingFin.None? || seg.start <= pendingFin.value
  }

  /** Closing a flow keeps the half settled, accounts for everything it delivers, and
      delivers exactly the buffered segments that do not start beyond a tentative
      FIN; the others are left behind whole. */
  lemma FinalizeDrains(s: State)
    requires Settled(s)
    ensures var y := Finalize(s);
      && Settled(y.s)
      && Evolves(s, y.s)
      && Accounts(y, |s.stream|)
      && (forall i | 0 <= i < |s.ooo| ::
            if DrainReaches(s.pendingFin, s.ooo[i]) then s.ooo[i].End() <= y.s.base + |y.s.stream|
            else y.s.base + |y.s.stream| <= s.ooo[i].start)
  {
    var x := Run(s, NOTHING);
    var from := |s.stream|;
    NothingAccounts(s);
    DrainAdvances(x, from);
    var z := Drain(x);
    DrainedSettles(x, z, from);
    hide Settled, Evolves, Accounts, Ready, Fate;
    DrainedFate(x, z, from);
  }

  lemma DrainedSettles(x: Run, z: Run, from: nat)
    requires Settled(x.s) && Advances(x, z, from)
    requires !z.s.finConsumed && z.s.ooo != [] ==> z.s.pendingFin.Some? && z.s.pendingFin.value == z.s.next < z.s.ooo[0].start
    ensures ConsumeFin(z) == z
    ensures var y := z.(s := z.s.(gapStarted := None));
      Settled(y.s) && Evolves(x.s, y.s) && Accounts(y, from)
  {
  }

  lemma DrainedFate(x: Run, z: Run, from: nat)
    requires Settled(x.s) && Advances(x, z, from)
    requires !z.s.finConsumed && z.s.ooo != [] ==> z.s.pendingFin.Some? && z.s.pendingFin.value == z.s.next < z.s.ooo[0].start
    ensures forall i | 0 <= i < |x.s.ooo| ::
      if DrainReaches(x.s.pendingFin, x.s.ooo[i]) then x.s.ooo[i].End() <= z.s.base + |z.s.stream|
      else z.s.base + |z.s.stream| <= x.s.ooo[i].start
  {
    if !z.s.finConsumed {
      FirstIsLowest(z.s.ooo);
      var k := |x.s.ooo| - |z.s.ooo|;
      assert forall i | k <= i < |x.s.ooo| :: x.s.ooo[i] == z.s.ooo[i - k];
    }
  }

  /** Everything buffered is delivered at close if and only if none of it starts
      beyond a tentative FIN. */
  lemma FinalizeDrainsAllIff(s: State)
    requires Settled(s)
    ensures (forall i | 0 <= i < |s.ooo| :: s.ooo[i].End() <= s.base + |Finalize(s).s.stream|)
       <==> (forall i | 0 <= i < |s.ooo| :: DrainReaches(s.pendingFin, s.ooo[i]))
  {
    FinalizeDrains(s);
    hide Finalize, Settled, Accounts;
    assert forall i | 0 <= i < |s.ooo| :: |s.ooo[i].data| > 0 by { SettledStore(s); }
  }

  lemma SettledStore(s: State)
    requires Settled(s)
    ensures Sorted(s.ooo)
  {
  }

  /** What the contract of an accepted segment promises, gathered. */
  lemma AcceptFacts(s: State, start: nat, fin: bool, ts: nat, data: seq<Byte>,
                    maxOoo: nat, maxSegments: nat, gapTimeout: nat)
    requires Settled(s)
    ensures var y := Accept(s, start, fin, ts, data, maxOoo, maxSegments, gapTimeout);
      && Settled(y.s)
      && s.stream <= y.s.stream && y.s.base == s.base && y.s.synSeq == s.synSeq
      && Tiles(y.out.emitted, y.out.gaps, y.s.stream, |s.stream|, |y.s.stream|)
      && (s.finConsumed ==> y == Run(s, NOTHING.(retransmit := data != [])))
      && (!s.finConsumed ==> forall p: nat :: y.s.history(p) == Recorded(s.history, start, data, s.next, p))
      && (!Over(s, maxOoo, maxSegments) ==> !Over(y.s, maxOoo, maxSegments))
  {
    if !s.finConsumed {
      hide Settled, Tiles, Accept;
      AcceptSettles(s, start, fin, ts, data, maxOoo, maxSegments, gapTimeout);
    }
    if !Over(s, maxOoo, maxSegments) {
      AcceptBounded(s, start, fin, ts, data, maxOoo, maxSegments, gapTimeout);
    }
  }

  lemma AcknowledgeFacts(s: State, ack: nat, ts: nat, gapTimeout: nat)
    requires Settled(s)
    ensures var y := Acknowledge(s, ack, ts, gapTimeout);
      && Settled(y.s)
      && s.stream <= y.s.stream && y.s.base == s.base && y.s.history == s.history && y.s.synSeq == s.synSeq
      && Tiles(y.out.emitted, y.out.gaps, y.s.stream, |s.stream|, |y.s.stream|)
      && (s.finConsumed ==> y.s.finConsumed && y.s.stream == s.stream)
  {
    hide Settled, Tiles, Acknowledge;
    AcknowledgeSettles(s, ack, ts, gapTimeout);
  }

  lemma FinalizeFacts(s: State)
    requires Settled(s)
    ensures var y := Finalize(s);
      && Settled(y.s)
      && s.stream <= y.s.stream && y.s.base == s.base && y.s.history == s.history && y.s.synSeq == s.synSeq
      && Tiles(y.out.emitted, y.out.gaps, y.s.stream, |s.stream|, |y.s.stream|)
      && (s.finConsumed ==> y.s.finConsumed && y.s.stream == s.stream)
  {
    hide Settled, Tiles, Finalize;
    FinalizeDrains(s);
  }
}
