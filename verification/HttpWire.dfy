/** Every record of the wire views is exactly the stretch of the TCP stream at its
    offset; records of one parser never overlap and never reach over a hole. */
module HttpWire {
  import opened Basics
  import opened HttpFraming

  /** A contiguous stretch of the stream. */
  datatype Stretch = Stretch(start: nat, text: seq<Byte>) {
    function End(): nat {
      start + |text|
    }
  }

  function EventEnd(e: Event): nat {
    e.offset + |e.data|
  }

  /** The buffer is the rest of the stretch from `offset` on. */
  ghost predicate Holds(run: Stretch, offset: nat, buffer: seq<Byte>) {
    run.start <= offset && offset + |buffer| == run.End() && buffer == run.text[offset - run.start..]
  }

  ghost predicate SliceOf(run: Stretch, offset: nat, data: seq<Byte>) {
    run.start <= offset && offset + |data| <= run.End()
    && data == run.text[offset - run.start..offset - run.start + |data|]
  }

  ghost predicate AllSlices(run: Stretch, events: seq<Event>) {
    forall i | 0 <= i < |events| :: SliceOf(run, events[i].offset, events[i].data)
  }

  /** The events lie between `lo` and `hi`, one after the other. */
  ghost predicate Ordered(events: seq<Event>, lo: nat, hi: nat) {
    && (forall i | 0 <= i < |events| :: lo <= events[i].offset && EventEnd(events[i]) <= hi)
    && (forall i, j | 0 <= i < j < |events| :: EventEnd(events[i]) <= events[j].offset)
  }

  ghost predicate WireOk(run: Stretch, lo: nat, m: Machine) {
    && lo <= m.offset <= run.End()
    && (m.conn.tunnel || Holds(run, m.offset, m.buffer))
    && AllSlices(run, m.events) && Ordered(m.events, lo, m.offset)
  }

  lemma HeadIsSlice(run: Stretch, offset: nat, buffer: seq<Byte>, from: nat, to: nat)
    requires Holds(run, offset, buffer) && from <= to <= |buffer|
    ensures SliceOf(run, offset + from, buffer[from..to])
  {
    var at := offset - run.start;
    assert run.text[at..][from..to] == run.text[at + from..at + to];
  }

  lemma RestHolds(run: Stretch, offset: nat, buffer: seq<Byte>, n: nat)
    requires Holds(run, offset, buffer) && n <= |buffer|
    ensures Holds(run, offset + n, buffer[n..])
  {
  }

  lemma OrderedLater(events: seq<Event>, lo: nat, hi: nat, hi': nat)
    requires Ordered(events, lo, hi) && hi <= hi'
    ensures Ordered(events, lo, hi')
  {
  }

  lemma OneMore(run: Stretch, events: seq<Event>, lo: nat, hi: nat, e: Event, hi': nat)
    requires AllSlices(run, events) && Ordered(events, lo, hi) && lo <= hi
    requires SliceOf(run, e.offset, e.data) && hi <= e.offset && EventEnd(e) <= hi'
    ensures AllSlices(run, events + [e]) && Ordered(events + [e], lo, hi')
  {
  }

  lemma DropWire(run: Stretch, lo: nat, m: Machine, n: nat)
    requires WireOk(run, lo, m) && !m.conn.tunnel && n <= |m.buffer|
    ensures WireOk(run, lo, Drop(m, n))
  {
    RestHolds(run, m.offset, m.buffer, n);
    OrderedLater(m.events, lo, m.offset, m.offset + n);
    hide SliceOf, Ordered, AllSlices;
  }

  /** Emitting the first bytes of the buffer and dropping at least those. */
  lemma EmitWire(run: Stretch, lo: nat, m: Machine, e: Event, n: nat)
    requires WireOk(run, lo, m) && !m.conn.tunnel && n <= |m.buffer|
    requires e.offset == m.offset && |e.data| <= n && e.data == m.buffer[..|e.data|]
    ensures WireOk(run, lo, Drop(m, n).(events := m.events + [e]))
  {
    RestHolds(run, m.offset, m.buffer, n);
    HeadIsSlice(run, m.offset, m.buffer, 0, |e.data|);
    OneMore(run, m.events, lo, m.offset, e, m.offset + n);
    hide SliceOf, Ordered, AllSlices;
  }

  lemma HeadersWire(cfg: Config, run: Stretch, lo: nat, m: Machine)
    requires WireOk(run, lo, m) && !m.conn.tunnel && m.state.Headers?
    ensures WireOk(run, lo, HeadersTurn(cfg, m))
  {
    hide WireOk, FindStart, SyncedTurn;
    var m1 := if m.synced then m else Resync(m);
    if !m.synced {
      SyncWire(run, lo, m);
    }
    if m1.synced {
      SyncedWire(cfg, run, lo, m1);
    }
    FlagsWire(run, lo, m1, m1.(going := false));
  }

  lemma SyncWire(run: Stretch, lo: nat, m: Machine)
    requires WireOk(run, lo, m) && !m.conn.tunnel
    ensures WireOk(run, lo, Resync(m)) && !Resync(m).conn.tunnel
  {
    hide WireOk;
    if FindStart(m.buffer).Some? {
      DropWire(run, lo, m, FindStart(m.buffer).value);
      FlagsWire(run, lo, Drop(m, FindStart(m.buffer).value), Resync(m));
    } else {
      DropWire(run, lo, m, Less(|m.buffer|, RESYNC_SUFFIX));
    }
  }

  /** Only buffer, offset, events and the tunnel flag matter here. */
  lemma FlagsWire(run: Stretch, lo: nat, m: Machine, m': Machine)
    requires WireOk(run, lo, m) && m'.offset == m.offset && m'.events == m.events
    requires m'.conn.tunnel || (!m.conn.tunnel && m'.buffer == m.buffer)
    ensures WireOk(run, lo, m')
  {
    hide Holds, AllSlices, Ordered;
  }

  lemma SyncedWire(cfg: Config, run: Stretch, lo: nat, m: Machine)
    requires WireOk(run, lo, m) && !m.conn.tunnel && m.state.Headers?
    ensures WireOk(run, lo, SyncedTurn(cfg, m))
  {
    hide WireOk, FindDouble, Accept, OpensTunnel, Unframed, Paired, BodyAfter;
    var end := FindDouble(m.buffer, m.scanFrom);
    if end.None? {
      if |m.buffer| > cfg.maxHeader {
        DropWire(run, lo, m, Less(|m.buffer|, RESYNC_SUFFIX));
        FlagsWire(run, lo, Trimmed(m), SyncedTurn(cfg, m));
      } else {
        FlagsWire(run, lo, m, SyncedTurn(cfg, m));
      }
    } else {
      var n := end.value + 4;
      var header := m.buffer[..n];
      var m1 := Drop(m, n).(scanFrom := 0);
      var parsed := cfg.parseHeader(header);
      if parsed.None? {
        DropWire(run, lo, m, n);
        FlagsWire(run, lo, Drop(m, n), Desync(m1));
      } else {
        var e := Header(m.offset, header, parsed.value.request);
        EmitWire(run, lo, m, e, n);
        AcceptShape(cfg, m1, header, m.offset, parsed.value);
        FlagsWire(run, lo, Drop(m, n).(events := m.events + [e]), Accept(cfg, m1, header, m.offset, parsed.value));
      }
    }
  }

  lemma AcceptShape(cfg: Config, m: Machine, header: seq<Byte>, at: nat, h: Parsed)
    requires !m.conn.tunnel
    ensures var m' := Accept(cfg, m, header, at, h);
      && m'.offset == m.offset && m'.events == m.events + [Header(at, header, h.request)]
      && (m'.conn.tunnel || m'.buffer == m.buffer)
  {
    hide OpensTunnel, Unframed, BodyAfter, HeaderErrors;
  }

  // ---------- The decoder ----------

  /** What the decoder has done so far to the buffer it was given. */
  ghost predicate PiecesOk(buf: seq<Byte>, c: Consume) {
    && c.used <= |buf| && c.buf == buf[c.used..]
    && (forall i | 0 <= i < |c.pieces| ::
          c.pieces[i].rel + |c.pieces[i].data| <= c.used
          && c.pieces[i].data == buf[c.pieces[i].rel..c.pieces[i].rel + |c.pieces[i].data|])
    && (forall i, j | 0 <= i < j < |c.pieces| :: c.pieces[i].rel + |c.pieces[i].data| <= c.pieces[j].rel)
  }

  lemma MovePieces(buf: seq<Byte>, c: Consume, c': Consume, n: nat)
    requires PiecesOk(buf, c) && n <= |c.buf| && c'.used == c.used + n && c'.buf == c.buf[n..] && c'.pieces == c.pieces
    ensures PiecesOk(buf, c')
  {
    assert buf[c.used..][n..] == buf[c.used + n..];
  }

  lemma RestOfRest(s: seq<Byte>, a: nat, b: nat)
    requires a + b <= |s|
    ensures s[a..][b..] == s[a + b..]
  {
  }

  lemma HeadOfRest(s: seq<Byte>, a: nat, n: nat)
    requires a + n <= |s|
    ensures s[a..][..n] == s[a..a + n]
  {
  }

  lemma AddPiece(buf: seq<Byte>, c: Consume, c': Consume, n: nat, take: nat)
    requires PiecesOk(buf, c) && n <= take <= |c.buf| && c'.used == c.used + take && c'.buf == c.buf[take..]
    requires c'.pieces == c.pieces + [Piece(c.used, c.buf[..n])]
    ensures PiecesOk(buf, c')
  {
    RestOfRest(buf, c.used, take);
    HeadOfRest(buf, c.used, n);
  }

  lemma DecodeStepPieces(cfg: Config, limit: Option<nat>, buf: seq<Byte>, c: Consume)
    requires PiecesOk(buf, c) && c.outcome.Going? && DecoderOk(c.dec)
    ensures PiecesOk(buf, DecodeStep(cfg, limit, c))
  {
    hide FindCrlf, FindDouble, PiecesOk;
    var c' := DecodeStep(cfg, limit, c);
    if c'.pieces == c.pieces {
      MovePieces(buf, c, c', |c.buf| - |c'.buf|);
    } else {
      var take := Min(c.dec.state.remaining, |c.buf|);
      AddPiece(buf, c, c', Room(limit, c.collected, take), take);
    }
  }

  lemma {:induction false} DecodePieces(cfg: Config, limit: Option<nat>, buf: seq<Byte>, c: Consume)
    requires PiecesOk(buf, c) && DecoderOk(c.dec)
    ensures PiecesOk(buf, Decode(cfg, limit, c))
    decreases |c.buf|, c.outcome.Going?
  {
    hide DecodeStep, PiecesOk;
    if c.outcome.Going? {
      DecodeStepPieces(cfg, limit, buf, c);
      DecodePieces(cfg, limit, buf, DecodeStep(cfg, limit, c));
    }
  }

  /** Where the `k`-th piece ends in the buffer. */
  function PieceEnd(c: Consume, k: nat): nat
    requires k <= |c.pieces|
  {
    if k == 0 then 0 else c.pieces[k - 1].rel + |c.pieces[k - 1].data|
  }

  lemma PieceFacts(buf: seq<Byte>, c: Consume, k: nat)
    requires PiecesOk(buf, c) && 0 < k <= |c.pieces|
    ensures PieceEnd(c, k - 1) <= c.pieces[k - 1].rel && PieceEnd(c, k) <= c.used <= |buf|
    ensures c.pieces[k - 1].data == buf[c.pieces[k - 1].rel..PieceEnd(c, k)]
  {
  }

  lemma WireParts(run: Stretch, lo: nat, m: Machine)
    requires WireOk(run, lo, m) && !m.conn.tunnel
    ensures lo <= m.offset && Holds(run, m.offset, m.buffer) && AllSlices(run, m.events) && Ordered(m.events, lo, m.offset)
  {
  }

  /** The events of the pieces, up to the `k`-th. */
  lemma {:induction false} PiecesWire(run: Stretch, lo: nat, m: Machine, c: Consume, k: nat)
    requires WireOk(run, lo, m) && !m.conn.tunnel && PiecesOk(m.buffer, c) && k <= |c.pieces|
    ensures AllSlices(run, EmitPieces(m, m.offset, c.pieces[..k]).events)
    ensures Ordered(EmitPieces(m, m.offset, c.pieces[..k]).events, lo, m.offset + PieceEnd(c, k))
  {
    hide SliceOf, AllSlices, Ordered, WireOk, PiecesOk, Holds;
    WireParts(run, lo, m);
    if k > 0 {
      PiecesWire(run, lo, m, c, k - 1);
      PieceFacts(m.buffer, c, k);
      var piece := c.pieces[k - 1];
      HeadIsSlice(run, m.offset, m.buffer, piece.rel, PieceEnd(c, k));
      assert c.pieces[..k][..k - 1] == c.pieces[..k - 1];
      var e := BodyPart(m.offset + piece.rel, piece.data);
      EmitPiecesLast(m, m.offset, c.pieces[..k]);
      hide EmitPieces;
      OneMore(run, EmitPieces(m, m.offset, c.pieces[..k - 1]).events, lo, m.offset + PieceEnd(c, k - 1), e, EventEnd(e));
    }
  }

  lemma EmitPiecesLast(m: Machine, base: nat, pieces: seq<Piece>)
    requires pieces != []
    ensures EmitPieces(m, base, pieces).events
      == EmitPieces(m, base, pieces[..|pieces| - 1]).events
       + [BodyPart(base + pieces[|pieces| - 1].rel, pieces[|pieces| - 1].data)]
  {
  }

  lemma UsedFits(buf: seq<Byte>, c: Consume)
    requires PiecesOk(buf, c)
    ensures c.used <= |buf| && PieceEnd(c, |c.pieces|) <= c.used
  {
  }

  lemma EventsWire(run: Stretch, lo: nat, m: Machine, events: seq<Event>)
    requires WireOk(run, lo, m) && AllSlices(run, events) && Ordered(events, lo, m.offset)
    ensures WireOk(run, lo, m.(events := events))
  {
    hide AllSlices, Ordered, Holds;
  }

  lemma DecodedWire(run: Stretch, lo: nat, m: Machine, c: Consume)
    requires WireOk(run, lo, m) && !m.conn.tunnel && PiecesOk(m.buffer, c)
    ensures c.used <= |m.buffer|
    ensures WireOk(run, lo, Drop(m, c.used)) && WireOk(run, lo, Drop(EmitPieces(m, m.offset, c.pieces), c.used))
  {
    UsedFits(m.buffer, c);
    PiecesWire(run, lo, m, c, |c.pieces|);
    assert c.pieces[..|c.pieces|] == c.pieces;
    hide PiecesOk, WireOk, EmitPieces, AllSlices, Ordered;
    DropWire(run, lo, m, c.used);
    var events := EmitPieces(m, m.offset, c.pieces).events;
    OrderedLater(events, lo, m.offset + PieceEnd(c, |c.pieces|), m.offset + c.used);
    EventsWire(run, lo, Drop(m, c.used), events);
    assert Drop(m, c.used).(events := events) == Drop(EmitPieces(m, m.offset, c.pieces), c.used);
  }

  lemma ChunkedWire(cfg: Config, run: Stretch, lo: nat, m: Machine)
    requires WireOk(run, lo, m) && !m.conn.tunnel && m.state.Chunked? && BodyOk(m.state)
    ensures WireOk(run, lo, ChunkedTurn(cfg, m))
  {
    var st := m.state;
    var limit := Limit(cfg, st.capturing, st.seen);
    var c0 := Begin(st.dec, m.buffer);
    assert PiecesOk(m.buffer, c0);
    hide WireOk, Decode, PiecesOk, EmitPieces;
    if m.buffer == [] {
      FlagsWire(run, lo, m, m.(going := false));
    } else {
      DecodePieces(cfg, limit, m.buffer, c0);
      var c := Decode(cfg, limit, c0);
      DecodedWire(run, lo, m, c);
      if c.outcome.Failed? {
        FlagsWire(run, lo, Drop(m, c.used), ChunkedTurn(cfg, m));
      } else {
        FlagsWire(run, lo, Drop(EmitPieces(m, m.offset, c.pieces), c.used), ChunkedTurn(cfg, m));
      }
    }
  }

  lemma PlainWire(run: Stretch, lo: nat, m: Machine, keep: nat, take: nat)
    requires WireOk(run, lo, m) && !m.conn.tunnel && keep <= take <= |m.buffer|
    ensures WireOk(run, lo, Drop(Emit(m, m.offset, m.buffer[..keep]), take))
  {
    hide WireOk;
    if m.buffer[..keep] == [] {
      DropWire(run, lo, m, take);
    } else {
      EmitWire(run, lo, m, BodyPart(m.offset, m.buffer[..keep]), take);
    }
  }

  lemma BodyWire(cfg: Config, run: Stretch, lo: nat, m: Machine)
    requires WireOk(run, lo, m) && !m.conn.tunnel && BodyOk(m.state)
    requires m.state.Fixed? || m.state.SkipFixed? || m.state.UntilClose?
    ensures WireOk(run, lo, Turn(cfg, m))
  {
    hide WireOk, Emit;
    if m.buffer == [] {
      FlagsWire(run, lo, m, m.(going := false));
    } else {
      match m.state
      case Fixed(remaining) =>
        var take := Min(remaining, |m.buffer|);
        PlainWire(run, lo, m, take, take);
        FlagsWire(run, lo, Drop(Emit(m, m.offset, m.buffer[..take]), take), Turn(cfg, m));
      case SkipFixed(remaining, capture) =>
        var take := Min(remaining, |m.buffer|);
        var collect := Min(take, capture);
        PlainWire(run, lo, m, collect, take);
        FlagsWire(run, lo, Drop(Emit(m, m.offset, m.buffer[..collect]), take), Turn(cfg, m));
      case UntilClose(seen, capturing) =>
        var collect := Room(Limit(cfg, capturing, seen), 0, |m.buffer|);
        PlainWire(run, lo, m, collect, |m.buffer|);
        FlagsWire(run, lo, Drop(Emit(m, m.offset, m.buffer[..collect]), |m.buffer|), Turn(cfg, m));
    }
  }

  lemma AcceptStops(cfg: Config, m: Machine, header: seq<Byte>, at: nat, h: Parsed)
    requires !m.conn.tunnel
    ensures Accept(cfg, m, header, at, h).conn.tunnel ==> !Accept(cfg, m, header, at, h).going
  {
    hide OpensTunnel, Unframed, BodyAfter, HeaderErrors;
  }

  lemma HeadersStop(cfg: Config, m: Machine)
    requires !m.conn.tunnel
    ensures HeadersTurn(cfg, m).conn.tunnel ==> !HeadersTurn(cfg, m).going
  {
    hide Accept, FindDouble, FindStart;
    var m1 := if m.synced then m else Resync(m);
    var end := FindDouble(m1.buffer, m1.scanFrom);
    if end.Some? {
      var header := m1.buffer[..end.value + 4];
      var parsed := cfg.parseHeader(header);
      if parsed.Some? {
        AcceptStops(cfg, Drop(m1, end.value + 4).(scanFrom := 0), header, m1.offset, parsed.value);
      }
    }
  }

  lemma TunnelStops(cfg: Config, m: Machine)
    requires BodyOk(m.state) && !m.conn.tunnel
    ensures Turn(cfg, m).conn.tunnel ==> !Turn(cfg, m).going
  {
    hide HeadersTurn, Decode, EmitPieces, Emit, Limit;
    if m.state.Headers? {
      HeadersStop(cfg, m);
    }
  }

  lemma TurnWire(cfg: Config, run: Stretch, lo: nat, m: Machine)
    requires WireOk(run, lo, m) && BodyOk(m.state) && !m.conn.tunnel
    ensures WireOk(run, lo, Turn(cfg, m))
  {
    hide WireOk, HeadersTurn, ChunkedTurn, Emit, DecoderOk;
    match m.state
    case Headers => HeadersWire(cfg, run, lo, m);
    case Chunked(_, _, _) => ChunkedWire(cfg, run, lo, m);
    case _ => BodyWire(cfg, run, lo, m);
  }

  lemma {:induction false} LoopWire(cfg: Config, run: Stretch, lo: nat, m: Machine)
    requires WireOk(run, lo, m) && BodyOk(m.state) && (m.going ==> !m.conn.tunnel)
    ensures WireOk(run, lo, Loop(cfg, m))
    decreases |m.buffer|, Rank(m.state), m.going
  {
    hide WireOk, Turn;
    if m.going {
      TurnProgress(cfg, m);
      TunnelStops(cfg, m);
      TurnWire(cfg, run, lo, m);
      LoopWire(cfg, run, lo, Turn(cfg, m));
    }
  }

  // ---------- Whole runs ----------

  /** One feed. The connection is as the other direction left it. */
  datatype Feed = Feed(chunk: Chunk, conn: Conn)

  /** The parser before any feed has read nothing. */
  function ParserAfter(cfg: Config, feeds: seq<Feed>): (p: Parser)
    ensures BodyOk(p.state)
  {
    if feeds == [] then NewParser()
    else
      var last := feeds[|feeds| - 1];
      var p := ParserAfter(cfg, feeds[..|feeds| - 1]);
      if last.conn.tunnel then p else Rest(Fed(cfg, p, last.conn, last.chunk), last.chunk)
  }

  function EventsAfter(cfg: Config, feeds: seq<Feed>): seq<Event> {
    if feeds == [] then []
    else
      var last := feeds[|feeds| - 1];
      EventsAfter(cfg, feeds[..|feeds| - 1])
      + if last.conn.tunnel then [] else Fed(cfg, ParserAfter(cfg, feeds[..|feeds| - 1]), last.conn, last.chunk).events
  }

  /** Reassembly hands over the stream in order, with holes but never going back. */
  ghost predicate InOrder(feeds: seq<Feed>) {
    forall k | 0 < k < |feeds| :: feeds[k - 1].chunk.End() <= feeds[k].chunk.offset
  }

  /** No tunnel was open before the last feed. A tunnel stays, and is never fed. */
  ghost predicate NoTunnel(cfg: Config, feeds: seq<Feed>) {
    if feeds == [] then true
    else
      var before := feeds[..|feeds| - 1];
      && NoTunnel(cfg, before)
      && !feeds[|feeds| - 1].conn.tunnel
      && (before != [] ==> !Reported(cfg, before).conn.tunnel)
  }

  /** The machine after the last feed. */
  function Reported(cfg: Config, feeds: seq<Feed>): Machine
    requires feeds != []
  {
    var last := feeds[|feeds| - 1];
    Fed(cfg, ParserAfter(cfg, feeds[..|feeds| - 1]), last.conn, last.chunk)
  }

  /** The byte the stream has at an absolute offset, where it has one. */
  function ByteAt(feeds: seq<Feed>, o: nat): Option<Byte> {
    if feeds == [] then None
    else
      var c := feeds[|feeds| - 1].chunk;
      if c.offset <= o < c.End() then Some(c.data[o - c.offset]) else ByteAt(feeds[..|feeds| - 1], o)
  }

  /** The stretch that ends with the last feed. */
  function Latest(feeds: seq<Feed>): Stretch {
    if feeds == [] then Stretch(0, [])
    else
      var c := feeds[|feeds| - 1].chunk;
      var before := Latest(feeds[..|feeds| - 1]);
      if |feeds| > 1 && before.End() == c.offset then Stretch(before.start, before.text + c.data)
      else Stretch(c.offset, c.data)
  }

  ghost predicate StretchIn(feeds: seq<Feed>, run: Stretch) {
    forall o: nat | run.start <= o < run.End() :: ByteAt(feeds, o) == Some(run.text[o - run.start])
  }

  /** A record shows exactly the bytes of the stream from its offset on. */
  ghost predicate Shows(feeds: seq<Feed>, e: Event) {
    forall i: nat | i < |e.data| :: ByteAt(feeds, e.offset + i) == Some(e.data[i])
  }

  lemma Shorter(feeds: seq<Feed>)
    requires InOrder(feeds) && feeds != []
    ensures InOrder(feeds[..|feeds| - 1])
  {
  }

  lemma LatestEnds(feeds: seq<Feed>)
    requires feeds != []
    ensures Latest(feeds).End() == feeds[|feeds| - 1].chunk.End()
  {
  }

  lemma {:induction false} LatestIn(feeds: seq<Feed>)
    requires InOrder(feeds)
    ensures StretchIn(feeds, Latest(feeds))
  {
    if feeds != [] {
      LatestIn(feeds[..|feeds| - 1]);
    }
  }

  /** Between feeds the buffer is always the unread rest of the latest stretch: the
      offset of the next byte to frame plus what is buffered is the end of the input. */
  ghost predicate ParserOk(p: Parser, run: Stretch) {
    if p.next.None? then p == NewParser() else Holds(run, p.offset, p.buffer) && run.End() == p.next.value
  }

  function Extended(p: Parser, run: Stretch, c: Chunk): Stretch {
    if p.next == Some(c.offset) then Stretch(run.start, run.text + c.data) else Stretch(c.offset, c.data)
  }

  lemma StartWire(p: Parser, conn: Conn, c: Chunk, run: Stretch)
    requires ParserOk(p, run) && !conn.tunnel
    ensures WireOk(Extended(p, run, c), Started(p, conn, c).offset, Started(p, conn, c))
    ensures Started(p, conn, c).going && Started(p, conn, c).conn.tunnel == false
  {
    hide AllSlices, Ordered;
    NoEvents(Extended(p, run, c), Started(p, conn, c).offset);
    if p.next == Some(c.offset) {
      assert run.text + c.data == run.text[..p.offset - run.start] + (p.buffer + c.data);
    }
  }

  lemma NoEvents(run: Stretch, lo: nat)
    ensures AllSlices(run, []) && Ordered([], lo, lo)
  {
  }

  lemma FedWire(cfg: Config, p: Parser, conn: Conn, c: Chunk, run: Stretch)
    requires ParserOk(p, run) && BodyOk(p.state) && !conn.tunnel
    ensures WireOk(Extended(p, run, c), Started(p, conn, c).offset, Fed(cfg, p, conn, c))
    ensures !Fed(cfg, p, conn, c).conn.tunnel ==> ParserOk(Rest(Fed(cfg, p, conn, c), c), Extended(p, run, c))
  {
    StartWire(p, conn, c, run);
    StartedState(p, conn, c);
    hide Loop, Started, BodyOk;
    LoopWire(cfg, Extended(p, run, c), Started(p, conn, c).offset, Started(p, conn, c));
    hide AllSlices, Ordered;
    ExtendedEnd(p, run, c);
  }

  lemma StartedState(p: Parser, conn: Conn, c: Chunk)
    requires BodyOk(p.state)
    ensures BodyOk(Started(p, conn, c).state)
  {
  }

  lemma ExtendedEnd(p: Parser, run: Stretch, c: Chunk)
    requires ParserOk(p, run)
    ensures Extended(p, run, c).End() == c.End()
  {
  }

  /** The parser keeps its place in every run: outside a tunnel, the offset of the next
      byte to frame plus the buffered length is the end of the input, and the buffer
      is the end of the latest contiguous stretch. */
  lemma {:induction false} ParserKeepsPlace(cfg: Config, feeds: seq<Feed>)
    requires NoTunnel(cfg, feeds) && (feeds != [] ==> !Reported(cfg, feeds).conn.tunnel)
    ensures ParserOk(ParserAfter(cfg, feeds), Latest(feeds))
    ensures feeds != [] ==> ParserAfter(cfg, feeds).next == Some(feeds[|feeds| - 1].chunk.End())
  {
    if feeds != [] {
      var before, last := feeds[..|feeds| - 1], feeds[|feeds| - 1];
      ParserKeepsPlace(cfg, before);
      var p := ParserAfter(cfg, before);
      hide Fed, ParserOk;
      FedWire(cfg, p, last.conn, last.chunk, Latest(before));
      LatestGrows(cfg, feeds);
    }
  }

  lemma LatestGrows(cfg: Config, feeds: seq<Feed>)
    requires feeds != [] && !feeds[|feeds| - 1].conn.tunnel
    requires var before := feeds[..|feeds| - 1];
      if before == [] then ParserAfter(cfg, before).next == None
      else ParserAfter(cfg, before).next == Some(before[|before| - 1].chunk.End())
    ensures Latest(feeds) == Extended(ParserAfter(cfg, feeds[..|feeds| - 1]), Latest(feeds[..|feeds| - 1]), feeds[|feeds| - 1].chunk)
  {
    var before := feeds[..|feeds| - 1];
    if before != [] { LatestEnds(before); }
    hide ParserAfter;
  }

  /** What one feed reports: slices of the latest stretch, in order, from where the
      parser stood, and never past the input. */
  lemma ReportedWire(cfg: Config, feeds: seq<Feed>)
    requires NoTunnel(cfg, feeds) && feeds != []
    ensures var before, last := feeds[..|feeds| - 1], feeds[|feeds| - 1];
      WireOk(Latest(feeds), Started(ParserAfter(cfg, before), last.conn, last.chunk).offset, Reported(cfg, feeds))
  {
    var before, last := feeds[..|feeds| - 1], feeds[|feeds| - 1];
    ParserKeepsPlace(cfg, before);
    hide Fed, ParserOk, WireOk;
    FedWire(cfg, ParserAfter(cfg, before), last.conn, last.chunk, Latest(before));
    LatestGrows(cfg, feeds);
  }

  /** Where the parser stands after the feeds. */
  function Position(cfg: Config, feeds: seq<Feed>): nat {
    if feeds == [] then 0 else Reported(cfg, feeds).offset
  }

  lemma WireWithin(run: Stretch, lo: nat, m: Machine)
    requires WireOk(run, lo, m)
    ensures m.offset <= run.End()
  {
  }

  lemma StartedAt(p: Parser, conn: Conn, c: Chunk)
    ensures Started(p, conn, c).offset == if p.next == Some(c.offset) then p.offset else c.offset
  {
  }

  lemma StartsLater(cfg: Config, feeds: seq<Feed>)
    requires NoTunnel(cfg, feeds) && InOrder(feeds) && feeds != []
    ensures var before, last := feeds[..|feeds| - 1], feeds[|feeds| - 1];
      Position(cfg, before) <= Started(ParserAfter(cfg, before), last.conn, last.chunk).offset
  {
    var before, last := feeds[..|feeds| - 1], feeds[|feeds| - 1];
    if before != [] {
      assert !before[|before| - 1].conn.tunnel;
      hide WireOk, Fed, Latest, ParserAfter, Started, Reported, NoTunnel;
      ReportedWire(cfg, before);
      WireWithin(Latest(before), Started(ParserAfter(cfg, before[..|before| - 1]), before[|before| - 1].conn,
                                         before[|before| - 1].chunk).offset, Reported(cfg, before));
      LatestEnds(before);
      ParserIs(cfg, before);
      StartedAt(ParserAfter(cfg, before), last.conn, last.chunk);
    }
  }

  lemma ParserIs(cfg: Config, feeds: seq<Feed>)
    requires feeds != [] && !feeds[|feeds| - 1].conn.tunnel
    ensures ParserAfter(cfg, feeds) == Rest(Reported(cfg, feeds), feeds[|feeds| - 1].chunk)
  {
  }

  lemma SliceShows(feeds: seq<Feed>, run: Stretch, e: Event)
    requires StretchIn(feeds, run) && SliceOf(run, e.offset, e.data)
    ensures Shows(feeds, e)
  {
    hide ByteAt;
    forall i: nat | i < |e.data|
      ensures ByteAt(feeds, e.offset + i) == Some(e.data[i])
    {
      assert run.text[e.offset + i - run.start] == e.data[i];
    }
  }

  lemma ShowsLater(feeds: seq<Feed>, e: Event)
    requires feeds != [] && InOrder(feeds) && Shows(feeds[..|feeds| - 1], e)
    ensures Shows(feeds, e)
  {
    var before := feeds[..|feeds| - 1];
    forall i: nat | i < |e.data|
      ensures ByteAt(feeds, e.offset + i) == Some(e.data[i])
    {
      assert ByteAt(before, e.offset + i) == Some(e.data[i]);
      Bounded(before, e.offset + i);
    }
  }

  lemma {:induction false} Bounded(feeds: seq<Feed>, o: nat)
    requires InOrder(feeds) && ByteAt(feeds, o).Some?
    ensures feeds != [] && o < feeds[|feeds| - 1].chunk.End()
  {
    var c := feeds[|feeds| - 1].chunk;
    if !(c.offset <= o < c.End()) {
      var before := feeds[..|feeds| - 1];
      Bounded(before, o);
    }
  }

  lemma {:induction false} AllShowLater(feeds: seq<Feed>, events: seq<Event>)
    requires feeds != [] && InOrder(feeds) && forall e | e in events :: Shows(feeds[..|feeds| - 1], e)
    ensures forall e | e in events :: Shows(feeds, e)
  {
    hide Shows, InOrder;
    forall e | e in events
      ensures Shows(feeds, e)
    {
      ShowsLater(feeds, e);
    }
  }

  lemma OrderedJoin(a: seq<Event>, b: seq<Event>, lo: nat, mid: nat, mid': nat, hi: nat)
    requires Ordered(a, lo, mid) && Ordered(b, mid', hi) && lo <= mid <= mid' <= hi
    ensures Ordered(a + b, lo, hi)
  {
  }

  /** In any run, with errors, holes and resynchronisation: every wire record shows
      exactly the bytes of the stream at its offset, and the records of one parser
      strictly follow each other without overlap. */
  lemma {:induction false} WireRecords(cfg: Config, feeds: seq<Feed>)
    requires NoTunnel(cfg, feeds) && InOrder(feeds)
    ensures forall e | e in EventsAfter(cfg, feeds) :: Shows(feeds, e)
    ensures Ordered(EventsAfter(cfg, feeds), 0, Position(cfg, feeds))
  {
    if feeds != [] {
      var before, last := feeds[..|feeds| - 1], feeds[|feeds| - 1];
      Shorter(feeds);
      WireRecords(cfg, before);
      ReportedWire(cfg, feeds);
      StartsLater(cfg, feeds);
      LatestIn(feeds);
      hide InOrder, NoTunnel, Latest, Fed, StretchIn, Shows, Ordered, SliceOf, ParserAfter, Started;
      AllShowLater(feeds, EventsAfter(cfg, before));
      var m := Reported(cfg, feeds);
      forall e | e in m.events
        ensures Shows(feeds, e)
      {
        SliceShows(feeds, Latest(feeds), e);
      }
      OrderedJoin(EventsAfter(cfg, before), m.events, 0, Position(cfg, before),
                  Started(ParserAfter(cfg, before), last.conn, last.chunk).offset, m.offset);
    }
  }
}
