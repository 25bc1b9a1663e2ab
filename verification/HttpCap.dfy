/** The body cap never disturbs framing: a capped parser finds the same headers at the
    same offsets, makes the same errors and ends in the same framing state as one that
    captures everything, and of each body it captures exactly the first bytes. */
module HttpCap {
  import opened Basics
  import opened HttpFraming
  import W = HttpWire

  /** What a message amounts to, however its body was cut into records. */
  datatype Message = Message(offset: nat, header: seq<Byte>, request: bool, body: seq<Byte>)

  function AddBody(sum: seq<Message>, data: seq<Byte>): (s: seq<Message>)
    ensures |s| == |sum|
  {
    if sum == [] then sum
    else
      var last := sum[|sum| - 1];
      sum[|sum| - 1 := last.(body := last.body + data)]
  }

  function Add(sum: seq<Message>, e: Event): seq<Message> {
    match e
    case Header(offset, data, request) => sum + [Message(offset, data, request, [])]
    case BodyPart(_, data) => AddBody(sum, data)
  }

  function Sum(base: seq<Message>, events: seq<Event>): seq<Message> {
    if events == [] then base else Add(Sum(base, events[..|events| - 1]), events[|events| - 1])
  }

  lemma SumMore(base: seq<Message>, events: seq<Event>, e: Event)
    ensures Sum(base, events + [e]) == Add(Sum(base, events), e)
  {
    assert (events + [e])[..|events|] == events;
  }

  lemma AddTwice(sum: seq<Message>, a: seq<Byte>, b: seq<Byte>)
    ensures AddBody(AddBody(sum, a), b) == AddBody(sum, a + b)
  {
    if sum != [] {
      var body := sum[|sum| - 1].body;
      assert body + a + b == body + (a + b);
    }
  }

  lemma AddNothing(sum: seq<Message>)
    ensures AddBody(sum, []) == sum
  {
    if sum != [] {
      assert sum[|sum| - 1].body + [] == sum[|sum| - 1].body;
    }
  }

  lemma EmitSum(base: seq<Message>, m: Machine, offset: nat, data: seq<Byte>)
    ensures Sum(base, Emit(m, offset, data).events) == AddBody(Sum(base, m.events), data)
  {
    hide AddBody;
    if data == [] {
      AddNothing(Sum(base, m.events));
    } else {
      SumMore(base, m.events, BodyPart(offset, data));
    }
  }

  function PiecesData(pieces: seq<Piece>): seq<Byte> {
    if pieces == [] then [] else PiecesData(pieces[..|pieces| - 1]) + pieces[|pieces| - 1].data
  }

  lemma {:induction false} PiecesSum(sum: seq<Message>, m: Machine, base: nat, pieces: seq<Piece>)
    ensures Sum(sum, EmitPieces(m, base, pieces).events) == AddBody(Sum(sum, m.events), PiecesData(pieces))
  {
    hide AddBody;
    if pieces == [] {
      AddNothing(Sum(sum, m.events));
    } else {
      var last, before := pieces[|pieces| - 1], pieces[..|pieces| - 1];
      PiecesSum(sum, m, base, before);
      SumMore(sum, EmitPieces(m, base, before).events, BodyPart(base + last.rel, last.data));
      AddTwice(Sum(sum, m.events), PiecesData(before), last.data);
    }
  }

  // ---------- The relation ----------

  function Free(cfg: Config): Config {
    cfg.(maxBody := None)
  }

  /** The same messages, with every body cut to its first `cap` bytes. */
  ghost predicate Capped(cap: nat, sm: seq<Message>, sf: seq<Message>) {
    && |sm| == |sf|
    && forall k | 0 <= k < |sf| :: sm[k] == sf[k].(body := FirstBytes(sf[k].body, cap))
  }

  /** How many body bytes of the current message have been framed. */
  function Received(sf: seq<Message>): nat {
    if sf == [] then 0 else |sf[|sf| - 1].body|
  }

  ghost predicate BodySame(cap: nat, bm: Body, bf: Body, received: nat) {
    match bm
    case Headers => bf.Headers?
    case Fixed(remaining) => bf == bm && received + remaining <= cap
    case SkipFixed(remaining, capture) => bf == Fixed(remaining) && capture == Less(cap, received)
    case Chunked(dec, seen, capturing) => bf == Chunked(dec, seen, true) && seen == received && (capturing <==> seen <= cap)
    case UntilClose(seen, capturing) => bf == UntilClose(seen, true) && seen == received && (capturing <==> seen <= cap)
  }

  ghost predicate Same(cap: nat, m: Machine, f: Machine) {
    && m.buffer == f.buffer && m.offset == f.offset && m.synced == f.synced && m.scanFrom == f.scanFrom
    && m.conn == f.conn && m.errors == f.errors && m.going == f.going
  }

  ghost predicate Related(cfg: Config, base: seq<Message>, m: Machine, base': seq<Message>, f: Machine)
    requires cfg.maxBody.Some?
  {
    var cap, sm, sf := cfg.maxBody.value, Sum(base, m.events), Sum(base', f.events);
    && Same(cap, m, f) && Capped(cap, sm, sf)
    && BodySame(cap, m.state, f.state, Received(sf)) && (!m.state.Headers? ==> sf != [])
    && BodyOk(m.state)
  }

  lemma FirstConcat(a: seq<Byte>, b: seq<Byte>, cap: nat)
    ensures FirstBytes(a + b, cap) == FirstBytes(a, cap) + FirstBytes(b, Less(cap, |a|))
  {
  }

  lemma CappedBody(cap: nat, sm: seq<Message>, sf: seq<Message>, data: seq<Byte>)
    requires Capped(cap, sm, sf)
    ensures Capped(cap, AddBody(sm, FirstBytes(data, Less(cap, Received(sf)))), AddBody(sf, data))
    ensures sf != [] ==> Received(AddBody(sf, data)) == Received(sf) + |data| && AddBody(sf, data) != []
  {
    if sf != [] {
      FirstConcat(sf[|sf| - 1].body, data, cap);
    }
  }

  lemma CappedHeader(cap: nat, sm: seq<Message>, sf: seq<Message>, h: Message)
    requires Capped(cap, sm, sf) && h.body == []
    ensures Capped(cap, sm + [h], sf + [h]) && Received(sf + [h]) == 0
  {
  }

  // ---------- One turn ----------

  /** Nothing but the flags that both share has changed. */
  lemma FlagsRelated(cfg: Config, base: seq<Message>, m: Machine, base': seq<Message>, f: Machine, m': Machine, f': Machine)
    requires cfg.maxBody.Some? && Related(cfg, base, m, base', f)
    requires m'.events == m.events && f'.events == f.events && Same(cfg.maxBody.value, m', f')
    requires (m'.state == m.state && f'.state == f.state) || (m'.state == Headers && f'.state == Headers)
    ensures Related(cfg, base, m', base', f')
  {
    hide Sum, Capped;
  }

  lemma BodyAfterSame(cfg: Config, conn: Conn, h: Parsed)
    requires cfg.maxBody.Some?
    ensures BodySame(cfg.maxBody.value, BodyAfter(cfg, conn, h), BodyAfter(Free(cfg), conn, h), 0)
  {
    hide NoBody;
  }

  /** A header starts the next message, with nothing received yet. */
  lemma HeaderRelated(cfg: Config, base: seq<Message>, m: Machine, base': seq<Message>, f: Machine,
                      m': Machine, f': Machine, at: nat, header: seq<Byte>, request: bool)
    requires cfg.maxBody.Some? && Related(cfg, base, m, base', f)
    requires m'.events == m.events + [Header(at, header, request)] && f'.events == f.events + [Header(at, header, request)]
    requires Same(cfg.maxBody.value, m', f') && BodySame(cfg.maxBody.value, m'.state, f'.state, 0) && BodyOk(m'.state)
    ensures Related(cfg, base, m', base', f')
  {
    SumMore(base, m.events, Header(at, header, request));
    SumMore(base', f.events, Header(at, header, request));
    hide Sum, Capped, Received;
    CappedHeader(cfg.maxBody.value, Sum(base, m.events), Sum(base', f.events), Message(at, header, request, []));
  }

  lemma AcceptRelated(cfg: Config, base: seq<Message>, m: Machine, base': seq<Message>, f: Machine, header: seq<Byte>, at: nat, h: Parsed)
    requires cfg.maxBody.Some? && Related(cfg, base, m, base', f) && m.state.Headers?
    ensures Related(cfg, base, Accept(cfg, m, header, at, h), base', Accept(Free(cfg), f, header, at, h))
  {
    hide Related, BodyAfter, OpensTunnel, Unframed, Paired, HeaderErrors;
    RelatedSame(cfg, base, m, base', f);
    BodyAfterSame(cfg, m.conn, h);
    HeaderRelated(cfg, base, m, base', f, Accept(cfg, m, header, at, h), Accept(Free(cfg), f, header, at, h), at, header, h.request);
  }

  lemma SyncedRelated(cfg: Config, base: seq<Message>, m: Machine, base': seq<Message>, f: Machine)
    requires cfg.maxBody.Some? && Related(cfg, base, m, base', f) && m.state.Headers?
    ensures Related(cfg, base, SyncedTurn(cfg, m), base', SyncedTurn(Free(cfg), f))
  {
    var end := FindDouble(m.buffer, m.scanFrom);
    hide Related, Accept, FindDouble;
    RelatedSame(cfg, base, m, base', f);
    if end.Some? {
      var n := end.value + 4;
      var header := m.buffer[..n];
      var m1, f1 := Drop(m, n).(scanFrom := 0), Drop(f, n).(scanFrom := 0);
      FlagsRelated(cfg, base, m, base', f, m1, f1);
      var parsed := cfg.parseHeader(header);
      if parsed.Some? {
        AcceptRelated(cfg, base, m1, base', f1, header, m.offset, parsed.value);
      } else {
        FlagsRelated(cfg, base, m1, base', f1, Desync(m1), Desync(f1));
      }
    } else {
      FlagsRelated(cfg, base, m, base', f, SyncedTurn(cfg, m), SyncedTurn(Free(cfg), f));
    }
  }

  lemma RelatedSame(cfg: Config, base: seq<Message>, m: Machine, base': seq<Message>, f: Machine)
    requires cfg.maxBody.Some? && Related(cfg, base, m, base', f)
    ensures Same(cfg.maxBody.value, m, f) && BodyOk(m.state) && BodyOk(f.state)
    ensures m.state.Headers? <==> f.state.Headers?
  {
    hide Sum, Capped, Received;
  }

  lemma HeadersRelated(cfg: Config, base: seq<Message>, m: Machine, base': seq<Message>, f: Machine)
    requires cfg.maxBody.Some? && Related(cfg, base, m, base', f) && m.state.Headers?
    ensures Related(cfg, base, HeadersTurn(cfg, m), base', HeadersTurn(Free(cfg), f))
  {
    hide Related, SyncedTurn, FindStart;
    RelatedSame(cfg, base, m, base', f);
    var m1, f1 := if m.synced then m else Resync(m), if f.synced then f else Resync(f);
    FlagsRelated(cfg, base, m, base', f, m1, f1);
    if m1.synced {
      SyncedRelated(cfg, base, m1, base', f1);
    } else {
      FlagsRelated(cfg, base, m1, base', f1, m1.(going := false), f1.(going := false));
    }
  }

  /** Both take the same bytes; the capped one keeps the first of them. */
  lemma TakenRelated(cfg: Config, base: seq<Message>, m: Machine, base': seq<Message>, f: Machine,
                     m': Machine, f': Machine, data: seq<Byte>)
    requires cfg.maxBody.Some? && Related(cfg, base, m, base', f) && !m.state.Headers?
    requires Same(cfg.maxBody.value, m', f') && BodyOk(m'.state)
    requires var sf := Sum(base', f.events);
      && Sum(base, m'.events) == AddBody(Sum(base, m.events), FirstBytes(data, Less(cfg.maxBody.value, Received(sf))))
      && Sum(base', f'.events) == AddBody(sf, data)
      && BodySame(cfg.maxBody.value, m'.state, f'.state, Received(sf) + |data|)
    ensures Related(cfg, base, m', base', f')
  {
    CappedBody(cfg.maxBody.value, Sum(base, m.events), Sum(base', f.events), data);
    hide Sum, Capped, AddBody, Received;
  }

  lemma FixedRelated(cfg: Config, base: seq<Message>, m: Machine, base': seq<Message>, f: Machine)
    requires cfg.maxBody.Some? && Related(cfg, base, m, base', f) && (m.state.Fixed? || m.state.SkipFixed?)
    ensures Related(cfg, base, Turn(cfg, m), base', Turn(Free(cfg), f))
  {
    var sf := Sum(base', f.events);
    hide Sum, Capped, AddBody, Received, Emit;
    if m.buffer == [] {
      FlagsRelated(cfg, base, m, base', f, m.(going := false), f.(going := false));
    } else {
      var take := Min(m.state.remaining, |m.buffer|);
      var data := m.buffer[..take];
      var keep := if m.state.Fixed? then take else Min(take, m.state.capture);
      assert FirstBytes(data, Less(cfg.maxBody.value, Received(sf))) == m.buffer[..keep];
      EmitSum(base, m, m.offset, m.buffer[..keep]);
      EmitSum(base', f, f.offset, data);
      TakenRelated(cfg, base, m, base', f, Turn(cfg, m), Turn(Free(cfg), f), data);
    }
  }

  lemma UntilCloseRelated(cfg: Config, base: seq<Message>, m: Machine, base': seq<Message>, f: Machine)
    requires cfg.maxBody.Some? && Related(cfg, base, m, base', f) && m.state.UntilClose?
    ensures Related(cfg, base, Turn(cfg, m), base', Turn(Free(cfg), f))
  {
    var sf := Sum(base', f.events);
    hide Sum, Capped, AddBody, Received, Emit;
    if m.buffer == [] {
      FlagsRelated(cfg, base, m, base', f, m.(going := false), f.(going := false));
    } else {
      var keep := Room(Limit(cfg, m.state.capturing, m.state.seen), 0, |m.buffer|);
      assert FirstBytes(m.buffer, Less(cfg.maxBody.value, Received(sf))) == m.buffer[..keep];
      assert m.buffer[..|m.buffer|] == m.buffer;
      EmitSum(base, m, m.offset, m.buffer[..keep]);
      EmitSum(base', f, f.offset, m.buffer);
      TakenRelated(cfg, base, m, base', f, Turn(cfg, m), Turn(Free(cfg), f), m.buffer);
    }
  }

  // ---------- The decoder ----------

  /** Two decoders under different capture limits. */
  ghost predicate Decoding(limit: nat, c: Consume, d: Consume) {
    && c.dec == d.dec && c.buf == d.buf && c.used == d.used && c.body == d.body && c.outcome == d.outcome
    && d.collected == d.body == |PiecesData(d.pieces)| && c.collected == Min(c.body, limit)
    && PiecesData(c.pieces) == FirstBytes(PiecesData(d.pieces), limit)
  }

  lemma PiecesMore(pieces: seq<Piece>, p: Piece)
    ensures PiecesData(pieces + [p]) == PiecesData(pieces) + p.data
  {
    assert (pieces + [p])[..|pieces|] == pieces;
  }

  lemma DataDecoding(limit: nat, c: Consume, d: Consume)
    requires Decoding(limit, c, d) && c.dec.state.Data? && c.dec.state.remaining > 0
    ensures Decoding(limit, DataStep(Some(limit), c), DataStep(None, d))
  {
    if c.buf != [] {
      var take := Min(c.dec.state.remaining, |c.buf|);
      var keep := Room(Some(limit), c.collected, take);
      var before, data := PiecesData(d.pieces), c.buf[..take];
      PiecesMore(d.pieces, Piece(d.used, data));
      PiecesMore(c.pieces, Piece(c.used, c.buf[..keep]));
      FirstConcat(before, data, limit);
      assert FirstBytes(data, Less(limit, |before|)) == c.buf[..keep];
      hide PiecesData;
    }
  }

  /** Steps that take no data leave what was captured as it is. */
  lemma QuietDecoding(limit: nat, c: Consume, d: Consume, c': Consume, d': Consume)
    requires Decoding(limit, c, d)
    requires c' == c.(dec := c'.dec, buf := c'.buf, used := c'.used, outcome := c'.outcome)
    requires d' == d.(dec := c'.dec, buf := c'.buf, used := c'.used, outcome := c'.outcome)
    ensures Decoding(limit, c', d')
  {
    hide PiecesData;
  }

  lemma SameInput(limit: nat, c: Consume, d: Consume)
    requires Decoding(limit, c, d)
    ensures c.dec == d.dec && c.buf == d.buf && c.used == d.used && c.outcome == d.outcome
  {
    hide PiecesData;
  }

  lemma StepDecoding(cfg: Config, limit: nat, c: Consume, d: Consume)
    requires Decoding(limit, c, d) && c.outcome.Going? && DecoderOk(c.dec)
    ensures d.outcome.Going? && DecoderOk(d.dec)
    ensures Decoding(limit, DecodeStep(cfg, Some(limit), c), DecodeStep(Free(cfg), None, d))
  {
    hide Decoding, FindCrlf, FindDouble, DataStep;
    SameInput(limit, c, d);
    if c.dec.state.Data? {
      DataDecoding(limit, c, d);
    } else {
      QuietDecoding(limit, c, d, DecodeStep(cfg, Some(limit), c), DecodeStep(Free(cfg), None, d));
    }
  }

  lemma {:induction false} DecodeSame(cfg: Config, limit: nat, c: Consume, d: Consume)
    requires Decoding(limit, c, d) && DecoderOk(c.dec)
    ensures Decoding(limit, Decode(cfg, Some(limit), c), Decode(Free(cfg), None, d))
    decreases |c.buf|, c.outcome.Going?
  {
    hide DecodeStep, PiecesData;
    if c.outcome.Going? {
      StepDecoding(cfg, limit, c, d);
      DecodeSame(cfg, limit, DecodeStep(cfg, Some(limit), c), DecodeStep(Free(cfg), None, d));
    }
  }

  lemma ChunkedStates(cfg: Config, base: seq<Message>, m: Machine, base': seq<Message>, f: Machine)
    requires cfg.maxBody.Some? && Related(cfg, base, m, base', f) && m.state.Chunked?
    ensures var st, received := m.state, Received(Sum(base', f.events));
      && f.state == Chunked(st.dec, st.seen, true) && st.seen == received && DecoderOk(st.dec)
      && Limit(cfg, st.capturing, st.seen) == Some(Less(cfg.maxBody.value, received))
      && (st.capturing <==> st.seen <= cfg.maxBody.value)
  {
    hide Sum, Capped, Received;
  }

  lemma BothDecode(cfg: Config, limit: nat, dec: Decoder, buf: seq<Byte>)
    requires DecoderOk(dec)
    ensures Decoding(limit, Decode(cfg, Some(limit), Begin(dec, buf)), Decode(Free(cfg), None, Begin(dec, buf)))
  {
    assert Decoding(limit, Begin(dec, buf), Begin(dec, buf));
    DecodeSame(cfg, limit, Begin(dec, buf), Begin(dec, buf));
  }

  lemma DecodedFacts(limit: nat, c: Consume, d: Consume)
    requires Decoding(limit, c, d)
    ensures c.dec == d.dec && c.used == d.used && c.body == d.body == |PiecesData(d.pieces)| && c.outcome == d.outcome
    ensures PiecesData(c.pieces) == FirstBytes(PiecesData(d.pieces), limit)
  {
    hide PiecesData;
  }

  lemma ChunkedRelated(cfg: Config, base: seq<Message>, m: Machine, base': seq<Message>, f: Machine)
    requires cfg.maxBody.Some? && Related(cfg, base, m, base', f) && m.state.Chunked?
    ensures f.state.Chunked? && BodyOk(m.state) && BodyOk(f.state)
    ensures Related(cfg, base, ChunkedTurn(cfg, m), base', ChunkedTurn(Free(cfg), f))
  {
    hide Related, Sum, AddBody, Received, Decode, PiecesData, EmitPieces, Decoding, Limit;
    RelatedSame(cfg, base, m, base', f);
    ChunkedStates(cfg, base, m, base', f);
    var st := m.state;
    var limit := Less(cfg.maxBody.value, st.seen);
    var c0 := Begin(st.dec, m.buffer);
    if m.buffer == [] {
      FlagsRelated(cfg, base, m, base', f, m.(going := false), f.(going := false));
    } else {
      var c, d := Decode(cfg, Some(limit), c0), Decode(Free(cfg), None, c0);
      BothDecode(cfg, limit, st.dec, m.buffer);
      DecodedFacts(limit, c, d);
      NoLimit(cfg, st.seen);
      if c.outcome.Failed? {
        FlagsRelated(cfg, base, m, base', f, ChunkedTurn(cfg, m), ChunkedTurn(Free(cfg), f));
      } else {
        PiecesSum(base, m, m.offset, c.pieces);
        PiecesSum(base', f, f.offset, d.pieces);
        TakenRelated(cfg, base, m, base', f, ChunkedTurn(cfg, m), ChunkedTurn(Free(cfg), f), PiecesData(d.pieces));
      }
    }
  }

  lemma NoLimit(cfg: Config, seen: nat)
    ensures Limit(Free(cfg), true, seen) == None
  {
  }

  lemma TurnRelated(cfg: Config, base: seq<Message>, m: Machine, base': seq<Message>, f: Machine)
    requires cfg.maxBody.Some? && Related(cfg, base, m, base', f)
    ensures BodyOk(m.state) && BodyOk(f.state) && Related(cfg, base, Turn(cfg, m), base', Turn(Free(cfg), f))
  {
    RelatedSame(cfg, base, m, base', f);
    StatesMatch(cfg, base, m, base', f);
    hide Related, HeadersTurn, ChunkedTurn, FixedTurn, SkipTurn, UntilCloseTurn;
    match m.state
    case Headers => HeadersRelated(cfg, base, m, base', f);
    case Chunked(_, _, _) => ChunkedRelated(cfg, base, m, base', f);
    case UntilClose(_, _) => UntilCloseRelated(cfg, base, m, base', f);
    case _ => FixedRelated(cfg, base, m, base', f);
  }

  lemma StatesMatch(cfg: Config, base: seq<Message>, m: Machine, base': seq<Message>, f: Machine)
    requires cfg.maxBody.Some? && Related(cfg, base, m, base', f)
    ensures (m.state.Chunked? <==> f.state.Chunked?) && Rank(m.state) == Rank(f.state)
  {
    hide Sum, Capped, Received;
  }

  lemma {:induction false} LoopRelated(cfg: Config, base: seq<Message>, m: Machine, base': seq<Message>, f: Machine)
    requires cfg.maxBody.Some? && Related(cfg, base, m, base', f) && BodyOk(m.state) && BodyOk(f.state)
    ensures Related(cfg, base, Loop(cfg, m), base', Loop(Free(cfg), f))
    decreases |m.buffer|, Rank(m.state), m.going
  {
    hide Related, Turn;
    RelatedSame(cfg, base, m, base', f);
    StatesMatch(cfg, base, m, base', f);
    if m.going {
      TurnRelated(cfg, base, m, base', f);
      TurnProgress(cfg, m);
      TurnProgress(Free(cfg), f);
      LoopRelated(cfg, base, Turn(cfg, m), base', Turn(Free(cfg), f));
    }
  }

  // ---------- Whole runs ----------

  /** All messages of a run. */
  function Messages(cfg: Config, feeds: seq<W.Feed>): seq<Message> {
    Sum([], W.EventsAfter(cfg, feeds))
  }

  function ErrorsAfter(cfg: Config, feeds: seq<W.Feed>): nat {
    if feeds == [] then 0
    else
      var before, last := feeds[..|feeds| - 1], feeds[|feeds| - 1];
      ErrorsAfter(cfg, before) + if last.conn.tunnel then 0 else W.Reported(cfg, feeds).errors
  }

  ghost predicate ParsersSame(cap: nat, p: Parser, q: Parser, received: nat) {
    && p.buffer == q.buffer && p.offset == q.offset && p.next == q.next && p.synced == q.synced && p.scanFrom == q.scanFrom
    && BodySame(cap, p.state, q.state, received)
  }

  lemma {:induction false} SumConcat(base: seq<Message>, a: seq<Event>, b: seq<Event>)
    ensures Sum(base, a + b) == Sum(Sum(base, a), b)
  {
    if b == [] {
      assert a + b == a;
    } else {
      assert (a + b)[..|a + b| - 1] == a + b[..|b| - 1];
      SumConcat(base, a, b[..|b| - 1]);
    }
  }

  lemma StartRelated(cfg: Config, base: seq<Message>, p: Parser, base': seq<Message>, q: Parser, conn: Conn, c: Chunk)
    requires cfg.maxBody.Some? && ParsersSame(cfg.maxBody.value, p, q, Received(base')) && BodyOk(p.state)
    requires Capped(cfg.maxBody.value, base, base') && (!p.state.Headers? ==> base' != [])
    ensures Related(cfg, base, Started(p, conn, c), base', Started(q, conn, c))
  {
    hide Capped, Received;
  }

  lemma FedRelated(cfg: Config, base: seq<Message>, p: Parser, base': seq<Message>, q: Parser, conn: Conn, c: Chunk)
    requires cfg.maxBody.Some? && ParsersSame(cfg.maxBody.value, p, q, Received(base')) && BodyOk(p.state) && BodyOk(q.state)
    requires Capped(cfg.maxBody.value, base, base') && (!p.state.Headers? ==> base' != [])
    ensures Related(cfg, base, Fed(cfg, p, conn, c), base', Fed(Free(cfg), q, conn, c))
  {
    StartRelated(cfg, base, p, base', q, conn, c);
    hide Related, Capped, Received, Loop, ParsersSame;
    StartedOk(p, conn, c);
    StartedOk(q, conn, c);
    LoopRelated(cfg, base, Started(p, conn, c), base', Started(q, conn, c));
  }

  lemma StartedOk(p: Parser, conn: Conn, c: Chunk)
    requires BodyOk(p.state)
    ensures BodyOk(Started(p, conn, c).state)
  {
  }

  /** On every input, errors and holes included: a parser with a cap makes the same
      errors, ends in the same framing state, and reports the same headers at the same
      offsets as one without, each body cut to its first `cap` bytes. */
  lemma {:induction false} CapOnlyTruncates(cfg: Config, feeds: seq<W.Feed>)
    requires cfg.maxBody.Some?
    ensures var free := Free(cfg);
      && Capped(cfg.maxBody.value, Messages(cfg, feeds), Messages(free, feeds))
      && ErrorsAfter(cfg, feeds) == ErrorsAfter(free, feeds)
      && ParsersSame(cfg.maxBody.value, W.ParserAfter(cfg, feeds), W.ParserAfter(free, feeds), Received(Messages(free, feeds)))
    ensures !W.ParserAfter(cfg, feeds).state.Headers? ==> Messages(Free(cfg), feeds) != []
    ensures feeds != [] && !feeds[|feeds| - 1].conn.tunnel ==> W.Reported(cfg, feeds).conn == W.Reported(Free(cfg), feeds).conn
  {
    if feeds != [] {
      var before, last := feeds[..|feeds| - 1], feeds[|feeds| - 1];
      CapOnlyTruncates(cfg, before);
      var base, base' := Messages(cfg, before), Messages(Free(cfg), before);
      var p, q := W.ParserAfter(cfg, before), W.ParserAfter(Free(cfg), before);
      hide Capped, Received, Fed, ParsersSame, Related, Sum;
      if last.conn.tunnel {
        assert W.EventsAfter(cfg, before) + [] == W.EventsAfter(cfg, before);
        assert W.EventsAfter(Free(cfg), before) + [] == W.EventsAfter(Free(cfg), before);
      } else {
        FedRelated(cfg, base, p, base', q, last.conn, last.chunk);
        var m, f := Fed(cfg, p, last.conn, last.chunk), Fed(Free(cfg), q, last.conn, last.chunk);
        SumConcat([], W.EventsAfter(cfg, before), m.events);
        SumConcat([], W.EventsAfter(Free(cfg), before), f.events);
        RelatedEnds(cfg, base, m, base', f, last.chunk);
      }
    }
  }

  lemma RelatedEnds(cfg: Config, base: seq<Message>, m: Machine, base': seq<Message>, f: Machine, c: Chunk)
    requires cfg.maxBody.Some? && Related(cfg, base, m, base', f)
    ensures var sf := Sum(base', f.events);
      && Capped(cfg.maxBody.value, Sum(base, m.events), sf) && m.errors == f.errors
      && ParsersSame(cfg.maxBody.value, Rest(m, c), Rest(f, c), Received(sf))
      && (!m.state.Headers? ==> sf != []) && m.conn == f.conn
  {
    hide Sum, Capped, Received;
  }

  /** Two parsers that differ only in the cap agree on everything but the cut bodies. */
  lemma TwoCaps(cfg: Config, cap1: nat, cap2: nat, feeds: seq<W.Feed>, k: nat)
    requires k < |Messages(cfg.(maxBody := Some(cap1)), feeds)|
    ensures var c1, c2 := cfg.(maxBody := Some(cap1)), cfg.(maxBody := Some(cap2));
      && ErrorsAfter(c1, feeds) == ErrorsAfter(c2, feeds)
      && |Messages(c1, feeds)| == |Messages(c2, feeds)|
      && (var m1, m2 := Messages(c1, feeds)[k], Messages(c2, feeds)[k];
          && m1.offset == m2.offset && m1.header == m2.header && m1.request == m2.request
          && (cap1 <= cap2 ==> m1.body == FirstBytes(m2.body, cap1)))
  {
    hide Messages, ErrorsAfter, ParsersSame;
    var c1, c2 := cfg.(maxBody := Some(cap1)), cfg.(maxBody := Some(cap2));
    CapOnlyTruncates(c1, feeds);
    CapOnlyTruncates(c2, feeds);
    assert Free(c1) == Free(c2);
    var whole := Messages(Free(c1), feeds)[k].body;
    if cap1 <= cap2 {
      assert FirstBytes(FirstBytes(whole, cap2), cap1) == FirstBytes(whole, cap1);
    }
  }
}
