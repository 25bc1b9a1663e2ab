/** The end of a connection: whatever could be framed has been framed by the feeds, so
    finishing adds no wire record. */
module HttpFinish {
  import opened Basics
  import opened HttpFraming
  import W = HttpWire

  /** What finishing emits from the buffered rest of a body, by the same rules as a feed. */
  function FinishEvents(cfg: Config, m: Machine): seq<Event>
    requires BodyOk(m.state)
  {
    match m.state
    case Headers => []
    case UntilClose(_, _) => UntilCloseTurn(cfg, m.(events := [])).events
    case Fixed(_) => FixedTurn(m.(events := [])).events
    case SkipFixed(_, _) => SkipTurn(m.(events := [])).events
    case Chunked(dec, seen, capturing) =>
      var c := Decode(cfg, Limit(cfg, capturing, seen), Begin(dec, m.buffer));
      if c.outcome.Failed? then [] else EmitPieces(m.(events := []), m.offset, c.pieces).events
  }

  /** The decoder found nothing it could take from the buffer. */
  ghost predicate Stuck(cfg: Config, dec: Decoder, buf: seq<Byte>) {
    match dec.state
    case Size => FindCrlf(buf, dec.scanFrom).None?
    case Data(_) => buf == []
    case DataCrlf => |buf| < 2
    case Trailers => !CrlfAt(buf, 0) && FindDouble(buf, dec.scanFrom).None?
  }

  /** A resumed scan finds nothing in bytes that were scanned before. */
  lemma WaitingStuck(cfg: Config, limit: Option<nat>, c: Consume)
    requires c.outcome.Going? && DecoderOk(c.dec)
    ensures var c' := DecodeStep(cfg, limit, c); c'.outcome.Waiting? ==> Stuck(cfg, c'.dec, c'.buf)
  {
  }

  lemma {:induction false} DecodeStuck(cfg: Config, limit: Option<nat>, c: Consume)
    requires DecoderOk(c.dec) && (c.outcome.Waiting? ==> Stuck(cfg, c.dec, c.buf))
    ensures var c' := Decode(cfg, limit, c); c'.outcome.Waiting? ==> Stuck(cfg, c'.dec, c'.buf)
    decreases |c.buf|, c.outcome.Going?
  {
    hide DecodeStep, Stuck;
    if c.outcome.Going? {
      WaitingStuck(cfg, limit, c);
      DecodeStuck(cfg, limit, DecodeStep(cfg, limit, c));
    }
  }

  lemma StuckTakesNothing(cfg: Config, limit: Option<nat>, dec: Decoder, buf: seq<Byte>)
    requires DecoderOk(dec) && Stuck(cfg, dec, buf)
    ensures Decode(cfg, limit, Begin(dec, buf)).pieces == []
  {
    hide FindCrlf, FindDouble;
    var c := DecodeStep(cfg, limit, Begin(dec, buf));
    assert !c.outcome.Going? && c.pieces == [];
    assert Decode(cfg, limit, c) == c;
  }

  /** A parser that has stopped has nothing left to take for the body it is in. */
  ghost predicate Rests(cfg: Config, m: Machine) {
    match m.state
    case Headers => true
    case Chunked(dec, _, _) => m.buffer == [] || Stuck(cfg, dec, m.buffer)
    case _ => m.buffer == []
  }

  lemma ChunkedRests(cfg: Config, m: Machine)
    requires m.state.Chunked? && BodyOk(m.state)
    ensures var m' := ChunkedTurn(cfg, m); !m'.going ==> Rests(cfg, m')
  {
    hide Decode, EmitPieces, Stuck, Limit;
    if m.buffer != [] {
      var limit, c0 := Limit(cfg, m.state.capturing, m.state.seen), Begin(m.state.dec, m.buffer);
      DecodeStuck(cfg, limit, c0);
      W.DecodePieces(cfg, limit, m.buffer, c0);
    }
  }

  lemma TurnRests(cfg: Config, m: Machine)
    requires BodyOk(m.state) && m.going
    ensures !Turn(cfg, m).going ==> Rests(cfg, Turn(cfg, m))
  {
    match m.state
    case Headers => HeadersRest(cfg, m);
    case Chunked(_, _, _) => ChunkedRests(cfg, m);
    case _ =>
  }

  lemma HeadersRest(cfg: Config, m: Machine)
    requires m.state.Headers? && m.going
    ensures !HeadersTurn(cfg, m).going ==> HeadersTurn(cfg, m).state.Headers?
  {
    hide FindDouble, FindStart, OpensTunnel, Unframed, BodyAfter, Paired, HeaderErrors;
  }

  lemma {:induction false} LoopRests(cfg: Config, m: Machine)
    requires BodyOk(m.state) && (!m.going ==> Rests(cfg, m))
    ensures Rests(cfg, Loop(cfg, m))
    decreases |m.buffer|, Rank(m.state), m.going
  {
    hide Rests, Turn;
    if m.going {
      TurnProgress(cfg, m);
      TurnRests(cfg, m);
      LoopRests(cfg, Turn(cfg, m));
    }
  }

  /** After any feed, finishing emits no wire record. */
  lemma FinishIsQuiet(cfg: Config, p: Parser, conn: Conn, c: Chunk)
    requires BodyOk(p.state)
    ensures FinishEvents(cfg, Fed(cfg, p, conn, c)) == []
  {
    LoopRests(cfg, Started(p, conn, c));
    var m := Fed(cfg, p, conn, c);
    hide Loop;
    if m.state.Chunked? {
      NothingDecoded(cfg, m);
    }
  }

  lemma NothingDecoded(cfg: Config, m: Machine)
    requires m.state.Chunked? && BodyOk(m.state) && Rests(cfg, m)
    ensures FinishEvents(cfg, m) == []
  {
    var st := m.state;
    if m.buffer == [] {
      EmptyStuck(cfg, st.dec);
    }
    StuckTakesNothing(cfg, Limit(cfg, st.capturing, st.seen), st.dec, m.buffer);
  }

  lemma EmptyStuck(cfg: Config, dec: Decoder)
    ensures Stuck(cfg, dec, [])
  {
  }
}
