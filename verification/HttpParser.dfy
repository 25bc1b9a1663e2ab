/** The parser as it runs: a buffer consumed in place, resumable scans, one loop per feed. */
module HttpParser {
  import opened Basics
  import opened HttpFraming
  import W = HttpWire

  class ChunkedDecoder {
    var state: ChunkState
    var scanFrom: nat

    function Now(): Decoder
      reads this
    {
      Decoder(state, scanFrom)
    }

    constructor (d: Decoder)
      ensures Now() == d
    {
      state := d.state;
      scanFrom := d.scanFrom;
    }

    method ReadSize(cfg: Config, buf: seq<Byte>, ghost c: Consume) returns (outcome: Outcome, rest: seq<Byte>)
      requires state.Size? && c.dec == Now() && c.buf == buf && c.outcome.Going?
      modifies this
      ensures |rest| <= |buf|
      ensures SizeStep(cfg, c) == c.(dec := Now(), buf := rest, used := c.used + |buf| - |rest|, outcome := outcome)
    {
      rest := buf;
      var p := FindCrlf(buf, scanFrom);
      hide FindCrlf;
      if p.None? {
        if |buf| > cfg.maxHeader {
          return Failed, rest;
        }
        scanFrom := Less(|buf|, 1);
        return Waiting, rest;
      }
      scanFrom := 0;
      rest := buf[p.value + 2..];
      var size := cfg.chunkSize(buf[..p.value]);
      if size.None? {
        return Failed, rest;
      }
      if size.value == 0 {
        state := Trailers;
      } else {
        state := Data(size.value);
      }
      outcome := Going;
    }

    method ReadCrlf(buf: seq<Byte>, ghost c: Consume) returns (outcome: Outcome, rest: seq<Byte>)
      requires state.DataCrlf? && c.dec == Now() && c.buf == buf && c.outcome.Going?
      modifies this
      ensures |rest| <= |buf|
      ensures DataCrlfStep(c) == c.(dec := Now(), buf := rest, used := c.used + |buf| - |rest|, outcome := outcome)
    {
      rest := buf;
      if |buf| < 2 {
        return Waiting, rest;
      }
      if !CrlfAt(buf, 0) {
        return Failed, rest;
      }
      rest := buf[2..];
      state := Size;
      outcome := Going;
    }

    method ReadTrailers(cfg: Config, buf: seq<Byte>, ghost c: Consume) returns (outcome: Outcome, rest: seq<Byte>)
      requires state.Trailers? && c.dec == Now() && c.buf == buf && c.outcome.Going?
      modifies this
      ensures |rest| <= |buf|
      ensures TrailersStep(cfg, c) == c.(dec := Now(), buf := rest, used := c.used + |buf| - |rest|, outcome := outcome)
    {
      rest := buf;
      if CrlfAt(buf, 0) {
        rest, state, scanFrom := buf[2..], Size, 0;
        return Finished, rest;
      }
      var p := FindDouble(buf, scanFrom);
      hide FindDouble;
      if p.None? {
        if |buf| > cfg.maxHeader {
          return Failed, rest;
        }
        scanFrom := Less(|buf|, 3);
        return Waiting, rest;
      }
      rest, state, scanFrom := buf[p.value + 4..], Size, 0;
      outcome := Finished;
    }

    /** Takes data bytes; `piece` is what is captured of them, from where `used` stands. */
    method ReadData(buf: seq<Byte>, maxCollect: Option<nat>, used: nat, collected: nat, ghost c: Consume)
      returns (outcome: Outcome, rest: seq<Byte>, pieces: seq<Piece>, collect: nat)
      requires state.Data? && state.remaining > 0 && c.dec == Now() && c.buf == buf && c.outcome.Going?
      requires c.used == used && c.collected == collected
      modifies this
      ensures |rest| <= |buf|
      ensures DataStep(maxCollect, c) ==
        c.(dec := Now(), buf := rest, used := used + |buf| - |rest|, pieces := c.pieces + pieces,
           collected := collected + collect, body := c.body + |buf| - |rest|, outcome := outcome)
    {
      rest, pieces, collect := buf, [], 0;
      assert c.pieces + [] == c.pieces;
      if buf == [] {
        return Waiting, rest, pieces, collect;
      }
      var remaining := state.remaining;
      var take := Min(remaining, |buf|);
      collect := Room(maxCollect, collected, take);
      if collect != 0 {
        pieces := [Piece(used, buf[..collect])];
      }
      rest := buf[take..];
      state := if remaining == take then DataCrlf else Data(remaining - take);
      outcome := if remaining != take then Waiting else Going;
    }

    /** Consumes as much of `buf` as it can, capturing at most `maxCollect` data bytes. */
    method Consume(cfg: Config, buf: seq<Byte>, maxCollect: Option<nat>) returns (c: Consume)
      requires DecoderOk(Now())
      modifies this
      ensures c == Decode(cfg, maxCollect, Begin(old(Now()), buf)) && Now() == c.dec
    {
      ghost var c0 := Begin(Now(), buf);
      c := Begin(Now(), buf);
      while c.outcome.Going?
        invariant DecoderOk(Now()) && c.dec == Now()
        invariant Decode(cfg, maxCollect, c0) == Decode(cfg, maxCollect, c)
        decreases |c.buf|, c.outcome.Going?
      {
        hide SizeStep, DataStep, DataCrlfStep, TrailersStep;
        var rest := c.buf;
        var outcome: Outcome;
        var body, collected, pieces := c.body, c.collected, c.pieces;
        ghost var next := DecodeStep(cfg, maxCollect, c);
        match state {
          case Size => outcome, rest := ReadSize(cfg, c.buf, c);
          case Data(_) =>
            var more, collect;
            outcome, rest, more, collect := ReadData(c.buf, maxCollect, c.used, c.collected, c);
            body, collected, pieces := c.body + |c.buf| - |rest|, c.collected + collect, c.pieces + more;
          case DataCrlf => outcome, rest := ReadCrlf(c.buf, c);
          case Trailers => outcome, rest := ReadTrailers(cfg, c.buf, c);
        }
        c := HttpFraming.Consume(Now(), rest, c.used + |c.buf| - |rest|, pieces, collected, body, outcome);
        assert c == next;
      }
    }
  }

  /** What a feed has reported so far, and the connection as it stands. */
  datatype Report = Report(conn: Conn, events: seq<Event>, errors: nat)

  class HttpStreamParser {
    const cfg: Config
    var buffer: seq<Byte>
    var state: Body
    var offset: nat
    var next: Option<nat>
    var synced: bool
    var scanFrom: nat

    /** The contiguous stretch of the stream that ends with the input fed last, and
        whether this parser has met a tunnel, after which it is of no use. */
    ghost var stretch: W.Stretch
    ghost var tunnelled: bool

    /** The buffer is the unread end of the stretch. */
    ghost predicate Valid()
      reads this
    {
      BodyOk(state) && (tunnelled || W.ParserOk(Now(), stretch))
    }

    function Now(): Parser
      reads this
    {
      Parser(buffer, state, offset, next, synced, scanFrom)
    }

    /** The machine this parser is in the middle of a feed. */
    function Running(r: Report, going: bool): Machine
      reads this
    {
      Machine(buffer, state, offset, synced, scanFrom, r.conn, r.events, r.errors, going)
    }

    constructor (cfg: Config)
      ensures Valid() && !tunnelled
      ensures Now() == NewParser() && this.cfg == cfg
    {
      this.cfg := cfg;
      buffer := [];
      state := Headers;
      offset := 0;
      next := None;
      synced := true;
      scanFrom := 0;
      stretch := W.Stretch(0, []);
      tunnelled := false;
    }

    method TrimDesyncedSuffix()
      modifies this`buffer, this`offset
      ensures forall r, going :: Running(r, going) == Trimmed(old(Running(r, going)))
    {
      var drop := Less(|buffer|, RESYNC_SUFFIX);
      if drop != 0 {
        buffer := buffer[drop..];
        offset := offset + drop;
      }
    }

    method ResyncToHttpStart() returns (found: bool)
      requires !synced
      modifies this`buffer, this`offset, this`synced, this`scanFrom
      ensures found == synced
      ensures forall r, going :: Running(r, going) == Resync(old(Running(r, going)))
    {
      var pos := FindStart(buffer);
      hide FindStart;
      if pos.Some? {
        if pos.value != 0 {
          buffer := buffer[pos.value..];
          offset := offset + pos.value;
        }
        synced := true;
        scanFrom := 0;
        return true;
      }
      TrimDesyncedSuffix();
      found := false;
    }

    /** A complete header was split off the buffer and parsed. */
    method OnHeader(header: seq<Byte>, at: nat, h: Parsed, r: Report) returns (r': Report, going: bool)
      requires state.Headers?
      modifies this`buffer, this`state, this`synced
      ensures Running(r', going) == Accept(cfg, old(Running(r, true)), header, at, h)
    {
      hide Informational, BodyAfter;
      var errors, pending := r.errors, r.conn.pending;
      if h.ambiguous {
        errors := errors + 1;
      }
      if h.request {
        if |pending| >= PENDING_LIMIT {
          pending := pending[1..];
          errors := errors + 1;
        }
        pending := pending + [h.kind];
      } else if !Informational(h) && pending != [] {
        pending := pending[1..];
      }
      var events := r.events + [Header(at, header, h.request)];
      if OpensTunnel(r.conn, h) {
        buffer := [];
        return Report(Conn(pending, true), events, errors), false;
      }
      if Unframed(r.conn, h) {
        synced := false;
        return Report(Conn([], r.conn.tunnel), events, errors + 1), true;
      }
      state := BodyAfter(cfg, r.conn, h);
      r', going := Report(Conn(pending, r.conn.tunnel), events, errors), true;
    }

    method OnHeaders(r: Report) returns (r': Report, going: bool)
      requires state.Headers?
      modifies this
      ensures next == old(next)
      ensures Running(r', going) == HeadersTurn(cfg, old(Running(r, true)))
    {
      hide FindDouble, Accept, FindStart;
      if !synced {
        var found := ResyncToHttpStart();
        if !found {
          return r, false;
        }
      }
      var end := FindDouble(buffer, scanFrom);
      if end.None? {
        if |buffer| > cfg.maxHeader {
          synced := false;
          scanFrom := 0;
          TrimDesyncedSuffix();
          return Report(r.conn.(pending := []), r.events, r.errors + 1), false;
        }
        scanFrom := Less(|buffer|, 3);
        return r, false;
      }
      scanFrom := 0;
      var header := buffer[..end.value + 4];
      var at := offset;
      buffer := buffer[end.value + 4..];
      offset := offset + end.value + 4;
      var parsed := cfg.parseHeader(header);
      if parsed.None? {
        synced := false;
        return Report(r.conn.(pending := []), r.events, r.errors + 1), true;
      }
      r', going := OnHeader(header, at, parsed.value, r);
    }

    method OnFixed(r: Report) returns (r': Report, going: bool)
      requires state.Fixed? && state.remaining > 0
      modifies this`buffer, this`state, this`offset
      ensures Running(r', going) == FixedTurn(old(Running(r, true)))
    {
      if buffer == [] {
        return r, false;
      }
      var take := Min(state.remaining, |buffer|);
      r' := Report(r.conn, r.events + [BodyPart(offset, buffer[..take])], r.errors);
      assert buffer[..take] != [];
      buffer := buffer[take..];
      offset := offset + take;
      if take == state.remaining {
        state := Headers;
        going := true;
      } else {
        state := Fixed(state.remaining - take);
        going := false;
      }
    }

    method OnSkipFixed(r: Report) returns (r': Report, going: bool)
      requires state.SkipFixed? && state.remaining > 0
      modifies this`buffer, this`state, this`offset
      ensures Running(r', going) == SkipTurn(old(Running(r, true)))
    {
      if buffer == [] {
        return r, false;
      }
      var take := Min(state.remaining, |buffer|);
      var collect := Min(take, state.capture);
      r' := r;
      if collect != 0 {
        r' := Report(r.conn, r.events + [BodyPart(offset, buffer[..collect])], r.errors);
      }
      assert buffer[..collect] == [] <==> collect == 0;
      buffer := buffer[take..];
      offset := offset + take;
      if take == state.remaining {
        state := Headers;
        going := true;
      } else {
        state := SkipFixed(state.remaining - take, state.capture - collect);
        going := false;
      }
    }

    /** Turns captured pieces into body records at their place in the stream. */
    method EmitAll(r: Report, base: nat, pieces: seq<Piece>) returns (r': Report)
      ensures r'.conn == r.conn && r'.errors == r.errors
      ensures forall going :: Running(r', going) == EmitPieces(Running(r, going), base, pieces)
    {
      r' := r;
      var i := 0;
      while i < |pieces|
        invariant i <= |pieces| && r'.conn == r.conn && r'.errors == r.errors
        invariant forall going :: Running(r', going) == EmitPieces(Running(r, going), base, pieces[..i])
      {
        assert pieces[..i + 1][..i] == pieces[..i];
        r' := Report(r'.conn, r'.events + [BodyPart(base + pieces[i].rel, pieces[i].data)], r'.errors);
        i := i + 1;
      }
      assert pieces[..|pieces|] == pieces;
    }

    method OnChunked(r: Report) returns (r': Report, going: bool)
      requires state.Chunked? && BodyOk(state)
      modifies this`buffer, this`state, this`offset, this`synced
      ensures Running(r', going) == ChunkedTurn(cfg, old(Running(r, true)))
    {
      hide Decode, EmitPieces;
      if buffer == [] {
        return r, false;
      }
      var before, base := |buffer|, offset;
      var seen, capturing := state.seen, state.capturing;
      var decoder := new ChunkedDecoder(state.dec);
      var c := decoder.Consume(cfg, buffer, Limit(cfg, capturing, seen));
      hide Limit;
      if c.outcome.Failed? {
        buffer := buffer[c.used..];
        offset := offset + (before - |buffer|);
        synced := false;
        state := Headers;
        return Report(r.conn.(pending := []), r.events, r.errors + 1), true;
      }
      r' := EmitAll(r, base, c.pieces);
      assert Running(r', true) == EmitPieces(old(Running(r, true)), base, c.pieces);
      buffer := buffer[c.used..];
      offset := offset + c.used;
      seen := seen + c.body;
      if c.outcome.Finished? {
        state := Headers;
        going := true;
      } else {
        state := Chunked(c.dec, seen, StillCapturing(cfg, capturing, seen));
        going := |buffer| != before;
      }
    }

    method OnUntilClose(r: Report) returns (r': Report, going: bool)
      requires state.UntilClose?
      modifies this`buffer, this`state, this`offset
      ensures Running(r', going) == UntilCloseTurn(cfg, old(Running(r, true)))
    {
      if buffer == [] {
        return r, false;
      }
      var seen, capturing := state.seen, state.capturing;
      var collect := Room(Limit(cfg, capturing, seen), 0, |buffer|);
      hide Limit;
      r' := r;
      if collect != 0 {
        r' := Report(r.conn, r.events + [BodyPart(offset, buffer[..collect])], r.errors);
      }
      assert buffer[..collect] == [] <==> collect == 0;
      seen := seen + |buffer|;
      offset := offset + |buffer|;
      buffer := buffer[|buffer|..];
      state := UntilClose(seen, StillCapturing(cfg, capturing, seen));
      going := false;
    }

    method Turn1(r: Report) returns (r': Report, going: bool)
      requires BodyOk(state)
      modifies this
      ensures next == old(next)
      ensures Running(r', going) == Turn(cfg, old(Running(r, true)))
    {
      hide HeadersTurn, FixedTurn, SkipTurn, ChunkedTurn, UntilCloseTurn, DecoderOk;
      match state
      case Headers => r', going := OnHeaders(r);
      case Fixed(_) => r', going := OnFixed(r);
      case SkipFixed(_, _) => r', going := OnSkipFixed(r);
      case Chunked(_, _, _) => r', going := OnChunked(r);
      case UntilClose(_, _) => r', going := OnUntilClose(r);
    }

    /** Frames one more chunk of the stream, in the loop of the program. */
    method Feed(chunk: Chunk, conn: Conn) returns (r: Report)
      requires Valid()
      modifies this
      ensures Valid() && tunnelled == (old(tunnelled) || conn.tunnel || r.conn.tunnel)
      ensures var m := Fed(cfg, old(Now()), conn, chunk);
        Running(r, false) == m && Now() == Rest(m, chunk)
      // A chunk that adjoins the input so far goes on with its stretch, any other begins one.
      ensures stretch == W.Extended(old(Now()), old(stretch), chunk)
      // Outside a tunnel every record is a slice of that one stretch, so none joins bytes
      // across a hole; the records follow each other from where the parser stood, and end
      // before the next byte to frame.
      ensures !old(tunnelled) && !conn.tunnel ==>
        && W.AllSlices(stretch, r.events)
        && W.Ordered(r.events, if old(next) == Some(chunk.offset) then old(offset) else chunk.offset, offset)
        && offset <= stretch.End() == chunk.End()
      // And what is not framed yet is exactly the rest of it.
      ensures !tunnelled ==> offset + |buffer| == chunk.End() && W.Holds(stretch, offset, buffer)
    {
      ghost var p, run, wasTunnel := Now(), stretch, tunnelled;
      r := Start(chunk, conn);
      ghost var m0 := Running(r, true);
      r := Frame(r, chunk);
      stretch := W.Extended(p, run, chunk);
      tunnelled := wasTunnel || conn.tunnel || r.conn.tunnel;
      if !wasTunnel && !conn.tunnel {
        FedFacts(cfg, p, conn, chunk, run);
      }
    }

    /** Aligns the parser with the chunk and takes its bytes. */
    method Start(chunk: Chunk, conn: Conn) returns (r: Report)
      requires BodyOk(state)
      modifies this`buffer, this`state, this`offset, this`next, this`synced, this`scanFrom
      ensures BodyOk(state) && next == Some(chunk.End())
      ensures Running(r, true) == Started(old(Now()), conn, chunk)
    {
      r := Report(conn, [], 0);
      if next.Some? && next.value != chunk.offset {
        buffer, state, offset, synced, scanFrom := [], Headers, chunk.offset, false, 0;
        r := Report(conn.(pending := []), [], 0);
      } else if next.None? {
        offset, synced := chunk.offset, chunk.offset == 0;
      }
      next := Some(chunk.End());
      buffer := buffer + chunk.data;
    }

    /** The loop: it ends, and leaves the machine as specified. */
    method Frame(r0: Report, chunk: Chunk) returns (r: Report)
      requires BodyOk(state) && next == Some(chunk.End())
      modifies this
      ensures BodyOk(state) && next == Some(chunk.End())
      ensures Running(r, false) == Loop(cfg, old(Running(r0, true)))
    {
      hide Turn;
      r := r0;
      ghost var m0 := Running(r, true);
      var going := true;
      while going
        invariant BodyOk(state) && next == Some(chunk.End())
        invariant Loop(cfg, m0) == Loop(cfg, Running(r, going))
        decreases |buffer|, Rank(state), going
      {
        TurnProgress(cfg, Running(r, true));
        r, going := Turn1(r);
      }
    }
  }

  /** What one feed gives its caller. */
  lemma FedFacts(cfg: Config, p: Parser, conn: Conn, c: Chunk, run: W.Stretch)
    requires W.ParserOk(p, run) && BodyOk(p.state) && !conn.tunnel
    ensures var m, longer := Fed(cfg, p, conn, c), W.Extended(p, run, c);
      && W.AllSlices(longer, m.events)
      && W.Ordered(m.events, if p.next == Some(c.offset) then p.offset else c.offset, m.offset)
      && m.offset <= longer.End() == c.End()
      && (!m.conn.tunnel ==>
            W.ParserOk(Rest(m, c), longer) && m.offset + |m.buffer| == c.End() && W.Holds(longer, m.offset, m.buffer))
  {
    hide Fed, W.AllSlices, W.Ordered;
    W.FedWire(cfg, p, conn, c, run);
    W.StartedAt(p, conn, c);
    W.ExtendedEnd(p, run, c);
  }
}
