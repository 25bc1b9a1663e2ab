/** Segmentation independence: however a synced stream is cut into chunks, the parser
    reports the same messages and ends in the same state, namely those of the simple
    machine run on the whole stream, provided that machine does not break. */
module HttpSegments {
  import opened Basics
  import opened HttpFraming
  import opened HttpCap
  import opened HttpReference
  import W = HttpWire

  // ---------- Resumable scans skip no delimiter ----------

  /** No delimiter starts before the position the scan resumes from. */
  ghost predicate DoubleScan(buf: seq<Byte>, from: nat) {
    from <= Less(|buf|, 3) && forall i: nat | i < from :: !DoubleAt(buf, i)
  }

  ghost predicate CrlfScan(buf: seq<Byte>, from: nat) {
    from <= Less(|buf|, 1) && forall i: nat | i < from :: !CrlfAt(buf, i)
  }

  lemma DoubleResumes(buf: seq<Byte>, from: nat)
    requires DoubleScan(buf, from)
    ensures FindDouble(buf, from) == SeekDouble(buf, 0)
    ensures SeekDouble(buf, 0).None? ==> DoubleScan(buf, Less(|buf|, 3))
  {
  }

  lemma CrlfResumes(buf: seq<Byte>, from: nat)
    requires CrlfScan(buf, from)
    ensures FindCrlf(buf, from) == SeekCrlf(buf, 0)
    ensures SeekCrlf(buf, 0).None? ==> CrlfScan(buf, Less(|buf|, 1))
  {
  }

  lemma ScansExtend(buf: seq<Byte>, from: nat, more: seq<Byte>)
    ensures DoubleScan(buf, from) ==> DoubleScan(buf + more, from)
    ensures CrlfScan(buf, from) ==> CrlfScan(buf + more, from)
  {
    var whole := buf + more;
    assert forall i: nat | i + 4 <= |buf| :: DoubleAt(whole, i) <==> DoubleAt(buf, i);
    assert forall i: nat | i + 2 <= |buf| :: CrlfAt(whole, i) <==> CrlfAt(buf, i);
  }

  ghost predicate DecoderScan(buf: seq<Byte>, dec: Decoder) {
    match dec.state
    case Size => CrlfScan(buf, dec.scanFrom)
    case Trailers => DoubleScan(buf, dec.scanFrom)
    case _ => dec.scanFrom == 0
  }

  ghost predicate ScanOk(m: Machine) {
    match m.state
    case Headers => DoubleScan(m.buffer, m.scanFrom)
    case Chunked(dec, _, _) => m.scanFrom == 0 && DecoderScan(m.buffer, dec)
    case _ => m.scanFrom == 0
  }

  lemma NoScan(buf: seq<Byte>)
    ensures DoubleScan(buf, 0) && CrlfScan(buf, 0)
  {
  }

  // ---------- One turn against the reference ----------

  /** What the simple machine would be after the same bytes. */
  function Abs(base: seq<Message>, errors: nat, m: Machine): Micro {
    Micro(ModeOf(m.state), m.buffer, m.offset, Sum(base, m.events), errors + m.errors, m.conn, false)
  }

  ghost predicate Sound(m: Machine) {
    && BodyOk(m.state) && ScanOk(m) && m.synced && !m.state.SkipFixed? && (!m.going || !m.conn.tunnel)
  }

  /** The turn is a number of steps of the simple machine, and stops only when that
      machine is stuck. */
  ghost predicate Follows(cfg: Config, base: seq<Message>, errors: nat, m: Machine, m': Machine) {
    && Sound(m')
    && MicroRun(cfg, Abs(base, errors, m)) == MicroRun(cfg, Abs(base, errors, m'))
    && (!m'.going ==> MicroStep(cfg, Abs(base, errors, m')).None?)
  }

  lemma RunStep(cfg: Config, u: Micro, v: Micro)
    requires MicroStep(cfg, u) == Some(v)
    ensures MicroRun(cfg, u) == MicroRun(cfg, v)
    ensures v.broken ==> MicroRun(cfg, u).broken
  {
    hide MicroStep;
    BrokenEnds(cfg, v);
  }

  lemma AcceptAbs(cfg: Config, base: seq<Message>, errors: nat, m: Machine, n: nat, h: Parsed)
    requires m.state.Headers? && n <= |m.buffer| && m.synced && !m.conn.tunnel && m.going
    requires !AcceptHeader(cfg, Abs(base, errors, m), n, h).broken
    ensures var m' := Accept(Free(cfg), Drop(m, n).(scanFrom := 0), m.buffer[..n], m.offset, h);
      Abs(base, errors, m') == AcceptHeader(cfg, Abs(base, errors, m), n, h)
  {
    hide Sum, OpensTunnel, Unframed, HeaderErrors, BodyAfter, Paired;
    SumMore(base, m.events, Header(m.offset, m.buffer[..n], h.request));
  }

  lemma AcceptSound(cfg: Config, m: Machine, n: nat, h: Parsed)
    requires m.state.Headers? && n <= |m.buffer| && m.synced && !m.conn.tunnel && m.going && !Unframed(m.conn, h)
    ensures var m' := Accept(Free(cfg), Drop(m, n).(scanFrom := 0), m.buffer[..n], m.offset, h);
      Sound(m') && (!m'.going ==> m'.conn.tunnel)
  {
    NoScan(m.buffer[n..]);
    NoScan([]);
    FreeBody(cfg, m.conn, h);
    hide OpensTunnel, Unframed, HeaderErrors, BodyAfter, DoubleScan, CrlfScan, DecoderOk;
    FreshDecoder();
  }

  lemma FreshDecoder()
    ensures DecoderOk(Decoder(Size, 0))
  {
  }

  lemma AcceptTunnel(cfg: Config, m: Machine, n: nat, h: Parsed)
    requires m.state.Headers? && n <= |m.buffer| && m.synced && !m.conn.tunnel && m.going && OpensTunnel(m.conn, h)
    ensures var m' := Accept(Free(cfg), Drop(m, n).(scanFrom := 0), m.buffer[..n], m.offset, h);
      Sound(m') && m'.conn.tunnel
  {
    NoScan([]);
    hide OpensTunnel, Unframed, HeaderErrors, DoubleScan;
  }

  lemma FreeBody(cfg: Config, conn: Conn, h: Parsed)
    ensures var b := BodyAfter(Free(cfg), conn, h);
      !b.SkipFixed? && (b.Chunked? ==> b.dec == Decoder(Size, 0))
  {
    hide NoBody;
  }

  lemma HeadersFollow(cfg: Config, base: seq<Message>, errors: nat, m: Machine)
    requires Sound(m) && m.going && m.state.Headers? && !MicroRun(cfg, Abs(base, errors, m)).broken
    ensures Follows(cfg, base, errors, m, HeadersTurn(Free(cfg), m))
  {
    var u := Abs(base, errors, m);
    DoubleResumes(m.buffer, m.scanFrom);
    hide MicroRun, SeekDouble, FindDouble, Accept, AcceptHeader, DoubleScan, Sum, OpensTunnel, Unframed;
    var step := MicroStep(cfg, u);
    if step.Some? {
      RunStep(cfg, u, step.value);
      var n := SeekDouble(m.buffer, 0).value + 4;
      var h := cfg.parseHeader(m.buffer[..n]).value;
      AcceptAbs(cfg, base, errors, m, n, h);
      AcceptFramed(cfg, u, n, h);
      if OpensTunnel(m.conn, h) {
        AcceptTunnel(cfg, m, n, h);
      } else {
        AcceptSound(cfg, m, n, h);
      }
    }
  }

  lemma AcceptFramed(cfg: Config, u: Micro, n: nat, h: Parsed)
    requires n <= |u.buf| && !u.broken && !AcceptHeader(cfg, u, n, h).broken
    ensures OpensTunnel(u.conn, h) || !Unframed(u.conn, h)
  {
    hide OpensTunnel, Unframed, HeaderErrors, BodyAfter, Paired;
  }

  lemma {:induction false} CountedRun(cfg: Config, u: Micro, k: nat)
    requires !u.broken && !u.conn.tunnel && k <= |u.buf|
    requires u.mode.ToEnd? || ((u.mode.Counted? || u.mode.InData?) && 0 < u.mode.remaining && k <= u.mode.remaining)
    ensures MicroRun(cfg, u) == MicroRun(cfg, Taken(u, k))
  {
    hide AddBody, MicroRun;
    if k > 0 {
      CountedRun(cfg, u, k - 1);
      var v := Taken(u, k - 1);
      assert u.buf[k - 1..][1..] == u.buf[k..];
      assert u.buf[..k] == u.buf[..k - 1] + [u.buf[k - 1]];
      AddTwice(u.sum, u.buf[..k - 1], [u.buf[k - 1]]);
      assert MicroStep(cfg, v) == Some(Taken(u, k));
      RunStep(cfg, v, Taken(u, k));
    } else {
      AddNothing(u.sum);
      assert u.buf[0..] == u.buf && u.buf[..0] == [];
    }
  }

  /** The first `k` bytes taken as body bytes. */
  function Taken(u: Micro, k: nat): Micro
    requires k <= |u.buf| && (u.mode.Counted? || u.mode.InData? ==> k <= u.mode.remaining)
  {
    var mode := match u.mode
      case Counted(r) => if k == r then AtHeaders else Counted(r - k)
      case InData(r) => if k == r then AtCrlf else InData(r - k)
      case other => other;
    Skip(u, k, mode).(sum := AddBody(u.sum, u.buf[..k]))
  }

  lemma BodyFollows(cfg: Config, base: seq<Message>, errors: nat, m: Machine)
    requires Sound(m) && m.going && (m.state.Fixed? || m.state.UntilClose?)
    ensures Follows(cfg, base, errors, m, Turn(Free(cfg), m))
  {
    hide MicroRun, AddBody, Sum, Emit;
    var u := Abs(base, errors, m);
    NoScan(m.buffer);
    if m.buffer != [] {
      var take := if m.state.Fixed? then Min(m.state.remaining, |m.buffer|) else |m.buffer|;
      CountedRun(cfg, u, take);
      EmitSum(base, m, m.offset, m.buffer[..take]);
      NoScan(m.buffer[take..]);
    }
  }

  // ---------- The decoder against the reference ----------

  /** The simple machine in the middle of a call of the decoder. */
  function AbsDecode(u: Micro, c: Consume): Micro {
    Micro(if c.outcome.Finished? then AtHeaders else DecoderMode(c.dec.state), c.buf, u.offset + c.used,
          AddBody(u.sum, PiecesData(c.pieces)), u.errors, u.conn, false)
  }

  ghost predicate DecodeOk(cfg: Config, u: Micro, c: Consume) {
    && !c.outcome.Failed? && DecoderOk(c.dec) && DecoderScan(c.buf, c.dec)
    && (c.outcome.Waiting? ==> MicroStep(cfg, AbsDecode(u, c)).None?)
  }

  lemma SizeFollows(cfg: Config, u: Micro, c: Consume)
    requires c.outcome.Going? && c.dec.state.Size? && DecoderScan(c.buf, c.dec)
    requires !u.broken && !u.conn.tunnel && !MicroRun(cfg, AbsDecode(u, c)).broken
    ensures var c' := SizeStep(Free(cfg), c);
      DecodeOk(cfg, u, c') && MicroRun(cfg, AbsDecode(u, c)) == MicroRun(cfg, AbsDecode(u, c'))
  {
    CrlfResumes(c.buf, c.dec.scanFrom);
    hide MicroRun, SeekCrlf, FindCrlf, AddBody, PiecesData, CrlfScan, DoubleScan;
    var v := AbsDecode(u, c);
    var step := MicroStep(cfg, v);
    var c' := SizeStep(Free(cfg), c);
    if step.Some? {
      RunStep(cfg, v, step.value);
      NoScan(c'.buf);
      assert step.value == AbsDecode(u, c');
    } else {
      assert AbsDecode(u, c') == v;
    }
  }

  lemma TrailersFollow(cfg: Config, u: Micro, c: Consume)
    requires c.outcome.Going? && c.dec.state.Trailers? && DecoderScan(c.buf, c.dec)
    requires !u.broken && !u.conn.tunnel && !MicroRun(cfg, AbsDecode(u, c)).broken
    ensures var c' := TrailersStep(Free(cfg), c);
      DecodeOk(cfg, u, c') && MicroRun(cfg, AbsDecode(u, c)) == MicroRun(cfg, AbsDecode(u, c'))
  {
    DoubleResumes(c.buf, c.dec.scanFrom);
    hide MicroRun, SeekDouble, FindDouble, AddBody, PiecesData, CrlfScan, DoubleScan;
    var v := AbsDecode(u, c);
    var step := MicroStep(cfg, v);
    var c' := TrailersStep(Free(cfg), c);
    if step.Some? {
      RunStep(cfg, v, step.value);
      NoScan(c'.buf);
      assert step.value == AbsDecode(u, c');
    } else {
      assert AbsDecode(u, c') == v;
    }
  }

  lemma DataFollows(cfg: Config, u: Micro, c: Consume)
    requires c.outcome.Going? && c.dec.state.Data? && DecoderOk(c.dec) && DecoderScan(c.buf, c.dec)
    requires !u.broken && !u.conn.tunnel
    ensures var c' := DataStep(None, c);
      DecodeOk(cfg, u, c') && MicroRun(cfg, AbsDecode(u, c)) == MicroRun(cfg, AbsDecode(u, c'))
  {
    hide MicroRun, AddBody, CrlfScan, DoubleScan;
    var v := AbsDecode(u, c);
    if c.buf != [] {
      var take := Min(c.dec.state.remaining, |c.buf|);
      CountedRun(cfg, v, take);
      PiecesMore(c.pieces, Piece(c.used, c.buf[..take]));
      AddTwice(u.sum, PiecesData(c.pieces), c.buf[..take]);
      hide PiecesData;
      assert Taken(v, take) == AbsDecode(u, DataStep(None, c));
    }
  }

  lemma CrlfFollows(cfg: Config, u: Micro, c: Consume)
    requires c.outcome.Going? && c.dec.state.DataCrlf? && DecoderScan(c.buf, c.dec)
    requires !u.broken && !u.conn.tunnel && !MicroRun(cfg, AbsDecode(u, c)).broken
    ensures var c' := DataCrlfStep(c);
      DecodeOk(cfg, u, c') && MicroRun(cfg, AbsDecode(u, c)) == MicroRun(cfg, AbsDecode(u, c'))
  {
    hide MicroRun, AddBody, PiecesData, CrlfScan, DoubleScan;
    var v := AbsDecode(u, c);
    var step := MicroStep(cfg, v);
    if step.Some? {
      RunStep(cfg, v, step.value);
      NoScan(c.buf[2..]);
    }
  }

  lemma DecodeStepFollows(cfg: Config, u: Micro, c: Consume)
    requires c.outcome.Going? && DecoderOk(c.dec) && DecoderScan(c.buf, c.dec)
    requires !u.broken && !u.conn.tunnel && !MicroRun(cfg, AbsDecode(u, c)).broken
    ensures var c' := DecodeStep(Free(cfg), None, c);
      DecodeOk(cfg, u, c') && MicroRun(cfg, AbsDecode(u, c)) == MicroRun(cfg, AbsDecode(u, c'))
  {
    hide MicroRun, SizeStep, DataStep, TrailersStep, DataCrlfStep, AbsDecode, DecodeOk, DecoderScan;
    match c.dec.state
    case Size => SizeFollows(cfg, u, c);
    case Data(_) => DataFollows(cfg, u, c);
    case DataCrlf => CrlfFollows(cfg, u, c);
    case Trailers => TrailersFollow(cfg, u, c);
  }

  lemma {:induction false} DecodeFollows(cfg: Config, u: Micro, c: Consume)
    requires DecodeOk(cfg, u, c) && !u.broken && !u.conn.tunnel && !MicroRun(cfg, AbsDecode(u, c)).broken
    ensures var c' := Decode(Free(cfg), None, c);
      DecodeOk(cfg, u, c') && MicroRun(cfg, AbsDecode(u, c)) == MicroRun(cfg, AbsDecode(u, c'))
    decreases |c.buf|, c.outcome.Going?
  {
    hide MicroRun, DecodeStep, AbsDecode, DecoderScan, MicroStep;
    if c.outcome.Going? {
      DecodeStepFollows(cfg, u, c);
      DecodeFollows(cfg, u, DecodeStep(Free(cfg), None, c));
    }
  }

  lemma DecodeStart(cfg: Config, base: seq<Message>, errors: nat, m: Machine)
    requires Sound(m) && m.going && m.state.Chunked?
    ensures AbsDecode(Abs(base, errors, m), Begin(m.state.dec, m.buffer)) == Abs(base, errors, m)
    ensures DecodeOk(cfg, Abs(base, errors, m), Begin(m.state.dec, m.buffer)) && !m.conn.tunnel && DecoderOk(m.state.dec)
  {
    hide Sum, AddBody, CrlfScan, DoubleScan, DecoderScan;
    AddNothing(Sum(base, m.events));
  }

  lemma DecodeEnd(cfg: Config, base: seq<Message>, errors: nat, m: Machine, c: Consume)
    requires Sound(m) && m.going && m.state.Chunked? && m.buffer != []
    requires c == Decode(Free(cfg), None, Begin(m.state.dec, m.buffer))
    requires DecodeOk(cfg, Abs(base, errors, m), c) && !c.outcome.Going?
    ensures Abs(base, errors, ChunkedTurn(Free(cfg), m)) == AbsDecode(Abs(base, errors, m), c)
    ensures Sound(ChunkedTurn(Free(cfg), m)) && (!ChunkedTurn(Free(cfg), m).going ==> c.outcome.Waiting?)
  {
    hide Sum, AddBody, Decode, CrlfScan, DoubleScan, EmitPieces, PiecesData, MicroStep;
    PiecesSum(base, m, m.offset, c.pieces);
    NoScan(c.buf);
    NoLimit(cfg, m.state.seen);
    assert c.buf == m.buffer[c.used..] by {
      W.DecodePieces(Free(cfg), None, m.buffer, Begin(m.state.dec, m.buffer));
    }
  }

  lemma ChunkedFollows(cfg: Config, base: seq<Message>, errors: nat, m: Machine)
    requires Sound(m) && m.going && m.state.Chunked? && !MicroRun(cfg, Abs(base, errors, m)).broken
    ensures BodyOk(m.state) && Follows(cfg, base, errors, m, ChunkedTurn(Free(cfg), m))
  {
    SoundBody(m);
    hide MicroRun, Abs, AbsDecode, Decode, DecodeOk, MicroStep, ScanOk;
    var u := Abs(base, errors, m);
    if m.buffer == [] {
      hide Sound;
      EmptyTurn(cfg, base, errors, m);
    } else {
      DecodeStart(cfg, base, errors, m);
      AbsConn(base, errors, m);
      var c0 := Begin(m.state.dec, m.buffer);
      DecodeFollows(cfg, u, c0);
      var c := Decode(Free(cfg), None, c0);
      DecodeEnd(cfg, base, errors, m, c);
      WaitingStuck(cfg, u, c);
      hide Sound, ChunkedTurn;
    }
  }

  lemma AbsConn(base: seq<Message>, errors: nat, m: Machine)
    ensures Abs(base, errors, m).conn == m.conn && !Abs(base, errors, m).broken
  {
  }

  lemma WaitingStuck(cfg: Config, u: Micro, c: Consume)
    requires DecodeOk(cfg, u, c)
    ensures c.outcome.Waiting? ==> MicroStep(cfg, AbsDecode(u, c)).None?
  {
  }

  lemma EmptyTurn(cfg: Config, base: seq<Message>, errors: nat, m: Machine)
    requires Sound(m) && m.going && m.state.Chunked? && BodyOk(m.state) && m.buffer == []
    ensures Follows(cfg, base, errors, m, ChunkedTurn(Free(cfg), m))
  {
    hide MicroRun, Sum;
    EmptyWaits(cfg, Abs(base, errors, m));
  }

  lemma EmptyWaits(cfg: Config, u: Micro)
    requires u.buf == []
    ensures MicroStep(cfg, u).None?
  {
  }

  lemma TurnFollows(cfg: Config, base: seq<Message>, errors: nat, m: Machine)
    requires Sound(m) && m.going && !MicroRun(cfg, Abs(base, errors, m)).broken
    ensures Follows(cfg, base, errors, m, Turn(Free(cfg), m))
  {
    hide MicroRun, Abs, ScanOk, Follows, HeadersTurn, ChunkedTurn, FixedTurn, UntilCloseTurn;
    match m.state
    case Headers => HeadersFollow(cfg, base, errors, m);
    case Chunked(_, _, _) => ChunkedFollows(cfg, base, errors, m);
    case _ => BodyFollows(cfg, base, errors, m);
  }

  lemma SoundBody(m: Machine)
    requires Sound(m)
    ensures BodyOk(m.state)
  {
  }

  lemma StuckRun(cfg: Config, u: Micro)
    requires MicroStep(cfg, u).None?
    ensures MicroRun(cfg, u) == u
  {
  }

  lemma {:induction false} LoopFollows(cfg: Config, base: seq<Message>, errors: nat, m: Machine)
    requires Sound(m) && !MicroRun(cfg, Abs(base, errors, m)).broken
    requires !m.going ==> MicroStep(cfg, Abs(base, errors, m)).None?
    ensures var m' := Loop(Free(cfg), m);
      Sound(m') && MicroRun(cfg, Abs(base, errors, m)) == Abs(base, errors, m') && MicroStep(cfg, Abs(base, errors, m')).None?
    decreases |m.buffer|, Rank(m.state), m.going
  {
    SoundBody(m);
    hide MicroRun, MicroStep, Abs, Sound, Turn;
    if m.going {
      TurnFollows(cfg, base, errors, m);
      TurnProgress(Free(cfg), m);
      LoopFollows(cfg, base, errors, Turn(Free(cfg), m));
    } else {
      StuckRun(cfg, Abs(base, errors, m));
    }
  }

  // ---------- Whole streams ----------

  /** One direction from its start without holes: every chunk adjoins the one before,
      and the connection is as the feed before left it. */
  ghost predicate OneStream(cfg: Config, feeds: seq<W.Feed>) {
    if feeds == [] then true
    else
      var before, last := feeds[..|feeds| - 1], feeds[|feeds| - 1];
      && OneStream(cfg, before)
      && last.chunk.offset == (if before == [] then 0 else before[|before| - 1].chunk.End())
      && (before != [] ==> last.conn == ConnAfter(cfg, before))
  }

  /** The connection after the feeds; a tunnel is left as it is. */
  function ConnAfter(cfg: Config, feeds: seq<W.Feed>): Conn
    requires feeds != []
  {
    var last := feeds[|feeds| - 1];
    if last.conn.tunnel then last.conn else W.Reported(cfg, feeds).conn
  }

  function Joined(feeds: seq<W.Feed>): seq<Byte> {
    if feeds == [] then [] else Joined(feeds[..|feeds| - 1]) + feeds[|feeds| - 1].chunk.data
  }

  /** The whole stream at once through the simple machine. */
  function Reference(cfg: Config, conn: Conn, stream: seq<Byte>): Micro {
    MicroRun(cfg, Micro(AtHeaders, stream, 0, [], 0, conn, false))
  }

  /** Parser, connection, messages and errors are what the simple machine computed. */
  ghost predicate Agrees(cfg: Config, feeds: seq<W.Feed>, u: Micro)
    requires feeds != []
  {
    var p := W.ParserAfter(Free(cfg), feeds);
    && u.sum == Messages(Free(cfg), feeds)
    && u.errors == ErrorsAfter(Free(cfg), feeds)
    && u.conn == ConnAfter(Free(cfg), feeds)
    && !u.broken
    && (!u.conn.tunnel ==> u.mode == ModeOf(p.state) && u.buf == p.buffer && u.offset == p.offset)
  }

  ghost predicate ParserSound(p: Parser) {
    && BodyOk(p.state) && p.synced && !p.state.SkipFixed?
    && match p.state
       case Headers => DoubleScan(p.buffer, p.scanFrom)
       case Chunked(dec, _, _) => p.scanFrom == 0 && DecoderScan(p.buffer, dec)
       case _ => p.scanFrom == 0
  }

  lemma StartSound(p: Parser, conn: Conn, c: Chunk)
    requires ParserSound(p) && !conn.tunnel && (p.next == Some(c.offset) || (p == NewParser() && c.offset == 0))
    ensures Sound(Started(p, conn, c))
    ensures var m := Started(p, conn, c);
      m.state == p.state && m.buffer == p.buffer + c.data && m.events == [] && m.errors == 0 && m.conn == conn && m.going
      && m.offset == (if p.next.None? then 0 else p.offset)
  {
    hide DoubleScan, CrlfScan;
    match p.state
    case Headers => ScansExtend(p.buffer, p.scanFrom, c.data);
    case Chunked(dec, _, _) => ScansExtend(p.buffer, dec.scanFrom, c.data);
    case _ =>
  }

  lemma RestSound(m: Machine, c: Chunk)
    requires Sound(m)
    ensures ParserSound(Rest(m, c))
  {
    hide DoubleScan, DecoderScan;
  }

  /** One feed of a stream that goes on. */
  lemma FeedFollows(cfg: Config, p: Parser, conn: Conn, c: Chunk, base: seq<Message>, errors: nat)
    requires ParserSound(p) && !conn.tunnel && (p.next == Some(c.offset) || (p == NewParser() && c.offset == 0))
    requires var u := Micro(ModeOf(p.state), p.buffer + c.data, if p.next.None? then 0 else p.offset, base, errors, conn, false);
      !MicroRun(cfg, u).broken
    ensures var m := Fed(Free(cfg), p, conn, c);
      var u := Micro(ModeOf(p.state), p.buffer + c.data, if p.next.None? then 0 else p.offset, base, errors, conn, false);
      && MicroRun(cfg, u) == Micro(ModeOf(m.state), m.buffer, m.offset, Sum(base, m.events), errors + m.errors, m.conn, false)
      && ParserSound(Rest(m, c))
  {
    StartSound(p, conn, c);
    hide MicroRun, Loop, Sound, MicroStep, ParserSound, Started;
    var m0 := Started(p, conn, c);
    LoopFollows(cfg, base, errors, m0);
    RestSound(Loop(Free(cfg), m0), c);
  }

  lemma TunnelRuns(cfg: Config, u: Micro)
    requires u.conn.tunnel
    ensures MicroRun(cfg, u) == u
  {
  }

  /** What the simple machine is before the last feed, with its bytes added. */
  function BeforeLast(cfg: Config, feeds: seq<W.Feed>): Micro
    requires feeds != []
  {
    var before, last := feeds[..|feeds| - 1], feeds[|feeds| - 1];
    var p := W.ParserAfter(Free(cfg), before);
    Micro(ModeOf(p.state), p.buffer + last.chunk.data, if p.next.None? then 0 else p.offset,
          Messages(Free(cfg), before), ErrorsAfter(Free(cfg), before), last.conn, false)
  }

  lemma LastFeed(cfg: Config, feeds: seq<W.Feed>)
    requires feeds != [] && !feeds[|feeds| - 1].conn.tunnel
    requires var p, last := W.ParserAfter(Free(cfg), feeds[..|feeds| - 1]), feeds[|feeds| - 1];
      ParserSound(p) && (p.next == Some(last.chunk.offset) || (p == NewParser() && last.chunk.offset == 0))
    requires !MicroRun(cfg, BeforeLast(cfg, feeds)).broken
    ensures Agrees(cfg, feeds, MicroRun(cfg, BeforeLast(cfg, feeds)))
    ensures ParserSound(W.ParserAfter(Free(cfg), feeds))
    ensures W.ParserAfter(Free(cfg), feeds).next == Some(feeds[|feeds| - 1].chunk.End())
  {
    hide MicroRun, Fed, ParserSound, Sum, ModeOf;
    var before, last := feeds[..|feeds| - 1], feeds[|feeds| - 1];
    var p := W.ParserAfter(Free(cfg), before);
    FeedFollows(cfg, p, last.conn, last.chunk, Messages(Free(cfg), before), ErrorsAfter(Free(cfg), before));
    SumConcat([], W.EventsAfter(Free(cfg), before), Fed(Free(cfg), p, last.conn, last.chunk).events);
  }

  lemma FirstFeed(cfg: Config, feeds: seq<W.Feed>)
    requires |feeds| == 1 && feeds[0].chunk.offset == 0 && !feeds[0].conn.tunnel
    requires !Reference(cfg, feeds[0].conn, Joined(feeds)).broken
    ensures BeforeLast(cfg, feeds) == Micro(AtHeaders, Joined(feeds), 0, [], 0, feeds[0].conn, false)
    ensures W.ParserAfter(Free(cfg), feeds[..0]) == NewParser() && ParserSound(NewParser())
  {
    hide MicroRun, Fed;
    assert feeds[..0] == [];
    assert Joined([]) == [];
  }

  /** Once a tunnel is open, nothing changes any more. */
  lemma TunnelFeed(cfg: Config, feeds: seq<W.Feed>, u: Micro)
    requires |feeds| > 1 && feeds[|feeds| - 1].conn == u.conn && u.conn.tunnel
    requires Agrees(cfg, feeds[..|feeds| - 1], u)
    ensures Agrees(cfg, feeds, u)
  {
    hide Fed, Sum;
    assert W.EventsAfter(Free(cfg), feeds[..|feeds| - 1]) + [] == W.EventsAfter(Free(cfg), feeds[..|feeds| - 1]);
  }

  lemma NextStart(cfg: Config, feeds: seq<W.Feed>, u: Micro)
    requires |feeds| > 1 && feeds[|feeds| - 1].conn == u.conn && !u.conn.tunnel
    requires Agrees(cfg, feeds[..|feeds| - 1], u) && W.ParserAfter(Free(cfg), feeds[..|feeds| - 1]).next.Some?
    ensures BeforeLast(cfg, feeds) == Extend(u, feeds[|feeds| - 1].chunk.data)
  {
    hide Fed, Sum;
  }

  lemma AgreesConn(cfg: Config, feeds: seq<W.Feed>, u: Micro)
    requires feeds != [] && Agrees(cfg, feeds, u)
    ensures u.conn == ConnAfter(Free(cfg), feeds)
    ensures !u.conn.tunnel ==> !feeds[|feeds| - 1].conn.tunnel
  {
    hide Fed, Sum;
  }

  /** The headline: for every cut of the stream the parser agrees with the simple
      machine on the whole of it. */
  lemma {:induction false} SegmentsAgree(cfg: Config, feeds: seq<W.Feed>)
    requires OneStream(Free(cfg), feeds) && feeds != [] && !feeds[0].conn.tunnel
    requires !Reference(cfg, feeds[0].conn, Joined(feeds)).broken
    ensures Agrees(cfg, feeds, Reference(cfg, feeds[0].conn, Joined(feeds)))
    ensures !ConnAfter(Free(cfg), feeds).tunnel ==> ParserSound(W.ParserAfter(Free(cfg), feeds))
    ensures !feeds[|feeds| - 1].conn.tunnel ==> W.ParserAfter(Free(cfg), feeds).next == Some(feeds[|feeds| - 1].chunk.End())
  {
    hide MicroRun, Fed, Agrees, ParserSound, BeforeLast;
    var before, last := feeds[..|feeds| - 1], feeds[|feeds| - 1];
    if before == [] {
      FirstFeed(cfg, feeds);
      LastFeed(cfg, feeds);
    } else {
      assert before[0] == feeds[0];
      var got := Micro(AtHeaders, Joined(before), 0, [], 0, feeds[0].conn, false);
      assert Extend(got, last.chunk.data) == Micro(AtHeaders, Joined(feeds), 0, [], 0, feeds[0].conn, false);
      RunInPieces(cfg, got, last.chunk.data);
      SegmentsAgree(cfg, before);
      var u := Reference(cfg, feeds[0].conn, Joined(before));
      AgreesConn(cfg, before, u);
      if u.conn.tunnel {
        TunnelFeed(cfg, feeds, u);
        TunnelRuns(cfg, u);
      } else {
        NextStart(cfg, feeds, u);
        LastFeed(cfg, feeds);
      }
    }
  }

  /** Two cuts of one stream, with any body cap: the same messages, the same errors, the
      same connection and, outside a tunnel, the same place in the stream. */
  lemma SameForEveryCut(cfg: Config, feeds: seq<W.Feed>, others: seq<W.Feed>)
    requires cfg.maxBody.Some? && feeds != [] && others != []
    requires OneStream(cfg, feeds) && OneStream(cfg, others)
    requires Joined(feeds) == Joined(others) && feeds[0].conn == others[0].conn && !feeds[0].conn.tunnel
    requires !Reference(cfg, feeds[0].conn, Joined(feeds)).broken
    ensures Messages(cfg, feeds) == Messages(cfg, others)
    ensures ErrorsAfter(cfg, feeds) == ErrorsAfter(cfg, others)
    ensures ConnAfter(cfg, feeds) == ConnAfter(cfg, others)
    ensures !ConnAfter(cfg, feeds).tunnel ==>
      var p, q := W.ParserAfter(cfg, feeds), W.ParserAfter(cfg, others);
      p.buffer == q.buffer && p.offset == q.offset && ModeOf(p.state) == ModeOf(q.state)
  {
    StreamFree(cfg, feeds);
    StreamFree(cfg, others);
    ConnFree(cfg, feeds);
    ConnFree(cfg, others);
    SegmentsAgree(cfg, feeds);
    SegmentsAgree(cfg, others);
    CapOnlyTruncates(cfg, feeds);
    CapOnlyTruncates(cfg, others);
    CapModes(cfg, feeds);
    CapModes(cfg, others);
    hide MicroRun, Fed, Sum, ErrorsAfter, W.ParserAfter, ParsersSame, Messages, ConnAfter, ParserSound;
    CappedUnique(cfg.maxBody.value, Messages(cfg, feeds), Messages(cfg, others), Messages(Free(cfg), feeds));
  }

  lemma ConnFree(cfg: Config, feeds: seq<W.Feed>)
    requires cfg.maxBody.Some? && feeds != []
    ensures ConnAfter(cfg, feeds) == ConnAfter(Free(cfg), feeds)
  {
    CapOnlyTruncates(cfg, feeds);
    hide W.Reported, W.ParserAfter, Messages, Received, Capped, ErrorsAfter, ParsersSame;
  }

  lemma {:induction false} StreamFree(cfg: Config, feeds: seq<W.Feed>)
    requires cfg.maxBody.Some? && OneStream(cfg, feeds)
    ensures OneStream(Free(cfg), feeds)
  {
    hide ConnAfter;
    if feeds != [] {
      var before := feeds[..|feeds| - 1];
      StreamFree(cfg, before);
      if before != [] {
        ConnFree(cfg, before);
      }
    }
  }

  lemma CappedUnique(cap: nat, a: seq<Message>, b: seq<Message>, whole: seq<Message>)
    requires Capped(cap, a, whole) && Capped(cap, b, whole)
    ensures a == b
  {
  }

  lemma CapModes(cfg: Config, feeds: seq<W.Feed>)
    requires cfg.maxBody.Some?
    ensures var p, q := W.ParserAfter(cfg, feeds), W.ParserAfter(Free(cfg), feeds);
      p.buffer == q.buffer && p.offset == q.offset && ModeOf(p.state) == ModeOf(q.state)
  {
    CapOnlyTruncates(cfg, feeds);
    hide W.ParserAfter, Messages, Received, Capped, ErrorsAfter;
  }
}
