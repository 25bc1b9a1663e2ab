/** The simple form of the framing: a machine that looks at the whole unread stream,
    searches delimiters from its start and takes body bytes one at a time. It has no
    resumable scans and no notion of how the stream was cut. */
module HttpReference {
  import opened Basics
  import opened HttpFraming
  import opened HttpCap

  datatype Mode = AtHeaders | Counted(remaining: nat) | AtSize | InData(remaining: nat) | AtCrlf | AtTrailers | ToEnd

  /** `broken` is the end of the line: an error, or a line that does not fit its limit. */
  datatype Micro = Micro(mode: Mode, buf: seq<Byte>, offset: nat, sum: seq<Message>, errors: nat, conn: Conn, broken: bool)

  function ModeOf(b: Body): Mode {
    match b
    case Headers => AtHeaders
    case Fixed(remaining) => Counted(remaining)
    case SkipFixed(remaining, _) => Counted(remaining)
    case Chunked(dec, _, _) => DecoderMode(dec.state)
    case UntilClose(_, _) => ToEnd
  }

  function DecoderMode(s: ChunkState): Mode {
    match s
    case Size => AtSize
    case Data(remaining) => InData(remaining)
    case DataCrlf => AtCrlf
    case Trailers => AtTrailers
  }

  function Break(u: Micro): Micro {
    u.(broken := true)
  }

  function Skip(u: Micro, n: nat, mode: Mode): Micro
    requires n <= |u.buf|
  {
    u.(mode := mode, buf := u.buf[n..], offset := u.offset + n)
  }

  function TakeByte(u: Micro, mode: Mode): Micro
    requires u.buf != []
  {
    Skip(u, 1, mode).(sum := AddBody(u.sum, [u.buf[0]]))
  }

  function AcceptHeader(cfg: Config, u: Micro, n: nat, h: Parsed): Micro
    requires n <= |u.buf|
  {
    var u1 := Skip(u, n, ModeOf(BodyAfter(Free(cfg), u.conn, h)))
      .(sum := u.sum + [Message(u.offset, u.buf[..n], h.request, [])],
        errors := u.errors + HeaderErrors(u.conn, h), conn := Paired(u.conn, h));
    if OpensTunnel(u.conn, h) then u1.(mode := AtHeaders, buf := [], conn := u1.conn.(tunnel := true))
    else if Unframed(u.conn, h) then Break(u1)
    else u1
  }

  function HeaderStep(cfg: Config, u: Micro): Option<Micro> {
    var end := SeekDouble(u.buf, 0);
    if end.None? then if |u.buf| > cfg.maxHeader then Some(Break(u)) else None
    else if end.value + 3 > cfg.maxHeader then Some(Break(u))
    else
      var parsed := cfg.parseHeader(u.buf[..end.value + 4]);
      Some(if parsed.None? then Break(u) else AcceptHeader(cfg, u, end.value + 4, parsed.value))
  }

  function SizeLine(cfg: Config, u: Micro): Option<Micro> {
    var p := SeekCrlf(u.buf, 0);
    if p.None? then if |u.buf| > cfg.maxHeader then Some(Break(u)) else None
    else if p.value + 1 > cfg.maxHeader then Some(Break(u))
    else
      var size := cfg.chunkSize(u.buf[..p.value]);
      Some(if size.None? then Break(u)
           else Skip(u, p.value + 2, if size.value == 0 then AtTrailers else InData(size.value)))
  }

  function TrailerStep(cfg: Config, u: Micro): Option<Micro> {
    if CrlfAt(u.buf, 0) then Some(if cfg.maxHeader == 0 then Break(u) else Skip(u, 2, AtHeaders))
    else
      var p := SeekDouble(u.buf, 0);
      if p.None? then if |u.buf| > cfg.maxHeader then Some(Break(u)) else None
      else if p.value + 3 > cfg.maxHeader then Some(Break(u))
      else Some(Skip(u, p.value + 4, AtHeaders))
  }

  /** One step; None where more input is needed, or none is wanted any more. */
  function MicroStep(cfg: Config, u: Micro): Option<Micro> {
    if u.broken || u.conn.tunnel then None
    else
      match u.mode
      case AtHeaders => HeaderStep(cfg, u)
      case Counted(r) => if u.buf == [] then None else Some(TakeByte(u, if r <= 1 then AtHeaders else Counted(r - 1)))
      case AtSize => SizeLine(cfg, u)
      case InData(r) => if u.buf == [] then None else Some(TakeByte(u, if r <= 1 then AtCrlf else InData(r - 1)))
      case AtCrlf => if |u.buf| < 2 then None else Some(if CrlfAt(u.buf, 0) then Skip(u, 2, AtSize) else Break(u))
      case AtTrailers => TrailerStep(cfg, u)
      case ToEnd => if u.buf == [] then None else Some(TakeByte(u, ToEnd))
  }

  lemma MicroShrinks(cfg: Config, u: Micro)
    requires MicroStep(cfg, u).Some?
    ensures var u' := MicroStep(cfg, u).value;
      |u'.buf| < |u.buf| || (u'.broken && !u.broken && |u'.buf| <= |u.buf|)
  {
    hide SeekDouble, SeekCrlf, AddBody, OpensTunnel, Unframed, BodyAfter, Paired, HeaderErrors;
  }

  function MicroRun(cfg: Config, u: Micro): Micro
    decreases |u.buf|, !u.broken
  {
    var next := MicroStep(cfg, u);
    if next.None? then u
    else
      MicroShrinks(cfg, u);
      MicroRun(cfg, next.value)
  }

  /** More of the stream arrives; a tunnel ignores it. */
  function Extend(u: Micro, more: seq<Byte>): Micro {
    if u.conn.tunnel then u else u.(buf := u.buf + more)
  }

  // ---------- The reference does not depend on how the stream was cut ----------

  lemma DoubleStays(buf: seq<Byte>, more: seq<Byte>)
    ensures SeekDouble(buf, 0).Some? ==> SeekDouble(buf + more, 0) == SeekDouble(buf, 0)
    ensures SeekDouble(buf, 0).None? && SeekDouble(buf + more, 0).Some? ==> SeekDouble(buf + more, 0).value + 4 > |buf|
  {
    var whole := buf + more;
    assert forall i: nat | i + 4 <= |buf| :: DoubleAt(whole, i) <==> DoubleAt(buf, i);
  }

  lemma CrlfStays(buf: seq<Byte>, more: seq<Byte>)
    ensures SeekCrlf(buf, 0).Some? ==> SeekCrlf(buf + more, 0) == SeekCrlf(buf, 0)
    ensures SeekCrlf(buf, 0).None? && SeekCrlf(buf + more, 0).Some? ==> SeekCrlf(buf + more, 0).value + 2 > |buf|
    ensures |buf| >= 2 ==> (CrlfAt(buf, 0) <==> CrlfAt(buf + more, 0))
  {
    var whole := buf + more;
    assert forall i: nat | i + 2 <= |buf| :: CrlfAt(whole, i) <==> CrlfAt(buf, i);
  }

  lemma SkipStays(u: Micro, n: nat, mode: Mode, more: seq<Byte>)
    requires n <= |u.buf| && !u.conn.tunnel
    ensures n <= |u.buf + more| && Skip(Extend(u, more), n, mode) == Extend(Skip(u, n, mode), more)
    ensures (u.buf + more)[..n] == u.buf[..n]
  {
    assert (u.buf + more)[n..] == u.buf[n..] + more;
  }

  lemma TakeStays(u: Micro, mode: Mode, more: seq<Byte>)
    requires u.buf != [] && !u.conn.tunnel
    ensures TakeByte(Extend(u, more), mode) == Extend(TakeByte(u, mode), more)
  {
    SkipStays(u, 1, mode, more);
    hide AddBody;
  }

  lemma AcceptStays(cfg: Config, u: Micro, n: nat, h: Parsed, more: seq<Byte>)
    requires n <= |u.buf| && !u.conn.tunnel && !AcceptHeader(cfg, u, n, h).broken
    ensures n <= |u.buf + more| && AcceptHeader(cfg, Extend(u, more), n, h) == Extend(AcceptHeader(cfg, u, n, h), more)
  {
    SkipStays(u, n, ModeOf(BodyAfter(Free(cfg), u.conn, h)), more);
    hide OpensTunnel, Unframed, BodyAfter, HeaderErrors;
  }

  lemma AcceptBreaks(cfg: Config, u: Micro, n: nat, h: Parsed, more: seq<Byte>)
    requires n <= |u.buf| && !u.conn.tunnel && AcceptHeader(cfg, u, n, h).broken && !u.broken
    ensures n <= |u.buf + more| && AcceptHeader(cfg, Extend(u, more), n, h).broken
  {
    hide BodyAfter, HeaderErrors, Paired;
  }

  /** A step that could be taken is taken the same way when more has arrived. */
  ghost predicate Stays(cfg: Config, u: Micro, more: seq<Byte>) {
    var next, later := MicroStep(cfg, u), MicroStep(cfg, Extend(u, more));
    next.Some? ==> later.Some? && if next.value.broken then later.value.broken else later.value == Extend(next.value, more)
  }

  lemma HeaderStays(cfg: Config, u: Micro, more: seq<Byte>)
    requires u.mode.AtHeaders? && !u.broken && !u.conn.tunnel
    ensures Stays(cfg, u, more)
  {
    DoubleStays(u.buf, more);
    hide SeekDouble, AcceptHeader;
    var end := SeekDouble(u.buf, 0);
    if end.Some? {
      var n := end.value + 4;
      assert (u.buf + more)[..n] == u.buf[..n];
      var parsed := cfg.parseHeader(u.buf[..n]);
      if parsed.Some? {
        if AcceptHeader(cfg, u, n, parsed.value).broken {
          AcceptBreaks(cfg, u, n, parsed.value, more);
        } else {
          AcceptStays(cfg, u, n, parsed.value, more);
        }
      }
    }
  }

  lemma SizeStays(cfg: Config, u: Micro, more: seq<Byte>)
    requires u.mode.AtSize? && !u.broken && !u.conn.tunnel
    ensures Stays(cfg, u, more)
  {
    CrlfStays(u.buf, more);
    hide SeekCrlf, Skip;
    var p := SeekCrlf(u.buf, 0);
    if p.Some? {
      assert (u.buf + more)[..p.value] == u.buf[..p.value];
      SkipStays(u, p.value + 2, AtTrailers, more);
      var size := cfg.chunkSize(u.buf[..p.value]);
      if size.Some? {
        SkipStays(u, p.value + 2, InData(size.value), more);
      }
      SkipBroken(u, p.value + 2);
    }
  }

  lemma SkipBroken(u: Micro, n: nat)
    requires n <= |u.buf|
    ensures forall mode :: Skip(u, n, mode).broken == u.broken
  {
  }

  lemma TrailersStay(cfg: Config, u: Micro, more: seq<Byte>)
    requires u.mode.AtTrailers? && !u.broken && !u.conn.tunnel
    ensures Stays(cfg, u, more)
  {
    CrlfStays(u.buf, more);
    DoubleStays(u.buf, more);
    hide SeekDouble, Skip;
    if CrlfAt(u.buf, 0) {
      SkipStays(u, 2, AtHeaders, more);
      SkipBroken(u, 2);
    } else {
      var p := SeekDouble(u.buf, 0);
      if p.Some? {
        SkipStays(u, p.value + 4, AtHeaders, more);
        SkipBroken(u, p.value + 4);
      }
    }
  }

  lemma StepStays(cfg: Config, u: Micro, more: seq<Byte>)
    ensures Stays(cfg, u, more)
  {
    if !u.broken && !u.conn.tunnel {
      match u.mode
      case AtHeaders => HeaderStays(cfg, u, more);
      case AtSize => SizeStays(cfg, u, more);
      case AtTrailers => TrailersStay(cfg, u, more);
      case AtCrlf =>
        CrlfStays(u.buf, more);
        if |u.buf| >= 2 { SkipStays(u, 2, AtSize, more); }
      case Counted(r) => if u.buf != [] { TakeStays(u, if r <= 1 then AtHeaders else Counted(r - 1), more); }
      case InData(r) => if u.buf != [] { TakeStays(u, if r <= 1 then AtCrlf else InData(r - 1), more); }
      case ToEnd => if u.buf != [] { TakeStays(u, ToEnd, more); }
    }
  }

  lemma BrokenStays(cfg: Config, u: Micro)
    requires u.broken
    ensures MicroRun(cfg, u) == u
  {
  }

  /** Running on what has arrived and then on the rest is running on all of it. */
  lemma {:induction false} RunInPieces(cfg: Config, u: Micro, more: seq<Byte>)
    requires !MicroRun(cfg, Extend(u, more)).broken
    ensures !MicroRun(cfg, u).broken
    ensures MicroRun(cfg, Extend(MicroRun(cfg, u), more)) == MicroRun(cfg, Extend(u, more))
    decreases |u.buf|, !u.broken
  {
    hide MicroStep;
    var next := MicroStep(cfg, u);
    StepStays(cfg, u, more);
    BrokenEnds(cfg, Extend(u, more));
    if next.Some? {
      MicroShrinks(cfg, u);
      var later := MicroStep(cfg, Extend(u, more)).value;
      BrokenEnds(cfg, later);
      RunInPieces(cfg, next.value, more);
    }
  }

  lemma BrokenEnds(cfg: Config, u: Micro)
    ensures u.broken ==> MicroRun(cfg, u).broken
  {
    if u.broken { BrokenStays(cfg, u); }
  }
}
