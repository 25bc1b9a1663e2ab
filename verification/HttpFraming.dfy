/** Incremental HTTP/1.x framing (RFC 9112, sections 6.3 and 7.1) as a machine that
    turns once per pass of the parser's loop. Header parsing and chunk-size parsing are
    any functions of the bytes. */
module HttpFraming {
  import opened Basics

  const CR: Byte := 13
  const LF: Byte := 10
  const RESYNC_SUFFIX: nat := 48
  const PENDING_LIMIT: nat := 4096

  // ---------- Delimiters ----------

  predicate CrlfAt(v: seq<Byte>, i: nat) {
    i + 2 <= |v| && v[i] == CR && v[i + 1] == LF
  }

  predicate DoubleAt(v: seq<Byte>, i: nat) {
    i + 4 <= |v| && CrlfAt(v, i) && CrlfAt(v, i + 2)
  }

  function SeekCrlf(v: seq<Byte>, from: nat): (p: Option<nat>)
    ensures p.Some? ==> from <= p.value && CrlfAt(v, p.value)
    ensures forall i: nat | from <= i && CrlfAt(v, i) :: p.Some? && p.value <= i
    decreases |v| - from
  {
    if from + 2 > |v| then None else if CrlfAt(v, from) then Some(from) else SeekCrlf(v, from + 1)
  }

  function SeekDouble(v: seq<Byte>, from: nat): (p: Option<nat>)
    ensures p.Some? ==> from <= p.value && DoubleAt(v, p.value)
    ensures forall i: nat | from <= i && DoubleAt(v, i) :: p.Some? && p.value <= i
    decreases |v| - from
  {
    if from + 4 > |v| then None else if DoubleAt(v, from) then Some(from) else SeekDouble(v, from + 1)
  }

  function FindCrlf(v: seq<Byte>, from: nat): (p: Option<nat>)
    ensures p.Some? ==> CrlfAt(v, p.value)
  {
    if |v| < 2 then None else SeekCrlf(v, Min(from, |v| - 1))
  }

  function FindDouble(v: seq<Byte>, from: nat): (p: Option<nat>)
    ensures p.Some? ==> DoubleAt(v, p.value)
  {
    if |v| < 4 then None else SeekDouble(v, Min(from, |v| - 3))
  }

  function Less(a: nat, b: nat): nat {
    if a <= b then 0 else a - b
  }

  // ---------- The chunked decoder ----------

  datatype ChunkState = Size | Data(remaining: nat) | DataCrlf | Trailers

  datatype Decoder = Decoder(state: ChunkState, scanFrom: nat)

  datatype Piece = Piece(rel: nat, data: seq<Byte>)

  datatype Outcome = Going | Waiting | Finished | Failed

  /** One call of the decoder under way: `used` bytes are consumed, `body` of them data. */
  datatype Consume = Consume(dec: Decoder, buf: seq<Byte>, used: nat, pieces: seq<Piece>, collected: nat,
                             body: nat, outcome: Outcome)

  datatype Kind = OtherKind | Head | Connect

  datatype Parsed = Parsed(request: bool, kind: Kind, status: Option<nat>, contentLength: Option<nat>,
                           transferEncoding: bool, finalChunked: bool, ambiguous: bool)

  /** `maxBody` None stands for a parser that captures every body byte. */
  datatype Config = Config(maxHeader: nat, maxBody: Option<nat>,
                           parseHeader: seq<Byte> -> Option<Parsed>, chunkSize: seq<Byte> -> Option<nat>)

  /** How much of `take` bytes may still be captured. */
  function Room(limit: Option<nat>, used: nat, take: nat): (n: nat)
    ensures n <= take
  {
    if limit.None? then take else Min(take, Less(limit.value, used))
  }

  function SizeStep(cfg: Config, c: Consume): Consume {
    var p := FindCrlf(c.buf, c.dec.scanFrom);
    if p.None? then
      if |c.buf| > cfg.maxHeader then c.(outcome := Failed)
      else c.(dec := c.dec.(scanFrom := Less(|c.buf|, 1)), outcome := Waiting)
    else
      var size := cfg.chunkSize(c.buf[..p.value]);
      var rest := c.(buf := c.buf[p.value + 2..], used := c.used + p.value + 2);
      if size.None? then rest.(dec := Decoder(Size, 0), outcome := Failed)
      else rest.(dec := Decoder(if size.value == 0 then Trailers else Data(size.value), 0))
  }

  function DataStep(limit: Option<nat>, c: Consume): Consume
    requires c.dec.state.Data?
  {
    if c.buf == [] then c.(outcome := Waiting)
    else
      var remaining := c.dec.state.remaining;
      var take := Min(remaining, |c.buf|);
      var collect := Room(limit, c.collected, take);
      c.(dec := c.dec.(state := if remaining == take then DataCrlf else Data(remaining - take)),
         buf := c.buf[take..], used := c.used + take,
         pieces := if collect != 0 then c.pieces + [Piece(c.used, c.buf[..collect])] else c.pieces,
         collected := c.collected + collect, body := c.body + take,
         outcome := if remaining == take then Going else Waiting)
  }

  function DataCrlfStep(c: Consume): Consume {
    if |c.buf| < 2 then c.(outcome := Waiting)
    else if !CrlfAt(c.buf, 0) then c.(outcome := Failed)
    else c.(buf := c.buf[2..], used := c.used + 2, dec := c.dec.(state := Size))
  }

  function TrailersStep(cfg: Config, c: Consume): Consume {
    if CrlfAt(c.buf, 0) then
      c.(buf := c.buf[2..], used := c.used + 2, dec := Decoder(Size, 0), outcome := Finished)
    else
      var p := FindDouble(c.buf, c.dec.scanFrom);
      if p.None? then
        if |c.buf| > cfg.maxHeader then c.(outcome := Failed)
        else c.(dec := c.dec.(scanFrom := Less(|c.buf|, 3)), outcome := Waiting)
      else
        c.(buf := c.buf[p.value + 4..], used := c.used + p.value + 4, dec := Decoder(Size, 0), outcome := Finished)
  }

  /** A data state always has something left to take. */
  predicate DecoderOk(d: Decoder) {
    d.state.Data? ==> d.state.remaining > 0
  }

  function DecodeStep(cfg: Config, limit: Option<nat>, c: Consume): (c': Consume)
    requires c.outcome.Going? && DecoderOk(c.dec)
    ensures DecoderOk(c'.dec)
    ensures c'.outcome.Going? ==> |c'.buf| < |c.buf|
    ensures |c'.buf| <= |c.buf| && c'.used - c.used == |c.buf| - |c'.buf|
  {
    match c.dec.state
    case Size => SizeStep(cfg, c)
    case Data(_) => DataStep(limit, c)
    case DataCrlf => DataCrlfStep(c)
    case Trailers => TrailersStep(cfg, c)
  }

  function Decode(cfg: Config, limit: Option<nat>, c: Consume): (c': Consume)
    requires DecoderOk(c.dec)
    ensures DecoderOk(c'.dec) && !c'.outcome.Going?
    ensures |c'.buf| <= |c.buf| && c'.used - c.used == |c.buf| - |c'.buf|
    decreases |c.buf|, c.outcome.Going?
  {
    if c.outcome.Going? then Decode(cfg, limit, DecodeStep(cfg, limit, c)) else c
  }

  function Begin(dec: Decoder, buf: seq<Byte>): Consume {
    Consume(dec, buf, 0, [], 0, 0, Going)
  }

  // ---------- Resynchronisation ----------

  predicate StartsWith(v: seq<Byte>, w: seq<Byte>) {
    |w| <= |v| && v[..|w|] == w
  }

  const HTTP_SLASH: seq<Byte> := [72, 84, 84, 80, 47]
  const CONNECT: seq<Byte> := [67, 79, 78, 78, 69, 67, 84]
  const HTTP_SCHEME: seq<Byte> := [104, 116, 116, 112, 58, 47, 47]
  const HTTPS_SCHEME: seq<Byte> := [104, 116, 116, 112, 115, 58, 47, 47]

  function FirstSpace(v: seq<Byte>, from: nat): (p: Option<nat>)
    ensures p.Some? ==> from <= p.value < |v| && p.value < 17
    decreases 17 - from
  {
    if from >= 17 || from >= |v| then None else if v[from] == 32 then Some(from) else FirstSpace(v, from + 1)
  }

  predicate IsWhitespace(b: Byte) {
    b == 32 || b == 9 || b == 10 || b == 12 || b == 13
  }

  predicate LooksLikeStart(v: seq<Byte>) {
    StartsWith(v, HTTP_SLASH)
    || (var space := FirstSpace(v, 0);
        space.Some? && space.value >= 1
        && (forall i | 0 <= i < space.value :: 65 <= v[i] <= 90 || v[i] == 45)
        && space.value + 1 < |v|
        && (var rest := v[space.value + 1..];
            if v[..space.value] == CONNECT then !IsWhitespace(rest[0])
            else StartsWith(rest, [47]) || StartsWith(rest, [42])
                 || StartsWith(rest, HTTP_SCHEME) || StartsWith(rest, HTTPS_SCHEME)))
  }

  function StartAfterLine(v: seq<Byte>, from: nat): (p: Option<nat>)
    ensures p.Some? ==> p.value < |v| && LooksLikeStart(v[p.value..])
    decreases |v| - from
  {
    if from >= |v| then None
    else if v[from] == LF && from + 1 < |v| && LooksLikeStart(v[from + 1..]) then Some(from + 1)
    else StartAfterLine(v, from + 1)
  }

  function FindStart(v: seq<Byte>): (p: Option<nat>)
    ensures p.Some? ==> p.value <= |v|
  {
    if LooksLikeStart(v) then Some(0) else StartAfterLine(v, 0)
  }

  /** A place where a message may start: the beginning, or right after a line feed. */
  predicate StartsAt(v: seq<Byte>, p: nat) {
    p <= |v| && LooksLikeStart(v[p..]) && (p == 0 || (p < |v| && v[p - 1] == LF))
  }

  lemma {:induction false} StartAfterLineFirst(v: seq<Byte>, from: nat)
    ensures var p := StartAfterLine(v, from);
      && (p.Some? ==> from < p.value && StartsAt(v, p.value))
      && (forall q: nat | from < q && StartsAt(v, q) :: p.Some? && p.value <= q)
    decreases |v| - from
  {
    hide LooksLikeStart;
    if from < |v| {
      StartAfterLineFirst(v, from + 1);
    }
  }

  /** Resynchronisation finds the first plausible start at a line boundary, if any. */
  lemma FindStartFirst(v: seq<Byte>)
    ensures var p := FindStart(v);
      && (p.Some? ==> StartsAt(v, p.value))
      && (forall q: nat | StartsAt(v, q) :: p.Some? && p.value <= q)
  {
    hide LooksLikeStart;
    StartAfterLineFirst(v, 0);
    assert v[0..] == v;
  }

  // ---------- The parser ----------

  datatype Body =
    | Headers
    | Fixed(remaining: nat)
    | SkipFixed(remaining: nat, capture: nat)
    | Chunked(dec: Decoder, seen: nat, capturing: bool)
    | UntilClose(seen: nat, capturing: bool)

  datatype Event = Header(offset: nat, data: seq<Byte>, request: bool) | BodyPart(offset: nat, data: seq<Byte>)

  /** The requests whose responses are still to come, shared by both directions. */
  datatype Conn = Conn(pending: seq<Kind>, tunnel: bool)

  datatype Machine = Machine(buffer: seq<Byte>, state: Body, offset: nat, synced: bool, scanFrom: nat, conn: Conn,
                             events: seq<Event>, errors: nat, going: bool)

  predicate BodyOk(b: Body) {
    match b
    case Fixed(remaining) => remaining > 0
    case SkipFixed(remaining, _) => remaining > 0
    case Chunked(dec, _, _) => DecoderOk(dec)
    case _ => true
  }

  function Drop(m: Machine, n: nat): Machine
    requires n <= |m.buffer|
  {
    m.(buffer := m.buffer[n..], offset := m.offset + n)
  }

  function Trimmed(m: Machine): Machine {
    Drop(m, Less(|m.buffer|, RESYNC_SUFFIX))
  }

  function Resync(m: Machine): Machine {
    var start := FindStart(m.buffer);
    if start.Some? then Drop(m, start.value).(synced := true, scanFrom := 0) else Trimmed(m)
  }

  function Desync(m: Machine): Machine {
    m.(errors := m.errors + 1, synced := false, conn := m.conn.(pending := []))
  }

  predicate Informational(h: Parsed) {
    !h.request && h.status.Some? && 100 <= h.status.value <= 199 && h.status.value != 101
  }

  function ResponseKind(conn: Conn, h: Parsed): Option<Kind> {
    if h.request || conn.pending == [] then None else Some(conn.pending[0])
  }

  predicate OpensTunnel(conn: Conn, h: Parsed) {
    !h.request && h.status.Some?
    && (h.status.value == 101 || (ResponseKind(conn, h) == Some(Connect) && 200 <= h.status.value <= 299))
  }

  predicate NoBody(conn: Conn, h: Parsed) {
    !h.request
    && ((h.status.Some? && (100 <= h.status.value <= 199 || h.status.value in {204, 205, 304}))
        || ResponseKind(conn, h) == Some(Head))
  }

  /** Requests queue up for their responses; only a final response takes one off. */
  function Paired(conn: Conn, h: Parsed): Conn {
    if h.request then
      conn.(pending := (if |conn.pending| >= PENDING_LIMIT then conn.pending[1..] else conn.pending) + [h.kind])
    else if Informational(h) || conn.pending == [] then conn
    else conn.(pending := conn.pending[1..])
  }

  function HeaderErrors(conn: Conn, h: Parsed): nat {
    (if h.ambiguous then 1 else 0) + (if h.request && |conn.pending| >= PENDING_LIMIT then 1 else 0)
  }

  /** A request whose last transfer coding is not chunked has no framing of its own. */
  predicate Unframed(conn: Conn, h: Parsed) {
    h.request && h.transferEncoding && !h.finalChunked
  }

  function BodyAfter(cfg: Config, conn: Conn, h: Parsed): (b: Body)
    ensures BodyOk(b)
  {
    if NoBody(conn, h) || (h.request && !h.transferEncoding && h.contentLength.None?) then Headers
    else if h.transferEncoding then
      if h.finalChunked then Chunked(Decoder(Size, 0), 0, true)
      else if h.request then Headers
      else UntilClose(0, true)
    else if h.contentLength.Some? then
      if h.contentLength.value == 0 then Headers
      else if cfg.maxBody.Some? && h.contentLength.value > cfg.maxBody.value then
        SkipFixed(h.contentLength.value, cfg.maxBody.value)
      else Fixed(h.contentLength.value)
    else UntilClose(0, true)
  }

  function Accept(cfg: Config, m: Machine, header: seq<Byte>, at: nat, h: Parsed): Machine {
    var m1 := m.(errors := m.errors + HeaderErrors(m.conn, h), conn := Paired(m.conn, h),
                 events := m.events + [Header(at, header, h.request)]);
    if OpensTunnel(m.conn, h) then m1.(conn := m1.conn.(tunnel := true), buffer := [], state := Headers, going := false)
    else if Unframed(m.conn, h) then Desync(m1.(state := Headers))
    else m1.(state := BodyAfter(cfg, m.conn, h))
  }

  function SyncedTurn(cfg: Config, m: Machine): Machine {
    var end := FindDouble(m.buffer, m.scanFrom);
    if end.None? then
      if |m.buffer| > cfg.maxHeader then Trimmed(Desync(m).(scanFrom := 0)).(going := false)
      else m.(scanFrom := Less(|m.buffer|, 3), going := false)
    else
      var header := m.buffer[..end.value + 4];
      var m1 := Drop(m, end.value + 4).(scanFrom := 0);
      var parsed := cfg.parseHeader(header);
      if parsed.None? then Desync(m1) else Accept(cfg, m1, header, m.offset, parsed.value)
  }

  function HeadersTurn(cfg: Config, m: Machine): Machine {
    var m1 := if m.synced then m else Resync(m);
    if m1.synced then SyncedTurn(cfg, m1) else m1.(going := false)
  }

  function Emit(m: Machine, offset: nat, data: seq<Byte>): (m': Machine)
    ensures m' == m.(events := m'.events)
  {
    if data == [] then m else m.(events := m.events + [BodyPart(offset, data)])
  }

  function FixedTurn(m: Machine): Machine
    requires m.state.Fixed?
  {
    if m.buffer == [] then m.(going := false)
    else
      var take := Min(m.state.remaining, |m.buffer|);
      var m1 := Drop(Emit(m, m.offset, m.buffer[..take]), take);
      if take == m.state.remaining then m1.(state := Headers)
      else m1.(state := Fixed(m.state.remaining - take), going := false)
  }

  function SkipTurn(m: Machine): Machine
    requires m.state.SkipFixed?
  {
    if m.buffer == [] then m.(going := false)
    else
      var take := Min(m.state.remaining, |m.buffer|);
      var collect := Min(take, m.state.capture);
      var m1 := Drop(Emit(m, m.offset, m.buffer[..collect]), take);
      if take == m.state.remaining then m1.(state := Headers)
      else m1.(state := SkipFixed(m.state.remaining - take, m.state.capture - collect), going := false)
  }

  function EmitPieces(m: Machine, base: nat, pieces: seq<Piece>): (m': Machine)
    ensures m' == m.(events := m'.events)
  {
    if pieces == [] then m
    else
      var last := pieces[|pieces| - 1];
      var m1 := EmitPieces(m, base, pieces[..|pieces| - 1]);
      m1.(events := m1.events + [BodyPart(base + last.rel, last.data)])
  }

  /** What this call of the decoder may still capture. */
  function Limit(cfg: Config, capturing: bool, seen: nat): Option<nat> {
    if cfg.maxBody.None? then None else if capturing then Some(Less(cfg.maxBody.value, seen)) else Some(0)
  }

  predicate StillCapturing(cfg: Config, capturing: bool, seen: nat) {
    capturing && (cfg.maxBody.None? || seen <= cfg.maxBody.value)
  }

  function ChunkedTurn(cfg: Config, m: Machine): Machine
    requires m.state.Chunked? && BodyOk(m.state)
  {
    if m.buffer == [] then m.(going := false)
    else
      var st := m.state;
      var c := Decode(cfg, Limit(cfg, st.capturing, st.seen), Begin(st.dec, m.buffer));
      if c.outcome.Failed? then Desync(Drop(m, c.used)).(state := Headers)
      else
        var seen := st.seen + c.body;
        var m1 := Drop(EmitPieces(m, m.offset, c.pieces), c.used);
        if c.outcome.Finished? then m1.(state := Headers)
        else m1.(state := Chunked(c.dec, seen, StillCapturing(cfg, st.capturing, seen)), going := c.used != 0)
  }

  function UntilCloseTurn(cfg: Config, m: Machine): Machine
    requires m.state.UntilClose?
  {
    if m.buffer == [] then m.(going := false)
    else
      var st := m.state;
      var collect := Room(Limit(cfg, st.capturing, st.seen), 0, |m.buffer|);
      var seen := st.seen + |m.buffer|;
      Drop(Emit(m, m.offset, m.buffer[..collect]), |m.buffer|)
        .(state := UntilClose(seen, StillCapturing(cfg, st.capturing, seen)), going := false)
  }

  /** One pass of the parser's loop. */
  function Turn(cfg: Config, m: Machine): Machine
    requires BodyOk(m.state)
  {
    match m.state
    case Headers => HeadersTurn(cfg, m)
    case Fixed(_) => FixedTurn(m)
    case SkipFixed(_, _) => SkipTurn(m)
    case Chunked(_, _, _) => ChunkedTurn(cfg, m)
    case UntilClose(_, _) => UntilCloseTurn(cfg, m)
  }

  function Rank(b: Body): nat {
    if b.Headers? then 0 else 1
  }

  /** The pass left the state proper and either stopped, consumed, or fell back to
      looking for a header. */
  ghost predicate Progress(m: Machine, m': Machine) {
    && BodyOk(m'.state)
    && |m'.buffer| <= |m.buffer|
    && (m'.going ==> |m'.buffer| < |m.buffer| || Rank(m'.state) < Rank(m.state))
    && (!m'.going ==> |m'.buffer| < |m.buffer| || Rank(m'.state) <= Rank(m.state))
  }

  lemma AcceptProgress(cfg: Config, m: Machine, header: seq<Byte>, at: nat, h: Parsed)
    ensures BodyOk(Accept(cfg, m, header, at, h).state) && |Accept(cfg, m, header, at, h).buffer| <= |m.buffer|
  {
    hide OpensTunnel, Unframed, BodyAfter, Paired, HeaderErrors;
  }

  lemma HeadersProgress(cfg: Config, m: Machine)
    requires m.state.Headers? && m.going
    ensures Progress(m, HeadersTurn(cfg, m))
  {
    hide Accept, FindDouble, FindStart;
    var m1 := if m.synced then m else Resync(m);
    var end := FindDouble(m1.buffer, m1.scanFrom);
    if end.Some? {
      var header := m1.buffer[..end.value + 4];
      var m2 := Drop(m1, end.value + 4).(scanFrom := 0);
      var parsed := cfg.parseHeader(header);
      if parsed.Some? {
        AcceptProgress(cfg, m2, header, m1.offset, parsed.value);
      }
    }
  }

  lemma ChunkedProgress(cfg: Config, m: Machine)
    requires m.state.Chunked? && BodyOk(m.state) && m.going
    ensures Progress(m, ChunkedTurn(cfg, m))
  {
    hide Decode, EmitPieces, DecoderOk;
  }

  /** So the loop always ends. */
  lemma TurnProgress(cfg: Config, m: Machine)
    requires BodyOk(m.state) && m.going
    ensures Progress(m, Turn(cfg, m))
  {
    match m.state
    case Headers => HeadersProgress(cfg, m);
    case Chunked(_, _, _) => ChunkedProgress(cfg, m);
    case _ =>
  }

  function Loop(cfg: Config, m: Machine): (m': Machine)
    requires BodyOk(m.state)
    ensures BodyOk(m'.state) && !m'.going
    decreases |m.buffer|, Rank(m.state), m.going
  {
    if m.going then
      TurnProgress(cfg, m);
      Loop(cfg, Turn(cfg, m))
    else m
  }

  // ---------- Feeding a piece of the stream ----------

  datatype Parser = Parser(buffer: seq<Byte>, state: Body, offset: nat, next: Option<nat>, synced: bool, scanFrom: nat)

  datatype Chunk = Chunk(offset: nat, data: seq<Byte>) {
    function End(): nat {
      offset + |data|
    }
  }

  function NewParser(): Parser {
    Parser([], Headers, 0, None, true, 0)
  }

  /** Bytes never join across a hole in the stream, and no half-read message survives it. */
  function Aligned(p: Parser, conn: Conn, c: Chunk): Machine {
    if p.next.Some? && p.next.value != c.offset then
      Machine([], Headers, c.offset, false, 0, conn.(pending := []), [], 0, true)
    else if p.next.None? then
      Machine(p.buffer, p.state, c.offset, c.offset == 0, p.scanFrom, conn, [], 0, true)
    else Machine(p.buffer, p.state, p.offset, p.synced, p.scanFrom, conn, [], 0, true)
  }

  function Started(p: Parser, conn: Conn, c: Chunk): Machine {
    var m := Aligned(p, conn, c);
    m.(buffer := m.buffer + c.data)
  }

  function Rest(m: Machine, c: Chunk): Parser {
    Parser(m.buffer, m.state, m.offset, Some(c.End()), m.synced, m.scanFrom)
  }

  /** One feed: the parser, the connection and the report it leaves. A connection that
      has become a tunnel is not fed any more. */
  function Fed(cfg: Config, p: Parser, conn: Conn, c: Chunk): Machine
    requires BodyOk(p.state)
  {
    Loop(cfg, Started(p, conn, c))
  }
}
