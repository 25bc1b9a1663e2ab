/** From packets to HTTP records: what the reassembler delivers, fed to the parser. */
module HttpOverTcp {
  import opened Basics
  import opened HttpFraming
  import SequenceSpace
  import T = Tiling
  import R = HalfStreamRuns
  import W = HttpWire

  /** The delivered chunks as feeds; `conns` is what the other direction left each time. */
  function FeedsOf(chunks: seq<T.Chunk>, conns: seq<Conn>): (feeds: seq<W.Feed>)
    requires |chunks| == |conns|
    ensures |feeds| == |chunks|
    ensures forall i | 0 <= i < |feeds| ::
      feeds[i].chunk.offset == chunks[i].offset && feeds[i].chunk.data == chunks[i].data && feeds[i].conn == conns[i]
  {
    seq(|chunks|, i requires 0 <= i < |chunks| => W.Feed(Chunk(chunks[i].offset, chunks[i].data), conns[i]))
  }

  /** What any run of the reassembler delivers arrives at the parser in stream order. */
  lemma DeliveredInOrder(first: nat, events: seq<R.Event>, l: R.Limits, conns: seq<Conn>)
    requires first >= SequenceSpace.INITIAL_SEQ_EPOCH
    requires |conns| == |R.Runs(R.Initial(first), events, l).out.emitted|
    ensures W.InOrder(FeedsOf(R.Runs(R.Initial(first), events, l).out.emitted, conns))
  {
    hide R.Runs, T.Tiles, FeedsOf;
    var y := R.Runs(R.Initial(first), events, l);
    RunTiles(first, events, l);
    T.TilesOrdered(y.out.emitted, y.out.gaps, y.s.stream, 0, |y.s.stream|);
  }

  lemma RunTiles(first: nat, events: seq<R.Event>, l: R.Limits)
    requires first >= SequenceSpace.INITIAL_SEQ_EPOCH
    ensures var y := R.Runs(R.Initial(first), events, l); T.Tiles(y.out.emitted, y.out.gaps, y.s.stream, 0, |y.s.stream|)
  {
    hide R.Runs, T.Tiles;
    R.InitialSettled(first);
    R.RunsDeliver(R.Initial(first), events, l);
  }

  lemma {:induction false} ByteInFeed(feeds: seq<W.Feed>, o: nat) returns (k: nat)
    requires W.ByteAt(feeds, o).Some?
    ensures k < |feeds| && feeds[k].chunk.offset <= o < feeds[k].chunk.End()
    ensures W.ByteAt(feeds, o) == Some(feeds[k].chunk.data[o - feeds[k].chunk.offset])
  {
    var c := feeds[|feeds| - 1].chunk;
    if c.offset <= o < c.End() {
      k := |feeds| - 1;
    } else {
      k := ByteInFeed(feeds[..|feeds| - 1], o);
    }
  }

  /** A byte the parser was fed is the one the stream delivered at that offset. */
  lemma FedByte(first: nat, events: seq<R.Event>, l: R.Limits, conns: seq<Conn>, o: nat)
    requires first >= SequenceSpace.INITIAL_SEQ_EPOCH
    requires |conns| == |R.Runs(R.Initial(first), events, l).out.emitted|
    requires W.ByteAt(FeedsOf(R.Runs(R.Initial(first), events, l).out.emitted, conns), o).Some?
    ensures var y := R.Runs(R.Initial(first), events, l);
      o < |y.s.stream| && y.s.stream[o] == W.ByteAt(FeedsOf(y.out.emitted, conns), o)
  {
    hide R.Runs, T.Tiles, FeedsOf, W.ByteAt;
    var y := R.Runs(R.Initial(first), events, l);
    var k := ByteInFeed(FeedsOf(y.out.emitted, conns), o);
    RunTiles(first, events, l);
    T.TilesOrdered(y.out.emitted, y.out.gaps, y.s.stream, 0, |y.s.stream|);
    assert T.ChunkShows(y.out.emitted[k], y.s.stream);
    assert y.s.stream[y.out.emitted[k].offset + (o - y.out.emitted[k].offset)] == W.ByteAt(FeedsOf(y.out.emitted, conns), o);
  }

  lemma ShownByte(feeds: seq<W.Feed>, e: Event, i: nat)
    requires W.Shows(feeds, e) && i < |e.data|
    ensures W.ByteAt(feeds, e.offset + i) == Some(e.data[i])
  {
  }

  /** The packet that presented the byte of a position first. */
  ghost predicate PresentedFirst(first: nat, events: seq<R.Event>, l: R.Limits, o: nat, b: Byte) {
    exists k: nat :: R.FirstToPresent(R.Initial(first), events, l, first + o, k) && R.ByteOf(events[k], first + o) == Some(b)
  }

  /** End to end, over every run of packets and every reaction of the other direction:
      each byte of each HTTP wire record is the one a packet presented first for its
      position in the connection. */
  lemma RecordsAreFirstSeen(cfg: Config, first: nat, events: seq<R.Event>, l: R.Limits, conns: seq<Conn>,
                            e: Event, i: nat)
    requires first >= SequenceSpace.INITIAL_SEQ_EPOCH
    requires |conns| == |R.Runs(R.Initial(first), events, l).out.emitted|
    requires var feeds := FeedsOf(R.Runs(R.Initial(first), events, l).out.emitted, conns);
      W.NoTunnel(cfg, feeds) && e in W.EventsAfter(cfg, feeds) && i < |e.data|
    ensures PresentedFirst(first, events, l, e.offset + i, e.data[i])
  {
    hide R.Runs, FeedsOf, W.InOrder, W.NoTunnel, W.EventsAfter, W.ByteAt, PresentedFirst, W.Shows, W.Ordered, R.Initial;
    var feeds := FeedsOf(R.Runs(R.Initial(first), events, l).out.emitted, conns);
    DeliveredInOrder(first, events, l, conns);
    W.WireRecords(cfg, feeds);
    ShownByte(feeds, e, i);
    FedByte(first, events, l, conns, e.offset + i);
    DeliveredFirst(first, events, l, e.offset + i, e.data[i]);
  }

  lemma DeliveredFirst(first: nat, events: seq<R.Event>, l: R.Limits, o: nat, b: Byte)
    requires first >= SequenceSpace.INITIAL_SEQ_EPOCH
    requires o < |R.Runs(R.Initial(first), events, l).s.stream| && R.Runs(R.Initial(first), events, l).s.stream[o] == Some(b)
    ensures PresentedFirst(first, events, l, o, b)
  {
    hide R.Runs, R.FirstToPresent, R.NeverPresented, R.ByteOf, R.Initial;
    R.DeliversFirstSeen(first, events, l, o);
  }
}
