/** What one call of the reassembler reports, and what it means for a report to
    account for a stretch of the stream exactly. */
module Tiling {
  import opened Basics

  datatype Chunk = Chunk(offset: nat, ts: nat, data: seq<Byte>)
  datatype Gap = Gap(offset: nat, len: nat)
  datatype Outcome = Outcome(emitted: seq<Chunk>, gaps: seq<Gap>, retransmit: bool, outOfOrder: bool,
                             finConsumed: bool)

  const NOTHING := Outcome([], [], false, false, false)

  /** `emitted` and `gaps` together tile `stream[from..to]`: in offset order, with
      neither overlap nor hole, each chunk shows the stream's bytes at its offset
      and each gap spans positions for which the stream has no byte. */
  ghost predicate Tiles(emitted: seq<Chunk>, gaps: seq<Gap>, stream: seq<Option<Byte>>, from: nat, to: nat)
    decreases |emitted| + |gaps|
  {
    && from <= to <= |stream|
    && if from == to then emitted == [] && gaps == []
       else || (emitted != [] && LastChunkFits(emitted, stream, from, to)
                && Tiles(emitted[..|emitted| - 1], gaps, stream, from, emitted[|emitted| - 1].offset))
            || (gaps != [] && LastGapFits(gaps, stream, from, to)
                && Tiles(emitted, gaps[..|gaps| - 1], stream, from, gaps[|gaps| - 1].offset))
  }

  ghost predicate LastChunkFits(emitted: seq<Chunk>, stream: seq<Option<Byte>>, from: nat, to: nat)
    requires emitted != [] && from <= to <= |stream|
  {
    var c := emitted[|emitted| - 1];
    && c.data != []
    && from <= c.offset
    && c.offset + |c.data| == to
    && forall i | c.offset <= i < to :: stream[i] == Some(c.data[i - c.offset])
  }

  ghost predicate LastGapFits(gaps: seq<Gap>, stream: seq<Option<Byte>>, from: nat, to: nat)
    requires gaps != [] && from <= to <= |stream|
  {
    var g := gaps[|gaps| - 1];
    && g.len > 0
    && from <= g.offset
    && g.offset + g.len == to
    && forall i | g.offset <= i < to :: stream[i] == None
  }

  lemma {:induction false} TilesGrow(emitted: seq<Chunk>, gaps: seq<Gap>, stream: seq<Option<Byte>>,
                                     longer: seq<Option<Byte>>, from: nat, to: nat)
    requires stream <= longer && Tiles(emitted, gaps, stream, from, to)
    ensures Tiles(emitted, gaps, longer, from, to)
    decreases |emitted| + |gaps|
  {
    if from < to {
      if emitted != [] && LastChunkFits(emitted, stream, from, to)
         && Tiles(emitted[..|emitted| - 1], gaps, stream, from, emitted[|emitted| - 1].offset) {
        TilesGrow(emitted[..|emitted| - 1], gaps, stream, longer, from, emitted[|emitted| - 1].offset);
        assert LastChunkFits(emitted, longer, from, to);
      } else {
        TilesGrow(emitted, gaps[..|gaps| - 1], stream, longer, from, gaps[|gaps| - 1].offset);
        assert LastGapFits(gaps, longer, from, to);
      }
    }
  }

  lemma TilesAddChunk(emitted: seq<Chunk>, gaps: seq<Gap>, stream: seq<Option<Byte>>,
                      longer: seq<Option<Byte>>, from: nat, c: Chunk)
    requires stream <= longer && Tiles(emitted, gaps, stream, from, |stream|)
    requires c.data != [] && c.offset == |stream| && |longer| == |stream| + |c.data|
    requires forall i | |stream| <= i < |longer| :: longer[i] == Some(c.data[i - |stream|])
    ensures Tiles(emitted + [c], gaps, longer, from, |longer|)
  {
    TilesGrow(emitted, gaps, stream, longer, from, |stream|);
    assert (emitted + [c])[..|emitted|] == emitted;
    assert LastChunkFits(emitted + [c], longer, from, |longer|);
  }

  lemma TilesAddGap(emitted: seq<Chunk>, gaps: seq<Gap>, stream: seq<Option<Byte>>,
                    longer: seq<Option<Byte>>, from: nat, g: Gap)
    requires stream <= longer && Tiles(emitted, gaps, stream, from, |stream|)
    requires g.len > 0 && g.offset == |stream| && |longer| == |stream| + g.len
    requires forall i | |stream| <= i < |longer| :: longer[i] == None
    ensures Tiles(emitted, gaps + [g], longer, from, |longer|)
  {
    TilesGrow(emitted, gaps, stream, longer, from, |stream|);
    assert (gaps + [g])[..|gaps|] == gaps;
    assert LastGapFits(gaps + [g], longer, from, |longer|);
  }

  ghost predicate InChunk(c: Chunk, i: nat) {
    c.offset <= i < c.offset + |c.data|
  }

  ghost predicate InGap(g: Gap, i: nat) {
    g.offset <= i < g.offset + g.len
  }

  /** What tiling means offset by offset, for a known byte: it lies in exactly one
      chunk, which shows it, and in no gap. */
  lemma {:induction false} TilesByte(emitted: seq<Chunk>, gaps: seq<Gap>, stream: seq<Option<Byte>>,
                                     from: nat, to: nat, i: nat) returns (k: nat)
    requires Tiles(emitted, gaps, stream, from, to) && from <= i < to && stream[i].Some?
    ensures k < |emitted| && InChunk(emitted[k], i)
    ensures stream[i] == Some(emitted[k].data[i - emitted[k].offset])
    ensures forall j | 0 <= j < |emitted| && j != k :: !InChunk(emitted[j], i)
    ensures forall j | 0 <= j < |gaps| :: !InGap(gaps[j], i)
    decreases |emitted| + |gaps|
  {
    if emitted != [] && LastChunkFits(emitted, stream, from, to)
       && Tiles(emitted[..|emitted| - 1], gaps, stream, from, emitted[|emitted| - 1].offset) {
      var last := |emitted| - 1;
      TilesWithin(emitted[..last], gaps, stream, from, emitted[last].offset);
      if i < emitted[last].offset {
        k := TilesByte(emitted[..last], gaps, stream, from, emitted[last].offset, i);
      } else {
        k := last;
      }
    } else {
      var last := |gaps| - 1;
      k := TilesByte(emitted, gaps[..last], stream, from, gaps[last].offset, i);
    }
  }

  /** For a byte nobody captured: it lies in exactly one gap and in no chunk. */
  lemma {:induction false} TilesHole(emitted: seq<Chunk>, gaps: seq<Gap>, stream: seq<Option<Byte>>,
                                     from: nat, to: nat, i: nat) returns (k: nat)
    requires Tiles(emitted, gaps, stream, from, to) && from <= i < to && stream[i].None?
    ensures k < |gaps| && InGap(gaps[k], i)
    ensures forall j | 0 <= j < |gaps| && j != k :: !InGap(gaps[j], i)
    ensures forall j | 0 <= j < |emitted| :: !InChunk(emitted[j], i)
    decreases |emitted| + |gaps|
  {
    if emitted != [] && LastChunkFits(emitted, stream, from, to)
       && Tiles(emitted[..|emitted| - 1], gaps, stream, from, emitted[|emitted| - 1].offset) {
      var last := |emitted| - 1;
      k := TilesHole(emitted[..last], gaps, stream, from, emitted[last].offset, i);
    } else {
      var last := |gaps| - 1;
      TilesWithin(emitted, gaps[..last], stream, from, gaps[last].offset);
      if i < gaps[last].offset {
        k := TilesHole(emitted, gaps[..last], stream, from, gaps[last].offset, i);
      } else {
        k := last;
      }
    }
  }

  lemma {:induction false} TilesWithin(emitted: seq<Chunk>, gaps: seq<Gap>, stream: seq<Option<Byte>>,
                                       from: nat, to: nat)
    requires Tiles(emitted, gaps, stream, from, to)
    ensures forall j | 0 <= j < |emitted| :: from <= emitted[j].offset && emitted[j].offset + |emitted[j].data| <= to
    ensures forall j | 0 <= j < |gaps| :: from <= gaps[j].offset && gaps[j].offset + gaps[j].len <= to
    decreases |emitted| + |gaps|
  {
    if from < to {
      if emitted != [] && LastChunkFits(emitted, stream, from, to)
         && Tiles(emitted[..|emitted| - 1], gaps, stream, from, emitted[|emitted| - 1].offset) {
        TilesWithin(emitted[..|emitted| - 1], gaps, stream, from, emitted[|emitted| - 1].offset);
      } else {
        TilesWithin(emitted, gaps[..|gaps| - 1], stream, from, gaps[|gaps| - 1].offset);
      }
    }
  }

  ghost predicate ChunkShows(c: Chunk, stream: seq<Option<Byte>>) {
    c.offset + |c.data| <= |stream| && forall i | 0 <= i < |c.data| :: stream[c.offset + i] == Some(c.data[i])
  }

  lemma LastShows(emitted: seq<Chunk>, stream: seq<Option<Byte>>, from: nat, to: nat)
    requires emitted != [] && from <= to <= |stream| && LastChunkFits(emitted, stream, from, to)
    ensures ChunkShows(emitted[|emitted| - 1], stream)
  {
  }

  /** The chunks come in offset order without overlap, and each shows the stream. */
  lemma {:induction false} TilesOrdered(emitted: seq<Chunk>, gaps: seq<Gap>, stream: seq<Option<Byte>>,
                                        from: nat, to: nat)
    requires Tiles(emitted, gaps, stream, from, to)
    ensures forall j | 0 < j < |emitted| :: emitted[j - 1].offset + |emitted[j - 1].data| <= emitted[j].offset
    ensures forall j | 0 <= j < |emitted| :: ChunkShows(emitted[j], stream)
    decreases |emitted| + |gaps|
  {
    if from < to {
      if emitted != [] && LastChunkFits(emitted, stream, from, to)
         && Tiles(emitted[..|emitted| - 1], gaps, stream, from, emitted[|emitted| - 1].offset) {
        hide ChunkShows;
        LastShows(emitted, stream, from, to);
        TilesOrdered(emitted[..|emitted| - 1], gaps, stream, from, emitted[|emitted| - 1].offset);
        TilesWithin(emitted[..|emitted| - 1], gaps, stream, from, emitted[|emitted| - 1].offset);
      } else {
        TilesOrdered(emitted, gaps[..|gaps| - 1], stream, from, gaps[|gaps| - 1].offset);
      }
    }
  }
}
