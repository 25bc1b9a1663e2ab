/** The half-stream reassembler itself: an object updated in place, one packet at a
    time. Every method performs the corresponding step of HalfStream. */
module Reassembly {
  import opened Basics
  import opened Intervals
  import opened SequenceSpace
  import opened Tiling
  import H = HalfStream

  class TcpHalf {
    var nextAbs: Option<nat>
    var streamOffset: nat
    var ooo: seq<Segment>
    var oooBytes: nat
    var pendingFin: Option<nat>
    var finNeedsAck: bool
    var finConsumed: bool
    var initialSynSeq: Option<Seq32>
    var peerAck: Option<nat>
    var gapStarted: Option<nat>

    ghost var base: nat
    ghost var history: nat -> Option<Byte>
    ghost var stream: seq<Option<Byte>>

    ghost function View(): H.State
      requires nextAbs.Some?
      reads this
    {
      H.State(nextAbs.value, streamOffset, ooo, oooBytes, pendingFin, finNeedsAck, finConsumed, peerAck,
              gapStarted, initialSynSeq, base, history, stream)
    }

    ghost predicate Valid()
      reads this
    {
      if nextAbs.Some? then H.Settled(View()) else Untouched()
    }

    /** A direction no packet has been seen for. */
    ghost predicate Untouched()
      reads this
    {
      && streamOffset == 0 && stream == [] && ooo == [] && oooBytes == 0
      && pendingFin.None? && !finNeedsAck && !finConsumed && peerAck.None? && gapStarted.None?
      && forall p: nat :: history(p) == None
    }

    constructor ()
      ensures Valid()
      ensures nextAbs == None && stream == [] && !finConsumed && initialSynSeq == None
    {
      nextAbs, streamOffset, ooo, oooBytes := None, 0, [], 0;
      pendingFin, finNeedsAck, finConsumed := None, false, false;
      initialSynSeq, peerAck, gapStarted := None, None, None;
      base, history, stream := 0, (p: nat) => None, [];
    }

    static function PayloadSeq(wire: Seq32, syn: bool): Seq32 {
      (wire + if syn then 1 else 0) % TURN
    }

    /** The half once `wire` has been observed: only the first packet sets the
        sequence space, and only the first SYN its initial number. */
    ghost function Observed(wire: Seq32, syn: bool): H.State
      reads this
    {
      var first := INITIAL_SEQ_EPOCH + PayloadSeq(wire, syn);
      H.State(if nextAbs.Some? then nextAbs.value else first, streamOffset, ooo, oooBytes, pendingFin, finNeedsAck,
              finConsumed, peerAck, gapStarted, if syn && initialSynSeq.None? then Some(wire) else initialSynSeq,
              if nextAbs.Some? then base else first, history, stream)
    }

    method Observe(wire: Seq32, syn: bool)
      requires Valid()
      modifies this
      ensures nextAbs.Some? && View() == old(Observed(wire, syn))
      ensures Valid()
    {
      if nextAbs.None? {
        nextAbs := Some(INITIAL_SEQ_EPOCH + PayloadSeq(wire, syn));
        base := nextAbs.value;
      }
      if syn && initialSynSeq.None? {
        initialSynSeq := Some(wire);
      }
    }

    /** A reset is accepted exactly when it names the next expected number. */
    function RstMatchesNext(wire: Seq32): (r: bool)
      requires Valid()
      reads this
      ensures r <==> nextAbs.None? || wire == nextAbs.value % TURN
    {
      match nextAbs
      case None => true
      case Some(expected) =>
        ExtendSeqExact(wire, expected);
        ExtendSeq(wire, expected) == expected
    }

    method ConsumeFinIfReady(out: Outcome) returns (r: Outcome)
      requires nextAbs.Some?
      modifies this
      ensures nextAbs.Some? && H.Run(View(), r) == H.ConsumeFin(H.Run(old(View()), out))
    {
      r := out;
      if finConsumed || pendingFin.None? {
        return;
      }
      var fin, next := pendingFin.value, nextAbs.value;
      if fin <= next {
        if fin == next {
          if finNeedsAck && !H.AckPast(peerAck, fin) {
            return;
          }
          nextAbs := Some(next + 1);
        }
        finConsumed := true;
        finNeedsAck := false;
        r := out.(finConsumed := true);
        ooo, oooBytes, gapStarted := [], 0, None;
      }
    }

    method Emit(data: seq<Byte>, ts: nat, out: Outcome) returns (r: Outcome)
      requires nextAbs.Some?
      modifies this
      ensures nextAbs.Some? && H.Run(View(), r) == H.Emit(H.Run(old(View()), out), data, ts)
    {
      if data == [] {
        return out;
      }
      var offset := streamOffset;
      streamOffset := streamOffset + |data|;
      nextAbs := Some(nextAbs.value + |data|);
      stream := stream + H.Known(data);
      r := out.(emitted := out.emitted + [Chunk(offset, ts, data)]);
      assert View() == H.Extended(old(View()), data);
      hide H.ConsumeFin;
      r := ConsumeFinIfReady(r);
    }

    method EmitGapTo(target: nat, out: Outcome) returns (r: Outcome)
      requires nextAbs.Some?
      modifies this
      ensures nextAbs.Some? && H.Run(View(), r) == H.EmitGap(H.Run(old(View()), out), target)
    {
      var expected := nextAbs.value;
      var bound := target;
      if pendingFin.Some? {
        bound := Min(target, pendingFin.value);
      }
      if bound <= expected {
        return out;
      }
      var len := bound - expected;
      var offset := streamOffset;
      streamOffset := streamOffset + len;
      nextAbs := Some(bound);
      stream := stream + H.Unknown(len);
      r := out.(gaps := out.gaps + [Gap(offset, len)]);
      assert View() == H.Skipped(old(View()), bound);
      hide H.ConsumeFin;
      r := ConsumeFinIfReady(r);
    }

    /** The body of the flush loop. */
    method FlushFirst(out: Outcome) returns (r: Outcome)
      requires nextAbs.Some? && ooo != []
      modifies this
      ensures nextAbs.Some? && H.Run(View(), r) == H.FlushOne(H.Run(old(View()), out))
    {
      hide H.ConsumeFin;
      r := out;
      var expected, first := nextAbs.value, ooo[0];
      ooo, oooBytes := ooo[1..], Max(oooBytes - |first.data|, 0);
      assert View() == H.Popped(old(View()));
      if first.start < expected {
        var overlap := expected - first.start;
        if overlap < |first.data| {
          r := Emit(first.data[overlap..], first.ts, r);
        }
      } else {
        assert first.data[0..] == first.data;
        r := Emit(first.data, first.ts, r);
      }
    }

    method FlushOoo(out: Outcome) returns (r: Outcome)
      requires nextAbs.Some?
      modifies this
      ensures nextAbs.Some? && H.Run(View(), r) == H.Flush(H.Run(old(View()), out))
    {
      hide H.FlushOne;
      r := out;
      while !finConsumed && ooo != [] && ooo[0].start <= nextAbs.value
        invariant nextAbs.Some?
        invariant H.Flush(H.Run(View(), r)) == H.Flush(H.Run(old(View()), out))
        decreases |ooo|
      {
        r := FlushFirst(r);
      }
    }

    /** Keeps, position by position, the bytes already held. */
    method InsertOooFirstSeen(start: nat, ts: nat, data: seq<Byte>, out: Outcome) returns (r: Outcome)
      requires nextAbs.Some?
      modifies `ooo, `oooBytes
      ensures H.Run(View(), r) == H.Insert(H.Run(old(View()), out), start, ts, data)
    {
      hide Spliced, CountUpTo, H.InsertFrom;
      var end := start + |data|;
      var cursor := start;
      r := out;
      ghost var filed := H.InsertFrom(ooo, start, data, ts, start);
      while cursor < end
        invariant start <= cursor
        invariant r == out.(retransmit := r.retransmit)
        invariant var rest := H.InsertFrom(ooo, start, data, ts, cursor);
          && rest.ooo == filed.ooo
          && oooBytes + rest.added == old(oooBytes) + filed.added
          && (r.retransmit || rest.overlapped <==> out.retransmit || filed.overlapped)
        decreases end - cursor
      {
        H.InsertTurn(ooo, start, data, ts, cursor);
        var n := CountUpTo(ooo, cursor);
        if n > 0 && ooo[n - 1].End() > cursor {
          r := r.(retransmit := true);
          cursor := Min(ooo[n - 1].End(), end);
        } else {
          var next := if n < |ooo| && ooo[n].start < end then Some((ooo[n].start, ooo[n].End())) else None;
          var pieceEnd := if next.Some? then next.value.0 else end;
          var compact := data[cursor - start..pieceEnd - start];
          oooBytes := oooBytes + |compact|;
          ooo := Spliced(ooo, n, Segment(cursor, compact, ts));
          cursor := pieceEnd;
          if next.Some? && next.value.1 > cursor {
            r := r.(retransmit := true);
            cursor := Min(next.value.1, end);
          }
        }
      }
      H.InsertDone(ooo, start, data, ts, cursor);
    }

    method RecoverKnownAck(out: Outcome) returns (r: Outcome)
      requires nextAbs.Some?
      modifies this
      ensures nextAbs.Some? && H.Run(View(), r) == H.RecoverAck(H.Run(old(View()), out))
    {
      hide H.Flush, H.EmitGap, H.ConsumeFin;
      r := out;
      if peerAck.None? {
        return;
      }
      var ack := peerAck.value;
      while nextAbs.value < ack
        invariant nextAbs.Some? && peerAck == Some(ack)
        invariant H.RecoverAck(H.Run(View(), r)) == H.RecoverAck(H.Run(old(View()), out))
        decreases |ooo|
      {
        ghost var x := H.Run(View(), r);
        if ooo == [] {
          if pendingFin.Some? && pendingFin.value > nextAbs.value && ack > pendingFin.value {
            r := EmitGapTo(pendingFin.value, r);
            r := ConsumeFinIfReady(r);
          }
          return;
        }
        if ooo[0].start > nextAbs.value {
          r := EmitGapTo(Min(ooo[0].start, ack), r);
        }
        if nextAbs.value >= ack {
          return;
        }
        var before, beforeBytes := nextAbs, oooBytes;
        r := FlushOoo(r);
        if finConsumed || (nextAbs == before && oooBytes == beforeBytes) {
          return;
        }
      }
    }

    method RecoverOooPressure(maxOoo: nat, maxSegments: nat, out: Outcome) returns (r: Outcome)
      requires nextAbs.Some?
      modifies this
      ensures nextAbs.Some?
      ensures H.Run(View(), r) == H.RecoverPressure(H.Run(old(View()), out), maxOoo, maxSegments)
    {
      hide H.Flush, H.EmitGap;
      r := out;
      while oooBytes > maxOoo || |ooo| > maxSegments
        invariant nextAbs.Some?
        invariant H.RecoverPressure(H.Run(View(), r), maxOoo, maxSegments)
               == H.RecoverPressure(H.Run(old(View()), out), maxOoo, maxSegments)
        decreases |ooo|
      {
        if ooo == [] {
          return;
        }
        if ooo[0].start > nextAbs.value {
          r := EmitGapTo(ooo[0].start, r);
        }
        var before := oooBytes;
        r := FlushOoo(r);
        if finConsumed || oooBytes >= before {
          return;
        }
      }
    }

    method RecoverOooTimeout(maxAge: nat, ts: nat, out: Outcome) returns (r: Outcome)
      requires nextAbs.Some?
      modifies this
      ensures nextAbs.Some? && H.Run(View(), r) == H.RecoverTimeout(H.Run(old(View()), out), maxAge, ts)
    {
      hide H.Flush, H.EmitGap;
      r := out;
      if ooo == [] {
        gapStarted := None;
        return;
      }
      var first := ooo[0].start;
      if first <= nextAbs.value {
        gapStarted := None;
        assert View() == old(View()).(gapStarted := None);
        r := FlushOoo(r);
        return;
      }
      if gapStarted.None? {
        gapStarted := Some(ts);
        return;
      }
      if Max(ts - gapStarted.value, 0) < maxAge {
        return;
      }
      r := EmitGapTo(first, r);
      r := FlushOoo(r);
      ghost var z := View();
      gapStarted := None;
      if ooo != [] && ooo[0].start > nextAbs.value {
        gapStarted := Some(ts);
      }
      assert View() == z.(gapStarted := gapStarted);
    }

    /** The payload of a segment: in order, bridging or ahead of the next position. */
    method AcceptPayload(start: nat, ts: nat, data: seq<Byte>, maxOoo: nat, maxSegments: nat, out: Outcome)
      returns (r: Outcome)
      requires nextAbs.Some?
      modifies this
      ensures nextAbs.Some?
      ensures H.Run(View(), r) == H.Payload(H.Run(old(View()), out), start, ts, data, maxOoo, maxSegments)
    {
      hide H.Insert, H.RecoverAck, H.RecoverPressure, H.Flush, H.Emit;
      r := out;
      var expected := nextAbs.value;
      history := H.Heard(View(), start, data).history;
      assert View() == H.Heard(old(View()), start, data);
      if data == [] {
        return;
      }
      if start > expected {
        r := r.(outOfOrder := true);
        r := InsertOooFirstSeen(start, ts, data, r);
        r := RecoverKnownAck(r);
        r := RecoverOooPressure(maxOoo, maxSegments, r);
      } else {
        var overlap := expected - start;
        if start < expected {
          r := r.(retransmit := true);
        }
        if overlap < |data| {
          var tail := data[overlap..];
          if ooo == [] {
            r := Emit(tail, ts, r);
          } else {
            r := InsertOooFirstSeen(expected, ts, tail, r);
            r := FlushOoo(r);
            r := RecoverKnownAck(r);
            r := RecoverOooPressure(maxOoo, maxSegments, r);
          }
        }
      }
    }

    /** Notes the segment's FIN and holds its payload against a pending one. */
    method NoteFin(start: nat, fin: bool, data: seq<Byte>) returns (clip: H.Clip)
      requires nextAbs.Some?
      modifies `pendingFin, `finNeedsAck
      ensures var m := H.MarkFin(H.Marker(old(pendingFin), old(finNeedsAck)), fin, start, start + |data|, nextAbs.value);
        clip == H.ClipAtFin(start, data, m.pendingFin, m.finNeedsAck, peerAck)
      ensures View() == old(View()).(pendingFin := clip.pendingFin, finNeedsAck := clip.finNeedsAck)
    {
      hide H.ClipAtFin;
      var end, expected := start + |data|, nextAbs.value;
      if fin && end >= expected {
        if pendingFin.None? {
          pendingFin, finNeedsAck := Some(end), start > expected;
        } else if pendingFin.value == end && start <= expected {
          finNeedsAck := false;
        } else if finNeedsAck && start <= expected {
          pendingFin, finNeedsAck := Some(end), false;
        }
      }
      clip := H.ClipAtFin(start, data, pendingFin, finNeedsAck, peerAck);
      pendingFin, finNeedsAck := clip.pendingFin, clip.finNeedsAck;
    }

    /** A segment of an open half, at absolute position `start`. */
    method AcceptOpen(start: nat, fin: bool, ts: nat, data: seq<Byte>,
                      maxOoo: nat, maxSegments: nat, gapTimeout: nat) returns (out: Outcome)
      requires nextAbs.Some? && !finConsumed
      modifies this
      ensures nextAbs.Some?
      ensures H.Run(View(), out) == H.Accept(old(View()), start, fin, ts, data, maxOoo, maxSegments, gapTimeout)
    {
      hide H.MarkFin, H.ClipAtFin, H.Payload, H.RecoverAck, H.RecoverTimeout, H.ConsumeFin;
      var clip := NoteFin(start, fin, data);
      out := NOTHING.(retransmit := clip.trimmed);
      out := AcceptPayload(start, ts, clip.data, maxOoo, maxSegments, out);
      if pendingFin.Some? && !finConsumed {
        out := RecoverKnownAck(out);
      }
      out := RecoverOooTimeout(gapTimeout, ts, out);
      out := ConsumeFinIfReady(out);
    }

    /** Accepts one TCP segment. */
    method Accept(wire: Seq32, syn: bool, fin: bool, ts: nat, data: seq<Byte>,
                  maxOoo: nat, maxSegments: nat, gapTimeout: nat) returns (out: Outcome)
      requires Valid()
      modifies this
      ensures nextAbs.Some? && Valid()
      ensures var s := old(Observed(wire, syn));
        H.Run(View(), out) == H.Accept(s, ExtendSeq(PayloadSeq(wire, syn), s.next), fin, ts, data, maxOoo, maxSegments, gapTimeout)
      // What was delivered before stays; what is new is exactly what is reported.
      ensures old(stream) <= stream
      ensures Tiles(out.emitted, out.gaps, stream, |old(stream)|, |stream|)
      // A consumed FIN is final.
      ensures old(finConsumed) ==> finConsumed && stream == old(stream) && out == NOTHING.(retransmit := data != [])
      // The first byte accepted for a position is the one that counts.
      ensures !old(finConsumed) ==>
        var expected := old(Observed(wire, syn)).next;
        forall p: nat :: history(p) == H.Recorded(old(history), ExtendSeq(PayloadSeq(wire, syn), expected), data, expected, p)
      // The store keeps within its limits.
      ensures old(oooBytes <= maxOoo && |ooo| <= maxSegments) ==> oooBytes <= maxOoo && |ooo| <= maxSegments
    {
      hide H.Settled, Tiles, H.Accept, ExtendSeq;
      Observe(wire, syn);
      ghost var s := View();
      var start := ExtendSeq(PayloadSeq(wire, syn), nextAbs.value);
      H.AcceptFacts(s, start, fin, ts, data, maxOoo, maxSegments, gapTimeout);
      if finConsumed {
        out := NOTHING.(retransmit := data != []);
      } else {
        out := AcceptOpen(start, fin, ts, data, maxOoo, maxSegments, gapTimeout);
      }
    }

    /** Takes the peer's cumulative ACK. */
    method Acknowledge(ack: Seq32, ts: nat, gapTimeout: nat) returns (out: Outcome)
      requires Valid()
      modifies this
      ensures Valid()
      ensures old(nextAbs).None? ==> nextAbs.None? && out == NOTHING && stream == old(stream)
      ensures old(nextAbs).Some? ==>
        nextAbs.Some? && H.Run(View(), out) == H.Acknowledge(old(View()), ExtendSeq(ack, old(nextAbs).value), ts, gapTimeout)
      ensures old(stream) <= stream
      ensures Tiles(out.emitted, out.gaps, stream, |old(stream)|, |stream|)
      ensures old(finConsumed) ==> finConsumed && stream == old(stream)
    {
      hide H.Settled, H.RecoverAck, H.RecoverTimeout, H.ConsumeFin;
      out := NOTHING;
      if nextAbs.None? {
        return;
      }
      hide Tiles;
      ghost var s := View();
      var expected := nextAbs.value;
      var ackAbs := ExtendSeq(ack, expected);
      H.AcknowledgeFacts(s, ackAbs, ts, gapTimeout);
      if ackAbs > expected && (peerAck.None? || ackAbs > peerAck.value) {
        peerAck := Some(ackAbs);
      }
      assert View() == H.Acked(s, ackAbs);
      if ooo == [] && pendingFin.None? {
        return;
      }
      out := RecoverKnownAck(out);
      out := RecoverOooTimeout(gapTimeout, ts, out);
      out := ConsumeFinIfReady(out);
    }

    /** Closes the direction, delivering what is still buffered. */
    method Finalize(ts: nat) returns (out: Outcome)
      requires Valid()
      modifies this
      ensures Valid()
      ensures old(nextAbs).None? ==> nextAbs.None? && out == NOTHING && stream == old(stream)
      ensures old(nextAbs).Some? ==> nextAbs.Some? && H.Run(View(), out) == H.Finalize(old(View()))
      ensures old(stream) <= stream
      ensures Tiles(out.emitted, out.gaps, stream, |old(stream)|, |stream|)
      ensures old(finConsumed) ==> finConsumed && stream == old(stream)
    {
      hide H.Settled, H.Flush, H.EmitGap, H.ConsumeFin;
      out := NOTHING;
      if nextAbs.None? {
        return;
      }
      hide Tiles;
      ghost var s := View();
      H.FinalizeFacts(s);
      while ooo != []
        invariant nextAbs.Some?
        invariant H.Drain(H.Run(View(), out)) == H.Drain(H.Run(s, NOTHING))
        decreases |ooo|
      {
        if ooo[0].start > nextAbs.value {
          out := EmitGapTo(ooo[0].start, out);
        }
        var before, beforeBytes := nextAbs, oooBytes;
        out := FlushOoo(out);
        if finConsumed || (nextAbs == before && oooBytes == beforeBytes) {
          assert H.Run(View(), out) == H.Drain(H.Run(s, NOTHING));
          break;
        }
      }
      assert H.Run(View(), out) == H.Drain(H.Run(s, NOTHING));
      out := ConsumeFinIfReady(out);
      gapStarted := None;
      assert H.Run(View(), out) == H.Finalize(s);
    }
  }
}
