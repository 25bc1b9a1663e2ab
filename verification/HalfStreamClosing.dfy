/** How far a half-stream delivers when its FIN is consumed: exactly when the delivered
    stream goes past the marker. */
module HalfStreamClosing {
  import opened Basics
  import opened Intervals
  import opened Tiling
  import opened HalfStream

  /** A buffered segment starts before the marker and ends beyond it. */
  ghost predicate Straddled(ooo: seq<Segment>, f: nat) {
    exists i :: 0 <= i < |ooo| && ooo[i].start < f < ooo[i].End()
  }

  /** A buffered segment starts at the marker. */
  ghost predicate Abutted(ooo: seq<Segment>, f: nat) {
    exists i :: 0 <= i < |ooo| && ooo[i].start == f
  }

  ghost predicate Tentative(s: State, f: nat) {
    s.finNeedsAck && !AckPast(s.peerAck, f)
  }

  /** The delivered stream goes past the marker of a closed half. */
  ghost predicate Passes(s: State) {
    s.pendingFin.Some? && s.pendingFin.value < s.base + |s.stream|
  }

  /** What decides it while the half is still open. */
  ghost predicate CutAt(s: State, f: nat) {
    Straddled(s.ooo, f) || (Abutted(s.ooo, f) && Tentative(s, f))
  }

  lemma {:induction false} HeldBySegment(ooo: seq<Segment>, p: nat) returns (i: nat)
    requires At(ooo, p).Some?
    ensures i < |ooo| && ooo[i].start <= p < ooo[i].End()
  {
    if ooo[0].start <= p < ooo[0].End() {
      i := 0;
    } else {
      var j := HeldBySegment(ooo[1..], p);
      i := j + 1;
    }
  }

  /** Only a byte held at the marker lets the stream go past it. */
  lemma PassesNeedsByte(s: State, t: State, f: nat)
    requires Ready(s) && !s.finConsumed && Core(t) && t.pendingFin == Some(f) && Passes(t) && s.next <= f
    requires t.history(f) == s.history(f)
    ensures Straddled(s.ooo, f) || Abutted(s.ooo, f)
  {
    hide Sorted, Shows, Bytes, At;
    assert At(s.ooo, f) == s.history(f);
    var i := HeldBySegment(s.ooo, f);
    if s.ooo[i].start == f {
      assert Abutted(s.ooo, f);
    } else {
      assert Straddled(s.ooo, f);
    }
  }

  /** A closed half has delivered at least up to its marker. */
  lemma ClosedReaches(t: State)
    requires Core(t) && t.finConsumed
    ensures t.pendingFin.Some? && t.pendingFin.value <= t.base + |t.stream|
  {
  }

  /** A segment over the marker is delivered whole, one at a hard marker is not. */
  lemma FateDecides(s: State, t: State, f: nat)
    requires Fate(s, t) && !s.finConsumed && t.finConsumed && t.pendingFin == Some(f) && f <= t.base + |t.stream|
    requires Sorted(s.ooo) && (Abutted(s.ooo, f) ==> !FinReady(s))
    ensures Straddled(s.ooo, f) ==> Passes(t)
    ensures Abutted(s.ooo, f) && !Tentative(s, f) ==> !Passes(t)
  {
    hide FinReady;
    if Straddled(s.ooo, f) {
      var i :| 0 <= i < |s.ooo| && s.ooo[i].start < f < s.ooo[i].End();
      assert s.ooo[i].End() <= t.base + |t.stream|;
    }
    if Abutted(s.ooo, f) && !Tentative(s, f) {
      var i :| 0 <= i < |s.ooo| && s.ooo[i].start == f;
      assert LeftToFin(s, s.ooo[i].start, f);
    }
  }

  /** No segment straddles the marker when one starts there. */
  lemma NotBoth(ooo: seq<Segment>, f: nat)
    requires Sorted(ooo) && Abutted(ooo, f)
    ensures !Straddled(ooo, f)
  {
    var i :| 0 <= i < |ooo| && ooo[i].start == f;
    if j :| 0 <= j < |ooo| && ooo[j].start < f < ooo[j].End() {
      if i < j {
        assert ooo[i].End() <= ooo[j].start;
      } else {
        assert ooo[j].End() <= ooo[i].start;
      }
    }
  }

  lemma TentativePasses(s: State, t: State)
    requires Evolves(s, t) && !s.finConsumed && t.finConsumed && t.pendingFin.Some? && Tentative(s, t.pendingFin.value)
    ensures Passes(t)
  {
  }

  /** A call that closes the half passes the marker exactly if a buffered segment lies
      over it, or starts at it while it is tentative. */
  lemma ClosingPasses(x: Run, y: Run, from: nat, f: nat)
    requires Ready(x.s) && !x.s.finConsumed && x.s.pendingFin == Some(f) && Advances(x, y, from) && y.s.finConsumed
    requires FinReady(x.s) ==> !Abutted(x.s.ooo, f)
    ensures y.s.pendingFin == Some(f)
    ensures Passes(y.s) <==> CutAt(x.s, f)
  {
    Parts(x, y, from);
    CoreNext(x.s);
    CoreOf(x.s);
    CoreOf(y.s);
    CoreFacts(x.s);
    ClosedReaches(y.s);
    AdvancesFate(x, y, from);
    HistoryKept(x, y, from);
    hide Ready, Core, Advances, Fate, Evolves, FinReady, Straddled, Abutted, Tentative, Passes, Sorted;
    FateDecides(x.s, y.s, f);
    if Abutted(x.s.ooo, f) { NotBoth(x.s.ooo, f); }
    if Tentative(x.s, f) { TentativePasses(x.s, y.s); }
    if Passes(y.s) { PassesNeedsByte(x.s, y.s, f); }
  }

  lemma AdvancesFate(x: Run, y: Run, from: nat)
    requires Advances(x, y, from)
    ensures Fate(x.s, y.s) && Evolves(x.s, y.s)
  {
  }

  // ---------- Insertion leaves the marker alone ----------

  lemma TurnCut(ooo: seq<Segment>, start: nat, data: seq<Byte>, ts: nat, cursor: nat, f: nat)
    requires start <= cursor < start + |data| <= f
    ensures Straddled(StoreAfter(ooo, start, data, ts, cursor), f) <==> Straddled(ooo, f)
    ensures Abutted(StoreAfter(ooo, start, data, ts, cursor), f) <==> Abutted(ooo, f)
  {
    hide CountUpTo;
    if InHole(ooo, cursor) {
      var n, end := CountUpTo(ooo, cursor), PieceEnd(ooo, start + |data|, cursor);
      SplicedCut(ooo, n, Segment(cursor, data[cursor - start..end - start], ts), f);
    }
  }

  lemma SplicedCut(ooo: seq<Segment>, n: nat, seg: Segment, f: nat)
    requires n <= |ooo| && seg.start < f && seg.End() <= f
    ensures Straddled(Spliced(ooo, n, seg), f) <==> Straddled(ooo, f)
    ensures Abutted(Spliced(ooo, n, seg), f) <==> Abutted(ooo, f)
  {
    var t := Spliced(ooo, n, seg);
    forall i | 0 <= i < |ooo|
      ensures ooo[i] in t
    {
      assert ooo[i] == if i < n then t[i] else t[i + 1];
    }
    forall i | 0 <= i < |t| && t[i] != seg
      ensures t[i] in ooo
    {
      assert t[i] == if i < n then ooo[i] else ooo[i - 1];
    }
    SameSegments(ooo, t, seg, f);
    SameSegments(t, ooo, seg, f);
  }

  lemma SameSegments(a: seq<Segment>, b: seq<Segment>, seg: Segment, f: nat)
    requires seg.start < f && seg.End() <= f && forall g | g in a && g != seg :: g in b
    ensures Straddled(a, f) ==> Straddled(b, f)
    ensures Abutted(a, f) ==> Abutted(b, f)
  {
    if Straddled(a, f) {
      var i :| 0 <= i < |a| && a[i].start < f < a[i].End();
      assert a[i] in a && a[i] in b;
      var j :| 0 <= j < |b| && b[j] == a[i];
    }
    if Abutted(a, f) {
      var i :| 0 <= i < |a| && a[i].start == f;
      assert a[i] in a && a[i] in b;
      var j :| 0 <= j < |b| && b[j] == a[i];
    }
  }

  lemma {:induction false} InsertCut(ooo: seq<Segment>, start: nat, data: seq<Byte>, ts: nat, cursor: nat, f: nat)
    requires start <= cursor && start + |data| <= f
    ensures var filed := InsertFrom(ooo, start, data, ts, cursor).ooo;
      (Straddled(filed, f) <==> Straddled(ooo, f)) && (Abutted(filed, f) <==> Abutted(ooo, f))
    decreases start + |data| - cursor
  {
    if cursor < start + |data| {
      hide StoreAfter, CursorAfter, InHole, PieceEnd, NextInWay, Straddled, Abutted;
      assert cursor < CursorAfter(ooo, start + |data|, cursor);
      TurnCut(ooo, start, data, ts, cursor, f);
      InsertCut(StoreAfter(ooo, start, data, ts, cursor), start, data, ts, CursorAfter(ooo, start + |data|, cursor), f);
    }
  }

  // ---------- Whole calls ----------

  /** A settled half has nothing buffered at a marker it has reached. */
  lemma SettledCut(s: State, f: nat)
    requires Settled(s) && !s.finConsumed && s.next >= f
    ensures !Abutted(s.ooo, f)
  {
    if Abutted(s.ooo, f) {
      FirstIsLowest(s.ooo);
    }
  }

  /** The last look at the FIN in a call. */
  lemma ConsumeAdvances(t: Run, from: nat)
    requires Ready(t.s) && Accounts(t, from) && AckSettled(t.s) && MarkerOpen(t.s)
    requires !t.s.finConsumed && t.s.ooo != [] ==> t.s.ooo[0].start > t.s.next
    ensures Advances(t, ConsumeFin(t), from)
  {
    ConsumeLast(t, from);
    var z := ConsumeFin(t);
    if t.s.finConsumed || z.s == t.s {
      Still(t, from);
    } else {
      FirstIsLowest(t.s.ooo);
    }
  }

  lemma LastSteps(x: Run, y: Run, gapTimeout: nat, ts: nat, from: nat)
    requires Advances(x, y, from) && AckSettled(y.s) && MarkerOpen(y.s)
    ensures Advances(x, ConsumeFin(RecoverTimeout(y, gapTimeout, ts)), from)
  {
    hide Ready, Accounts, Advances, RecoverTimeout, ConsumeFin;
    var t := RecoverTimeout(y, gapTimeout, ts);
    Parts(x, y, from);
    RecoverTimeoutAdvances(y, gapTimeout, ts, from);
    Parts(y, t, from);
    AckStaysSettled(y, t, from);
    MarkerStaysOpen(y, t, from);
    ConsumeAdvances(t, from);
    Chain(x, y, t, from);
    Chain(x, t, ConsumeFin(t), from);
  }

  /** Closing a flow. */
  lemma FinalizePasses(s: State, f: nat)
    requires Settled(s) && !s.finConsumed && Finalize(s).s.finConsumed && Finalize(s).s.pendingFin == Some(f)
    ensures Passes(Finalize(s).s) <==> Straddled(s.ooo, f) || Abutted(s.ooo, f)
  {
    var x := Run(s, NOTHING);
    var from := |s.stream|;
    NothingAccounts(s);
    DrainAdvances(x, from);
    var z := Drain(x);
    DrainedSettles(x, z, from);
    Parts(x, z, from);
    hide Advances, Drain, Straddled, Abutted, Accounts, Core, Buffered;
    ClosingPasses(x, z, from, f);
  }

  /** A cumulative ACK. */
  lemma AcknowledgePasses(s: State, ack: nat, ts: nat, gapTimeout: nat, f: nat)
    requires Settled(s) && !s.finConsumed
    requires var t := Acknowledge(s, ack, ts, gapTimeout).s; t.finConsumed && t.pendingFin == Some(f)
    ensures Passes(Acknowledge(s, ack, ts, gapTimeout).s) <==> Straddled(s.ooo, f) || (Abutted(s.ooo, f) && ack <= f)
  {
    var x := Run(Acked(s, ack), NOTHING);
    var from := |s.stream|;
    AckedReady(s, ack);
    AckedKeeps(s, ack);
    NothingAccounts(x.s);
    AckedTentative(s, ack);
    if s.next >= f { SettledCut(s, f); }
    hide Ready, Accounts, Core, Advances, Evolves, Reports, RecoverAck, RecoverTimeout, ConsumeFin, Buffered, Settled, Acked, Straddled, Abutted, Tentative;
    var y := RecoverAck(x);
    RecoverAckAdvances(x, from);
    RecoverAckSettles(x, from);
    RecoverAckOpens(x, from);
    LastSteps(x, y, gapTimeout, ts, from);
    var z := ConsumeFin(RecoverTimeout(y, gapTimeout, ts));
    Parts(x, z, from);
    ClosingPasses(x, z, from, f);
  }

  lemma AckedTentative(s: State, ack: nat)
    requires Settled(s) && !s.finConsumed
    ensures s.pendingFin.Some? ==> (Tentative(Acked(s, ack), s.pendingFin.value) <==> ack <= s.pendingFin.value)
  {
  }

  /** Whether a segment's FIN is in sequence. */
  predicate InSequence(s: State, start: nat, fin: bool, data: seq<Byte>) {
    fin && start <= s.next <= start + |data|
  }

  lemma NotedTentative(s: State, start: nat, fin: bool, data: seq<Byte>)
    requires Settled(s) && !s.finConsumed
    ensures var n := Noted(s, start, fin, data);
      && n == s.(pendingFin := n.pendingFin, finNeedsAck := n.finNeedsAck)
      && (n.pendingFin.Some? ==>
            && start + |data| <= n.pendingFin.value && s.next <= n.pendingFin.value
            && (n.finNeedsAck <==> !InSequence(s, start, fin, data)))
    ensures s.ooo != [] ==> forall f | f >= s.next :: !AckPast(s.peerAck, f)
  {
  }

  /** Payload that does not take the slow path closes at the marker. */
  lemma FastPasses(s: State, start: nat, fin: bool, ts: nat, data: seq<Byte>,
                   maxOoo: nat, maxSegments: nat, gapTimeout: nat, f: nat)
    requires Settled(s) && !s.finConsumed && s.ooo == []
    requires var t := Accept(s, start, fin, ts, data, maxOoo, maxSegments, gapTimeout).s; t.finConsumed && t.pendingFin == Some(f)
    ensures !Passes(Accept(s, start, fin, ts, data, maxOoo, maxSegments, gapTimeout).s)
  {
    var t := Accept(s, start, fin, ts, data, maxOoo, maxSegments, gapTimeout).s;
    AcceptSettles(s, start, fin, ts, data, maxOoo, maxSegments, gapTimeout);
    NotedTentative(s, start, fin, data);
    SettledReady(s);
    SettledReady(t);
    assert t.history(f) == Recorded(s.history, start, data, s.next, f);
    hide Accept, Settled, Ready, Core, Noted, Passes, Accounts;
    if Passes(t) { PassesNeedsByte(s, t, f); }
  }

  lemma SettledReady(s: State)
    requires Settled(s)
    ensures Ready(s) && Core(s)
  {
  }

  /** The run just after the payload is filed, from which the rest of the call goes on. */
  lemma Filed(s: State, start: nat, fin: bool, ts: nat, data: seq<Byte>, maxOoo: nat, maxSegments: nat, f: nat)
    returns (i: Run)
    requires Settled(s) && !s.finConsumed && s.ooo != [] && Noted(s, start, fin, data).pendingFin == Some(f)
    ensures var h := Heard(Noted(s, start, fin, data), start, data);
      Ready(i.s) && i.s == h.(ooo := i.s.ooo, oooBytes := i.s.oooBytes)
    ensures (Straddled(i.s.ooo, f) <==> Straddled(s.ooo, f)) && (Abutted(i.s.ooo, f) <==> Abutted(s.ooo, f))
    ensures Advances(i, Payload(Run(Noted(s, start, fin, data), NOTHING), start, ts, data, maxOoo, maxSegments), |s.stream|)
  {
    hide Settled, Noted, Ready, Core, Accounts, Advances, Straddled, Abutted, Heard, Payload, AckSettled, MarkFin, ClipAtFin;
    var n := Noted(s, start, fin, data);
    var x := Run(n, NOTHING);
    NotedSettled(s, start, fin, data);
    NotedTentative(s, start, fin, data);
    CoreOf(n);
    NothingAccounts(n);
    i := FiledBehind(x, start, ts, data, maxOoo, maxSegments, |s.stream|, f);
  }

  lemma FiledBehind(x: Run, start: nat, ts: nat, data: seq<Byte>, maxOoo: nat, maxSegments: nat, from: nat, f: nat)
    returns (i: Run)
    requires Ready(x.s) && !x.s.finConsumed && Accounts(x, from) && x.s.ooo != []
    requires start + |data| <= f && x.s.next <= f
    ensures Ready(i.s) && i.s == Heard(x.s, start, data).(ooo := i.s.ooo, oooBytes := i.s.oooBytes)
    ensures (Straddled(i.s.ooo, f) <==> Straddled(x.s.ooo, f)) && (Abutted(i.s.ooo, f) <==> Abutted(x.s.ooo, f))
    ensures Advances(i, Payload(x, start, ts, data, maxOoo, maxSegments), from)
  {
    hide Ready, Core, Accounts, Advances, Straddled, Abutted, Received, Evolves, InsertFrom, Payload;
    if data == [] || start + |data| <= x.s.next {
      PayloadOld(x, start, ts, data, maxOoo, maxSegments, from);
      i := Payload(x, start, ts, data, maxOoo, maxSegments);
      ReceivedReady(x, i, start, data, from);
      Still(i, from);
    } else {
      i := FiledThenRecovered(x, start, ts, data, maxOoo, maxSegments, from);
      var at := Max(start, x.s.next);
      InsertCut(x.s.ooo, at, data[at - start..], ts, at, f);
    }
  }

  lemma ReceivedReady(x: Run, y: Run, start: nat, data: seq<Byte>, from: nat)
    requires Received(x, y, start, data, from)
    ensures Ready(y.s) && Accounts(y, from)
  {
  }

  /** A segment that makes the half close: the delivered stream passes the marker exactly
      if a segment buffered before straddles it, or starts at it and the segment's own FIN
      is not in sequence. */
  lemma AcceptPasses(s: State, start: nat, fin: bool, ts: nat, data: seq<Byte>,
                     maxOoo: nat, maxSegments: nat, gapTimeout: nat, f: nat)
    requires Settled(s) && !s.finConsumed
    requires var t := Accept(s, start, fin, ts, data, maxOoo, maxSegments, gapTimeout).s; t.finConsumed && t.pendingFin == Some(f)
    ensures Passes(Accept(s, start, fin, ts, data, maxOoo, maxSegments, gapTimeout).s)
      <==> Straddled(s.ooo, f) || (Abutted(s.ooo, f) && !InSequence(s, start, fin, data))
  {
    if s.ooo == [] {
      FastPasses(s, start, fin, ts, data, maxOoo, maxSegments, gapTimeout, f);
    } else {
      var n := Noted(s, start, fin, data);
      AcceptSettles(s, start, fin, ts, data, maxOoo, maxSegments, gapTimeout);
      AcceptUnfolds(s, start, fin, ts, data, maxOoo, maxSegments, gapTimeout);
      EvolvesAck(Heard(n, start, data), Accept(s, start, fin, ts, data, maxOoo, maxSegments, gapTimeout).s);
      NotedTentative(s, start, fin, data);
      if s.next >= f { SettledCut(s, f); }
      hide Accept, Settled, Noted, Ready, Core, Accounts, Advances, Straddled, Abutted, Evolves, Passes, Payload, AfterPayload, RecoverAck, RecoverTimeout, ConsumeFin;
      var i := Filed(s, start, fin, ts, data, maxOoo, maxSegments, f);
      var y := AfterPayload(s, start, fin, ts, data, maxOoo, maxSegments);
      AfterPayloadOpens(s, start, fin, ts, data, maxOoo, maxSegments);
      ToAfterPayload(s, start, fin, ts, data, maxOoo, maxSegments, i);
      LastSteps(i, y, gapTimeout, ts, |s.stream|);
      ClosingPasses(i, ConsumeFin(RecoverTimeout(y, gapTimeout, ts)), |s.stream|, f);
    }
  }

  lemma ToAfterPayload(s: State, start: nat, fin: bool, ts: nat, data: seq<Byte>, maxOoo: nat, maxSegments: nat, i: Run)
    requires Settled(s) && !s.finConsumed
    requires Advances(i, Payload(Run(Noted(s, start, fin, data), NOTHING), start, ts, data, maxOoo, maxSegments), |s.stream|)
    ensures Advances(i, AfterPayload(s, start, fin, ts, data, maxOoo, maxSegments), |s.stream|)
  {
    hide Settled, Noted, Ready, Accounts, Advances, Payload, RecoverAck;
    var p := Payload(Run(Noted(s, start, fin, data), NOTHING), start, ts, data, maxOoo, maxSegments);
    Parts(i, p, |s.stream|);
    RecoverAckAdvances(p, |s.stream|);
    Chain(i, p, RecoverAck(p), |s.stream|);
  }
}
