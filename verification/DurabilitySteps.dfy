/** Every step keeps the invariant. */
module DurabilitySteps {
  import opened Basics
  import opened Durability
  import opened DurabilityInvariant

  // ---------- Files that grow ----------

  /** Files only gain records at their end. */
  ghost predicate Grows(files: Files, files': Files) {
    forall seg | seg in files :: seg in files' && files[seg].recs <= files'[seg].recs
  }

  lemma TrueRowGrows(files: Files, files': Files, e: Event)
    requires Grows(files, files') && TrueRow(files, e)
    ensures TrueRow(files', e)
  {
  }

  lemma RowsTrueGrows(files: Files, files': Files, t: Store)
    requires RowsTrue(files, t) && Grows(files, files')
    ensures RowsTrue(files', t)
  {
    hide TrueRow, Grows;
    forall e | e in t.ch
      ensures TrueRow(files', e)
    {
      TrueRowGrows(files, files', e);
    }
    forall k, e | k in t.spool && e in t.spool[k]
      ensures TrueRow(files', e)
    {
      TrueRowGrows(files, files', e);
    }
  }

  lemma QueueTrueGrows(files: Files, files': Files, q: Queue)
    requires QueueTrue(files, q) && Grows(files, files')
    ensures QueueTrue(files', q)
  {
    hide TrueRow, Grows;
    forall i | q.taken <= i < |q.log| && q.log[i].Ev?
      ensures TrueRow(files', q.log[i].e)
    {
      TrueRowGrows(files, files', q.log[i].e);
    }
  }

  // ---------- The queue's log grows ----------

  lemma SentStored(t: Store, q: Queue, c: Command)
    requires SequencesOk(q) && StoredOk(t, q)
    ensures SequencesOk(Sent(q, c)) && StoredOk(t, Sent(q, c))
  {
    hide Projected;
    var q' := Sent(q, c);
    assert forall i | 0 <= i < q.taken :: q'.log[i] == q.log[i];
  }

  lemma TakenAsLater(q: Queue, q': Queue, e: Event, k: nat)
    requires TakenAs(q, e, k) && q.taken <= q'.taken && q.log <= q'.log && q.seqOf <= q'.seqOf
    ensures TakenAs(q', e, k)
  {
    var i :| 0 <= i < q.taken && i < |q.log| && i < |q.seqOf| && q.log[i] == Ev(e) && q.seqOf[i] == k;
    assert q'.log[i] == Ev(e) && q'.seqOf[i] == k;
  }

  lemma OriginLater(spool: Spool, q: Queue, q': Queue)
    requires OriginOk(spool, q) && q.taken <= q'.taken && q.log <= q'.log && q.seqOf <= q'.seqOf && q'.base == q.base
    ensures OriginOk(spool, q')
  {
    hide TakenAs;
    forall k, e | k in spool && k >= q'.base && e in spool[k]
      ensures TakenAs(q', e, k)
    {
      TakenAsLater(q, q', e, k);
    }
  }

  lemma SentBeforeGrows(log: seq<Command>, c: Command, upTo: nat, upTo': nat, e: Event)
    requires SentBefore(log, upTo, e) && upTo <= upTo'
    ensures SentBefore(log + [c], upTo', e)
  {
    var i :| 0 <= i < upTo && i < |log| && log[i] == Ev(e);
    assert (log + [c])[i] == Ev(e);
  }

  lemma CoversSent(active: nat, all: seq<nat>, pending: seq<Row>, log: seq<Command>, c: Command)
    requires Covers(active, all, pending, log)
    ensures Covers(active, all, pending, log + [c])
  {
    hide SentBefore;
    forall pos: nat | pos < |all|
      ensures Row(active, pos, all[pos]) in pending || SentBefore(log + [c], |log| + 1, RowAt(all, active, pos))
    {
      if Row(active, pos, all[pos]) !in pending {
        SentBeforeGrows(log, c, |log|, |log| + 1, RowAt(all, active, pos));
      }
    }
  }

  lemma AllSentGrows(active: nat, recs: seq<nat>, log: seq<Command>, c: Command, barrier: nat)
    requires AllSent(active, recs, log, barrier)
    ensures AllSent(active, recs, log + [c], barrier)
  {
    hide SentBefore;
    forall pos: nat | pos < |recs|
      ensures SentBefore(log + [c], barrier, RowAt(recs, active, pos))
    {
      SentBeforeGrows(log, c, barrier, barrier, RowAt(recs, active, pos));
    }
  }

  lemma PhaseSent(files: Files, active: nat, w: Writer, log: seq<Command>, c: Command)
    requires PhaseOk(files, active, w, log)
    ensures PhaseOk(files, active, w, log + [c])
  {
    hide AllSent;
    if w.phase.Await? {
      AllSentGrows(active, files[active].recs, log, c, w.phase.barrier);
    }
  }

  lemma RetentionSent(files: Files, active: nat, t: Store, q: Queue, p: Projector, r: Retention, c: Command)
    requires RetentionOk(files, active, t, q, p, r) && (c.Ev? ==> !PointsInto(c.e, files.Keys - {active}))
    ensures RetentionOk(files, active, t, Sent(q, c), p, r)
  {
  }

  /** Sending a command that names nothing but the active segment. */
  lemma SendMemory(files: Files, active: nat, t: Store, m: Memory, c: Command)
    requires MemoryOk(files, active, t, m)
    requires c.Ev? ==> TrueRow(files, c.e) && !PointsInto(c.e, files.Keys - {active})
    ensures MemoryOk(files, active, t, m.(q := Sent(m.q, c)))
  {
    SentStored(t, m.q, c);
    OriginLater(t.spool, m.q, Sent(m.q, c));
    CoversSent(active, files[active].recs + m.w.buffer, m.w.pending, m.q.log, c);
    PhaseSent(files, active, m.w, m.q.log, c);
    RetentionSent(files, active, t, m.q, m.p, m.r, c);
    hide TrueRow, Covers, PhaseOk, SequencesOk, StoredOk, OriginOk, RetentionOk, InsertedOk, Contiguous, PointsInto;
  }

  // ---------- The writer ----------

  lemma AppendCovers(active: nat, recs: seq<nat>, w: Writer, ts: nat, log: seq<Command>)
    requires Covers(active, recs + w.buffer, w.pending, log)
    ensures Covers(active, recs + (w.buffer + [ts]), w.pending + [Row(active, |recs| + |w.buffer|, ts)], log)
  {
    hide SentBefore;
    var all, all' := recs + w.buffer, recs + (w.buffer + [ts]);
    assert all' == all + [ts];
    var row := Row(active, |recs| + |w.buffer|, ts);
    var pending' := w.pending + [row];
    assert pending'[|w.pending|] == row;
    forall pos: nat | pos < |all'|
      ensures Row(active, pos, all'[pos]) in pending' || SentBefore(log, |log|, RowAt(all', active, pos))
    {
      if pos < |all| {
        assert RowAt(all', active, pos) == RowAt(all, active, pos);
        assert Row(active, pos, all[pos]) in w.pending || SentBefore(log, |log|, RowAt(all, active, pos));
      }
    }
  }

  lemma AppendMemory(files: Files, active: nat, t: Store, m: Memory, ts: nat)
    requires MemoryOk(files, active, t, m) && m.w.phase.Idle? && active in files
    ensures MemoryOk(files, active, t, m.(w := m.w.(buffer := m.w.buffer + [ts],
              pending := m.w.pending + [Row(active, |files[active].recs| + |m.w.buffer|, ts)])))
  {
    hide QueueTrue, CountersOk, Covers, SequencesOk, StoredOk, OriginOk, RetentionOk, InsertedOk;
    AppendCovers(active, files[active].recs, m.w, ts, m.q.log);
  }

  lemma SpillDisk(d: Disk, buffer: seq<nat>, n: nat)
    requires DiskOk(d) && d.active in d.files && n <= |buffer|
    ensures DiskOk(d.(files := Spilled(d.files, d.active, buffer, n)))
  {
    hide Indexed, SpoolOk, RowsTrue;
    RowsTrueGrows(d.files, Spilled(d.files, d.active, buffer, n), d.store);
  }

  lemma SpillRetention(files: Files, active: nat, t: Store, q: Queue, p: Projector, r: Retention, buffer: seq<nat>, n: nat)
    requires RetentionOk(files, active, t, q, p, r) && active in files && n <= |buffer|
    ensures RetentionOk(Spilled(files, active, buffer, n), active, t, q, p, r)
  {
    hide QuietAfter, Unnamed, Answered;
  }

  lemma SpillMemory(files: Files, active: nat, t: Store, m: Memory, n: nat)
    requires MemoryOk(files, active, t, m) && active in files && n <= |m.w.buffer|
    ensures MemoryOk(Spilled(files, active, m.w.buffer, n), active, t, m.(w := m.w.(buffer := m.w.buffer[n..])))
  {
    hide QueueTrue, CountersOk, Covers, SequencesOk, StoredOk, OriginOk, RetentionOk, InsertedOk, AllSent;
    var files' := Spilled(files, active, m.w.buffer, n);
    QueueTrueGrows(files, files', m.q);
    SpillRetention(files, active, t, m.q, m.p, m.r, m.w.buffer, n);
    assert files'[active].recs + m.w.buffer[n..] == files[active].recs + m.w.buffer;
    if m.w.buffer == [] {
      assert files'[active].recs == files[active].recs;
    }
  }

  lemma FlushMemory(files: Files, active: nat, t: Store, m: Memory, why: Reason)
    requires MemoryOk(files, active, t, m) && active in files && m.w.phase.Idle?
    ensures MemoryOk(Spilled(files, active, m.w.buffer, |m.w.buffer|), active, t,
                     m.(w := m.w.(buffer := [], phase := Publishing(why))))
  {
    SpillMemory(files, active, t, m, |m.w.buffer|);
    hide QueueTrue, CountersOk, Covers, SequencesOk, StoredOk, OriginOk, RetentionOk, InsertedOk, AllSent;
    assert m.w.buffer[|m.w.buffer|..] == [];
  }

  lemma PublishCovers(active: nat, all: seq<nat>, pending: seq<Row>, log: seq<Command>)
    requires Covers(active, all, pending, log) && pending != []
    ensures Covers(active, all, pending[1..], log + [Ev(Index(pending[0]))])
  {
    CoversSent(active, all, pending, log, Ev(Index(pending[0])));
    var log' := log + [Ev(Index(pending[0]))];
    assert log'[|log|] == Ev(Index(pending[0]));
    assert SentBefore(log', |log'|, Index(pending[0]));
    hide SentBefore;
    assert forall r | r in pending :: r == pending[0] || r in pending[1..];
  }

  lemma PublishMemory(files: Files, active: nat, t: Store, m: Memory)
    requires MemoryOk(files, active, t, m) && m.w.phase.Publishing? && m.w.pending != []
    ensures MemoryOk(files, active, t, m.(w := m.w.(pending := m.w.pending[1..]), q := Sent(m.q, Ev(Index(m.w.pending[0])))))
  {
    var c := Ev(Index(m.w.pending[0]));
    var all := files[active].recs + m.w.buffer;
    assert all == files[active].recs;
    assert m.w.pending[0] in m.w.pending;
    SendMemory(files, active, t, m, c);
    PublishCovers(active, all, m.w.pending, m.q.log);
    hide QueueTrue, CountersOk, Covers, SequencesOk, StoredOk, OriginOk, RetentionOk, InsertedOk, AllSent;
  }

  lemma DoneMemory(files: Files, active: nat, t: Store, m: Memory)
    requires MemoryOk(files, active, t, m) && m.w.phase.Publishing? && m.w.pending == [] && !m.w.phase.why.Visible?
    ensures MemoryOk(files, active, t, m.(w := m.w.(phase := Await(|m.q.log|, m.w.phase.why)), q := Sent(m.q, DurableBarrier)))
  {
    SendMemory(files, active, t, m, DurableBarrier);
    assert files[active].recs + m.w.buffer == files[active].recs;
    AllSentAtBarrier(active, files[active].recs, m.q.log);
    hide QueueTrue, CountersOk, Covers, SequencesOk, StoredOk, OriginOk, RetentionOk, InsertedOk, AllSent;
  }

  lemma AllSentAtBarrier(active: nat, recs: seq<nat>, log: seq<Command>)
    requires Covers(active, recs, [], log)
    ensures AllSent(active, recs, log + [DurableBarrier], |log|)
  {
    hide SentBefore;
    forall pos: nat | pos < |recs|
      ensures SentBefore(log + [DurableBarrier], |log|, RowAt(recs, active, pos))
    {
      SentBeforeGrows(log, DurableBarrier, |log|, |log|, RowAt(recs, active, pos));
    }
  }

  /** The heart of crash consistency: a segment stops being the newest only after the
      durable barrier has seen all its rows into the spool. */
  lemma RotateIndexes(files: Files, active: nat, t: Store, w: Writer, q: Queue, projected: nat)
    requires PhaseOk(files, active, w, q.log) && StoredOk(t, q) && w.phase.Await? && Answered(q, projected, w.phase.barrier)
    ensures active in files && files[active].header && Indexed(files[active].recs, active, t)
  {
    hide Kept;
    var recs := files[active].recs;
    forall pos: nat | pos < |recs|
      ensures Kept(t, RowAt(recs, active, pos))
    {
      assert SentBefore(q.log, w.phase.barrier, RowAt(recs, active, pos));
      var i :| 0 <= i < w.phase.barrier && i < |q.log| && q.log[i] == Ev(RowAt(recs, active, pos));
      DurableMeans(t, q, projected, w.phase.barrier, i);
    }
  }

  lemma RotateDisk(d: Disk, m: Memory)
    requires DiskOk(d) && d.marker && m.w.phase.Await? && Answered(m.q, m.p.projected, m.w.phase.barrier)
    requires PhaseOk(d.files, d.active, m.w, m.q.log) && StoredOk(d.store, m.q)
    ensures DiskOk(d.(files := d.files[d.active + 1 := SegFile(false, [])], active := d.active + 1))
  {
    RotateIndexes(d.files, d.active, d.store, m.w, m.q, m.p.projected);
    hide Indexed, SpoolOk, RowsTrue, PhaseOk, StoredOk, Answered;
    RowsTrueGrows(d.files, d.files[d.active + 1 := SegFile(false, [])], d.store);
  }

  lemma RotateRetention(files: Files, active: nat, t: Store, q: Queue, p: Projector, r: Retention, seal: bool)
    requires RetentionOk(files, active, t, q, p, r) && FilesOk(files, active)
    ensures RetentionOk(files[active + 1 := SegFile(false, [])], active + 1, t, q, p,
                        if seal && r.Sealing? then Sealed(r.cutoff, files.Keys) else r)
  {
    hide QuietAfter, Unnamed, Answered;
  }

  lemma RotateMemory(files: Files, active: nat, t: Store, m: Memory)
    requires MemoryOk(files, active, t, m) && FilesOk(files, active) && m.w.phase.Await?
    ensures MemoryOk(files[active + 1 := SegFile(false, [])], active + 1, t,
                     m.(w := m.w.(phase := Idle),
                        r := if m.w.phase.reason.Seal? && m.r.Sealing? then Sealed(m.r.cutoff, files.Keys) else m.r))
  {
    hide QueueTrue, CountersOk, SequencesOk, StoredOk, OriginOk, RetentionOk, InsertedOk, AllSent;
    QueueTrueGrows(files, files[active + 1 := SegFile(false, [])], m.q);
    RotateRetention(files, active, t, m.q, m.p, m.r, m.w.phase.reason.Seal?);
  }

  /** All steps of the writer thread. */
  lemma WriterKeeps(d: Disk, m: Memory, a: Action, s': State)
    requires Inv(State(d, Some(m))) && WriterStep(d, m, a, s')
    ensures Inv(s')
  {
    hide DiskOk, MemoryOk, Answered;
    match a
    case Append(ts) => AppendMemory(d.files, d.active, d.store, m, ts);
    case Spill(n) =>
      SpillDisk(d, m.w.buffer, n);
      SpillMemory(d.files, d.active, d.store, m, n);
    case Flush(why) =>
      SpillDisk(d, m.w.buffer, |m.w.buffer|);
      FlushMemory(d.files, d.active, d.store, m, why);
    case PublishOne => PublishMemory(d.files, d.active, d.store, m);
    case PublishDone =>
      if m.w.phase.why.Visible? {
        PhaseMemory(d.files, d.active, d.store, m, Idle);
      } else {
        DoneMemory(d.files, d.active, d.store, m);
      }
    case Rotate =>
      MemoryParts(d.files, d.active, d.store, m);
      DiskParts(d);
      RotateDisk(d, m);
      RotateMemory(d.files, d.active, d.store, m);
    case WriterStops => PhaseMemory(d.files, d.active, d.store, m, Dead);
    case _ =>
  }

  lemma PhaseMemory(files: Files, active: nat, t: Store, m: Memory, phase: Phase)
    requires MemoryOk(files, active, t, m) && (phase.Idle? || phase.Dead?)
    ensures MemoryOk(files, active, t, m.(w := m.w.(phase := phase)))
  {
    hide QueueTrue, CountersOk, Covers, SequencesOk, StoredOk, OriginOk, RetentionOk, InsertedOk, AllSent;
  }

  lemma MemoryParts(files: Files, active: nat, t: Store, m: Memory)
    requires MemoryOk(files, active, t, m)
    ensures PhaseOk(files, active, m.w, m.q.log) && StoredOk(t, m.q) && SequencesOk(m.q)
    ensures CountersOk(t.spool, m.q, m.p) && OriginOk(t.spool, m.q) && QueueTrue(files, m.q) && InsertedOk(t, m.p)
    ensures WriterOk(files, active, m.w, m.q.log) && RetentionOk(files, active, t, m.q, m.p, m.r)
  {
    hide QueueTrue, CountersOk, WriterOk, PhaseOk, SequencesOk, StoredOk, OriginOk, RetentionOk, InsertedOk;
  }

  lemma DiskParts(d: Disk)
    requires DiskOk(d)
    ensures FilesOk(d.files, d.active) && RowsTrue(d.files, d.store) && SpoolOk(d.store.spool)
    ensures d.marker ==> OthersIndexed(d.files, d.active, d.store)
  {
    hide FilesOk, RowsTrue, OthersIndexed, SpoolOk;
  }

  // ---------- The metadata loop ----------

  lemma BatchTrue(files: Files, t: Store, q: Queue, n: nat, barrier: bool)
    requires QueueTrue(files, q) && RowsTrue(files, t) && CanTake(q, n, barrier)
    ensures RowsTrue(files, t.(spool := TakenSpool(t.spool, q, n)))
  {
    hide TrueRow;
    var spool' := TakenSpool(t.spool, q, n);
    forall k, e | k in spool' && e in spool'[k]
      ensures TrueRow(files, e)
    {
      if n > 0 && k == q.last + 1 {
        var i :| 0 <= i < n && e == BatchOf(q, n)[i];
      } else {
        assert k in t.spool && e in t.spool[k];
      }
    }
  }

  lemma KeptGrows(t: Store, q: Queue, n: nat, e: Event)
    requires (CanTake(q, n, false) || CanTake(q, n, true)) && q.last + 1 !in t.spool && Kept(t, e)
    ensures Kept(t.(spool := TakenSpool(t.spool, q, n)), e)
  {
    if !Projected(t, e) {
      var k :| k in t.spool && e in t.spool[k];
      assert k in TakenSpool(t.spool, q, n);
    }
  }

  lemma TakeDisk(d: Disk, q: Queue, p: Projector, n: nat, barrier: bool)
    requires DiskOk(d) && QueueTrue(d.files, q) && CanTake(q, n, barrier) && CountersOk(d.store.spool, q, p)
    ensures DiskOk(d.(store := d.store.(spool := TakenSpool(d.store.spool, q, n))))
  {
    hide TrueRow, Kept;
    var t' := d.store.(spool := TakenSpool(d.store.spool, q, n));
    BatchTrue(d.files, d.store, q, n, barrier);
    if d.marker {
      forall seg | seg in d.files && seg != d.active
        ensures Indexed(d.files[seg].recs, seg, t')
      {
        IndexedGrows(d.files[seg].recs, seg, d.store, q, n);
      }
    }
    assert Contiguous(t'.spool, Lo(p), Hi(q) + if n > 0 then 1 else 0);
  }

  lemma IndexedGrows(recs: seq<nat>, seg: nat, t: Store, q: Queue, n: nat)
    requires Indexed(recs, seg, t) && (CanTake(q, n, false) || CanTake(q, n, true)) && q.last + 1 !in t.spool
    ensures Indexed(recs, seg, t.(spool := TakenSpool(t.spool, q, n)))
  {
    hide Kept;
    forall pos: nat | pos < |recs|
      ensures Kept(t.(spool := TakenSpool(t.spool, q, n)), RowAt(recs, seg, pos))
    {
      KeptGrows(t, q, n, RowAt(recs, seg, pos));
    }
  }

  /** `q'` has taken `n` events, stored under one new sequence, and maybe a barrier. */
  ghost predicate TookBatch(q: Queue, q': Queue, n: nat, count: nat) {
    && q'.log == q.log && q'.base == q.base && n <= count <= n + 1 && q.taken + count <= |q.log|
    && q'.taken == q.taken + count
    && q'.seqOf == q.seqOf + Repeated(if n > 0 then q.last + 1 else q.last, count)
    && (forall i | q.taken <= i < q.taken + n :: q.log[i].Ev?)
    && (n < count ==> !q.log[q.taken + n].Ev?)
    && Hi(q') == Hi(q) + if n > 0 then 1 else 0
  }

  lemma TookStored(t: Store, q: Queue, q': Queue, n: nat, count: nat, barrier: bool)
    requires CanTake(q, n, barrier) && TookBatch(q, q', n, count) && StoredOk(t, q) && SequencesOk(q)
    requires q.last + 1 !in t.spool && Hi(q) == q.last + 1 && q.base <= q.last + 1
    ensures StoredOk(t.(spool := TakenSpool(t.spool, q, n)), q') && SequencesOk(q')
  {
    var t' := t.(spool := TakenSpool(t.spool, q, n));
    forall i | 0 <= i < q'.taken && q'.log[i].Ev?
      ensures (q'.seqOf[i] in t'.spool && q'.log[i].e in t'.spool[q'.seqOf[i]]) || Projected(t', q'.log[i].e)
    {
      if i >= q.taken {
        assert q'.log[i].e == BatchOf(q, n)[i - q.taken];
      }
    }
  }

  lemma TookOrigin(spool: Spool, q: Queue, q': Queue, n: nat, count: nat, barrier: bool)
    requires CanTake(q, n, barrier) && TookBatch(q, q', n, count) && OriginOk(spool, q) && |q.seqOf| == q.taken
    ensures OriginOk(TakenSpool(spool, q, n), q')
  {
    var spool' := TakenSpool(spool, q, n);
    forall k, e | k in spool' && k >= q'.base && e in spool'[k]
      ensures TakenAs(q', e, k)
    {
      if n > 0 && k == q.last + 1 {
        var j :| 0 <= j < n && e == BatchOf(q, n)[j];
        assert q'.log[q.taken + j] == Ev(e) && q'.seqOf[q.taken + j] == k;
      } else {
        assert q.seqOf <= q'.seqOf;
        TakenAsLater(q, q', e, k);
      }
    }
  }

  lemma TookRetention(files: Files, active: nat, t: Store, q: Queue, q': Queue, n: nat, count: nat, p: Projector, r: Retention, t': Store)
    requires RetentionOk(files, active, t, q, p, r) && TookBatch(q, q', n, count) && |q.seqOf| == q.taken
    requires t'.ch == t.ch && t'.purged == t.purged
    ensures RetentionOk(files, active, t', q', p, r)
  {
    hide Closed, QuietAfter, Unnamed;
  }

  lemma TookCounters(spool: Spool, q: Queue, q': Queue, n: nat, count: nat, p: Projector)
    requires CountersOk(spool, q, p) && (CanTake(q, n, false) || CanTake(q, n, true)) && TookBatch(q, q', n, count)
    requires q'.durableMax == q'.last >= q.last && (q'.alive ==> !q'.orphan)
    ensures CountersOk(TakenSpool(spool, q, n), q', p) && q.last + 1 !in spool && Hi(q) == q.last + 1
  {
  }

  lemma TookInserted(t: Store, q: Queue, n: nat, p: Projector)
    requires InsertedOk(t, p) && (CanTake(q, n, false) || CanTake(q, n, true)) && q.last + 1 !in t.spool
    requires p.inserted ==> p.next in t.spool
    ensures InsertedOk(t.(spool := TakenSpool(t.spool, q, n)), p)
  {
  }

  lemma TookMemory(files: Files, active: nat, t: Store, m: Memory, q': Queue, n: nat, count: nat, barrier: bool)
    requires MemoryOk(files, active, t, m) && CanTake(m.q, n, barrier) && TookBatch(m.q, q', n, count)
    requires q'.durableMax == q'.last >= m.q.last && (q'.alive ==> !q'.orphan)
    ensures MemoryOk(files, active, t.(spool := TakenSpool(t.spool, m.q, n)), m.(q := q'))
  {
    hide TrueRow, Covers, AllSent, RetentionOk, InsertedOk, StoredOk, OriginOk, SequencesOk, TakenSpool, BatchOf;
    SequencesLength(m.q);
    TookCounters(t.spool, m.q, q', n, count, m.p);
    TookStored(t, m.q, q', n, count, barrier);
    TookOrigin(t.spool, m.q, q', n, count, barrier);
    TookInserted(t, m.q, n, m.p);
    TookRetention(files, active, t, m.q, q', n, count, m.p, m.r, t.(spool := TakenSpool(t.spool, m.q, n)));
  }

  lemma SequencesLength(q: Queue)
    requires SequencesOk(q)
    ensures |q.seqOf| == q.taken
  {
  }

  lemma AliveMemory(files: Files, active: nat, t: Store, m: Memory)
    requires MemoryOk(files, active, t, m)
    ensures MemoryOk(files, active, t, m.(q := m.q.(alive := false)))
  {
    hide TrueRow, Covers, AllSent, InsertedOk, Projected, QuietAfter, Closed, Unnamed;
    OriginLater(t.spool, m.q, m.q.(alive := false));
    hide OriginOk;
  }

  /** All steps of the queue's producers and of the metadata loop. */
  lemma QueueKeeps(d: Disk, m: Memory, a: Action, s': State)
    requires Inv(State(d, Some(m))) && QueueStep(d, m, a, s')
    ensures Inv(s')
  {
    MemoryParts(d.files, d.active, d.store, m);
    hide DiskOk, MemoryOk, TakenSpool, QueueTrue, CountersOk;
    match a
    case Send(e) => SendMemory(d.files, d.active, d.store, m, Ev(e));
    case TakeBatch(n, barrier) =>
      TakeDisk(d, m.q, m.p, n, barrier);
      CountersFacts(d.store.spool, m.q, m.p);
      TookMemory(d.files, d.active, d.store, m, TakenQueue(m.q, n, barrier), n, n + if barrier then 1 else 0, barrier);
    case MetadataStops(n, stored) =>
      if stored {
        TakeDisk(d, m.q, m.p, n, false);
        CountersFacts(d.store.spool, m.q, m.p);
        TookMemory(d.files, d.active, d.store, m, OrphanQueue(m.q, n), n, n, false);
      } else {
        AliveMemory(d.files, d.active, d.store, m);
      }
    case _ =>
  }

  lemma CountersFacts(spool: Spool, q: Queue, p: Projector)
    requires CountersOk(spool, q, p)
    ensures q.durableMax == q.last && (q.alive ==> !q.orphan)
  {
  }

  // ---------- The projector ----------

  /** More rows in ClickHouse, all of them of events in the spool. */
  ghost predicate Inserts(t: Store, t': Store) {
    && t'.spool == t.spool && t'.purged == t.purged && t'.deleted == t.deleted
    && (forall e | e in t.ch :: e in t'.ch)
    && (forall e | e in t'.ch :: e in t.ch || InSpool(t.spool, e))
  }

  lemma InsertDisk(d: Disk, t': Store)
    requires DiskOk(d) && Inserts(d.store, t')
    ensures DiskOk(d.(store := t'))
  {
    hide TrueRow, Contiguous;
    var t := d.store;
    forall e | e in t'.ch
      ensures TrueRow(d.files, e)
    {
      if e !in t.ch {
        var k :| k in t.spool && e in t.spool[k];
      }
    }
    if d.marker {
      forall seg | seg in d.files && seg != d.active
        ensures Indexed(d.files[seg].recs, seg, t')
      {
        IndexedLater(d.files[seg].recs, seg, t, t');
      }
    }
  }

  /** What is kept stays kept. */
  ghost predicate KeepsAll(t: Store, t': Store) {
    forall e | Kept(t, e) :: Kept(t', e)
  }

  lemma IndexedLater(recs: seq<nat>, seg: nat, t: Store, t': Store)
    requires Indexed(recs, seg, t) && (KeepsAll(t, t') || Inserts(t, t'))
    ensures Indexed(recs, seg, t')
  {
  }

  lemma InsertMemory(files: Files, active: nat, t: Store, m: Memory, t': Store)
    requires MemoryOk(files, active, t, m) && Inserts(t, t')
    ensures MemoryOk(files, active, t', m)
  {
    hide TrueRow, Covers, AllSent, OriginOk, SequencesOk, WriterOk, PhaseOk;
    if m.r.Purged? {
      InsertUnnamed(t, m.q, m.p, m.r.barrier, m.r.cands, t');
    }
    hide InSpool, CountersOk, QuietAfter, Closed, Answered, Unnamed, Inserts;
    InsertStored(t, m.q, m.p, t');
    InsertFields(t, t');
    hide StoredOk, InsertedOk;
  }

  lemma InsertFields(t: Store, t': Store)
    requires Inserts(t, t')
    ensures t'.spool == t.spool && t'.purged == t.purged
  {
  }

  lemma InsertUnnamed(t: Store, q: Queue, p: Projector, barrier: nat, cands: set<nat>, t': Store)
    requires SequencesOk(q) && CountersOk(t.spool, q, p) && OriginOk(t.spool, q)
    requires QuietAfter(q.log, barrier, cands) && Answered(q, p.projected, barrier)
    requires Inserts(t, t') && Unnamed(t.ch, cands)
    ensures Unnamed(t'.ch, cands)
  {
    BarrierClears(t.spool, q, p, barrier, cands);
  }

  lemma InsertStored(t: Store, q: Queue, p: Projector, t': Store)
    requires StoredOk(t, q) && InsertedOk(t, p) && Inserts(t, t')
    ensures StoredOk(t', q) && InsertedOk(t', p)
  {
  }

  lemma MarkInserted(files: Files, active: nat, t: Store, m: Memory)
    requires MemoryOk(files, active, t, m) && m.p.alive && m.p.next in t.spool
    requires forall e | e in t.spool[m.p.next] :: e in t.ch
    ensures MemoryOk(files, active, t, m.(p := m.p.(inserted := true)))
  {
    hide TrueRow, WriterOk, PhaseOk, OriginOk, SequencesOk, StoredOk, QuietAfter, Closed, Unnamed, Contiguous;
  }

  /** A spool file is removed only when all its events have been projected. */
  ghost predicate Retires(t: Store, t': Store, k: nat) {
    && t' == t.(spool := t.spool - {k})
    && (k in t.spool ==> forall e | e in t.spool[k] :: Projected(t, e))
  }

  lemma RetireKeeps(t: Store, t': Store, k: nat)
    requires Retires(t, t', k)
    ensures KeepsAll(t, t')
  {
    forall e | Kept(t, e)
      ensures Kept(t', e)
    {
      if !Projected(t, e) {
        var j :| j in t.spool && e in t.spool[j];
        assert j in t'.spool;
      }
    }
  }

  lemma RetireDisk(d: Disk, t': Store, k: nat)
    requires DiskOk(d) && Retires(d.store, t', k) && SpoolOk(t'.spool)
    ensures DiskOk(d.(store := t'))
  {
    hide TrueRow, Kept;
    RetireKeeps(d.store, t', k);
    if d.marker {
      forall seg | seg in d.files && seg != d.active
        ensures Indexed(d.files[seg].recs, seg, t')
      {
        IndexedLater(d.files[seg].recs, seg, d.store, t');
      }
    }
  }

  lemma RetireStored(t: Store, q: Queue, t': Store, k: nat)
    requires StoredOk(t, q) && OriginOk(t.spool, q) && Retires(t, t', k)
    ensures StoredOk(t', q) && OriginOk(t'.spool, q)
  {
    hide TakenAs;
  }

  /** The projector has moved on past its next sequence. */
  ghost predicate PastNext(p: Projector, p': Projector) {
    && !p'.inserted && Lo(p') == p.next + 1 && p'.next == p'.projected + 1 && p.projected <= p'.projected
    && (p'.alive ==> !p'.removed)
  }

  lemma RetireMemory(files: Files, active: nat, t: Store, m: Memory, p': Projector)
    requires MemoryOk(files, active, t, m) && m.p.inserted && PastNext(m.p, p')
    ensures Retires(t, t.(spool := t.spool - {m.p.next}), m.p.next) && SpoolOk(t.spool - {m.p.next})
    ensures MemoryOk(files, active, t.(spool := t.spool - {m.p.next}), m.(p := p'))
  {
    hide TrueRow, WriterOk, PhaseOk, OriginOk, SequencesOk, StoredOk, QuietAfter, Closed, Unnamed, Projected;
    var t' := t.(spool := t.spool - {m.p.next});
    RetireStored(t, m.q, t', m.p.next);
    assert Contiguous(t'.spool, m.p.next + 1, Hi(m.q));
  }

  lemma StopMemory(files: Files, active: nat, t: Store, m: Memory)
    requires MemoryOk(files, active, t, m) && m.p.alive
    ensures MemoryOk(files, active, t, m.(p := m.p.(alive := false, inserted := false, removed := false)))
  {
    hide TrueRow, WriterOk, PhaseOk, OriginOk, SequencesOk, StoredOk, QuietAfter, Closed, Unnamed, Contiguous;
  }

  /** All steps of the projector. */
  lemma ProjectorKeeps(d: Disk, m: Memory, a: Action, s': State)
    requires Inv(State(d, Some(m))) && ProjectorStep(d, m, a, s')
    ensures Inv(s')
  {
    hide DiskOk, MemoryOk, Retires;
    var t := d.store;
    match a
    case InsertPart(some) =>
      InsertDisk(d, t.(ch := t.ch + some));
      InsertMemory(d.files, d.active, t, m, t.(ch := t.ch + some));
    case Insert =>
      var t' := t.(ch := t.ch + set e | e in t.spool[m.p.next]);
      InsertDisk(d, t');
      InsertMemory(d.files, d.active, t, m, t');
      MarkInserted(d.files, d.active, t', m);
    case Retire =>
      var p' := m.p.(inserted := false, projected := m.p.next, next := m.p.next + 1);
      CountersNext(d.files, d.active, t, m);
      RetireMemory(d.files, d.active, t, m, p');
      RetireDisk(d, t.(spool := t.spool - {m.p.next}), m.p.next);
    case ProjectorStops(removed) =>
      CountersNext(d.files, d.active, t, m);
      if removed {
        RetireMemory(d.files, d.active, t, m, m.p.(alive := false, inserted := false, removed := true));
        RetireDisk(d, t.(spool := t.spool - {m.p.next}), m.p.next);
      } else {
        StopMemory(d.files, d.active, t, m);
      }
    case _ =>
  }

  lemma CountersNext(files: Files, active: nat, t: Store, m: Memory)
    requires MemoryOk(files, active, t, m)
    ensures m.p.next == m.p.projected + 1 && (m.p.alive ==> !m.p.removed)
  {
    hide TrueRow, WriterOk, PhaseOk, OriginOk, SequencesOk, StoredOk, RetentionOk;
  }

  // ---------- Retention ----------

  lemma RetentionOnly(files: Files, active: nat, t: Store, m: Memory, r: Retention)
    requires MemoryOk(files, active, t, m) && RetentionOk(files, active, t, m.q, m.p, r)
    ensures MemoryOk(files, active, t, m.(r := r))
  {
    hide QueueTrue, CountersOk, WriterOk, PhaseOk, SequencesOk, StoredOk, OriginOk, RetentionOk, InsertedOk;
  }

  lemma ScanRetention(files: Files, active: nat, t: Store, q: Queue, p: Projector, r: Retention)
    requires RetentionOk(files, active, t, q, p, r) && r.Sealed?
    ensures RetentionOk(files, active, t, q, p, Candidates(r.cutoff, CandidateSet(files, r.snapshot, r.cutoff)))
  {
  }

  lemma BarRetention(files: Files, active: nat, t: Store, q: Queue, p: Projector, r: Retention)
    requires RetentionOk(files, active, t, q, p, r) && r.Candidates?
    ensures RetentionOk(files, active, t, Sent(q, ProjectedBarrier), p, Barred(r.cutoff, r.cands, |q.log|))
  {
  }

  /** Rows leave ClickHouse and are remembered as deleted. */
  ghost predicate Purges(t: Store, t': Store, cutoff: nat) {
    && t'.spool == t.spool && t'.purged == Max(t.purged, cutoff)
    && (forall e | e in t'.ch :: e in t.ch)
    && (forall e | e in t.deleted :: e in t'.deleted)
    && (forall e | e in t.ch && e !in t'.ch :: e in t'.deleted)
  }

  lemma PurgeDisk(d: Disk, t': Store, cutoff: nat)
    requires DiskOk(d) && Purges(d.store, t', cutoff)
    ensures DiskOk(d.(store := t')) && KeepsAll(d.store, t')
  {
    hide TrueRow, Contiguous, InSpool;
    if d.marker {
      forall seg | seg in d.files && seg != d.active
        ensures Indexed(d.files[seg].recs, seg, t')
      {
        IndexedLater(d.files[seg].recs, seg, d.store, t');
      }
    }
  }

  lemma PurgeStored(t: Store, q: Queue, p: Projector, t': Store, cutoff: nat)
    requires StoredOk(t, q) && InsertedOk(t, p) && Purges(t, t', cutoff)
    ensures StoredOk(t', q) && InsertedOk(t', p)
  {
  }

  /** Deleting all old rows leaves none that points into the candidates. */
  lemma PurgeUnnamed(files: Files, active: nat, t: Store, t': Store, cands: set<nat>, cutoff: nat)
    requires RowsTrue(files, t) && Closed(files, active, cands, cutoff)
    requires forall e | e in t'.ch :: e in t.ch && e.Ts() >= cutoff
    ensures Unnamed(t'.ch, cands)
  {
    forall e | e in t'.ch
      ensures !PointsInto(e, cands)
    {
      assert TrueRow(files, e);
    }
  }

  lemma PurgeMemory(files: Files, active: nat, t: Store, m: Memory, t': Store, complete: bool)
    requires MemoryOk(files, active, t, m) && RowsTrue(files, t)
    requires m.r.Barred? && Answered(m.q, m.p.projected, m.r.barrier) && Purges(t, t', m.r.cutoff)
    requires complete ==> forall e | e in t'.ch :: e in t.ch && e.Ts() >= m.r.cutoff
    ensures MemoryOk(files, active, t',
                     m.(r := if complete then Purged(m.r.cutoff, m.r.cands, m.r.barrier) else NoRetention))
  {
    hide TrueRow, WriterOk, PhaseOk, OriginOk, SequencesOk, QuietAfter, Closed, Unnamed, RowsTrue, Answered;
    PurgeStored(t, m.q, m.p, t', m.r.cutoff);
    if complete {
      PurgeUnnamed(files, active, t, t', m.r.cands, m.r.cutoff);
    }
    hide StoredOk, InsertedOk, CountersOk;
  }

  /** A deleted file is named by no row in the queue, the spool or ClickHouse, and held
      only records older than the cutoff. */
  lemma DeleteIsSafe(d: Disk, m: Memory, seg: nat)
    requires Inv(State(d, Some(m))) && m.r.Purged? && seg in m.r.cands
    ensures seg in d.files && seg != d.active && m.r.cutoff <= d.store.purged
    ensures forall i | 0 <= i < |d.files[seg].recs| :: d.files[seg].recs[i] < m.r.cutoff
    ensures forall e | e in d.store.ch :: !PointsInto(e, {seg})
    ensures forall k, e | k in d.store.spool && e in d.store.spool[k] :: !PointsInto(e, {seg})
    ensures forall i | m.q.taken <= i < |m.q.log| && m.q.log[i].Ev? :: !PointsInto(m.q.log[i].e, {seg})
    ensures forall r | r in m.w.pending :: r.seg != seg
  {
    MemoryParts(d.files, d.active, d.store, m);
    BarrierClears(d.store.spool, m.q, m.p, m.r.barrier, m.r.cands);
    hide MemoryOk, DiskOk, QueueTrue, CountersOk, PhaseOk, SequencesOk, StoredOk, OriginOk, InsertedOk, Answered, QuietAfter;
  }

  lemma WithoutTrue(files: Files, seg: nat, e: Event)
    requires TrueRow(files, e) && !PointsInto(e, {seg})
    ensures TrueRow(files - {seg}, e)
  {
  }

  lemma DeleteDisk(d: Disk, m: Memory, seg: nat)
    requires Inv(State(d, Some(m))) && m.r.Purged? && seg in m.r.cands
    ensures DiskOk(d.(files := d.files - {seg})) && QueueTrue(d.files - {seg}, m.q)
  {
    DeleteIsSafe(d, m, seg);
    MemoryParts(d.files, d.active, d.store, m);
    hide TrueRow, MemoryOk, PointsInto, Indexed, SpoolOk;
    var t := d.store;
    forall e | e in t.ch
      ensures TrueRow(d.files - {seg}, e)
    {
      WithoutTrue(d.files, seg, e);
    }
    forall k, e | k in t.spool && e in t.spool[k]
      ensures TrueRow(d.files - {seg}, e)
    {
      WithoutTrue(d.files, seg, e);
    }
    forall i | m.q.taken <= i < |m.q.log| && m.q.log[i].Ev?
      ensures TrueRow(d.files - {seg}, m.q.log[i].e)
    {
      WithoutTrue(d.files, seg, m.q.log[i].e);
    }
  }

  lemma DeleteMemory(files: Files, active: nat, t: Store, m: Memory, seg: nat)
    requires MemoryOk(files, active, t, m) && QueueTrue(files - {seg}, m.q) && m.r.Purged? && seg in m.r.cands
    ensures MemoryOk(files - {seg}, active, t, m.(r := m.r.(cands := m.r.cands - {seg})))
  {
    hide QueueTrue, CountersOk, Covers, AllSent, SequencesOk, StoredOk, OriginOk, InsertedOk, Answered;
    var files' := files - {seg};
    assert active in files' && files'[active] == files[active];
  }

  /** All steps of retention. */
  lemma RetentionKeeps(d: Disk, m: Memory, a: Action, s': State)
    requires Inv(State(d, Some(m))) && RetentionStep(d, m, a, s')
    ensures Inv(s')
  {
    MemoryParts(d.files, d.active, d.store, m);
    hide DiskOk, MemoryOk, QueueTrue, CountersOk, WriterOk, PhaseOk, SequencesOk, StoredOk, OriginOk, InsertedOk, Answered;
    var t := d.store;
    match a
    case BeginRetention(cutoff) => RetentionOnly(d.files, d.active, t, m, Sealing(cutoff));
    case ScanSealed =>
      ScanRetention(d.files, d.active, t, m.q, m.p, m.r);
      RetentionOnly(d.files, d.active, t, m, Candidates(m.r.cutoff, CandidateSet(d.files, m.r.snapshot, m.r.cutoff)));
    case SendBarrier =>
      SendMemory(d.files, d.active, t, m, ProjectedBarrier);
      BarRetention(d.files, d.active, t, m.q, m.p, m.r);
      RetentionOnly(d.files, d.active, t, m.(q := Sent(m.q, ProjectedBarrier)), Barred(m.r.cutoff, m.r.cands, |m.q.log|));
    case Purge(gone, complete) =>
      DiskParts(d);
      hide RowsTrue, SpoolOk;
      var t' := t.(ch := t.ch - gone, deleted := t.deleted + gone, purged := Max(t.purged, m.r.cutoff));
      PurgeDisk(d, t', m.r.cutoff);
      PurgeMemory(d.files, d.active, t, m, t', complete);
    case DeleteFile(seg) =>
      DeleteDisk(d, m, seg);
      DeleteMemory(d.files, d.active, t, m, seg);
    case EndRetention => RetentionOnly(d.files, d.active, t, m, NoRetention);
    case _ =>
  }

  // ---------- Crash and restart ----------

  lemma RecoveredTrue(files: Files, active: nat, e: Event)
    requires FilesOk(files, active)
    ensures TrueRow(Recovered(files, active), e) <==> TrueRow(files, e)
  {
  }

  lemma {:induction false} ExtendedHas(spool: Spool, last: nat, chunks: seq<seq<Event>>, k: nat)
    requires forall j | j in spool :: j <= last
    ensures k in Extended(spool, last, chunks) <==> k in spool || last < k <= last + |chunks|
    ensures k in spool ==> Extended(spool, last, chunks)[k] == spool[k]
    ensures last < k <= last + |chunks| ==> Extended(spool, last, chunks)[k] == chunks[k - last - 1]
  {
    if chunks != [] {
      ExtendedHas(spool, last, chunks[..|chunks| - 1], k);
    }
  }

  lemma StartContiguous(spool: Spool, first: nat, last: nat)
    requires SpoolOk(spool) && StartSequences(spool, first, last)
    ensures 1 <= first && Contiguous(spool, first, last + 1)
  {
    var lo: nat, hi: nat :| 1 <= lo && Contiguous(spool, lo, hi);
    if spool != map[] {
      assert lo in spool && hi - 1 in spool;
    }
  }

  lemma ExtendedContiguous(spool: Spool, first: nat, last: nat, chunks: seq<seq<Event>>)
    requires Contiguous(spool, first, last + 1)
    ensures Contiguous(Extended(spool, last, chunks), first, last + |chunks| + 1)
  {
    hide Extended;
    forall k: nat
      ensures k in Extended(spool, last, chunks) <==> first <= k < last + |chunks| + 1
    {
      ExtendedHas(spool, last, chunks, k);
    }
  }

  /** Startup neither loses a kept event nor a chunk of rebuilt rows. */
  lemma ExtendedKeeps(t: Store, last: nat, chunks: seq<seq<Event>>, e: Event)
    requires forall j | j in t.spool :: j <= last
    requires Kept(t, e) || exists i :: 0 <= i < |chunks| && e in chunks[i]
    ensures Kept(t.(spool := Extended(t.spool, last, chunks)), e)
  {
    hide Extended;
    if !Projected(t, e) {
      if InSpool(t.spool, e) {
        var k :| k in t.spool && e in t.spool[k];
        ExtendedHas(t.spool, last, chunks, k);
      } else {
        var i :| 0 <= i < |chunks| && e in chunks[i];
        ExtendedHas(t.spool, last, chunks, last + 1 + i);
        assert last + 1 + i in Extended(t.spool, last, chunks);
      }
    }
  }

  lemma ExtendedTrue(d: Disk, last: nat, chunks: seq<seq<Event>>)
    requires FilesOk(d.files, d.active) && RowsTrue(d.files, d.store) && ChunksAre(d, chunks)
    requires forall j | j in d.store.spool :: j <= last
    ensures RowsTrue(Recovered(d.files, d.active), d.store.(spool := Extended(d.store.spool, last, chunks)))
  {
    hide Extended, TrueRow, Recovered;
    var t := d.store;
    var spool' := Extended(t.spool, last, chunks);
    forall e | e in t.ch
      ensures TrueRow(Recovered(d.files, d.active), e)
    {
      RecoveredTrue(d.files, d.active, e);
    }
    forall k, e | k in spool' && e in spool'[k]
      ensures TrueRow(Recovered(d.files, d.active), e)
    {
      ExtendedHas(t.spool, last, chunks, k);
      RecoveredTrue(d.files, d.active, e);
      if k !in t.spool {
        assert e in chunks[k - last - 1];
        assert Rebuilds(d, e);
      }
    }
  }

  lemma RecoveredFiles(files: Files, active: nat)
    requires FilesOk(files, active)
    ensures var files' := Recovered(files, active);
      && FilesOk(files', active)
      && (forall seg | seg in files' :: seg in files && files'[seg] == files[seg] && files'[seg].header && seg <= active)
  {
  }

  /** Recovery re-indexes exactly what the crash may have left unindexed. */
  lemma RestartIndexes(d: Disk, last: nat, chunks: seq<seq<Event>>, seg: nat)
    requires FilesOk(d.files, d.active) && (d.marker ==> OthersIndexed(d.files, d.active, d.store))
    requires ChunksAre(d, chunks) && (forall j | j in d.store.spool :: j <= last)
    requires seg in Recovered(d.files, d.active)
    ensures seg in d.files && Recovered(d.files, d.active)[seg].recs == d.files[seg].recs
    ensures Indexed(d.files[seg].recs, seg, d.store.(spool := Extended(d.store.spool, last, chunks)))
  {
    hide Extended, Kept;
    RecoveredFiles(d.files, d.active);
    var recs := d.files[seg].recs;
    var t' := d.store.(spool := Extended(d.store.spool, last, chunks));
    forall pos: nat | pos < |recs|
      ensures Kept(t', RowAt(recs, seg, pos))
    {
      var e := RowAt(recs, seg, pos);
      if d.marker && seg != d.active {
        assert Indexed(recs, seg, d.store);
        assert Kept(d.store, e);
      } else {
        assert Rebuilds(d, e);
      }
      ExtendedKeeps(d.store, last, chunks, e);
    }
  }

  lemma RestartDisk(d: Disk, first: nat, last: nat, chunks: seq<seq<Event>>)
    requires FilesOk(d.files, d.active) && RowsTrue(d.files, d.store) && SpoolOk(d.store.spool)
    requires (d.marker ==> OthersIndexed(d.files, d.active, d.store))
    requires ChunksAre(d, chunks) && StartSequences(d.store.spool, first, last)
    ensures DiskOk(Started(d, first, last, chunks).disk)
  {
    hide Extended, TrueRow, Recovered, Indexed, ChunksAre;
    StartContiguous(d.store.spool, first, last);
    ExtendedContiguous(d.store.spool, first, last, chunks);
    ExtendedTrue(d, last, chunks);
    RecoveredFiles(d.files, d.active);
    var d' := Started(d, first, last, chunks).disk;
    var files := Recovered(d.files, d.active);
    RowsTrueGrows(files, d'.files, d'.store);
    forall seg | seg in d'.files && seg != d'.active
      ensures Indexed(d'.files[seg].recs, seg, d'.store)
    {
      RestartIndexes(d, last, chunks, seg);
    }
  }

  lemma RestartMemory(d: Disk, first: nat, last: nat, chunks: seq<seq<Event>>)
    requires SpoolOk(d.store.spool) && StartSequences(d.store.spool, first, last)
    ensures var s := Started(d, first, last, chunks);
      MemoryOk(s.disk.files, s.disk.active, s.disk.store, s.up.value)
  {
    hide Extended, Recovered;
    StartContiguous(d.store.spool, first, last);
    ExtendedContiguous(d.store.spool, first, last, chunks);
  }

  lemma RestartKeeps(s: State, chunks: seq<seq<Event>>, s': State)
    requires Inv(s) || Initial(s)
    requires Restarts(s, chunks, s')
    ensures Inv(s')
  {
    var d := s.disk;
    var first: nat, last: nat :| StartSequences(d.store.spool, first, last) && s' == Started(d, first, last, chunks);
    hide FilesOk, RowsTrue, OthersIndexed, SpoolOk, ChunksAre, MemoryOk, StartSequences;
    RestartDisk(d, first, last, chunks);
    RestartMemory(d, first, last, chunks);
  }

  /** Every step of every thread, a crash at any moment and a restart keep the invariant. */
  lemma StepKeeps(s: State, a: Action, s': State)
    requires Inv(s) && Step(s, a, s')
    ensures Inv(s')
  {
    hide DiskOk, MemoryOk, WriterStep, QueueStep, ProjectorStep, RetentionStep, Restarts;
    if a.Restart? {
      RestartKeeps(s, a.chunks, s');
    } else {
      var d, m := s.disk, s.up.value;
      assert s == State(d, Some(m));
      if WriterStep(d, m, a, s') {
        WriterKeeps(d, m, a, s');
      } else if QueueStep(d, m, a, s') {
        QueueKeeps(d, m, a, s');
      } else if ProjectorStep(d, m, a, s') {
        ProjectorKeeps(d, m, a, s');
      } else if RetentionStep(d, m, a, s') {
        RetentionKeeps(d, m, a, s');
      }
    }
  }
}
