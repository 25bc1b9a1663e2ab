/** What every step of the durability protocol keeps, and what it means. */
module DurabilityInvariant {
  import opened Basics
  import opened Durability

  // ---------- On disk ----------

  ghost predicate FilesOk(files: Files, active: nat) {
    forall seg | seg in files ::
      seg <= active && (seg == active || files[seg].header) && (files[seg].header || files[seg].recs == [])
  }

  /** Every stored index row names a whole record that is there. */
  ghost predicate RowsTrue(files: Files, t: Store) {
    && (forall e | e in t.ch :: TrueRow(files, e))
    && (forall k, e | k in t.spool && e in t.spool[k] :: TrueRow(files, e))
  }

  /** Every record of a segment has its row. */
  ghost predicate Indexed(recs: seq<nat>, seg: nat, t: Store) {
    forall pos: nat | pos < |recs| :: Kept(t, RowAt(recs, seg, pos))
  }

  /** Crash consistency: all segments but the newest are indexed. */
  ghost predicate OthersIndexed(files: Files, active: nat, t: Store) {
    forall seg | seg in files && seg != active :: Indexed(files[seg].recs, seg, t)
  }

  ghost predicate SpoolOk(spool: Spool) {
    exists lo: nat, hi: nat :: 1 <= lo && Contiguous(spool, lo, hi)
  }

  ghost predicate DiskOk(d: Disk) {
    && FilesOk(d.files, d.active)
    && RowsTrue(d.files, d.store)
    && (d.marker ==> OthersIndexed(d.files, d.active, d.store))
    && SpoolOk(d.store.spool)
  }

  // ---------- In memory ----------

  ghost predicate SentBefore(log: seq<Command>, upTo: nat, e: Event) {
    exists i :: 0 <= i < upTo && i < |log| && log[i] == Ev(e)
  }

  ghost predicate QueueTrue(files: Files, q: Queue) {
    forall i | q.taken <= i < |q.log| && q.log[i].Ev? :: TrueRow(files, q.log[i].e)
  }

  /** Every record of the active segment has its row still pending or already sent. */
  ghost predicate Covers(active: nat, all: seq<nat>, pending: seq<Row>, log: seq<Command>) {
    && (forall r | r in pending :: r.seg == active && r.pos < |all| && all[r.pos] == r.ts)
    && (forall pos: nat | pos < |all| :: Row(active, pos, all[pos]) in pending || SentBefore(log, |log|, RowAt(all, active, pos)))
  }

  ghost predicate WriterOk(files: Files, active: nat, w: Writer, log: seq<Command>) {
    active in files && Covers(active, files[active].recs + w.buffer, w.pending, log)
  }

  ghost predicate AllSent(active: nat, recs: seq<nat>, log: seq<Command>, barrier: nat) {
    forall pos: nat | pos < |recs| :: SentBefore(log, barrier, RowAt(recs, active, pos))
  }

  ghost predicate PhaseOk(files: Files, active: nat, w: Writer, log: seq<Command>) {
    && (w.phase.Publishing? || w.phase.Await? ==> active in files && files[active].header && w.buffer == [])
    && (w.phase.Await? ==>
          && w.pending == []
          && w.phase.barrier < |log| && log[w.phase.barrier].DurableBarrier?
          && AllSent(active, files[active].recs, log, w.phase.barrier))
  }

  function Lo(p: Projector): nat {
    p.next + if p.removed then 1 else 0
  }

  function Hi(q: Queue): nat {
    q.last + 1 + if q.orphan then 1 else 0
  }

  /** The spool is exactly the sequences from the projector's next to the last given out. */
  ghost predicate CountersOk(spool: Spool, q: Queue, p: Projector) {
    && 1 <= Lo(p) && Contiguous(spool, Lo(p), Hi(q))
    && p.next == p.projected + 1 && q.durableMax == q.last && 1 <= q.base <= q.last + 1
    && (p.alive ==> !p.removed) && (q.alive ==> !q.orphan)
    && (p.inserted ==> p.alive && p.next in spool)
  }

  ghost predicate SequencesOk(q: Queue) {
    && |q.seqOf| == q.taken <= |q.log|
    && (forall i, j | 0 <= i < j < q.taken :: q.seqOf[i] <= q.seqOf[j])
    && (forall i | 0 <= i < q.taken :: q.base - 1 <= q.seqOf[i] < Hi(q))
  }

  /** A taken event is under its sequence in the spool, or past it. */
  ghost predicate StoredOk(t: Store, q: Queue) {
    |q.seqOf| == q.taken <= |q.log|
    && forall i | 0 <= i < q.taken && q.log[i].Ev? ::
         (q.seqOf[i] in t.spool && q.log[i].e in t.spool[q.seqOf[i]]) || Projected(t, q.log[i].e)
  }

  ghost predicate TakenAs(q: Queue, e: Event, k: nat) {
    exists i :: 0 <= i < q.taken && i < |q.log| && i < |q.seqOf| && q.log[i] == Ev(e) && q.seqOf[i] == k
  }

  /** What this process put in the spool came through the queue. */
  ghost predicate OriginOk(spool: Spool, q: Queue) {
    forall k, e | k in spool && k >= q.base && e in spool[k] :: TakenAs(q, e, k)
  }

  ghost predicate InsertedOk(t: Store, p: Projector) {
    p.inserted && p.next in t.spool ==> forall e | e in t.spool[p.next] :: Projected(t, e)
  }

  ghost predicate Closed(files: Files, active: nat, cands: set<nat>, cutoff: nat) {
    && active !in cands
    && (forall seg | seg in cands :: seg in files)
    && (forall seg, i | seg in cands && 0 <= i < |files[seg].recs| :: files[seg].recs[i] < cutoff)
  }

  /** Nothing sent after the barrier points into the candidates. */
  ghost predicate QuietAfter(log: seq<Command>, barrier: nat, cands: set<nat>) {
    barrier < |log| && log[barrier].ProjectedBarrier?
    && forall i | barrier < i < |log| && log[i].Ev? :: !PointsInto(log[i].e, cands)
  }

  ghost predicate Unnamed(events: set<Event>, cands: set<nat>) {
    forall e | e in events :: !PointsInto(e, cands)
  }

  ghost predicate RetentionOk(files: Files, active: nat, t: Store, q: Queue, p: Projector, r: Retention) {
    match r
    case NoRetention => true
    case Sealing(_) => true
    case Sealed(_, snapshot) => forall seg | seg in snapshot :: seg < active
    case Candidates(cutoff, cands) => Closed(files, active, cands, cutoff)
    case Barred(cutoff, cands, b) => Closed(files, active, cands, cutoff) && QuietAfter(q.log, b, cands)
    case Purged(cutoff, cands, b) =>
      && Closed(files, active, cands, cutoff) && QuietAfter(q.log, b, cands) && Answered(q, p.projected, b)
      && cutoff <= t.purged && Unnamed(t.ch, cands)
  }

  ghost predicate MemoryOk(files: Files, active: nat, t: Store, m: Memory) {
    && QueueTrue(files, m.q) && WriterOk(files, active, m.w, m.q.log) && PhaseOk(files, active, m.w, m.q.log)
    && CountersOk(t.spool, m.q, m.p) && SequencesOk(m.q) && StoredOk(t, m.q) && OriginOk(t.spool, m.q)
    && InsertedOk(t, m.p) && RetentionOk(files, active, t, m.q, m.p, m.r)
  }

  ghost predicate Inv(s: State) {
    && DiskOk(s.disk)
    && (s.up.Some? ==> s.disk.marker && MemoryOk(s.disk.files, s.disk.active, s.disk.store, s.up.value))
  }

  /** An installation never started with this protocol: any segments, any rows that name
      records, no recovery marker, nothing deleted. */
  ghost predicate Initial(s: State) {
    && s.up.None? && !s.disk.marker && s.disk.store.deleted == {} && s.disk.store.purged == 0
    && FilesOk(s.disk.files, s.disk.active) && RowsTrue(s.disk.files, s.disk.store) && SpoolOk(s.disk.store.spool)
  }

  // ---------- What the invariant means ----------

  /** Every event ahead of an answered durable barrier is kept. */
  lemma DurableMeans(t: Store, q: Queue, projected: nat, barrier: nat, i: nat)
    requires StoredOk(t, q) && Answered(q, projected, barrier) && i < barrier && q.log[i].Ev?
    ensures Kept(t, q.log[i].e)
  {
    hide Projected;
  }

  /** Every event ahead of an answered projected barrier is in ClickHouse, or was
      deleted from it by retention, and no spool file it could be in is left. */
  lemma ProjectedMeans(t: Store, q: Queue, p: Projector, barrier: nat, i: nat)
    requires StoredOk(t, q) && SequencesOk(q) && CountersOk(t.spool, q, p)
    requires Answered(q, p.projected, barrier) && q.log[barrier].ProjectedBarrier? && i < barrier && q.log[i].Ev?
    ensures Projected(t, q.log[i].e)
    ensures forall k | k in t.spool :: k > q.seqOf[barrier] >= q.seqOf[i]
  {
    hide Projected;
  }

  /** The projector never finds a committed sequence missing. */
  lemma ProjectorNeverMisses(spool: Spool, q: Queue, p: Projector)
    requires CountersOk(spool, q, p) && p.alive && p.next <= q.durableMax
    ensures p.next in spool
  {
  }

  /** Once the retention barrier is answered, no row in the queue or the spool points
      into the candidates any more. */
  lemma BarrierClears(spool: Spool, q: Queue, p: Projector, barrier: nat, cands: set<nat>)
    requires SequencesOk(q) && CountersOk(spool, q, p) && OriginOk(spool, q)
    requires QuietAfter(q.log, barrier, cands) && Answered(q, p.projected, barrier)
    ensures forall i | q.taken <= i < |q.log| && q.log[i].Ev? :: !PointsInto(q.log[i].e, cands)
    ensures forall k, e | k in spool && e in spool[k] :: !PointsInto(e, cands)
  {
    forall k, e | k in spool && e in spool[k]
      ensures !PointsInto(e, cands)
    {
      assert k > q.seqOf[barrier] >= q.base - 1;
      assert TakenAs(q, e, k);
      var i :| 0 <= i < q.taken && i < |q.log| && i < |q.seqOf| && q.log[i] == Ev(e) && q.seqOf[i] == k;
      assert i > barrier;
    }
  }
}
