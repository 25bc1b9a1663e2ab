/** The durability protocol as a transition system: segment writer, metadata queue,
    spool, projector, retention, process crash and restart. Every thread moves by its
    own small steps, in any order. */
module Durability {
  import opened Basics

  /** A content-index row: the record at position `pos` of segment `seg`. */
  datatype Row = Row(seg: nat, pos: nat, ts: nat)

  datatype Event = Index(row: Row) | Other(id: nat, time: nat) {
    function Ts(): nat {
      match this case Index(row) => row.ts case Other(_, time) => time
    }
  }

  datatype Command = Ev(e: Event) | DurableBarrier | ProjectedBarrier

  /** A segment file: the whole records that have reached it, by their time stamps. */
  datatype SegFile = SegFile(header: bool, recs: seq<nat>)

  type Files = map<nat, SegFile>
  type Spool = map<nat, seq<Event>>

  /** Spool files and ClickHouse rows. Only kept to state what holds: the rows retention
      really deleted, and the highest cutoff it deleted rows for. */
  datatype Store = Store(spool: Spool, ch: set<Event>, deleted: set<Event>, purged: nat)

  /** What survives a crash. `active` is the newest segment ever created. */
  datatype Disk = Disk(files: Files, active: nat, store: Store, marker: bool)

  datatype Reason = Visible | Full | Seal

  /** What the writer is in the middle of: publishing index rows, or waiting for the
      durable barrier at a position of the queue's log. */
  datatype Phase = Idle | Publishing(why: Reason) | Await(barrier: nat, reason: Reason) | Dead

  datatype Writer = Writer(buffer: seq<nat>, pending: seq<Row>, phase: Phase)

  /** The metadata queue is `log[taken..]`; `seqOf` remembers the spool sequence each
      taken command was stored under or waits for; `last` is the last sequence given
      out, `base` the first one this process gives out. `orphan` records that the loop
      died just after storing a batch it did not account for. */
  datatype Queue = Queue(log: seq<Command>, taken: nat, seqOf: seq<nat>, alive: bool, orphan: bool,
                         base: nat, last: nat, durableMax: nat)

  /** `removed` records that the loop died just after removing a file it did not account for. */
  datatype Projector = Projector(next: nat, projected: nat, inserted: bool, alive: bool, removed: bool)

  datatype Retention = NoRetention
                     | Sealing(cutoff: nat)
                     | Sealed(cutoff: nat, snapshot: set<nat>)
                     | Candidates(cutoff: nat, cands: set<nat>)
                     | Barred(cutoff: nat, cands: set<nat>, barrier: nat)
                     | Purged(cutoff: nat, cands: set<nat>, barrier: nat)

  /** What a crash loses. */
  datatype Memory = Memory(w: Writer, q: Queue, p: Projector, r: Retention)

  datatype State = State(disk: Disk, up: Option<Memory>)

  // ---------- Spool sequences ----------

  ghost predicate IsFirst(spool: Spool, k: nat) {
    k in spool && forall j | j in spool :: k <= j
  }

  ghost predicate IsLast(spool: Spool, k: nat) {
    k in spool && forall j | j in spool :: j <= k
  }

  ghost predicate Contiguous(spool: Spool, lo: nat, hi: nat) {
    lo <= hi && forall k: nat :: k in spool <==> lo <= k < hi
  }

  // ---------- Where events are ----------

  ghost predicate InSpool(spool: Spool, e: Event) {
    exists k :: k in spool && e in spool[k]
  }

  /** Projected into ClickHouse, unless retention deleted this very row since. */
  ghost predicate Projected(t: Store, e: Event) {
    e in t.ch || e in t.deleted
  }

  ghost predicate Kept(t: Store, e: Event) {
    InSpool(t.spool, e) || Projected(t, e)
  }

  /** An index row is true when the record it names is there. */
  ghost predicate TrueRow(files: Files, e: Event) {
    e.Index? ==> e.row.seg in files && e.row.pos < |files[e.row.seg].recs| && files[e.row.seg].recs[e.row.pos] == e.row.ts
  }

  predicate PointsInto(e: Event, segs: set<nat>) {
    e.Index? && e.row.seg in segs
  }

  function RowAt(recs: seq<nat>, seg: nat, pos: nat): Event
    requires pos < |recs|
  {
    Index(Row(seg, pos, recs[pos]))
  }

  // ---------- The steps ----------

  datatype Action =
    | Append(ts: nat)
    | Spill(n: nat)
    | Flush(why: Reason)
    | PublishOne
    | PublishDone
    | Rotate
    | WriterStops
    | Send(e: Event)
    | TakeBatch(n: nat, barrier: bool)
    | MetadataStops(n: nat, stored: bool)
    | InsertPart(some: set<Event>)
    | Insert
    | Retire
    | ProjectorStops(removed: bool)
    | BeginRetention(cutoff: nat)
    | ScanSealed
    | SendBarrier
    | Purge(gone: set<Event>, complete: bool)
    | DeleteFile(seg: nat)
    | EndRetention
    | Crash
    | Restart(chunks: seq<seq<Event>>)

  /** The first `n` buffered records reach the file. */
  function Spilled(files: Files, active: nat, buffer: seq<nat>, n: nat): Files
    requires active in files && n <= |buffer|
  {
    files[active := SegFile(true, files[active].recs + buffer[..n])]
  }

  predicate CanTake(q: Queue, n: nat, barrier: bool) {
    && q.alive
    && n <= 2048 && (n > 0 || barrier)
    && q.taken + n + (if barrier then 1 else 0) <= |q.log|
    && (forall i | q.taken <= i < q.taken + n :: q.log[i].Ev?)
    && (barrier ==> !q.log[q.taken + n].Ev?)
  }

  /** The events at the head of the queue that one batch takes. */
  function BatchOf(q: Queue, n: nat): (b: seq<Event>)
    requires q.taken + n <= |q.log| && forall i | q.taken <= i < q.taken + n :: q.log[i].Ev?
    ensures |b| == n && forall i | 0 <= i < n :: b[i] == q.log[q.taken + i].e
  {
    seq(n, i requires 0 <= i < n => q.log[q.taken + i].e)
  }

  function Repeated(x: nat, n: nat): (s: seq<nat>)
    ensures |s| == n && forall i | 0 <= i < n :: s[i] == x
  {
    seq(n, _ => x)
  }

  /** A batch is stored under the next sequence; a barrier behind it waits for that one. */
  function TakenSpool(spool: Spool, q: Queue, n: nat): Spool
    requires CanTake(q, n, false) || CanTake(q, n, true)
  {
    if n > 0 then spool[q.last + 1 := BatchOf(q, n)] else spool
  }

  function TakenQueue(q: Queue, n: nat, barrier: bool): Queue
    requires CanTake(q, n, barrier)
  {
    var count := n + if barrier then 1 else 0;
    var last := if n > 0 then q.last + 1 else q.last;
    q.(taken := q.taken + count, seqOf := q.seqOf + Repeated(last, count), last := last, durableMax := last)
  }

  /** The loop dies after the batch was stored but before anyone was told. */
  function OrphanQueue(q: Queue, n: nat): Queue
    requires CanTake(q, n, false)
  {
    q.(alive := false, orphan := true, taken := q.taken + n, seqOf := q.seqOf + Repeated(q.last + 1, n))
  }

  predicate Answered(q: Queue, projected: nat, barrier: nat) {
    && barrier < q.taken && barrier < |q.log| && barrier < |q.seqOf|
    && (q.log[barrier].ProjectedBarrier? ==> q.seqOf[barrier] <= projected)
  }

  function Sent(q: Queue, c: Command): Queue {
    q.(log := q.log + [c])
  }

  /** Closed segments that hold only records older than the cutoff, or none. */
  function CandidateSet(files: Files, snapshot: set<nat>, cutoff: nat): set<nat> {
    set seg | seg in snapshot && seg in files && forall i | 0 <= i < |files[seg].recs| :: files[seg].recs[i] < cutoff
  }

  // ---------- Restart ----------

  /** The newest segment loses its file if a crash left it without a whole header. */
  function Recovered(files: Files, active: nat): Files {
    if active in files && !files[active].header then files - {active} else files
  }

  /** The rows startup rebuilds: of the newest segment, or of all of them once. */
  ghost predicate Rebuilds(d: Disk, e: Event) {
    && e.Index?
    && TrueRow(Recovered(d.files, d.active), e)
    && (d.marker ==> e.row.seg == d.active)
  }

  ghost predicate ChunksAre(d: Disk, chunks: seq<seq<Event>>) {
    && (forall i, e | 0 <= i < |chunks| && e in chunks[i] :: Rebuilds(d, e))
    && (forall e | Rebuilds(d, e) :: exists i :: 0 <= i < |chunks| && e in chunks[i])
  }

  /** First and last sequence as startup derives them from the directory listing. */
  ghost predicate StartSequences(spool: Spool, first: nat, last: nat) {
    if spool == map[] then first == 1 && last == 0 else IsFirst(spool, first) && IsLast(spool, last)
  }

  /** `chunks` stored under the sequences after `last`. */
  function Extended(spool: Spool, last: nat, chunks: seq<seq<Event>>): Spool {
    if chunks == [] then spool
    else Extended(spool, last, chunks[..|chunks| - 1])[last + |chunks| := chunks[|chunks| - 1]]
  }

  function StartQueue(last: nat): Queue {
    Queue([], 0, [], true, false, last + 1, last, last)
  }

  function StartProjector(first: nat): Projector {
    Projector(first, if first > 0 then first - 1 else 0, false, true, false)
  }

  function Started(d: Disk, first: nat, last: nat, chunks: seq<seq<Event>>): State {
    State(Disk(Recovered(d.files, d.active)[d.active + 1 := SegFile(false, [])], d.active + 1,
               d.store.(spool := Extended(d.store.spool, last, chunks)), true),
          Some(Memory(Writer([], [], Idle), StartQueue(last + |chunks|), StartProjector(first), NoRetention)))
  }

  // ---------- One step ----------

  ghost predicate WriterStep(d: Disk, m: Memory, a: Action, s': State) {
    var w := m.w;
    match a
    case Append(ts) =>
      w.phase.Idle? && d.active in d.files
      && s' == State(d, Some(m.(w := w.(buffer := w.buffer + [ts],
                                        pending := w.pending + [Row(d.active, |d.files[d.active].recs| + |w.buffer|, ts)]))))
    case Spill(n) =>
      d.active in d.files && n <= |w.buffer|
      && s' == State(d.(files := Spilled(d.files, d.active, w.buffer, n)), Some(m.(w := w.(buffer := w.buffer[n..]))))
    case Flush(why) =>
      w.phase.Idle? && d.active in d.files
      && s' == State(d.(files := Spilled(d.files, d.active, w.buffer, |w.buffer|)),
                     Some(m.(w := w.(buffer := [], phase := Publishing(why)))))
    case PublishOne =>
      w.phase.Publishing? && w.pending != []
      && s' == State(d, Some(m.(w := w.(pending := w.pending[1..]), q := Sent(m.q, Ev(Index(w.pending[0]))))))
    case PublishDone =>
      w.phase.Publishing? && w.pending == []
      && s' == State(d, Some(if w.phase.why.Visible? then m.(w := w.(phase := Idle))
                             else m.(w := w.(phase := Await(|m.q.log|, w.phase.why)), q := Sent(m.q, DurableBarrier))))
    case Rotate =>
      w.phase.Await? && Answered(m.q, m.p.projected, w.phase.barrier)
      && s' == State(d.(files := d.files[d.active + 1 := SegFile(false, [])], active := d.active + 1),
                     Some(m.(w := w.(phase := Idle),
                             r := if w.phase.reason.Seal? && m.r.Sealing? then Sealed(m.r.cutoff, d.files.Keys) else m.r)))
    case WriterStops => s' == State(d, Some(m.(w := w.(phase := Dead))))
    case _ => false
  }

  ghost predicate QueueStep(d: Disk, m: Memory, a: Action, s': State) {
    var q := m.q;
    match a
    case Send(e) => e.Other? && s' == State(d, Some(m.(q := Sent(q, Ev(e)))))
    case TakeBatch(n, barrier) =>
      CanTake(q, n, barrier)
      && s' == State(d.(store := d.store.(spool := TakenSpool(d.store.spool, q, n))), Some(m.(q := TakenQueue(q, n, barrier))))
    case MetadataStops(n, stored) =>
      CanTake(q, n, false)
      && s' == if stored then State(d.(store := d.store.(spool := TakenSpool(d.store.spool, q, n))),
                                    Some(m.(q := OrphanQueue(q, n))))
               else State(d, Some(m.(q := q.(alive := false))))
    case _ => false
  }

  ghost predicate ProjectorStep(d: Disk, m: Memory, a: Action, s': State) {
    var p, t := m.p, d.store;
    match a
    case InsertPart(some) =>
      p.alive && !p.inserted && p.next <= m.q.durableMax && p.next in t.spool
      && (forall e | e in some :: e in t.spool[p.next])
      && s' == State(d.(store := t.(ch := t.ch + some)), Some(m))
    case Insert =>
      p.alive && !p.inserted && p.next <= m.q.durableMax && p.next in t.spool
      && s' == State(d.(store := t.(ch := t.ch + set e | e in t.spool[p.next])), Some(m.(p := p.(inserted := true))))
    case Retire =>
      p.alive && p.inserted
      && s' == State(d.(store := t.(spool := t.spool - {p.next})),
                     Some(m.(p := p.(inserted := false, projected := p.next, next := p.next + 1))))
    case ProjectorStops(removed) =>
      p.alive && (removed ==> p.inserted)
      && s' == State(if removed then d.(store := t.(spool := t.spool - {p.next})) else d,
                     Some(m.(p := p.(alive := false, inserted := false, removed := removed))))
    case _ => false
  }

  ghost predicate RetentionStep(d: Disk, m: Memory, a: Action, s': State) {
    var r, t := m.r, d.store;
    match a
    case BeginRetention(cutoff) => r.NoRetention? && s' == State(d, Some(m.(r := Sealing(cutoff))))
    case ScanSealed =>
      r.Sealed? && s' == State(d, Some(m.(r := Candidates(r.cutoff, CandidateSet(d.files, r.snapshot, r.cutoff)))))
    case SendBarrier =>
      r.Candidates?
      && s' == State(d, Some(m.(q := Sent(m.q, ProjectedBarrier), r := Barred(r.cutoff, r.cands, |m.q.log|))))
    case Purge(gone, complete) =>
      r.Barred? && Answered(m.q, m.p.projected, r.barrier)
      && (forall e | e in gone :: e in t.ch && e.Ts() < r.cutoff)
      && (complete ==> forall e | e in t.ch && e.Ts() < r.cutoff :: e in gone)
      && s' == State(d.(store := t.(ch := t.ch - gone, deleted := t.deleted + gone, purged := Max(t.purged, r.cutoff))),
                     Some(m.(r := if complete then Purged(r.cutoff, r.cands, r.barrier) else NoRetention)))
    case DeleteFile(seg) =>
      r.Purged? && seg in r.cands
      && s' == State(d.(files := d.files - {seg}), Some(m.(r := r.(cands := r.cands - {seg}))))
    case EndRetention => s' == State(d, Some(m.(r := NoRetention)))
    case _ => false
  }

  ghost predicate Restarts(s: State, chunks: seq<seq<Event>>, s': State) {
    s.up.None? && ChunksAre(s.disk, chunks)
    && exists first: nat, last: nat ::
         StartSequences(s.disk.store.spool, first, last) && s' == Started(s.disk, first, last, chunks)
  }

  ghost predicate Step(s: State, a: Action, s': State) {
    if a.Restart? then Restarts(s, a.chunks, s')
    else
      s.up.Some?
      && ((a.Crash? && s' == State(s.disk, None))
          || WriterStep(s.disk, s.up.value, a, s')
          || QueueStep(s.disk, s.up.value, a, s')
          || ProjectorStep(s.disk, s.up.value, a, s')
          || RetentionStep(s.disk, s.up.value, a, s'))
  }
}
