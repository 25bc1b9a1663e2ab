/** Historical replay: dispatcher, workers, hit collector and metadata queue under every
    interleaving. A published checkpoint is a commit. Every queue is a log and a count
    of what its reader has taken, so a barrier is a position in a log. */
module ReplayCheckpoint {
  import opened Basics

  /** A hit with the segment whose record produced it. */
  datatype Tagged = Tagged(seg: nat, hit: nat)

  datatype Place = Place(seg: nat, pos: nat)

  datatype Work = Rec(place: Place) | WorkBarrier

  datatype HitItem = Hit(h: Tagged) | HitBarrier

  datatype Meta = Match(m: Tagged) | Foreign | MetaBarrier

  /** `outbox` holds the hits of the record just scanned that are not yet sent on. */
  datatype Worker = Worker(log: seq<Work>, taken: nat, outbox: seq<Tagged>)

  datatype Phase = Scanning(pos: nat) | Barring(sent: seq<nat>) | HitWait(p: nat) | MetaWait(b: nat) | Ended

  /** `start` is the checkpoint the run resumed from, `seg` the one it has published. */
  datatype Run = Run(start: nat, seg: nat, phase: Phase, workers: seq<Worker>,
                     hits: seq<HitItem>, hitsTaken: nat, held: seq<Tagged>,
                     meta: seq<Meta>, metaTaken: nat,
                     produced: set<Tagged>, scanned: set<Place>)

  /** `sizes` is the frozen segment list, `persisted` the checkpoint stored for the job. */
  datatype Job = Job(sizes: seq<nat>, persisted: nat, completed: bool, durable: set<Tagged>, up: Option<Run>)

  datatype Action =
    | Dispatch(w: nat)
    | SendBarrier
    | WorkersDone
    | HitsDone
    | Publish
    | Scan(w: nat, found: seq<nat>)
    | TakeBarrier(w: nat)
    | SendHit(w: nat)
    | Collect
    | Forward
    | SendForeign
    | Store(n: nat)
    | Persist(value: nat)
    | Complete
    | Stop
    | Crash
    | Resume(count: nat)

  function Tag(seg: nat, found: seq<nat>): (t: seq<Tagged>)
    ensures |t| == |found| && forall i | 0 <= i < |found| :: t[i] == Tagged(seg, found[i])
  {
    seq(|found|, i requires 0 <= i < |found| => Tagged(seg, found[i]))
  }

  function Idle(): Worker {
    Worker([], 0, [])
  }

  function Workers(count: nat): (ws: seq<Worker>)
    ensures |ws| == count && forall i | 0 <= i < count :: ws[i] == Idle()
  {
    seq(count, _ => Idle())
  }

  function Fresh(start: nat, count: nat): Run {
    Run(start, start, Scanning(0), Workers(count), [], 0, [], [], 0, {}, {})
  }

  /** The matches among the first `n` metadata commands not stored before. */
  function Stored(r: Run, n: nat): set<Tagged>
    requires n <= |r.meta|
  {
    set i | 0 <= i < n && r.meta[i].Match? :: r.meta[i].m
  }

  predicate Drained(w: Worker) {
    w.taken == |w.log| && w.outbox == []
  }

  // ---------- The steps ----------

  ghost predicate DispatcherStep(j: Job, r: Run, a: Action, j': Job) {
    match a
    case Dispatch(w) =>
      r.phase.Scanning? && r.seg < |j.sizes| && r.phase.pos < j.sizes[r.seg] && w < |r.workers|
      && j' == j.(up := Some(r.(phase := Scanning(r.phase.pos + 1),
           workers := r.workers[w := r.workers[w].(log := r.workers[w].log + [Rec(Place(r.seg, r.phase.pos))])])))
    case SendBarrier =>
      ((r.phase.Scanning? && r.seg < |j.sizes| && r.phase.pos == j.sizes[r.seg]) || r.phase.Barring?)
      && (var sent := if r.phase.Barring? then r.phase.sent else [];
          var w := |sent|;
          w < |r.workers|
          && j' == j.(up := Some(r.(phase := Barring(sent + [|r.workers[w].log|]),
               workers := r.workers[w := r.workers[w].(log := r.workers[w].log + [WorkBarrier])]))))
    case WorkersDone =>
      r.phase.Barring? && |r.phase.sent| == |r.workers|
      && (forall w | 0 <= w < |r.workers| :: r.phase.sent[w] < r.workers[w].taken)
      && j' == j.(up := Some(r.(phase := HitWait(|r.hits|), hits := r.hits + [HitBarrier])))
    case HitsDone =>
      r.phase.HitWait? && r.phase.p < r.hitsTaken
      && j' == j.(up := Some(r.(phase := MetaWait(|r.meta|), meta := r.meta + [MetaBarrier])))
    case Publish =>
      r.phase.MetaWait? && r.phase.b < r.metaTaken
      && j' == j.(up := Some(r.(phase := Scanning(0), seg := r.seg + 1)))
    case Persist(value) => j.persisted <= value <= r.seg && j' == j.(persisted := value)
    case Complete =>
      r.phase.Scanning? && r.seg >= |j.sizes|
      && j' == j.(persisted := r.seg, completed := true, up := Some(r.(phase := Ended)))
    case Stop => j' == j.(up := Some(r.(phase := Ended)))
    case _ => false
  }

  ghost predicate WorkerStep(j: Job, r: Run, a: Action, j': Job) {
    match a
    case Scan(w, found) =>
      w < |r.workers|
      && (var k := r.workers[w];
          k.outbox == [] && k.taken < |k.log| && k.log[k.taken].Rec?
          && (var place := k.log[k.taken].place;
              j' == j.(up := Some(r.(workers := r.workers[w := k.(taken := k.taken + 1, outbox := Tag(place.seg, found))],
                                     produced := r.produced + (set h | h in Tag(place.seg, found)),
                                     scanned := r.scanned + {place})))))
    case TakeBarrier(w) =>
      w < |r.workers|
      && (var k := r.workers[w];
          k.outbox == [] && k.taken < |k.log| && k.log[k.taken].WorkBarrier?
          && j' == j.(up := Some(r.(workers := r.workers[w := k.(taken := k.taken + 1)]))))
    case SendHit(w) =>
      w < |r.workers|
      && (var k := r.workers[w];
          k.outbox != []
          && j' == j.(up := Some(r.(workers := r.workers[w := k.(outbox := k.outbox[1..])], hits := r.hits + [Hit(k.outbox[0])]))))
    case _ => false
  }

  ghost predicate CollectorStep(j: Job, r: Run, a: Action, j': Job) {
    match a
    case Collect =>
      r.held == [] && r.hitsTaken < |r.hits|
      && j' == j.(up := Some(r.(hitsTaken := r.hitsTaken + 1,
                                held := if r.hits[r.hitsTaken].Hit? then [r.hits[r.hitsTaken].h] else [])))
    case Forward =>
      r.held != []
      && j' == j.(up := Some(r.(held := r.held[1..], meta := r.meta + [Match(r.held[0])])))
    case SendForeign => j' == j.(up := Some(r.(meta := r.meta + [Foreign])))
    case Store(n) =>
      r.metaTaken + n <= |r.meta|
      && j' == j.(durable := j.durable + Stored(r, r.metaTaken + n), up := Some(r.(metaTaken := r.metaTaken + n)))
    case _ => false
  }

  ghost predicate Step(j: Job, a: Action, j': Job) {
    if a.Resume? then
      j.up.None? && !j.completed && a.count > 0 && j' == j.(up := Some(Fresh(j.persisted, a.count)))
    else
      j.up.Some?
      && ((a.Crash? && j' == j.(up := None))
          || DispatcherStep(j, j.up.value, a, j')
          || WorkerStep(j, j.up.value, a, j')
          || CollectorStep(j, j.up.value, a, j'))
  }

  // ---------- The invariant ----------

  ghost predicate InOutbox(workers: seq<Worker>, h: Tagged) {
    exists w :: 0 <= w < |workers| && h in workers[w].outbox
  }

  /** Every hit ever produced is on its way: in an outbox, or sent to the collector. */
  ghost predicate ProducedOk(workers: seq<Worker>, hits: seq<HitItem>, produced: set<Tagged>) {
    forall h | h in produced :: InOutbox(workers, h) || Hit(h) in hits
  }

  ghost predicate CollectedOk(hits: seq<HitItem>, taken: nat, held: seq<Tagged>, meta: seq<Meta>) {
    && taken <= |hits|
    && forall i | 0 <= i < taken && hits[i].Hit? :: hits[i].h in held || Match(hits[i].h) in meta
  }

  ghost predicate StoredOk(meta: seq<Meta>, taken: nat, durable: set<Tagged>) {
    && taken <= |meta|
    && forall i | 0 <= i < taken && meta[i].Match? :: meta[i].m in durable
  }

  ghost predicate InLog(workers: seq<Worker>, place: Place) {
    exists w :: 0 <= w < |workers| && Rec(place) in workers[w].log
  }

  /** Every record of the segments from the resumption on was handed to some worker. */
  ghost predicate DispatchedOk(sizes: seq<nat>, start: nat, seg: nat, upTo: nat, workers: seq<Worker>) {
    && start <= seg
    && (forall g, pos: nat | start <= g < seg && g < |sizes| && pos < sizes[g] :: InLog(workers, Place(g, pos)))
    && (forall pos: nat | pos < upTo :: InLog(workers, Place(seg, pos)))
  }

  /** A worker scans what it takes, works on the current segment only, and answers a
      barrier only with all its hits sent. */
  ghost predicate WorkerOk(k: Worker, seg: nat, scanned: set<Place>) {
    && k.taken <= |k.log|
    && (forall i | 0 <= i < k.taken && k.log[i].Rec? :: k.log[i].place in scanned)
    && (forall i | k.taken <= i < |k.log| && k.log[i].Rec? :: k.log[i].place.seg == seg)
    && (k.taken > 0 && k.log[k.taken - 1].WorkBarrier? ==> k.outbox == [])
  }

  ghost predicate WorkersOk(workers: seq<Worker>, seg: nat, scanned: set<Place>) {
    forall w | 0 <= w < |workers| :: WorkerOk(workers[w], seg, scanned)
  }

  ghost predicate AllDrained(workers: seq<Worker>) {
    forall w | 0 <= w < |workers| :: Drained(workers[w])
  }

  ghost predicate BarriersLast(workers: seq<Worker>, sent: seq<nat>) {
    && |sent| <= |workers|
    && forall w | 0 <= w < |sent| ::
         |workers[w].log| == sent[w] + 1 && workers[w].log[sent[w]].WorkBarrier?
  }

  /** Whatever was produced for published segments is durable. */
  ghost predicate PublishedOk(produced: set<Tagged>, seg: nat, durable: set<Tagged>) {
    forall h | h in produced && h.seg < seg :: h in durable
  }

  ghost predicate TagsOk(produced: set<Tagged>, seg: nat) {
    forall h | h in produced :: h.seg <= seg
  }

  ghost predicate AllMatched(produced: set<Tagged>, meta: seq<Meta>, upTo: nat) {
    upTo <= |meta| && forall h | h in produced :: Match(h) in meta[..upTo]
  }

  function SentUpTo(sizes: seq<nat>, r: Run): nat {
    if r.phase.Scanning? then r.phase.pos else if r.seg < |sizes| then sizes[r.seg] else 0
  }

  ghost predicate PhaseOk(sizes: seq<nat>, r: Run) {
    match r.phase
    case Scanning(pos) => (r.seg < |sizes| ==> pos <= sizes[r.seg]) && (r.seg >= |sizes| ==> pos == 0)
    case Barring(sent) => r.seg < |sizes| && BarriersLast(r.workers, sent)
    case HitWait(p) => r.seg < |sizes| && AllDrained(r.workers) && |r.hits| == p + 1 && r.hits[p].HitBarrier?
    case MetaWait(b) => r.seg < |sizes| && AllDrained(r.workers) && AllMatched(r.produced, r.meta, b)
    case Ended => true
  }

  ghost predicate RunOk(sizes: seq<nat>, durable: set<Tagged>, r: Run) {
    && r.workers != [] && r.seg <= |sizes|
    && ProducedOk(r.workers, r.hits, r.produced)
    && CollectedOk(r.hits, r.hitsTaken, r.held, r.meta)
    && (r.hitsTaken > 0 && r.hits[r.hitsTaken - 1].HitBarrier? ==> r.held == [])
    && StoredOk(r.meta, r.metaTaken, durable)
    && (!r.phase.Ended? ==> DispatchedOk(sizes, r.start, r.seg, SentUpTo(sizes, r), r.workers))
    && WorkersOk(r.workers, r.seg, r.scanned)
    && PublishedOk(r.produced, r.seg, durable) && TagsOk(r.produced, r.seg)
    && PhaseOk(sizes, r)
    && r.start <= r.seg
    && (forall g, pos: nat | r.start <= g < r.seg && pos < sizes[g] :: Place(g, pos) in r.scanned)
  }

  ghost predicate Inv(j: Job) {
    && j.persisted <= |j.sizes|
    && (j.up.Some? ==> RunOk(j.sizes, j.durable, j.up.value) && j.persisted <= j.up.value.seg)
    && (j.completed ==> j.persisted == |j.sizes|)
  }
}
