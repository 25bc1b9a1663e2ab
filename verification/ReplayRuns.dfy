/** Every interleaving keeps the replay invariant, so a checkpoint is a commit. */
module ReplayRuns {
  import opened Basics
  import opened ReplayCheckpoint

  // ---------- One worker changes ----------

  lemma OutboxElsewhere(workers: seq<Worker>, w: nat, k: Worker, h: Tagged)
    requires w < |workers| && InOutbox(workers, h)
    ensures InOutbox(workers[w := k], h) || h in workers[w].outbox
  {
    var v :| 0 <= v < |workers| && h in workers[v].outbox;
    if v != w { assert workers[w := k][v] == workers[v]; }
  }

  lemma OutboxHere(workers: seq<Worker>, w: nat, k: Worker, h: Tagged)
    requires w < |workers| && h in k.outbox
    ensures InOutbox(workers[w := k], h)
  {
    assert workers[w := k][w] == k;
  }

  lemma LogGrows(workers: seq<Worker>, w: nat, k: Worker, place: Place)
    requires w < |workers| && workers[w].log <= k.log && InLog(workers, place)
    ensures InLog(workers[w := k], place)
  {
    var v :| 0 <= v < |workers| && Rec(place) in workers[v].log;
    if v == w {
      assert workers[w := k][w] == k;
    } else {
      assert workers[w := k][v] == workers[v];
    }
  }

  lemma DispatchedGrows(sizes: seq<nat>, start: nat, seg: nat, upTo: nat, workers: seq<Worker>, w: nat, k: Worker)
    requires DispatchedOk(sizes, start, seg, upTo, workers) && w < |workers| && workers[w].log <= k.log
    ensures DispatchedOk(sizes, start, seg, upTo, workers[w := k])
  {
    hide InLog;
    forall g, pos: nat | start <= g < seg && g < |sizes| && pos < sizes[g]
      ensures InLog(workers[w := k], Place(g, pos))
    {
      LogGrows(workers, w, k, Place(g, pos));
    }
    forall pos: nat | pos < upTo
      ensures InLog(workers[w := k], Place(seg, pos))
    {
      LogGrows(workers, w, k, Place(seg, pos));
    }
  }

  lemma ProducedSame(workers: seq<Worker>, w: nat, k: Worker, hits: seq<HitItem>, produced: set<Tagged>)
    requires ProducedOk(workers, hits, produced) && w < |workers| && k.outbox == workers[w].outbox
    ensures ProducedOk(workers[w := k], hits, produced)
  {
    hide InOutbox;
    forall h | h in produced
      ensures InOutbox(workers[w := k], h) || Hit(h) in hits
    {
      if InOutbox(workers, h) {
        OutboxElsewhere(workers, w, k, h);
        if h in k.outbox { OutboxHere(workers, w, k, h); }
      }
    }
  }

  // ---------- The dispatcher ----------

  lemma KeepDispatch(j: Job, r: Run, w: nat)
    requires RunOk(j.sizes, j.durable, r)
    requires r.phase.Scanning? && r.seg < |j.sizes| && r.phase.pos < j.sizes[r.seg] && w < |r.workers|
    ensures RunOk(j.sizes, j.durable, r.(phase := Scanning(r.phase.pos + 1),
      workers := r.workers[w := r.workers[w].(log := r.workers[w].log + [Rec(Place(r.seg, r.phase.pos))])]))
  {
    hide ProducedOk, CollectedOk, StoredOk, PublishedOk, TagsOk, InLog;
    var k := r.workers[w].(log := r.workers[w].log + [Rec(Place(r.seg, r.phase.pos))]);
    ProducedSame(r.workers, w, k, r.hits, r.produced);
    DispatchedGrows(j.sizes, r.start, r.seg, r.phase.pos, r.workers, w, k);
    LogHas(r.workers, w, k, Place(r.seg, r.phase.pos));
  }

  lemma LogHas(workers: seq<Worker>, w: nat, k: Worker, place: Place)
    requires w < |workers| && k.log == workers[w].log + [Rec(place)]
    ensures InLog(workers[w := k], place)
  {
    assert workers[w := k][w] == k;
    assert k.log[|workers[w].log|] == Rec(place);
  }

  lemma KeepBarrier(j: Job, r: Run, sent: seq<nat>)
    requires RunOk(j.sizes, j.durable, r) && |sent| < |r.workers|
    requires (r.phase.Scanning? && r.seg < |j.sizes| && r.phase.pos == j.sizes[r.seg] && sent == [])
             || (r.phase.Barring? && sent == r.phase.sent)
    ensures var w := |sent|;
      RunOk(j.sizes, j.durable, r.(phase := Barring(sent + [|r.workers[w].log|]),
        workers := r.workers[w := r.workers[w].(log := r.workers[w].log + [WorkBarrier])]))
  {
    hide ProducedOk, CollectedOk, StoredOk, PublishedOk, TagsOk, InLog;
    var w := |sent|;
    var k := r.workers[w].(log := r.workers[w].log + [WorkBarrier]);
    ProducedSame(r.workers, w, k, r.hits, r.produced);
    DispatchedGrows(j.sizes, r.start, r.seg, j.sizes[r.seg], r.workers, w, k);
    hide DispatchedOk;
  }

  /** When every worker has answered, each has taken everything and sent all its hits. */
  lemma AnsweredDrained(workers: seq<Worker>, seg: nat, scanned: set<Place>, sent: seq<nat>)
    requires WorkersOk(workers, seg, scanned) && BarriersLast(workers, sent) && |sent| == |workers|
    requires forall w | 0 <= w < |workers| :: sent[w] < workers[w].taken
    ensures AllDrained(workers)
  {
    forall w | 0 <= w < |workers|
      ensures Drained(workers[w])
    {
      assert WorkerOk(workers[w], seg, scanned);
    }
  }

  lemma KeepWorkersDone(j: Job, r: Run)
    requires RunOk(j.sizes, j.durable, r) && r.phase.Barring? && |r.phase.sent| == |r.workers|
    requires forall w | 0 <= w < |r.workers| :: r.phase.sent[w] < r.workers[w].taken
    ensures RunOk(j.sizes, j.durable, r.(phase := HitWait(|r.hits|), hits := r.hits + [HitBarrier]))
  {
    AnsweredDrained(r.workers, r.seg, r.scanned, r.phase.sent);
    hide StoredOk, PublishedOk, TagsOk, InOutbox, DispatchedOk, WorkersOk, AllDrained;
  }

  lemma NothingInOutbox(workers: seq<Worker>, h: Tagged)
    requires AllDrained(workers)
    ensures !InOutbox(workers, h)
  {
  }

  lemma NotDrained(workers: seq<Worker>, w: nat)
    requires w < |workers| && !Drained(workers[w])
    ensures !AllDrained(workers)
  {
  }

  /** When the collector has answered, every hit is in the metadata queue. */
  lemma CollectedAll(r: Run, p: nat)
    requires ProducedOk(r.workers, r.hits, r.produced) && CollectedOk(r.hits, r.hitsTaken, r.held, r.meta)
    requires AllDrained(r.workers) && |r.hits| == p + 1 && p < r.hitsTaken && r.held == []
    ensures AllMatched(r.produced, r.meta + [MetaBarrier], |r.meta|)
  {
    assert (r.meta + [MetaBarrier])[..|r.meta|] == r.meta;
    forall h | h in r.produced
      ensures Match(h) in r.meta
    {
      NothingInOutbox(r.workers, h);
      var i :| 0 <= i < |r.hits| && r.hits[i] == Hit(h);
    }
  }

  lemma KeepHitsDone(j: Job, r: Run)
    requires RunOk(j.sizes, j.durable, r) && r.phase.HitWait? && r.phase.p < r.hitsTaken
    ensures RunOk(j.sizes, j.durable, r.(phase := MetaWait(|r.meta|), meta := r.meta + [MetaBarrier]))
  {
    CollectedLimit(r.hits, r.hitsTaken, r.held, r.meta);
    CollectedAll(r, r.phase.p);
    CollectedMore(r.hits, r.hitsTaken, r.held, r.meta, MetaBarrier);
    StoredMore(r.meta, r.metaTaken, j.durable, MetaBarrier);
    hide StoredOk, CollectedOk, ProducedOk, PublishedOk, TagsOk, DispatchedOk, WorkersOk, AllDrained, AllMatched;
  }

  lemma CollectedLimit(hits: seq<HitItem>, taken: nat, held: seq<Tagged>, meta: seq<Meta>)
    requires CollectedOk(hits, taken, held, meta)
    ensures taken <= |hits|
  {
  }

  lemma CollectedMore(hits: seq<HitItem>, taken: nat, held: seq<Tagged>, meta: seq<Meta>, c: Meta)
    requires CollectedOk(hits, taken, held, meta)
    ensures CollectedOk(hits, taken, held, meta + [c])
  {
  }

  lemma StoredMore(meta: seq<Meta>, taken: nat, durable: set<Tagged>, c: Meta)
    requires StoredOk(meta, taken, durable)
    ensures StoredOk(meta + [c], taken, durable)
  {
  }

  /** The checkpoint is a commit: at the moment it is published, every hit produced for
      the segment, and for all before it, is durable, and every record was scanned. */
  lemma PublishCommits(sizes: seq<nat>, durable: set<Tagged>, r: Run)
    requires RunOk(sizes, durable, r) && r.phase.MetaWait? && r.phase.b < r.metaTaken
    ensures forall h | h in r.produced :: h in durable
    ensures r.seg < |sizes| && forall pos: nat | pos < sizes[r.seg] :: Place(r.seg, pos) in r.scanned
  {
    hide ProducedOk, CollectedOk, PublishedOk, TagsOk;
    forall h | h in r.produced
      ensures h in durable
    {
      var i :| 0 <= i < r.phase.b && r.meta[..r.phase.b][i] == Match(h);
      assert r.meta[i] == Match(h);
    }
    forall pos: nat | pos < sizes[r.seg]
      ensures Place(r.seg, pos) in r.scanned
    {
      assert InLog(r.workers, Place(r.seg, pos));
      var w :| 0 <= w < |r.workers| && Rec(Place(r.seg, pos)) in r.workers[w].log;
      assert WorkerOk(r.workers[w], r.seg, r.scanned) && Drained(r.workers[w]);
    }
  }

  lemma KeepPublish(j: Job, r: Run)
    requires RunOk(j.sizes, j.durable, r) && r.phase.MetaWait? && r.phase.b < r.metaTaken
    ensures RunOk(j.sizes, j.durable, r.(phase := Scanning(0), seg := r.seg + 1))
  {
    PublishCommits(j.sizes, j.durable, r);
    hide ProducedOk, CollectedOk, StoredOk, InLog;
    forall w | 0 <= w < |r.workers|
      ensures WorkerOk(r.workers[w], r.seg + 1, r.scanned)
    {
      assert WorkerOk(r.workers[w], r.seg, r.scanned) && Drained(r.workers[w]);
    }
  }

  lemma KeepEnd(j: Job, r: Run)
    requires RunOk(j.sizes, j.durable, r)
    ensures RunOk(j.sizes, j.durable, r.(phase := Ended))
  {
    hide ProducedOk, CollectedOk, StoredOk, PublishedOk, TagsOk, DispatchedOk, WorkersOk;
  }

  lemma RunFacts(sizes: seq<nat>, durable: set<Tagged>, r: Run)
    requires RunOk(sizes, durable, r)
    ensures r.seg <= |sizes|
  {
  }

  lemma DispatcherKeeps(j: Job, r: Run, a: Action, j': Job)
    requires Inv(j.(up := Some(r))) && j.up == Some(r) && DispatcherStep(j, r, a, j')
    ensures Inv(j')
  {
    RunFacts(j.sizes, j.durable, r);
    assert j == j.(up := Some(r));
    hide RunOk;
    match a
    case Dispatch(w) => KeepDispatch(j, r, w);
    case SendBarrier => KeepBarrier(j, r, if r.phase.Barring? then r.phase.sent else []);
    case WorkersDone => KeepWorkersDone(j, r);
    case HitsDone => KeepHitsDone(j, r);
    case Publish =>
      PublishCommits(j.sizes, j.durable, r);
      KeepPublish(j, r);
    case Persist(value) =>
    case Complete => KeepEnd(j, r);
    case Stop => KeepEnd(j, r);
    case _ =>
  }

  // ---------- The workers ----------

  lemma ScanProduced(workers: seq<Worker>, w: nat, k: Worker, hits: seq<HitItem>, produced: set<Tagged>)
    requires ProducedOk(workers, hits, produced) && w < |workers| && workers[w].outbox == []
    ensures ProducedOk(workers[w := k], hits, produced + set h | h in k.outbox)
  {
    hide InOutbox;
    forall h | h in produced + set h | h in k.outbox
      ensures InOutbox(workers[w := k], h) || Hit(h) in hits
    {
      if h in k.outbox {
        OutboxHere(workers, w, k, h);
      } else if InOutbox(workers, h) {
        OutboxElsewhere(workers, w, k, h);
      }
    }
  }

  lemma KeepScan(j: Job, r: Run, w: nat, found: seq<nat>)
    requires RunOk(j.sizes, j.durable, r) && w < |r.workers|
    requires r.workers[w].outbox == [] && r.workers[w].taken < |r.workers[w].log| && r.workers[w].log[r.workers[w].taken].Rec?
    ensures var k := r.workers[w];
      var place := k.log[k.taken].place;
      RunOk(j.sizes, j.durable, r.(workers := r.workers[w := k.(taken := k.taken + 1, outbox := Tag(place.seg, found))],
                                   produced := r.produced + (set h | h in Tag(place.seg, found)),
                                   scanned := r.scanned + {place}))
  {
    var k := r.workers[w];
    var place := k.log[k.taken].place;
    var k' := k.(taken := k.taken + 1, outbox := Tag(place.seg, found));
    ScanProduced(r.workers, w, k', r.hits, r.produced);
    DispatchedIf(j.sizes, r, w, k');
    ScanWorkers(r.workers, r.seg, r.scanned, w, k', place);
    ScanPhase(j.sizes, r, w, k', r.produced + (set h | h in Tag(place.seg, found)), r.scanned + {place});
    hide ProducedOk, CollectedOk, StoredOk, DispatchedOk, WorkersOk, PhaseOk, InOutbox;
  }

  lemma DispatchedIf(sizes: seq<nat>, r: Run, w: nat, k: Worker)
    requires !r.phase.Ended? ==> DispatchedOk(sizes, r.start, r.seg, SentUpTo(sizes, r), r.workers)
    requires w < |r.workers| && k.log == r.workers[w].log
    ensures !r.phase.Ended? ==> DispatchedOk(sizes, r.start, r.seg, SentUpTo(sizes, r), r.workers[w := k])
  {
    hide DispatchedOk;
    if !r.phase.Ended? {
      DispatchedGrows(sizes, r.start, r.seg, SentUpTo(sizes, r), r.workers, w, k);
    }
  }

  lemma ScanWorkers(workers: seq<Worker>, seg: nat, scanned: set<Place>, w: nat, k: Worker, place: Place)
    requires WorkersOk(workers, seg, scanned) && w < |workers|
    requires workers[w].taken < |workers[w].log| && workers[w].log[workers[w].taken] == Rec(place)
    requires k.log == workers[w].log && k.taken == workers[w].taken + 1
    ensures WorkersOk(workers[w := k], seg, scanned + {place}) && place.seg == seg
  {
    var workers' := workers[w := k];
    forall v | 0 <= v < |workers'|
      ensures WorkerOk(workers'[v], seg, scanned + {place})
    {
      assert WorkerOk(workers[v], seg, scanned);
    }
  }

  /** A worker that still has something to take shows that the drained phases are past. */
  lemma ScanPhase(sizes: seq<nat>, r: Run, w: nat, k: Worker, produced: set<Tagged>, scanned: set<Place>)
    requires PhaseOk(sizes, r) && w < |r.workers| && r.workers[w].taken < |r.workers[w].log| && k.log == r.workers[w].log
    ensures PhaseOk(sizes, r.(workers := r.workers[w := k], produced := produced, scanned := scanned))
  {
    NotDrained(r.workers, w);
  }

  lemma KeepTakeBarrier(j: Job, r: Run, w: nat)
    requires RunOk(j.sizes, j.durable, r) && w < |r.workers|
    requires r.workers[w].outbox == [] && r.workers[w].taken < |r.workers[w].log|
    requires r.workers[w].log[r.workers[w].taken].WorkBarrier?
    ensures RunOk(j.sizes, j.durable, r.(workers := r.workers[w := r.workers[w].(taken := r.workers[w].taken + 1)]))
  {
    var k := r.workers[w].(taken := r.workers[w].taken + 1);
    ProducedSame(r.workers, w, k, r.hits, r.produced);
    DispatchedIf(j.sizes, r, w, k);
    BarrierWorkers(r.workers, r.seg, r.scanned, w, k);
    ScanPhase(j.sizes, r, w, k, r.produced, r.scanned);
    hide ProducedOk, CollectedOk, StoredOk, DispatchedOk, WorkersOk, PhaseOk, PublishedOk, TagsOk;
  }

  lemma BarrierWorkers(workers: seq<Worker>, seg: nat, scanned: set<Place>, w: nat, k: Worker)
    requires WorkersOk(workers, seg, scanned) && w < |workers| && workers[w].outbox == []
    requires workers[w].taken < |workers[w].log| && workers[w].log[workers[w].taken].WorkBarrier?
    requires k == workers[w].(taken := workers[w].taken + 1)
    ensures WorkersOk(workers[w := k], seg, scanned)
  {
    var workers' := workers[w := k];
    forall v | 0 <= v < |workers'|
      ensures WorkerOk(workers'[v], seg, scanned)
    {
      assert WorkerOk(workers[v], seg, scanned);
    }
  }

  lemma SendProduced(workers: seq<Worker>, w: nat, hits: seq<HitItem>, produced: set<Tagged>)
    requires ProducedOk(workers, hits, produced) && w < |workers| && workers[w].outbox != []
    ensures var k := workers[w];
      ProducedOk(workers[w := k.(outbox := k.outbox[1..])], hits + [Hit(k.outbox[0])], produced)
  {
    hide InOutbox;
    var k := workers[w];
    var k' := k.(outbox := k.outbox[1..]);
    var hits' := hits + [Hit(k.outbox[0])];
    assert hits'[|hits|] == Hit(k.outbox[0]);
    forall h | h in produced
      ensures InOutbox(workers[w := k'], h) || Hit(h) in hits'
    {
      if InOutbox(workers, h) {
        OutboxElsewhere(workers, w, k', h);
        if h in k.outbox && h != k.outbox[0] {
          assert h in k'.outbox;
          OutboxHere(workers, w, k', h);
        }
      }
    }
  }

  lemma SendPhase(sizes: seq<nat>, r: Run, w: nat, k: Worker, hits: seq<HitItem>)
    requires PhaseOk(sizes, r) && w < |r.workers| && r.workers[w].outbox != [] && k.log == r.workers[w].log
    ensures PhaseOk(sizes, r.(workers := r.workers[w := k], hits := hits))
  {
    NotDrained(r.workers, w);
  }

  lemma SendWorkers(workers: seq<Worker>, seg: nat, scanned: set<Place>, w: nat)
    requires WorkersOk(workers, seg, scanned) && w < |workers| && workers[w].outbox != []
    ensures WorkersOk(workers[w := workers[w].(outbox := workers[w].outbox[1..])], seg, scanned)
  {
    var k := workers[w].(outbox := workers[w].outbox[1..]);
    var workers' := workers[w := k];
    forall v | 0 <= v < |workers'|
      ensures WorkerOk(workers'[v], seg, scanned)
    {
      assert WorkerOk(workers[v], seg, scanned);
    }
  }

  lemma KeepSendHit(j: Job, r: Run, w: nat)
    requires RunOk(j.sizes, j.durable, r) && w < |r.workers| && r.workers[w].outbox != []
    ensures var k := r.workers[w];
      RunOk(j.sizes, j.durable, r.(workers := r.workers[w := k.(outbox := k.outbox[1..])], hits := r.hits + [Hit(k.outbox[0])]))
  {
    var k := r.workers[w];
    var k' := k.(outbox := k.outbox[1..]);
    SendProduced(r.workers, w, r.hits, r.produced);
    DispatchedIf(j.sizes, r, w, k');
    SendWorkers(r.workers, r.seg, r.scanned, w);
    SendPhase(j.sizes, r, w, k', r.hits + [Hit(k.outbox[0])]);
    CollectedHits(r.hits, r.hitsTaken, r.held, r.meta, Hit(k.outbox[0]));
    hide ProducedOk, CollectedOk, StoredOk, DispatchedOk, WorkersOk, PhaseOk, PublishedOk, TagsOk;
    CollectedLimitOf(r);
  }

  lemma CollectedHits(hits: seq<HitItem>, taken: nat, held: seq<Tagged>, meta: seq<Meta>, item: HitItem)
    requires CollectedOk(hits, taken, held, meta)
    ensures CollectedOk(hits + [item], taken, held, meta) && taken <= |hits|
  {
  }

  lemma CollectedLimitOf(r: Run)
    requires r.hitsTaken <= |r.hits|
    ensures forall item :: r.hitsTaken > 0 ==> (r.hits + [item])[r.hitsTaken - 1] == r.hits[r.hitsTaken - 1]
  {
  }

  lemma WorkerKeeps(j: Job, r: Run, a: Action, j': Job)
    requires Inv(j.(up := Some(r))) && j.up == Some(r) && WorkerStep(j, r, a, j')
    ensures Inv(j')
  {
    assert j == j.(up := Some(r));
    hide RunOk;
    match a
    case Scan(w, found) => KeepScan(j, r, w, found);
    case TakeBarrier(w) => KeepTakeBarrier(j, r, w);
    case SendHit(w) => KeepSendHit(j, r, w);
    case _ =>
  }

  // ---------- The collector and the metadata queue ----------

  lemma KeepCollect(j: Job, r: Run)
    requires RunOk(j.sizes, j.durable, r) && r.held == [] && r.hitsTaken < |r.hits|
    ensures RunOk(j.sizes, j.durable, r.(hitsTaken := r.hitsTaken + 1,
              held := if r.hits[r.hitsTaken].Hit? then [r.hits[r.hitsTaken].h] else []))
  {
    hide ProducedOk, StoredOk, DispatchedOk, WorkersOk, PublishedOk, TagsOk, AllDrained, AllMatched, BarriersLast;
  }

  lemma MetaPhase(sizes: seq<nat>, r: Run, c: Meta, held: seq<Tagged>)
    requires PhaseOk(sizes, r)
    ensures PhaseOk(sizes, r.(meta := r.meta + [c], held := held))
  {
    hide AllDrained, BarriersLast;
    if r.phase.MetaWait? {
      assert (r.meta + [c])[..r.phase.b] == r.meta[..r.phase.b];
    }
  }

  lemma ForwardCollected(hits: seq<HitItem>, taken: nat, held: seq<Tagged>, meta: seq<Meta>)
    requires CollectedOk(hits, taken, held, meta) && held != []
    ensures CollectedOk(hits, taken, held[1..], meta + [Match(held[0])])
  {
    var meta' := meta + [Match(held[0])];
    assert meta'[|meta|] == Match(held[0]);
    forall i | 0 <= i < taken && hits[i].Hit?
      ensures hits[i].h in held[1..] || Match(hits[i].h) in meta'
    {
      if hits[i].h in held && hits[i].h != held[0] {
        assert hits[i].h in held[1..];
      }
    }
  }

  lemma KeepForward(j: Job, r: Run)
    requires RunOk(j.sizes, j.durable, r) && r.held != []
    ensures RunOk(j.sizes, j.durable, r.(held := r.held[1..], meta := r.meta + [Match(r.held[0])]))
  {
    ForwardCollected(r.hits, r.hitsTaken, r.held, r.meta);
    StoredMore(r.meta, r.metaTaken, j.durable, Match(r.held[0]));
    MetaPhase(j.sizes, r, Match(r.held[0]), r.held[1..]);
    hide ProducedOk, StoredOk, CollectedOk, DispatchedOk, WorkersOk, PublishedOk, TagsOk, PhaseOk;
  }

  lemma KeepForeign(j: Job, r: Run)
    requires RunOk(j.sizes, j.durable, r)
    ensures RunOk(j.sizes, j.durable, r.(meta := r.meta + [Foreign]))
  {
    CollectedMore(r.hits, r.hitsTaken, r.held, r.meta, Foreign);
    StoredMore(r.meta, r.metaTaken, j.durable, Foreign);
    MetaPhase(j.sizes, r, Foreign, r.held);
    hide ProducedOk, StoredOk, CollectedOk, DispatchedOk, WorkersOk, PublishedOk, TagsOk, PhaseOk;
  }

  lemma KeepStore(j: Job, r: Run, n: nat)
    requires RunOk(j.sizes, j.durable, r) && r.metaTaken + n <= |r.meta|
    ensures RunOk(j.sizes, j.durable + Stored(r, r.metaTaken + n), r.(metaTaken := r.metaTaken + n))
  {
    hide ProducedOk, CollectedOk, DispatchedOk, WorkersOk, TagsOk, AllDrained, AllMatched, BarriersLast;
    var durable' := j.durable + Stored(r, r.metaTaken + n);
    forall i | 0 <= i < r.metaTaken + n && r.meta[i].Match?
      ensures r.meta[i].m in durable'
    {
      assert r.meta[i].m in Stored(r, r.metaTaken + n);
    }
  }

  lemma CollectorKeeps(j: Job, r: Run, a: Action, j': Job)
    requires Inv(j.(up := Some(r))) && j.up == Some(r) && CollectorStep(j, r, a, j')
    ensures Inv(j')
  {
    assert j == j.(up := Some(r));
    hide RunOk, Stored;
    match a
    case Collect => KeepCollect(j, r);
    case Forward => KeepForward(j, r);
    case SendForeign => KeepForeign(j, r);
    case Store(n) => KeepStore(j, r, n);
    case _ =>
  }

  // ---------- Whole runs ----------

  lemma ResumeKeeps(j: Job, count: nat)
    requires Inv(j) && !j.completed && count > 0
    ensures Inv(j.(up := Some(Fresh(j.persisted, count))))
  {
    hide InLog, InOutbox;
  }

  lemma StepKeeps(j: Job, a: Action, j': Job)
    requires Inv(j) && Step(j, a, j')
    ensures Inv(j')
  {
    hide DispatcherStep, WorkerStep, CollectorStep, RunOk;
    if a.Resume? {
      ResumeKeeps(j, a.count);
    } else {
      var r := j.up.value;
      assert j.(up := Some(r)) == j;
      if DispatcherStep(j, r, a, j') {
        DispatcherKeeps(j, r, a, j');
      } else if WorkerStep(j, r, a, j') {
        WorkerKeeps(j, r, a, j');
      } else if CollectorStep(j, r, a, j') {
        CollectorKeeps(j, r, a, j');
      }
    }
  }

  ghost predicate History(js: seq<Job>, steps: seq<Action>, sizes: seq<nat>) {
    && |js| == |steps| + 1
    && js[0].sizes == sizes && js[0].persisted == 0 && !js[0].completed && js[0].up.None?
    && forall k | 0 <= k < |steps| :: Step(js[k], steps[k], js[k + 1])
  }

  lemma {:induction false} HistoryKeeps(js: seq<Job>, steps: seq<Action>, sizes: seq<nat>, k: nat)
    requires History(js, steps, sizes) && k < |js|
    ensures Inv(js[k]) && js[k].sizes == sizes
  {
    hide Step, RunOk;
    if k > 0 {
      HistoryKeeps(js, steps, sizes, k - 1);
      assert Step(js[k - 1], steps[k - 1], js[k]);
      StepKeeps(js[k - 1], steps[k - 1], js[k]);
      SizesStay(js[k - 1], steps[k - 1], js[k]);
    }
  }

  lemma SizesStay(j: Job, a: Action, j': Job)
    requires Step(j, a, j')
    ensures j'.sizes == j.sizes && j.durable <= j'.durable
    ensures j.up.Some? && j'.up.Some? ==> j'.up.value.start == j.up.value.start && j.up.value.seg <= j'.up.value.seg
    ensures j'.persisted != j.persisted ==> j.up.Some? && j'.persisted <= j.up.value.seg
    ensures j'.completed && !j.completed ==> j'.persisted >= |j.sizes|
    ensures j.persisted <= j'.persisted || a.Complete?
  {
    hide Stored, Tag;
  }

  /** At every moment of every run: all hits produced for the segments a run has
      published are durable, and all their records since its start were scanned. */
  lemma CheckpointIsCommit(js: seq<Job>, steps: seq<Action>, sizes: seq<nat>, k: nat)
    requires History(js, steps, sizes) && k < |js| && js[k].up.Some?
    ensures var r := js[k].up.value;
      && (forall h | h in r.produced && h.seg < r.seg :: h in js[k].durable)
      && r.start <= r.seg <= |sizes|
      && (forall g, pos: nat | r.start <= g < r.seg && pos < sizes[g] :: Place(g, pos) in r.scanned)
  {
    HistoryKeeps(js, steps, sizes, k);
    hide History, ProducedOk, CollectedOk, StoredOk, DispatchedOk, WorkersOk, PhaseOk;
  }

  lemma {:induction false} DurableStays(js: seq<Job>, steps: seq<Action>, sizes: seq<nat>, k: nat, m: nat, h: Tagged)
    requires History(js, steps, sizes) && k <= m < |js| && h in js[k].durable
    ensures h in js[m].durable
    decreases m - k
  {
    hide Step;
    if k < m {
      assert Step(js[k], steps[k], js[k + 1]);
      SizesStay(js[k], steps[k], js[k + 1]);
      DurableStays(js, steps, sizes, k + 1, m, h);
    }
  }

  /** Whatever the stored checkpoint covers was committed by some earlier run that
      started at or before it: through any crashes, resuming skips nothing. */
  lemma {:induction false} PersistedWasCommitted(js: seq<Job>, steps: seq<Action>, sizes: seq<nat>, k: nat, seg: nat)
    returns (at: nat)
    requires History(js, steps, sizes) && k < |js| && seg < js[k].persisted
    ensures at <= k && js[at].up.Some? && js[at].up.value.start <= seg < js[at].up.value.seg
  {
    hide Step, RunOk;
    assert Step(js[k - 1], steps[k - 1], js[k]);
    SizesStay(js[k - 1], steps[k - 1], js[k]);
    if seg < js[k - 1].persisted {
      at := PersistedWasCommitted(js, steps, sizes, k - 1, seg);
    } else if js[k - 1].up.value.start <= seg {
      at := k - 1;
    } else {
      var born := StartWasPersisted(js, steps, sizes, k - 1);
      at := PersistedWasCommitted(js, steps, sizes, born, seg);
    }
  }

  /** A run starts from a checkpoint that was stored earlier. */
  lemma {:induction false} StartWasPersisted(js: seq<Job>, steps: seq<Action>, sizes: seq<nat>, k: nat)
    returns (born: nat)
    requires History(js, steps, sizes) && k < |js| && js[k].up.Some?
    ensures born < k && js[born].persisted == js[k].up.value.start
  {
    hide DispatcherStep, WorkerStep, CollectorStep;
    assert Step(js[k - 1], steps[k - 1], js[k]);
    if js[k - 1].up.Some? {
      SizesStay(js[k - 1], steps[k - 1], js[k]);
      born := StartWasPersisted(js, steps, sizes, k - 1);
    } else {
      born := k - 1;
    }
  }

  /** A completed job has covered the whole frozen list: every record of every segment
      was scanned in a run that then made all hits it produced for it durable. */
  lemma CompletedCoversAll(js: seq<Job>, steps: seq<Action>, sizes: seq<nat>, k: nat, seg: nat) returns (at: nat)
    requires History(js, steps, sizes) && k < |js| && js[k].completed && seg < |sizes|
    ensures at <= k && js[at].up.Some?
    ensures var r := js[at].up.value;
      && (forall pos: nat | pos < sizes[seg] :: Place(seg, pos) in r.scanned)
      && (forall h | h in r.produced && h.seg == seg :: h in js[k].durable)
  {
    HistoryKeeps(js, steps, sizes, k);
    at := PersistedWasCommitted(js, steps, sizes, k, seg);
    CheckpointIsCommit(js, steps, sizes, at);
    hide History, RunOk;
    forall h | h in js[at].up.value.produced && h.seg == seg
      ensures h in js[k].durable
    {
      DurableStays(js, steps, sizes, at, k, h);
    }
  }
}
