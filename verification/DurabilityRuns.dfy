/** Whole runs of the durability protocol, with any number of crashes and restarts. */
module DurabilityRuns {
  import opened Basics
  import opened Durability
  import opened DurabilityInvariant
  import opened DurabilitySteps

  /** A run starts from any installation that never used this protocol. */
  ghost predicate Run(ss: seq<State>, steps: seq<Action>) {
    && |ss| == |steps| + 1 && Initial(ss[0])
    && forall k | 0 <= k < |steps| :: Step(ss[k], steps[k], ss[k + 1])
  }

  lemma {:induction false} RunKeeps(ss: seq<State>, steps: seq<Action>, k: nat)
    requires Run(ss, steps) && 0 < k < |ss|
    ensures Inv(ss[k]) && ss[k].disk.marker
  {
    hide Inv, Initial, Step, Restarts;
    assert Step(ss[k - 1], steps[k - 1], ss[k]);
    if k == 1 {
      FirstStep(ss[0], steps[0], ss[1]);
    } else {
      RunKeeps(ss, steps, k - 1);
      StepKeeps(ss[k - 1], steps[k - 1], ss[k]);
    }
    MarkerStays(ss[k - 1], steps[k - 1], ss[k]);
  }

  /** Once written, the recovery marker stays. */
  lemma MarkerStays(s: State, a: Action, s': State)
    requires Step(s, a, s') && (s.disk.marker || a.Restart?)
    ensures s'.disk.marker
  {
    hide ChunksAre, StartSequences, Answered, CanTake;
  }

  lemma FirstStep(s: State, a: Action, s': State)
    requires Initial(s) && Step(s, a, s')
    ensures a.Restart? && Inv(s')
  {
    hide Inv, Restarts;
    RestartKeeps(s, a.chunks, s');
  }

  /** Crash consistency: at every moment of every run, running or crashed, each record
      of each segment that has a newer one keeps its index row (unless retention deleted
      that very row), and every row names a whole record. */
  lemma CrashConsistent(ss: seq<State>, steps: seq<Action>, k: nat, seg: nat, newer: nat, pos: nat)
    requires Run(ss, steps) && 0 < k < |ss|
    requires seg in ss[k].disk.files && newer in ss[k].disk.files && seg < newer
    requires pos < |ss[k].disk.files[seg].recs|
    ensures Kept(ss[k].disk.store, RowAt(ss[k].disk.files[seg].recs, seg, pos))
    ensures RowsTrue(ss[k].disk.files, ss[k].disk.store)
  {
    hide Kept, Run, RowsTrue, SpoolOk, MemoryOk;
    RunKeeps(ss, steps, k);
  }

  /** No index row in the queue, the spool or ClickHouse ever dangles. */
  lemma NoRowDangles(ss: seq<State>, steps: seq<Action>, k: nat, e: Event)
    requires Run(ss, steps) && 0 < k < |ss| && e.Index?
    requires e in ss[k].disk.store.ch || InSpool(ss[k].disk.store.spool, e)
             || (ss[k].up.Some? && var q := ss[k].up.value.q; exists i :: q.taken <= i < |q.log| && q.log[i] == Ev(e))
    ensures e.row.seg in ss[k].disk.files && e.row.pos < |ss[k].disk.files[e.row.seg].recs|
    ensures ss[k].disk.files[e.row.seg].recs[e.row.pos] == e.row.ts
  {
    hide Run, FilesOk, OthersIndexed, SpoolOk, WriterOk, PhaseOk, CountersOk, SequencesOk, StoredOk, OriginOk, InsertedOk, RetentionOk;
    RunKeeps(ss, steps, k);
    assert TrueRow(ss[k].disk.files, e);
  }

  /** Deleting a segment: nothing names it any more, and it held only old records. */
  lemma DeletedIsOld(ss: seq<State>, steps: seq<Action>, k: nat, seg: nat)
    requires Run(ss, steps) && 0 < k < |steps| && steps[k] == DeleteFile(seg)
    ensures ss[k].up.Some? && ss[k].up.value.r.Purged? && seg in ss[k].disk.files
    ensures forall i | 0 <= i < |ss[k].disk.files[seg].recs| ::
      ss[k].disk.files[seg].recs[i] < ss[k].up.value.r.cutoff <= ss[k].disk.store.purged
    ensures seg !in ss[k + 1].disk.files
    ensures forall e | e in ss[k + 1].disk.store.ch || InSpool(ss[k + 1].disk.store.spool, e) :: !PointsInto(e, {seg})
  {
    hide Inv, Initial, Answered, Sent;
    RunKeeps(ss, steps, k);
    var s := ss[k];
    assert Step(s, steps[k], ss[k + 1]);
    var d, m := s.disk, s.up.value;
    assert s == State(d, Some(m));
    DeleteIsSafe(d, m, seg);
  }

  // ---------- Nothing acknowledged is lost ----------

  lemma QueueStepKeeps(d: Disk, m: Memory, a: Action, s': State)
    requires Inv(State(d, Some(m))) && QueueStep(d, m, a, s')
    ensures KeepsAll(d.store, s'.disk.store)
  {
    MemoryParts(d.files, d.active, d.store, m);
    hide Inv, DiskOk, MemoryOk, TakenSpool, OriginOk, StoredOk, SequencesOk, WriterOk, PhaseOk, QueueTrue, InsertedOk, RetentionOk, Kept;
    var t := d.store;
    if a.TakeBatch? || (a.MetadataStops? && a.stored) {
      var n := a.n;
      forall e | Kept(t, e)
        ensures Kept(t.(spool := TakenSpool(t.spool, m.q, n)), e)
      {
        KeptGrows(t, m.q, n, e);
      }
    }
  }

  lemma ProjectorStepKeeps(d: Disk, m: Memory, a: Action, s': State)
    requires Inv(State(d, Some(m))) && ProjectorStep(d, m, a, s')
    ensures KeepsAll(d.store, s'.disk.store)
  {
    MemoryParts(d.files, d.active, d.store, m);
    hide Inv, DiskOk, MemoryOk, OriginOk, StoredOk, SequencesOk, WriterOk, PhaseOk, QueueTrue, CountersOk, RetentionOk, InSpool;
    var t := d.store;
    if a.Retire? || (a.ProjectorStops? && a.removed) {
      hide Projected, KeepsAll;
      RetireKeeps(t, t.(spool := t.spool - {m.p.next}), m.p.next);
    }
  }

  lemma RetentionStepKeeps(d: Disk, m: Memory, a: Action, s': State)
    requires Inv(State(d, Some(m))) && RetentionStep(d, m, a, s')
    ensures KeepsAll(d.store, s'.disk.store)
  {
    hide Inv, Answered, InSpool;
  }

  lemma RestartStepKeeps(s: State, chunks: seq<seq<Event>>, s': State)
    requires (Inv(s) || Initial(s)) && Restarts(s, chunks, s')
    ensures KeepsAll(s.disk.store, s'.disk.store)
  {
    hide FilesOk, RowsTrue, OthersIndexed, MemoryOk, ChunksAre, Kept;
    var d := s.disk;
    var first: nat, last: nat :| StartSequences(d.store.spool, first, last) && s' == Started(d, first, last, chunks);
    StartContiguous(d.store.spool, first, last);
    forall e | Kept(d.store, e)
      ensures Kept(s'.disk.store, e)
    {
      ExtendedKeeps(d.store, last, chunks, e);
    }
  }

  /** No step, not even a crash or a restart, loses an event that is in the spool or in
      ClickHouse; only retention deletes, and `DeletedMeans` says what. */
  lemma StepLosesNothing(s: State, a: Action, s': State)
    requires (Inv(s) || Initial(s)) && Step(s, a, s')
    ensures KeepsAll(s.disk.store, s'.disk.store)
  {
    hide DiskOk, MemoryOk, FilesOk, RowsTrue, QueueStep, ProjectorStep, RetentionStep, Restarts, Kept, Answered;
    if a.Restart? {
      RestartStepKeeps(s, a.chunks, s');
    } else {
      var d, m := s.disk, s.up.value;
      assert s == State(d, Some(m));
      if QueueStep(d, m, a, s') {
        QueueStepKeeps(d, m, a, s');
      } else if ProjectorStep(d, m, a, s') {
        ProjectorStepKeeps(d, m, a, s');
      } else if RetentionStep(d, m, a, s') {
        RetentionStepKeeps(d, m, a, s');
      }
    }
  }

  lemma {:induction false} KeptForever(ss: seq<State>, steps: seq<Action>, k: nat, j: nat, e: Event)
    requires Run(ss, steps) && k <= j < |ss| && Kept(ss[k].disk.store, e)
    ensures Kept(ss[j].disk.store, e)
    decreases j - k
  {
    if k < j {
      if k > 0 { RunKeeps(ss, steps, k); }
      hide Inv, Initial, Step, Kept;
      assert Step(ss[k], steps[k], ss[k + 1]);
      StepLosesNothing(ss[k], steps[k], ss[k + 1]);
      KeptForever(ss, steps, k + 1, j, e);
    }
  }

  /** Every event ahead of a durable barrier that was answered is in the spool or in
      ClickHouse ever after, through all crashes, unless retention deletes that very event. */
  lemma AcknowledgedForever(ss: seq<State>, steps: seq<Action>, k: nat, j: nat, barrier: nat, i: nat)
    requires Run(ss, steps) && 0 < k <= j < |ss| && ss[k].up.Some?
    requires var m := ss[k].up.value; Answered(m.q, m.p.projected, barrier) && i < barrier && m.q.log[i].Ev?
    ensures Kept(ss[j].disk.store, ss[k].up.value.q.log[i].e)
  {
    RunKeeps(ss, steps, k);
    hide Run, DiskOk, MemoryOk, Kept, Answered;
    var m := ss[k].up.value;
    MemoryParts(ss[k].disk.files, ss[k].disk.active, ss[k].disk.store, m);
    hide StoredOk, PhaseOk, SequencesOk, CountersOk, OriginOk, QueueTrue, InsertedOk, WriterOk, RetentionOk;
    AnsweredBounds(m.q, m.p.projected, barrier);
    DurableMeans(ss[k].disk.store, m.q, m.p.projected, barrier, i);
    KeptForever(ss, steps, k, j, m.q.log[i].e);
  }

  lemma AnsweredBounds(q: Queue, projected: nat, barrier: nat)
    requires Answered(q, projected, barrier)
    ensures barrier < |q.log| && barrier < |q.seqOf|
  {
  }

  // ---------- Only retention deletes ----------

  /** The step `a` from `s` is retention deleting `e` from ClickHouse, for its age. */
  ghost predicate DeletedBy(s: State, a: Action, e: Event) {
    && s.up.Some? && s.up.value.r.Barred? && a.Purge?
    && e in a.gone && e in s.disk.store.ch && e.Ts() < s.up.value.r.cutoff
  }

  lemma StepDeletes(s: State, a: Action, s': State, e: Event)
    requires Step(s, a, s')
    ensures s.disk.store.purged <= s'.disk.store.purged
    ensures e in s'.disk.store.deleted ==>
      e in s.disk.store.deleted || (DeletedBy(s, a, e) && s.up.value.r.cutoff <= s'.disk.store.purged)
    ensures Projected(s.disk.store, e) ==> Projected(s'.disk.store, e)
  {
    hide ChunksAre, StartSequences, Answered, CanTake;
  }

  /** An event counts as deleted only if an earlier retention step removed that very row,
      when it was older than the cutoff. */
  lemma {:induction false} DeletedMeans(ss: seq<State>, steps: seq<Action>, k: nat, e: Event) returns (j: nat)
    requires Run(ss, steps) && k < |ss| && e in ss[k].disk.store.deleted
    ensures j < k && DeletedBy(ss[j], steps[j], e)
    ensures ss[j].up.value.r.cutoff <= ss[k].disk.store.purged
  {
    hide Step, DeletedBy, FilesOk, RowsTrue, SpoolOk;
    assert k > 0;
    assert Step(ss[k - 1], steps[k - 1], ss[k]);
    StepDeletes(ss[k - 1], steps[k - 1], ss[k], e);
    if e in ss[k - 1].disk.store.deleted {
      j := DeletedMeans(ss, steps, k - 1, e);
    } else {
      j := k - 1;
    }
  }

  lemma {:induction false} ProjectedStays(ss: seq<State>, steps: seq<Action>, k: nat, j: nat, e: Event)
    requires Run(ss, steps) && k <= j < |ss| && Projected(ss[k].disk.store, e)
    ensures Projected(ss[j].disk.store, e)
    decreases j - k
  {
    hide Step, Initial, Projected;
    if k < j {
      assert Step(ss[k], steps[k], ss[k + 1]);
      StepDeletes(ss[k], steps[k], ss[k + 1], e);
      ProjectedStays(ss, steps, k + 1, j, e);
    }
  }

  /** Once a projected barrier is answered, every event ahead of it is in ClickHouse ever
      after, unless retention deletes it, and no spool file it could be in is left. */
  lemma ProjectedForever(ss: seq<State>, steps: seq<Action>, k: nat, j: nat, barrier: nat, i: nat)
    requires Run(ss, steps) && 0 < k <= j < |ss| && ss[k].up.Some?
    requires var m := ss[k].up.value;
      Answered(m.q, m.p.projected, barrier) && m.q.log[barrier].ProjectedBarrier? && i < barrier && m.q.log[i].Ev?
    ensures Projected(ss[j].disk.store, ss[k].up.value.q.log[i].e)
    ensures |ss[k].up.value.q.seqOf| > barrier
    ensures var q := ss[k].up.value.q; forall n | n in ss[k].disk.store.spool :: n > q.seqOf[barrier] >= q.seqOf[i]
  {
    RunKeeps(ss, steps, k);
    hide Run, DiskOk, MemoryOk, Projected, Answered;
    var m := ss[k].up.value;
    MemoryParts(ss[k].disk.files, ss[k].disk.active, ss[k].disk.store, m);
    hide StoredOk, PhaseOk, SequencesOk, CountersOk, OriginOk, QueueTrue, InsertedOk, WriterOk, RetentionOk;
    AnsweredBounds(m.q, m.p.projected, barrier);
    ProjectedMeans(ss[k].disk.store, m.q, m.p, barrier, i);
    ProjectedStays(ss, steps, k, j, m.q.log[i].e);
  }

  /** The committed spool sequences always form one range, and the projector of a
      running process finds every sequence it is told is durable. */
  lemma SpoolNeverGaps(ss: seq<State>, steps: seq<Action>, k: nat)
    requires Run(ss, steps) && 0 < k < |ss|
    ensures exists lo: nat, hi: nat :: 1 <= lo && Contiguous(ss[k].disk.store.spool, lo, hi)
    ensures ss[k].up.Some? ==> var m := ss[k].up.value;
      m.p.alive && m.p.next <= m.q.durableMax ==> m.p.next in ss[k].disk.store.spool
  {
    RunKeeps(ss, steps, k);
    hide Run, MemoryOk, Contiguous, FilesOk, RowsTrue, OthersIndexed;
    if ss[k].up.Some? {
      var m := ss[k].up.value;
      MemoryParts(ss[k].disk.files, ss[k].disk.active, ss[k].disk.store, m);
      hide StoredOk, PhaseOk, SequencesOk, OriginOk, QueueTrue, InsertedOk, WriterOk, RetentionOk, CountersOk;
      if m.p.alive && m.p.next <= m.q.durableMax {
        ProjectorNeverMisses(ss[k].disk.store.spool, m.q, m.p);
      }
    }
  }
}
