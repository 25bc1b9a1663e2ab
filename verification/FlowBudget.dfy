/** The budget of active flows under every interleaving of the shards: one atomic
    counter, reserved before a flow is stored and released after it is removed. */
module FlowBudget {
  /** A shard's live flows, and what it has reserved or still has to give back. */
  datatype Local = Local(live: nat, reserved: nat, releasing: nat) {
    function Holds(): nat {
      live + reserved + releasing
    }
  }

  datatype System = System(active: nat, shards: seq<Local>)

  datatype Action = Reserve | Insert | Reject | Remove | Release

  function Total(shards: seq<Local>): nat {
    if shards == [] then 0 else Total(shards[..|shards| - 1]) + shards[|shards| - 1].Holds()
  }

  /** One step of shard `i`: each touches the shared counter at most once. */
  ghost predicate Step(max: nat, s: System, i: nat, a: Action, s': System) {
    i < |s.shards|
    && (var l := s.shards[i];
        match a
        case Reserve => s.active < max && s' == System(s.active + 1, s.shards[i := l.(reserved := l.reserved + 1)])
        case Insert => l.reserved > 0 && s' == s.(shards := s.shards[i := l.(reserved := l.reserved - 1, live := l.live + 1)])
        case Reject => l.reserved > 0 && s'.active == s.active - 1 && s'.shards == s.shards[i := l.(reserved := l.reserved - 1)]
        case Remove => l.live > 0 && s' == s.(shards := s.shards[i := l.(live := l.live - 1, releasing := l.releasing + 1)])
        case Release => l.releasing > 0 && s'.active == s.active - 1 && s'.shards == s.shards[i := l.(releasing := l.releasing - 1)])
  }

  ghost predicate Inv(max: nat, s: System) {
    s.active == Total(s.shards) && s.active <= max
  }

  lemma {:induction false} TotalUpdate(shards: seq<Local>, i: nat, l: Local)
    requires i < |shards|
    ensures Total(shards[i := l]) == Total(shards) - shards[i].Holds() + l.Holds()
    ensures Total(shards) >= shards[i].Holds()
  {
    var n := |shards| - 1;
    if i < n {
      assert shards[i := l][..n] == shards[..n][i := l];
      TotalUpdate(shards[..n], i, l);
    } else {
      assert shards[i := l][..n] == shards[..n];
    }
  }

  /** Giving back never takes the counter below zero. */
  lemma NeverUnderflows(max: nat, s: System, i: nat)
    requires Inv(max, s) && i < |s.shards| && (s.shards[i].reserved > 0 || s.shards[i].releasing > 0)
    ensures s.active >= 1
  {
    TotalUpdate(s.shards, i, s.shards[i]);
  }

  lemma StepKeeps(max: nat, s: System, i: nat, a: Action, s': System)
    requires Inv(max, s) && Step(max, s, i, a, s')
    ensures Inv(max, s')
  {
    TotalUpdate(s.shards, i, s'.shards[i]);
    hide Total;
    assert s'.shards == s.shards[i := s'.shards[i]];
  }

  datatype Move = Move(shard: nat, a: Action)

  ghost predicate Run(max: nat, ss: seq<System>, moves: seq<Move>) {
    && |ss| == |moves| + 1
    && ss[0].active == 0 && (forall i | 0 <= i < |ss[0].shards| :: ss[0].shards[i] == Local(0, 0, 0))
    && forall k | 0 <= k < |moves| :: Step(max, ss[k], moves[k].shard, moves[k].a, ss[k + 1])
  }

  lemma {:induction false} NothingHeld(shards: seq<Local>)
    requires forall i | 0 <= i < |shards| :: shards[i] == Local(0, 0, 0)
    ensures Total(shards) == 0
  {
    if shards != [] {
      NothingHeld(shards[..|shards| - 1]);
    }
  }

  /** In every run the counter is exactly the live flows plus what is in flight, and so
      the live flows of all shards never exceed the limit. */
  lemma {:induction false} BudgetKept(max: nat, ss: seq<System>, moves: seq<Move>, k: nat)
    requires Run(max, ss, moves) && k < |ss|
    ensures ss[k].active == Total(ss[k].shards) <= max
  {
    if k == 0 {
      NothingHeld(ss[0].shards);
    } else {
      BudgetKept(max, ss, moves, k - 1);
      hide Total;
      assert Step(max, ss[k - 1], moves[k - 1].shard, moves[k - 1].a, ss[k]);
      StepKeeps(max, ss[k - 1], moves[k - 1].shard, moves[k - 1].a, ss[k]);
    }
  }
}
