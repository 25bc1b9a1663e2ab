/** Order independence: a properly split datagram survives every delivery order and
    every exact duplicate, and is complete exactly when the last piece is in. Which orders
    a split with an empty final piece survives is stated exactly. */
module DatagramOrder {
  import opened Basics
  import opened Datagram

  /** `p` cuts `whole` into consecutive pieces, every one but the last a non-empty multiple
      of eight bytes; the last one may be empty. */
  ghost predicate IsCut(p: seq<Piece>, whole: seq<Byte>) {
    && p != [] && |whole| <= MAX_DATAGRAM
    && p[0].start == 0 && p[|p| - 1].End() == |whole|
    && (forall i | 0 <= i < |p| - 1 :: p[i].End() == p[i + 1].start)
    && (forall i | 0 <= i < |p| :: p[i].more <==> i < |p| - 1)
    && (forall i | 0 <= i < |p| - 1 :: p[i].data != [] && |p[i].data| % 8 == 0)
    && (forall i | 0 <= i < |p| :: p[i].End() <= |whole| && p[i].data == whole[p[i].start..p[i].End()])
  }

  /** A proper split: the last piece is not empty either. */
  ghost predicate IsSplit(p: seq<Piece>, whole: seq<Byte>) {
    p != [] && IsCut(p, whole) && p[|p| - 1].data != []
  }

  /** The piece that ends where an empty last piece stands arrives after it. */
  ghost predicate Overtaken(p: seq<Piece>, got: set<nat>, i: nat) {
    i + 2 == |p| && p[|p| - 1].data == [] && |p| - 1 in got
  }

  /** The pieces among `p[lo..hi]` whose index is in `got`, in order. */
  ghost function Pick(p: seq<Piece>, got: set<nat>, lo: nat, hi: nat): seq<Piece>
    requires lo <= hi <= |p|
  {
    if lo == hi then [] else Pick(p, got, lo, hi - 1) + (if hi - 1 in got then [p[hi - 1]] else [])
  }

  ghost predicate Holds(s: State, p: seq<Piece>, whole: seq<Byte>, got: set<nat>)
    requires p != []
  {
    && s.pieces == Pick(p, got, 0, |p|)
    && s.totalLen == (if |p| - 1 in got then Some(|whole|) else None)
  }

  lemma {:induction false} PickConcat(p: seq<Piece>, got: set<nat>, lo: nat, mid: nat, hi: nat)
    requires lo <= mid <= hi <= |p|
    ensures Pick(p, got, lo, mid) + Pick(p, got, mid, hi) == Pick(p, got, lo, hi)
  {
    if mid < hi {
      PickConcat(p, got, lo, mid, hi - 1);
    }
  }

  lemma {:induction false} PickMember(p: seq<Piece>, got: set<nat>, lo: nat, hi: nat, k: nat) returns (j: nat)
    requires lo <= hi <= |p| && k < |Pick(p, got, lo, hi)|
    ensures lo <= j < hi && j in got && Pick(p, got, lo, hi)[k] == p[j]
  {
    if hi - 1 in got && k == |Pick(p, got, lo, hi)| - 1 {
      j := hi - 1;
    } else {
      j := PickMember(p, got, lo, hi - 1, k);
    }
  }

  /** Indices outside the range do not matter. */
  lemma {:induction false} PickLocal(p: seq<Piece>, got: set<nat>, got': set<nat>, lo: nat, hi: nat)
    requires lo <= hi <= |p| && forall i | lo <= i < hi :: i in got <==> i in got'
    ensures Pick(p, got, lo, hi) == Pick(p, got', lo, hi)
  {
    if lo < hi {
      PickLocal(p, got, got', lo, hi - 1);
    }
  }

  lemma {:induction false} PickAll(p: seq<Piece>, got: set<nat>, lo: nat, hi: nat)
    requires lo <= hi <= |p| && forall i | lo <= i < hi :: i in got
    ensures Pick(p, got, lo, hi) == p[lo..hi]
  {
    if lo < hi {
      PickAll(p, got, lo, hi - 1);
    }
  }

  lemma {:induction false} SplitOrdered(p: seq<Piece>, whole: seq<Byte>, i: nat, j: nat)
    requires IsCut(p, whole) && i < j < |p|
    ensures p[i].End() <= p[j].start && p[i].start < p[j].start
  {
    if i + 1 < j {
      SplitOrdered(p, whole, i, j - 1);
      assert p[j - 1].End() == p[j].start;
    }
  }

  lemma SplitFacts(p: seq<Piece>, whole: seq<Byte>, i: nat)
    requires IsCut(p, whole) && i < |p|
    ensures p[i].End() <= |whole| <= MAX_DATAGRAM && (p[i].more <==> i < |p| - 1)
    ensures p[i].more ==> p[i].data != [] && |p[i].data| % 8 == 0
    ensures !p[i].more ==> p[i].End() == |whole|
    ensures p[i].End() == if i < |p| - 1 then p[i + 1].start else |whole|
    ensures p[i].data == whole[p[i].start..p[i].End()]
  {
  }

  lemma PickAround(p: seq<Piece>, got: set<nat>, i: nat)
    requires i < |p|
    ensures Pick(p, got, 0, |p|) == Pick(p, got, 0, i) + (if i in got then [p[i]] else []) + Pick(p, got, i + 1, |p|)
  {
    hide Pick;
    PickConcat(p, got, 0, i, |p|);
    PickConcat(p, got, i, i + 1, |p|);
    PickOne(p, got, i);
    var before, here, after := Pick(p, got, 0, i), Pick(p, got, i, i + 1), Pick(p, got, i + 1, |p|);
    assert before + (here + after) == before + here + after;
  }

  lemma PickOne(p: seq<Piece>, got: set<nat>, i: nat)
    requires i < |p|
    ensures Pick(p, got, i, i + 1) == if i in got then [p[i]] else []
  {
    assert Pick(p, got, i, i) == [];
  }

  ghost predicate AllBefore(q: seq<Piece>, f: Piece) {
    forall k | 0 <= k < |q| :: q[k].End() <= f.start && q[k].start < f.start
  }

  ghost predicate AllBeyond(q: seq<Piece>, f: Piece) {
    forall k | 0 <= k < |q| :: f.End() <= q[k].start && f.start < q[k].start
  }

  lemma PickBefore(p: seq<Piece>, whole: seq<Byte>, got: set<nat>, i: nat)
    requires IsCut(p, whole) && i < |p|
    ensures AllBefore(Pick(p, got, 0, i), p[i])
  {
    hide Pick, IsCut;
    var before := Pick(p, got, 0, i);
    forall k | 0 <= k < |before|
      ensures before[k].End() <= p[i].start && before[k].start < p[i].start
    {
      var j := PickMember(p, got, 0, i, k);
      SplitOrdered(p, whole, j, i);
    }
  }

  lemma PickBeyond(p: seq<Piece>, whole: seq<Byte>, got: set<nat>, i: nat)
    requires IsCut(p, whole) && i < |p|
    ensures AllBeyond(Pick(p, got, i + 1, |p|), p[i])
  {
    hide Pick, IsCut;
    var after := Pick(p, got, i + 1, |p|);
    forall k | 0 <= k < |after|
      ensures p[i].End() <= after[k].start && p[i].start < after[k].start
    {
      var j := PickMember(p, got, i + 1, |p|, k);
      SplitOrdered(p, whole, i, j);
    }
  }

  lemma CountUnique(p: seq<Piece>, offset: nat, n: nat)
    requires n <= |p| && (forall k | 0 <= k < n :: p[k].start < offset) && (forall k | n <= k < |p| :: p[k].start >= offset)
    ensures CountBelow(p, offset) == n
  {
    hide CountBelow;
    var m := CountBelow(p, offset);
    if m < |p| { assert p[m].start >= offset; }
    if m > 0 { assert p[m - 1].start < offset; }
  }

  lemma CountAround(before: seq<Piece>, here: seq<Piece>, after: seq<Piece>, f: Piece)
    requires AllBefore(before, f) && AllBeyond(after, f) && (here == [] || here == [f])
    ensures CountBelow(before + here + after, f.start) == |before|
  {
    hide CountBelow;
    CountUnique(before + here + after, f.start, |before|);
  }

  /** Where piece `i` belongs among the pieces received so far. */
  lemma PlaceOf(p: seq<Piece>, whole: seq<Byte>, got: set<nat>, i: nat)
    requires IsCut(p, whole) && i < |p|
    ensures var before, after := Pick(p, got, 0, i), Pick(p, got, i + 1, |p|);
      CountBelow(before + (if i in got then [p[i]] else []) + after, p[i].start) == |before|
  {
    hide Pick, IsCut, CountBelow, AllBefore, AllBeyond;
    PickBefore(p, whole, got, i);
    PickBeyond(p, whole, got, i);
    CountAround(Pick(p, got, 0, i), if i in got then [p[i]] else [], Pick(p, got, i + 1, |p|), p[i]);
  }

  /** One delivery: a piece seen before changes nothing, a new one is added. */
  lemma DeliverOne(s: State, p: seq<Piece>, whole: seq<Byte>, got: set<nat>, i: nat, now: nat, wireLen: nat)
    requires IsCut(p, whole) && i < |p| && Holds(s, p, whole, got) && !Overtaken(p, got, i)
    ensures var v := Judge(s, p[i], now, wireLen);
      && !v.Rejected? && (v.Duplicate? <==> i in got)
      && Holds(v.s, p, whole, got + {i})
    ensures !Malformed(p[i])
  {
    hide Pick, IsCut, CountBelow, Total, Spliced;
    SplitFacts(p, whole, i);
    PickAround(p, got, i);
    PlaceOf(p, whole, got, i);
    TotalAgrees(s, p, whole, got, i);
    var before, after := Pick(p, got, 0, i), Pick(p, got, i + 1, |p|);
    var got' := got + {i};
    if i in got {
      assert got' == got;
      assert s.pieces[|before|] == p[i];
    } else {
      assert s.pieces == before + after;
      PickBefore(p, whole, got, i);
      PickBeyond(p, whole, got, i);
      assert before != [] ==> s.pieces[|before| - 1] == before[|before| - 1];
      assert after != [] ==> s.pieces[|before|] == after[0];
      PickAround(p, got', i);
      PickLocal(p, got, got', 0, i);
      PickLocal(p, got, got', i + 1, |p|);
      SplicedMiddle(before, after, p[i]);
    }
  }

  lemma TotalAgrees(s: State, p: seq<Piece>, whole: seq<Byte>, got: set<nat>, i: nat)
    requires IsCut(p, whole) && i < |p| && Holds(s, p, whole, got) && !Overtaken(p, got, i)
    ensures Total(s, p[i]) == Some(if |p| - 1 in got + {i} then Some(|whole|) else None)
  {
    forall k | 0 <= k < |s.pieces|
      ensures s.pieces[k].End() <= |whole|
    {
      var j := PickMember(p, got, 0, |p|, k);
      SplitFacts(p, whole, j);
    }
    SplitFacts(p, whole, i);
    SplitFacts(p, whole, |p| - 1);
    if i < |p| - 2 {
      SplitOrdered(p, whole, i + 1, |p| - 1);
      SplitFacts(p, whole, i + 1);
    }
  }

  lemma SplitIsCut(p: seq<Piece>, whole: seq<Byte>, got: set<nat>, i: nat)
    requires IsSplit(p, whole)
    ensures p != [] && IsCut(p, whole) && p[|p| - 1].data != [] && !Overtaken(p, got, i)
  {
    hide IsCut;
  }

  /** The datagram is dropped when the last piece is empty and overtakes, even by a
      duplicate, the piece that ends there. */
  lemma OvertakenDrops(s: State, p: seq<Piece>, whole: seq<Byte>, got: set<nat>, i: nat, now: nat, wireLen: nat)
    requires IsCut(p, whole) && i < |p| && Holds(s, p, whole, got) && Overtaken(p, got, i)
    ensures Judge(s, p[i], now, wireLen) == Rejected(Invalid)
  {
    SplitFacts(p, whole, i);
    SplitFacts(p, whole, |p| - 1);
    hide IsCut, Pick, CountBelow;
  }

  // ---------- Completion ----------

  lemma {:induction false} ContiguousPrefix(p: seq<Piece>, whole: seq<Byte>, i: nat, rest: seq<Piece>, from: nat)
    requires IsCut(p, whole) && from <= i <= |p|
    ensures Contiguous(p[from..i] + rest, if from < |p| then p[from].start else |whole|)
         == Contiguous(rest, if i < |p| then p[i].start else |whole|)
    decreases i - from
  {
    if from == i {
      assert p[from..i] + rest == rest;
    } else {
      SplitFacts(p, whole, from);
      ContiguousPrefix(p, whole, i, rest, from + 1);
      hide IsCut;
      assert (p[from..i] + rest)[0] == p[from];
      assert (p[from..i] + rest)[1..] == p[from + 1..i] + rest;
    }
  }

  lemma {:induction false} PayloadIsWhole(p: seq<Piece>, whole: seq<Byte>, from: nat)
    requires IsCut(p, whole) && from <= |p|
    ensures Payload(p[from..]) == whole[if from < |p| then p[from].start else |whole|..]
    decreases |p| - from
  {
    if from < |p| {
      SplitFacts(p, whole, from);
      PayloadIsWhole(p, whole, from + 1);
      hide IsCut;
      assert p[from..][1..] == p[from + 1..];
      var next := if from + 1 < |p| then p[from + 1].start else |whole|;
      assert whole[p[from].start..] == whole[p[from].start..next] + whole[next..];
    }
  }

  lemma {:induction false} FirstMissing(n: nat, got: set<nat>) returns (i: nat)
    requires exists k | 0 <= k < n :: k !in got
    ensures i < n && i !in got && forall k | 0 <= k < i :: k in got
  {
    i := 0;
    while i in got
      invariant i < n && forall k | 0 <= k < i :: k in got
      decreases n - i
    {
      assert i < n - 1 by {
        var k :| 0 <= k < n && k !in got;
        assert i != k;
      }
      i := i + 1;
    }
  }

  /** A datagram is complete exactly when every piece is in, and is then the original. */
  lemma CompleteIff(s: State, p: seq<Piece>, whole: seq<Byte>, got: set<nat>)
    requires IsCut(p, whole) && Holds(s, p, whole, got)
    ensures Complete(s) <==> forall i | 0 <= i < |p| :: i in got
    ensures Complete(s) ==> Payload(s.pieces) == whole
  {
    if forall i | 0 <= i < |p| :: i in got {
      AllIn(s, p, whole, got);
    } else {
      var i := FirstMissing(|p|, got);
      OneMissing(s, p, whole, got, i);
    }
  }

  lemma AllIn(s: State, p: seq<Piece>, whole: seq<Byte>, got: set<nat>)
    requires IsCut(p, whole) && Holds(s, p, whole, got) && forall i | 0 <= i < |p| :: i in got
    ensures Complete(s) && Payload(s.pieces) == whole
  {
    assert p[0].start == 0;
    assert Contiguous([], |whole|) == Some(|whole|);
    hide IsCut, Pick, Contiguous, Payload;
    PickAll(p, got, 0, |p|);
    ContiguousPrefix(p, whole, |p|, [], 0);
    PayloadIsWhole(p, whole, 0);
    assert p[0..|p|] == p && p[0..|p|] + [] == p && p[0..] == p && whole[0..] == whole;
  }

  lemma OneMissing(s: State, p: seq<Piece>, whole: seq<Byte>, got: set<nat>, i: nat)
    requires IsCut(p, whole) && Holds(s, p, whole, got)
    requires i < |p| && i !in got && forall k | 0 <= k < i :: k in got
    ensures !Complete(s)
  {
    PickAround(p, got, i);
    PickAll(p, got, 0, i);
    PickBeyond(p, whole, got, i);
    var rest := Pick(p, got, i + 1, |p|);
    ContiguousPrefix(p, whole, i, rest, 0);
    SplitFacts(p, whole, i);
    assert p[0].start == 0;
    hide IsCut, Pick;
    assert s.pieces == p[0..i] + rest;
  }

  datatype Delivery = Delivery(piece: nat, now: nat, wireLen: nat)

  ghost predicate Indices(p: seq<Piece>, order: seq<Delivery>) {
    forall d | d in order :: d.piece < |p|
  }

  ghost function Delivered(order: seq<Delivery>): set<nat> {
    if order == [] then {} else Delivered(order[..|order| - 1]) + {order[|order| - 1].piece}
  }

  /** What is left of a datagram after the deliveries, None once it was dropped. The cache
      would open a fresh datagram for the next fragment after a drop; that one is not this
      datagram any more. */
  ghost function AfterAll(p: seq<Piece>, order: seq<Delivery>, start: nat): Option<State>
    requires Indices(p, order)
  {
    if order == [] then Some(Fresh(start))
    else
      var last := order[|order| - 1];
      match AfterAll(p, order[..|order| - 1], start)
      case None => None
      case Some(s) =>
        if Malformed(p[last.piece]) then None
        else
          var v := Judge(s, p[last.piece], last.now, last.wireLen);
          if v.Rejected? then None else Some(v.s)
  }

  /** No delivery is overtaken by an empty last piece. */
  ghost predicate InTime(p: seq<Piece>, order: seq<Delivery>) {
    order == []
    || (InTime(p, order[..|order| - 1])
        && !Overtaken(p, Delivered(order[..|order| - 1]), order[|order| - 1].piece))
  }

  /** The datagram is kept, incomplete as long as a piece is missing, and complete with
      exactly the original bytes as soon as none is. */
  ghost predicate Reassembles(p: seq<Piece>, whole: seq<Byte>, order: seq<Delivery>, start: nat)
    requires p != [] && Indices(p, order)
  {
    var r := AfterAll(p, order, start);
    && r.Some?
    && Holds(r.value, p, whole, Delivered(order))
    && (Complete(r.value) <==> forall i | 0 <= i < |p| :: i in Delivered(order))
    && (Complete(r.value) ==> Payload(r.value.pieces) == whole)
  }

  /** Exactly which orders, with any exact duplicates, a cut survives, and with what result. */
  lemma {:induction false} OrderOutcome(p: seq<Piece>, whole: seq<Byte>, order: seq<Delivery>, start: nat)
    requires IsCut(p, whole) && Indices(p, order)
    ensures AfterAll(p, order, start).Some? <==> InTime(p, order)
    ensures InTime(p, order) ==> Reassembles(p, whole, order, start)
  {
    hide IsCut, Pick, Judge, Complete, Payload, Overtaken;
    if order == [] {
      PickNone(p, 0, |p|);
    } else {
      var last := order[|order| - 1];
      var before := order[..|order| - 1];
      OrderOutcome(p, whole, before, start);
      if InTime(p, before) {
        var s := AfterAll(p, before, start).value;
        if Overtaken(p, Delivered(before), last.piece) {
          OvertakenDrops(s, p, whole, Delivered(before), last.piece, last.now, last.wireLen);
        } else {
          DeliverOne(s, p, whole, Delivered(before), last.piece, last.now, last.wireLen);
        }
      }
    }
    if InTime(p, order) {
      CompleteIff(AfterAll(p, order, start).value, p, whole, Delivered(order));
    }
  }

  lemma {:induction false} NeverOvertaken(p: seq<Piece>, order: seq<Delivery>)
    requires p != [] && (p[|p| - 1].data != [] || |p| == 1)
    ensures InTime(p, order)
  {
    if order != [] {
      NeverOvertaken(p, order[..|order| - 1]);
    }
  }

  /** Every delivery order of a proper split, with any number of exact duplicates, keeps
      the datagram and completes it with exactly the original bytes. */
  lemma OrderIndependent(p: seq<Piece>, whole: seq<Byte>, order: seq<Delivery>, start: nat)
    requires IsSplit(p, whole) && Indices(p, order)
    ensures Reassembles(p, whole, order, start)
  {
    SplitIsCut(p, whole, {}, 0);
    hide IsCut, Reassembles, AfterAll;
    NeverOvertaken(p, order);
    OrderOutcome(p, whole, order, start);
  }

  /** Two deliveries that drop a datagram whose empty last piece is not its only one. */
  function LastFirst(p: seq<Piece>): seq<Delivery>
    requires |p| >= 2
  {
    [Delivery(|p| - 1, 0, 0), Delivery(|p| - 2, 0, 0)]
  }

  /** Reassembly of a cut does not depend on the order if and only if its last piece is
      not empty, or is the only one. */
  lemma OrderIndependentIff(p: seq<Piece>, whole: seq<Byte>, start: nat)
    requires p != [] && IsCut(p, whole)
    ensures (forall order | Indices(p, order) :: Reassembles(p, whole, order, start)) <==> p[|p| - 1].data != [] || |p| == 1
  {
    hide IsCut, Holds;
    if p[|p| - 1].data != [] || |p| == 1 {
      forall order | Indices(p, order)
        ensures Reassembles(p, whole, order, start)
      {
        hide Reassembles;
        NeverOvertaken(p, order);
        OrderOutcome(p, whole, order, start);
      }
    } else {
      var order := LastFirst(p);
      OrderOutcome(p, whole, order, start);
      LateLast(p);
      assert Indices(p, order) && !Reassembles(p, whole, order, start);
    }
  }

  lemma {:induction false} LateLast(p: seq<Piece>)
    requires |p| >= 2 && p[|p| - 1].data == []
    ensures !InTime(p, LastFirst(p))
  {
    var order := LastFirst(p);
    var before := order[..1];
    assert order[..|order| - 1] == before && before[|before| - 1] == Delivery(|p| - 1, 0, 0);
    assert |p| - 1 in Delivered(before);
  }

  lemma {:induction false} PickNone(p: seq<Piece>, lo: nat, hi: nat)
    requires lo <= hi <= |p|
    ensures Pick(p, {}, lo, hi) == []
  {
    if lo < hi {
      PickNone(p, lo, hi - 1);
    }
  }
}
