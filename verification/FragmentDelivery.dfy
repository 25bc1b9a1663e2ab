/** A split datagram sent through the cache: pending until its last missing piece
    arrives in whatever order, then handed over byte for byte. */
module FragmentDelivery {
  import opened Basics
  import opened FragmentCache
  import D = Datagram
  import O = DatagramOrder

  /** One arrival of a piece, with the table it found and the table it left. */
  datatype Arrival = Arrival(at: O.Delivery, before: Table, after: Table, out: Inserted)

  /** Arrivals of pieces of `p` under one key. Nothing is evicted, and between two
      arrivals the table may change as it likes except at that key. */
  ghost predicate Arrivals(run: seq<Arrival>, key: Key, p: seq<D.Piece>, maxBytes: nat, maxDatagrams: nat) {
    && (forall k | 0 <= k < |run| :: run[k].at.piece < |p|)
    && (forall k | 0 <= k < |run| ::
          Absorbed(run[k].before, run[k].after, key, p[run[k].at.piece], run[k].at.wireLen, run[k].at.now,
                   run[k].out, 0, maxBytes, maxDatagrams))
    && (forall k | 0 < k < |run| ::
          run[k].before - (run[k].before.Keys - {key}) == run[k - 1].after - (run[k - 1].after.Keys - {key}))
    && (run != [] ==> key !in run[0].before)
  }

  ghost function Order(run: seq<Arrival>): seq<O.Delivery> {
    if run == [] then [] else Order(run[..|run| - 1]) + [run[|run| - 1].at]
  }

  /** The datagram as it stands under `key`, after any change elsewhere. */
  lemma SameAt(t: Table, u: Table, key: Key)
    requires t - (t.Keys - {key}) == u - (u.Keys - {key})
    ensures key in t <==> key in u
    ensures key in t ==> t[key] == u[key]
  {
    var a, b := t - (t.Keys - {key}), u - (u.Keys - {key});
    assert key in t <==> key in a;
    assert key in u <==> key in b;
  }

  lemma EvictedNothing(before: Table, after: Table, maxBytes: nat, maxDatagrams: nat)
    requires Evicted(before, after, maxBytes, maxDatagrams) && |before| == |after|
    ensures after == before
  {
    hide Sum;
    if k :| k in before && k !in after {
      KeysShrink(before, k);
      CountKeys(after);
      Smaller(after.Keys, (before - {k}).Keys);
    }
  }

  lemma {:induction false} Smaller<T>(a: set<T>, b: set<T>)
    requires a <= b
    ensures |a| <= |b|
  {
    if a != {} {
      var x :| x in a;
      Smaller(a - {x}, b - {x});
    }
  }

  /** One arrival: the datagram completes exactly if this was the last missing piece. */
  lemma StepDelivers(p: seq<D.Piece>, whole: seq<Byte>, got: set<nat>, key: Key, a: Arrival, maxBytes: nat, maxDatagrams: nat)
    requires O.IsSplit(p, whole) && a.at.piece < |p|
    requires O.Holds(Current(a.before, key, a.at.now), p, whole, got)
    requires Absorbed(a.before, a.after, key, p[a.at.piece], a.at.wireLen, a.at.now, a.out, 0, maxBytes, maxDatagrams)
    ensures var got' := got + {a.at.piece};
      if forall i | 0 <= i < |p| :: i in got' then a.out.Completed? && a.out.payload == whole && key !in a.after
      else a.out == Pending && key in a.after && O.Holds(a.after[key], p, whole, got')
  {
    hide O.IsSplit, O.Holds, Evicted, D.Judge, D.Complete, D.Payload;
    var s := Current(a.before, key, a.at.now);
    O.SplitIsCut(p, whole, got, a.at.piece);
    hide O.Overtaken;
    O.DeliverOne(s, p, whole, got, a.at.piece, a.at.now, a.at.wireLen);
    var v := D.Judge(s, p[a.at.piece], a.at.now, a.at.wireLen);
    O.CompleteIff(v.s, p, whole, got + {a.at.piece});
    if !D.Complete(v.s) {
      EvictedNothing(a.before[key := v.s], a.after, maxBytes, maxDatagrams);
    }
  }

  ghost predicate Missing(p: seq<D.Piece>, order: seq<O.Delivery>) {
    exists i | 0 <= i < |p| :: i !in O.Delivered(order)
  }

  lemma HoldsFresh(p: seq<D.Piece>, whole: seq<Byte>, now: nat)
    requires p != []
    ensures O.Holds(D.Fresh(now), p, whole, {})
  {
    O.PickNone(p, 0, |p|);
  }

  /** In every order and with any exact duplicates, every arrival before the last
      missing piece leaves the datagram pending. */
  lemma {:induction false} PendingWhileMissing(p: seq<D.Piece>, whole: seq<Byte>, run: seq<Arrival>, key: Key,
                                               maxBytes: nat, maxDatagrams: nat)
    requires O.IsSplit(p, whole) && Arrivals(run, key, p, maxBytes, maxDatagrams)
    requires Missing(p, Order(run)) && run != []
    ensures var last := run[|run| - 1];
      last.out == Pending && key in last.after && O.Holds(last.after[key], p, whole, O.Delivered(Order(run)))
  {
    hide O.IsSplit, O.Holds, Absorbed;
    var a, earlier := run[|run| - 1], run[..|run| - 1];
    assert Order(run) == Order(earlier) + [a.at];
    assert Order(run)[..|Order(run)| - 1] == Order(earlier);
    var got := O.Delivered(Order(earlier));
    assert O.Delivered(Order(run)) == got + {a.at.piece};
    if earlier == [] {
      assert Order(earlier) == [];
      HoldsFresh(p, whole, a.at.now);
    } else {
      PendingWhileMissing(p, whole, earlier, key, maxBytes, maxDatagrams);
      SameAt(a.before, run[|run| - 2].after, key);
    }
    StepDelivers(p, whole, got, key, a, maxBytes, maxDatagrams);
  }

  /** And the arrival of the last missing piece hands over exactly the original. */
  lemma {:induction false} LastPieceCompletes(p: seq<D.Piece>, whole: seq<Byte>, run: seq<Arrival>, key: Key,
                                             maxBytes: nat, maxDatagrams: nat)
    requires O.IsSplit(p, whole) && Arrivals(run, key, p, maxBytes, maxDatagrams) && run != []
    requires Missing(p, Order(run[..|run| - 1])) && !Missing(p, Order(run))
    ensures run[|run| - 1].out.Completed? && run[|run| - 1].out.payload == whole && key !in run[|run| - 1].after
  {
    hide O.IsSplit, O.Holds, Absorbed;
    var a, earlier := run[|run| - 1], run[..|run| - 1];
    assert Order(run)[..|Order(run)| - 1] == Order(earlier);
    var got := O.Delivered(Order(earlier));
    assert O.Delivered(Order(run)) == got + {a.at.piece};
    if earlier == [] {
      assert Order(earlier) == [];
      HoldsFresh(p, whole, a.at.now);
    } else {
      PendingWhileMissing(p, whole, earlier, key, maxBytes, maxDatagrams);
      SameAt(a.before, run[|run| - 2].after, key);
    }
    StepDelivers(p, whole, got, key, a, maxBytes, maxDatagrams);
  }

  /** A fragment that shares a byte with a kept piece without being that piece again
      always drops the whole datagram. */
  lemma OverlapIsDropped(base: Table, after: Table, key: Key, f: D.Piece, wireLen: nat, now: nat, out: Inserted,
                         evicted: nat, maxBytes: nat, maxDatagrams: nat, i: nat)
    requires Absorbed(base, after, key, f, wireLen, now, out, evicted, maxBytes, maxDatagrams)
    requires key in base && D.Sound(base[key]) && i < |base[key].pieces|
    requires D.Shares(base[key].pieces[i], f) && base[key].pieces[i] != f
    ensures (out.DroppedOverlap? || out.DroppedInvalid?) && key !in after
  {
    hide D.Judge, D.Sound;
    D.OverlapDrops(base[key], f, now, wireLen, i);
  }
}
