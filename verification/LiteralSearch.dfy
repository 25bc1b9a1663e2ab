/** Streaming search for one literal: each record is searched on its own, plus a small
    bridge over the boundary with the bytes before it. */
module LiteralSearch {
  import opened Basics

  datatype Record = Record(offset: nat, data: seq<Byte>, generation: nat) {
    function End(): nat {
      offset + |data|
    }
  }

  /** The last bytes of one stream, kept for the next record of that stream. */
  datatype Tail = Tail(data: seq<Byte>, endOffset: nat, generation: nat)

  predicate OccursAt(w: seq<Byte>, hay: seq<Byte>, p: nat) {
    p + |w| <= |hay| && hay[p..p + |w|] == w
  }

  // ---------- Leftmost non-overlapping search ----------

  function First(w: seq<Byte>, hay: seq<Byte>, from: nat): (p: Option<nat>)
    ensures p.Some? ==> from <= p.value && OccursAt(w, hay, p.value)
    ensures forall s: nat | from <= s && OccursAt(w, hay, s) :: p.Some? && p.value <= s
    decreases |hay| - from
  {
    if from + |w| > |hay| then None
    else if hay[from..from + |w|] == w then Some(from)
    else First(w, hay, from + 1)
  }

  function FindIter(w: seq<Byte>, hay: seq<Byte>, from: nat): seq<nat>
    requires w != []
    decreases |hay| - from
  {
    match First(w, hay, from)
    case None => []
    case Some(p) => [p] + FindIter(w, hay, p + |w|)
  }

  ghost predicate Spaced(q: seq<nat>, gap: nat) {
    && (forall i | 0 < i < |q| :: q[i - 1] + gap <= q[i])
    && (forall i, j | 0 <= i < j < |q| :: q[i] < q[j])
  }

  ghost predicate AllOccur(w: seq<Byte>, hay: seq<Byte>, q: seq<nat>) {
    forall i | 0 <= i < |q| :: OccursAt(w, hay, q[i])
  }

  /** Some match in `q` starts at or before `s` and reaches over it. */
  ghost predicate Covered(q: seq<nat>, s: nat, len: nat) {
    exists i :: 0 <= i < |q| && q[i] <= s < q[i] + len
  }

  lemma {:induction false} FindIterSound(w: seq<Byte>, hay: seq<Byte>, from: nat)
    requires w != []
    ensures var q := FindIter(w, hay, from);
      AllOccur(w, hay, q) && Spaced(q, |w|) && forall i | 0 <= i < |q| :: from <= q[i]
    decreases |hay| - from
  {
    var q := FindIter(w, hay, from);
    if q != [] {
      var p := First(w, hay, from).value;
      var rest := FindIter(w, hay, p + |w|);
      assert q == [p] + rest;
      FindIterSound(w, hay, p + |w|);
      SpacedCons(p, rest, |w|);
      hide First, FindIter, OccursAt, Spaced;
    }
  }

  lemma SpacedCons(p: nat, rest: seq<nat>, gap: nat)
    requires Spaced(rest, gap) && gap > 0 && forall i | 0 <= i < |rest| :: p + gap <= rest[i]
    ensures Spaced([p] + rest, gap)
  {
    var q := [p] + rest;
    assert forall i | 0 < i < |q| :: q[i] == rest[i - 1];
  }

  lemma {:induction false} FindIterComplete(w: seq<Byte>, hay: seq<Byte>, from: nat, s: nat)
    requires w != [] && from <= s && OccursAt(w, hay, s)
    ensures Covered(FindIter(w, hay, from), s, |w|)
    decreases |hay| - from
  {
    hide OccursAt;
    var p := First(w, hay, from).value;
    var q := FindIter(w, hay, from);
    var rest := FindIter(w, hay, p + |w|);
    assert q == [p] + rest;
    hide FindIter;
    if s < p + |w| {
      assert q[0] <= s < q[0] + |w|;
    } else {
      FindIterComplete(w, hay, p + |w|, s);
      var i :| 0 <= i < |rest| && rest[i] <= s < rest[i] + |w|;
      assert q[i + 1] == rest[i];
    }
  }

  /** A text shorter than two literals holds at most one match. */
  lemma FindIterFew(w: seq<Byte>, hay: seq<Byte>)
    requires w != [] && |hay| < 2 * |w|
    ensures |FindIter(w, hay, 0)| <= 1
  {
    hide FindIter;
    FindIterSound(w, hay, 0);
    RoomForTwo(w, hay, FindIter(w, hay, 0));
  }

  lemma RoomForTwo(w: seq<Byte>, hay: seq<Byte>, q: seq<nat>)
    requires AllOccur(w, hay, q) && Spaced(q, |w|)
    ensures |q| >= 2 ==> |hay| >= 2 * |w|
  {
    if |q| >= 2 {
      assert OccursAt(w, hay, q[1]) && q[0] + |w| <= q[1];
    }
  }

  // ---------- One record ----------

  function LastBytes(s: seq<Byte>, n: nat): seq<Byte> {
    s[|s| - Min(n, |s|)..]
  }

  function Bridge(w: seq<Byte>, prefix: seq<Byte>, data: seq<Byte>): seq<Byte>
    requires w != []
  {
    LastBytes(prefix, |w| - 1) + FirstBytes(data, |w| - 1)
  }

  function Shifted(q: seq<nat>, base: nat): (r: seq<nat>)
    ensures |r| == |q| && forall i | 0 <= i < |q| :: r[i] == q[i] + base
  {
    seq(|q|, i requires 0 <= i < |q| => q[i] + base)
  }

  /** Matches that start before `offset` and end after it. */
  function Crossing(q: seq<nat>, offset: nat, len: nat): seq<nat> {
    if q == [] then []
    else
      var last := q[|q| - 1];
      Crossing(q[..|q| - 1], offset, len) + if last < offset < last + len then [last] else []
  }

  /** Everything found in one record, as positions in the stream. */
  function Hits(w: seq<Byte>, r: Record, prefix: seq<Byte>): seq<nat>
    requires w != [] && |prefix| <= r.offset
  {
    BoundaryHits(w, r, prefix) + Shifted(FindIter(w, r.data, 0), r.offset)
  }

  function BoundaryHits(w: seq<Byte>, r: Record, prefix: seq<Byte>): seq<nat>
    requires w != [] && |prefix| <= r.offset
  {
    if prefix == [] || |w| == 1 then []
    else
      var base := r.offset - |LastBytes(prefix, |w| - 1)|;
      Crossing(Shifted(FindIter(w, Bridge(w, prefix, r.data), 0), base), r.offset, |w|)
  }

  /** Never lets a match reach over a gap in the offsets or a change of the rules. */
  function PrefixFor(tail: Option<Tail>, r: Record): seq<Byte> {
    if tail.Some? && tail.value.generation == r.generation && tail.value.endOffset == r.offset then tail.value.data else []
  }

  lemma TailSpans(a: seq<Byte>, b: seq<Byte>, n: nat)
    requires n <= |a|
    ensures (a + b)[|a| - n..] == a[|a| - n..] + b
  {
  }

  /** What is kept of a stream: its last `keep` bytes. */
  function BuildTail(previous: seq<Byte>, data: seq<Byte>, keep: nat): (tail: seq<Byte>)
    ensures tail == LastBytes(previous + data, keep)
  {
    if keep == 0 then []
    else if |data| >= keep then
      assert (previous + data)[|previous| + |data| - keep..] == data[|data| - keep..];
      data[|data| - keep..]
    else
      var previousKeep := Min(keep - |data|, |previous|);
      TailSpans(previous, data, previousKeep);
      previous[|previous| - previousKeep..] + data
  }

  function TailAfter(tail: Option<Tail>, r: Record, keep: nat): Option<Tail> {
    if keep == 0 then None else Some(Tail(BuildTail(PrefixFor(tail, r), r.data, keep), r.End(), r.generation))
  }

  // ---------- One record as part of a contiguous stream ----------

  lemma WithinSlice(w: seq<Byte>, text: seq<Byte>, from: nat, to: nat, p: nat)
    requires from <= to <= |text|
    ensures OccursAt(w, text[from..to], p) <==> OccursAt(w, text, from + p) && from + p + |w| <= to
  {
    if from + p + |w| <= to {
      SliceOfSlice(text, from, to, p, p + |w|);
    }
  }

  lemma BridgeIsSlice(w: seq<Byte>, past: seq<Byte>, keep: nat, data: seq<Byte>)
    requires w != [] && keep >= |w| - 1
    ensures var text := past + data;
      Bridge(w, LastBytes(past, keep), data)
        == text[|past| - Min(|w| - 1, |past|)..|past| + Min(|w| - 1, |data|)]
    ensures |LastBytes(LastBytes(past, keep), |w| - 1)| == Min(|w| - 1, |past|)
  {
    var n, m := Min(|w| - 1, |past|), Min(|w| - 1, |data|);
    assert LastBytes(LastBytes(past, keep), |w| - 1) == past[|past| - n..];
    assert (past + data)[|past| - n..|past| + m] == past[|past| - n..] + data[..m];
  }

  /** The filter on bridge matches never removes anything when there is one literal:
      a match inside either half would need as many bytes as the literal has. */
  lemma CrossingAll(w: seq<Byte>, lead: nat, bridge: seq<Byte>, offset: nat)
    requires w != [] && lead <= |w| - 1 && |bridge| <= lead + |w| - 1 && lead <= offset
    ensures var found := Shifted(FindIter(w, bridge, 0), offset - lead);
      Crossing(found, offset, |w|) == found && |found| <= 1
  {
    FindIterFew(w, bridge);
    FindIterSound(w, bridge, 0);
    hide FindIter;
    var q := FindIter(w, bridge, 0);
    var found := Shifted(q, offset - lead);
    if |q| == 1 {
      assert OccursAt(w, bridge, q[0]);
      assert found[..0] == [];
      assert Crossing([], offset, |w|) == [];
      assert found == [found[0]];
    }
  }

  /** The bytes of a contiguous stream up to `r`, of which the kept prefix is the end. */
  ghost predicate Follows(past: seq<Byte>, start: nat, r: Record, prefix: seq<Byte>, keep: nat) {
    start + |past| == r.offset && prefix == LastBytes(past, keep)
  }

  ghost predicate InStream(w: seq<Byte>, text: seq<Byte>, start: nat, h: nat) {
    h >= start && OccursAt(w, text, h - start)
  }

  lemma FollowsFits(past: seq<Byte>, start: nat, r: Record, prefix: seq<Byte>, keep: nat)
    requires Follows(past, start, r, prefix, keep)
    ensures |prefix| <= r.offset && |prefix| == Min(keep, |past|)
  {
  }

  lemma BoundaryIs(w: seq<Byte>, past: seq<Byte>, start: nat, r: Record, prefix: seq<Byte>, keep: nat)
    requires w != [] && keep >= |w| - 1 && Follows(past, start, r, prefix, keep)
    ensures |prefix| <= r.offset
    ensures var n := Min(|w| - 1, |past|);
      var bridge := (past + r.data)[|past| - n..|past| + Min(|w| - 1, |r.data|)];
      BoundaryHits(w, r, prefix) == if n == 0 then [] else Shifted(FindIter(w, bridge, 0), r.offset - n)
    ensures |BoundaryHits(w, r, prefix)| <= 1
  {
    hide Bridge, FindIter, Crossing, Shifted, LastBytes;
    FollowsFits(past, start, r, prefix, keep);
    BridgeIsSlice(w, past, keep, r.data);
    var n := Min(|w| - 1, |past|);
    var bridge := (past + r.data)[|past| - n..|past| + Min(|w| - 1, |r.data|)];
    assert |bridge| == n + Min(|w| - 1, |r.data|);
    CrossingAll(w, n, bridge, r.offset);
  }

  /** Matches in `text[from..to]`, moved to where they are in the stream. */
  lemma ShiftedTrue(w: seq<Byte>, text: seq<Byte>, start: nat, from: nat, to: nat, base: nat, i: nat)
    requires w != [] && from <= to <= |text| && base == start + from
    requires i < |FindIter(w, text[from..to], 0)|
    ensures var h := Shifted(FindIter(w, text[from..to], 0), base)[i];
      InStream(w, text, start, h) && base <= h && h + |w| <= start + to
  {
    hide FindIter, First, Spaced;
    FindIterSound(w, text[from..to], 0);
    WithinSlice(w, text, from, to, FindIter(w, text[from..to], 0)[i]);
  }

  lemma ShiftedCover(w: seq<Byte>, text: seq<Byte>, start: nat, from: nat, to: nat, base: nat, s: nat)
    requires w != [] && from <= to <= |text| && base == start + from
    requires InStream(w, text, start, s) && base <= s && s + |w| <= start + to
    ensures Covered(Shifted(FindIter(w, text[from..to], 0), base), s, |w|)
  {
    hide FindIter, First;
    WithinSlice(w, text, from, to, s - base);
    FindIterComplete(w, text[from..to], 0, s - base);
    var q := FindIter(w, text[from..to], 0);
    var k :| 0 <= k < |q| && q[k] <= s - base < q[k] + |w|;
    assert Shifted(q, base)[k] <= s < Shifted(q, base)[k] + |w|;
  }

  lemma CoveredConcat(a: seq<nat>, b: seq<nat>, s: nat, len: nat)
    requires Covered(a, s, len) || Covered(b, s, len)
    ensures Covered(a + b, s, len)
  {
    if Covered(a, s, len) {
      var k :| 0 <= k < |a| && a[k] <= s < a[k] + len;
      assert (a + b)[k] == a[k];
    } else {
      var k :| 0 <= k < |b| && b[k] <= s < b[k] + len;
      assert (a + b)[|a| + k] == b[k];
    }
  }

  lemma BoundaryTrue(w: seq<Byte>, past: seq<Byte>, start: nat, r: Record, prefix: seq<Byte>, keep: nat)
    requires w != [] && keep >= |w| - 1 && Follows(past, start, r, prefix, keep) && |prefix| <= r.offset
    ensures |BoundaryHits(w, r, prefix)| <= 1
    ensures forall h | h in BoundaryHits(w, r, prefix) ::
      InStream(w, past + r.data, start, h) && h < r.offset < h + |w| <= r.End()
  {
    hide BoundaryHits, FindIter, Shifted, Follows, InStream, First, LastBytes, Bridge;
    BoundaryIs(w, past, start, r, prefix, keep);
    FollowsOffset(past, start, r, prefix, keep);
    var text := past + r.data;
    var n, m := Min(|w| - 1, |past|), Min(|w| - 1, |r.data|);
    var b := BoundaryHits(w, r, prefix);
    if b != [] {
      ShiftedTrue(w, text, start, |past| - n, |past| + m, r.offset - n, 0);
      assert b == [b[0]];
    }
  }

  lemma DirectTrue(w: seq<Byte>, past: seq<Byte>, start: nat, r: Record, i: nat)
    requires w != [] && start + |past| == r.offset && i < |FindIter(w, r.data, 0)|
    ensures var h := Shifted(FindIter(w, r.data, 0), r.offset)[i];
      InStream(w, past + r.data, start, h) && r.offset <= h && h + |w| <= r.End()
  {
    var text := past + r.data;
    assert text[|past|..|text|] == r.data;
    hide FindIter, Shifted, InStream;
    ShiftedTrue(w, text, start, |past|, |text|, r.offset, i);
  }

  /** Everything reported is a true occurrence that ends in this record. */
  lemma HitsTrue(w: seq<Byte>, past: seq<Byte>, start: nat, r: Record, prefix: seq<Byte>, keep: nat, i: nat)
    requires w != [] && keep >= |w| - 1 && Follows(past, start, r, prefix, keep)
    requires |prefix| <= r.offset && i < |Hits(w, r, prefix)|
    ensures var h := Hits(w, r, prefix)[i];
      InStream(w, past + r.data, start, h) && r.offset < h + |w| <= r.End()
    ensures i < |BoundaryHits(w, r, prefix)| <==> Hits(w, r, prefix)[i] < r.offset
  {
    hide BoundaryHits, FindIter, Shifted, InStream, Follows;
    FollowsFits(past, start, r, prefix, keep);
    FollowsOffset(past, start, r, prefix, keep);
    BoundaryTrue(w, past, start, r, prefix, keep);
    var b := BoundaryHits(w, r, prefix);
    if i >= |b| {
      DirectTrue(w, past, start, r, i - |b|);
    } else {
      assert Hits(w, r, prefix)[i] == b[i];
    }
  }

  lemma FollowsOffset(past: seq<Byte>, start: nat, r: Record, prefix: seq<Byte>, keep: nat)
    requires Follows(past, start, r, prefix, keep)
    ensures start + |past| == r.offset
  {
  }

  /** Every occurrence that ends in this record is reported or overlapped by a report. */
  lemma HitsCover(w: seq<Byte>, past: seq<Byte>, start: nat, r: Record, prefix: seq<Byte>, keep: nat, s: nat)
    requires w != [] && keep >= |w| - 1 && Follows(past, start, r, prefix, keep) && |prefix| <= r.offset
    requires InStream(w, past + r.data, start, s) && r.offset < s + |w|
    ensures Covered(Hits(w, r, prefix), s, |w|)
  {
    hide BoundaryHits, FindIter, Shifted, InStream, Follows, Covered, First, LastBytes, Bridge;
    FollowsOffset(past, start, r, prefix, keep);
    BoundaryIs(w, past, start, r, prefix, keep);
    InStreamEnds(w, past + r.data, start, s);
    var text := past + r.data;
    assert text[|past|..|text|] == r.data;
    var n, m := Min(|w| - 1, |past|), Min(|w| - 1, |r.data|);
    if s < r.offset {
      ShiftedCover(w, text, start, |past| - n, |past| + m, r.offset - n, s);
    } else {
      ShiftedCover(w, text, start, |past|, |text|, r.offset, s);
    }
    CoveredConcat(BoundaryHits(w, r, prefix), Shifted(FindIter(w, r.data, 0), r.offset), s, |w|);
  }

  lemma InStreamEnds(w: seq<Byte>, text: seq<Byte>, start: nat, s: nat)
    requires InStream(w, text, start, s)
    ensures start <= s && s + |w| <= start + |text|
  {
  }

  /** The reports of one record come in increasing order, so none comes twice. */
  lemma HitsIncrease(w: seq<Byte>, past: seq<Byte>, start: nat, r: Record, prefix: seq<Byte>, keep: nat, i: nat, j: nat)
    requires w != [] && keep >= |w| - 1 && Follows(past, start, r, prefix, keep) && |prefix| <= r.offset
    requires i < j < |Hits(w, r, prefix)|
    ensures Hits(w, r, prefix)[i] < Hits(w, r, prefix)[j]
  {
    hide BoundaryHits, FindIter, Shifted, InStream, Follows;
    BoundaryTrue(w, past, start, r, prefix, keep);
    HitsTrue(w, past, start, r, prefix, keep, i);
    HitsTrue(w, past, start, r, prefix, keep, j);
    FindIterSound(w, r.data, 0);
  }

  lemma FollowsNext(past: seq<Byte>, start: nat, r: Record, prefix: seq<Byte>, keep: nat)
    requires Follows(past, start, r, prefix, keep)
    ensures BuildTail(prefix, r.data, keep) == LastBytes(past + r.data, keep)
  {
    var n := Min(keep, |past|);
    assert past[|past| - n..] + r.data == (past + r.data)[|past| - n..];
  }
}
