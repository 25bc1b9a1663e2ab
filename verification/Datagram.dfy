/** Reassembly of one fragmented IP datagram (RFC 791, section 3.2; RFC 8200,
    section 4.5), dropping on overlap as RFC 5722 asks. */
module Datagram {
  import opened Basics

  const DATAGRAM_OVERHEAD: nat := 256
  const PIECE_OVERHEAD: nat := 64
  const MAX_DATAGRAM: nat := 65535

  datatype Piece = Piece(start: nat, data: seq<Byte>, more: bool) {
    function End(): nat {
      start + |data|
    }
  }

  /** Pieces are kept in order of their start, as the program's ordered map keeps them. */
  datatype State = State(pieces: seq<Piece>, bytes: nat, totalLen: Option<nat>, lastSeen: nat, wireBytes: nat)

  datatype Reason = Invalid | Overlap

  datatype Verdict = Rejected(reason: Reason) | Duplicate(s: State) | Added(s: State)

  function Fresh(now: nat): State {
    State([], DATAGRAM_OVERHEAD, None, now, 0)
  }

  ghost predicate Disjoint(p: seq<Piece>) {
    && (forall i, j | 0 <= i < j < |p| :: p[i].End() <= p[j].start)
    && (forall i, j | 0 <= i < j < |p| :: p[i].start < p[j].start)
  }

  /** What the cache charges for a set of pieces. */
  ghost function Charge(p: seq<Piece>): nat {
    if p == [] then DATAGRAM_OVERHEAD else |p[|p| - 1].data| + PIECE_OVERHEAD + Charge(p[..|p| - 1])
  }

  ghost predicate Sound(s: State) {
    && Disjoint(s.pieces)
    && s.bytes == Charge(s.pieces)
    && (s.totalLen.Some? ==> forall i | 0 <= i < |s.pieces| :: s.pieces[i].End() <= s.totalLen.value)
  }

  /** How many pieces start below `offset`. */
  function CountBelow(p: seq<Piece>, offset: nat): (n: nat)
    ensures n <= |p|
    ensures forall i | 0 <= i < n :: p[i].start < offset
    ensures n < |p| ==> p[n].start >= offset
  {
    if p == [] || p[0].start >= offset then 0 else 1 + CountBelow(p[1..], offset)
  }

  /** A fragment no datagram may contain: too long, or a non-final one that is empty
      or does not end on an 8-byte boundary. */
  predicate Malformed(f: Piece) {
    f.End() > MAX_DATAGRAM || (f.more && (f.data == [] || |f.data| % 8 != 0))
  }

  predicate BeyondEnd(p: seq<Piece>, end: nat) {
    exists i | 0 <= i < |p| :: p[i].End() > end
  }

  /** The total length known once `f` has been looked at; None if `f` contradicts it. */
  function Total(s: State, f: Piece): Option<Option<nat>> {
    if !f.more then
      if s.totalLen.Some? && s.totalLen.value != f.End() then None
      else if BeyondEnd(s.pieces, f.End()) then None
      else Some(Some(f.End()))
    else if s.totalLen.Some? && f.End() >= s.totalLen.value then None
    else Some(s.totalLen)
  }

  /** What becomes of a datagram when a well-formed fragment arrives. Only the two
      neighbours of the fragment's place are compared with it. */
  function Judge(s: State, f: Piece, now: nat, wireLen: nat): Verdict {
    var total := Total(s, f);
    if total.None? then Rejected(Invalid)
    else
      var n := CountBelow(s.pieces, f.start);
      if n < |s.pieces| && s.pieces[n].start == f.start then
        if s.pieces[n] == f then Duplicate(s.(totalLen := total.value, lastSeen := now)) else Rejected(Overlap)
      else if n > 0 && s.pieces[n - 1].End() > f.start then Rejected(Overlap)
      else if n < |s.pieces| && s.pieces[n].start < f.End() then Rejected(Overlap)
      else
        Added(State(Spliced(s.pieces, n, f), s.bytes + |f.data| + PIECE_OVERHEAD,
                    total.value, now, s.wireBytes + wireLen))
  }

  /** The offset up to which the pieces follow each other from zero without a hole. */
  function Contiguous(p: seq<Piece>, cursor: nat): Option<nat> {
    if p == [] then Some(cursor)
    else if p[0].start != cursor then None
    else Contiguous(p[1..], cursor + |p[0].data|)
  }

  predicate Complete(s: State) {
    s.totalLen.Some? && Contiguous(s.pieces, 0) == s.totalLen
  }

  function Payload(p: seq<Piece>): seq<Byte> {
    if p == [] then [] else p[0].data + Payload(p[1..])
  }

  // ---------- Soundness of one step ----------

  lemma {:induction false} ChargeConcat(a: seq<Piece>, b: seq<Piece>)
    ensures Charge(a + b) + DATAGRAM_OVERHEAD == Charge(a) + Charge(b)
  {
    if b == [] {
      assert a + b == a;
    } else {
      assert (a + b)[..|a + b| - 1] == a + b[..|b| - 1];
      ChargeConcat(a, b[..|b| - 1]);
    }
  }

  lemma {:induction false} ChargeInsert(p: seq<Piece>, n: nat, f: Piece)
    requires n <= |p|
    ensures Charge(Spliced(p, n, f)) == Charge(p) + |f.data| + PIECE_OVERHEAD
  {
    ChargeThree(p[..n], f, p[n..]);
    hide Charge;
    assert p[..n] + p[n..] == p;
  }

  lemma {:induction false} ChargeThree(a: seq<Piece>, f: Piece, b: seq<Piece>)
    ensures Charge(a + [f] + b) == Charge(a + b) + |f.data| + PIECE_OVERHEAD
  {
    ChargeOne(f);
    hide Charge;
    ChargeConcat(a, b);
    ChargeConcat(a, [f]);
    ChargeConcat(a + [f], b);
  }

  lemma ChargeOne(f: Piece)
    ensures Charge([f]) == |f.data| + PIECE_OVERHEAD + DATAGRAM_OVERHEAD
  {
    assert [f][..0] == [];
  }

  lemma DisjointInsert(p: seq<Piece>, n: nat, f: Piece)
    requires Disjoint(p) && n <= |p|
    requires n > 0 ==> p[n - 1].End() <= f.start && p[n - 1].start < f.start
    requires n < |p| ==> f.End() <= p[n].start && f.start < p[n].start
    ensures Disjoint(Spliced(p, n, f))
  {
    var q := Spliced(p, n, f);
    forall i, j | 0 <= i < j < |q|
      ensures q[i].End() <= q[j].start && q[i].start < q[j].start
    {
      assert q[i] == if i < n then p[i] else if i == n then f else p[i - 1];
      assert q[j] == if j < n then p[j] else if j == n then f else p[j - 1];
      if i < n - 1 { assert p[i].End() <= p[n - 1].start && p[i].start < p[n - 1].start; }
      if j - 1 > n { assert p[n].start < p[j - 1].start && p[n].End() <= p[j - 1].start; }
    }
  }

  lemma WithinInsert(p: seq<Piece>, n: nat, f: Piece, total: nat)
    requires n <= |p| && f.End() <= total && forall i | 0 <= i < |p| :: p[i].End() <= total
    ensures forall i | 0 <= i < |p| + 1 :: Spliced(p, n, f)[i].End() <= total
  {
  }

  lemma TotalBounds(s: State, f: Piece)
    requires Sound(s) && Total(s, f).Some? && Total(s, f).value.Some?
    ensures var total := Total(s, f).value.value;
      f.End() <= total && forall i | 0 <= i < |s.pieces| :: s.pieces[i].End() <= total
  {
  }

  /** Whatever arrives, a datagram that is kept stays sound. */
  lemma JudgeSound(s: State, f: Piece, now: nat, wireLen: nat)
    requires Sound(s)
    ensures var v := Judge(s, f, now, wireLen);
      && (!v.Rejected? ==> Sound(v.s))
      && (v.Added? ==> v.s.bytes == s.bytes + |f.data| + PIECE_OVERHEAD)
      && (v.Duplicate? ==> v.s.bytes == s.bytes && v.s.pieces == s.pieces && s.pieces != [])
  {
    hide Spliced, CountBelow, Charge;
    var v := Judge(s, f, now, wireLen);
    if !v.Rejected? {
      if v.s.totalLen.Some? { TotalBounds(s, f); }
      if v.Added? {
        hide Total, Disjoint;
        var n := CountBelow(s.pieces, f.start);
        DisjointInsert(s.pieces, n, f);
        ChargeInsert(s.pieces, n, f);
        if v.s.totalLen.Some? { WithinInsert(s.pieces, n, f, v.s.totalLen.value); }
      }
    }
  }

  predicate Shares(a: Piece, b: Piece) {
    a.start < b.End() && b.start < a.End()
  }

  /** A fragment that shares a byte with a kept piece and is not that very piece again
      always drops the datagram, although only two neighbours are looked at. */
  lemma OverlapDrops(s: State, f: Piece, now: nat, wireLen: nat, i: nat)
    requires Sound(s) && i < |s.pieces| && Shares(s.pieces[i], f) && s.pieces[i] != f
    ensures Judge(s, f, now, wireLen).Rejected?
  {
    var n := CountBelow(s.pieces, f.start);
    if i > n {
      assert s.pieces[n].start < s.pieces[i].start;
      assert s.pieces[n].End() <= s.pieces[i].start;
    }
  }

  /** And only conflicts drop it: a fragment that agrees with the known length and
      shares no byte with a kept piece is kept. */
  lemma NoConflictKeeps(s: State, f: Piece, now: nat, wireLen: nat)
    requires Sound(s) && Total(s, f).Some? && f.data != []
    requires forall i | 0 <= i < |s.pieces| :: !Shares(s.pieces[i], f) && s.pieces[i].data != []
    ensures Judge(s, f, now, wireLen).Added?
  {
    var n := CountBelow(s.pieces, f.start);
    assert n < |s.pieces| ==> !Shares(s.pieces[n], f);
    assert n > 0 ==> !Shares(s.pieces[n - 1], f);
  }

  lemma SplicedMiddle(a: seq<Piece>, b: seq<Piece>, f: Piece)
    ensures Spliced(a + b, |a|, f) == a + [f] + b
  {
  }
}
