/** The ordered out-of-order store of a TCP half-stream: non-empty segments kept
    in key order, exactly as iterating the program's ordered map yields them. */
module Intervals {
  import opened Basics

  datatype Segment = Segment(start: nat, data: seq<Byte>, ts: nat) {
    function End(): nat {
      start + |data|
    }
  }

  ghost predicate Sorted(s: seq<Segment>) {
    && (forall i | 0 <= i < |s| :: |s[i].data| > 0)
    && (forall i, j | 0 <= i < j < |s| :: s[i].End() <= s[j].start)
  }

  /** The number of payload bytes held. */
  ghost function Bytes(s: seq<Segment>): nat {
    if s == [] then 0 else |s[0].data| + Bytes(s[1..])
  }

  /** What a single run of bytes placed at `start` holds at position `p`. */
  ghost function Cell(start: nat, data: seq<Byte>, p: nat): Option<Byte> {
    if start <= p < start + |data| then Some(data[p - start]) else None
  }

  /** The byte held at absolute position `p`, if any. */
  ghost function At(s: seq<Segment>, p: nat): Option<Byte> {
    if s == [] then None
    else if s[0].start <= p < s[0].End() then Some(s[0].data[p - s[0].start])
    else At(s[1..], p)
  }

  /** The segments that start above `f`. */
  ghost function After(s: seq<Segment>, f: nat): seq<Segment> {
    if s == [] then [] else if s[0].start > f then s else After(s[1..], f)
  }

  ghost predicate IsSuffix<T>(t: seq<T>, s: seq<T>) {
    |t| <= |s| && t == s[|s| - |t|..]
  }

  /** How many segments start at or below `cursor` (the program's
      `range(..=cursor)`); in a sorted store they form a prefix. */
  function CountUpTo(s: seq<Segment>, cursor: nat): (n: nat)
    ensures n <= |s|
    ensures forall i | 0 <= i < n :: s[i].start <= cursor
    ensures n < |s| ==> s[n].start > cursor
  {
    if s == [] || s[0].start > cursor then 0 else 1 + CountUpTo(s[1..], cursor)
  }

  lemma {:induction false} AtIndex(s: seq<Segment>, i: nat, p: nat)
    requires i < |s| && Sorted(s) && s[i].start <= p < s[i].End()
    ensures At(s, p) == Some(s[i].data[p - s[i].start])
  {
    if i > 0 {
      AtIndex(s[1..], i - 1, p);
    }
  }

  /** Nothing is held in a hole of the store. */
  lemma {:induction false} AtHole(s: seq<Segment>, i: nat, p: nat)
    requires i <= |s| && Sorted(s)
    requires i > 0 ==> s[i - 1].End() <= p
    requires i < |s| ==> p < s[i].start
    ensures At(s, p) == None
  {
    if s != [] {
      if i == 0 {
        assert forall j | 0 < j < |s| :: s[j].start >= s[0].End();
        AtHole(s[1..], 0, p);
      } else {
        assert s[0].End() <= p by {
          if i > 1 { assert s[0].End() <= s[i - 1].start; }
        }
        AtHole(s[1..], i - 1, p);
      }
    }
  }

  lemma {:induction false} AtConcat(a: seq<Segment>, b: seq<Segment>, p: nat)
    ensures At(a + b, p) == if At(a, p).Some? then At(a, p) else At(b, p)
  {
    if a == [] {
      assert a + b == b;
    } else {
      assert (a + b)[1..] == a[1..] + b;
      AtConcat(a[1..], b, p);
    }
  }

  lemma {:induction false} BytesConcat(a: seq<Segment>, b: seq<Segment>)
    ensures Bytes(a + b) == Bytes(a) + Bytes(b)
  {
    if a == [] {
      assert a + b == b;
    } else {
      assert (a + b)[1..] == a[1..] + b;
      BytesConcat(a[1..], b);
    }
  }

  /** Inserting a segment into a hole adds exactly its own bytes. */
  lemma InsertAt(s: seq<Segment>, i: nat, seg: Segment, p: nat)
    requires i <= |s| && Sorted(s) && Sorted(Spliced(s, i, seg))
    ensures At(Spliced(s, i, seg), p)
         == if seg.start <= p < seg.End() then Some(seg.data[p - seg.start]) else At(s, p)
    ensures seg.start <= p < seg.End() ==> At(s, p) == None
  {
    var t := Spliced(s, i, seg);
    assert t[i] == seg;
    if seg.start <= p < seg.End() {
      AtIndex(t, i, p);
      if i > 0 { assert t[i - 1] == s[i - 1]; }
      if i < |s| { assert t[i + 1] == s[i]; }
      AtHole(s, i, p);
    } else {
      AtConcat(s[..i] + [seg], s[i..], p);
      AtConcat(s[..i], [seg], p);
      AtConcat(s[..i], s[i..], p);
      assert s[..i] + s[i..] == s;
    }
  }

  lemma InsertBytes(s: seq<Segment>, i: nat, seg: Segment)
    requires i <= |s|
    ensures Bytes(Spliced(s, i, seg)) == Bytes(s) + |seg.data|
  {
    BytesOfOne(seg);
    hide Bytes;
    var a, b := s[..i], s[i..];
    assert a + b == s;
    BytesConcat(a, b);
    BytesConcat(a, [seg]);
    BytesConcat(a + [seg], b);
  }

  lemma BytesOfOne(seg: Segment)
    ensures Bytes([seg]) == |seg.data|
  {
    assert Bytes([seg]) == |seg.data| + Bytes([]);
  }

  lemma SortedInsert(s: seq<Segment>, n: nat, seg: Segment)
    requires Sorted(s) && n <= |s| && |seg.data| > 0
    requires n > 0 ==> s[n - 1].End() <= seg.start
    requires n < |s| ==> seg.End() <= s[n].start
    ensures Sorted(Spliced(s, n, seg))
  {
    var t := Spliced(s, n, seg);
    forall i, j | 0 <= i < j < |t|
      ensures t[i].End() <= t[j].start
    {
      if i < n {
        assert t[i] == s[i];
        if i < n - 1 { assert s[i].End() <= s[n - 1].start; }
      }
      if j > n {
        assert t[j] == s[j - 1];
        if j - 1 > n { assert s[n].End() <= s[j - 1].start; }
      }
    }
  }

  lemma {:induction false} BytesSuffix(t: seq<Segment>, s: seq<Segment>)
    requires IsSuffix(t, s)
    ensures Bytes(t) <= Bytes(s)
  {
    var k := |s| - |t|;
    assert s == s[..k] + t;
    BytesConcat(s[..k], t);
  }

  lemma {:induction false} AfterIsSuffix(s: seq<Segment>, f: nat)
    ensures IsSuffix(After(s, f), s)
  {
    if s != [] && s[0].start <= f {
      AfterIsSuffix(s[1..], f);
    }
  }

  /** What lies above a bound is untouched by insertions below it. */
  lemma {:induction false} AfterInsert(s: seq<Segment>, i: nat, seg: Segment, f: nat)
    requires i <= |s| && Sorted(Spliced(s, i, seg)) && seg.End() <= f
    ensures After(Spliced(s, i, seg), f) == After(s, f)
  {
    var t := Spliced(s, i, seg);
    if i == 0 {
      assert t[1..] == s;
    } else {
      assert t[0] == s[0] && t[i] == seg && t[0].End() <= t[i].start;
      assert s[1..][..i - 1] == s[1..i] && s[1..][i - 1..] == s[i..] && s[..i][1..] == s[1..i];
      assert t[1..] == s[1..][..i - 1] + [seg] + s[1..][i - 1..];
      AfterInsert(s[1..], i - 1, seg, f);
    }
  }

  /** A suffix all of whose segments start above `f` lies inside `After`. */
  lemma {:induction false} SuffixInAfter(t: seq<Segment>, s: seq<Segment>, f: nat)
    requires IsSuffix(t, s) && (t != [] ==> t[0].start > f)
    ensures IsSuffix(t, After(s, f))
  {
    if s != [] && s[0].start <= f {
      assert |t| == |s| ==> t == s;
      assert |t| < |s|;
      assert s[1..][|s[1..]| - |t|..] == s[|s| - |t|..];
      SuffixInAfter(t, s[1..], f);
    }
  }

  lemma SuffixTrans<T>(a: seq<T>, b: seq<T>, c: seq<T>)
    requires IsSuffix(a, b) && IsSuffix(b, c)
    ensures IsSuffix(a, c)
  {
    assert c[|c| - |a|..] == c[|c| - |b|..][|b| - |a|..];
  }

  lemma ShorterSuffix(t: seq<Segment>, s: seq<Segment>)
    requires Sorted(s) && IsSuffix(t, s) && |t| < |s|
    ensures Bytes(t) < Bytes(s)
  {
    var k := |s| - |t|;
    assert s == s[..k] + t;
    BytesConcat(s[..k], t);
  }
}
