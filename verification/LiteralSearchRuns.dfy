/** Whole runs of the scanner over one stream: any cut into records, with gaps, rule
    changes and forgotten tails in between. */
module LiteralSearchRuns {
  import opened Basics
  import opened LiteralSearch

  /** `Forget` is a tail dropped because the flow closed, grew stale, or the record
      between was of no interest to any rule. */
  datatype Step = Scan(r: Record) | Forget

  /** The longest contiguous stretch of the stream that ends at a step. */
  datatype Stretch = Stretch(start: nat, text: seq<Byte>, generation: nat)

  predicate Continues(past: Option<Stretch>, r: Record) {
    past.Some? && past.value.start + |past.value.text| == r.offset && past.value.generation == r.generation
  }

  function Text(past: Option<Stretch>, r: Record): seq<Byte> {
    if Continues(past, r) then past.value.text else []
  }

  function Start(past: Option<Stretch>, r: Record): nat {
    if Continues(past, r) then past.value.start else r.offset
  }

  function Past(steps: seq<Step>): Option<Stretch> {
    if steps == [] then None
    else
      match steps[|steps| - 1]
      case Forget => None
      case Scan(r) =>
        var past := Past(steps[..|steps| - 1]);
        Some(Stretch(Start(past, r), Text(past, r) + r.data, r.generation))
  }

  /** The tail the scanner holds after the steps. */
  function Kept(keep: nat, steps: seq<Step>): Option<Tail> {
    if steps == [] then None
    else
      match steps[|steps| - 1]
      case Forget => None
      case Scan(r) => TailAfter(Kept(keep, steps[..|steps| - 1]), r, keep)
  }

  /** The tail is always the end of the contiguous stretch, and of nothing else. */
  lemma {:induction false} KeptIsPast(keep: nat, steps: seq<Step>)
    ensures Kept(keep, steps).Some? <==> Past(steps).Some? && keep > 0
    ensures Kept(keep, steps).Some? ==>
      var t, p := Kept(keep, steps).value, Past(steps).value;
      t.endOffset == p.start + |p.text| && t.generation == p.generation && t.data == LastBytes(p.text, keep)
  {
    if steps != [] {
      var before := steps[..|steps| - 1];
      KeptIsPast(keep, before);
      match steps[|steps| - 1]
      case Forget =>
      case Scan(r) =>
        PrefixFollows(keep, before, r);
        FollowsNext(Text(Past(before), r), Start(Past(before), r), r, PrefixFor(Kept(keep, before), r), keep);
    }
  }

  lemma {:induction false} PrefixFollows(keep: nat, before: seq<Step>, r: Record)
    requires Kept(keep, before).Some? <==> Past(before).Some? && keep > 0
    requires Kept(keep, before).Some? ==>
      var t, p := Kept(keep, before).value, Past(before).value;
      t.endOffset == p.start + |p.text| && t.generation == p.generation && t.data == LastBytes(p.text, keep)
    ensures Follows(Text(Past(before), r), Start(Past(before), r), r, PrefixFor(Kept(keep, before), r), keep)
    ensures |PrefixFor(Kept(keep, before), r)| <= r.offset
  {
    hide Past, Kept;
  }

  lemma PrefixIsPast(keep: nat, before: seq<Step>, r: Record)
    ensures Follows(Text(Past(before), r), Start(Past(before), r), r, PrefixFor(Kept(keep, before), r), keep)
    ensures |PrefixFor(Kept(keep, before), r)| <= r.offset
  {
    KeptIsPast(keep, before);
    PrefixFollows(keep, before, r);
  }

  /** What the scanner reports for the last of the steps. */
  ghost function Reports(w: seq<Byte>, keep: nat, steps: seq<Step>): seq<nat>
    requires w != [] && steps != []
  {
    var before := steps[..|steps| - 1];
    match steps[|steps| - 1]
    case Forget => []
    case Scan(r) =>
      PrefixIsPast(keep, before, r);
      Hits(w, r, PrefixFor(Kept(keep, before), r))
  }

  /** All reports from step `from` on. */
  ghost function AllReports(w: seq<Byte>, keep: nat, steps: seq<Step>, from: nat): seq<nat>
    requires w != []
  {
    if |steps| <= from then [] else AllReports(w, keep, steps[..|steps| - 1], from) + Reports(w, keep, steps)
  }

  /** Every report, in any run, is a true occurrence inside one contiguous stretch of
      one generation, ending in the record it is reported for: no gap is ever bridged. */
  lemma ReportsTrue(w: seq<Byte>, keep: nat, steps: seq<Step>, i: nat)
    requires w != [] && keep >= |w| - 1 && steps != [] && i < |Reports(w, keep, steps)|
    ensures steps[|steps| - 1].Scan?
    ensures var p, r, h := Past(steps).value, steps[|steps| - 1].r, Reports(w, keep, steps)[i];
      InStream(w, p.text, p.start, h) && r.offset < h + |w| <= r.End()
  {
    hide Hits, InStream, Follows, PrefixFor, Kept;
    var before, r := steps[..|steps| - 1], steps[|steps| - 1].r;
    PrefixIsPast(keep, before, r);
    HitsTrue(w, Text(Past(before), r), Start(Past(before), r), r, PrefixFor(Kept(keep, before), r), keep, i);
  }

  /** Steps `from` on are scans of adjoining records under the same rules. */
  ghost predicate Adjoining(steps: seq<Step>, from: nat) {
    && (forall k | from <= k < |steps| :: steps[k].Scan?)
    && (forall k | from < k < |steps| ::
          steps[k].r.offset == steps[k - 1].r.End() && steps[k].r.generation == steps[k - 1].r.generation)
  }

  ghost function Joined(steps: seq<Step>, from: nat): seq<Byte>
    requires Adjoining(steps, from)
  {
    if |steps| <= from then [] else Joined(steps[..|steps| - 1], from) + steps[|steps| - 1].r.data
  }

  /** The stretch known to the scanner is made of adjoining records only. */
  lemma {:induction false} PastIsJoined(steps: seq<Step>) returns (from: nat)
    requires Past(steps).Some?
    ensures from < |steps| && Adjoining(steps, from)
    ensures Past(steps).value == Stretch(steps[from].r.offset, Joined(steps, from), steps[|steps| - 1].r.generation)
  {
    var n := |steps| - 1;
    var before, r := steps[..n], steps[n].r;
    if Continues(Past(before), r) {
      from := PastIsJoined(before);
      JoinedLength(before, from);
      hide Past, Joined;
      AdjoiningMore(steps, from);
    } else {
      from := n;
      assert Joined(before, from) == [];
    }
  }

  lemma {:induction false} AdjoiningMore(steps: seq<Step>, from: nat)
    requires steps != [] && steps[|steps| - 1].Scan? && from < |steps| - 1 && Adjoining(steps[..|steps| - 1], from)
    requires var last, next := steps[|steps| - 2], steps[|steps| - 1];
      last.Scan? && next.r.offset == last.r.End() && next.r.generation == last.r.generation
    ensures Adjoining(steps, from)
    ensures Joined(steps, from) == Joined(steps[..|steps| - 1], from) + steps[|steps| - 1].r.data
  {
    var before := steps[..|steps| - 1];
    assert forall k | 0 <= k < |before| :: before[k] == steps[k];
  }

  lemma {:induction false} JoinedLength(steps: seq<Step>, from: nat)
    requires Adjoining(steps, from) && from < |steps|
    ensures steps[from].r.offset + |Joined(steps, from)| == steps[|steps| - 1].r.End()
  {
    var before := steps[..|steps| - 1];
    if from < |before| {
      JoinedLength(before, from);
    } else {
      assert Joined(before, from) == [];
    }
  }

  /** Adjoining records are all in the stretch, at its end. */
  lemma {:induction false} JoinedIsRecent(steps: seq<Step>, from: nat)
    requires Adjoining(steps, from) && from < |steps|
    ensures Past(steps).Some?
    ensures var p := Past(steps).value;
      && p.generation == steps[|steps| - 1].r.generation
      && p.start + |p.text| == steps[|steps| - 1].r.End()
      && |Joined(steps, from)| <= |p.text|
      && p.text[|p.text| - |Joined(steps, from)|..] == Joined(steps, from)
  {
    var before, r := steps[..|steps| - 1], steps[|steps| - 1].r;
    if from < |before| {
      JoinedIsRecent(before, from);
      var p, j := Past(before).value, Joined(before, from);
      assert Continues(Past(before), r);
      SuffixConcat(p.text, j, r.data);
    } else {
      assert Joined(before, from) == [];
    }
  }

  lemma SuffixConcat(text: seq<Byte>, end: seq<Byte>, more: seq<Byte>)
    requires |end| <= |text| && text[|text| - |end|..] == end
    ensures (text + more)[|text + more| - |end + more|..] == end + more
  {
  }

  lemma OccursInSuffix(w: seq<Byte>, text: seq<Byte>, end: seq<Byte>, start: nat, s: nat)
    requires |end| <= |text| && text[|text| - |end|..] == end
    requires InStream(w, end, start + |text| - |end|, s)
    ensures InStream(w, text, start, s)
  {
    WithinSlice(w, text, |text| - |end|, |text|, s - (start + |text| - |end|));
    assert text[|text| - |end|..|text|] == end;
  }

  lemma OccursInPrefix(w: seq<Byte>, text: seq<Byte>, more: seq<Byte>, start: nat, s: nat)
    requires InStream(w, text + more, start, s) && s + |w| <= start + |text|
    ensures InStream(w, text, start, s)
  {
    WithinSlice(w, text + more, 0, |text|, s - start);
    assert (text + more)[0..|text|] == text;
  }

  /** Every occurrence in a contiguous stretch of any run, however it was cut, is
      reported or overlapped by a report made for that stretch. */
  lemma {:induction false} StretchCovered(w: seq<Byte>, keep: nat, steps: seq<Step>, from: nat, s: nat)
    requires w != [] && keep >= |w| - 1 && Adjoining(steps, from) && from < |steps|
    requires InStream(w, Joined(steps, from), steps[from].r.offset, s)
    ensures Covered(AllReports(w, keep, steps, from), s, |w|)
  {
    var n := |steps| - 1;
    var before, r := steps[..n], steps[n].r;
    if s + |w| > r.offset {
      EndsInLast(w, keep, steps, from, s);
    } else {
      InStreamEnds(w, Joined(steps, from), steps[from].r.offset, s);
      assert from < n;
      JoinedLength(before, from);
      hide InStream, Covered, Reports;
      OccursInPrefix(w, Joined(before, from), r.data, steps[from].r.offset, s);
      StretchCovered(w, keep, before, from, s);
    }
    hide InStream, Covered, Reports, Joined;
    CoveredConcat(AllReports(w, keep, before, from), Reports(w, keep, steps), s, |w|);
  }

  lemma EndsInLast(w: seq<Byte>, keep: nat, steps: seq<Step>, from: nat, s: nat)
    requires w != [] && keep >= |w| - 1 && Adjoining(steps, from) && from < |steps|
    requires InStream(w, Joined(steps, from), steps[from].r.offset, s)
    requires s + |w| > steps[|steps| - 1].r.offset
    ensures Covered(Reports(w, keep, steps), s, |w|)
  {
    hide InStream, Covered, Joined, Hits, Follows, PrefixFor, Kept;
    var before, r := steps[..|steps| - 1], steps[|steps| - 1].r;
    JoinedLength(steps, from);
    JoinedIsRecent(steps, from);
    var p := Past(steps).value;
    OccursInSuffix(w, p.text, Joined(steps, from), p.start, s);
    PrefixIsPast(keep, before, r);
    HitsCover(w, Text(Past(before), r), Start(Past(before), r), r, PrefixFor(Kept(keep, before), r), keep, s);
  }

  ghost predicate Increasing(q: seq<nat>) {
    forall i, j | 0 <= i < j < |q| :: q[i] < q[j]
  }

  ghost predicate EndWithin(q: seq<nat>, len: nat, lo: nat, hi: nat) {
    forall i | 0 <= i < |q| :: lo < q[i] + len <= hi
  }

  lemma IncreasingConcat(a: seq<nat>, b: seq<nat>, len: nat, lo: nat, mid: nat, hi: nat)
    requires Increasing(a) && Increasing(b) && EndWithin(a, len, lo, mid) && EndWithin(b, len, mid, hi) && lo <= mid <= hi
    ensures Increasing(a + b) && EndWithin(a + b, len, lo, hi)
  {
  }

  lemma LastReports(w: seq<Byte>, keep: nat, steps: seq<Step>)
    requires w != [] && keep >= |w| - 1 && steps != [] && steps[|steps| - 1].Scan?
    ensures var r := steps[|steps| - 1].r;
      Increasing(Reports(w, keep, steps)) && EndWithin(Reports(w, keep, steps), |w|, r.offset, r.End())
  {
    var before, r := steps[..|steps| - 1], steps[|steps| - 1].r;
    hide Hits, InStream, Follows, PrefixFor, Kept;
    PrefixIsPast(keep, before, r);
    var prefix := PrefixFor(Kept(keep, before), r);
    var q := Reports(w, keep, steps);
    forall i, j | 0 <= i < j < |q|
      ensures q[i] < q[j]
    {
      HitsIncrease(w, Text(Past(before), r), Start(Past(before), r), r, prefix, keep, i, j);
    }
    forall i | 0 <= i < |q|
      ensures r.offset < q[i] + |w| <= r.End()
    {
      ReportsTrue(w, keep, steps, i);
    }
  }

  /** In a contiguous stretch the reports strictly increase: none is made twice, not
      even one that crosses several records. */
  lemma {:induction false} StretchIncreases(w: seq<Byte>, keep: nat, steps: seq<Step>, from: nat)
    requires w != [] && keep >= |w| - 1 && Adjoining(steps, from) && from < |steps|
    ensures var q := AllReports(w, keep, steps, from);
      Increasing(q) && EndWithin(q, |w|, steps[from].r.offset, steps[|steps| - 1].r.End())
  {
    hide Reports, Joined, Increasing, EndWithin;
    var n := |steps| - 1;
    var before := steps[..n];
    LastReports(w, keep, steps);
    if from < n {
      StretchIncreases(w, keep, before, from);
      JoinedLength(before, from);
      IncreasingConcat(AllReports(w, keep, before, from), Reports(w, keep, steps), |w|,
                       steps[from].r.offset, steps[n].r.offset, steps[n].r.End());
    } else {
      assert AllReports(w, keep, before, from) == [];
      assert AllReports(w, keep, steps, from) == Reports(w, keep, steps);
    }
  }

  /** For a whole stream cut in any way and scanned from its first record on: exactly
      the true occurrences are reported, each at most once, none lost but to overlap. */
  lemma {:induction false} WholeStream(w: seq<Byte>, keep: nat, steps: seq<Step>)
    requires w != [] && keep >= |w| - 1 && steps != [] && Adjoining(steps, 0)
    ensures var start, text, q := steps[0].r.offset, Joined(steps, 0), AllReports(w, keep, steps, 0);
      && (forall i | 0 <= i < |q| :: InStream(w, text, start, q[i]))
      && Increasing(q)
      && (forall s: nat | InStream(w, text, start, s) :: Covered(q, s, |w|))
  {
    hide InStream, Covered, Reports, Increasing;
    StretchIncreases(w, keep, steps, 0);
    StretchTrue(w, keep, steps);
    forall s: nat | InStream(w, Joined(steps, 0), steps[0].r.offset, s)
      ensures Covered(AllReports(w, keep, steps, 0), s, |w|)
    {
      StretchCovered(w, keep, steps, 0, s);
    }
  }

  lemma {:induction false} PastWhole(steps: seq<Step>)
    requires steps != [] && Adjoining(steps, 0)
    ensures Past(steps) == Some(Stretch(steps[0].r.offset, Joined(steps, 0), steps[|steps| - 1].r.generation))
  {
    var before, r := steps[..|steps| - 1], steps[|steps| - 1].r;
    if before != [] {
      PastWhole(before);
      JoinedLength(before, 0);
      assert Continues(Past(before), r);
    } else {
      assert Joined(before, 0) == [];
      assert Past(before) == None;
    }
  }

  lemma {:induction false} StretchTrue(w: seq<Byte>, keep: nat, steps: seq<Step>)
    requires w != [] && keep >= |w| - 1 && steps != [] && Adjoining(steps, 0)
    ensures forall i | 0 <= i < |AllReports(w, keep, steps, 0)| ::
      InStream(w, Joined(steps, 0), steps[0].r.offset, AllReports(w, keep, steps, 0)[i])
  {
    hide InStream, Reports, Past;
    var before, r := steps[..|steps| - 1], steps[|steps| - 1].r;
    var early, last := AllReports(w, keep, before, 0), Reports(w, keep, steps);
    PastWhole(steps);
    forall i | 0 <= i < |early + last|
      ensures InStream(w, Joined(steps, 0), steps[0].r.offset, (early + last)[i])
    {
      if i < |early| {
        assert before != [];
        StretchTrue(w, keep, before);
        OccursInLonger(w, Joined(before, 0), r.data, steps[0].r.offset, early[i]);
      } else {
        ReportsTrue(w, keep, steps, i - |early|);
      }
    }
  }

  lemma OccursInLonger(w: seq<Byte>, text: seq<Byte>, more: seq<Byte>, start: nat, s: nat)
    requires InStream(w, text, start, s)
    ensures InStream(w, text + more, start, s)
  {
    WithinSlice(w, text + more, 0, |text|, s - start);
    assert (text + more)[0..|text|] == text;
  }

  // ---------- Resuming without the tail ----------

  /** What comes before a forgotten tail no longer matters. */
  lemma {:induction false} ForgetCuts(keep: nat, a: seq<Step>, b: seq<Step>)
    ensures Past(a + [Forget] + b) == Past(b) && Kept(keep, a + [Forget] + b) == Kept(keep, b)
  {
    hide Text, Start, TailAfter;
    var steps := a + [Forget] + b;
    if b != [] {
      var before := b[..|b| - 1];
      assert steps[..|steps| - 1] == a + [Forget] + before;
      assert steps[|steps| - 1] == b[|b| - 1];
      ForgetCuts(keep, a, before);
    } else {
      assert steps[|steps| - 1] == Forget;
    }
  }

  lemma ReportsAfterForget(w: seq<Byte>, keep: nat, a: seq<Step>, b: seq<Step>)
    requires w != []
    ensures Reports(w, keep, a + [Forget] + b) == if b == [] then [] else Reports(w, keep, b)
  {
    hide Hits, PrefixFor, Kept, Past, Follows;
    var steps := a + [Forget] + b;
    if b != [] {
      assert steps[..|steps| - 1] == a + [Forget] + b[..|b| - 1];
      assert steps[|steps| - 1] == b[|b| - 1];
      ForgetCuts(keep, a, b[..|b| - 1]);
    }
  }

  lemma {:induction false} AllReportsCut(w: seq<Byte>, keep: nat, a: seq<Step>, b: seq<Step>, from: nat)
    requires w != [] && from <= |a|
    ensures AllReports(w, keep, a + [Forget] + b, from) == AllReports(w, keep, a, from) + AllReports(w, keep, b, 0)
  {
    hide Reports;
    var steps := a + [Forget] + b;
    ReportsAfterForget(w, keep, a, b);
    if b != [] {
      assert steps[..|steps| - 1] == a + [Forget] + b[..|b| - 1];
      AllReportsCut(w, keep, a, b[..|b| - 1], from);
    } else {
      assert steps[..|steps| - 1] == a;
    }
  }

  /** Two stretches, the second scanned after the tail of the first was forgotten. */
  ghost predicate Resumed(a: seq<Step>, from: nat, b: seq<Step>) {
    && Adjoining(a, from) && from < |a| && Adjoining(b, 0) && b != []
    && b[0].r.offset == a[|a| - 1].r.End()
  }

  lemma OccursInSecond(w: seq<Byte>, text: seq<Byte>, more: seq<Byte>, start: nat, s: nat)
    requires InStream(w, text + more, start, s) && start + |text| <= s
    ensures InStream(w, more, start + |text|, s)
  {
    WithinSlice(w, text + more, |text|, |text + more|, s - start);
    assert (text + more)[|text|..|text + more|] == more;
  }

  /** A scan that starts again at a boundary, as a resumed replay does, loses exactly
      what straddles it: every other occurrence in the two stretches together is reported
      or overlapped as before; one that straddles the boundary is never reported, and is
      overlapped only by a report made before the boundary. */
  lemma ResumeLosesOnlyStraddling(w: seq<Byte>, keep: nat, a: seq<Step>, from: nat, b: seq<Step>, s: nat)
    requires w != [] && keep >= |w| - 1 && Resumed(a, from, b)
    requires InStream(w, Joined(a, from) + Joined(b, 0), a[from].r.offset, s)
    ensures var join, q := b[0].r.offset, AllReports(w, keep, a + [Forget] + b, from);
      if s < join < s + |w| then s !in q && (Covered(q, s, |w|) <==> Covered(AllReports(w, keep, a, from), s, |w|))
      else Covered(q, s, |w|)
  {
    hide InStream, Reports, Increasing, Joined;
    var join := b[0].r.offset;
    var early, late := AllReports(w, keep, a, from), AllReports(w, keep, b, 0);
    AllReportsCut(w, keep, a, b, from);
    JoinedLength(a, from);
    StretchIncreases(w, keep, a, from);
    StretchTrue(w, keep, b);
    LateReports(w, Joined(b, 0), join, late);
    hide AllReports;
    if s + |w| <= join {
      OccursInPrefix(w, Joined(a, from), Joined(b, 0), a[from].r.offset, s);
      StretchCovered(w, keep, a, from, s);
      CoveredConcat(early, late, s, |w|);
    } else if join <= s {
      OccursInSecond(w, Joined(a, from), Joined(b, 0), a[from].r.offset, s);
      StretchCovered(w, keep, b, 0, s);
      CoveredConcat(early, late, s, |w|);
    } else {
      StraddlingReports(early, late, s, |w|, join);
    }
  }

  lemma LateReports(w: seq<Byte>, text: seq<Byte>, start: nat, q: seq<nat>)
    requires forall i | 0 <= i < |q| :: InStream(w, text, start, q[i])
    ensures forall i | 0 <= i < |q| :: start <= q[i]
  {
  }

  lemma StraddlingReports(early: seq<nat>, late: seq<nat>, s: nat, len: nat, join: nat)
    requires s < join < s + len
    requires forall i | 0 <= i < |early| :: early[i] + len <= join
    requires forall i | 0 <= i < |late| :: join <= late[i]
    ensures s !in early + late
    ensures Covered(early + late, s, len) <==> Covered(early, s, len)
  {
    var q := early + late;
    if i :| 0 <= i < |q| && q[i] <= s < q[i] + len {
      assert q[i] == early[i];
    }
    if i :| 0 <= i < |early| && early[i] <= s < early[i] + len {
      assert q[i] == early[i];
    }
  }

  /** Such a loss exists for every literal of two or more bytes and every boundary inside
      it: scanned in one go the literal is reported, resumed at the boundary it is not. */
  lemma ResumeLoses(w: seq<Byte>, keep: nat, k: nat, generation: nat)
    requires 0 < k < |w| && keep >= |w| - 1
    ensures var a, b := [Scan(Record(0, w[..k], generation))], [Scan(Record(k, w[k..], generation))];
      AllReports(w, keep, a + b, 0) == [0] && AllReports(w, keep, a + [Forget] + b, 0) == []
  {
    var a, b := [Scan(Record(0, w[..k], generation))], [Scan(Record(k, w[k..], generation))];
    JoinedOne(a);
    JoinedOne(b);
    JoinedTwo(a, b);
    assert w[..k] + w[k..] == w;
    OnlyItself(w, keep, a + b);
    AllReportsCut(w, keep, a, b, 0);
    TooShort(w, keep, a);
    TooShort(w, keep, b);
  }

  lemma JoinedOne(a: seq<Step>)
    requires |a| == 1 && a[0].Scan?
    ensures Adjoining(a, 0) && Joined(a, 0) == a[0].r.data
  {
    assert Joined(a[..0], 0) == [];
  }

  lemma JoinedTwo(a: seq<Step>, b: seq<Step>)
    requires |a| == 1 && |b| == 1 && a[0].Scan? && b[0].Scan?
    requires b[0].r.offset == a[0].r.End() && b[0].r.generation == a[0].r.generation
    ensures Adjoining(a + b, 0) && Joined(a + b, 0) == a[0].r.data + b[0].r.data
  {
    JoinedOne(a);
    assert (a + b)[..1] == a;
  }

  lemma TooShort(w: seq<Byte>, keep: nat, steps: seq<Step>)
    requires w != [] && keep >= |w| - 1 && steps != [] && Adjoining(steps, 0) && |Joined(steps, 0)| < |w|
    ensures AllReports(w, keep, steps, 0) == []
  {
    hide AllReports, Joined;
    var q := AllReports(w, keep, steps, 0);
    StretchTrue(w, keep, steps);
    AnyFits(w, Joined(steps, 0), steps[0].r.offset, q);
  }

  lemma AnyFits(w: seq<Byte>, text: seq<Byte>, start: nat, q: seq<nat>)
    requires forall i | 0 <= i < |q| :: InStream(w, text, start, q[i])
    ensures q != [] ==> |w| <= |text|
  {
    if q != [] {
      assert InStream(w, text, start, q[0]);
    }
  }

  lemma IncreasingPair(q: seq<nat>)
    requires Increasing(q)
    ensures |q| > 1 ==> q[0] < q[1]
  {
  }

  lemma OnlyItself(w: seq<Byte>, keep: nat, steps: seq<Step>)
    requires w != [] && keep >= |w| - 1 && steps != [] && Adjoining(steps, 0)
    requires Joined(steps, 0) == w && steps[0].r.offset == 0
    ensures AllReports(w, keep, steps, 0) == [0]
  {
    hide AllReports, Joined;
    var q := AllReports(w, keep, steps, 0);
    WholeStream(w, keep, steps);
    forall i | 0 <= i < |q|
      ensures q[i] == 0
    {
      assert InStream(w, w, 0, q[i]);
    }
    assert w[0..|w|] == w;
    assert InStream(w, w, 0, 0);
    assert Covered(q, 0, |w|);
    IncreasingPair(q);
  }
}
