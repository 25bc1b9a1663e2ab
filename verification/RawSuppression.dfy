/** The API's de-duplication: raw TCP records whose bytes all appear in HTTP records are
    hidden, and the hits on them are shown on the HTTP records instead. */
module RawSuppression {
  import opened Basics
  import opened RecordCodec

  datatype Range = Range(start: nat, end: nat)

  function End(r: Record): nat {
    r.streamOffset + |r.data|
  }

  predicate IsHttpWireView(v: View) {
    v.HttpRequestHeaders? || v.HttpRequestBody? || v.HttpResponseHeaders? || v.HttpResponseBody?
  }

  predicate Semantic(r: Record) {
    IsHttpWireView(r.view) && r.data != []
  }

  ghost predicate Covered(ranges: seq<Range>, b: nat) {
    exists i :: 0 <= i < |ranges| && ranges[i].start <= b < ranges[i].end
  }

  /** The same bytes are covered by both. */
  ghost predicate SameCover(a: seq<Range>, b: seq<Range>) {
    forall x: nat :: Covered(a, x) <==> Covered(b, x)
  }

  predicate ByStart(ranges: seq<Range>) {
    forall i, j | 0 <= i < j < |ranges| :: ranges[i].start <= ranges[j].start
  }

  predicate NonEmpty(ranges: seq<Range>) {
    forall i | 0 <= i < |ranges| :: ranges[i].start < ranges[i].end
  }

  /** Ranges in order, with a hole after each but the last. */
  predicate Separated(ranges: seq<Range>) {
    forall i, j | 0 <= i < j < |ranges| :: ranges[i].end < ranges[j].start
  }

  // ---------- Sorting and merging ----------

  lemma CoveredMore(ranges: seq<Range>, r: Range, b: nat)
    ensures Covered(ranges + [r], b) <==> Covered(ranges, b) || r.start <= b < r.end
  {
    var more := ranges + [r];
    if Covered(ranges, b) {
      var i :| 0 <= i < |ranges| && ranges[i].start <= b < ranges[i].end;
      assert more[i] == ranges[i];
    }
    if r.start <= b < r.end {
      assert more[|ranges|] == r;
    }
  }

  lemma CoveredConcat(a: seq<Range>, c: seq<Range>, b: nat)
    ensures Covered(a + c, b) <==> Covered(a, b) || Covered(c, b)
  {
    if Covered(a, b) {
      var i :| 0 <= i < |a| && a[i].start <= b < a[i].end;
      assert (a + c)[i] == a[i];
    }
    if Covered(c, b) {
      var i :| 0 <= i < |c| && c[i].start <= b < c[i].end;
      assert (a + c)[|a| + i] == c[i];
    }
  }

  lemma InsertCover(sorted: seq<Range>, n: nat, r: Range, b: nat)
    requires n <= |sorted|
    ensures Covered(sorted[..n] + [r] + sorted[n..], b) <==> Covered(sorted, b) || r.start <= b < r.end
  {
    hide Covered;
    CoveredMore(sorted[..n], r, b);
    CoveredConcat(sorted[..n] + [r], sorted[n..], b);
    CoveredConcat(sorted[..n], sorted[n..], b);
    assert sorted == sorted[..n] + sorted[n..];
  }

  lemma InsertOrder(sorted: seq<Range>, n: nat, r: Range)
    requires ByStart(sorted) && NonEmpty(sorted) && n <= |sorted| && r.start < r.end
    requires n > 0 ==> sorted[n - 1].start <= r.start
    requires n < |sorted| ==> r.start <= sorted[n].start
    ensures ByStart(sorted[..n] + [r] + sorted[n..]) && NonEmpty(sorted[..n] + [r] + sorted[n..])
  {
    var q := sorted[..n] + [r] + sorted[n..];
    assert forall i | 0 <= i < |q| :: q[i] == if i < n then sorted[i] else if i == n then r else sorted[i - 1];
  }

  method SortByStart(ranges: seq<Range>) returns (sorted: seq<Range>)
    requires NonEmpty(ranges)
    ensures ByStart(sorted) && NonEmpty(sorted) && SameCover(sorted, ranges)
  {
    sorted := [];
    for k := 0 to |ranges|
      invariant ByStart(sorted) && NonEmpty(sorted) && SameCover(sorted, ranges[..k])
    {
      var r := ranges[k];
      var n := 0;
      while n < |sorted| && sorted[n].start <= r.start
        invariant n <= |sorted| && forall i | 0 <= i < n :: sorted[i].start <= r.start
      {
        n := n + 1;
      }
      InsertOrder(sorted, n, r);
      forall b: nat
        ensures Covered(sorted[..n] + [r] + sorted[n..], b) <==> Covered(ranges[..k + 1], b)
      {
        InsertCover(sorted, n, r, b);
        CoveredMore(ranges[..k], r, b);
        assert ranges[..k + 1] == ranges[..k] + [r];
      }
      hide Covered, ByStart, NonEmpty;
      sorted := sorted[..n] + [r] + sorted[n..];
    }
    assert ranges[..|ranges|] == ranges;
  }

  lemma WidenLast(merged: seq<Range>, r: Range, b: nat)
    requires merged != [] && merged[|merged| - 1].start <= r.start <= merged[|merged| - 1].end
    ensures var last := merged[|merged| - 1];
      Covered(merged[..|merged| - 1] + [Range(last.start, Max(last.end, r.end))], b)
      <==> Covered(merged, b) || r.start <= b < r.end
  {
    var last := merged[|merged| - 1];
    CoveredMore(merged[..|merged| - 1], Range(last.start, Max(last.end, r.end)), b);
    CoveredMore(merged[..|merged| - 1], last, b);
    assert merged == merged[..|merged| - 1] + [last];
  }

  /** Joins ranges that touch; the union stays exactly the same. */
  method Merge(ranges: seq<Range>) returns (merged: seq<Range>)
    requires ByStart(ranges) && NonEmpty(ranges)
    ensures Separated(merged) && NonEmpty(merged) && SameCover(merged, ranges)
  {
    merged := [];
    for k := 0 to |ranges|
      invariant Separated(merged) && NonEmpty(merged) && SameCover(merged, ranges[..k])
      invariant k == 0 ==> merged == []
      invariant k > 0 ==> merged != [] && merged[|merged| - 1].start <= ranges[k - 1].start
    {
      ghost var before := merged;
      var r := ranges[k];
      assert ranges[..k + 1] == ranges[..k] + [r];
      if merged != [] && r.start <= merged[|merged| - 1].end {
        var last := merged[|merged| - 1];
        merged := merged[..|merged| - 1] + [Range(last.start, Max(last.end, r.end))];
        forall b: nat
          ensures Covered(merged, b) <==> Covered(ranges[..k + 1], b)
        {
          WidenLast(before, r, b);
          CoveredMore(ranges[..k], r, b);
        }
      } else {
        merged := merged + [r];
        forall b: nat
          ensures Covered(merged, b) <==> Covered(ranges[..k + 1], b)
        {
          CoveredMore(before, r, b);
          CoveredMore(ranges[..k], r, b);
        }
      }
    }
    assert ranges[..|ranges|] == ranges;
  }

  predicate Inside(ranges: seq<Range>, start: nat, end: nat) {
    exists i :: 0 <= i < |ranges| && ranges[i].start <= start && end <= ranges[i].end
  }

  /** With holes between the ranges, lying in one of them is being covered throughout. */
  lemma InsideIff(ranges: seq<Range>, start: nat, end: nat)
    requires Separated(ranges) && start < end
    ensures Inside(ranges, start, end) <==> forall b: nat | start <= b < end :: Covered(ranges, b)
  {
    if Inside(ranges, start, end) {
      var i :| 0 <= i < |ranges| && ranges[i].start <= start && end <= ranges[i].end;
      forall b: nat | start <= b < end
        ensures Covered(ranges, b)
      {
        assert ranges[i].start <= b < ranges[i].end;
      }
    } else if forall b: nat | start <= b < end :: Covered(ranges, b) {
      assert Covered(ranges, start);
      var i :| 0 <= i < |ranges| && ranges[i].start <= start < ranges[i].end;
      assert Covered(ranges, ranges[i].end);
    }
  }

  // ---------- What is hidden ----------

  function WireRanges(records: seq<Record>, d: Direction): seq<Range> {
    if records == [] then []
    else
      var last := records[|records| - 1];
      WireRanges(records[..|records| - 1], d)
      + if Semantic(last) && last.direction == d then [Range(last.streamOffset, End(last))] else []
  }

  /** Some HTTP wire record of the direction shows the byte. */
  ghost predicate Shown(records: seq<Record>, d: Direction, b: nat) {
    exists t :: t in records && Semantic(t) && t.direction == d && t.streamOffset <= b < End(t)
  }

  lemma ShownMore(records: seq<Record>, r: Record, d: Direction, b: nat)
    ensures Shown(records + [r], d, b)
      <==> Shown(records, d, b) || (Semantic(r) && r.direction == d && r.streamOffset <= b < End(r))
  {
    var more := records + [r];
    assert r == more[|records|];
    if Shown(records, d, b) {
      var t :| t in records && Semantic(t) && t.direction == d && t.streamOffset <= b < End(t);
      assert t in more;
    }
  }

  lemma {:induction false} RangesShow(records: seq<Record>, d: Direction, b: nat)
    ensures Covered(WireRanges(records, d), b) <==> Shown(records, d, b)
  {
    hide Covered, Shown;
    if records == [] {
      NothingShown(d, b);
    } else {
      var before, last := records[..|records| - 1], records[|records| - 1];
      RangesShow(before, d, b);
      assert records == before + [last];
      ShownMore(before, last, d, b);
      if Semantic(last) && last.direction == d {
        CoveredMore(WireRanges(before, d), Range(last.streamOffset, End(last)), b);
      } else {
        assert WireRanges(records, d) == WireRanges(before, d);
      }
    }
  }

  lemma NothingShown(d: Direction, b: nat)
    ensures !Covered([], b) && !Shown([], d, b)
  {
  }

  lemma {:induction false} RangesNonEmpty(records: seq<Record>, d: Direction)
    ensures NonEmpty(WireRanges(records, d))
  {
    if records != [] {
      RangesNonEmpty(records[..|records| - 1], d);
    }
  }

  /** A non-empty raw record is hidden iff every one of its bytes is shown by an HTTP
      wire record of its direction. */
  ghost predicate Hidden(records: seq<Record>, r: Record) {
    r.view.TcpRaw? && r.data != [] && forall b: nat | r.streamOffset <= b < End(r) :: Shown(records, r.direction, b)
  }

  ghost function Visible(all: seq<Record>, records: seq<Record>): seq<Record> {
    if records == [] then []
    else
      var last := records[|records| - 1];
      Visible(all, records[..|records| - 1]) + if Hidden(all, last) then [] else [last]
  }

  lemma CoverageHides(all: seq<Record>, merged: seq<Range>, r: Record)
    requires Separated(merged) && SameCover(merged, WireRanges(all, r.direction))
    ensures Hidden(all, r) <==> r.view.TcpRaw? && r.data != [] && Inside(merged, r.streamOffset, End(r))
  {
    hide WireRanges, Covered, Shown, Separated, Inside;
    if r.data != [] {
      InsideIff(merged, r.streamOffset, End(r));
      forall b: nat
        ensures Covered(merged, b) <==> Shown(all, r.direction, b)
      {
        RangesShow(all, r.direction, b);
      }
    }
  }

  method MergedCoverage(records: seq<Record>, d: Direction, ranges: seq<Range>) returns (merged: seq<Range>)
    requires ranges == WireRanges(records, d)
    ensures Separated(merged) && SameCover(merged, WireRanges(records, d))
  {
    hide Covered, WireRanges, ByStart, Separated, NonEmpty;
    RangesNonEmpty(records, d);
    var sorted := SortByStart(ranges);
    merged := Merge(sorted);
  }

  /** Drops exactly the hidden records and keeps the others in their order. */
  method SuppressRedundantTcpRaw(records: seq<Record>) returns (visible: seq<Record>)
    ensures visible == Visible(records, records)
  {
    var forward, back := [], [];
    for k := 0 to |records|
      invariant forward == WireRanges(records[..k], AToB) && back == WireRanges(records[..k], BToA)
    {
      var r := records[k];
      assert records[..k + 1][..k] == records[..k];
      if Semantic(r) {
        var range := Range(r.streamOffset, End(r));
        if r.direction.AToB? { forward := forward + [range]; } else { back := back + [range]; }
      }
    }
    assert records[..|records|] == records;
    forward := MergedCoverage(records, AToB, forward);
    back := MergedCoverage(records, BToA, back);
    visible := Keep(records, forward, back);
  }

  method Keep(records: seq<Record>, forward: seq<Range>, back: seq<Range>) returns (visible: seq<Record>)
    requires Separated(forward) && SameCover(forward, WireRanges(records, AToB))
    requires Separated(back) && SameCover(back, WireRanges(records, BToA))
    ensures visible == Visible(records, records)
  {
    hide Separated, SameCover, WireRanges, Hidden, Inside;
    visible := [];
    for k := 0 to |records|
      invariant visible == Visible(records, records[..k])
    {
      var r := records[k];
      assert records[..k + 1][..k] == records[..k];
      var ranges := if r.direction.AToB? then forward else back;
      CoverageHides(records, ranges, r);
      if !(r.view.TcpRaw? && r.data != [] && Inside(ranges, r.streamOffset, End(r))) {
        visible := visible + [r];
      }
    }
    assert records[..|records|] == records;
  }

  /** What is visible is what was not hidden; HTTP records always stay. */
  lemma {:induction false} VisibleMeans(all: seq<Record>, records: seq<Record>, r: Record)
    ensures r in Visible(all, records) <==> r in records && !Hidden(all, r)
  {
    hide Hidden;
    if records != [] {
      var before, last := records[..|records| - 1], records[|records| - 1];
      VisibleMeans(all, before, r);
      assert r in records <==> r in before || r == last;
    }
  }

  // ---------- Hits ----------

  datatype Match = Match(pattern: nat, revision: nat, offsetStart: nat, offsetEnd: nat, historical: bool,
                         contentId: Uuid, view: View)

  predicate SameHit(a: Match, b: Match) {
    && a.pattern == b.pattern && a.revision == b.revision && a.offsetStart == b.offsetStart
    && a.offsetEnd == b.offsetEnd && a.historical == b.historical
  }

  function Source(records: seq<Record>, id: Uuid): Option<Record> {
    if records == [] then None
    else if records[|records| - 1].id == id then Some(records[|records| - 1])
    else Source(records[..|records| - 1], id)
  }

  predicate IsVisible(visible: seq<Record>, id: Uuid) {
    exists r :: r in visible && r.id == id
  }

  predicate Overlaps(hit: Match, t: Record) {
    hit.offsetStart < End(t) && t.streamOffset < hit.offsetEnd
  }

  /** The visible records a hit on a hidden raw record is shown on. */
  predicate Target(hit: Match, source: Record, t: Record) {
    t.direction == source.direction && IsHttpWireView(t.view) && Overlaps(hit, t)
  }

  function Projected(hit: Match, t: Record): Match {
    hit.(contentId := t.id, view := t.view)
  }

  type Buckets = map<Uuid, seq<Match>>

  function Bucket(out: Buckets, id: Uuid): seq<Match> {
    if id in out then out[id] else []
  }

  predicate Holds(out: Buckets, id: Uuid, hit: Match) {
    exists m :: m in Bucket(out, id) && SameHit(m, hit)
  }

  /** Buckets only ever grow. */
  ghost predicate Grows(out: Buckets, out': Buckets) {
    forall id, m | m in Bucket(out, id) :: m in Bucket(out', id)
  }

  lemma HoldsLater(out: Buckets, out': Buckets, id: Uuid, hit: Match)
    requires Grows(out, out') && Holds(out, id, hit)
    ensures Holds(out', id, hit)
  {
    var m :| m in Bucket(out, id) && SameHit(m, hit);
    assert m in Bucket(out', id);
  }

  /** Where a hit has to appear. */
  ghost predicate Lands(all: seq<Record>, visible: seq<Record>, out: Buckets, hit: Match) {
    if IsVisible(visible, hit.contentId) then hit in Bucket(out, hit.contentId)
    else
      var source := Source(all, hit.contentId);
      source.Some? && source.value.view.TcpRaw? ==>
        forall t | t in visible && Target(hit, source.value, t) :: Holds(out, t.id, hit)
  }

  /** And the only places where it may. */
  ghost predicate Belongs(all: seq<Record>, visible: seq<Record>, matches: seq<Match>, id: Uuid, m: Match) {
    exists hit :: hit in matches && BelongsTo(all, visible, hit, id, m)
  }

  ghost predicate BelongsTo(all: seq<Record>, visible: seq<Record>, hit: Match, id: Uuid, m: Match) {
    if IsVisible(visible, hit.contentId) then m == hit && id == hit.contentId
    else
      var source := Source(all, hit.contentId);
      source.Some? && source.value.view.TcpRaw?
      && exists t :: t in visible && Target(hit, source.value, t) && id == t.id && m == Projected(hit, t)
  }

  ghost predicate AllBelong(all: seq<Record>, visible: seq<Record>, matches: seq<Match>, out: Buckets) {
    forall id, m | m in Bucket(out, id) :: Belongs(all, visible, matches, id, m)
  }

  lemma PutGrows(out: Buckets, id: Uuid, m: Match)
    ensures var out' := out[id := Bucket(out, id) + [m]];
      Grows(out, out') && m in Bucket(out', id)
      && forall k, x | x in Bucket(out', k) :: x in Bucket(out, k) || (k == id && x == m)
  {
    var out' := out[id := Bucket(out, id) + [m]];
    assert Bucket(out', id)[|Bucket(out, id)|] == m;
  }

  lemma LandsLater(all: seq<Record>, visible: seq<Record>, out: Buckets, out': Buckets, hit: Match)
    requires Lands(all, visible, out, hit) && Grows(out, out')
    ensures Lands(all, visible, out', hit)
  {
    hide Holds, Target, Source, IsVisible;
    if !IsVisible(visible, hit.contentId) {
      var source := Source(all, hit.contentId);
      if source.Some? && source.value.view.TcpRaw? {
        forall t | t in visible && Target(hit, source.value, t)
          ensures Holds(out', t.id, hit)
        {
          HoldsLater(out, out', t.id, hit);
        }
      }
    }
  }

  /** Shows one hit on a hidden raw record on every visible record it overlaps. */
  method ProjectOne(all: seq<Record>, visible: seq<Record>, hit: Match, source: Record, out: Buckets, ghost matches: seq<Match>)
    returns (out': Buckets)
    requires !IsVisible(visible, hit.contentId) && Source(all, hit.contentId) == Some(source) && source.view.TcpRaw?
    requires hit in matches && AllBelong(all, visible, matches, out)
    ensures Grows(out, out') && AllBelong(all, visible, matches, out') && Lands(all, visible, out', hit)
  {
    out' := out;
    for k := 0 to |visible|
      invariant Grows(out, out') && AllBelong(all, visible, matches, out')
      invariant forall i | 0 <= i < k && Target(hit, source, visible[i]) :: Holds(out', visible[i].id, hit)
    {
      var t := visible[k];
      if t.direction == source.direction && IsHttpWireView(t.view) {
        if !(hit.offsetStart >= End(t) || hit.offsetEnd <= t.streamOffset) {
          var projected := Projected(hit, t);
          if !(exists m :: m in Bucket(out', t.id) && SameHit(m, projected)) {
            out' := PutProjected(all, visible, hit, source, t, out', matches, out, k);
          }
          assert Holds(out', t.id, hit);
        }
      }
    }
  }

  method PutProjected(all: seq<Record>, visible: seq<Record>, hit: Match, source: Record, t: Record, out: Buckets,
                      ghost matches: seq<Match>, ghost start: Buckets, ghost k: nat)
    returns (out': Buckets)
    requires !IsVisible(visible, hit.contentId) && Source(all, hit.contentId) == Some(source) && source.view.TcpRaw?
    requires hit in matches && AllBelong(all, visible, matches, out) && Grows(start, out)
    requires k < |visible| && t == visible[k] && Target(hit, source, t)
    requires forall i | 0 <= i < k && Target(hit, source, visible[i]) :: Holds(out, visible[i].id, hit)
    ensures Grows(start, out') && AllBelong(all, visible, matches, out') && Holds(out', t.id, hit)
    ensures forall i | 0 <= i < k && Target(hit, source, visible[i]) :: Holds(out', visible[i].id, hit)
  {
    var projected := Projected(hit, t);
    PutGrows(out, t.id, projected);
    out' := out[t.id := Bucket(out, t.id) + [projected]];
    assert BelongsTo(all, visible, hit, t.id, projected);
    assert SameHit(projected, hit);
    hide Bucket, BelongsTo, Source, IsVisible;
    forall i | 0 <= i < k && Target(hit, source, visible[i])
      ensures Holds(out', visible[i].id, hit)
    {
      HoldsLater(out, out', visible[i].id, hit);
    }
  }

  method ProjectMatchesToVisibleContent(all: seq<Record>, visible: seq<Record>, matches: seq<Match>) returns (out: Buckets)
    ensures forall hit | hit in matches :: Lands(all, visible, out, hit)
    ensures AllBelong(all, visible, matches, out)
  {
    hide Lands, AllBelong;
    out := map[];
    assert AllBelong(all, visible, matches, out) by { NothingBelongs(all, visible, matches); }
    for k := 0 to |matches|
      invariant forall i | 0 <= i < k :: Lands(all, visible, out, matches[i])
      invariant AllBelong(all, visible, matches, out)
    {
      ghost var before := out;
      out := PlaceOne(all, visible, matches[k], out, matches);
      forall i | 0 <= i < k
        ensures Lands(all, visible, out, matches[i])
      {
        LandsLater(all, visible, before, out, matches[i]);
      }
    }
  }

  lemma NothingBelongs(all: seq<Record>, visible: seq<Record>, matches: seq<Match>)
    ensures AllBelong(all, visible, matches, map[])
  {
  }

  method PlaceOne(all: seq<Record>, visible: seq<Record>, hit: Match, out: Buckets, ghost matches: seq<Match>) returns (out': Buckets)
    requires hit in matches && AllBelong(all, visible, matches, out)
    ensures Grows(out, out') && AllBelong(all, visible, matches, out') && Lands(all, visible, out', hit)
  {
    if IsVisible(visible, hit.contentId) {
      PutGrows(out, hit.contentId, hit);
      out' := out[hit.contentId := Bucket(out, hit.contentId) + [hit]];
      assert BelongsTo(all, visible, hit, hit.contentId, hit);
      return;
    }
    hide BelongsTo;
    var source := Source(all, hit.contentId);
    if source.None? || !source.value.view.TcpRaw? {
      return out;
    }
    out' := ProjectOne(all, visible, hit, source.value, out, matches);
  }

  // ---------- No hit on a hidden record is lost ----------

  lemma {:induction false} SourceUnique(records: seq<Record>, r: Record)
    requires r in records && forall s | s in records && s.id == r.id :: s == r
    ensures Source(records, r.id) == Some(r)
  {
    var before, last := records[..|records| - 1], records[|records| - 1];
    if last.id != r.id {
      assert r in before;
      SourceUnique(before, r);
    } else {
      assert last in records;
    }
  }

  /** Every non-empty hit that overlaps a hidden raw record is shown on some visible
      HTTP record of the same direction that it overlaps. */
  lemma HiddenHitsLand(all: seq<Record>, out: Buckets, r: Record, hit: Match)
    requires r in all && Hidden(all, r) && forall s | s in all && s.id == r.id :: s == r
    requires hit.contentId == r.id && hit.offsetStart < hit.offsetEnd && Overlaps(hit, r)
    requires Lands(all, Visible(all, all), out, hit)
    ensures exists t :: t in Visible(all, all) && Target(hit, r, t) && Holds(out, t.id, hit)
  {
    var visible := Visible(all, all);
    SourceUnique(all, r);
    HiddenIdGone(all, r);
    var b: nat := Max(hit.offsetStart, r.streamOffset);
    assert Shown(all, r.direction, b);
    var t :| t in all && Semantic(t) && t.direction == r.direction && t.streamOffset <= b < End(t);
    VisibleMeans(all, all, t);
    hide Visible, Source;
    assert Target(hit, r, t);
  }

  lemma HiddenIdGone(all: seq<Record>, r: Record)
    requires Hidden(all, r) && forall s | s in all && s.id == r.id :: s == r
    ensures !IsVisible(Visible(all, all), r.id)
  {
    forall s | s in Visible(all, all)
      ensures s.id != r.id
    {
      VisibleMeans(all, all, s);
    }
    hide Visible, Hidden;
  }
}
