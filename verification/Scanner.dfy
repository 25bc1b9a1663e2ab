/** The stateful scanner: match limits, tails per stream, and stale-tail eviction. */
module Scanner {
  import opened Basics
  import opened LiteralSearch

  const STALE_NS: nat := 300_000_000_000
  const SWEEP_EVERY: nat := 4096

  datatype StreamKey = StreamKey(flow: nat, direction: Direction, view: nat)

  /** Stops a record from reporting more than `maxPerPattern` matches of one pattern,
      or `maxTotal` candidates in all. */
  class MatchLimiter {
    var perPattern: map<nat, nat>
    var candidates: nat
    const maxPerPattern: nat
    const maxTotal: nat
    var limited: bool

    constructor (maxPerPattern: nat, maxTotal: nat)
      ensures perPattern == map[] && candidates == 0 && !limited
      ensures this.maxPerPattern == maxPerPattern && this.maxTotal == maxTotal
    {
      perPattern := map[];
      candidates := 0;
      this.maxPerPattern := maxPerPattern;
      this.maxTotal := maxTotal;
      limited := false;
    }

    predicate Exhausted()
      reads this
    {
      candidates >= maxTotal
    }

    function Count(pattern: nat): nat
      reads this
    {
      if pattern in perPattern then perPattern[pattern] else 0
    }

    /** The state after `n` matches of one pattern were offered and `limited` set iff one was refused. */
    ghost predicate Offered(pattern: nat, n: nat)
      reads this
    {
      && candidates == Min(n, maxTotal)
      && Count(pattern) == Min(n, Min(maxPerPattern, maxTotal))
      && (limited <==> n > Min(maxPerPattern, maxTotal))
    }

    method Push(out: seq<nat>, pattern: nat, hit: nat) returns (out': seq<nat>)
      modifies this
      ensures if old(Exhausted()) then
                out' == out && limited && candidates == old(candidates) && perPattern == old(perPattern)
              else if old(Count(pattern)) >= maxPerPattern then
                out' == out && limited && candidates == old(candidates) + 1 && Count(pattern) == old(Count(pattern))
              else
                out' == out + [hit] && limited == old(limited) && candidates == old(candidates) + 1
                && Count(pattern) == old(Count(pattern)) + 1
      ensures forall p | p != pattern :: Count(p) == old(Count(p))
    {
      if Exhausted() {
        limited := true;
        return out;
      }
      candidates := candidates + 1;
      var count := Count(pattern);
      perPattern := perPattern[pattern := count];
      if count >= maxPerPattern {
        limited := true;
        return out;
      }
      perPattern := perPattern[pattern := count + 1];
      out' := out + [hit];
    }
  }

  /** What the limits let through: always the first matches. */
  function Allowed(hits: seq<nat>, maxPerPattern: nat, maxTotal: nat): seq<nat> {
    hits[..Min(|hits|, Min(maxPerPattern, maxTotal))]
  }

  lemma AllowedNext(hits: seq<nat>, n: nat, maxPerPattern: nat, maxTotal: nat)
    requires n < |hits|
    ensures Allowed(hits[..n + 1], maxPerPattern, maxTotal)
      == if n < Min(maxPerPattern, maxTotal) then Allowed(hits[..n], maxPerPattern, maxTotal) + [hits[n]]
         else Allowed(hits[..n], maxPerPattern, maxTotal)
  {
    assert hits[..n + 1] == hits[..n] + [hits[n]];
  }

  lemma AllowedEarly(hits: seq<nat>, n: nat, maxPerPattern: nat, maxTotal: nat)
    requires Min(maxPerPattern, maxTotal) <= n <= |hits|
    ensures Allowed(hits, maxPerPattern, maxTotal) == Allowed(hits[..n], maxPerPattern, maxTotal)
  {
  }

  /** The matches over the boundary are those of the bridge; the filter loses none. */
  lemma BridgeMatches(w: seq<Byte>, r: Record, prefix: seq<Byte>)
    requires w != [] && |prefix| <= r.offset
    ensures |LastBytes(prefix, |w| - 1)| <= r.offset
    ensures BoundaryHits(w, r, prefix) ==
      if prefix == [] || |w| == 1 then []
      else Shifted(FindIter(w, Bridge(w, prefix, r.data), 0), r.offset - |LastBytes(prefix, |w| - 1)|)
    ensures forall h | h in BoundaryHits(w, r, prefix) :: h < r.offset < h + |w|
  {
    hide FindIter, Shifted, Crossing;
    var lead := |LastBytes(prefix, |w| - 1)|;
    var bridge := Bridge(w, prefix, r.data);
    CrossingAll(w, lead, bridge, r.offset);
    if prefix != [] && |w| > 1 {
      CrossingKeeps(Shifted(FindIter(w, bridge, 0), r.offset - lead), r.offset, |w|);
    }
  }

  /** `found`, moved by `base`, are the entries of `hits` from `done` on. */
  ghost predicate Part(hits: seq<nat>, done: nat, found: seq<nat>, base: nat) {
    done + |found| <= |hits| && forall i | 0 <= i < |found| :: hits[done + i] == base + found[i]
  }

  lemma HitsParts(w: seq<Byte>, r: Record, prefix: seq<Byte>)
    requires w != [] && |prefix| <= r.offset
    ensures var hits, crossing := Hits(w, r, prefix), |BoundaryHits(w, r, prefix)|;
      && Part(hits, crossing, FindIter(w, r.data, 0), r.offset)
      && |hits| == crossing + |FindIter(w, r.data, 0)|
      && (prefix == [] || |w| == 1 ==> crossing == 0)
    ensures prefix != [] && |w| > 1 ==>
      var base, found := r.offset - |LastBytes(prefix, |w| - 1)|, FindIter(w, Bridge(w, prefix, r.data), 0);
      && base >= 0 && |found| == |BoundaryHits(w, r, prefix)|
      && Part(Hits(w, r, prefix), 0, found, base)
      && forall i | 0 <= i < |found| :: base + found[i] < r.offset < base + found[i] + |w|
  {
    hide FindIter, BoundaryHits, Bridge, LastBytes;
    BridgeMatches(w, r, prefix);
    var b := BoundaryHits(w, r, prefix);
    if prefix != [] && |w| > 1 {
      var base, found := r.offset - |LastBytes(prefix, |w| - 1)|, FindIter(w, Bridge(w, prefix, r.data), 0);
      forall i | 0 <= i < |found|
        ensures base + found[i] < r.offset < base + found[i] + |w|
      {
        assert b[i] in b;
      }
    }
  }

  lemma {:induction false} CrossingKeeps(q: seq<nat>, offset: nat, len: nat)
    ensures forall h | h in Crossing(q, offset, len) :: h < offset < h + len
  {
    if q != [] {
      CrossingKeeps(q[..|q| - 1], offset, len);
    }
  }

  /** Reports the bridge matches that start before the record and end in it. */
  method ReportCrossing(w: seq<Byte>, found: seq<nat>, base: nat, offset: nat, pattern: nat, limiter: MatchLimiter,
                        ghost hits: seq<nat>)
    returns (out: seq<nat>, stopped: bool)
    requires Part(hits, 0, found, base)
    requires forall i | 0 <= i < |found| :: base + found[i] < offset < base + found[i] + |w|
    requires limiter.Offered(pattern, 0)
    modifies limiter
    ensures !stopped ==> limiter.Offered(pattern, |found|)
    ensures !stopped ==> out == Allowed(hits[..|found|], limiter.maxPerPattern, limiter.maxTotal)
    ensures stopped ==> limiter.limited && |hits| > Min(limiter.maxPerPattern, limiter.maxTotal)
    ensures stopped ==> out == Allowed(hits, limiter.maxPerPattern, limiter.maxTotal)
  {
    hide Allowed;
    out := [];
    AllowedNone(hits, limiter.maxPerPattern, limiter.maxTotal);
    for i := 0 to |found|
      invariant limiter.Offered(pattern, i)
      invariant out == Allowed(hits[..i], limiter.maxPerPattern, limiter.maxTotal)
    {
      if limiter.Exhausted() {
        AllowedEarly(hits, i, limiter.maxPerPattern, limiter.maxTotal);
        limiter.limited := true;
        return out, true;
      }
      var start := base + found[i];
      assert start == hits[0 + i];
      if start < offset && start + |w| > offset {
        AllowedNext(hits, i, limiter.maxPerPattern, limiter.maxTotal);
        out := limiter.Push(out, pattern, start);
      }
    }
    stopped := false;
  }

  /** Reports the matches found in the record itself, after the first `done` of `hits`. */
  method ReportDirect(found: seq<nat>, offset: nat, pattern: nat, limiter: MatchLimiter, out: seq<nat>,
                      ghost hits: seq<nat>, ghost done: nat)
    returns (out': seq<nat>)
    requires Part(hits, done, found, offset) && |hits| == done + |found|
    requires limiter.Offered(pattern, done) && out == Allowed(hits[..done], limiter.maxPerPattern, limiter.maxTotal)
    modifies limiter
    ensures limiter.limited <==> |hits| > Min(limiter.maxPerPattern, limiter.maxTotal)
    ensures out' == Allowed(hits, limiter.maxPerPattern, limiter.maxTotal)
  {
    hide Allowed;
    out' := out;
    for i := 0 to |found|
      invariant limiter.Offered(pattern, done + i)
      invariant out' == Allowed(hits[..done + i], limiter.maxPerPattern, limiter.maxTotal)
    {
      if limiter.Exhausted() {
        AllowedEarly(hits, done + i, limiter.maxPerPattern, limiter.maxTotal);
        limiter.limited := true;
        return;
      }
      AllowedNext(hits, done + i, limiter.maxPerPattern, limiter.maxTotal);
      out' := limiter.Push(out', pattern, offset + found[i]);
    }
    assert hits[..|hits|] == hits;
  }

  /** Searches one record for one literal. When the limits are reached only the tail of
      the matches is lost, and exactly then `limited` is set. */
  method ScanInto(w: seq<Byte>, pattern: nat, r: Record, prefix: seq<Byte>, limiter: MatchLimiter)
    returns (out: seq<nat>)
    requires w != [] && |prefix| <= r.offset && limiter.Offered(pattern, 0)
    modifies limiter
    ensures out == Allowed(Hits(w, r, prefix), limiter.maxPerPattern, limiter.maxTotal)
    ensures limiter.limited <==> |Hits(w, r, prefix)| > Min(limiter.maxPerPattern, limiter.maxTotal)
  {
    hide Hits, FindIter, First, BoundaryHits, Allowed, Bridge, LastBytes, Part;
    HitsParts(w, r, prefix);
    ghost var hits := Hits(w, r, prefix);
    ghost var crossing: nat := |BoundaryHits(w, r, prefix)|;
    out := [];
    AllowedNone(hits, limiter.maxPerPattern, limiter.maxTotal);
    if prefix != [] && |w| > 1 {
      var base := r.offset - |LastBytes(prefix, |w| - 1)|;
      var stopped;
      out, stopped := ReportCrossing(w, FindIter(w, Bridge(w, prefix, r.data), 0), base, r.offset, pattern, limiter, hits);
      if stopped {
        return;
      }
    }
    out := ReportDirect(FindIter(w, r.data, 0), r.offset, pattern, limiter, out, hits, crossing);
  }

  lemma AllowedNone(hits: seq<nat>, maxPerPattern: nat, maxTotal: nat)
    ensures Allowed(hits[..0], maxPerPattern, maxTotal) == []
  {
  }

  /** Streams not seen for five minutes of traffic time. */
  function Stale(lastSeen: map<StreamKey, nat>, tsNs: nat): set<StreamKey> {
    set k | k in lastSeen && lastSeen[k] < Max(tsNs - STALE_NS, 0)
  }

  function TailOf(tails: map<StreamKey, Tail>, key: StreamKey): Option<Tail> {
    if key in tails then Some(tails[key]) else None
  }

  /** Streams other than `key` keep their tail, except those forgotten. */
  ghost predicate OthersKept(before: map<StreamKey, Tail>, after: map<StreamKey, Tail>, key: StreamKey,
                             forgotten: set<StreamKey>) {
    forall k | k != key :: TailOf(after, k) == if k in forgotten then None else TailOf(before, k)
  }

  ghost predicate TailsFit(tails: map<StreamKey, Tail>) {
    forall k | k in tails :: |tails[k].data| <= tails[k].endOffset
  }

  lemma TailAfterFits(tail: Option<Tail>, r: Record, keep: nat)
    requires tail.Some? ==> |tail.value.data| <= tail.value.endOffset
    ensures |PrefixFor(tail, r)| <= r.offset
    ensures var t := TailAfter(tail, r, keep); t.Some? ==> |t.value.data| <= t.value.endOffset
  {
  }

  /** Replays stored records through the search, one tail per stream. */
  class ReplayScanner {
    const literal: seq<Byte>
    const pattern: nat
    const interested: StreamKey -> bool
    const keep: nat
    const maxHitsPerPattern: nat
    const maxHitsPerRecord: nat
    var tails: map<StreamKey, Tail>
    var lastSeen: map<StreamKey, nat>
    var scannedRecords: nat

    /** Every tail ends where its stream was last seen and never reaches before offset zero. */
    ghost predicate Valid()
      reads this
    {
      && literal != [] && keep >= |literal| - 1
      && TailsFit(tails)
    }

    constructor (literal: seq<Byte>, pattern: nat, interested: StreamKey -> bool, keep: nat,
                 maxHitsPerPattern: nat, maxHitsPerRecord: nat)
      requires literal != [] && keep >= |literal| - 1
      ensures Valid() && tails == map[] && lastSeen == map[] && scannedRecords == 0
      ensures this.literal == literal && this.pattern == pattern && this.interested == interested && this.keep == keep
      ensures this.maxHitsPerPattern == maxHitsPerPattern && this.maxHitsPerRecord == maxHitsPerRecord
    {
      this.literal := literal;
      this.pattern := pattern;
      this.interested := interested;
      this.keep := keep;
      this.maxHitsPerPattern := maxHitsPerPattern;
      this.maxHitsPerRecord := maxHitsPerRecord;
      tails := map[];
      lastSeen := map[];
      scannedRecords := 0;
    }

    method ScanRecord(key: StreamKey, r: Record, tsNs: nat) returns (hits: seq<nat>, limited: bool)
      requires Valid()
      modifies this
      ensures Valid()
      ensures !interested(key) ==> hits == [] && !limited && TailOf(tails, key) == None
      ensures !interested(key) ==> OthersKept(old(tails), tails, key, {})
      ensures interested(key) ==> |PrefixFor(TailOf(old(tails), key), r)| <= r.offset
      ensures interested(key) ==> hits == Allowed(Hits(literal, r, PrefixFor(TailOf(old(tails), key), r)),
                                                  maxHitsPerPattern, maxHitsPerRecord)
      ensures interested(key) ==> (limited <==> |Hits(literal, r, PrefixFor(TailOf(old(tails), key), r))|
                                                > Min(maxHitsPerPattern, maxHitsPerRecord))
      ensures interested(key) ==> TailOf(tails, key) == TailAfter(TailOf(old(tails), key), r, keep)
      ensures interested(key) ==> OthersKept(old(tails), tails, key,
        if scannedRecords % SWEEP_EVERY == 0 then Stale(old(lastSeen)[key := tsNs], tsNs) else {})
    {
      hide Hits, Allowed, Stale, TailAfter, PrefixFor;
      if !interested(key) {
        tails := tails - {key};
        lastSeen := lastSeen - {key};
        return [], false;
      }
      var tail := TailOf(tails, key);
      TailAfterFits(tail, r, keep);
      var limiter := new MatchLimiter(maxHitsPerPattern, maxHitsPerRecord);
      hits := ScanInto(literal, pattern, r, PrefixFor(tail, r), limiter);
      limited := limiter.limited;
      Remember(key, TailAfter(tail, r, keep), tsNs);
    }

    /** Stores the tail of a stream, if one is needed at all. */
    method Remember(key: StreamKey, next: Option<Tail>, tsNs: nat)
      requires Valid() && (next.Some? ==> |next.value.data| <= next.value.endOffset)
      modifies this
      ensures Valid() && scannedRecords == old(scannedRecords) + 1
      ensures TailOf(tails, key) == next
      ensures OthersKept(old(tails), tails, key,
        if scannedRecords % SWEEP_EVERY == 0 then Stale(old(lastSeen)[key := tsNs], tsNs) else {})
    {
      if next.None? {
        tails := tails - {key};
      } else {
        tails := tails[key := next.value];
      }
      lastSeen := lastSeen[key := tsNs];
      scannedRecords := scannedRecords + 1;
      if scannedRecords % SWEEP_EVERY == 0 {
        var stale := Stale(lastSeen, tsNs);
        assert key !in stale;
        lastSeen := lastSeen - stale;
        tails := tails - stale;
      }
    }
  }
}
