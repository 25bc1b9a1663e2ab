/** The bounded cache of datagrams under reassembly: exact byte accounting, expiry,
    and eviction of the least recently seen datagram. */
module FragmentCache {
  import opened Basics
  import D = Datagram

  const CLEANUP_INTERVAL: nat := 1000
  const MIN_BYTES: nat := 65536

  datatype Key = Key(version: nat, l2Domain: nat, src: nat, dst: nat, id: nat, nextHeader: nat)

  datatype Inserted = Pending | Completed(payload: seq<Byte>, wireBytes: nat) | DroppedOverlap | DroppedInvalid

  type Table = map<Key, D.State>

  ghost function Sum(t: Table): nat
    decreases |t.Keys|
  {
    if t == map[] then 0
    else
      var k :| k in t;
      KeysShrink(t, k);
      t[k].bytes + Sum(t - {k})
  }

  lemma KeysShrink(t: Table, k: Key)
    requires k in t
    ensures |(t - {k}).Keys| == |t.Keys| - 1 && |t - {k}| == |t| - 1
    ensures |t| == |t.Keys|
  {
    assert (t - {k}).Keys == t.Keys - {k};
    CountKeys(t);
    CountKeys(t - {k});
  }

  lemma CountKeys(t: Table)
    ensures |t| == |t.Keys|
  {
  }

  /** The sum does not depend on which key is taken out first. */
  lemma {:induction false} SumRemove(t: Table, k: Key)
    requires k in t
    ensures Sum(t) == t[k].bytes + Sum(t - {k})
    decreases |t.Keys|
  {
    var first :| first in t && Sum(t) == t[first].bytes + Sum(t - {first});
    KeysShrink(t, first);
    KeysShrink(t, k);
    if first != k {
      SumRemove(t - {first}, k);
      SumRemove(t - {k}, first);
      assert t - {first} - {k} == t - {k} - {first};
    }
  }

  lemma SumPut(t: Table, k: Key, s: D.State)
    ensures Sum(t[k := s]) == s.bytes + Sum(t - {k})
  {
    hide Sum;
    SumRemove(t[k := s], k);
    assert t[k := s] - {k} == t - {k};
  }

  lemma SumWithout(t: Table, k: Key)
    ensures Sum(t - {k}) == if k in t then Sum(t) - t[k].bytes else Sum(t)
  {
    hide Sum;
    if k in t {
      SumRemove(t, k);
    } else {
      assert t - {k} == t;
    }
  }

  /** Every kept datagram is sound, and `bytes` is exactly what they are charged. */
  ghost predicate Accounted(t: Table, bytes: nat) {
    && bytes == Sum(t)
    && forall k | k in t :: D.Sound(t[k])
  }

  predicate OverLimit(t: Table, bytes: nat, maxBytes: nat, maxDatagrams: nat) {
    bytes > maxBytes || |t| > maxDatagrams
  }

  function Age(s: D.State, now: nat): nat {
    if s.lastSeen <= now then now - s.lastSeen else 0
  }

  function Live(t: Table, now: nat, timeout: nat): Table {
    map k | k in t && Age(t[k], now) < timeout :: t[k]
  }

  /** What periodic maintenance leaves of the table. */
  function Kept(t: Table, lastCleanup: nat, now: nat, timeout: nat): Table {
    if (if lastCleanup <= now then now - lastCleanup else 0) < CLEANUP_INTERVAL then t else Live(t, now, timeout)
  }

  /** `after` is `before` with least recently seen datagrams taken out, one at a time
      and only while a limit was exceeded. */
  ghost predicate Evicted(before: Table, after: Table, maxBytes: nat, maxDatagrams: nat) {
    && (forall k | k in after :: k in before && after[k] == before[k])
    && (forall k, j | k in before && k !in after && j in after :: before[k].lastSeen <= before[j].lastSeen)
    && (after != before ==> exists k | k in before && k !in after ::
          OverLimit(after[k := before[k]], Sum(after[k := before[k]]), maxBytes, maxDatagrams))
  }

  lemma AccountedRemove(t: Table, bytes: nat, k: Key)
    requires Accounted(t, bytes) && k in t
    ensures bytes >= t[k].bytes && Accounted(t - {k}, bytes - t[k].bytes)
  {
    hide Sum, D.Sound;
    SumRemove(t, k);
  }

  lemma AccountedPut(t: Table, bytes: nat, k: Key, s: D.State)
    requires Accounted(t, bytes) && D.Sound(s)
    ensures bytes >= Charged(t, k) && Accounted(t[k := s], bytes - Charged(t, k) + s.bytes)
  {
    hide Sum, D.Sound;
    SumPut(t, k, s);
    SumWithout(t, k);
  }

  lemma EvictedMore(before: Table, mid: Table, maxBytes: nat, maxDatagrams: nat, k: Key)
    requires Evicted(before, mid, maxBytes, maxDatagrams)
    requires k in mid && forall j | j in mid :: mid[k].lastSeen <= mid[j].lastSeen
    requires OverLimit(mid, Sum(mid), maxBytes, maxDatagrams)
    ensures Evicted(before, mid - {k}, maxBytes, maxDatagrams)
  {
    hide Sum, OverLimit;
    assert (mid - {k})[k := before[k]] == mid;
    assert k in before && k !in mid - {k};
  }

  lemma EvictedNone(t: Table, maxBytes: nat, maxDatagrams: nat)
    ensures Evicted(t, t, maxBytes, maxDatagrams)
  {
  }

  function Charged(t: Table, k: Key): nat {
    if k in t then t[k].bytes else 0
  }

  /** The datagram a fragment is judged against. */
  function Current(t: Table, k: Key, now: nat): D.State {
    if k in t then t[k] else D.Fresh(now)
  }

  lemma FreshSound(now: nat)
    ensures D.Sound(D.Fresh(now))
  {
  }

  /** What one well-formed fragment does to the table and what is reported. */
  ghost predicate Absorbed(base: Table, after: Table, key: Key, f: D.Piece, wireLen: nat, now: nat,
                           out: Inserted, evicted: nat, maxBytes: nat, maxDatagrams: nat) {
    var v := D.Judge(Current(base, key, now), f, now, wireLen);
    if v.Rejected? then
      out == (if v.reason.Invalid? then DroppedInvalid else DroppedOverlap) && after == base - {key} && evicted == 0
    else if D.Complete(v.s) then
      out == Completed(D.Payload(v.s.pieces), v.s.wireBytes) && after == base - {key} && evicted == 0
    else
      out == Pending && Evicted(base[key := v.s], after, maxBytes, maxDatagrams)
      && evicted == |base[key := v.s]| - |after|
  }

  lemma SmallerWithin(t: Table, bytes: nat, key: Key, bytes': nat, maxBytes: nat, maxDatagrams: nat)
    requires Accounted(t, bytes) && !OverLimit(t, bytes, maxBytes, maxDatagrams)
    requires Accounted(t - {key}, bytes')
    ensures !OverLimit(t - {key}, bytes', maxBytes, maxDatagrams)
  {
    hide Sum, D.Sound;
    SumWithout(t, key);
    if key in t { KeysShrink(t, key); } else { assert t - {key} == t; }
  }

  lemma DuplicateWithin(t: Table, bytes: nat, key: Key, s: D.State, bytes': nat, maxBytes: nat, maxDatagrams: nat)
    requires Accounted(t, bytes) && !OverLimit(t, bytes, maxBytes, maxDatagrams)
    requires key in t && Accounted(t[key := s], bytes') && s.bytes == t[key].bytes
    ensures bytes' == bytes && !OverLimit(t[key := s], bytes', maxBytes, maxDatagrams)
  {
    hide Sum, D.Sound;
    SumWithout(t, key);
    SumPut(t, key, s);
    assert t[key := s].Keys == t.Keys;
  }

  lemma DuplicateKnown(t: Table, key: Key, now: nat)
    requires Current(t, key, now).pieces != []
    ensures key in t && Current(t, key, now) == t[key]
  {
  }

  /** Replacing a judged datagram by what was made of it keeps the account exact. */
  lemma AccountedJudged(t: Table, bytes: nat, key: Key, f: D.Piece, now: nat, wireLen: nat)
    requires Accounted(t, bytes) && key in t
    ensures var v := D.Judge(t[key], f, now, wireLen);
      && (v.Added? ==> Accounted(t[key := v.s], bytes + |f.data| + D.PIECE_OVERHEAD))
      && (v.Duplicate? ==> Accounted(t[key := v.s], bytes) && t[key].pieces != [] && v.s.bytes == t[key].bytes)
  {
    hide Sum, D.Sound, D.Judge;
    D.JudgeSound(t[key], f, now, wireLen);
    var v := D.Judge(t[key], f, now, wireLen);
    SumWithout(t, key);
    if !v.Rejected? {
      AccountedPut(t, bytes, key, v.s);
    }
  }

  class FragmentCache {
    var states: Table
    var bytes: nat
    const maxBytes: nat
    const maxDatagrams: nat
    const timeout: nat
    var lastCleanup: nat

    ghost predicate Valid()
      reads this
    {
      && Accounted(states, bytes)
      && !OverLimit(states, bytes, maxBytes, maxDatagrams)
      && maxDatagrams >= 1
    }

    constructor (bytesLimit: nat, datagramsLimit: nat, timeout: nat, now: nat)
      ensures Valid() && states == map[] && bytes == 0 && lastCleanup == now
      ensures maxBytes == Max(bytesLimit, MIN_BYTES) && maxDatagrams == Max(datagramsLimit, 1)
      ensures this.timeout == timeout
    {
      states := map[];
      bytes := 0;
      maxBytes := Max(bytesLimit, MIN_BYTES);
      maxDatagrams := Max(datagramsLimit, 1);
      this.timeout := timeout;
      lastCleanup := now;
    }

    method RemoveKey(key: Key)
      requires Accounted(states, bytes)
      modifies this`states, this`bytes
      ensures Accounted(states, bytes)
      ensures states == old(states) - {key} && bytes == old(bytes) - Charged(old(states), key)
    {
      hide Accounted;
      if key in states {
        AccountedRemove(states, bytes, key);
        bytes := bytes - states[key].bytes;
        states := states - {key};
      } else {
        assert states == states - {key};
      }
    }

    /** Picks the datagram seen longest ago. */
    method Oldest() returns (key: Key)
      requires states != map[]
      ensures key in states && forall k | k in states :: states[key].lastSeen <= states[k].lastSeen
    {
      var rest := states.Keys;
      key :| key in rest;
      rest := rest - {key};
      while rest != {}
        invariant key in states && rest <= states.Keys
        invariant forall k | k in states && k !in rest :: states[key].lastSeen <= states[k].lastSeen
        decreases |rest|
      {
        var k :| k in rest;
        if states[k].lastSeen < states[key].lastSeen {
          key := k;
        }
        rest := rest - {k};
      }
    }

    method EvictOldest() returns (evicted: bool)
      requires Accounted(states, bytes)
      modifies this`states, this`bytes
      ensures Accounted(states, bytes)
      ensures evicted == (old(states) != map[])
      ensures !evicted ==> states == old(states) && bytes == old(bytes)
      ensures evicted ==> exists key | key in old(states) ::
        states == old(states) - {key} && forall k | k in old(states) :: old(states)[key].lastSeen <= old(states)[k].lastSeen
    {
      hide Accounted;
      if states == map[] {
        return false;
      }
      var key := Oldest();
      RemoveKey(key);
      evicted := true;
    }

    method Maintenance(now: nat) returns (expired: nat)
      requires Accounted(states, bytes)
      modifies this
      ensures Accounted(states, bytes)
      ensures states == Kept(old(states), old(lastCleanup), now, timeout)
      ensures expired == |old(states)| - |states| && bytes <= old(bytes)
    {
      hide Accounted;
      expired := 0;
      if (if lastCleanup <= now then now - lastCleanup else 0) < CLEANUP_INTERVAL {
        return;
      }
      lastCleanup := now;
      ghost var before := states;
      var due := set k | k in states && Age(states[k], now) >= timeout;
      while due != {}
        invariant Accounted(states, bytes) && bytes <= old(bytes)
        invariant forall k | k in states :: k in before && states[k] == before[k]
        invariant forall k | k in before :: k in states <==> (Age(before[k], now) < timeout || k in due)
        invariant forall k | k in due :: k in before && Age(before[k], now) >= timeout
        invariant expired == |before| - |states|
        decreases |due|
      {
        var k :| k in due;
        KeysShrink(states, k);
        RemoveKey(k);
        due := due - {k};
        expired := expired + 1;
      }
      assert states == Live(before, now, timeout);
    }

    /** Hands the datagram over, and forgets it, once it is complete. */
    method TryComplete(key: Key) returns (out: Inserted)
      requires Accounted(states, bytes) && key in states
      modifies this`states, this`bytes
      ensures Accounted(states, bytes)
      ensures var s := old(states)[key];
        if D.Complete(s)
        then out == Completed(D.Payload(s.pieces), s.wireBytes)
          && states == old(states) - {key} && bytes == old(bytes) - s.bytes
        else out == Pending && states == old(states) && bytes == old(bytes)
    {
      hide Accounted;
      var s := states[key];
      if D.Complete(s) {
        RemoveKey(key);
        return Completed(D.Payload(s.pieces), s.wireBytes);
      }
      return Pending;
    }

    method EvictOverLimit() returns (evicted: nat)
      requires Accounted(states, bytes) && maxDatagrams >= 1
      modifies this`states, this`bytes
      ensures Valid()
      ensures Evicted(old(states), states, maxBytes, maxDatagrams)
      ensures evicted == |old(states)| - |states|
    {
      evicted := 0;
      hide Evicted, D.Sound;
      assert Evicted(states, states, maxBytes, maxDatagrams) by { EvictedNone(states, maxBytes, maxDatagrams); }
      while OverLimit(states, bytes, maxBytes, maxDatagrams)
        invariant Accounted(states, bytes)
        invariant Evicted(old(states), states, maxBytes, maxDatagrams)
        invariant evicted == |old(states)| - |states|
        decreases |states|
      {
        ghost var mid := states;
        var done := EvictOldest();
        if !done {
          break;
        }
        ghost var key :| key in mid && states == mid - {key} && forall k | k in mid :: mid[key].lastSeen <= mid[k].lastSeen;
        KeysShrink(mid, key);
        EvictedMore(old(states), mid, maxBytes, maxDatagrams, key);
        evicted := evicted + 1;
      }
    }

    /** Makes room for a datagram not seen before; the limits are looked at later. */
    method Open(key: Key, now: nat)
      requires Accounted(states, bytes)
      modifies this`states, this`bytes
      ensures Accounted(states, bytes)
      ensures states == old(states)[key := Current(old(states), key, now)]
    {
      hide Accounted;
      if key in states {
        assert states == states[key := states[key]];
      } else {
        FreshSound(now);
        AccountedPut(states, bytes, key, D.Fresh(now));
        states := states[key := D.Fresh(now)];
        bytes := bytes + D.DATAGRAM_OVERHEAD;
      }
    }

    /** Takes a well-formed fragment into its datagram. */
    method Absorb(key: Key, f: D.Piece, wireLen: nat, now: nat) returns (out: Inserted, evicted: nat)
      requires Valid()
      modifies this`states, this`bytes
      ensures Valid()
      ensures Absorbed(old(states), states, key, f, wireLen, now, out, evicted, maxBytes, maxDatagrams)
    {
      hide Accounted, OverLimit, D.Judge, D.Sound, D.Complete, D.Payload, Evicted, Current;
      ghost var base, charged := states, bytes;
      evicted := 0;
      Open(key, now);
      var v := D.Judge(states[key], f, now, wireLen);
      AccountedJudged(states, bytes, key, f, now, wireLen);
      if v.Rejected? {
        RemoveKey(key);
        assert states == base - {key};
        SmallerWithin(base, charged, key, bytes, maxBytes, maxDatagrams);
        return if v.reason.Invalid? then DroppedInvalid else DroppedOverlap, 0;
      }
      states := states[key := v.s];
      assert states == base[key := v.s];
      if v.Duplicate? {
        DuplicateKnown(base, key, now);
        DuplicateWithin(base, charged, key, v.s, bytes, maxBytes, maxDatagrams);
        out := TryComplete(key);
        if out.Pending? {
          EvictedNone(base[key := v.s], maxBytes, maxDatagrams);
        } else {
          assert states == base - {key};
          SmallerWithin(base, charged, key, bytes, maxBytes, maxDatagrams);
        }
        return;
      }
      bytes := bytes + |f.data| + D.PIECE_OVERHEAD;
      out := TryComplete(key);
      if out.Pending? {
        evicted := EvictOverLimit();
      } else {
        assert states == base - {key};
        SmallerWithin(base, charged, key, bytes, maxBytes, maxDatagrams);
      }
    }

    method Insert(key: Key, f: D.Piece, wireLen: nat, now: nat) returns (out: Inserted, expired: nat, evicted: nat)
      requires Valid()
      modifies this
      ensures Valid()
      ensures var base := Kept(old(states), old(lastCleanup), now, timeout);
        && expired == |old(states)| - |base|
        && if D.Malformed(f) then out == DroppedInvalid && states == base - {key} && evicted == 0
           else Absorbed(base, states, key, f, wireLen, now, out, evicted, maxBytes, maxDatagrams)
    {
      hide Accounted, Absorbed;
      expired := Maintenance(now);
      if D.Malformed(f) {
        ghost var base, charged := states, bytes;
        RemoveKey(key);
        SmallerWithin(base, charged, key, bytes, maxBytes, maxDatagrams);
        return DroppedInvalid, expired, 0;
      }
      out, evicted := Absorb(key, f, wireLen, now);
    }
  }
}
