/** The segment file: a header and a log of checksummed records. Recovery cuts off
    exactly what an interrupted append can leave behind. The checksum is any function
    of the payload. */
module SegmentFile {
  import opened Basics
  import opened RecordCodec

  const HEADER_SIZE: nat := 20
  const RECORD_HEADER: nat := 12
  const RECORD_MAGIC: Word32 := 0x504d5243
  const MAGIC: seq<Byte> := [0x50, 0x4d, 0x53, 0x45, 0x47, 0x30, 0x30, 0x31]

  type Checksum = seq<Byte> -> Word32

  function Header(created: Word64): (h: seq<Byte>)
    ensures |h| == HEADER_SIZE
  {
    MAGIC + Le(1, 4) + Le(created, 8)
  }

  predicate HeaderOk(file: seq<Byte>) {
    |file| >= HEADER_SIZE && file[..8] == MAGIC && FromLe(file[8..12]) == 1
  }

  function Frame(crc: Checksum, payload: seq<Byte>): (f: seq<Byte>)
    requires |payload| < U32
    ensures |f| == RECORD_HEADER + |payload|
  {
    Le(RECORD_MAGIC, 4) + Le(|payload|, 4) + Le(crc(payload), 4) + payload
  }

  /** A record the writer accepts under the configured limit. */
  predicate Storable(r: Record, max: nat) {
    Encode(r).Some? && |Encode(r).value| < U32 && |Encode(r).value| <= max
  }

  predicate AllStorable(rs: seq<Record>, max: nat) {
    forall i | 0 <= i < |rs| :: Storable(rs[i], max)
  }

  function FrameOf(crc: Checksum, r: Record, max: nat): (f: seq<Byte>)
    requires Storable(r, max)
    ensures |f| >= RECORD_HEADER
  {
    Frame(crc, Encode(r).value)
  }

  function Frames(crc: Checksum, rs: seq<Record>, max: nat): seq<Byte>
    requires AllStorable(rs, max)
  {
    if rs == [] then [] else FrameOf(crc, rs[0], max) + Frames(crc, rs[1..], max)
  }

  /** The file a writer has produced after storing `rs`. */
  function Image(crc: Checksum, created: Word64, rs: seq<Record>, max: nat): (f: seq<Byte>)
    requires AllStorable(rs, max)
    ensures |f| == HEADER_SIZE + |Frames(crc, rs, max)|
  {
    Header(created) + Frames(crc, rs, max)
  }

  // ---------- Reading ----------

  datatype Read = Eof | Got(record: Record, size: nat) | Bad

  /** One strict read; `rest` is everything left in the file. */
  function ReadRecord(crc: Checksum, max: nat, rest: seq<Byte>): (r: Read)
    ensures r.Got? ==> RECORD_HEADER <= r.size <= |rest|
  {
    if rest == [] then Eof
    else if |rest| < RECORD_HEADER then Bad
    else if FromLe(rest[0..4]) != RECORD_MAGIC then Bad
    else
      var len := FromLe(rest[4..8]);
      if len > max then Bad
      else if RECORD_HEADER + len > |rest| then Bad
      else
        var payload := rest[12..12 + len];
        if crc(payload) != FromLe(rest[8..12]) then Bad
        else
          var record := Decode(payload);
          if record.None? then Bad else Got(record.value, 12 + len)
  }

  /** A strict scan of all that is left in the file. */
  function ScanRest(crc: Checksum, max: nat, rest: seq<Byte>): Option<seq<Record>>
    decreases |rest|
  {
    match ReadRecord(crc, max, rest)
    case Eof => Some([])
    case Bad => None
    case Got(record, size) =>
      Prepend([record], ScanRest(crc, max, rest[size..]))
  }

  function Scan(crc: Checksum, max: nat, file: seq<Byte>): Option<seq<Record>> {
    if HeaderOk(file) then ScanRest(crc, max, file[HEADER_SIZE..]) else None
  }

  // ---------- Recovery ----------

  function Plus(n: nat, k: Option<nat>): Option<nat> {
    if k.Some? then Some(n + k.value) else None
  }

  function Prepend(found: seq<Record>, more: Option<seq<Record>>): Option<seq<Record>> {
    if more.Some? then Some(found + more.value) else None
  }

  /** How many of the bytes left in the file recovery keeps; None where it refuses. */
  function KeptOf(crc: Checksum, max: nat, rest: seq<Byte>): (k: Option<nat>)
    ensures k.Some? ==> k.value <= |rest|
    decreases |rest|
  {
    if rest == [] || |rest| < RECORD_HEADER then Some(0)
    else if FromLe(rest[0..4]) != RECORD_MAGIC then None
    else
      var len := FromLe(rest[4..8]);
      if len > max then None
      else if RECORD_HEADER + len > |rest| then Some(0)
      else if crc(rest[12..12 + len]) != FromLe(rest[8..12]) || Decode(rest[12..12 + len]).None? then None
      else
        Plus(12 + len, KeptOf(crc, max, rest[12 + len..]))
  }

  datatype Recovered = Removed | Kept(file: seq<Byte>) | Refused

  function Recover(crc: Checksum, max: nat, file: seq<Byte>): Recovered {
    if |file| < HEADER_SIZE then Removed
    else if !HeaderOk(file) then Refused
    else
      match KeptOf(crc, max, file[HEADER_SIZE..])
      case None => Refused
      case Some(k) => Kept(file[..HEADER_SIZE + k])
  }

  // ---------- Any file ----------

  /** A read looks at no byte beyond the record it returns. */
  lemma ReadPrefix(crc: Checksum, max: nat, rest: seq<Byte>, n: nat)
    requires ReadRecord(crc, max, rest).Got? && ReadRecord(crc, max, rest).size <= n <= |rest|
    ensures ReadRecord(crc, max, rest[..n]) == ReadRecord(crc, max, rest)
  {
    hide Decode, FromLe;
    var len := FromLe(rest[4..8]);
    assert rest[..n][0..4] == rest[0..4] && rest[..n][4..8] == rest[4..8] && rest[..n][8..12] == rest[8..12];
    assert rest[..n][12..12 + len] == rest[12..12 + len];
  }

  /** Recovery and the strict reader agree record by record. */
  lemma KeptStep(crc: Checksum, max: nat, rest: seq<Byte>)
    ensures var read, kept := ReadRecord(crc, max, rest), KeptOf(crc, max, rest);
      && (read.Eof? ==> kept == Some(0))
      && (read.Bad? ==> kept.None? || kept == Some(0))
      && (read.Got? ==> kept == Plus(read.size, KeptOf(crc, max, rest[read.size..])))
  {
    hide Decode, FromLe;
  }

  lemma ScanStep(crc: Checksum, max: nat, rest: seq<Byte>)
    ensures var read, all := ReadRecord(crc, max, rest), ScanRest(crc, max, rest);
      && (read.Eof? ==> all == Some([]))
      && (read.Bad? ==> all == None)
      && (read.Got? ==> all == Prepend([read.record], ScanRest(crc, max, rest[read.size..])))
  {
    hide ReadRecord;
  }

  lemma Rests(s: seq<Byte>, a: nat, b: nat)
    requires a + b <= |s|
    ensures s[a..][b..] == s[a + b..]
  {
  }

  /** Whatever the bytes: when recovery succeeds, a strict scan reads all of what it
      left, a second recovery changes nothing, and only an unreadable end was cut off. */
  lemma {:induction false} RecoveredScans(crc: Checksum, max: nat, rest: seq<Byte>)
    requires KeptOf(crc, max, rest).Some?
    ensures var k := KeptOf(crc, max, rest).value;
      && ScanRest(crc, max, rest[..k]).Some?
      && KeptOf(crc, max, rest[..k]) == Some(k)
      && !ReadRecord(crc, max, rest[k..]).Got?
    decreases |rest|
  {
    hide ReadRecord, ScanRest, KeptOf;
    KeptStep(crc, max, rest);
    match ReadRecord(crc, max, rest)
    case Eof => NothingLeft(crc, max, rest);
    case Bad => NothingLeft(crc, max, rest);
    case Got(_, size) =>
      RecoveredScans(crc, max, rest[size..]);
      var k := KeptOf(crc, max, rest).value;
      var j := KeptOf(crc, max, rest[size..]).value;
      ReadPrefix(crc, max, rest, k);
      KeptStep(crc, max, rest[..k]);
      ScanStep(crc, max, rest[..k]);
      assert rest[..k][size..] == rest[size..][..j];
      Rests(rest, size, j);
  }

  lemma NothingLeft(crc: Checksum, max: nat, rest: seq<Byte>)
    ensures ScanRest(crc, max, rest[..0]) == Some([]) && KeptOf(crc, max, rest[..0]) == Some(0)
    ensures rest[0..] == rest
  {
  }

  /** A strict scan succeeds exactly on the files recovery leaves as they are. */
  lemma {:induction false} ScansIffKeptWhole(crc: Checksum, max: nat, rest: seq<Byte>)
    ensures ScanRest(crc, max, rest).Some? <==> KeptOf(crc, max, rest) == Some(|rest|)
    decreases |rest|
  {
    hide ReadRecord, KeptOf, ScanRest;
    KeptStep(crc, max, rest);
    ScanStep(crc, max, rest);
    match ReadRecord(crc, max, rest)
    case Eof => ReadEnd(crc, max, rest);
    case Bad => ReadEnd(crc, max, rest);
    case Got(_, size) => ScansIffKeptWhole(crc, max, rest[size..]);
  }

  lemma ReadEnd(crc: Checksum, max: nat, rest: seq<Byte>)
    ensures ReadRecord(crc, max, rest).Eof? <==> rest == []
  {
  }

  // ---------- Files a writer produced ----------

  lemma FrameFields(crc: Checksum, payload: seq<Byte>, more: seq<Byte>)
    requires |payload| < U32
    ensures var f := Frame(crc, payload) + more;
      && FromLe(f[0..4]) == RECORD_MAGIC && FromLe(f[4..8]) == |payload| && FromLe(f[8..12]) == crc(payload)
      && f[12..12 + |payload|] == payload && f[12 + |payload|..] == more
  {
    Powers();
    FromLeInvertsLe(RECORD_MAGIC, 4);
    FromLeInvertsLe(|payload|, 4);
    FromLeInvertsLe(crc(payload), 4);
    hide Le, FromLe, Power256;
    var f := Frame(crc, payload) + more;
    assert f[0..4] == Le(RECORD_MAGIC, 4);
    assert f[4..8] == Le(|payload|, 4);
    assert f[8..12] == Le(crc(payload), 4);
  }

  /** Reading at a stored record gives that record, whatever follows it. */
  lemma ReadFrame(crc: Checksum, max: nat, r: Record, more: seq<Byte>)
    requires Storable(r, max)
    ensures ReadRecord(crc, max, FrameOf(crc, r, max) + more) == Got(Normal(r), |FrameOf(crc, r, max)|)
    ensures (FrameOf(crc, r, max) + more)[|FrameOf(crc, r, max)|..] == more
  {
    hide Encode, Decode, Le, FromLe, ReadRecord, Frame;
    var payload := Encode(r).value;
    FrameFields(crc, payload, more);
    DecodeInvertsEncode(r);
    ReadFields(crc, max, FrameOf(crc, r, max) + more, payload, Normal(r));
  }

  lemma ReadFields(crc: Checksum, max: nat, rest: seq<Byte>, payload: seq<Byte>, record: Record)
    requires |payload| <= max && RECORD_HEADER + |payload| <= |rest| && Decode(payload) == Some(record)
    requires FromLe(rest[0..4]) == RECORD_MAGIC && FromLe(rest[4..8]) == |payload|
    requires FromLe(rest[8..12]) == crc(payload) && rest[12..12 + |payload|] == payload
    ensures ReadRecord(crc, max, rest) == Got(record, RECORD_HEADER + |payload|)
  {
    hide Decode, FromLe;
  }

  /** What an interrupted append leaves of a record is cut off. */
  lemma TornFrame(crc: Checksum, max: nat, r: Record, n: nat)
    requires Storable(r, max) && n < |FrameOf(crc, r, max)|
    ensures KeptOf(crc, max, FrameOf(crc, r, max)[..n]) == Some(0)
  {
    var f := FrameOf(crc, r, max);
    var payload := Encode(r).value;
    FrameFields(crc, payload, []);
    assert f + [] == f;
    hide Encode, Decode, Le, FromLe, FrameOf;
    if n >= 12 {
      assert f[..n][0..4] == f[0..4] && f[..n][4..8] == f[4..8];
    }
  }

  /** How many records lie wholly within the first `n` bytes. */
  function WholeCount(crc: Checksum, rs: seq<Record>, max: nat, n: nat): (k: nat)
    requires AllStorable(rs, max)
    ensures k <= |rs|
  {
    if rs == [] || |FrameOf(crc, rs[0], max)| > n then 0
    else 1 + WholeCount(crc, rs[1..], max, n - |FrameOf(crc, rs[0], max)|)
  }

  /** A log cut after any number of bytes: recovery keeps exactly the whole records. */
  lemma {:induction false} CutLog(crc: Checksum, max: nat, rs: seq<Record>, n: nat)
    requires AllStorable(rs, max) && n <= |Frames(crc, rs, max)|
    ensures var k := WholeCount(crc, rs, max, n);
      && |Frames(crc, rs[..k], max)| <= n
      && KeptOf(crc, max, Frames(crc, rs, max)[..n]) == Some(|Frames(crc, rs[..k], max)|)
      && Frames(crc, rs, max)[..|Frames(crc, rs[..k], max)|] == Frames(crc, rs[..k], max)
      && (k < |rs| ==> |Frames(crc, rs[..k + 1], max)| > n)
  {
    hide FrameOf, Storable, ReadRecord, KeptOf, Decode;
    var k := WholeCount(crc, rs, max, n);
    var all := Frames(crc, rs, max);
    assert rs[..0] == [];
    if rs == [] {
      EmptyKept(crc, max, all[..n]);
    } else {
      var f, more := FrameOf(crc, rs[0], max), Frames(crc, rs[1..], max);
      assert all == f + more;
      if |f| > n {
        assert all[..n] == f[..n];
        TornFrame(crc, max, rs[0], n);
        assert rs[..1] == [rs[0]] && rs[..1][1..] == [];
      } else {
        CutLog(crc, max, rs[1..], n - |f|);
        var kept := Frames(crc, rs[1..][..k - 1], max);
        FramesTail(crc, max, rs, k);
        assert all[..n] == f + more[..n - |f|];
        ReadFrame(crc, max, rs[0], more[..n - |f|]);
        KeptStep(crc, max, all[..n]);
        assert all[..|f| + |kept|] == f + more[..|kept|];
        if k < |rs| {
          FramesTail(crc, max, rs, k + 1);
        }
      }
    }
  }

  lemma EmptyKept(crc: Checksum, max: nat, rest: seq<Byte>)
    requires |rest| == 0
    ensures KeptOf(crc, max, rest) == Some(0)
  {
  }

  lemma FramesTail(crc: Checksum, max: nat, rs: seq<Record>, k: nat)
    requires AllStorable(rs, max) && 0 < k <= |rs|
    ensures Frames(crc, rs[..k], max) == FrameOf(crc, rs[0], max) + Frames(crc, rs[1..][..k - 1], max)
  {
    hide FrameOf, Storable;
    assert rs[..k][1..] == rs[1..][..k - 1];
  }

  function Normals(rs: seq<Record>): (ns: seq<Record>)
    ensures |ns| == |rs| && forall i | 0 <= i < |rs| :: ns[i] == Normal(rs[i])
  {
    seq(|rs|, i requires 0 <= i < |rs| => Normal(rs[i]))
  }

  lemma {:induction false} ScanLog(crc: Checksum, max: nat, rs: seq<Record>)
    requires AllStorable(rs, max)
    ensures ScanRest(crc, max, Frames(crc, rs, max)) == Some(Normals(rs))
  {
    hide FrameOf, Storable, Normal, ReadRecord, ScanRest;
    ScanStep(crc, max, Frames(crc, rs, max));
    if rs == [] {
      ReadEnd(crc, max, []);
    } else {
      ReadFrame(crc, max, rs[0], Frames(crc, rs[1..], max));
      ScanLog(crc, max, rs[1..]);
      assert Normals(rs) == [Normal(rs[0])] + Normals(rs[1..]);
    }
  }

  lemma HeaderReads(created: Word64, more: seq<Byte>)
    ensures HeaderOk(Header(created) + more) && (Header(created) + more)[HEADER_SIZE..] == more
  {
    Powers();
    FromLeInvertsLe(1, 4);
    hide Le, FromLe, Power256;
    var file := Header(created) + more;
    assert file[..8] == MAGIC;
    assert file[8..12] == Le(1, 4);
  }

  /** The whole-file statement: a file of stored records cut at any byte is removed if
      its header is cut, and otherwise recovered to the header and the longest prefix
      of whole records, which a strict scan then reads back and a second recovery keeps. */
  lemma {:induction false} TornTailRecovery(crc: Checksum, max: nat, created: Word64, rs: seq<Record>, n: nat)
    requires AllStorable(rs, max) && n <= |Image(crc, created, rs, max)|
    ensures var cut := Image(crc, created, rs, max)[..n];
      if n < HEADER_SIZE then Recover(crc, max, cut) == Removed
      else
        var k := WholeCount(crc, rs, max, n - HEADER_SIZE);
        var kept := Image(crc, created, rs[..k], max);
        && Recover(crc, max, cut) == Kept(kept)
        && |kept| <= n && (k < |rs| ==> |Image(crc, created, rs[..k + 1], max)| > n)
        && Scan(crc, max, kept) == Some(Normals(rs[..k]))
        && Recover(crc, max, kept) == Kept(kept)
  {
    hide Storable, KeptOf, Header, HeaderOk, Frames, WholeCount, ScanRest;
    var image := Image(crc, created, rs, max);
    if n >= HEADER_SIZE {
      var m := n - HEADER_SIZE;
      var log := Frames(crc, rs, max);
      var k := WholeCount(crc, rs, max, m);
      CutLog(crc, max, rs, m);
      ScanLog(crc, max, rs[..k]);
      assert image[..n] == Header(created) + log[..m];
      HeaderReads(created, log[..m]);
      var keptLog := Frames(crc, rs[..k], max);
      HeaderReads(created, keptLog);
      ScansIffKeptWhole(crc, max, keptLog);
      var kept := Image(crc, created, rs[..k], max);
      assert kept[..HEADER_SIZE + |keptLog|] == kept;
      assert image[..n][..HEADER_SIZE + |keptLog|] == Header(created) + log[..|keptLog|];
    }
  }

  // ---------- What a crash leaves of published records ----------

  lemma {:induction false} FramesConcat(crc: Checksum, max: nat, a: seq<Record>, b: seq<Record>)
    requires AllStorable(a, max) && AllStorable(b, max)
    ensures AllStorable(a + b, max)
    ensures Frames(crc, a + b, max) == Frames(crc, a, max) + Frames(crc, b, max)
  {
    hide FrameOf, Storable;
    if a == [] {
      assert a + b == b;
    } else {
      assert (a + b)[1..] == a[1..] + b;
      FramesConcat(crc, max, a[1..], b);
    }
  }

  /** The offset the writer publishes for record `i`. */
  function OffsetOf(crc: Checksum, max: nat, rs: seq<Record>, i: nat): nat
    requires AllStorable(rs, max) && i <= |rs|
  {
    HEADER_SIZE + |Frames(crc, rs[..i], max)|
  }

  function ReadAt(crc: Checksum, max: nat, file: seq<Byte>, offset: nat): Option<Record> {
    if offset > |file| then None
    else
      match ReadRecord(crc, max, file[offset..])
      case Got(record, _) => Some(record)
      case _ => None
  }

  /** Every record can be read back at the offset published for it. */
  lemma PublishedReads(crc: Checksum, max: nat, created: Word64, rs: seq<Record>, i: nat)
    requires AllStorable(rs, max) && i < |rs|
    ensures ReadAt(crc, max, Image(crc, created, rs, max), OffsetOf(crc, max, rs, i)) == Some(Normal(rs[i]))
  {
    hide Storable, Header, ReadRecord, FrameOf;
    assert rs == rs[..i] + rs[i..];
    FramesConcat(crc, max, rs[..i], rs[i..]);
    ReadFrame(crc, max, rs[i], Frames(crc, rs[i + 1..], max));
    assert rs[i..][1..] == rs[i + 1..];
    var head, rest := Frames(crc, rs[..i], max), Frames(crc, rs[i..], max);
    assert Image(crc, created, rs, max)[HEADER_SIZE + |head|..] == rest;
  }

  /** A record flushed before the crash keeps its offset and stays readable, however
      much of what came after it was lost. */
  lemma FlushedSurvive(crc: Checksum, max: nat, created: Word64, rs: seq<Record>, n: nat, i: nat)
    requires AllStorable(rs, max) && n <= |Image(crc, created, rs, max)| && i < |rs|
    requires OffsetOf(crc, max, rs, i + 1) <= n
    ensures var r := Recover(crc, max, Image(crc, created, rs, max)[..n]);
      r.Kept? && ReadAt(crc, max, r.file, OffsetOf(crc, max, rs, i)) == Some(Normal(rs[i]))
  {
    hide Storable, Header, Recover, Scan, ReadAt, Frames;
    TornTailRecovery(crc, max, created, rs, n);
    var k := WholeCount(crc, rs, max, n - HEADER_SIZE);
    if k <= i {
      FramesMonotone(crc, max, rs, k + 1, i + 1);
    }
    PublishedReads(crc, max, created, rs[..k], i);
    assert rs[..k][..i] == rs[..i];
  }

  lemma FramesMonotone(crc: Checksum, max: nat, rs: seq<Record>, i: nat, j: nat)
    requires AllStorable(rs, max) && i <= j <= |rs|
    ensures |Frames(crc, rs[..i], max)| <= |Frames(crc, rs[..j], max)|
  {
    hide Storable, Frames;
    assert rs[..j] == rs[..i] + rs[i..j];
    FramesConcat(crc, max, rs[..i], rs[i..j]);
  }

  lemma PrependMore(found: seq<Record>, record: Record, more: Option<seq<Record>>)
    ensures Prepend(found, Prepend([record], more)) == Prepend(found + [record], more)
  {
    if more.Some? {
      assert found + ([record] + more.value) == found + [record] + more.value;
    }
  }

  lemma PrependNone(more: Option<seq<Record>>)
    ensures Prepend([], more) == more
  {
    if more.Some? {
      assert [] + more.value == more.value;
    }
  }

  /** One step of recovery, in terms of positions in the file. */
  lemma KeptAt(crc: Checksum, max: nat, file: seq<Byte>, offset: nat)
    requires offset <= |file|
    ensures |file| - offset < RECORD_HEADER ==> KeptOf(crc, max, file[offset..]) == Some(0)
    ensures |file| - offset >= RECORD_HEADER ==>
      var hdr := file[offset..offset + RECORD_HEADER];
      var end := offset + RECORD_HEADER + FromLe(hdr[4..8]);
      && FromLe(file[offset..][4..8]) == FromLe(hdr[4..8])
      && KeptOf(crc, max, file[offset..]) ==
        if FromLe(hdr[0..4]) != RECORD_MAGIC || FromLe(hdr[4..8]) > max then None
        else if end > |file| then Some(0)
        else if crc(file[offset + RECORD_HEADER..end]) != FromLe(hdr[8..12]) then None
        else if Decode(file[offset + RECORD_HEADER..end]).None? then None
        else Plus(end - offset, KeptOf(crc, max, file[end..]))
  {
    hide FromLe, Decode;
    if |file| - offset >= RECORD_HEADER {
      var len := FromLe(file[offset..][4..8]);
      HeaderSlices(file, offset);
      if offset + 12 + len <= |file| {
        PayloadSlices(file, offset, len);
      }
    }
  }

  lemma HeaderSlices(file: seq<Byte>, offset: nat)
    requires offset + 12 <= |file|
    ensures var rest, hdr := file[offset..], file[offset..offset + 12];
      hdr[0..4] == rest[0..4] && hdr[4..8] == rest[4..8] && hdr[8..12] == rest[8..12]
  {
    assert file[offset..] == file[offset..|file|];
    SliceOfSlice(file, offset, offset + 12, 0, 4);
    SliceOfSlice(file, offset, offset + 12, 4, 8);
    SliceOfSlice(file, offset, offset + 12, 8, 12);
    SliceOfSlice(file, offset, |file|, 0, 4);
    SliceOfSlice(file, offset, |file|, 4, 8);
    SliceOfSlice(file, offset, |file|, 8, 12);
  }

  lemma PayloadSlices(file: seq<Byte>, offset: nat, len: nat)
    requires offset + 12 + len <= |file|
    ensures file[offset..][12..12 + len] == file[offset + 12..offset + 12 + len]
    ensures file[offset..][12 + len..] == file[offset + 12 + len..]
  {
    assert file[offset..] == file[offset..|file|];
    SliceOfSlice(file, offset, |file|, 12, 12 + len);
    Rests(file, offset, 12 + len);
  }

  /** The file as recovery walks and truncates it. */
  class File {
    var bytes: seq<Byte>
    var present: bool

    constructor (bytes: seq<Byte>)
      ensures this.bytes == bytes && present
    {
      this.bytes := bytes;
      present := true;
    }

    /** Recovers the physical tail; false where the file is corrupt and left alone. */
    method RecoverTail(crc: Checksum, max: nat) returns (ok: bool)
      requires present
      modifies this
      ensures match Recover(crc, max, old(bytes))
        case Removed => ok && !present
        case Kept(file) => ok && present && bytes == file
        case Refused => !ok && present && bytes == old(bytes)
    {
      hide Decode, FromLe, KeptOf;
      if |bytes| < HEADER_SIZE {
        present := false;
        return true;
      }
      if !HeaderOk(bytes) {
        return false;
      }
      var offset := HEADER_SIZE;
      while true
        invariant present && bytes == old(bytes) && HEADER_SIZE <= offset <= |bytes|
        invariant KeptOf(crc, max, bytes[HEADER_SIZE..])
          == Plus(offset - HEADER_SIZE, KeptOf(crc, max, bytes[offset..]))
        decreases |bytes| - offset
      {
        KeptAt(crc, max, bytes, offset);
        if offset == |bytes| {
          assert bytes[..offset] == bytes;
          return true;
        }
        if |bytes| - offset < RECORD_HEADER {
          bytes := bytes[..offset];
          return true;
        }
        var hdr := bytes[offset..offset + RECORD_HEADER];
        if FromLe(hdr[0..4]) != RECORD_MAGIC {
          return false;
        }
        var len := FromLe(hdr[4..8]);
        if len > max {
          return false;
        }
        var recordEnd := offset + RECORD_HEADER + len;
        if recordEnd > |bytes| {
          bytes := bytes[..offset];
          return true;
        }
        var payload := bytes[offset + RECORD_HEADER..recordEnd];
        if crc(payload) != FromLe(hdr[8..12]) {
          return false;
        }
        if Decode(payload).None? {
          return false;
        }
        offset := recordEnd;
      }
    }

    /** A strict scan of the whole file. */
    method ScanAll(crc: Checksum, max: nat) returns (records: Option<seq<Record>>)
      ensures records == Scan(crc, max, bytes)
    {
      hide ReadRecord, ScanRest, FromLe;
      if !HeaderOk(bytes) {
        return None;
      }
      var pos, found := HEADER_SIZE, [];
      PrependNone(ScanRest(crc, max, bytes[pos..]));
      while true
        invariant HEADER_SIZE <= pos <= |bytes|
        invariant ScanRest(crc, max, bytes[HEADER_SIZE..])
          == Prepend(found, ScanRest(crc, max, bytes[pos..]))
        decreases |bytes| - pos
      {
        ScanStep(crc, max, bytes[pos..]);
        match ReadRecord(crc, max, bytes[pos..])
        case Eof =>
          assert found + [] == found;
          return Some(found);
        case Bad => return None;
        case Got(record, size) =>
          Rests(bytes, pos, size);
          PrependMore(found, record, ScanRest(crc, max, bytes[pos + size..]));
          found := found + [record];
          pos := pos + size;
      }
    }
  }
}
