/** The active segment: a buffered append-only file, its size and the disk budget. */
module SegmentWriter {
  import opened Basics
  import opened RecordCodec
  import opened SegmentFile

  lemma SpillSplit(file: seq<Byte>, buffer: seq<Byte>, f: seq<Byte>, n: nat)
    requires n <= |buffer + f|
    ensures (file + (buffer + f)[..n]) + (buffer + f)[n..] == (file + buffer) + f
  {
  }

  /** Storing one more record appends its frame, and that is where it is published. */
  lemma AppendImage(crc: Checksum, max: nat, created: Word64, rs: seq<Record>, r: Record, payload: seq<Byte>)
    requires AllStorable(rs, max) && Storable(r, max) && Encode(r) == Some(payload)
    ensures |payload| < U32 && AllStorable(rs + [r], max)
    ensures Image(crc, created, rs + [r], max) == Image(crc, created, rs, max) + Frame(crc, payload)
    ensures OffsetOf(crc, max, rs + [r], |rs|) == |Image(crc, created, rs, max)|
  {
    hide Encode, Header, FrameOf, Frame, Frames, AllStorable;
    OneFrame(crc, max, r);
    FramesConcat(crc, max, rs, [r]);
    Without(rs, r);
    Assoc(Header(created), Frames(crc, rs, max), Frame(crc, payload));
  }

  lemma Without(rs: seq<Record>, r: Record)
    ensures (rs + [r])[..|rs|] == rs
  {
  }

  lemma Assoc(a: seq<Byte>, b: seq<Byte>, c: seq<Byte>)
    ensures a + (b + c) == (a + b) + c
  {
  }

  lemma OneFrame(crc: Checksum, max: nat, r: Record)
    requires Storable(r, max)
    ensures AllStorable([r], max)
    ensures Frames(crc, [r], max) == Frame(crc, Encode(r).value)
  {
    hide Frame, Encode;
    assert [r][1..] == [];
    assert FrameOf(crc, r, max) + [] == FrameOf(crc, r, max);
  }

  /** How the commit before a rotation goes: flushing the segment and publishing its rows,
      then the durable barrier. */
  datatype Commit = Committed | FlushFails | BarrierFails

  datatype Outcome = Failed | Stored(offset: nat, closed: Option<seq<Byte>>)

  /** `file` is what has reached the operating system, `buffer` what has not. */
  class ActiveWriter {
    const crc: Checksum
    const maxBytes: nat
    const maxRecordBytes: nat
    const storeMaxBytes: nat
    var file: seq<Byte>
    var buffer: seq<Byte>
    var bytes: nat
    var retainedBytes: nat
    ghost var created: Word64
    ghost var records: seq<Record>

    /** File and buffer together are exactly the image of the records stored so far;
        a segment outgrows its limit only with a single record. */
    ghost predicate Valid()
      reads this
    {
      && AllStorable(records, maxRecordBytes)
      && file + buffer == Image(crc, created, records, maxRecordBytes)
      && bytes == |file| + |buffer|
      && bytes <= retainedBytes
      && (|records| >= 2 ==> bytes <= maxBytes)
      && (records == [] <==> bytes == HEADER_SIZE)
    }

    constructor (crc: Checksum, maxBytes: nat, maxRecordBytes: nat, storeMaxBytes: nat, retainedBytes: nat, now: Word64)
      ensures Valid() && records == [] && created == now && file == []
      ensures this.retainedBytes == retainedBytes + HEADER_SIZE
      ensures this.crc == crc && this.maxBytes == maxBytes && this.maxRecordBytes == maxRecordBytes
      ensures this.storeMaxBytes == storeMaxBytes
    {
      this.crc := crc;
      this.maxBytes := maxBytes;
      this.maxRecordBytes := maxRecordBytes;
      this.storeMaxBytes := storeMaxBytes;
      this.file := [];
      this.buffer := Header(now);
      this.bytes := HEADER_SIZE;
      this.retainedBytes := retainedBytes + HEADER_SIZE;
      this.created := now;
      this.records := [];
      new;
      assert file + buffer == Header(now) + [];
    }

    /** The encoded record, unless it is too long or the disk budget is used up. */
    method PrepareRecord(r: Record) returns (payload: Option<seq<Byte>>)
      ensures payload.Some? <==> Storable(r, maxRecordBytes) && retainedBytes + 12 + |Encode(r).value| <= storeMaxBytes
      ensures payload.Some? ==> payload == Encode(r)
    {
      hide Encode;
      payload := Encode(r);
      if payload.None? || |payload.value| >= U32 || |payload.value| > maxRecordBytes {
        return None;
      }
      if retainedBytes + 12 + |payload.value| > storeMaxBytes {
        return None;
      }
    }

    predicate NeedsRotation(encodedLen: nat)
      reads this
    {
      bytes > HEADER_SIZE && bytes + encodedLen > maxBytes
    }

    /** Appends one prepared record; `spill` bytes of the buffer overflow to the file. */
    method WritePrepared(r: Record, payload: seq<Byte>, spill: nat) returns (offset: Option<nat>)
      requires Valid() && Storable(r, maxRecordBytes) && Encode(r) == Some(payload)
      requires !NeedsRotation(12 + |payload|)
      modifies this
      ensures Valid() && created == old(created)
      ensures offset.None? <==> old(retainedBytes) + 12 + |payload| > storeMaxBytes
      ensures offset.None? ==> records == old(records) && retainedBytes == old(retainedBytes)
      ensures offset.Some? ==> AllStorable(old(records) + [r], maxRecordBytes)
      ensures offset.Some? ==> records == old(records) + [r]
      ensures offset.Some? ==> offset.value == OffsetOf(crc, maxRecordBytes, records, |records| - 1)
      ensures offset.Some? ==> retainedBytes == old(retainedBytes) + 12 + |payload|
      ensures old(file) <= file
    {
      hide Encode, Image, AllStorable, OffsetOf, Frame;
      if retainedBytes + 12 + |payload| > storeMaxBytes {
        return None;
      }
      AppendImage(crc, maxRecordBytes, created, records, r, payload);
      offset := Some(|file| + |buffer|);
      var grown := buffer + Frame(crc, payload);
      var n := Min(spill, |grown|);
      SpillSplit(file, buffer, Frame(crc, payload), n);
      file := file + grown[..n];
      buffer := grown[n..];
      bytes := bytes + 12 + |payload|;
      retainedBytes := retainedBytes + 12 + |payload|;
      records := records + [r];
    }

    /** After a flush every stored record is in the file. */
    method Flush()
      requires Valid()
      modifies this`file, this`buffer
      ensures Valid() && buffer == []
      ensures file == Image(crc, created, records, maxRecordBytes)
    {
      hide Header, Frames;
      file := file + buffer;
      buffer := [];
      assert file + [] == file;
    }

    /** Starts the next segment; the closed one is complete in its file. */
    method Rotate(now: Word64) returns (closed: Option<seq<Byte>>)
      requires Valid() && buffer == []
      modifies this
      ensures Valid()
      ensures closed.None? <==> old(retainedBytes) + HEADER_SIZE > storeMaxBytes
      ensures closed.None? ==> records == old(records) && file == old(file) && buffer == [] && retainedBytes == old(retainedBytes)
      ensures closed.Some? ==> closed.value == Image(crc, old(created), old(records), maxRecordBytes)
      ensures closed.Some? ==> records == [] && created == now && file == []
      ensures closed.Some? ==> retainedBytes == old(retainedBytes) + HEADER_SIZE
    {
      hide Header, Frames;
      if retainedBytes + HEADER_SIZE > storeMaxBytes {
        return None;
      }
      assert file + [] == file;
      closed := Some(file);
      file := [];
      buffer := Header(now);
      bytes := HEADER_SIZE;
      retainedBytes := retainedBytes + HEADER_SIZE;
      created := now;
      records := [];
      NoFrames();
    }

    lemma NoFrames()
      ensures Frames(crc, [], maxRecordBytes) == []
    {
    }

    /** One record through the writer loop. It fails exactly when the record is not
        storable, or the budget cannot take it together with the header of a segment it
        would need, or the commit before a rotation fails; then no segment was closed and
        no record stored. A segment is closed complete. */
    method Append(r: Record, now: Word64, spill: nat, commit: Commit) returns (out: Outcome)
      requires Valid()
      modifies this
      ensures Valid()
      ensures out.Failed? <==>
        !(Storable(r, maxRecordBytes)
          && if old(NeedsRotation(12 + |Encode(r).value|))
             then commit.Committed? && old(retainedBytes) + 12 + |Encode(r).value| + HEADER_SIZE <= storeMaxBytes
             else old(retainedBytes) + 12 + |Encode(r).value| <= storeMaxBytes)
      ensures out.Failed? ==> records == old(records) && retainedBytes == old(retainedBytes)
      ensures out.Stored? ==>
        && retainedBytes <= storeMaxBytes
        && records == (if out.closed.Some? then [r] else old(records) + [r])
        && out.offset == OffsetOf(crc, maxRecordBytes, records, |records| - 1)
        && (out.closed.Some? ==> out.closed.value == Image(crc, old(created), old(records), maxRecordBytes))
        && (out.closed.None? ==> created == old(created))
    {
      hide Encode, OffsetOf, Image;
      var payload := PrepareRecord(r);
      if payload.None? {
        return Failed;
      }
      var encodedLen := 12 + |payload.value|;
      var closed: Option<seq<Byte>> := None;
      if NeedsRotation(encodedLen) {
        if retainedBytes + HEADER_SIZE + encodedLen > storeMaxBytes {
          return Failed;
        }
        if commit.FlushFails? {
          return Failed;
        }
        Flush();
        if commit.BarrierFails? {
          return Failed;
        }
        closed := Rotate(now);
      }
      var offset := WritePrepared(r, payload.value, spill);
      out := Stored(offset.value, closed);
    }
  }
}
