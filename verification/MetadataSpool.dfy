/** The spool directory: one file per committed batch, an exact byte count and a quota. */
module MetadataSpool {
  import opened Basics
  import opened Durability

  /** The size of a serialised batch, whatever the encoding. */
  type Size = seq<Event> -> nat

  ghost function Total(files: Spool, size: Size): nat
    decreases |files.Keys|
  {
    if files == map[] then 0
    else
      var k :| k in files;
      Fewer(files, k);
      size(files[k]) + Total(files - {k}, size)
  }

  lemma Fewer(files: Spool, k: nat)
    requires k in files
    ensures |(files - {k}).Keys| == |files.Keys| - 1
  {
    assert (files - {k}).Keys == files.Keys - {k};
  }

  lemma {:induction false} TotalWithout(files: Spool, size: Size, k: nat)
    requires k in files
    ensures Total(files, size) == size(files[k]) + Total(files - {k}, size)
    decreases |files.Keys|
  {
    var first :| first in files && Total(files, size) == size(files[first]) + Total(files - {first}, size);
    Fewer(files, first);
    Fewer(files, k);
    if first != k {
      TotalWithout(files - {first}, size, k);
      TotalWithout(files - {k}, size, first);
      assert files - {first} - {k} == files - {k} - {first};
    }
  }

  /** Where an operation of the file system fails: before the directory has changed, or
      when the change is to be made durable. */
  datatype Fault = NoFault | BeforeChange | AtSync

  class MetadataSpool {
    var files: Spool
    var bytes: nat
    const maxBytes: nat
    const size: Size
    /** Whether a sync of the directory has failed since the spool was opened. */
    ghost var unsynced: bool

    /** Unless a sync failed the counter is exact and the quota is not exceeded. */
    ghost predicate Valid()
      reads this
    {
      !unsynced ==> bytes == Total(files, size) && bytes <= maxBytes
    }

    constructor (size: Size, maxBytes: nat)
      ensures Valid() && files == map[] && !unsynced
      ensures this.size == size && this.maxBytes == maxBytes
    {
      this.size := size;
      this.maxBytes := maxBytes;
      files := map[];
      bytes := 0;
      unsynced := false;
    }

    /** Counts what a previous run left; refused without a quota or when it is exceeded. */
    method Open(found: Spool) returns (ok: bool)
      modifies this`files, this`bytes, this`unsynced
      ensures ok <==> maxBytes > 0 && Total(found, size) <= maxBytes
      ensures ok ==> Valid() && files == found && !unsynced
    {
      if maxBytes == 0 {
        return false;
      }
      var rest, sum := found, 0;
      while rest != map[]
        invariant forall k | k in rest :: k in found && rest[k] == found[k]
        invariant sum + Total(rest, size) == Total(found, size)
        decreases |rest.Keys|
      {
        var k :| k in rest;
        TotalWithout(rest, size, k);
        Fewer(rest, k);
        sum := sum + size(rest[k]);
        rest := rest - {k};
      }
      ok := sum <= maxBytes;
      if ok {
        files, bytes, unsynced := found, sum, false;
      }
    }

    /** Publishes a batch in one step, or leaves the directory as it was. A sync that fails
        after the rename leaves the batch published but not counted. */
    method Append(sequence: nat, events: seq<Event>, fault: Fault) returns (ok: bool)
      requires Valid() && sequence !in files
      modifies this`files, this`bytes, this`unsynced
      ensures Valid()
      ensures ok <==> events == [] || (old(bytes) + size(events) <= maxBytes && fault.NoFault?)
      ensures var published := events != [] && old(bytes) + size(events) <= maxBytes && !fault.BeforeChange?;
        && files == (if published then old(files)[sequence := events] else old(files))
        && unsynced == (old(unsynced) || (published && !ok))
      ensures bytes == old(bytes) + if ok && events != [] then size(events) else 0
    {
      if events == [] {
        return true;
      }
      if bytes + size(events) > maxBytes || fault.BeforeChange? {
        return false;
      }
      TotalWithout(files[sequence := events], size, sequence);
      assert files[sequence := events] - {sequence} == files;
      files := files[sequence := events];
      if fault.AtSync? {
        unsynced := true;
        return false;
      }
      bytes := bytes + size(events);
      ok := true;
    }

    /** Removes one batch. A sync that fails after the removal leaves its bytes counted. */
    method Remove(sequence: nat, fault: Fault) returns (ok: bool)
      requires Valid()
      modifies this`files, this`bytes, this`unsynced
      ensures Valid()
      ensures ok <==> sequence in old(files) && fault.NoFault?
      ensures files == if fault.BeforeChange? then old(files) else old(files) - {sequence}
      ensures unsynced == (old(unsynced) || (sequence in old(files) && fault.AtSync?))
      ensures bytes == if ok then Max(old(bytes) - size(old(files)[sequence]), 0) else old(bytes)
      ensures ok && !unsynced ==> bytes + size(old(files)[sequence]) == old(bytes)
    {
      if sequence !in files {
        assert files - {sequence} == files;
        return false;
      }
      if fault.BeforeChange? {
        return false;
      }
      TotalWithout(files, size, sequence);
      var len := size(files[sequence]);
      files := files - {sequence};
      if fault.AtSync? {
        unsynced := true;
        return false;
      }
      bytes := Max(bytes - len, 0);
      ok := true;
    }

    method FirstSequence() returns (first: Option<nat>)
      ensures first.None? <==> files == map[]
      ensures first.Some? ==> IsFirst(files, first.value)
    {
      if files == map[] {
        return None;
      }
      var best :| best in files;
      var rest := files.Keys - {best};
      while rest != {}
        invariant best in files && rest <= files.Keys
        invariant forall k | k in files && k !in rest :: best <= k
        decreases |rest|
      {
        var k :| k in rest;
        if k < best {
          best := k;
        }
        rest := rest - {k};
      }
      first := Some(best);
    }

    /** Zero when the spool is empty. */
    method MaxSequence() returns (last: nat)
      ensures files == map[] ==> last == 0
      ensures files != map[] ==> IsLast(files, last)
    {
      if files == map[] {
        return 0;
      }
      last :| last in files;
      var rest := files.Keys - {last};
      while rest != {}
        invariant last in files && rest <= files.Keys
        invariant forall k | k in files && k !in rest :: k <= last
        decreases |rest|
      {
        var k :| k in rest;
        if k > last {
          last := k;
        }
        rest := rest - {k};
      }
    }
  }
}
