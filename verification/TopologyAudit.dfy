/** The topology audit log and its rotation (src-tauri/src/topology_audit.rs), byte
    by byte and with every way a step can fail. */
module TopologyAudit {
  import opened Common

  type Byte = x: int | 0 <= x < 256

  const Newline: Byte := 10

  /** What goes wrong during one append. `written` is the number of bytes that reach
      the log when writing fails. */
  datatype Faults = Faults(
    createDir: bool,
    stat: bool,
    remove: bool,
    rename: bool,
    open: bool,
    serialize: bool,
    written: Option<nat>)

  predicate NoFaults(f: Faults) {
    f == Faults(false, false, false, false, false, false, None)
  }

  function Joined(chunks: seq<seq<Byte>>): seq<Byte> {
    if chunks == [] then [] else Joined(chunks[..|chunks| - 1]) + chunks[|chunks| - 1]
  }

  lemma {:induction false} JoinedOfConcat(left: seq<seq<Byte>>, right: seq<seq<Byte>>)
    ensures Joined(left + right) == Joined(left) + Joined(right)
  {
    if right == [] {
      assert left + right == left;
    } else {
      var n := |right| - 1;
      assert (left + right)[..|left + right| - 1] == left + right[..n];
      JoinedOfConcat(left, right[..n]);
    }
  }

  lemma EmptyJoins()
    ensures Joined([]) == []
  {}

  lemma SingleJoins(chunk: seq<Byte>)
    ensures Joined([chunk]) == chunk
  {
    assert [chunk][..0] == [];
  }

  function LastSize(chunks: seq<seq<Byte>>): nat {
    if chunks == [] then 0 else |chunks[|chunks| - 1]|
  }

  function Bytes(file: Option<seq<Byte>>): seq<Byte> {
    if file.Some? then file.value else []
  }

  class AuditLog {
    const limit: nat
    var current: Option<seq<Byte>>
    var archive: Option<seq<Byte>>
    /** What each append has written, oldest first: a whole line, or a part of one
        when writing failed. The archive holds the chunks from `kept` up to `cut`,
        the log those from `cut` on. */
    ghost var chunks: seq<seq<Byte>>
    ghost var kept: nat
    ghost var cut: nat
    /** An existing log could not be measured, so a rotation may have been skipped. */
    ghost var unmeasured: bool

    /** The archive followed by the log is a contiguous suffix of the whole history,
        ending in its newest chunk; the archive is never short, and each of the two
        exceeds the limit by less than its last chunk. */
    ghost predicate Valid()
      reads this
    {
      && kept <= cut <= |chunks|
      && Bytes(archive) == Joined(chunks[kept..cut])
      && Bytes(current) == Joined(chunks[cut..])
      && (archive.None? ==> kept == cut)
      && (current.None? ==> cut == |chunks|)
      && (archive.Some? ==> |archive.value| >= limit)
      && (!unmeasured ==> |Bytes(archive)| < Threshold() + LastSize(chunks[kept..cut]))
      && (!unmeasured ==> |Bytes(current)| < Threshold() + LastSize(chunks[cut..]))
    }

    function Threshold(): (r: nat)
      ensures r > 0
    {
      if limit == 0 then 1 else limit
    }

    constructor (limit: nat)
      ensures Valid() && this.limit == limit
      ensures current.None? && archive.None? && chunks == [] && !unmeasured
    {
      this.limit := limit;
      current, archive, chunks, kept, cut, unmeasured := None, None, [], 0, 0, false;
    }

    /** Some(measured) iff the log exists and can be measured. */
    predicate RotationIsDue(f: Faults)
      reads this
    {
      current.Some? && !f.stat && |current.value| >= limit
    }

    method RemoveArchive()
      requires Valid()
      modifies this`archive, this`kept
      ensures Valid() && archive.None?
    {
      assert chunks[cut..cut] == [];
      archive, kept := None, cut;
    }

    method RenameToArchive()
      requires Valid() && archive.None? && current.Some? && |current.value| >= limit
      modifies this`archive, this`current, this`kept, this`cut
      ensures Valid() && current.None? && archive == old(current)
    {
      assert chunks[|chunks|..] == [] && chunks[cut..|chunks|] == chunks[cut..];
      hide Joined;
      EmptyJoins();
      archive, current := current, None;
      kept, cut := cut, |chunks|;
    }

    /** The archive is lost only when it was removed and the rename then failed. */
    method RotateIfNeeded(f: Faults) returns (ok: bool)
      requires Valid()
      modifies this`archive, this`current, this`kept, this`cut, this`unmeasured
      ensures Valid()
      ensures unmeasured == (old(unmeasured) || (f.stat && old(current).Some?))
      ensures ok <==> !old(RotationIsDue(f)) || !(f.rename || (f.remove && old(archive).Some?))
      ensures ok && !unmeasured ==> cut == |chunks| || |Bytes(current)| < limit
      ensures !old(RotationIsDue(f)) ==> current == old(current) && archive == old(archive)
      ensures old(RotationIsDue(f)) ==>
        if ok then current.None? && archive == old(current)
        else current == old(current) && archive == if f.remove then old(archive) else None
    {
      unmeasured := unmeasured || (f.stat && current.Some?);
      if current.None? || f.stat {
        return true;
      }
      if |current.value| < limit {
        return true;
      }
      if archive.Some? {
        if f.remove {
          return false;
        }
        RemoveArchive();
      }
      if f.rename {
        return false;
      }
      RenameToArchive();
      ok := true;
    }

    method Append(line: seq<Byte>, f: Faults) returns (ok: bool)
      requires Valid()
      modifies this
      ensures Valid()
      ensures NoFaults(f) ==> ok
      ensures ok <==>
        && !f.createDir && !f.open && !f.serialize && (f.written.Some? ==> f.written.value > |line|)
        && (old(RotationIsDue(f)) ==> !f.rename && !(f.remove && old(archive).Some?))
      ensures ok ==>
        current == Some((if old(RotationIsDue(f)) then [] else Bytes(old(current))) + (line + [Newline]))
      ensures ok ==> chunks == old(chunks) + [line + [Newline]]
      ensures !ok ==> chunks == old(chunks) || exists part :: part < line + [Newline] && chunks == old(chunks) + [part]
      ensures unmeasured ==> old(unmeasured) || f.stat
      ensures ok ==> archive == if old(RotationIsDue(f)) then old(current) else old(archive)
      ensures old(archive).Some? && archive.None? ==> old(RotationIsDue(f)) && !f.remove && f.rename
    {
      hide Joined;
      if f.createDir {
        return false;
      }
      var rotated := RotateIfNeeded(f);
      if !rotated {
        return false;
      }
      if f.open {
        return false;
      }
      if current.None? {
        current := Some([]);
      }
      if f.serialize {
        return false;
      }
      var text := line + [Newline];
      var part := if f.written.Some? && f.written.value < |text| then text[..f.written.value] else text;
      AppendChunk(part);
      ok := part == text;
    }

    method AppendChunk(part: seq<Byte>)
      requires Valid() && current.Some?
      requires unmeasured || cut == |chunks| || |current.value| < limit
      modifies this`current, this`chunks
      ensures Valid() && chunks == old(chunks) + [part] && current == Some(Bytes(old(current)) + part)
    {
      JoinedOfConcat(chunks[cut..], [part]);
      SingleJoins(part);
      assert (chunks + [part])[cut..] == chunks[cut..] + [part];
      assert (chunks + [part])[kept..cut] == chunks[kept..cut];
      current := Some(current.value + part);
      chunks := chunks + [part];
    }
  }
}
