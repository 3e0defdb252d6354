/** The output of write_buffer in dump.c: the "flattened" vmcore format is a stream of records, each
    with the offset its bytes belong at.  Rearranging the stream gives the file; where records overlap
    the last one counts. */
module FlatFile {
  import opened Options

  type byte = bv8

  datatype Record = Record(offset: nat, data: seq<byte>)

  predicate Within(r: Record, a: nat) {
    r.offset <= a < r.offset + |r.data|
  }

  /** The byte at an offset of the rearranged file, if it has been written. */
  function At(records: seq<Record>, a: nat): Option<byte> {
    if records == [] then None
    else
      var r := records[|records| - 1];
      if Within(r, a) then Some(r.data[a - r.offset]) else At(records[..|records| - 1], a)
  }

  lemma {:induction false} AtAppend(records: seq<Record>, r: Record, a: nat)
    ensures At(records + [r], a) == if Within(r, a) then Some(r.data[a - r.offset]) else At(records, a)
  {
    assert (records + [r])[..|records|] == records;
  }

  predicate Holds(records: seq<Record>, off: nat, bytes: seq<byte>) {
    forall i :: 0 <= i < |bytes| ==> At(records, off + i) == Some(bytes[i])
  }

  lemma {:induction false} HoldsMore(records: seq<Record>, off: nat, bytes: seq<byte>, more: seq<byte>)
    requires Holds(records, off, bytes)
    ensures Holds(records + [Record(off + |bytes|, more)], off, bytes + more)
  {
    forall i | 0 <= i < |bytes + more|
      ensures At(records + [Record(off + |bytes|, more)], off + i) == Some((bytes + more)[i])
    {
      AtAppend(records, Record(off + |bytes|, more), off + i);
    }
  }

  lemma {:induction false} HoldsPart(records: seq<Record>, off: nat, bytes: seq<byte>, lo: nat, hi: nat)
    requires Holds(records, off, bytes) && lo <= hi <= |bytes|
    ensures Holds(records, off + lo, bytes[lo..hi])
  {
    forall i | 0 <= i < hi - lo
      ensures At(records, off + lo + i) == Some(bytes[lo..hi][i])
    {
      assert At(records, off + (lo + i)) == Some(bytes[lo + i]);
    }
  }

  /** New records stay inside a part of the file. */
  predicate Inside(old_: seq<Record>, records: seq<Record>, lo: nat, hi: nat) {
    old_ <= records &&
    forall k :: |old_| <= k < |records| ==> lo <= records[k].offset && records[k].offset + |records[k].data| <= hi
  }

  lemma {:induction false} InsideJoins(first: seq<Record>, second: seq<Record>, third: seq<Record>, lo: nat, hi: nat)
    requires Inside(first, second, lo, hi) && Inside(second, third, lo, hi)
    ensures Inside(first, third, lo, hi)
  {
    assert forall k :: 0 <= k < |second| ==> third[k] == second[k];
  }

  /** Elsewhere the file is as before. */
  lemma {:induction false} AtOutside(first: seq<Record>, second: seq<Record>, lo: nat, hi: nat, a: nat)
    requires Inside(first, second, lo, hi) && !(lo <= a < hi)
    ensures At(second, a) == At(first, a)
    decreases |second|
  {
    if |first| < |second| {
      AtOutside(first, second[..|second| - 1], lo, hi, a);
    } else {
      assert first == second;
    }
  }

  lemma {:induction false} HoldsOutside(first: seq<Record>, second: seq<Record>, lo: nat, hi: nat, off: nat,
                                        bytes: seq<byte>)
    requires Inside(first, second, lo, hi) && Holds(first, off, bytes) && (off + |bytes| <= lo || hi <= off)
    ensures Holds(second, off, bytes)
  {
    forall i | 0 <= i < |bytes|
      ensures At(second, off + i) == Some(bytes[i])
    {
      AtOutside(first, second, lo, hi, off + i);
    }
  }

  /** New records lie from some offset on. */
  predicate Past(first: seq<Record>, second: seq<Record>, lo: nat) {
    first <= second && forall k :: |first| <= k < |second| ==> lo <= second[k].offset
  }

  lemma {:induction false} PastJoins(first: seq<Record>, second: seq<Record>, third: seq<Record>, lo: nat)
    requires Past(first, second, lo) && Past(second, third, lo)
    ensures Past(first, third, lo)
  {
    assert forall k :: 0 <= k < |second| ==> third[k] == second[k];
  }

  lemma {:induction false} HoldsBefore(first: seq<Record>, second: seq<Record>, lo: nat, off: nat, bytes: seq<byte>)
    requires Past(first, second, lo) && Holds(first, off, bytes) && off + |bytes| <= lo
    ensures Holds(second, off, bytes)
  {
    forall i | 0 <= i < |bytes|
      ensures At(second, off + i) == Some(bytes[i])
    {
      AtBefore(first, second, lo, off + i);
    }
  }

  lemma {:induction false} AtBefore(first: seq<Record>, second: seq<Record>, lo: nat, a: nat)
    requires Past(first, second, lo) && a < lo
    ensures At(second, a) == At(first, a)
    decreases |second|
  {
    if |first| < |second| {
      AtBefore(first, second[..|second| - 1], lo, a);
    } else {
      assert first == second;
    }
  }

  /** What a reader of the file sees; holes read as zeros. */
  function Fetch(records: seq<Record>, off: nat, len: nat): (r: seq<byte>)
    ensures |r| == len
  {
    seq(len, i requires 0 <= i < len => match At(records, off + i) { case None => 0 case Some(b) => b })
  }

  lemma {:induction false} FetchHolds(records: seq<Record>, off: nat, bytes: seq<byte>)
    requires Holds(records, off, bytes)
    ensures Fetch(records, off, |bytes|) == bytes
  {
  }

  lemma {:induction false} FetchPart(records: seq<Record>, off: nat, bytes: seq<byte>, lo: nat, hi: nat)
    requires Holds(records, off, bytes) && lo <= hi <= |bytes|
    ensures Fetch(records, off + lo, hi - lo) == bytes[lo..hi]
  {
    HoldsPart(records, off, bytes, lo, hi);
    FetchHolds(records, off + lo, bytes[lo..hi]);
  }

  class File {
    var records: seq<Record>
    var room: nat   // how many more records the descriptor accepts

    /** write_buffer */
    method WriteBuffer(offset: nat, buf: seq<byte>) returns (ret: int)
      modifies this
      ensures ret == (if old(room) > 0 then 0 else -1) && (ret < 0 ==> room == 0)
      ensures records == if ret == 0 then old(records) + [Record(offset, buf)] else old(records)
    {
      if room == 0 {
        return -1;
      }
      room := room - 1;
      records := records + [Record(offset, buf)];
      return 0;
    }
  }
}
