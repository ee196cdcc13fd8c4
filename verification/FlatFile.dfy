/**
 The flattened format of a compressed guest memory dump of dump.c: the output is a list of records, each of which says
 where in the file its bytes belong.
 */
module FlatFile {
  import opened Options

  type Byte = int

  type Bytes = seq<Byte>

  /** One call of write_buffer */
  datatype Record = Record(offset: nat, data: Bytes)

  /** The byte at this offset after the records have been applied in order, if any of them covers it. */
  function FileAt(rs: seq<Record>, at: nat): Option<Byte> {
    if rs == [] then None else
    var r := rs[|rs| - 1];
    if r.offset <= at < r.offset + |r.data| then Some(r.data[at - r.offset]) else FileAt(rs[..|rs| - 1], at)
  }

  /** The file holds these bytes from base on. */
  ghost predicate Holds(rs: seq<Record>, base: nat, data: Bytes) {
    forall i | 0 <= i < |data| :: FileAt(rs, base + i) == Some(data[i])
  }

  lemma {:induction false} FileAfter(rs: seq<Record>, r: Record, at: nat)
    ensures FileAt(rs + [r], at) == if r.offset <= at < r.offset + |r.data| then Some(r.data[at - r.offset])
      else FileAt(rs, at)
  {
    assert (rs + [r])[..|rs|] == rs;
  }

  /** A write behind what is there makes it longer. */
  lemma {:induction false} HoldsMore(rs: seq<Record>, base: nat, data: Bytes, more: Bytes)
    requires Holds(rs, base, data)
    ensures Holds(rs + [Record(base + |data|, more)], base, data + more)
  {
    var r := Record(base + |data|, more);
    forall i | 0 <= i < |data + more| ensures FileAt(rs + [r], base + i) == Some((data + more)[i]) {
      FileAfter(rs, r, base + i);
    }
  }

  /** A write elsewhere does not change it. */
  lemma {:induction false} HoldsStill(rs: seq<Record>, base: nat, data: Bytes, r: Record)
    requires Holds(rs, base, data) && (r.offset + |r.data| <= base || base + |data| <= r.offset)
    ensures Holds(rs + [r], base, data)
  {
    forall i | 0 <= i < |data| ensures FileAt(rs + [r], base + i) == Some(data[i]) { FileAfter(rs, r, base + i); }
  }

  /** The files have the same bytes in front of base. */
  ghost predicate SameBelow(rs: seq<Record>, rs': seq<Record>, base: nat) {
    forall at: nat {:trigger FileAt(rs', at)} | at < base :: FileAt(rs', at) == FileAt(rs, at)
  }

  /** A write behind base keeps them. */
  lemma {:induction false} WriteBehind(rs: seq<Record>, base: nat, r: Record)
    requires base <= r.offset
    ensures SameBelow(rs, rs + [r], base)
  {
    forall at: nat | at < base ensures FileAt(rs + [r], at) == FileAt(rs, at) { FileAfter(rs, r, at); }
  }

  /** The dump file */
  class DumpFile {
    var records: seq<Record>

    constructor ()
      ensures records == []
    {
      records := [];
    }

    /** write_buffer */
    method WriteBuffer(offset: nat, data: Bytes)
      modifies this
      ensures records == old(records) + [Record(offset, data)]
    {
      records := records + [Record(offset, data)];
    }
  }
}
