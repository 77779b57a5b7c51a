/** The active memtable and the queue of immutable ones awaiting flush. */
module MemTables {
  import opened Primitives
  import opened RecordIndex

  /** The version of a staged entry nobody may see yet. */
  const INVISIBLE: u64 := U64_MAX

  datatype MemEntry = MemEntry(body: seq<u8>, version: u64, deleted: bool, txn: string)

  /** One version per record; `firstSeq` and `lastSeq` bound the log sequences put into it. */
  datatype MemTable = MemTable(entries: map<RecordKey, MemEntry>, firstSeq: u64, lastSeq: u64)

  const EmptyTable := MemTable(map[], U64_MAX, 0)

  /** `queue` is oldest first. */
  datatype MemSet = MemSet(active: MemTable, queue: seq<MemTable>)

  function GetVisible(t: MemTable, k: RecordKey, s: u64): Option<MemEntry> {
    if k in t.entries && t.entries[k].version != INVISIBLE && t.entries[k].version <= s then Some(t.entries[k]) else None
  }

  function PutEntry(t: MemTable, k: RecordKey, e: MemEntry, walSeq: u64): MemTable {
    MemTable(t.entries[k := e],
             if walSeq < t.firstSeq then walSeq else t.firstSeq,
             if walSeq > t.lastSeq then walSeq else t.lastSeq)
  }

  /** Stamps whatever entry the table holds for the record. */
  function StampEntry(t: MemTable, k: RecordKey, v: u64): MemTable {
    if k in t.entries then t.(entries := t.entries[k := t.entries[k].(version := v)]) else t
  }

  function StampQueue(q: seq<MemTable>, k: RecordKey, v: u64): (r: seq<MemTable>)
    ensures |r| == |q|
  {
    seq(|q|, i requires 0 <= i < |q| => StampEntry(q[i], k, v))
  }

  function Rotated(ms: MemSet): MemSet {
    MemSet(EmptyTable, ms.queue + [ms.active])
  }

  /** Staging: into the active table, which is then rotated out when it is `full`. */
  function Put(ms: MemSet, k: RecordKey, e: MemEntry, walSeq: u64, full: bool): MemSet {
    var staged := ms.(active := PutEntry(ms.active, k, e, walSeq));
    if full then Rotated(staged) else staged
  }

  /** Publishing stamps the active table and, if the queue's lock was free, every queued one. */
  function Publish(ms: MemSet, k: RecordKey, v: u64, locked: bool): MemSet {
    MemSet(StampEntry(ms.active, k, v), if locked then ms.queue else StampQueue(ms.queue, k, v))
  }

  /** Newest queued table first. */
  function FindQueued(q: seq<MemTable>, k: RecordKey, s: u64): Option<MemEntry> {
    if q == [] then None
    else
      var r := GetVisible(q[|q| - 1], k, s);
      if r.Some? then r else FindQueued(q[..|q| - 1], k, s)
  }

  function Find(ms: MemSet, k: RecordKey, s: u64): Option<MemEntry> {
    var r := GetVisible(ms.active, k, s);
    if r.Some? then r else FindQueued(ms.queue, k, s)
  }

  /** The table holds the record at a version that is published and not after the snapshot. */
  predicate Shows(t: MemTable, k: RecordKey, s: u64) {
    k in t.entries && t.entries[k].version != U64_MAX && t.entries[k].version <= s
  }

  /** Only the record's version has changed, if the table holds it at all. */
  predicate Stamped(was: MemTable, now: MemTable, k: RecordKey, v: u64) {
    && now.entries.Keys == was.entries.Keys && now.firstSeq == was.firstSeq && now.lastSeq == was.lastSeq
    && forall j :: j in was.entries ==>
         now.entries[j] == if j == k then MemEntry(was.entries[j].body, v, was.entries[j].deleted, was.entries[j].txn) else was.entries[j]
  }

  class MemTableSet {
    var active: MemTable
    var flushing: seq<MemTable>

    constructor ()
      ensures Value() == MemSet(EmptyTable, [])
    {
      active, flushing := EmptyTable, [];
    }

    function Value(): MemSet
      reads this
    {
      MemSet(active, flushing)
    }

    method PutInvisible(k: RecordKey, e: MemEntry, walSeq: u64, full: bool)
      modifies this
      ensures Value() == Put(old(Value()), k, e, walSeq, full)
      ensures if full then active == EmptyTable && |flushing| == |old(flushing)| + 1 && flushing[..|old(flushing)|] == old(flushing)
              else flushing == old(flushing)
      ensures var t := if full then flushing[|old(flushing)|] else active;
              && t.entries == old(active.entries)[k := e]
              && t.firstSeq <= walSeq <= t.lastSeq && t.firstSeq <= old(active.firstSeq) && old(active.lastSeq) <= t.lastSeq
              && t.firstSeq in {walSeq, old(active.firstSeq)} && t.lastSeq in {walSeq, old(active.lastSeq)}
    {
      active := PutEntry(active, k, e, walSeq);
      if full {
        Rotate();
      }
    }

    method Rotate()
      modifies this
      ensures Value() == Rotated(old(Value()))
    {
      flushing := flushing + [active];
      active := EmptyTable;
    }

    method PublishVersion(k: RecordKey, v: u64, locked: bool)
      modifies this
      ensures Value() == Publish(old(Value()), k, v, locked)
      ensures Stamped(old(active), active, k, v) && |flushing| == |old(flushing)|
      ensures locked ==> flushing == old(flushing)
      ensures !locked ==> forall i :: 0 <= i < |flushing| ==> Stamped(old(flushing)[i], flushing[i], k, v)
    {
      active := StampEntry(active, k, v);
      if !locked {
        var i := |flushing|;
        while i > 0
          invariant 0 <= i <= |flushing| == |old(flushing)|
          invariant forall j :: i <= j < |flushing| ==> flushing[j] == StampEntry(old(flushing)[j], k, v)
          invariant forall j :: 0 <= j < i ==> flushing[j] == old(flushing)[j]
          invariant active == StampEntry(old(active), k, v)
        {
          i := i - 1;
          flushing := flushing[i := StampEntry(flushing[i], k, v)];
        }
        assert flushing == StampQueue(old(flushing), k, v);
      }
    }

    method TakeImmutables() returns (taken: seq<MemTable>)
      modifies this
      ensures taken == old(flushing) && Value() == old(Value()).(queue := [])
    {
      taken := flushing;
      flushing := [];
    }

    method Lookup(k: RecordKey, s: u64) returns (r: Option<MemEntry>)
      ensures r == Find(Value(), k, s)
      ensures r.None? <==> !Shows(active, k, s) && forall i :: 0 <= i < |flushing| ==> !Shows(flushing[i], k, s)
      ensures Shows(active, k, s) ==> r == Some(active.entries[k])
      ensures !Shows(active, k, s) && r.Some? ==>
                exists i :: 0 <= i < |flushing| && Shows(flushing[i], k, s) && r == Some(flushing[i].entries[k]) &&
                            forall j :: i < j < |flushing| ==> !Shows(flushing[j], k, s)
    {
      r := GetVisible(active, k, s);
      if r.Some? {
        return;
      }
      var i := |flushing|;
      assert flushing[..i] == flushing;
      while i > 0
        invariant 0 <= i <= |flushing|
        invariant FindQueued(flushing[..i], k, s) == FindQueued(flushing, k, s)
        invariant !Shows(active, k, s) && forall j :: i <= j < |flushing| ==> !Shows(flushing[j], k, s)
      {
        assert flushing[..i][..i - 1] == flushing[..i - 1];
        r := GetVisible(flushing[i - 1], k, s);
        if r.Some? {
          return;
        }
        i := i - 1;
      }
      r := None;
    }
  }
}
