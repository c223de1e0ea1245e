/** The in-memory journal of a replica (src/infra/Journal.cpp). */
module Journals {
  import opened Common

  /** `buf` stands for the serialised message. */
  datatype Record = Record(id: int, msgType: string, buf: UpdateBlobMetaMsg)

  datatype JournalEntry = JournalEntry(entryId: int, msgId: string, buffer: UpdateBlobMetaMsg)

  type Log = seq<Record>

  /** Ids grow by exactly one from record to record. */
  ghost predicate Contiguous(log: Log) {
    forall i | 0 <= i < |log| :: log[i].id == log[0].id + i
  }

  predicate Extends(log: Log, id: int) {
    log == [] || log[|log| - 1].id + 1 == id
  }

  function EntryOf(r: Record): JournalEntry {
    JournalEntry(r.id, r.msgType, r.buf)
  }

  /** The entries of `log` with an id in [fromId, toId], newest first. */
  function Retrieved(log: Log, fromId: int, toId: int): seq<JournalEntry> {
    if log == [] then []
    else
      var last := log[|log| - 1];
      var rest := Retrieved(log[..|log| - 1], fromId, toId);
      if fromId <= last.id <= toId then [EntryOf(last)] + rest else rest
  }

  class Journal {
    var entries: Log

    constructor ()
      ensures entries == []
    {
      entries := [];
    }

    method AddEntry(id: int, msgType: string, buffer: UpdateBlobMetaMsg) returns (s: Status)
      modifies this
      ensures s == if Extends(old(entries), id) then Ok else InvalidCommit
      ensures entries == if s == Ok then old(entries) + [Record(id, msgType, buffer)] else old(entries)
      ensures Contiguous(old(entries)) ==> Contiguous(entries)
    {
      if |entries| > 0 && entries[|entries| - 1].id + 1 != id {
        return InvalidCommit;
      }
      entries := entries + [Record(id, msgType, buffer)];
      return Ok;
    }

    method RemoveLastEntry()
      requires entries != []
      modifies this
      ensures entries == old(entries)[..|old(entries)| - 1]
      ensures Contiguous(old(entries)) ==> Contiguous(entries)
    {
      entries := entries[..|entries| - 1];
    }

    method RetrieveEntries(fromId: int, toId: int, maxBytesInResp: int) returns (ret: seq<JournalEntry>, s: Status)
      ensures s == Ok
      ensures ret == Retrieved(entries, fromId, toId)
    {
      ret := [];
      var i := |entries|;
      assert entries[..i] == entries;
      while i > 0
        invariant 0 <= i <= |entries|
        invariant Retrieved(entries, fromId, toId) == ret + Retrieved(entries[..i], fromId, toId)
      {
        i := i - 1;
        assert entries[..i + 1][..i] == entries[..i];
        if entries[i].id >= fromId && entries[i].id <= toId {
          ret := ret + [JournalEntry(entries[i].id, entries[i].msgType, entries[i].buf)];
        }
      }
      s := Ok;
    }
  }

  function Max(a: int, b: int): int { if a > b then a else b }

  function Min(a: int, b: int): int { if a < b then a else b }

  /** `e` is the entry for the record with this id. */
  ghost predicate IsEntryFor(e: JournalEntry, log: Log, id: int)
    requires log != []
  {
    0 <= id - log[0].id < |log| && e == EntryOf(log[id - log[0].id]) && e.entryId == id
  }

  /** `ret` has the entries for the ids hi, hi-1, .., lo and no others. */
  ghost predicate Descends(ret: seq<JournalEntry>, log: Log, lo: int, hi: int)
    requires log != []
  {
    && |ret| == Max(0, hi - lo + 1)
    && forall k | 0 <= k < |ret| :: IsEntryFor(ret[k], log, hi - k)
  }

  lemma {:induction false} DescendsLonger(ret: seq<JournalEntry>, log: Log, r: Record, lo: int, hi: int)
    requires log != [] && Descends(ret, log, lo, hi)
    ensures Descends(ret, log + [r], lo, hi)
  {
    forall k | 0 <= k < |ret|
      ensures IsEntryFor(ret[k], log + [r], hi - k)
    {
      assert IsEntryFor(ret[k], log, hi - k);
    }
  }

  lemma {:induction false} DescendsCons(ret: seq<JournalEntry>, log: Log, e: JournalEntry, lo: int, hi: int)
    requires log != [] && Descends(ret, log, lo, hi - 1) && IsEntryFor(e, log, hi) && lo <= hi
    ensures Descends([e] + ret, log, lo, hi)
  {
    forall k | 0 <= k < |[e] + ret|
      ensures IsEntryFor(([e] + ret)[k], log, hi - k)
    {
      if k > 0 {
        assert IsEntryFor(ret[k - 1], log, hi - 1 - (k - 1));
      }
    }
  }

  /**
   * On a contiguous journal with first id f and last id l, retrieval yields exactly the ids
   * max(from, f) .. min(to, l), each once, newest first, each with its own record's content.
   */
  lemma {:induction false} RetrievedExactly(log: Log, fromId: int, toId: int)
    requires log != [] && Contiguous(log)
    ensures
      var f := log[0].id;
      Descends(Retrieved(log, fromId, toId), log, Max(fromId, f), Min(toId, f + |log| - 1))
  {
    var f, n := log[0].id, |log| - 1;
    var front, last := log[..n], log[n];
    var lo := Max(fromId, f);
    assert last.id == f + n && log == front + [last];
    if n > 0 {
      RetrievedExactly(front, fromId, toId);
      DescendsLonger(Retrieved(front, fromId, toId), front, last, lo, Min(toId, f + n - 1));
    }
    if fromId <= f + n <= toId {
      DescendsCons(Retrieved(front, fromId, toId), log, EntryOf(last), lo, f + n);
    }
  }

  /** The record with a given id in a contiguous journal is unique. */
  lemma {:induction false} SameIdSameRecord(log: Log, a: Record, b: Record)
    requires Contiguous(log) && a in log && b in log && a.id == b.id
    ensures a == b
  {
    var i :| 0 <= i < |log| && log[i] == a;
    var j :| 0 <= j < |log| && log[j] == b;
    assert i == j;
  }
}
