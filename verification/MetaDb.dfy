/** The metadata database of a replica (src/volumeserver/VolumeMetaDb.cpp). */
module MetaDb {
  import opened Common
  import opened BlobKeys

  type Table = map<Key, ChunkId>

  // ---------- updates ----------

  type Batch = seq<(Key, ChunkId)>

  function BatchOf(blobId: Int64, chunks: seq<BlobKVPair>): (batch: Batch)
    ensures |batch| == |chunks|
  {
    seq(|chunks|, i requires 0 <= i < |chunks| => (EncodeKey(blobId, chunks[i].offset), chunks[i].chunkId))
  }

  function PutAll(t: Table, batch: Batch): Table {
    if batch == [] then t
    else
      var last := batch[|batch| - 1];
      PutAll(t, batch[..|batch| - 1])[last.0 := last.1]
  }

  function Updated(t: Table, msg: UpdateBlobMetaMsg): Table {
    PutAll(t, BatchOf(msg.blobId, msg.chunkList))
  }

  function Lookup(t: Table, blobId: Int64, offset: Int64): Option<ChunkId> {
    var k := EncodeKey(blobId, offset);
    if k in t then Some(t[k]) else None
  }

  /** The chunk a list of pairs leaves at an offset: the last one given for it. */
  function LastChunk(chunks: seq<BlobKVPair>, offset: Int64): Option<ChunkId> {
    if chunks == [] then None
    else
      var last := chunks[|chunks| - 1];
      if last.offset == offset then Some(last.chunkId) else LastChunk(chunks[..|chunks| - 1], offset)
  }

  /** An update sets exactly the offsets it lists, in its own blob only; the last pair for an offset wins. */
  lemma {:induction false} UpdatedLookup(t: Table, msg: UpdateBlobMetaMsg, blobId: Int64, offset: Int64)
    ensures
      var written := LastChunk(msg.chunkList, offset);
      Lookup(Updated(t, msg), blobId, offset) ==
      if blobId == msg.blobId && written.Some? then written else Lookup(t, blobId, offset)
    decreases |msg.chunkList|
  {
    var cs := msg.chunkList;
    if cs != [] {
      var front := msg.(chunkList := cs[..|cs| - 1]);
      UpdatedLookup(t, front, blobId, offset);
      var batch := BatchOf(msg.blobId, cs);
      assert batch[..|cs| - 1] == BatchOf(msg.blobId, front.chunkList);
      KeyInjective(blobId, offset, msg.blobId, cs[|cs| - 1].offset);
    }
  }

  // ---------- reads ----------

  predicate WithinEnd(offset: Int64, endOffset: Int64) {
    endOffset == -1 || offset <= endOffset
  }

  ghost predicate Live(t: Table, blobId: Int64, offset: Int64) {
    EncodeKey(blobId, offset) in t
  }

  /** In byte order, `offset` is at or after the start and no live offset on the way there is beyond the end. */
  ghost predicate Reached(t: Table, blobId: Int64, start: Int64, end: Int64, offset: Int64) {
    && Live(t, blobId, offset)
    && AtMost(WordBytes(start), WordBytes(offset))
    && forall x: Int64 | Live(t, blobId, x) && AtMost(WordBytes(start), WordBytes(x))
                         && AtMost(WordBytes(x), WordBytes(offset)) :: WithinEnd(x, end)
  }

  ghost predicate HoldsChunk(t: Table, blobId: Int64, p: BlobKVPair) {
    Lookup(t, blobId, p.offset) == Some(p.chunkId)
  }

  ghost predicate ByteAscending(ps: seq<BlobKVPair>) {
    forall i, j | 0 <= i < j < |ps| :: Less(WordBytes(ps[i].offset), WordBytes(ps[j].offset))
  }

  ghost predicate HasOffset(ps: seq<BlobKVPair>, offset: Int64) {
    exists i | 0 <= i < |ps| :: ps[i].offset == offset
  }

  /** What a read answers: every reached offset with its chunk, each once, in byte order. */
  ghost predicate IsAnswer(t: Table, blobId: Int64, start: Int64, end: Int64, ps: seq<BlobKVPair>) {
    && (forall i | 0 <= i < |ps| :: Reached(t, blobId, start, end, ps[i].offset) && HoldsChunk(t, blobId, ps[i]))
    && (forall o: Int64 | Reached(t, blobId, start, end, o) :: HasOffset(ps, o))
    && ByteAscending(ps)
  }

  // ---------- the iterator ----------

  ghost predicate IsLeast(k: Key, s: set<Key>) {
    k in s && forall k2 | k2 in s :: AtMost(k, k2)
  }

  lemma {:induction false} LeastExists(s: set<Key>) returns (k: Key)
    requires s != {}
    ensures IsLeast(k, s)
  {
    k :| k in s;
    if s != {k} {
      var k' := LeastExists(s - {k});
      LessIsStrictTotal(k, k');
      if Less(k, k') {
        forall k2 | k2 in s ensures AtMost(k, k2) {
          if k2 != k && k2 != k' {
            assert k2 in s - {k};
            LessTransitive(k, k', k2);
          }
        }
      } else {
        k := k';
      }
    }
  }

  class DbIterator {
    const snapshot: Table
    var pos: Option<Key>

    constructor (t: Table)
      ensures snapshot == t && pos == None
    {
      snapshot := t;
      pos := None;
    }

    method MoveToLeast(s: set<Key>)
      modifies this
      ensures if s == {} then pos == None else pos.Some? && IsLeast(pos.value, s)
    {
      if s == {} {
        pos := None;
      } else {
        ghost var w := LeastExists(s);
        var k :| k in s && forall k2 | k2 in s :: AtMost(k, k2);
        pos := Some(k);
      }
    }

    method Seek(target: Key)
      modifies this
      ensures pos.Some? ==> pos.value in snapshot && AtMost(target, pos.value)
      ensures forall k | k in snapshot && AtMost(target, k) :: pos.Some? && !Less(k, pos.value)
    {
      var s := set k | k in snapshot && AtMost(target, k);
      MoveToLeast(s);
      LeastIsNotPassed(s, pos);
      assert forall k | k in snapshot && AtMost(target, k) :: k in s;
    }

    method Next()
      requires pos.Some?
      modifies this
      ensures IsNext(snapshot, old(pos).value, pos)
    {
      var s := set k | k in snapshot && Less(pos.value, k);
      MoveToLeast(s);
      LeastIsNotPassed(s, pos);
      assert forall k | k in snapshot && Less(old(pos).value, k) :: k in s;
    }
  }

  lemma {:induction false} LeastIsNotPassed(s: set<Key>, pos: Option<Key>)
    requires if s == {} then pos == None else pos.Some? && IsLeast(pos.value, s)
    ensures forall k | k in s :: pos.Some? && !Less(k, pos.value)
  {
    forall k | k in s
      ensures pos.Some? && !Less(k, pos.value)
    {
      LessIsStrictTotal(k, pos.value);
    }
  }

  /** Every key from the start key up to `pos` was the blob's, within the end, and has been collected. */
  ghost predicate Passed(t: Table, blobId: Int64, start: Int64, end: Int64, ps: seq<BlobKVPair>, pos: Option<Key>) {
    forall k | k in t && AtMost(EncodeKey(blobId, start), k) && (pos.Some? ==> Less(k, pos.value)) ::
      BlobIdOf(k) == blobId && WithinEnd(OffsetOf(k), end) && HasOffset(ps, OffsetOf(k))
  }

  ghost predicate Collectable(t: Table, blobId: Int64, start: Int64, p: BlobKVPair, pos: Option<Key>) {
    var k := EncodeKey(blobId, p.offset);
    k in t && AtMost(EncodeKey(blobId, start), k) && (pos.Some? ==> Less(k, pos.value)) && t[k] == p.chunkId
  }

  /** Nothing else has been collected. */
  ghost predicate Collected(t: Table, blobId: Int64, start: Int64, ps: seq<BlobKVPair>, pos: Option<Key>) {
    forall i | 0 <= i < |ps| :: Collectable(t, blobId, start, ps[i], pos)
  }

  ghost predicate Scanned(t: Table, blobId: Int64, start: Int64, end: Int64, ps: seq<BlobKVPair>, pos: Option<Key>) {
    && Passed(t, blobId, start, end, ps, pos)
    && Collected(t, blobId, start, ps, pos)
    && ByteAscending(ps)
    && (pos.Some? ==> pos.value in t && AtMost(EncodeKey(blobId, start), pos.value))
  }

  /** `next` is the first key after `cur`, or there is none. */
  ghost predicate IsNext(t: Table, cur: Key, next: Option<Key>) {
    && (next.Some? ==> next.value in t && Less(cur, next.value))
    && forall k | k in t && Less(cur, k) :: next.Some? && !Less(k, next.value)
  }

  /** One turn of the scan loop keeps `Scanned`. */
  lemma {:induction false} ScanStep(
      t: Table, blobId: Int64, start: Int64, end: Int64, ps: seq<BlobKVPair>, cur: Key, next: Option<Key>)
    requires Scanned(t, blobId, start, end, ps, Some(cur))
    requires BlobIdOf(cur) == blobId && WithinEnd(OffsetOf(cur), end)
    requires IsNext(t, cur, next)
    ensures Scanned(t, blobId, start, end, ps + [BlobKVPair(OffsetOf(cur), t[cur])], next)
  {
    var first := EncodeKey(blobId, start);
    var ps' := ps + [BlobKVPair(OffsetOf(cur), t[cur])];
    if next.Some? && first != cur {
      LessTransitive(first, cur, next.value);
    }
    StepPasses(t, blobId, start, end, ps, cur, next);
    KeyRoundTrip(blobId, start, cur);
    assert Collectable(t, blobId, start, ps'[|ps|], next);
    forall i | 0 <= i < |ps|
      ensures Less(WordBytes(ps'[i].offset), WordBytes(OffsetOf(cur)))
      ensures Collectable(t, blobId, start, ps'[i], next)
    {
      assert Collectable(t, blobId, start, ps[i], Some(cur));
      BlobKeysAdjacent(blobId, ps[i].offset, OffsetOf(cur), cur);
      if next.Some? {
        LessTransitive(EncodeKey(blobId, ps[i].offset), cur, next.value);
      }
    }
  }

  lemma {:induction false} StepPasses(
      t: Table, blobId: Int64, start: Int64, end: Int64, ps: seq<BlobKVPair>, cur: Key, next: Option<Key>)
    requires cur in t && Passed(t, blobId, start, end, ps, Some(cur))
    requires BlobIdOf(cur) == blobId && WithinEnd(OffsetOf(cur), end)
    requires IsNext(t, cur, next)
    ensures Passed(t, blobId, start, end, ps + [BlobKVPair(OffsetOf(cur), t[cur])], next)
  {
    var ps' := ps + [BlobKVPair(OffsetOf(cur), t[cur])];
    forall k | k in t && AtMost(EncodeKey(blobId, start), k) && (next.Some? ==> Less(k, next.value))
      ensures BlobIdOf(k) == blobId && WithinEnd(OffsetOf(k), end) && HasOffset(ps', OffsetOf(k))
    {
      LessIsStrictTotal(cur, k);
      if k == cur {
        assert ps'[|ps|].offset == OffsetOf(k);
      } else {
        assert !Less(cur, k);
        var i :| 0 <= i < |ps| && ps[i].offset == OffsetOf(k);
        assert ps'[i].offset == OffsetOf(k);
      }
    }
  }

  /** When the loop stops, at the end or at a key it rejects, the collected pairs are the answer. */
  lemma {:induction false} ScanDone(
      t: Table, blobId: Int64, start: Int64, end: Int64, ps: seq<BlobKVPair>, pos: Option<Key>)
    requires Scanned(t, blobId, start, end, ps, pos)
    requires pos.Some? ==> BlobIdOf(pos.value) != blobId || !WithinEnd(OffsetOf(pos.value), end)
    ensures IsAnswer(t, blobId, start, end, ps)
  {
    var first := EncodeKey(blobId, start);
    forall i | 0 <= i < |ps|
      ensures Reached(t, blobId, start, end, ps[i].offset) && HoldsChunk(t, blobId, ps[i])
    {
      var o := ps[i].offset;
      var k := EncodeKey(blobId, o);
      assert Collectable(t, blobId, start, ps[i], pos);
      BlobKeysAdjacent(blobId, start, o, k);
      KeyInjective(blobId, start, blobId, o);
      forall x: Int64 | Live(t, blobId, x) && AtMost(WordBytes(start), WordBytes(x))
                        && AtMost(WordBytes(x), WordBytes(o))
        ensures WithinEnd(x, end)
      {
        var kx := EncodeKey(blobId, x);
        BlobKeysAdjacent(blobId, start, x, kx);
        BlobKeysAdjacent(blobId, x, o, kx);
        KeyRoundTrip(blobId, x, kx);
        if pos.Some? && kx != k {
          LessTransitive(kx, k, pos.value);
        }
      }
    }
    forall o: Int64 | Reached(t, blobId, start, end, o)
      ensures HasOffset(ps, o)
    {
      var k := EncodeKey(blobId, o);
      BlobKeysAdjacent(blobId, start, o, k);
      KeyRoundTrip(blobId, o, k);
      if pos.Some? {
        var p := pos.value;
        LessIsStrictTotal(k, p);
        if !Less(k, p) {
          BlobKeysAdjacent(blobId, start, o, p);
          KeyRoundTrip(blobId, start, p);
          var x := OffsetOf(p);
          BlobKeysAdjacent(blobId, start, x, p);
          BlobKeysAdjacent(blobId, x, o, p);
          assert Live(t, blobId, x);
          assert false;
        }
      }
    }
  }

  class VolumeMetaDb {
    var table: Table

    constructor ()
      ensures table == map[]
    {
      table := map[];
    }

    /** The batch write is all or nothing; `writeOk` says which. */
    method ApplyUpdate(msg: UpdateBlobMetaMsg, writeOk: bool) returns (s: Status)
      modifies this
      ensures s == if writeOk then Ok else DbWriteFailure
      ensures table == if writeOk then Updated(old(table), msg) else old(table)
    {
      var batch: Batch := [];
      for i := 0 to |msg.chunkList|
        invariant batch == BatchOf(msg.blobId, msg.chunkList)[..i]
      {
        var kv := msg.chunkList[i];
        batch := batch + [(EncodeKey(msg.blobId, kv.offset), kv.chunkId)];
      }
      assert batch == BatchOf(msg.blobId, msg.chunkList);
      if !writeOk {
        return DbWriteFailure;
      }
      table := PutAll(table, batch);
      return Ok;
    }

    method GetBlobMeta(blobId: Int64, startOffset: Int64, endOffset: Int64) returns (chunkList: seq<BlobKVPair>)
      ensures IsAnswer(table, blobId, startOffset, endOffset, chunkList)
    {
      chunkList := [];
      var it := new DbIterator(table);
      it.Seek(EncodeKey(blobId, startOffset));
      while it.pos.Some?
        invariant it.snapshot == table
        invariant Scanned(table, blobId, startOffset, endOffset, chunkList, it.pos)
        decreases if it.pos.Some? then (set k | k in table && AtMost(it.pos.value, k)) else {}
      {
        var cur := it.pos.value;
        if BlobIdOf(cur) != blobId || (endOffset != -1 && OffsetOf(cur) > endOffset) {
          break;
        }
        ghost var ps := chunkList;
        chunkList := chunkList + [BlobKVPair(OffsetOf(cur), table[cur])];
        it.Next();
        ScanStep(table, blobId, startOffset, endOffset, ps, cur, it.pos);
        ScanAdvances(table, cur, it.pos);
      }
      ScanDone(table, blobId, startOffset, endOffset, chunkList, it.pos);
    }
  }

  lemma {:induction false} ScanAdvances(t: Table, cur: Key, next: Option<Key>)
    requires cur in t
    requires next.Some? ==> next.value in t && Less(cur, next.value)
    ensures (if next.Some? then (set k | k in t && AtMost(next.value, k)) else {}) < (set k | k in t && AtMost(cur, k))
  {
    var before := set k | k in t && AtMost(cur, k);
    var after := if next.Some? then (set k | k in t && AtMost(next.value, k)) else {};
    assert cur in before;
    if next.Some? {
      LessIsStrictTotal(cur, next.value);
      forall k | k in after ensures k in before {
        if k != next.value {
          LessTransitive(cur, next.value, k);
        }
      }
    }
  }

  // ---------- what the answers mean ----------

  /** An offset that stands at m in one list cannot stand before m in another whose first m offsets are the same. */
  lemma {:induction false} StandsAtLeast(ps: seq<BlobKVPair>, qs: seq<BlobKVPair>, m: nat, j: nat)
    requires ByteAscending(ps) && m < |ps| && j < |qs| && m <= |qs| && qs[j].offset == ps[m].offset
    requires forall i | 0 <= i < m :: ps[i].offset == qs[i].offset
    ensures j >= m
  {
    LessIsStrictTotal(WordBytes(ps[m].offset), WordBytes(ps[m].offset));
  }

  lemma {:induction false} SameOffsetNext(ps: seq<BlobKVPair>, qs: seq<BlobKVPair>, m: nat)
    requires ByteAscending(ps) && ByteAscending(qs)
    requires forall o: Int64 :: HasOffset(ps, o) <==> HasOffset(qs, o)
    requires m < |ps| && m <= |qs| && forall i | 0 <= i < m :: ps[i].offset == qs[i].offset
    ensures m < |qs| && ps[m].offset == qs[m].offset
  {
    var x := ps[m].offset;
    assert HasOffset(ps, x);
    var j :| 0 <= j < |qs| && qs[j].offset == x;
    StandsAtLeast(ps, qs, m, j);
    var y := qs[m].offset;
    assert HasOffset(qs, y);
    var k :| 0 <= k < |ps| && ps[k].offset == y;
    StandsAtLeast(qs, ps, m, k);
    LessIsStrictTotal(WordBytes(x), WordBytes(y));
    assert j > m ==> Less(WordBytes(y), WordBytes(x));
    assert k > m ==> Less(WordBytes(x), WordBytes(y));
  }

  lemma {:induction false} AscendingPrefix(ps: seq<BlobKVPair>, qs: seq<BlobKVPair>, n: nat)
    requires ByteAscending(ps) && ByteAscending(qs)
    requires forall o: Int64 :: HasOffset(ps, o) <==> HasOffset(qs, o)
    requires n <= |ps|
    ensures n <= |qs| && forall i | 0 <= i < n :: ps[i].offset == qs[i].offset
  {
    if n > 0 {
      AscendingPrefix(ps, qs, n - 1);
      SameOffsetNext(ps, qs, n - 1);
    }
  }

  /** Two answers to one query over equal tables are the same list. */
  lemma {:induction false} AnswerUnique(
      t: Table, b: Int64, s: Int64, e: Int64, ps: seq<BlobKVPair>, qs: seq<BlobKVPair>)
    requires IsAnswer(t, b, s, e, ps) && IsAnswer(t, b, s, e, qs)
    ensures ps == qs
  {
    forall o: Int64
      ensures HasOffset(ps, o) <==> Reached(t, b, s, e, o)
      ensures HasOffset(qs, o) <==> Reached(t, b, s, e, o)
    {
    }
    AscendingPrefix(ps, qs, |ps|);
    AscendingPrefix(qs, ps, |qs|);
    forall i | 0 <= i < |ps|
      ensures ps[i] == qs[i]
    {
      assert HoldsChunk(t, b, ps[i]) && HoldsChunk(t, b, qs[i]);
    }
  }

  /** A read from 0 with end -1 answers exactly the live entries of the blob, whatever their offsets. */
  lemma {:induction false} FullReadExact(t: Table, b: Int64, ps: seq<BlobKVPair>)
    requires IsAnswer(t, b, 0, -1, ps)
    ensures forall o: Int64 :: HasOffset(ps, o) <==> Live(t, b, o)
    ensures forall i | 0 <= i < |ps| :: HoldsChunk(t, b, ps[i])
    ensures forall i, j | 0 <= i < j < |ps| :: ps[i].offset != ps[j].offset
  {
    forall o: Int64 | Live(t, b, o)
      ensures Reached(t, b, 0, -1, o)
    {
      ZeroIsLeast(8, WordBytes(o));
    }
    forall i, j | 0 <= i < j < |ps|
      ensures ps[i].offset != ps[j].offset
    {
      LessIsStrictTotal(WordBytes(ps[i].offset), WordBytes(ps[i].offset));
    }
  }

  ghost predicate OrderAgrees(a: Int64, b: Int64) {
    Less(WordBytes(a), WordBytes(b)) <==> a < b
  }

  /** The read reaches exactly the live offsets between its bounds. */
  ghost predicate ReadsRange(t: Table, b: Int64, s: Int64, e: Int64) {
    forall o: Int64 :: Reached(t, b, s, e, o) <==> Live(t, b, o) && s <= o <= e
  }

  /**
   * A bounded read is exact and ascending when byte order agrees with numeric order on the stored and queried
   * offsets.
   */
  lemma {:induction false} BoundedReadExact(t: Table, b: Int64, s: Int64, e: Int64, ps: seq<BlobKVPair>)
    requires IsAnswer(t, b, s, e, ps)
    requires forall x: Int64, y: Int64 |
               (Live(t, b, x) || x == s || x == e) && (Live(t, b, y) || y == s || y == e) :: OrderAgrees(x, y)
    ensures forall o: Int64 :: HasOffset(ps, o) <==> Live(t, b, o) && s <= o <= e
    ensures forall i, j | 0 <= i < j < |ps| :: ps[i].offset < ps[j].offset
  {
    AgreementMakesExact(t, b, s, e);
    forall i, j | 0 <= i < j < |ps|
      ensures ps[i].offset < ps[j].offset
    {
      assert Live(t, b, ps[i].offset) && Live(t, b, ps[j].offset);
      assert OrderAgrees(ps[i].offset, ps[j].offset);
    }
  }

  /**
   * Reads bounded by stored offsets are all exact if and only if byte order agrees with numeric order on the
   * stored offsets.
   */
  lemma {:induction false} BoundedReadsExactIff(t: Table, b: Int64)
    ensures
      (forall s: Int64, e: Int64 | Live(t, b, s) && Live(t, b, e) :: ReadsRange(t, b, s, e))
      <==> (forall x: Int64, y: Int64 | Live(t, b, x) && Live(t, b, y) :: OrderAgrees(x, y))
  {
    if forall x: Int64, y: Int64 | Live(t, b, x) && Live(t, b, y) :: OrderAgrees(x, y) {
      forall s: Int64, e: Int64 | Live(t, b, s) && Live(t, b, e)
        ensures ReadsRange(t, b, s, e)
      {
        AgreementMakesExact(t, b, s, e);
      }
    } else {
      var x: Int64, y: Int64 :| Live(t, b, x) && Live(t, b, y) && !OrderAgrees(x, y);
      DisagreementBreaks(t, b, x, y);
    }
  }

  lemma {:induction false} AgreementMakesExact(t: Table, b: Int64, s: Int64, e: Int64)
    requires forall x: Int64, y: Int64 |
               (Live(t, b, x) || x == s || x == e) && (Live(t, b, y) || y == s || y == e) :: OrderAgrees(x, y)
    ensures ReadsRange(t, b, s, e)
  {
    forall o: Int64
      ensures Reached(t, b, s, e, o) <==> Live(t, b, o) && s <= o <= e
    {
      if Live(t, b, o) {
        AgreementAtMost(s, o);
        if Reached(t, b, s, e, o) {
          assert WithinEnd(o, e);
          MinusOneIsGreatest(o);
          AgreementAtMost(o, e);
        } else if s <= o <= e {
          var x: Int64 :| Live(t, b, x) && AtMost(WordBytes(s), WordBytes(x))
                   && AtMost(WordBytes(x), WordBytes(o)) && !WithinEnd(x, e);
          AgreementAtMost(x, o);
          assert false;
        }
      }
    }
  }

  lemma {:induction false} AgreementAtMost(x: Int64, y: Int64)
    requires OrderAgrees(x, y)
    ensures AtMost(WordBytes(x), WordBytes(y)) <==> x <= y
  {
    WordRoundTrip(x, WordBytes(x));
    WordRoundTrip(y, WordBytes(y));
  }

  /** Two stored offsets in the wrong byte order make the read between them miss its own upper bound. */
  lemma {:induction false} DisagreementBreaks(t: Table, b: Int64, x: Int64, y: Int64)
    requires Live(t, b, x) && Live(t, b, y) && !OrderAgrees(x, y)
    ensures exists s: Int64, e: Int64 | Live(t, b, s) && Live(t, b, e) :: !ReadsRange(t, b, s, e)
  {
    var lo, hi := if x < y then x else y, if x < y then y else x;
    WordRoundTrip(x, WordBytes(x));
    WordRoundTrip(y, WordBytes(y));
    LessIsStrictTotal(WordBytes(x), WordBytes(y));
    assert Less(WordBytes(hi), WordBytes(lo));
    LessIsStrictTotal(WordBytes(hi), WordBytes(lo));
    assert !Reached(t, b, lo, hi, hi);
    assert !ReadsRange(t, b, lo, hi);
  }

  /** Bounded reads are exact and ascending within one block of 256 offsets, such as 0..255. */
  lemma {:induction false} BlockReadExact(t: Table, b: Int64, s: Int64, e: Int64, ps: seq<BlobKVPair>)
    requires IsAnswer(t, b, s, e, ps)
    requires s / 256 == e / 256
    requires forall o: Int64 | Live(t, b, o) :: o / 256 == s / 256
    ensures forall o: Int64 :: HasOffset(ps, o) <==> Live(t, b, o) && s <= o <= e
    ensures forall i, j | 0 <= i < j < |ps| :: ps[i].offset < ps[j].offset
  {
    forall x: Int64, y: Int64 | (Live(t, b, x) || x == s || x == e) && (Live(t, b, y) || y == s || y == e)
      ensures OrderAgrees(x, y)
    {
      SameBlockOrder(x, y);
    }
    BoundedReadExact(t, b, s, e, ps);
  }

  /** A store where the bounded read [1, 256] does not return offset 256. */
  lemma {:induction false} BoundedReadMissesOffset(b: Int64, c: ChunkId, ps: seq<BlobKVPair>)
    requires
      var t := map[EncodeKey(b, 1) := c, EncodeKey(b, 256) := c];
      IsAnswer(t, b, 1, 256, ps)
    ensures !HasOffset(ps, 256)
  {
    OrderFailsAcrossBlocks();
    LessIsStrictTotal(WordBytes(256), WordBytes(1));
  }
}
