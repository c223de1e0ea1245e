/**
 * A volume replica: its journal, its database, and the writes it performs as leader and as peer
 * (src/volumeserver/VolumeServer.tcc, src/volumeserver/VolumeServer.cpp, src/infra/PBMember.tcc).
 */
module Replicas {
  import opened Common
  import opened BlobKeys
  import opened MetaDb
  import opened Journals
  import opened Members
  import opened WriteQuorum

  const UPDATE_TYPE := "UpdateBlobMetaMsg"

  datatype ReplicaState = ReplicaState(log: Log, table: Table)

  const EMPTY_REPLICA: ReplicaState := ReplicaState([], map[])

  function RecordOf(msg: UpdateBlobMetaMsg): Record { Record(msg.commitId, UPDATE_TYPE, msg) }

  /** Journal, then apply; a failed apply leaves no trace. `dbOk` is the outcome of the database write. */
  function MetadataWrite(r: ReplicaState, msg: UpdateBlobMetaMsg, dbOk: bool): (ReplicaState, Status) {
    if !Extends(r.log, msg.commitId) then (r, InvalidCommit)
    else if !dbOk then (r, DbWriteFailure)
    else (ReplicaState(r.log + [RecordOf(msg)], Updated(r.table, msg)), Ok)
  }

  datatype GroupWrite = Refused(status: Status) | Replicating(msg: UpdateBlobMetaMsg, peers: seq<PeerInfo>)

  /** A client's write at this member: number it, write it locally, then hand it to the writable peers. */
  function LeaderWrite(
      m: Member, r: ReplicaState, msg: UpdateBlobMetaMsg, dbOk: bool): (Member, ReplicaState, GroupWrite)
    requires m.state.IsLeader() ==> m.leaderCtx.Some?
  {
    if !m.state.IsLeader() then (m, r, Refused(InvalidState))
    else if m.state != LeaderFunctional then (m, r, Refused(NoQuorum))
    else
      var ctx := m.leaderCtx.value;
      var stamped := msg.(opId := ctx.opId + 1, commitId := ctx.commitId + 1);
      var m' := m.(leaderCtx := Some(ctx.(opId := ctx.opId + 1, commitId := ctx.commitId + 1)));
      var (r', s) := MetadataWrite(r, stamped, dbOk);
      (m', r', if s == Ok then Replicating(stamped, WritablePeers(ctx.peers)) else Refused(s))
  }

  /** The records of a pulled batch, handled one after another whether or not an earlier one failed. */
  function BatchApplied(r: ReplicaState, batch: seq<JournalEntry>, dbOks: seq<bool>): ReplicaState
    requires |dbOks| == |batch|
  {
    if batch == [] then r
    else
      var n := |batch| - 1;
      MetadataWrite(BatchApplied(r, batch[..n], dbOks[..n]), batch[n].buffer, dbOks[n]).0
  }

  /** Whether every record of the batch was accepted, which is what the caller of the batch learns. */
  function BatchSucceeded(r: ReplicaState, batch: seq<JournalEntry>, dbOks: seq<bool>): bool
    requires |dbOks| == |batch|
  {
    batch == [] ||
    var n := |batch| - 1;
    BatchSucceeded(r, batch[..n], dbOks[..n]) &&
    MetadataWrite(BatchApplied(r, batch[..n], dbOks[..n]), batch[n].buffer, dbOks[n]).1 == Ok
  }

  class VolumeReplica {
    const member: PBMember
    const journal: Journal
    const db: VolumeMetaDb

    ghost function View(): ReplicaState
      reads journal, db
    {
      ReplicaState(journal.entries, db.table)
    }

    constructor (c: Config)
      ensures View() == EMPTY_REPLICA && member.View() == FRESH && member.c == c
      ensures fresh(member) && fresh(journal) && fresh(db)
    {
      member := new PBMember(c);
      journal := new Journal();
      db := new VolumeMetaDb();
    }

    method HandleMetadataWrite(msg: UpdateBlobMetaMsg, dbOk: bool) returns (s: Status)
      modifies journal, db
      ensures (View(), s) == MetadataWrite(old(View()), msg, dbOk)
    {
      s := journal.AddEntry(msg.commitId, UPDATE_TYPE, msg);
      if s != Ok {
        return;
      }
      s := db.ApplyUpdate(msg, dbOk);
      if s != Ok {
        journal.RemoveLastEntry();
        assert journal.entries == old(journal.entries);
      }
    }

    method UpdateBlobMeta(msg: UpdateBlobMetaMsg, dbOk: bool) returns (g: GroupWrite, ctx: WriteCtx?)
      requires member.state.IsLeader() ==> member.leaderCtx.Some?
      modifies member, journal, db
      ensures (member.View(), View(), g) == LeaderWrite(old(member.View()), old(View()), msg, dbOk)
      ensures g.Replicating? <==> ctx != null
      ensures ctx != null ==> fresh(ctx) && ctx.View() == NewWrite(|g.peers|)
    {
      ctx := null;
      if !member.state.IsLeader() {
        return Refused(InvalidState), null;
      } else if member.state != LeaderFunctional {
        return Refused(NoQuorum), null;
      }
      var lead := member.leaderCtx.value;
      lead := lead.(opId := lead.opId + 1);
      lead := lead.(commitId := lead.commitId + 1);
      member.leaderCtx := Some(lead);
      var stamped := msg.(opId := lead.opId, commitId := lead.commitId);
      var s := HandleMetadataWrite(stamped, dbOk);
      if s != Ok {
        return Refused(s), null;
      }
      var peers := member.GetWritablePeers();
      ctx := new WriteCtx(|peers|);
      g := Replicating(stamped, peers);
    }

    method HandlePullJournalEntriesMsg(
        fromId: int, toId: int, maxBytes: int) returns (entries: seq<JournalEntry>, s: Status)
      ensures s == if member.state.IsLeader() && member.leaderCtx.Some? then Ok else NotLeader
      ensures entries == if s == Ok then Retrieved(journal.entries, fromId, toId) else []
    {
      if !member.state.IsLeader() || member.leaderCtx.None? {
        return [], NotLeader;
      }
      entries, s := journal.RetrieveEntries(fromId, toId, maxBytes);
    }

    method ApplyOpBatch(batch: seq<JournalEntry>, dbOks: seq<bool>) returns (allOk: bool)
      requires |dbOks| == |batch|
      modifies journal, db
      ensures View() == BatchApplied(old(View()), batch, dbOks)
      ensures allOk == BatchSucceeded(old(View()), batch, dbOks)
    {
      allOk := true;
      for i := 0 to |batch|
        invariant View() == BatchApplied(old(View()), batch[..i], dbOks[..i])
        invariant allOk == BatchSucceeded(old(View()), batch[..i], dbOks[..i])
      {
        assert batch[..i + 1][..i] == batch[..i] && dbOks[..i + 1][..i] == dbOks[..i];
        var s := HandleMetadataWrite(batch[i].buffer, dbOks[i]);
        allOk := allOk && s == Ok;
      }
      assert batch[..|batch|] == batch && dbOks[..|batch|] == dbOks;
    }
  }

  // ---------- the database is the replay of the journal ----------

  function Replay(log: Log): Table {
    if log == [] then map[] else Updated(Replay(log[..|log| - 1]), log[|log| - 1].buf)
  }

  /** Every record carries its own message's commit id. */
  ghost predicate Stamped(log: Log) {
    forall i | 0 <= i < |log| :: log[i] == RecordOf(log[i].buf)
  }

  ghost predicate Consistent(r: ReplicaState) {
    Contiguous(r.log) && Stamped(r.log) && r.table == Replay(r.log)
  }

  lemma {:induction false} WriteKeepsConsistent(r: ReplicaState, msg: UpdateBlobMetaMsg, dbOk: bool)
    requires Consistent(r)
    ensures Consistent(MetadataWrite(r, msg, dbOk).0)
    ensures r.log <= MetadataWrite(r, msg, dbOk).0.log
  {
    assert (r.log + [RecordOf(msg)])[..|r.log|] == r.log;
  }

  datatype WriteAttempt = WriteAttempt(msg: UpdateBlobMetaMsg, dbOk: bool)

  function AfterWrites(attempts: seq<WriteAttempt>): ReplicaState {
    if attempts == [] then EMPTY_REPLICA
    else
      var last := attempts[|attempts| - 1];
      MetadataWrite(AfterWrites(attempts[..|attempts| - 1]), last.msg, last.dbOk).0
  }

  /** After any mix of accepted, rejected and failed writes, the journal is contiguous and replays to the database. */
  lemma {:induction false} DatabaseIsReplay(attempts: seq<WriteAttempt>)
    ensures Consistent(AfterWrites(attempts))
  {
    if attempts != [] {
      DatabaseIsReplay(attempts[..|attempts| - 1]);
      var last := attempts[|attempts| - 1];
      WriteKeepsConsistent(AfterWrites(attempts[..|attempts| - 1]), last.msg, last.dbOk);
    }
  }

  /** Replicas with equal journals, however they got there, answer every read with the same list. */
  lemma {:induction false} EqualJournalsEqualAnswers(
      one: seq<WriteAttempt>, other: seq<WriteAttempt>, blobId: Int64, start: Int64, end: Int64,
      ps: seq<BlobKVPair>, qs: seq<BlobKVPair>)
    requires AfterWrites(one).log == AfterWrites(other).log
    requires IsAnswer(AfterWrites(one).table, blobId, start, end, ps)
    requires IsAnswer(AfterWrites(other).table, blobId, start, end, qs)
    ensures ps == qs
  {
    DatabaseIsReplay(one);
    DatabaseIsReplay(other);
    AnswerUnique(AfterWrites(one).table, blobId, start, end, ps, qs);
  }

  // ---------- sync batches ----------

  lemma {:induction false} BatchKeepsConsistent(r: ReplicaState, batch: seq<JournalEntry>, dbOks: seq<bool>)
    requires |dbOks| == |batch| && Consistent(r)
    ensures Consistent(BatchApplied(r, batch, dbOks))
    ensures r.log <= BatchApplied(r, batch, dbOks).log
  {
    if batch != [] {
      var n := |batch| - 1;
      BatchKeepsConsistent(r, batch[..n], dbOks[..n]);
      WriteKeepsConsistent(BatchApplied(r, batch[..n], dbOks[..n]), batch[n].buffer, dbOks[n]);
    }
  }

  /** Ids strictly fall along the batch, and each entry carries its message's own id. */
  ghost predicate NewestFirst(batch: seq<JournalEntry>) {
    && (forall i | 0 <= i < |batch| :: batch[i].entryId == batch[i].buffer.commitId)
    && (forall i, j | 0 <= i < j < |batch| :: batch[j].entryId < batch[i].entryId)
  }

  ghost predicate HasEntry(batch: seq<JournalEntry>, id: int) {
    exists i | 0 <= i < |batch| :: batch[i].entryId == id
  }

  lemma {:induction false} EntryInFrontOrLast(batch: seq<JournalEntry>, id: int)
    requires batch != []
    ensures HasEntry(batch, id) <==> HasEntry(batch[..|batch| - 1], id) || batch[|batch| - 1].entryId == id
  {
    var front := batch[..|batch| - 1];
    if i :| 0 <= i < |batch| && batch[i].entryId == id {
      assert i < |front| ==> front[i].entryId == id;
    }
    if i :| 0 <= i < |front| && front[i].entryId == id {
      assert batch[i].entryId == id;
    }
  }

  /**
   * A batch arrives newest first, against the contiguity check, so however long it is it adds at most one
   * record: with a journal ending at id k, exactly the one with id k+1, if the batch has it.
   */
  lemma {:induction false} BatchAddsExactlyNext(r: ReplicaState, batch: seq<JournalEntry>, dbOks: seq<bool>)
    requires |dbOks| == |batch| && r.log != [] && NewestFirst(batch)
    requires forall i | 0 <= i < |dbOks| :: dbOks[i]
    ensures
      var k := r.log[|r.log| - 1].id;
      var log := BatchApplied(r, batch, dbOks).log;
      if HasEntry(batch, k + 1) then |log| == |r.log| + 1 && log[..|r.log|] == r.log && log[|r.log|].id == k + 1
      else log == r.log
  {
    if batch != [] {
      var n := |batch| - 1;
      var front := batch[..n];
      BatchAddsExactlyNext(r, front, dbOks[..n]);
      var k := r.log[|r.log| - 1].id;
      EntryInFrontOrLast(batch, k + 1);
      if HasEntry(front, k + 1) {
        var i :| 0 <= i < n && front[i].entryId == k + 1;
        assert batch[n].entryId < batch[i].entryId == k + 1;
      }
    }
  }

  /** A replica with an empty journal takes only the newest record of the batch. */
  lemma {:induction false} BatchOnEmptyTakesNewest(table: Table, batch: seq<JournalEntry>, dbOks: seq<bool>)
    requires |dbOks| == |batch| > 0 && NewestFirst(batch)
    requires forall i | 0 <= i < |dbOks| :: dbOks[i]
    ensures BatchApplied(ReplicaState([], table), batch, dbOks).log == [RecordOf(batch[0].buffer)]
  {
    var n := |batch| - 1;
    if n > 0 {
      BatchOnEmptyTakesNewest(table, batch[..n], dbOks[..n]);
    } else {
      assert BatchApplied(ReplicaState([], table), batch[..n], dbOks[..n]) == ReplicaState([], table);
    }
  }

  /**
   * A pull of two or more records always fails: a newest-first batch succeeds exactly if it is empty, or a single
   * record that extends the journal and that the database takes.
   */
  lemma {:induction false} BatchSucceedsIff(r: ReplicaState, batch: seq<JournalEntry>, dbOks: seq<bool>)
    requires |dbOks| == |batch| && NewestFirst(batch)
    ensures BatchSucceeded(r, batch, dbOks) <==>
            batch == [] || (|batch| == 1 && Extends(r.log, batch[0].entryId) && dbOks[0])
  {
    if batch != [] {
      var n := |batch| - 1;
      var front, oks := batch[..n], dbOks[..n];
      BatchSucceedsIff(r, front, oks);
      if n == 1 {
        assert front[..0] == [] && oks[..0] == [] && batch[1].entryId < batch[0].entryId;
        assert BatchApplied(r, front, oks) == MetadataWrite(r, front[0].buffer, oks[0]).0;
      }
    }
  }

  /** What a leader sends is such a batch. */
  lemma {:induction false} PulledBatchNewestFirst(log: Log, fromId: int, toId: int)
    requires Contiguous(log) && Stamped(log)
    ensures NewestFirst(Retrieved(log, fromId, toId))
  {
    if log != [] {
      RetrievedExactly(log, fromId, toId);
      var f := log[0].id;
      var batch, hi := Retrieved(log, fromId, toId), Min(toId, f + |log| - 1);
      forall i | 0 <= i < |batch|
        ensures batch[i].entryId == hi - i == batch[i].buffer.commitId
      {
        assert IsEntryFor(batch[i], log, hi - i);
      }
    }
  }
}
