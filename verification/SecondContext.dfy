/**
 * What becomes of a journal when its member takes office after another leader: the new leader context numbers writes
 * from the beginning again (src/infra/PBMember.cpp, src/infra/PBMember.tcc).
 */
module SecondContexts {
  import opened Common
  import opened Journals
  import opened Members
  import opened WriteQuorum
  import opened Replicas
  import opened Elections
  import opened Cluster
  import opened CodedElections

  /** The member and its replica after these client writes, the database taking all it is given. */
  function AfterClientWrites(m: Member, r: ReplicaState, msgs: seq<UpdateBlobMetaMsg>): (Member, ReplicaState)
    requires m.leaderCtx.Some?
    ensures AfterClientWrites(m, r, msgs).0.leaderCtx.Some?
  {
    if msgs == [] then (m, r)
    else
      var n := |msgs| - 1;
      var (m', r') := AfterClientWrites(m, r, msgs[..n]);
      var next := LeaderWrite(m', r', msgs[n], true);
      (next.0, next.1)
  }

  /** A leader in a context in which nothing has been written yet. */
  predicate FreshContext(m: Member) {
    && m.state == LeaderFunctional && m.leaderCtx.Some?
    && m.leaderCtx.value.opId == INVALID_VALUE && m.leaderCtx.value.commitId == INVALID_VALUE
  }

  /** The first k+1 writes over a journal that ends at k are refused, and leave the replica as it is. */
  lemma {:induction false} FirstWritesRefused(m: Member, r: ReplicaState, msgs: seq<UpdateBlobMetaMsg>)
    requires FreshContext(m) && r.log != [] && r.log[|r.log| - 1].id >= 0
    requires |msgs| <= r.log[|r.log| - 1].id + 1
    ensures
      var (m', r') := AfterClientWrites(m, r, msgs);
      && r' == r && m'.state == LeaderFunctional
      && m'.leaderCtx == Some(LeaderCtx(|msgs| - 1, |msgs| - 1, m.leaderCtx.value.peers))
  {
    if msgs != [] {
      FirstWritesRefused(m, r, msgs[..|msgs| - 1]);
    }
  }

  /**
   * Exactly which write is the first to be accepted: over a journal that ends at k, and after writes that were all
   * refused, the next is accepted if and only if it is the one with id k+1. Until then there is no progress.
   */
  lemma {:induction false} FirstAcceptedIff(
      m: Member, r: ReplicaState, msgs: seq<UpdateBlobMetaMsg>, msg: UpdateBlobMetaMsg)
    requires FreshContext(m) && r.log != [] && r.log[|r.log| - 1].id >= 0
    requires |msgs| <= r.log[|r.log| - 1].id + 1
    ensures
      var (m', r') := AfterClientWrites(m, r, msgs);
      var stamped := msg.(opId := |msgs|, commitId := |msgs|);
      var (_, r'', outcome) := LeaderWrite(m', r', msg, true);
      && (outcome.Replicating? <==> |msgs| == r.log[|r.log| - 1].id + 1)
      && r''.log == if outcome.Replicating? then r.log + [RecordOf(stamped)] else r.log
  {
    FirstWritesRefused(m, r, msgs);
  }

  /**
   * The write that is accepted then takes an id that another member may hold from the first context: p and q, slices
   * of one journal, hold different records under one id, and nothing in either journal tells.
   */
  lemma {:induction false} ContextsDisagree(
      g: Group, p: MemberId, q: MemberId, m: Member, msgs: seq<UpdateBlobMetaMsg>, msg: UpdateBlobMetaMsg)
    requires p in g.replicas && q in g.replicas && FreshContext(m)
    requires g.replicas[p].log != []
    requires
      var k := g.replicas[p].log[|g.replicas[p].log| - 1].id;
      && k >= 0 && HasId(g.replicas[q].log, k + 1) && |msgs| == k + 1
      && RecordAt(g.replicas[q].log, k + 1).buf.chunkList != msg.chunkList
    ensures
      var (m', r') := AfterClientWrites(m, g.replicas[p], msgs);
      var log := LeaderWrite(m', r', msg, true).1.log;
      var k := g.replicas[p].log[|g.replicas[p].log| - 1].id;
      && |log| == |g.replicas[p].log| + 1 && log[|log| - 1].id == k + 1
      && log[|log| - 1] != RecordAt(g.replicas[q].log, k + 1)
  {
    FirstAcceptedIff(m, g.replicas[p], msgs, msg);
  }

  // ---------- such a run ----------

  const SECOND_MESSAGE := UpdateBlobMetaMsg(1, 1, 1, 1, [BlobKVPair(0, "y")])

  /** a catches up with the first write, and misses the second, which succeeds. */
  const MORE := [SyncEntry("a", 0, true), ClientWrite(SECOND_MESSAGE, true), Deliver("c", SECOND_MESSAGE, true)]

  lemma {:induction false} ThreeMore(g: Group, a: Event, b: Event, c: Event)
    ensures Run(g, [a, b, c]) == Step(Step(Step(g, a), b), c)
  {
    ThreeSteps(g, a, b, c);
  }

  lemma {:induction false} SecondWrite(g: Group)
    requires g.c == LOSS_CONFIG && LeaderLog(g) == [RecordOf(LOSS_MESSAGE)]
    requires g.leader.state == LeaderFunctional && g.leader.leaderCtx == Some(LeaderCtx(0, 0, LOSS_PEERS))
    requires "b" in g.replicas && "a" in g.replicas && "c" in g.replicas
    requires g.replicas["a"].log == [RecordOf(LOSS_MESSAGE)] && g.replicas["c"].log == [RecordOf(LOSS_MESSAGE)]
    ensures
      var g' := Step(Step(g, ClientWrite(SECOND_MESSAGE, true)), Deliver("c", SECOND_MESSAGE, true));
      && g'.c == LOSS_CONFIG && "a" in g'.replicas && "c" in g'.replicas
      && g'.replicas["a"].log == [RecordOf(LOSS_MESSAGE)]
      && g'.replicas["c"].log == [RecordOf(LOSS_MESSAGE), RecordOf(SECOND_MESSAGE)]
      && 1 in g'.writes && g'.writes[1].w == NewWrite(1) && "c" in g'.writes[1].waiting && ("c", 1) in g'.oks
      && g'.leader.leaderCtx.Some?
  {
    LossWritable();
    assert LOSS_PEERS[1] in WritablePeers(LOSS_PEERS);
    AcceptedWrite(g, SECOND_MESSAGE);
    var g1 := ClientWriteStep(g, SECOND_MESSAGE, true);
    assert Packet("c", SECOND_MESSAGE) in g1.net;
    assert g1.replicas["c"] == g.replicas["c"];
  }

  lemma {:induction false} CatchesUp(g: Group)
    requires g.c == LOSS_CONFIG && LeaderLog(g) == [RecordOf(LOSS_MESSAGE)]
    requires "b" in g.replicas && "a" in g.replicas && "c" in g.replicas && g.replicas["a"].log == []
    ensures
      var g' := Step(g, SyncEntry("a", 0, true));
      && g'.c == g.c && g'.leader == g.leader && g'.writes == g.writes && LeaderLog(g') == LeaderLog(g)
      && "b" in g'.replicas && "a" in g'.replicas && "c" in g'.replicas
      && g'.replicas["a"].log == [RecordOf(LOSS_MESSAGE)] && g'.replicas["c"] == g.replicas["c"]
  {
  }

  lemma {:induction false} SecondSucceeds(g: Group)
    requires g.c == LOSS_CONFIG && g.leader.leaderCtx.Some? && ("c", 1) in g.oks
    requires 1 in g.writes && g.writes[1].w == NewWrite(1) && "c" in g.writes[1].waiting
    ensures Succeeded(Step(g, SuccessReply(1, "c")), 1)
    ensures Step(g, SuccessReply(1, "c")).replicas == g.replicas
  {
    assert Step(g, SuccessReply(1, "c")).writes[1].w == OnReply(NewWrite(1), 2, true);
  }

  /** What the first context leaves behind: a with one record, c with two, both writes successful. */
  lemma {:induction false} TwoWritesSucceed() returns (g: Group)
    ensures g == Reached(LOSS_CONFIG, FRESH, LOSS_APPOINTMENT, LOSS_RUN + MORE + [SuccessReply(1, "c")])
    ensures Appointed(LOSS_CONFIG, LOSS_APPOINTMENT) && Succeeded(g, 1)
    ensures "a" in g.replicas && g.replicas["a"].log == [RecordOf(LOSS_MESSAGE)]
    ensures "c" in g.replicas && g.replicas["c"].log == [RecordOf(LOSS_MESSAGE), RecordOf(SECOND_MESSAGE)]
  {
    LossStart();
    var start := Start(LOSS_CONFIG, FRESH, LOSS_APPOINTMENT);
    LossSucceeds(start);
    RunAppend(start, LOSS_RUN, MORE);
    RunAppend(start, LOSS_RUN + MORE, [SuccessReply(1, "c")]);
    var g0 := Run(start, LOSS_RUN);
    ThreeMore(g0, SyncEntry("a", 0, true), ClientWrite(SECOND_MESSAGE, true), Deliver("c", SECOND_MESSAGE, true));
    LossHasB(g0);
    CatchesUp(g0);
    SecondWrite(Step(g0, SyncEntry("a", 0, true)));
    g := Run(g0, MORE);
    SecondSucceeds(g);
    assert [SuccessReply(1, "c")][..0] == [];
    g := Step(g, SuccessReply(1, "c"));
  }

  lemma {:induction false} LossHasB(g: Group)
    requires g.c == LOSS_CONFIG && LeaderLog(g) != []
    ensures "b" in g.replicas
  {
  }

  /** a as it takes office next, elected by its own vote and c's. */
  const NEXT_LEADER: Member := TakeOffice(Config("a", ["a", "b", "c"], 2), FRESH, [
    Vote("a", INVALID_VALUE, 0, FollowerFunctional), Vote("c", INVALID_VALUE, 0, FollowerFunctional)])

  /**
   * A run with two leaders after which the same id stands for two records: c keeps the second write of the first
   * leader, whose success was reported, and a has its own second write under that id.
   */
  lemma {:induction false} SameIdTwoRecords(x: UpdateBlobMetaMsg, y: UpdateBlobMetaMsg)
    requires y.chunkList != SECOND_MESSAGE.chunkList
    ensures
      var g := Reached(LOSS_CONFIG, FRESH, LOSS_APPOINTMENT, LOSS_RUN + MORE + [SuccessReply(1, "c")]);
      && Succeeded(g, 1) && "a" in g.replicas && "c" in g.replicas
      && var a := AfterClientWrites(NEXT_LEADER, g.replicas["a"], [x, y]).1.log;
      && |a| == 2 && |g.replicas["c"].log| == 2
      && a[1].id == 1 == g.replicas["c"].log[1].id && a[1] != g.replicas["c"].log[1] && a[0] == g.replicas["c"].log[0]
  {
    var g := TwoWritesSucceed();
    assert [x, y][..1] == [x];
    FirstAcceptedIff(NEXT_LEADER, g.replicas["a"], [x], y);
  }
}
