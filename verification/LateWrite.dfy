/**
 * The write that the leader of LateReplies has under way when it steps down: its failed reply finds the check that
 * closes changePeerState_ false (src/infra/PBMember.cpp).
 */
module LateWrites {
  import opened Common
  import opened Members
  import opened WriteQuorum
  import opened Replicas
  import opened Elections
  import opened Cluster
  import Late = LateReplies

  const CONFIG: Config := Config("b", ["b", "a", "c"], 2)

  const APPOINTMENT: seq<Vote> := [
    Vote("b", INVALID_VALUE, 0, FollowerFunctional), Vote("a", INVALID_VALUE, 0, FollowerFunctional),
    Vote("c", INVALID_VALUE, 0, FollowerFunctional)]

  const PEERS: seq<PeerInfo> := [PeerInfo("a", FollowerFunctional, 0), PeerInfo("c", FollowerFunctional, 0)]

  const MESSAGE := UpdateBlobMetaMsg(1, 1, 0, 0, [])

  const LATE: seq<Event> := [ClientWrite(MESSAGE, true), LateSync, FailureReply(0, "c")]

  lemma {:induction false} PeersFound()
    ensures PeersFor(CONFIG.memberIds, "b", APPOINTMENT) == PEERS
  {
    var ids := CONFIG.memberIds;
    assert ids[..2] == ["b", "a"] && ids[..2][..1] == ["b"] && ids[..2][..1][..0] == [];
    var rest := APPOINTMENT[1..];
    assert rest == [APPOINTMENT[1], APPOINTMENT[2]] && rest[1..] == [APPOINTMENT[2]];
    assert FindVote(rest, "a") == Some(APPOINTMENT[1]);
    assert FindVote(rest[1..], "c") == Some(APPOINTMENT[2]);
    assert FindVote(rest, "c") == Some(APPOINTMENT[2]);
    assert PeerOf(APPOINTMENT, "a") == PEERS[0] && PeerOf(APPOINTMENT, "c") == PEERS[1];
    assert PeersFor(ids[..2][..1], "b", APPOINTMENT) == [];
    assert PeersFor(ids[..2], "b", APPOINTMENT) == [PEERS[0]];
    assert [PEERS[0]] + [PEERS[1]] == PEERS;
  }

  lemma {:induction false} AllWritable()
    ensures WritablePeers(PEERS) == PEERS
  {
    assert PEERS[..1] == [PEERS[0]] && PEERS[..1][..0] == [];
    assert WritablePeers(PEERS[..1]) == [PEERS[0]];
    assert [PEERS[0]] + [PEERS[1]] == PEERS;
  }

  lemma {:induction false} BothWaited()
    ensures PeerMap(PEERS) == map["a" := PEERS[0], "c" := PEERS[1]]
  {
    assert PEERS[..1] == [PEERS[0]] && PEERS[..1][..0] == [];
    assert PeerMap(PEERS[..1]) == map["a" := PEERS[0]];
  }

  lemma {:induction false} Demoted(m: Member, m': Member)
    requires m.leaderCtx.Some? && m.leaderCtx.value.peers == PEERS && m.state == FollowerFunctional
    requires m' == WriteReplied(CONFIG, m, PEERS[1], false)
    ensures m'.leaderCtx.Some? && m'.state == FollowerFunctional && !ClosingCheck(CONFIG, m')
  {
    assert PEERS[1..] == [PEERS[1]];
    assert FindPeer(PEERS[1..], "c") == Some(0);
    assert FindPeer(PEERS, "c") == Some(1);
    var after := PEERS[1 := PeerInfo("c", FollowerWaitToJoinGroup, 0)];
    assert after[..1] == [PEERS[0]] && after[..1][..0] == [];
    assert CountIn(after[..1], FollowerFunctional) == 1;
    assert CountIn(after, FollowerFunctional) == 1;
  }

  lemma {:induction false} Writes(g: Group)
    requires g.c == CONFIG && "b" in g.replicas && g.replicas["b"] == EMPTY_REPLICA
    requires g.leader.state == LeaderFunctional
    requires g.leader.leaderCtx == Some(LeaderCtx(INVALID_VALUE, INVALID_VALUE, PEERS))
    ensures Stamp(g, MESSAGE, true) == Some(MESSAGE)
    ensures
      var g' := ClientWriteStep(g, MESSAGE, true);
      && g'.c == CONFIG && g'.leader.leaderCtx.Some? && g'.leader.leaderCtx.value.peers == PEERS
      && 0 in g'.writes && "c" in g'.writes[0].waiting && g'.writes[0].waiting["c"] == PEERS[1]
  {
    AllWritable();
    BothWaited();
    AcceptedWrite(g, MESSAGE);
  }

  lemma {:induction false} ThreeSteps(g: Group, a: Event, b: Event, c: Event)
    ensures Run(g, [a, b, c]) == Step(Step(Step(g, a), b), c)
  {
    assert [a, b, c][..2] == [a, b] && [a, b][..1] == [a] && [a][..0] == [];
    assert Run(g, [a]) == Step(g, a);
    assert Run(g, [a, b]) == Step(Step(g, a), b);
  }

  lemma {:induction false} ReplyIsLate(g: Group)
    requires g.c == CONFIG && g.leader.leaderCtx.Some? && g.leader.leaderCtx.value.peers == PEERS
    requires 0 in g.writes && "c" in g.writes[0].waiting && g.writes[0].waiting["c"] == PEERS[1]
    ensures
      var leader := Step(Step(g, LateSync), FailureReply(0, "c")).leader;
      leader.leaderCtx.Some? && leader.state == FollowerFunctional && !ClosingCheck(CONFIG, leader)
  {
    var g1 := Step(g, LateSync);
    Demoted(g1.leader, Step(g1, FailureReply(0, "c")).leader);
  }

  lemma {:induction false} RunFails(g: Group)
    requires g.c == CONFIG && "b" in g.replicas && g.replicas["b"] == EMPTY_REPLICA
    requires g.leader.state == LeaderFunctional
    requires g.leader.leaderCtx == Some(LeaderCtx(INVALID_VALUE, INVALID_VALUE, PEERS))
    ensures
      var leader := Run(g, LATE).leader;
      leader.leaderCtx.Some? && leader.state == FollowerFunctional && !ClosingCheck(CONFIG, leader)
  {
    Writes(g);
    ReplyIsLate(ClientWriteStep(g, MESSAGE, true));
    ThreeSteps(g, ClientWrite(MESSAGE, true), LateSync, FailureReply(0, "c"));
  }

  lemma {:induction false} Starts()
    ensures
      var g := Start(CONFIG, Late.B_SYNCING, APPOINTMENT);
      && g.c == CONFIG && "b" in g.replicas && g.replicas["b"] == EMPTY_REPLICA && g.leader.state == LeaderFunctional
      && g.leader.leaderCtx == Some(LeaderCtx(INVALID_VALUE, INVALID_VALUE, PEERS))
  {
    PeersFound();
    assert CONFIG.memberIds[0] == "b";
  }

  lemma {:induction false} AppointedB()
    ensures Appointed(CONFIG, APPOINTMENT)
    ensures Start(CONFIG, Late.B_SYNCING, APPOINTMENT).leader == Late.B_LEADS.m
  {
    assert MarkFunctional(Late.SECOND.answers) == APPOINTMENT;
    assert Late.GROUP.ConfigOf("b") == CONFIG;
  }

  /**
   * The leader is b of LateReplies at the moment before its sync ends. It sends a write to its two functional peers,
   * its sync ends, and the failed reply of one leaves the other, a quorum, to a member that does not lead.
   */
  lemma {:induction false} ClosingCheckFails()
    ensures Appointed(CONFIG, APPOINTMENT)
    ensures Start(CONFIG, Late.B_SYNCING, APPOINTMENT).leader == Late.B_LEADS.m
    ensures Stamp(Start(CONFIG, Late.B_SYNCING, APPOINTMENT), MESSAGE, true) == Some(MESSAGE)
    ensures
      var leader := Reached(CONFIG, Late.B_SYNCING, APPOINTMENT, LATE).leader;
      leader.leaderCtx.Some? && leader.state == FollowerFunctional && !ClosingCheck(CONFIG, leader)
  {
    AppointedB();
    Starts();
    Writes(Start(CONFIG, Late.B_SYNCING, APPOINTMENT));
    RunFails(Start(CONFIG, Late.B_SYNCING, APPOINTMENT));
  }
}
