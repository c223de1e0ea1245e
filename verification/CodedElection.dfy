/**
 * The election with the answers that members really give, which all report the same commit id: who is elected, and
 * when the elected member holds the writes whose success was reported (src/infra/PBMember.cpp).
 */
module CodedElections {
  import opened Common
  import opened Journals
  import opened Members
  import opened WriteQuorum
  import opened Replicas
  import opened Elections
  import opened Cluster

  // ---------- who holds a write ----------

  lemma {:induction false} HoldsIffHasId(g: Group, p: MemberId, id: int)
    requires Inv(g) && p in g.replicas && HasId(LeaderLog(g), id)
    ensures RecordAt(LeaderLog(g), id) in g.replicas[p].log <==> HasId(g.replicas[p].log, id)
  {
    assert Follows(g.replicas[p], LeaderLog(g));
    SliceContiguous(g.replicas[p].log, LeaderLog(g));
    if HasId(g.replicas[p].log, id) {
      SameRecordAt(g.replicas[p].log, LeaderLog(g), id);
    }
    HoldsIsMembership(g.replicas[p].log, RecordAt(LeaderLog(g), id));
  }

  /** Whether the member with this id holds the leader's record of a write. */
  ghost predicate HoldsWrite(g: Group, p: MemberId, id: int)
    requires HasId(LeaderLog(g), id)
  {
    p in g.replicas && RecordAt(LeaderLog(g), id) in g.replicas[p].log
  }

  lemma {:induction false} HoldsWriteIff(g: Group, p: MemberId, id: int)
    requires Inv(g) && p in g.c.memberIds && HasId(LeaderLog(g), id)
    ensures p in g.replicas && (HoldsWrite(g, p, id) <==> HasId(g.replicas[p].log, id))
  {
    assert p in MemberSet(g.c);
    HoldsIffHasId(g, p, id);
  }

  /** With the answers as coded, the elected member holds a write exactly if the first to have answered has its id. */
  lemma {:induction false} ElectedHoldsIff(
      g: Group, may: set<MemberId>, replies: seq<Option<Vote>>, first: nat, id: int)
    requires Inv(g) && HasId(LeaderLog(g), id) && Electing(g.c, may, replies) && FirstAnswer(replies, first)
    ensures g.c.memberIds[first] in g.replicas
    ensures HoldsWrite(g, Elected(replies, g.c.quorum).value, id) <==> HasId(g.replicas[g.c.memberIds[first]].log, id)
  {
    FirstToAnswerIsElected(g.c, replies, first);
    HoldsWriteIff(g, g.c.memberIds[first], id);
  }

  /**
   * Who may answer in the next election: the session of the member that led has ended, so it does not answer unless
   * it has started afresh; of the others anybody may. Who has started afresh has an empty journal.
   */
  function MayAnswer(c: Config, restarted: set<MemberId>): set<MemberId> {
    if c.myId in restarted then MemberSet(c) else MemberSet(c) - {c.myId}
  }

  /** The members that still hold a write. */
  ghost function StillHold(g: Group, restarted: set<MemberId>, id: int): (holders: set<MemberId>)
    requires HasId(LeaderLog(g), id)
    ensures forall p :: p in holders <==> HoldsWrite(g, p, id) && p !in restarted
  {
    (set p | p in g.replicas && HoldsWrite(g, p, id)) - restarted
  }

  /** Whichever quorum answers next, the elected member still holds the write. */
  ghost predicate ElectionSafe(g: Group, restarted: set<MemberId>, id: int)
    requires HasId(LeaderLog(g), id)
  {
    AlwaysElects(g.c, MayAnswer(g.c, restarted), StillHold(g, restarted, id))
  }

  /**
   * Exactly when the next election is safe for a write whose success was reported, in a group that can arise, after
   * its leader's session has ended and some members have restarted: if and only if each member that may answer, and
   * makes a quorum with those after it in the list that may, has the write's id in its journal and has not restarted.
   */
  lemma {:induction false} SucceededWriteSafeIff(
      c: Config, m: Member, functional: seq<Vote>, events: seq<Event>, id: int, restarted: set<MemberId>)
    requires Appointed(c, functional) && Succeeded(Reached(c, m, functional, events), id)
    ensures
      var g := Reached(c, m, functional, events);
      && g.c == c && g.replicas.Keys == MemberSet(c) && HasId(LeaderLog(g), id)
      && (ElectionSafe(g, restarted, id) <==>
          forall i: nat | Electable(c.memberIds, MayAnswer(c, restarted), c.quorum, i) ::
            && c.memberIds[i] !in restarted
            && c.memberIds[i] in g.replicas && HasId(g.replicas[c.memberIds[i]].log, id))
  {
    var g := Reached(c, m, functional, events);
    ReachedOk(c, m, functional, events);
    SuccessMeansHeld(g, id);
    var may := MayAnswer(c, restarted);
    AlwaysElectsIff(c, may, StillHold(g, restarted, id));
    forall i: nat | i < |c.memberIds|
      ensures c.memberIds[i] in StillHold(g, restarted, id) <==>
              && c.memberIds[i] !in restarted
              && c.memberIds[i] in g.replicas && HasId(g.replicas[c.memberIds[i]].log, id)
    {
      HoldsWriteIff(g, c.memberIds[i], id);
    }
  }

  /** What a leader that has restarted adds: near enough to the front of the list it makes every write unsafe. */
  lemma {:induction false} RestartedLeaderUnsafe(g: Group, restarted: set<MemberId>, id: int, i: nat)
    requires HasId(LeaderLog(g), id) && g.c.myId in restarted
    requires i < |g.c.memberIds| && g.c.memberIds[i] == g.c.myId && i + g.c.quorum <= |g.c.memberIds|
    ensures !ElectionSafe(g, restarted, id)
  {
    EverybodyCounts(g.c.memberIds, MayAnswer(g.c, restarted), i);
    assert Electable(g.c.memberIds, MayAnswer(g.c, restarted), g.c.quorum, i);
    AlwaysElectsIff(g.c, MayAnswer(g.c, restarted), StillHold(g, restarted, id));
  }

  lemma {:induction false} EverybodyCounts(memberIds: seq<MemberId>, may: set<MemberId>, first: nat)
    requires first <= |memberIds| && forall p | p in memberIds :: p in may
    ensures CountFrom(memberIds, may, first) == |memberIds| - first
  {
    if first < |memberIds| {
      EverybodyCounts(memberIds[..|memberIds| - 1], may, first);
    }
  }

  // ---------- a write that is lost ----------

  const LOSS_CONFIG := Config("b", ["a", "b", "c"], 2)

  const LOSS_APPOINTMENT :=
    [Vote("b", INVALID_VALUE, 0, FollowerFunctional), Vote("c", INVALID_VALUE, 0, FollowerFunctional)]

  const LOSS_MESSAGE := UpdateBlobMetaMsg(1, 1, 0, 0, [BlobKVPair(0, "x")])

  const LOSS_RUN := [
    ClientWrite(LOSS_MESSAGE, true),
    Deliver("c", LOSS_MESSAGE, true),
    SuccessReply(0, "c")]

  const LOSS_PEERS := [PeerInfo("a", FollowerWaitToJoinGroup, INVALID_VALUE), PeerInfo("c", FollowerFunctional, 0)]

  lemma {:induction false} LossPeerOf()
    ensures PeerOf(LOSS_APPOINTMENT, "a") == LOSS_PEERS[0] && PeerOf(LOSS_APPOINTMENT, "c") == LOSS_PEERS[1]
  {
    var votes := LOSS_APPOINTMENT;
    var rest := votes[1..];
    assert rest == [votes[1]] && rest[1..] == [];
    assert FindVote(rest[1..], "a") == None;
    assert FindVote(rest, "a") == None && FindVote(rest, "c") == Some(votes[1]);
  }

  lemma {:induction false} LossPeers()
    ensures PeersFor(LOSS_CONFIG.memberIds, "b", LOSS_APPOINTMENT) == LOSS_PEERS
  {
    LossPeerOf();
    var ids, votes := LOSS_CONFIG.memberIds, LOSS_APPOINTMENT;
    assert ids[..2] == ["a", "b"] && ids[..2][..1] == ["a"] && ids[..2][..1][..0] == [];
    assert PeersFor(ids[..2][..1], "b", votes) == [LOSS_PEERS[0]];
    assert PeersFor(ids[..2], "b", votes) == [LOSS_PEERS[0]];
    assert [LOSS_PEERS[0]] + [LOSS_PEERS[1]] == LOSS_PEERS;
  }

  lemma {:induction false} LossWritable()
    ensures WritablePeers(LOSS_PEERS) == [LOSS_PEERS[1]] && PeerMap([LOSS_PEERS[1]]) == map["c" := LOSS_PEERS[1]]
  {
    assert LOSS_PEERS[..1] == [LOSS_PEERS[0]] && LOSS_PEERS[..1][..0] == [];
    assert WritablePeers(LOSS_PEERS[..1]) == [];
    assert [LOSS_PEERS[1]][..0] == [];
  }

  lemma {:induction false} LossWrites(g: Group)
    requires g.c == LOSS_CONFIG && g.leader.state == LeaderFunctional
    requires g.leader.leaderCtx == Some(LeaderCtx(INVALID_VALUE, INVALID_VALUE, LOSS_PEERS))
    requires g.replicas == map id | id in LOSS_CONFIG.memberIds :: EMPTY_REPLICA
    ensures Stamp(g, LOSS_MESSAGE, true) == Some(LOSS_MESSAGE)
    ensures
      var g' := ClientWriteStep(g, LOSS_MESSAGE, true);
      && g'.c == LOSS_CONFIG && g'.leader.leaderCtx.Some? && Packet("c", LOSS_MESSAGE) in g'.net
      && "a" in g'.replicas && "c" in g'.replicas && g'.replicas["a"].log == [] && g'.replicas["c"].log == []
      && LeaderLog(g') == [RecordOf(LOSS_MESSAGE)]
      && 0 in g'.writes && g'.writes[0].w == NewWrite(1) && "c" in g'.writes[0].waiting
      && g'.leader.state == LeaderFunctional && g'.leader.leaderCtx.value == LeaderCtx(0, 0, LOSS_PEERS)
  {
    LossWritable();
    assert LOSS_PEERS[1] in WritablePeers(LOSS_PEERS);
    assert LOSS_CONFIG.memberIds[0] == "a" && LOSS_CONFIG.memberIds[1] == "b" && LOSS_CONFIG.memberIds[2] == "c";
    AcceptedWrite(g, LOSS_MESSAGE);
  }

  lemma {:induction false} LossDelivers(g: Group)
    requires g.c == LOSS_CONFIG && "a" in g.replicas && "c" in g.replicas && Packet("c", LOSS_MESSAGE) in g.net
    requires g.replicas["a"].log == [] && g.replicas["c"].log == [] && g.leader.leaderCtx.Some?
    requires 0 in g.writes && g.writes[0].w == NewWrite(1) && "c" in g.writes[0].waiting
    ensures
      var g' := Step(Step(g, Deliver("c", LOSS_MESSAGE, true)), SuccessReply(0, "c"));
      && Succeeded(g', 0) && LeaderLog(g') == LeaderLog(g) && g'.c == g.c
      && "a" in g'.replicas && g'.replicas["a"].log == []
      && "c" in g'.replicas && g'.replicas["c"].log == [RecordOf(LOSS_MESSAGE)]
      && g'.leader == g.leader
  {
    var g1 := Step(g, Deliver("c", LOSS_MESSAGE, true));
    assert ("c", 0) in g1.oks && g1.writes == g.writes && g1.leader == g.leader;
    var g2 := Step(g1, SuccessReply(0, "c"));
    assert g2.writes[0].w == OnReply(NewWrite(1), 2, true);
  }

  lemma {:induction false} ThreeSteps(g: Group, a: Event, b: Event, c: Event)
    ensures Run(g, [a, b, c]) == Step(Step(Step(g, a), b), c)
  {
    assert [a, b, c][..2] == [a, b] && [a, b][..1] == [a] && [a][..0] == [];
    assert Run(g, [a]) == Step(g, a);
    assert Run(g, [a, b]) == Step(Step(g, a), b);
  }

  lemma {:induction false} LossStart()
    ensures Appointed(LOSS_CONFIG, LOSS_APPOINTMENT)
    ensures
      var g := Start(LOSS_CONFIG, FRESH, LOSS_APPOINTMENT);
      && g.c == LOSS_CONFIG && g.leader.state == LeaderFunctional
      && g.leader.leaderCtx == Some(LeaderCtx(INVALID_VALUE, INVALID_VALUE, LOSS_PEERS))
      && g.replicas == map id | id in LOSS_CONFIG.memberIds :: EMPTY_REPLICA
  {
    LossPeers();
  }

  lemma {:induction false} LossSucceeds(start: Group)
    requires start.c == LOSS_CONFIG && start.leader.state == LeaderFunctional
    requires start.leader.leaderCtx == Some(LeaderCtx(INVALID_VALUE, INVALID_VALUE, LOSS_PEERS))
    requires start.replicas == map id | id in LOSS_CONFIG.memberIds :: EMPTY_REPLICA
    ensures Stamp(start, LOSS_MESSAGE, true) == Some(LOSS_MESSAGE)
    ensures
      var g := Run(start, LOSS_RUN);
      && g.c == LOSS_CONFIG && Succeeded(g, 0) && LeaderLog(g) == [RecordOf(LOSS_MESSAGE)]
      && "a" in g.replicas && g.replicas["a"].log == []
      && "c" in g.replicas && g.replicas["c"].log == [RecordOf(LOSS_MESSAGE)]
      && g.leader.state == LeaderFunctional && g.leader.leaderCtx == Some(LeaderCtx(0, 0, LOSS_PEERS))
  {
    LossWrites(start);
    LossDelivers(ClientWriteStep(start, LOSS_MESSAGE, true));
    ThreeSteps(start, ClientWrite(LOSS_MESSAGE, true), Deliver("c", LOSS_MESSAGE, true), SuccessReply(0, "c"));
  }

  /** What a and c answer: a waits to join, c is the elector; b, which led, is down. */
  const LOSS_VOTES: seq<Vote> := [
    Vote("a", INVALID_VALUE, 0, FollowerWaitToJoinGroup), Vote("c", INVALID_VALUE, 0, EcElectionInProgress)]

  const LOSS_REPLIES: seq<Option<Vote>> := [Some(LOSS_VOTES[0]), None, Some(LOSS_VOTES[1])]

  lemma {:induction false} LossElects()
    ensures Electing(LOSS_CONFIG, MayAnswer(LOSS_CONFIG, {}), LOSS_REPLIES)
    ensures Elected(LOSS_REPLIES, LOSS_CONFIG.quorum) == Some("a")
    ensures Tally(LOSS_REPLIES) == map[INVALID_VALUE := LOSS_VOTES]
  {
    var r := LOSS_REPLIES;
    assert r[..2] == [r[0], r[1]] && r[..2][..1] == [r[0]] && r[..2][..1][..0] == [];
    assert Answered(r[..2][..1]) == [LOSS_VOTES[0]];
    assert Answered(r[..2]) == [LOSS_VOTES[0]];
    assert Answered(r) == LOSS_VOTES;
    TallyAsCoded(r);
    FirstToAnswerIsElected(LOSS_CONFIG, r, 0);
    assert LOSS_CONFIG.memberIds[0] == "a" && LOSS_CONFIG.memberIds[2] == "c";
    assert "a" in LOSS_CONFIG.memberIds && "c" in LOSS_CONFIG.memberIds;
  }

  /**
   * The leader b writes with the help of c, the write succeeds, and b ends. The answers of a and c to the next
   * election elect a, whose journal is empty.
   */
  lemma {:induction false} ElectionLosesWrite()
    ensures Appointed(LOSS_CONFIG, LOSS_APPOINTMENT)
    ensures Stamp(Start(LOSS_CONFIG, FRESH, LOSS_APPOINTMENT), LOSS_MESSAGE, true) == Some(LOSS_MESSAGE)
    ensures
      var g := Reached(LOSS_CONFIG, FRESH, LOSS_APPOINTMENT, LOSS_RUN);
      && Succeeded(g, 0) && LeaderLog(g) == [RecordOf(LOSS_MESSAGE)]
      && Electing(g.c, MayAnswer(g.c, {}), LOSS_REPLIES) && Elected(LOSS_REPLIES, g.c.quorum) == Some("a")
      && "a" in g.replicas && g.replicas["a"].log == []
  {
    LossStart();
    LossSucceeds(Start(LOSS_CONFIG, FRESH, LOSS_APPOINTMENT));
    LossElects();
  }
}
