/**
 * What a leader makes of its peers' reports and failures: whom it records as what, and to whom it sends its writes
 * from then on (src/infra/PBMember.cpp).
 */
module PeerReports {
  import opened Common
  import opened Members
  import opened WriteQuorum
  import opened Replicas
  import opened Elections
  import opened Cluster
  import opened ClientWrites

  // ---------- one report ----------

  /** Whether a report changes what is recorded of a peer: see Members.ReportBelievedExactly. */
  predicate Believed(p: PeerInfo, incoming: int, target: PBMemberState) {
    if target == FollowerWaitToJoinGroup then IsWritable(p) && incoming >= p.version
    else target.IsFollower() && (incoming > p.version || (incoming == p.version && Rank(target) > Rank(p.state)))
  }

  /** The list after one peer has been recorded with a version and a state, if the report is believed. */
  ghost predicate Recorded(
      before: seq<PeerInfo>, after: seq<PeerInfo>, id: MemberId, incoming: int, target: PBMemberState)
  {
    && |after| == |before|
    && forall i | 0 <= i < |before| ::
         after[i] == if before[i].id == id && Believed(before[i], incoming, target)
                     then PeerInfo(id, target, incoming) else before[i]
  }

  lemma {:induction false} NotFound(peers: seq<PeerInfo>, id: MemberId)
    requires FindPeer(peers, id).None?
    ensures forall i | 0 <= i < |peers| :: peers[i].id != id
  {
    if peers != [] {
      NotFound(peers[1..], id);
      assert forall i | 0 < i < |peers| :: peers[i] == peers[1..][i - 1];
    }
  }

  /** A report changes the record of the peer that it names, if it is believed, and of nobody else. */
  lemma {:induction false} ReportRecorded(c: Config, m: Member, id: MemberId, incoming: int, target: PBMemberState)
    requires PeersTracked(c, m)
    ensures
      var m' := AfterReport(c, m, id, incoming, target);
      && m'.leaderCtx.Some? && Recorded(m.leaderCtx.value.peers, m'.leaderCtx.value.peers, id, incoming, target)
      && m' == m.(state := m'.state, leaderCtx := Some(m.leaderCtx.value.(peers := m'.leaderCtx.value.peers)))
  {
    var peers := m.leaderCtx.value.peers;
    if FindPeer(peers, id).None? {
      NotFound(peers, id);
    } else {
      var k := FindPeer(peers, id).value;
      ReportBelievedExactly(peers[k], incoming, target);
      forall i | 0 <= i < |peers| && i != k
        ensures peers[i].id != id
      {
        assert peers[if i < k then i else k].id != peers[if i < k then k else i].id;
      }
    }
  }

  /**
   * The answer to a member that asks to be added: refused for an old term, refused by a member that does not lead, and
   * otherwise granted, and the member recorded with the version and state it reports.
   */
  lemma {:induction false} JoinAnswerIff(
      c: Config, m: Member, termId: int, id: MemberId, version: int, state: PBMemberState)
    requires m.state.IsLeader() ==> InOffice(c, m)
    ensures
      var (m', s) := AddToGroup(c, m, termId, id, version, state);
      && (s == InvalidTerm <==> termId < m.termId)
      && (s == NotLeader <==> termId >= m.termId && !m.state.IsLeader())
      && (s == Ok <==> termId >= m.termId && m.state.IsLeader())
      && (s != Ok ==> m' == m)
      && (s == Ok ==>
            m'.leaderCtx.Some? && Recorded(m.leaderCtx.value.peers, m'.leaderCtx.value.peers, id, version, state))
  {
    if m.state.IsLeader() {
      ReportRecorded(c, m, id, version, state);
    }
  }

  // ---------- the order of reports does not matter ----------

  /** What is recorded stands as high as the report does, by version and then by progress. */
  predicate AtLeast(p: PeerInfo, r: Report) {
    p.version > r.version || (p.version == r.version && Rank(p.state) >= Rank(r.state))
  }

  predicate IsProgress(r: Report) { r.state == FollowerSyncing || r.state == FollowerFunctional }

  lemma {:induction false} ReportsKeepTracking(c: Config, m: Member, reports: seq<Report>)
    requires PeersTracked(c, m)
    ensures PeersTracked(c, AfterReports(c, m, reports))
    ensures |AfterReports(c, m, reports).leaderCtx.value.peers| == |m.leaderCtx.value.peers|
  {
    if reports != [] {
      var front, last := reports[..|reports| - 1], reports[|reports| - 1];
      ReportsKeepTracking(c, m, front);
      ReportKeepsTracking(c, AfterReports(c, m, front), last.id, last.version, last.state);
    }
  }

  /** `p` as it stands after these reports: at least as high as each that names it, and put there by one of them. */
  ghost predicate StandsAfter(first: PeerInfo, p: PeerInfo, reports: seq<Report>) {
    && p.id == first.id && p.state.IsFollower() && AtLeast(p, Report(first.id, first.version, first.state))
    && (forall r | r in reports && r.id == p.id :: AtLeast(p, r))
    && (p == first || Report(p.id, p.version, p.state) in reports)
  }

  lemma {:induction false} StandsAfterOne(
      first: PeerInfo, p: PeerInfo, reports: seq<Report>, last: Report, before: seq<PeerInfo>, after: seq<PeerInfo>,
      i: nat)
    requires StandsAfter(first, p, reports) && IsProgress(last)
    requires Recorded(before, after, last.id, last.version, last.state) && i < |before| && before[i] == p
    ensures StandsAfter(first, after[i], reports + [last])
  {
    assert last in reports + [last];
  }

  /**
   * Joins and sync reports may arrive in any order: what a leader has recorded of a peer afterwards is the highest of
   * what it had recorded and what was reported, by version and then by progress.
   */
  lemma {:induction false} HighestReportStands(c: Config, m: Member, reports: seq<Report>, i: nat)
    requires PeersTracked(c, m) && i < |m.leaderCtx.value.peers|
    requires forall r | r in reports :: IsProgress(r)
    ensures AfterReports(c, m, reports).leaderCtx.Some?
    ensures
      var peers := AfterReports(c, m, reports).leaderCtx.value.peers;
      i < |peers| && StandsAfter(m.leaderCtx.value.peers[i], peers[i], reports)
  {
    if reports != [] {
      var front, last := reports[..|reports| - 1], reports[|reports| - 1];
      assert reports == front + [last];
      HighestReportStands(c, m, front, i);
      ReportsKeepTracking(c, m, front);
      var between := AfterReports(c, m, front);
      ReportRecorded(c, between, last.id, last.version, last.state);
      var peers, peers' := between.leaderCtx.value.peers, AfterReports(c, m, reports).leaderCtx.value.peers;
      StandsAfterOne(m.leaderCtx.value.peers[i], peers[i], front, last, peers, peers', i);
    }
  }

  /** So two leaders that know the same and hear the same reports, in whatever order, know the same again. */
  lemma {:induction false} OrderDoesNotMatter(c: Config, m: Member, one: seq<Report>, other: seq<Report>, i: nat)
    requires PeersTracked(c, m) && i < |m.leaderCtx.value.peers|
    requires forall r :: r in one <==> r in other
    requires forall r | r in one :: IsProgress(r)
    ensures AfterReports(c, m, one).leaderCtx.Some? && AfterReports(c, m, other).leaderCtx.Some?
    ensures
      var here, there := AfterReports(c, m, one).leaderCtx.value.peers, AfterReports(c, m, other).leaderCtx.value.peers;
      i < |here| && i < |there| && here[i] == there[i]
  {
    HighestReportStands(c, m, one, i);
    HighestReportStands(c, m, other, i);
  }

  // ---------- a failed write ----------

  ghost predicate VersionsGrow(before: seq<PeerInfo>, after: seq<PeerInfo>) {
    |after| == |before| && forall i | 0 <= i < |before| :: after[i].id == before[i].id &&
                                                           after[i].version >= before[i].version
  }

  /** The leader has this peer, with the same version or a newer one. */
  ghost predicate Knows(peers: seq<PeerInfo>, prior: PeerInfo) {
    exists i :: 0 <= i < |peers| && peers[i].id == prior.id && peers[i].version >= prior.version
  }

  lemma {:induction false} KnowsLater(before: seq<PeerInfo>, after: seq<PeerInfo>, prior: PeerInfo)
    requires VersionsGrow(before, after) && Knows(before, prior)
    ensures Knows(after, prior)
  {
    var i :| 0 <= i < |before| && before[i].id == prior.id && before[i].version >= prior.version;
    assert after[i].id == prior.id;
  }

  /** What a write remembers of a peer yet to reply is about that peer, and no newer than what the leader knows. */
  ghost predicate WaitingFits(peers: seq<PeerInfo>, waiting: map<MemberId, PeerInfo>) {
    forall from | from in waiting :: waiting[from].id == from && Knows(peers, waiting[from])
  }

  ghost predicate AllWaitingFit(g: Group) {
    && g.leader.leaderCtx.Some?
    && forall id | id in g.writes :: WaitingFits(g.leader.leaderCtx.value.peers, g.writes[id].waiting)
  }

  lemma {:induction false} SentToKnown(peers: seq<PeerInfo>, part: seq<PeerInfo>)
    requires forall p | p in part :: p in peers
    ensures WaitingFits(peers, PeerMap(part))
  {
    if part != [] {
      var n := |part| - 1;
      assert forall p | p in part[..n] :: p in part;
      SentToKnown(peers, part[..n]);
      assert part[n] in peers;
      var i :| 0 <= i < |peers| && peers[i] == part[n];
      assert Knows(peers, part[n]);
    }
  }

  lemma {:induction false} WaitingLater(
      before: seq<PeerInfo>, after: seq<PeerInfo>, waiting: map<MemberId, PeerInfo>, waiting': map<MemberId, PeerInfo>)
    requires VersionsGrow(before, after) && WaitingFits(before, waiting)
    requires forall from | from in waiting' :: from in waiting && waiting'[from] == waiting[from]
    ensures WaitingFits(after, waiting')
  {
    forall from | from in waiting'
      ensures Knows(after, waiting'[from])
    {
      KnowsLater(before, after, waiting[from]);
    }
  }

  lemma {:induction false} StepPeers(g: Group, e: Event)
    requires PeersTracked(g.c, g.leader) && g.c.myId in g.replicas
    ensures Step(g, e).leader.leaderCtx.Some?
    ensures VersionsGrow(g.leader.leaderCtx.value.peers, Step(g, e).leader.leaderCtx.value.peers)
  {
    if e.ClientWrite? {
      ClientWriteEffect(g, e.msg, e.dbOk, Step(g, e));
    } else if e.FailureReply? {
      ReplyPeers(g, e.id, e.from, false);
    } else if e.SuccessReply? {
      ReplyPeers(g, e.id, e.from, true);
    } else if e.Join? {
      ReportKeepsTracking(g.c, g.leader, e.peer, e.version, e.state);
    }
  }

  lemma {:induction false} ReplyPeers(g: Group, id: int, from: MemberId, ok: bool)
    requires PeersTracked(g.c, g.leader)
    ensures ReplyStep(g, id, from, ok).leader.leaderCtx.Some?
    ensures VersionsGrow(g.leader.leaderCtx.value.peers, ReplyStep(g, id, from, ok).leader.leaderCtx.value.peers)
  {
    if id in g.writes && from in g.writes[id].waiting {
      var prior := g.writes[id].waiting[from];
      ReportKeepsTracking(g.c, g.leader, prior.id, prior.version, FollowerWaitToJoinGroup);
    }
  }

  /** Each write afterwards waits for some of those it waited for before, or is the one that the event started. */
  lemma {:induction false} StepWaits(g: Group, e: Event, id: int)
    requires g.c.myId in g.replicas && g.leader.leaderCtx.Some? && id in Step(g, e).writes
    ensures
      var waiting' := Step(g, e).writes[id].waiting;
      || (id in g.writes &&
          forall from | from in waiting' ::
            from in g.writes[id].waiting && waiting'[from] == g.writes[id].waiting[from])
      || (e.ClientWrite? && waiting' == PeerMap(WritablePeers(g.leader.leaderCtx.value.peers)))
  {
    if e.ClientWrite? {
      ClientWriteEffect(g, e.msg, e.dbOk, Step(g, e));
    }
  }

  lemma {:induction false} StepKeepsWaiting(g: Group, e: Event)
    requires PeersTracked(g.c, g.leader) && g.c.myId in g.replicas && AllWaitingFit(g)
    ensures AllWaitingFit(Step(g, e))
  {
    var g' := Step(g, e);
    StepPeers(g, e);
    var before, after := g.leader.leaderCtx.value.peers, g'.leader.leaderCtx.value.peers;
    forall id | id in g'.writes
      ensures WaitingFits(after, g'.writes[id].waiting)
    {
      StepWaits(g, e, id);
      var sent := PeerMap(WritablePeers(before));
      SentToKnown(before, WritablePeers(before));
      WaitingLater(before, after, sent, sent);
      if id in g.writes && forall from | from in g'.writes[id].waiting ::
             from in g.writes[id].waiting && g'.writes[id].waiting[from] == g.writes[id].waiting[from] {
        WaitingLater(before, after, g.writes[id].waiting, g'.writes[id].waiting);
      }
    }
  }

  lemma {:induction false} RunKeepsWaiting(g: Group, events: seq<Event>)
    requires Inv(g) && AllWaitingFit(g)
    ensures AllWaitingFit(Run(g, events))
  {
    if events != [] {
      var n := |events| - 1;
      RunKeepsWaiting(g, events[..n]);
      RunKeeps(g, events[..n]);
      StepKeepsWaiting(Run(g, events[..n]), events[n]);
    }
  }

  /** The list after a failed write to one peer, who waits again if in use and not registered anew meanwhile. */
  ghost predicate Demoted(before: seq<PeerInfo>, after: seq<PeerInfo>, prior: PeerInfo) {
    && |after| == |before|
    && forall i | 0 <= i < |before| ::
         after[i] == if before[i].id == prior.id && IsWritable(before[i]) && before[i].version == prior.version
                     then PeerInfo(prior.id, FollowerWaitToJoinGroup, prior.version) else before[i]
  }

  lemma {:induction false} RecordedIsDemoted(before: seq<PeerInfo>, after: seq<PeerInfo>, prior: PeerInfo)
    requires DistinctPeers(before) && Knows(before, prior)
    requires Recorded(before, after, prior.id, prior.version, FollowerWaitToJoinGroup)
    ensures Demoted(before, after, prior)
  {
    var k :| 0 <= k < |before| && before[k].id == prior.id && before[k].version >= prior.version;
    forall i | 0 <= i < |before| && i != k
      ensures before[i].id != prior.id
    {
      assert before[if i < k then i else k].id != before[if i < k then k else i].id;
    }
  }

  lemma {:induction false} FailureDemotes(g: Group, id: int, from: MemberId)
    requires PeersTracked(g.c, g.leader) && id in g.writes && from in g.writes[id].waiting
    requires WaitingFits(g.leader.leaderCtx.value.peers, g.writes[id].waiting)
    ensures
      var leader := Step(g, FailureReply(id, from)).leader;
      && PeersTracked(g.c, leader) && (leader.state.IsLeader() <==> g.leader.state.IsLeader())
      && Demoted(g.leader.leaderCtx.value.peers, leader.leaderCtx.value.peers, g.writes[id].waiting[from])
  {
    var prior := g.writes[id].waiting[from];
    var leader := Step(g, FailureReply(id, from)).leader;
    assert leader == AfterReport(g.c, g.leader, prior.id, prior.version, FollowerWaitToJoinGroup);
    ReportRecorded(g.c, g.leader, prior.id, prior.version, FollowerWaitToJoinGroup);
    ReportKeepsTracking(g.c, g.leader, prior.id, prior.version, FollowerWaitToJoinGroup);
    RecordedIsDemoted(g.leader.leaderCtx.value.peers, leader.leaderCtx.value.peers, prior);
  }

  lemma {:induction false} ReachedWaits(c: Config, m: Member, functional: seq<Vote>, events: seq<Event>, id: int)
    requires Appointed(c, functional) && id in Reached(c, m, functional, events).writes
    ensures
      var g := Reached(c, m, functional, events);
      && g.c == c && PeersTracked(c, g.leader) && g.c.myId in g.replicas
      && WaitingFits(g.leader.leaderCtx.value.peers, g.writes[id].waiting)
  {
    StartOk(c, m, functional);
    ReachedOk(c, m, functional, events);
    RunKeepsWaiting(Start(c, m, functional), events);
  }

  /**
   * In every run, the failed reply of a peer to a write in progress takes the peer out of use exactly if it is in use
   * and has not registered anew since the write was sent; no other peer is touched; a leader goes on leading, and is
   * functional exactly if quorum-1 peers still are; and the reply of a success changes nothing that it knows or is.
   */
  lemma {:induction false} FailedReplyDemotes(
      c: Config, m: Member, functional: seq<Vote>, events: seq<Event>, id: int, from: MemberId)
    requires Appointed(c, functional)
    requires
      var g := Reached(c, m, functional, events);
      id in g.writes && from in g.writes[id].waiting
    ensures
      var g := Reached(c, m, functional, events);
      var prior := g.writes[id].waiting[from];
      var after := Step(g, FailureReply(id, from)).leader;
      && g.leader.leaderCtx.Some? && after.leaderCtx.Some? && prior.id == from
      && Demoted(g.leader.leaderCtx.value.peers, after.leaderCtx.value.peers, prior)
      && (g.leader.state.IsLeader() ==>
            after.state ==
            if CountIn(after.leaderCtx.value.peers, FollowerFunctional) >= c.quorum - 1
            then LeaderFunctional else LeaderWaitingForQuorum)
    ensures
      var g := Reached(c, m, functional, events);
      Step(g, SuccessReply(id, from)).leader == g.leader
  {
    ReachedWaits(c, m, functional, events, id);
    FailureDemotes(Reached(c, m, functional, events), id, from);
  }

  // ---------- out of use ----------

  /** The leader does not use this peer. */
  ghost predicate OutOfUse(g: Group, from: MemberId) {
    && g.leader.leaderCtx.Some?
    && forall i | 0 <= i < |g.leader.leaderCtx.value.peers| && g.leader.leaderCtx.value.peers[i].id == from ::
         !IsWritable(g.leader.leaderCtx.value.peers[i])
  }

  /** What is on its way to one member. */
  function SentTo(g: Group, to: MemberId): set<Packet> {
    set p | p in g.net && p.to == to
  }

  lemma {:induction false} ReportLeavesOut(g: Group, from: MemberId, m': Member, id: MemberId, v: int, t: PBMemberState)
    requires OutOfUse(g, from) && PeersTracked(g.c, g.leader) && m' == AfterReport(g.c, g.leader, id, v, t)
    requires id != from || t == FollowerWaitToJoinGroup
    ensures OutOfUse(g.(leader := m'), from)
  {
    ReportRecorded(g.c, g.leader, id, v, t);
  }

  lemma {:induction false} WriteLeavesOut(g: Group, msg: UpdateBlobMetaMsg, dbOk: bool, from: MemberId)
    requires g.c.myId in g.replicas && OutOfUse(g, from)
    ensures OutOfUse(Step(g, ClientWrite(msg, dbOk)), from)
    ensures SentTo(Step(g, ClientWrite(msg, dbOk)), from) == SentTo(g, from)
  {
    ClientWriteEffect(g, msg, dbOk, Step(g, ClientWrite(msg, dbOk)));
    var peers := g.leader.leaderCtx.value.peers;
    forall p | p in WritablePeers(peers)
      ensures p.id != from
    {
      assert p in peers;
    }
  }

  lemma {:induction false} ReplyLeavesOut(g: Group, id: int, q: MemberId, ok: bool, from: MemberId)
    requires PeersTracked(g.c, g.leader) && OutOfUse(g, from)
    ensures OutOfUse(ReplyStep(g, id, q, ok), from) && SentTo(ReplyStep(g, id, q, ok), from) == SentTo(g, from)
  {
    if id in g.writes && q in g.writes[id].waiting && !ok {
      var prior := g.writes[id].waiting[q];
      var m' := WriteReplied(g.c, g.leader, prior, false);
      ReportLeavesOut(g, from, m', prior.id, prior.version, FollowerWaitToJoinGroup);
    }
  }

  lemma {:induction false} StepLeavesOut(g: Group, e: Event, from: MemberId)
    requires Inv(g) && OutOfUse(g, from) && !(e.Join? && e.peer == from)
    ensures OutOfUse(Step(g, e), from) && SentTo(Step(g, e), from) == SentTo(g, from)
  {
    match e
    case ClientWrite(msg, dbOk) => WriteLeavesOut(g, msg, dbOk, from);
    case SuccessReply(id, q) => ReplyLeavesOut(g, id, q, true, from);
    case FailureReply(id, q) => ReplyLeavesOut(g, id, q, false, from);
    case Join(termId, peer, version, state) =>
      ReportLeavesOut(g, from, AfterReport(g.c, g.leader, peer, version, state), peer, version, state);
    case _ =>
  }

  /** A peer out of use is sent no write until it asks to be added again, whatever else happens. */
  lemma {:induction false} LeftAloneUntilItJoins(g: Group, events: seq<Event>, from: MemberId)
    requires Inv(g) && OutOfUse(g, from)
    requires forall e | e in events :: !(e.Join? && e.peer == from)
    ensures OutOfUse(Run(g, events), from) && SentTo(Run(g, events), from) == SentTo(g, from)
  {
    if events != [] {
      var n := |events| - 1;
      assert events[n] in events && forall e | e in events[..n] :: e in events;
      LeftAloneUntilItJoins(g, events[..n], from);
      RunKeeps(g, events[..n]);
      StepLeavesOut(Run(g, events[..n]), events[n], from);
    }
  }

  lemma {:induction false} DemotedOutOfUse(g: Group, g': Group, prior: PeerInfo)
    requires g.leader.leaderCtx.Some? && g'.leader.leaderCtx.Some?
    requires Demoted(g.leader.leaderCtx.value.peers, g'.leader.leaderCtx.value.peers, prior)
    requires Current(g, prior)
    ensures OutOfUse(g', prior.id)
  {
  }

  /** The leader has this peer with this very version: it has not registered anew. */
  ghost predicate Current(g: Group, prior: PeerInfo) {
    && g.leader.leaderCtx.Some?
    && forall i | 0 <= i < |g.leader.leaderCtx.value.peers| && g.leader.leaderCtx.value.peers[i].id == prior.id ::
         g.leader.leaderCtx.value.peers[i].version == prior.version
  }

  lemma {:induction false} FailureLeavesOut(g: Group, id: int, from: MemberId)
    requires PeersTracked(g.c, g.leader) && id in g.writes && from in g.writes[id].waiting
    requires WaitingFits(g.leader.leaderCtx.value.peers, g.writes[id].waiting)
    requires Current(g, g.writes[id].waiting[from])
    ensures OutOfUse(Step(g, FailureReply(id, from)), from)
    ensures SentTo(Step(g, FailureReply(id, from)), from) == SentTo(g, from)
  {
    var g' := Step(g, FailureReply(id, from));
    FailureDemotes(g, id, from);
    DemotedOutOfUse(g, g', g.writes[id].waiting[from]);
    assert g'.net == g.net;
  }

  lemma {:induction false} ReachedStepOk(c: Config, m: Member, functional: seq<Vote>, events: seq<Event>, e: Event)
    requires Appointed(c, functional)
    ensures Inv(Step(Reached(c, m, functional, events), e))
  {
    ReachedOk(c, m, functional, events);
    StepKeeps(Reached(c, m, functional, events), e);
  }

  /**
   * In every run, after the failed reply of a peer that has not registered anew since the write was sent, the peer is
   * sent no write until it asks to be added again.
   */
  lemma {:induction false} NotSentToAfterFailure(
      c: Config, m: Member, functional: seq<Vote>, events: seq<Event>, id: int, from: MemberId, later: seq<Event>)
    requires Appointed(c, functional) && forall e | e in later :: !(e.Join? && e.peer == from)
    requires
      var g := Reached(c, m, functional, events);
      id in g.writes && from in g.writes[id].waiting && Current(g, g.writes[id].waiting[from])
    ensures
      var g := Reached(c, m, functional, events);
      var g' := Run(Step(g, FailureReply(id, from)), later);
      OutOfUse(g', from) && SentTo(g', from) == SentTo(g, from)
  {
    var g := Reached(c, m, functional, events);
    ReachedWaits(c, m, functional, events, id);
    FailureLeavesOut(g, id, from);
    ReachedStepOk(c, m, functional, events, FailureReply(id, from));
    LeftAloneUntilItJoins(Step(g, FailureReply(id, from)), later, from);
  }

  /** The leader uses this peer. */
  ghost predicate InUse(peers: seq<PeerInfo>, from: MemberId) {
    exists i :: 0 <= i < |peers| && peers[i].id == from && IsWritable(peers[i])
  }

  lemma {:induction false} InUseIsSentTo(g: Group, from: MemberId, msg: UpdateBlobMetaMsg)
    requires g.c.myId in g.replicas && g.leader.leaderCtx.Some? && InUse(g.leader.leaderCtx.value.peers, from)
    ensures
      var stamped := Stamp(g, msg, true);
      stamped.Some? ==> Packet(from, stamped.value) in Step(g, ClientWrite(msg, true)).net
  {
    var peers := g.leader.leaderCtx.value.peers;
    var i :| 0 <= i < |peers| && peers[i].id == from && IsWritable(peers[i]);
    assert peers[i] in WritablePeers(peers);
    ClientWriteEffect(g, msg, true, Step(g, ClientWrite(msg, true)));
  }

  lemma {:induction false} JoinPutsInUse(g: Group, i: nat, termId: int, version: int)
    requires PeersTracked(g.c, g.leader) && g.leader.state.IsLeader() && g.leader.termId <= termId
    requires i < |g.leader.leaderCtx.value.peers| && g.leader.leaderCtx.value.peers[i].version <= version
    ensures
      var from := g.leader.leaderCtx.value.peers[i].id;
      var leader := Step(g, Join(termId, from, version, FollowerSyncing)).leader;
      leader.leaderCtx.Some? && InUse(leader.leaderCtx.value.peers, from)
  {
    var peers := g.leader.leaderCtx.value.peers;
    var leader := Step(g, Join(termId, peers[i].id, version, FollowerSyncing)).leader;
    ReportRecorded(g.c, g.leader, peers[i].id, version, FollowerSyncing);
    assert leader.leaderCtx.value.peers[i].id == peers[i].id;
  }

  /**
   * In every run, a peer that asks a leader to be added, under a term and a version that are not old, is in use
   * afterwards, and sent the next write that the leader accepts.
   */
  lemma {:induction false} SentToAfterJoin(
      c: Config, m: Member, functional: seq<Vote>, events: seq<Event>, i: nat, termId: int, version: int,
      msg: UpdateBlobMetaMsg)
    requires Appointed(c, functional) && StaysOn(events)
    requires
      var leader := Reached(c, m, functional, events).leader;
      && leader.leaderCtx.Some? && i < |leader.leaderCtx.value.peers|
      && leader.termId <= termId && leader.leaderCtx.value.peers[i].version <= version
    ensures
      var g := Reached(c, m, functional, events);
      var from := g.leader.leaderCtx.value.peers[i].id;
      var g' := Step(g, Join(termId, from, version, FollowerSyncing));
      && g'.leader.leaderCtx.Some? && InUse(g'.leader.leaderCtx.value.peers, from)
      && (Stamp(g', msg, true).Some? ==>
            Packet(from, Stamp(g', msg, true).value) in Step(g', ClientWrite(msg, true)).net)
  {
    var g := Reached(c, m, functional, events);
    var from := g.leader.leaderCtx.value.peers[i].id;
    ReachedOk(c, m, functional, events);
    OfficeThroughout(c, m, functional, events);
    JoinPutsInUse(g, i, termId, version);
    InUseIsSentTo(Step(g, Join(termId, from, version, FollowerSyncing)), from, msg);
  }

  /** A leader left without enough functional peers by a failed reply refuses the next write, and it leaves no trace. */
  lemma {:induction false} RefusesWithoutQuorum(
      c: Config, m: Member, functional: seq<Vote>, events: seq<Event>, id: int, from: MemberId,
      msg: UpdateBlobMetaMsg, dbOk: bool)
    requires Appointed(c, functional) && StaysOn(events)
    requires
      var g' := Step(Reached(c, m, functional, events), FailureReply(id, from));
      g'.leader.leaderCtx.Some? && !EnoughPeers(g')
    ensures
      var g' := Step(Reached(c, m, functional, events), FailureReply(id, from));
      && LeaderOk(g') && Answer(g', msg, dbOk) == Refused(NoQuorum)
      && Step(g', ClientWrite(msg, dbOk)) == g'
  {
    var g := Reached(c, m, functional, events);
    var g' := Step(g, FailureReply(id, from));
    ReachedOk(c, m, functional, events);
    OfficeThroughout(c, m, functional, events);
    StepLeads(g, FailureReply(id, from));
    ReachedStepOk(c, m, functional, events, FailureReply(id, from));
    AnswerIff(g', msg, dbOk);
    RefusedUnnoticed(g', msg, dbOk);
  }
}
