/**
 * What reports, failures and late replies do to a leader in the running protocol, and that it is what they do to the
 * leader of Cluster (src/infra/PBMember.cpp).
 */
module LeaderEvents {
  import opened Common
  import opened Members
  import opened LockProtocol
  import opened Offices
  import opened PeerReports
  import Cluster

  // ---------- one leader, two models ----------

  /** The same thing happens to the leader. */
  predicate Corresponds(g: Cluster.Group, e: Cluster.Event, f: Event) {
    match e
    case Join(termId, peer, version, state) =>
      || (f.JoinArrives? && f.termId == termId && f.id == peer && f.peerVersion == version && f.state == state)
      || (f.SyncRequestArrives? && f.termId == termId && f.follower == peer && f.peerVersion == version &&
          state == FollowerSyncing)
    case SuccessReply(id, from) => f.WriteReply? && f.ok && Awaited(g, id, from, f.prior) && (from, id) in g.oks
    case FailureReply(id, from) => f.WriteReply? && !f.ok && Awaited(g, id, from, f.prior)
    case LateSync => f.SyncDone?
    case LateRemoval => f.RemovalReply?
    case _ => false
  }

  predicate Awaited(g: Cluster.Group, id: int, from: MemberId, prior: PeerInfo) {
    id in g.writes && from in g.writes[id].waiting && g.writes[id].waiting[from] == prior
  }

  /** The leader of a group and the member in the protocol, once the same, stay the same. */
  lemma {:induction false} SameLeader(g: Cluster.Group, e: Cluster.Event, c: Config, proc: Proc, f: Event)
    requires g.c == c && g.leader == proc.m && g.leader.leaderCtx.Some? && Corresponds(g, e, f)
    requires f.SyncDone? ==> proc.pending.sync > 0
    ensures Cluster.Step(g, e).leader == HandledBy(c, proc, f).m
  {
  }

  // ---------- a leader in every run ----------

  /** What the leader is to record of a peer on this event, if anything. */
  function Told(m: Member, e: Event): Option<Report> {
    match e
    case JoinArrives(_, termId, id, peerVersion, state) =>
      if termId < m.termId then None else Some(Report(id, peerVersion, state))
    case SyncRequestArrives(_, follower, termId, peerVersion) =>
      if termId < m.termId then None else Some(Report(follower, peerVersion, FollowerSyncing))
    case WriteReply(_, prior, ok) =>
      if ok then None else Some(Report(prior.id, prior.version, FollowerWaitToJoinGroup))
    case _ => None
  }

  /** The peer list after an event that may tell the leader something. */
  ghost predicate RecordsWhatItIsTold(m: Member, m': Member, e: Event) {
    && m.leaderCtx.Some? && m'.leaderCtx.Some?
    && match Told(m, e)
       case None => m'.leaderCtx == m.leaderCtx
       case Some(r) => Recorded(m.leaderCtx.value.peers, m'.leaderCtx.value.peers, r.id, r.version, r.state)
  }

  lemma {:induction false} HandlerRecords(c: Config, proc: Proc, e: Event)
    requires InOffice(c, proc.m) && (e.JoinArrives? || e.SyncRequestArrives? || e.WriteReply?)
    ensures RecordsWhatItIsTold(proc.m, HandledBy(c, proc, e).m, e)
  {
    if Told(proc.m, e).Some? {
      var r := Told(proc.m, e).value;
      ReportRecorded(c, proc.m, r.id, r.version, r.state);
    }
  }

  /**
   * In every run a leader records of its peers exactly what joins, sync requests under a term that is not old and
   * failed writes tell it, each of the peer that it is about.
   */
  lemma {:induction false} LeaderRecords(
      g: Roster, configs: map<MemberId, Config>, version: int, events: seq<Event>, p: MemberId, e: Event)
    requires g.Fits(configs) && forall e | e in events :: RealVotes(g, e)
    requires p in Run(Init(configs, version), events).procs
    requires Run(Init(configs, version), events).procs[p].m.state.IsLeader()
    requires Handler(Run(Init(configs, version), events), e) == Some(p)
    requires e.JoinArrives? || e.SyncRequestArrives? || e.WriteReply?
    ensures
      var s := Run(Init(configs, version), events);
      p in Step(s, e).procs && RecordsWhatItIsTold(s.procs[p].m, Step(s, e).procs[p].m, e)
  {
    var s := Run(Init(configs, version), events);
    LeadersInOffice(g, configs, version, events, p);
    RunFits(g, configs, version, events);
    HandlerEffect(s, e, p);
    HandlerRecords(s.configs[p], s.procs[p], e);
  }
}
