/**
 * What a member takes office with, in every run: the votes of a quorum, and a record of each other member as it voted
 * (src/infra/PBMember.cpp).
 */
module Mandates {
  import opened Common
  import opened Members
  import opened Elections
  import opened LockProtocol
  import opened Offices

  ghost predicate ByQuorum(g: Roster, f: seq<Vote>) { |f| >= g.quorum }

  /** Every list under way, from the count of the votes to the LOCK, has a quorum. */
  ghost predicate PendingByQuorum(g: Roster, pd: Pending) {
    && (forall f | f in pd.removeLock || f in pd.lockRemoved :: ByQuorum(g, f))
    && (forall f | f in pd.acquireLeader || f in pd.leaderAcquired :: ByQuorum(g, f))
  }

  ghost predicate AllByQuorum(g: Roster, s: System) {
    && g.Fits(s.configs)
    && (forall p | p in s.procs :: PendingByQuorum(g, s.procs[p].pending))
    && (forall a | a in s.appointments :: ByQuorum(g, a.functional))
  }

  lemma {:induction false} MovedByQuorum(g: Roster, pd: Pending, pd': Pending)
    requires PendingByQuorum(g, pd) && Moved(pd, pd')
    ensures PendingByQuorum(g, pd')
  {
  }

  lemma {:induction false} WinnerByQuorum(g: Roster, p: MemberId, proc: Proc, e: Event)
    requires PendingByQuorum(g, proc.pending) && e.VotesIn?
    ensures PendingByQuorum(g, HandledBy(g.ConfigOf(p), proc, e).pending)
  {
  }

  lemma {:induction false} AppointedByQuorum(g: Roster, p: MemberId, proc: Proc, e: Event)
    requires PendingByQuorum(g, proc.pending) && e.AppointmentArrives? && ByQuorum(g, e.a.functional)
    ensures PendingByQuorum(g, HandledBy(g.ConfigOf(p), proc, e).pending)
  {
  }

  lemma {:induction false} ReportsMoveNothing(c: Config, proc: Proc, e: Event)
    requires e.JoinArrives? || e.SyncRequestArrives? || e.WriteReply?
    ensures HandledBy(c, proc, e).pending == proc.pending
  {
  }

  lemma {:induction false} LeaderLockMoves(c: Config, proc: Proc, e: Event)
    requires e.LeaderLockReply?
    ensures Moved(proc.pending, HandledBy(c, proc, e).pending)
  {
  }

  lemma {:induction false} HandlerByQuorum(g: Roster, p: MemberId, proc: Proc, e: Event)
    requires PendingByQuorum(g, proc.pending) && (e.AppointmentArrives? ==> ByQuorum(g, e.a.functional))
    ensures PendingByQuorum(g, HandledBy(g.ConfigOf(p), proc, e).pending)
  {
    var c := g.ConfigOf(p);
    if e.VotesIn? {
      WinnerByQuorum(g, p, proc, e);
    } else if e.AppointmentArrives? {
      AppointedByQuorum(g, p, proc, e);
    } else if e.JoinArrives? || e.SyncRequestArrives? || e.WriteReply? {
      ReportsMoveNothing(c, proc, e);
    } else {
      if e.LeaderLockReply? {
        LeaderLockMoves(c, proc, e);
      } else if e.RemovalReply? || e.GroupInfoArrives? || e.SyncDone? {
        FollowerKeeps(c, proc, e);
      } else if e.Watch? || e.ElectorLockReply? || e.TermReply? || e.ChildrenReply? {
        ElectorKeeps(c, proc, e);
      }
      MovedByQuorum(g, proc.pending, HandledBy(c, proc, e).pending);
    }
  }

  lemma {:induction false} SentByQuorum(g: Roster, proc: Proc, e: Event)
    requires e.RemovalReply? ==> ByQuorum(g, e.functional)
    ensures forall a | a in Sent(proc, e) :: ByQuorum(g, a.functional)
  {
  }

  lemma {:induction false} OneByQuorum(
      g: Roster, s: System, s': System, p: MemberId, proc': Proc, sent: set<Appointment>)
    requires AllByQuorum(g, s) && PendingByQuorum(g, proc'.pending)
    requires s'.configs == s.configs && s'.procs == s.procs[p := proc'] && s'.appointments == s.appointments + sent
    requires forall a | a in sent :: ByQuorum(g, a.functional)
    ensures AllByQuorum(g, s')
  {
  }

  lemma {:induction false} SessionByQuorum(g: Roster, s: System, e: Event)
    requires AllByQuorum(g, s)
    ensures AllByQuorum(g, SessionStep(s, e))
  {
    var s' := SessionStep(s, e);
    assert s'.configs == s.configs && s'.appointments == s.appointments;
    forall p | p in s'.procs
      ensures PendingByQuorum(g, s'.procs[p].pending)
    {
      SessionMoves(s, e, p);
      if p in s.procs {
        MovedByQuorum(g, s.procs[p].pending, s'.procs[p].pending);
      }
    }
  }

  lemma {:induction false} StepByQuorum(g: Roster, s: System, e: Event)
    requires AllByQuorum(g, s)
    ensures AllByQuorum(g, Step(s, e))
  {
    if Handler(s, e).Some? {
      var p := Handler(s, e).value;
      HandlerEffect(s, e, p);
      assert e.AppointmentArrives? ==> e.a in s.appointments;
      assert e.RemovalReply? ==> e.functional in s.procs[p].pending.lockRemoved;
      HandlerByQuorum(g, p, s.procs[p], e);
      SentByQuorum(g, s.procs[p], e);
      OneByQuorum(g, s, Step(s, e), p, HandledBy(s.configs[p], s.procs[p], e), Sent(s.procs[p], e));
    } else {
      SessionByQuorum(g, s, e);
    }
  }

  lemma {:induction false} RunByQuorum(g: Roster, configs: map<MemberId, Config>, version: int, events: seq<Event>)
    requires g.Fits(configs)
    ensures AllByQuorum(g, Run(Init(configs, version), events))
  {
    if events != [] {
      RunByQuorum(g, configs, version, events[..|events| - 1]);
      StepByQuorum(g, Run(Init(configs, version), events[..|events| - 1]), events[|events| - 1]);
    }
  }

  /** What a new leader records of another member: as it voted, and as waiting to join if it did not. */
  ghost predicate RecordedAsVoted(p: PeerInfo, functional: seq<Vote>) {
    && (forall v | v in functional && v.id == p.id :: p == PeerInfo(v.id, v.state, v.version))
    && ((forall v | v in functional :: v.id != p.id) ==> p == PeerInfo(p.id, FollowerWaitToJoinGroup, INVALID_VALUE))
  }

  lemma {:induction false} FoundIsUnique(votes: seq<Vote>, v: Vote)
    requires Distinct(Ids(votes)) && v in votes
    ensures FindVote(votes, v.id) == Some(v)
  {
    FindVoteFinds(votes, v.id);
    assert v.id in IdSet(votes);
    var w := FindVote(votes, v.id).value;
    var i :| 0 <= i < |votes| && votes[i] == v;
    var j :| 0 <= j < |votes| && votes[j] == w;
    assert Ids(votes)[i] == v.id && Ids(votes)[j] == w.id;
  }

  lemma {:induction false} PeerAsVoted(id: MemberId, functional: seq<Vote>)
    requires Distinct(Ids(functional))
    ensures RecordedAsVoted(PeerOf(functional, id), functional)
  {
    FindVoteFinds(functional, id);
    forall v | v in functional && v.id == id
      ensures FindVote(functional, id) == Some(v)
    {
      FoundIsUnique(functional, v);
    }
    if forall v | v in functional :: v.id != id {
      assert id !in IdSet(functional);
    }
  }

  lemma {:induction false} PeersAsVoted(memberIds: seq<MemberId>, myId: MemberId, functional: seq<Vote>)
    requires Distinct(Ids(functional))
    ensures forall p | p in PeersFor(memberIds, myId, functional) :: RecordedAsVoted(p, functional)
  {
    if memberIds != [] {
      var n := |memberIds| - 1;
      PeersAsVoted(memberIds[..n], myId, functional);
      PeerAsVoted(memberIds[n], functional);
    }
  }

  /**
   * In every run, a member that takes office does so with a quorum of votes, its own first: it is functional at once
   * (the branch that would leave it waiting is never taken), numbers its writes from 0 on, names itself as leader, and
   * records each other member as it voted.
   */
  lemma {:induction false} OfficeByQuorum(
      g: Roster, configs: map<MemberId, Config>, version: int, events: seq<Event>, p: MemberId, f: seq<Vote>)
    requires g.Fits(configs) && forall e | e in events :: RealVotes(g, e)
    requires Handler(Run(Init(configs, version), events), LeaderLockReply(p, f)) == Some(p)
    ensures
      var s := Run(Init(configs, version), events);
      var s' := Step(s, LeaderLockReply(p, f));
      var m := s'.procs[p].m;
      && |f| >= g.quorum && f[0].id == p && s'.lock == Some(Lock(p, Leader))
      && m.state == LeaderFunctional && m.leaderId == p && m.termId == s.procs[p].m.termId
      && m.leaderCtx.Some? && m.leaderCtx.value.opId == INVALID_VALUE && m.leaderCtx.value.commitId == INVALID_VALUE
      && (forall q: MemberId :: HasPeer(m.leaderCtx.value.peers, q) <==> q in g.memberIds && q != p)
      && (forall peer | peer in m.leaderCtx.value.peers :: RecordedAsVoted(peer, f))
  {
    var s := Run(Init(configs, version), events);
    RunByQuorum(g, configs, version, events);
    RunFits(g, configs, version, events);
    RunKeeps(configs, version, events);
    assert ProcFits(g, p, s.procs[p]) && LockFits(s, p);
    assert PendingByQuorum(g, s.procs[p].pending) && ByQuorum(g, f);
    PeersAsVoted(g.memberIds, p, f);
    PeersForNamesOthers(g.memberIds, p, f);
    assert s.configs[p] == g.ConfigOf(p);
  }
}
