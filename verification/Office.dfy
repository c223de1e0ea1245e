/**
 * The election protocol with the votes that members really give: what an elector sends, what the elected member
 * receives, and what holds of every member for as long as it leads (src/infra/PBMember.cpp).
 */
module Offices {
  import opened Common
  import opened Members
  import opened Elections
  import opened LockProtocol

  /** One group: every member has the same list and quorum, and its own id. */
  datatype Roster = Roster(memberIds: seq<MemberId>, quorum: nat) {
    function ConfigOf(p: MemberId): Config { Config(p, memberIds, quorum) }

    ghost predicate Fits(configs: map<MemberId, Config>) {
      Distinct(memberIds) && quorum > 0 && forall p | p in configs :: configs[p] == ConfigOf(p)
    }
  }

  /** The votes that an elector counts are the answers of the group's members. */
  ghost predicate RealVotes(g: Roster, e: Event) {
    e.VotesIn? ==> exists replies | Answers(g.memberIds, replies) :: e.values == Tally(replies)
  }

  /** A winning bucket: some members of the group, each once. */
  ghost predicate Candidates(g: Roster, f: seq<Vote>) {
    f != [] && Distinct(Ids(f)) && forall v | v in f :: v.id in g.memberIds
  }

  ghost predicate PendingFits(g: Roster, p: MemberId, pd: Pending) {
    && (forall f | f in pd.removeLock || f in pd.lockRemoved :: Candidates(g, f))
    && (forall f | f in pd.acquireLeader || f in pd.leaderAcquired :: WellFormedAppointment(g.ConfigOf(p), f))
  }

  ghost predicate ProcFits(g: Roster, p: MemberId, proc: Proc) {
    && PendingFits(g, p, proc.pending)
    && (proc.m.state.IsLeader() ==> InOffice(g.ConfigOf(p), proc.m))
  }

  ghost predicate AppointmentFits(g: Roster, a: Appointment) {
    WellFormedAppointment(g.ConfigOf(a.to), a.functional)
  }

  ghost predicate OfficeInv(g: Roster, s: System) {
    && g.Fits(s.configs)
    && (forall p | p in s.procs :: ProcFits(g, p, s.procs[p]))
    && (forall a | a in s.appointments :: AppointmentFits(g, a))
  }

  lemma {:induction false} WinnersAreCandidates(g: Roster, c: Config, values: Buckets, replies: seq<Option<Vote>>)
    requires Distinct(g.memberIds) && c.memberIds == g.memberIds
    requires Answers(g.memberIds, replies) && values == Tally(replies) && HasWinner(values, c.quorum)
    ensures Candidates(g, values[LowestKey(values)])
  {
    var low := LowestKey(values);
    TallyExactly(g.memberIds, replies, low);
    BucketVoters(c, replies, low);
    forall v | v in values[low]
      ensures v.id in g.memberIds
    {
      assert v.id in IdSet(values[low]);
    }
  }

  /** The message sent once the LOCK is gone is well formed for its receiver. */
  lemma {:induction false} SentFits(g: Roster, proc: Proc, e: Event)
    requires e.RemovalReply? && Candidates(g, e.functional)
    ensures forall a | a in Sent(proc, e) :: AppointmentFits(g, a)
  {
    var marked := MarkFunctional(e.functional);
    forall i | 0 <= i < |marked|
      ensures marked[i].id in g.memberIds && marked[i].state == FollowerFunctional
    {
      assert e.functional[i] in e.functional;
    }
    forall i, j | 0 <= i < j < |marked|
      ensures Ids(marked)[i] != Ids(marked)[j]
    {
      assert Ids(e.functional)[i] != Ids(e.functional)[j];
    }
  }

  lemma {:induction false} NewCandidatesFit(g: Roster, p: MemberId, pd: Pending, f: seq<Vote>)
    requires PendingFits(g, p, pd) && Candidates(g, f)
    ensures forall n: nat :: PendingFits(g, p, pd.(collectVotes := n, removeLock := pd.removeLock + multiset{f}))
  {
  }

  lemma {:induction false} VotesFit(g: Roster, p: MemberId, proc: Proc, e: Event)
    requires Distinct(g.memberIds) && ProcFits(g, p, proc) && e.VotesIn? && RealVotes(g, e)
    ensures ProcFits(g, p, HandledBy(g.ConfigOf(p), proc, e))
  {
    var replies :| Answers(g.memberIds, replies) && e.values == Tally(replies);
    if HasWinner(e.values, g.quorum) {
      WinnersAreCandidates(g, g.ConfigOf(p), e.values, replies);
      NewCandidatesFit(g, p, proc.pending, e.values[LowestKey(e.values)]);
    }
  }

  lemma {:induction false} ReportFits(g: Roster, p: MemberId, proc: Proc, e: Event)
    requires ProcFits(g, p, proc) && (e.JoinArrives? || e.SyncRequestArrives? || e.WriteReply?)
    ensures ProcFits(g, p, HandledBy(g.ConfigOf(p), proc, e))
  {
    if proc.m.state.IsLeader() {
      if e.JoinArrives? {
        ReportKeepsOffice(g.ConfigOf(p), proc.m, e.id, e.peerVersion, e.state);
      } else if e.SyncRequestArrives? {
        ReportKeepsOffice(g.ConfigOf(p), proc.m, e.follower, e.peerVersion, FollowerSyncing);
      } else {
        ReportKeepsOffice(g.ConfigOf(p), proc.m, e.prior.id, e.prior.version, FollowerWaitToJoinGroup);
      }
    }
  }

  lemma {:induction false} OfficeFits(g: Roster, p: MemberId, proc: Proc, e: Event)
    requires Distinct(g.memberIds) && ProcFits(g, p, proc) && e.LeaderLockReply? &&
             e.functional in proc.pending.leaderAcquired
    ensures ProcFits(g, p, HandledBy(g.ConfigOf(p), proc, e))
  {
    TakeOfficeInOffice(g.ConfigOf(p), proc.m, e.functional);
  }

  lemma {:induction false} AppointmentHandledFits(g: Roster, p: MemberId, proc: Proc, e: Event)
    requires ProcFits(g, p, proc) && e.AppointmentArrives? && e.a.to == p && AppointmentFits(g, e.a)
    ensures ProcFits(g, p, HandledBy(g.ConfigOf(p), proc, e))
  {
  }

  /** Every list pending afterwards was pending before, as the same request or as its reply. */
  ghost predicate Moved(pd: Pending, pd': Pending) {
    && (forall f | f in pd'.removeLock || f in pd'.lockRemoved :: f in pd.removeLock || f in pd.lockRemoved)
    && (forall f | f in pd'.acquireLeader || f in pd'.leaderAcquired :: f in pd.acquireLeader || f in pd.leaderAcquired)
  }

  /** Whoever leads afterwards led before, and knows the same. */
  predicate NoNewLeader(m: Member, m': Member) {
    m'.state.IsLeader() ==> m'.state == m.state && m'.leaderCtx == m.leaderCtx
  }

  lemma {:induction false} KeptFits(g: Roster, p: MemberId, proc: Proc, proc': Proc)
    requires ProcFits(g, p, proc) && Moved(proc.pending, proc'.pending) && NoNewLeader(proc.m, proc'.m)
    ensures ProcFits(g, p, proc')
  {
  }

  lemma {:induction false} ElectorKeeps(c: Config, proc: Proc, e: Event)
    requires e.Watch? || e.ElectorLockReply? || e.TermReply? || e.ChildrenReply?
    ensures Moved(proc.pending, HandledBy(c, proc, e).pending) && NoNewLeader(proc.m, HandledBy(c, proc, e).m)
  {
  }

  lemma {:induction false} FollowerKeeps(c: Config, proc: Proc, e: Event)
    requires e.RemovalReply? || e.GroupInfoArrives? || e.SyncDone?
    ensures Moved(proc.pending, HandledBy(c, proc, e).pending) && NoNewLeader(proc.m, HandledBy(c, proc, e).m)
  {
  }

  lemma {:induction false} HandlerFits(g: Roster, s: System, e: Event)
    requires OfficeInv(g, s) && RealVotes(g, e) && Handler(s, e).Some?
    ensures OfficeInv(g, Step(s, e))
  {
    var p := Handler(s, e).value;
    var proc := s.procs[p];
    assert ProcFits(g, p, proc);
    if e.VotesIn? {
      VotesFit(g, p, proc, e);
    } else if e.JoinArrives? || e.SyncRequestArrives? || e.WriteReply? {
      ReportFits(g, p, proc, e);
    } else if e.LeaderLockReply? {
      OfficeFits(g, p, proc, e);
    } else if e.AppointmentArrives? {
      AppointmentHandledFits(g, p, proc, e);
    } else {
      if e.RemovalReply? || e.GroupInfoArrives? || e.SyncDone? {
        FollowerKeeps(g.ConfigOf(p), proc, e);
      } else {
        ElectorKeeps(g.ConfigOf(p), proc, e);
      }
      KeptFits(g, p, proc, HandledBy(g.ConfigOf(p), proc, e));
    }
    if e.RemovalReply? {
      SentFits(g, proc, e);
    }
    OneProcChanged(g, s, Step(s, e), p, HandledBy(g.ConfigOf(p), proc, e), Sent(proc, e));
  }

  lemma {:induction false} OneProcChanged(
      g: Roster, s: System, s': System, p: MemberId, proc': Proc, sent: set<Appointment>)
    requires OfficeInv(g, s) && ProcFits(g, p, proc')
    requires s'.configs == s.configs && s'.procs == s.procs[p := proc'] && s'.appointments == s.appointments + sent
    requires forall a | a in sent :: AppointmentFits(g, a)
    ensures OfficeInv(g, s')
  {
  }

  lemma {:induction false} RemovalMoves(s: System, q: MemberId, f: seq<Vote>, p: MemberId)
    requires Running(s, q) && f in s.procs[q].pending.removeLock && p in s.procs
    ensures RemoveTheLock(s, q, f).procs[p].m == s.procs[p].m
    ensures Moved(s.procs[p].pending, RemoveTheLock(s, q, f).procs[p].pending)
  {
  }

  lemma {:induction false} LeaderLockMoves(s: System, q: MemberId, f: seq<Vote>, p: MemberId)
    requires Running(s, q) && f in s.procs[q].pending.acquireLeader && p in s.procs
    ensures CreateLeaderLock(s, q, f).procs[p].m == s.procs[p].m
    ensures Moved(s.procs[p].pending, CreateLeaderLock(s, q, f).procs[p].pending)
  {
  }

  lemma {:induction false} SessionMoves(s: System, e: Event, p: MemberId)
    requires p in SessionStep(s, e).procs
    ensures p !in s.procs ==> SessionStep(s, e).procs[p] == Proc(FRESH, NOTHING_PENDING)
    ensures p in s.procs ==> SessionStep(s, e).procs[p].m == s.procs[p].m
    ensures p in s.procs ==> Moved(s.procs[p].pending, SessionStep(s, e).procs[p].pending)
  {
    if e.ServerRemovesLock? {
      if Running(s, e.p) && e.functional in s.procs[e.p].pending.removeLock {
        RemovalMoves(s, e.p, e.functional, p);
      }
    } else if e.ServerCreatesLeaderLock? {
      if Running(s, e.p) && e.functional in s.procs[e.p].pending.acquireLeader {
        LeaderLockMoves(s, e.p, e.functional, p);
      }
    }
  }

  /** Sessions and the server only move what is pending from request to reply. */
  lemma {:induction false} SessionFits(g: Roster, s: System, e: Event)
    requires OfficeInv(g, s)
    ensures OfficeInv(g, SessionStep(s, e))
  {
    var s' := SessionStep(s, e);
    assert s'.configs == s.configs && s'.appointments == s.appointments;
    forall p | p in s'.procs
      ensures ProcFits(g, p, s'.procs[p])
    {
      SessionMoves(s, e, p);
      if p in s.procs {
        KeptFits(g, p, s.procs[p], s'.procs[p]);
      }
    }
  }

  lemma {:induction false} StepFits(g: Roster, s: System, e: Event)
    requires OfficeInv(g, s) && RealVotes(g, e)
    ensures OfficeInv(g, Step(s, e))
  {
    if Handler(s, e).Some? {
      HandlerFits(g, s, e);
    } else {
      SessionFits(g, s, e);
    }
  }

  lemma {:induction false} RunFits(g: Roster, configs: map<MemberId, Config>, version: int, events: seq<Event>)
    requires g.Fits(configs) && forall e | e in events :: RealVotes(g, e)
    ensures OfficeInv(g, Run(Init(configs, version), events))
  {
    if events != [] {
      var n := |events| - 1;
      assert forall e | e in events[..n] :: e in events;
      RunFits(g, configs, version, events[..n]);
      StepFits(g, Run(Init(configs, version), events[..n]), events[n]);
    }
  }

  /**
   * In every run of a group that counts its members' real answers, whatever crashes, restarts, joins, sync reports
   * and write failures there are: an appointment names its receiver first; the list a member takes office with is
   * well formed, as the start of a leader context needs it; and a member that leads, of whom there
   * is at most one, lists each other member exactly once and is functional exactly when quorum-1 of them are.
   */
  lemma {:induction false} LeadersInOffice(
      g: Roster, configs: map<MemberId, Config>, version: int, events: seq<Event>, p: MemberId)
    requires g.Fits(configs) && forall e | e in events :: RealVotes(g, e)
    requires p in Run(Init(configs, version), events).procs
    ensures
      var s := Run(Init(configs, version), events);
      var proc := s.procs[p];
      && (forall a | a in s.appointments :: a.functional != [] && a.functional[0].id == a.to)
      && (forall f: seq<Vote> | f in proc.pending.leaderAcquired :: WellFormedAppointment(g.ConfigOf(p), f))
      && (proc.m.state.IsLeader() ==> InOffice(Config(p, g.memberIds, g.quorum), proc.m))
      && (proc.m.state.IsLeader() ==> forall q | q in s.procs && q != p :: !s.procs[q].m.state.IsLeader())
  {
    RunFits(g, configs, version, events);
    var s := Run(Init(configs, version), events);
    assert ProcFits(g, p, s.procs[p]);
    forall q | q in s.procs && q != p
      ensures !(s.procs[p].m.state.IsLeader() && s.procs[q].m.state.IsLeader())
    {
      ExclusiveCoordination(configs, version, events, p, q);
    }
    forall a | a in s.appointments
      ensures a.functional != [] && a.functional[0].id == a.to
    {
      assert AppointmentFits(g, a);
    }
  }
}
