/**
 * The votes of the running protocol are the members' answers to election requests. A member's commit id is set by its
 * constructor and nowhere else, so all answers report the same one (src/infra/PBMember.cpp).
 */
module CodedVotes {
  import opened Common
  import opened Members
  import opened Elections
  import opened LockProtocol
  import opened Offices

  // ---------- commit ids are never set ----------

  ghost predicate CommitsUnset(s: System) {
    forall p | p in s.procs :: s.procs[p].m.commitId == INVALID_VALUE
  }

  lemma {:induction false} HandlerKeepsCommit(c: Config, proc: Proc, e: Event)
    ensures HandledBy(c, proc, e).m.commitId == proc.m.commitId
  {
  }

  lemma {:induction false} StepKeepsCommits(s: System, e: Event)
    requires CommitsUnset(s)
    ensures CommitsUnset(Step(s, e))
  {
    if Handler(s, e).Some? {
      var p := Handler(s, e).value;
      HandlerKeepsCommit(s.configs[p], s.procs[p], e);
    } else {
      forall p | p in SessionStep(s, e).procs
        ensures SessionStep(s, e).procs[p].m.commitId == INVALID_VALUE
      {
        SessionMoves(s, e, p);
      }
    }
  }

  /** In every run, every member's commit id is the invalid one it was constructed with. */
  lemma {:induction false} CommitNeverSet(configs: map<MemberId, Config>, version: int, events: seq<Event>)
    ensures CommitsUnset(Run(Init(configs, version), events))
  {
    if events != [] {
      var n := |events| - 1;
      CommitNeverSet(configs, version, events[..n]);
      StepKeepsCommits(Run(Init(configs, version), events[..n]), events[n]);
    }
  }

  // ---------- answers ----------

  /** `reply` is what member `p`, running in state `s`, answers to a request under `term`. */
  predicate AnswersAt(g: Roster, s: System, p: MemberId, term: int, reply: Option<Vote>) {
    p in s.procs && reply == GetMemberState(g.ConfigOf(p), s.procs[p].m, term)
  }

  /** Every reply that came was given by the member asked, at some moment of the run so far. */
  ghost predicate Given(g: Roster, init: System, events: seq<Event>, replies: seq<Option<Vote>>) {
    && |replies| == |g.memberIds|
    && forall i | 0 <= i < |replies| && replies[i].Some? ::
         exists k: nat, term :: k <= |events| && AnswersAt(g, Run(init, events[..k]), g.memberIds[i], term, replies[i])
  }

  /** The votes counted in a run are such replies. */
  ghost predicate RealRun(g: Roster, init: System, events: seq<Event>) {
    forall n | 0 <= n < |events| && events[n].VotesIn? ::
      exists replies :: Given(g, init, events[..n], replies) && events[n].values == Tally(replies)
  }

  /** Answers come under their givers' own ids, and all report the same commit id, the invalid one. */
  lemma {:induction false} GivenAsCoded(
      g: Roster, configs: map<MemberId, Config>, version: int, events: seq<Event>, replies: seq<Option<Vote>>)
    requires Given(g, Init(configs, version), events, replies)
    ensures Answers(g.memberIds, replies) && ReportsAsCoded(replies)
  {
    forall i | 0 <= i < |replies| && replies[i].Some?
      ensures replies[i].value.id == g.memberIds[i] && replies[i].value.commitId == INVALID_VALUE
    {
      var k: nat, term :| k <= |events| &&
        AnswersAt(g, Run(Init(configs, version), events[..k]), g.memberIds[i], term, replies[i]);
      CommitNeverSet(configs, version, events[..k]);
    }
  }

  lemma {:induction false} RealRunVotes(g: Roster, configs: map<MemberId, Config>, version: int, events: seq<Event>)
    requires RealRun(g, Init(configs, version), events)
    ensures forall e | e in events :: RealVotes(g, e)
    ensures forall e | e in events :: CodedBuckets(e)
  {
    forall e | e in events
      ensures RealVotes(g, e) && CodedBuckets(e)
    {
      var n :| 0 <= n < |events| && events[n] == e;
      if e.VotesIn? {
        var replies :| Given(g, Init(configs, version), events[..n], replies) && e.values == Tally(replies);
        GivenAsCoded(g, configs, version, events[..n], replies);
        BucketsAsCoded(replies);
      }
    }
  }

  ghost predicate AllUnset(f: seq<Vote>) {
    forall v | v in f :: v.commitId == INVALID_VALUE
  }

  ghost predicate CodedBuckets(e: Event) {
    e.VotesIn? ==> forall k | k in e.values :: AllUnset(e.values[k])
  }

  lemma {:induction false} BucketsAsCoded(replies: seq<Option<Vote>>)
    requires ReportsAsCoded(replies)
    ensures forall k | k in Tally(replies) :: AllUnset(Tally(replies)[k])
  {
    TallyAsCoded(replies);
    AnsweredUnset(replies);
  }

  lemma {:induction false} AnsweredUnset(replies: seq<Option<Vote>>)
    requires ReportsAsCoded(replies)
    ensures AllUnset(Answered(replies))
  {
    if replies != [] {
      CodedFront(replies);
      AnsweredUnset(replies[..|replies| - 1]);
    }
  }

  // ---------- the votes on their way to the elected member ----------

  ghost predicate PendingUnset(pd: Pending) {
    forall f | f in pd.removeLock || f in pd.lockRemoved || f in pd.acquireLeader || f in pd.leaderAcquired ::
      AllUnset(f)
  }

  ghost predicate VotesUnset(s: System) {
    && (forall p | p in s.procs :: PendingUnset(s.procs[p].pending))
    && (forall a | a in s.appointments :: AllUnset(a.functional))
  }

  lemma {:induction false} MovedUnset(pd: Pending, pd': Pending)
    requires PendingUnset(pd) && Moved(pd, pd')
    ensures PendingUnset(pd')
  {
  }

  lemma {:induction false} ReportsMove(c: Config, proc: Proc, e: Event)
    requires e.JoinArrives? || e.SyncRequestArrives? || e.WriteReply? || e.LeaderLockReply?
    ensures Moved(proc.pending, HandledBy(c, proc, e).pending)
  {
  }

  lemma {:induction false} VotesUnsetHandled(c: Config, proc: Proc, e: Event)
    requires PendingUnset(proc.pending) && e.VotesIn? && CodedBuckets(e)
    ensures PendingUnset(HandledBy(c, proc, e).pending)
  {
  }

  lemma {:induction false} AppointmentUnset(c: Config, proc: Proc, e: Event)
    requires PendingUnset(proc.pending) && e.AppointmentArrives? && AllUnset(e.a.functional)
    ensures PendingUnset(HandledBy(c, proc, e).pending)
  {
  }

  lemma {:induction false} HandlerKeepsUnset(c: Config, proc: Proc, e: Event)
    requires PendingUnset(proc.pending) && CodedBuckets(e) && (e.AppointmentArrives? ==> AllUnset(e.a.functional))
    ensures PendingUnset(HandledBy(c, proc, e).pending)
  {
    if e.VotesIn? {
      VotesUnsetHandled(c, proc, e);
    } else if e.AppointmentArrives? {
      AppointmentUnset(c, proc, e);
    } else {
      if e.JoinArrives? || e.SyncRequestArrives? || e.WriteReply? || e.LeaderLockReply? {
        ReportsMove(c, proc, e);
      } else if e.RemovalReply? || e.GroupInfoArrives? || e.SyncDone? {
        FollowerKeeps(c, proc, e);
      } else if e.Watch? || e.ElectorLockReply? || e.TermReply? || e.ChildrenReply? {
        ElectorKeeps(c, proc, e);
      }
      MovedUnset(proc.pending, HandledBy(c, proc, e).pending);
    }
  }

  lemma {:induction false} SentUnset(proc: Proc, e: Event)
    requires e.RemovalReply? ==> AllUnset(e.functional)
    ensures forall a | a in Sent(proc, e) :: AllUnset(a.functional)
  {
    if e.RemovalReply? {
      var marked := MarkFunctional(e.functional);
      forall v | v in marked
        ensures v.commitId == INVALID_VALUE
      {
        var i :| 0 <= i < |marked| && marked[i] == v;
        assert e.functional[i] in e.functional;
      }
    }
  }

  lemma {:induction false} OneProcUnset(s: System, s': System, p: MemberId, proc': Proc, sent: set<Appointment>)
    requires VotesUnset(s) && PendingUnset(proc'.pending)
    requires s'.procs == s.procs[p := proc'] && s'.appointments == s.appointments + sent
    requires forall a | a in sent :: AllUnset(a.functional)
    ensures VotesUnset(s')
  {
  }

  lemma {:induction false} HandlerStepUnset(s: System, e: Event)
    requires VotesUnset(s) && CodedBuckets(e) && Handler(s, e).Some?
    ensures VotesUnset(Step(s, e))
  {
    var p := Handler(s, e).value;
    assert PendingUnset(s.procs[p].pending);
    HandlerKeepsUnset(s.configs[p], s.procs[p], e);
    SentUnset(s.procs[p], e);
    HandlerEffect(s, e, p);
    OneProcUnset(s, Step(s, e), p, HandledBy(s.configs[p], s.procs[p], e), Sent(s.procs[p], e));
  }

  lemma {:induction false} SessionUnset(s: System, e: Event)
    requires VotesUnset(s)
    ensures VotesUnset(SessionStep(s, e))
  {
    var s' := SessionStep(s, e);
    assert s'.appointments == s.appointments;
    forall p | p in s'.procs
      ensures PendingUnset(s'.procs[p].pending)
    {
      SessionMoves(s, e, p);
      if p in s.procs {
        MovedUnset(s.procs[p].pending, s'.procs[p].pending);
      }
    }
  }

  lemma {:induction false} RunUnset(configs: map<MemberId, Config>, version: int, events: seq<Event>)
    requires forall e | e in events :: CodedBuckets(e)
    ensures VotesUnset(Run(Init(configs, version), events))
  {
    if events != [] {
      var n := |events| - 1;
      assert forall e | e in events[..n] :: e in events;
      RunUnset(configs, version, events[..n]);
      var s := Run(Init(configs, version), events[..n]);
      if Handler(s, events[n]).Some? {
        HandlerStepUnset(s, events[n]);
      } else {
        SessionUnset(s, events[n]);
      }
    }
  }

  /**
   * In every run that counts its members' real answers: whoever is told that it may lead finds itself first in the
   * list it was sent, with its own commit id, as the source checks on taking office.
   */
  lemma {:induction false} AppointmentChecksHold(
      g: Roster, configs: map<MemberId, Config>, version: int, events: seq<Event>, p: MemberId, f: seq<Vote>)
    requires g.Fits(configs) && RealRun(g, Init(configs, version), events)
    requires p in Run(Init(configs, version), events).procs
    requires f in Run(Init(configs, version), events).procs[p].pending.leaderAcquired
    ensures f != [] && f[0].id == p && f[0].commitId == Run(Init(configs, version), events).procs[p].m.commitId
  {
    RealRunVotes(g, configs, version, events);
    RunFits(g, configs, version, events);
    RunUnset(configs, version, events);
    CommitNeverSet(configs, version, events);
    var s := Run(Init(configs, version), events);
    assert ProcFits(g, p, s.procs[p]) && PendingUnset(s.procs[p].pending);
    assert f[0] in f;
  }

  /**
   * Whatever answers the members give in a run, the election elects somebody exactly if a quorum answered, and that
   * is the first of them in the order of the list.
   */
  lemma {:induction false} RealElection(
      g: Roster, configs: map<MemberId, Config>, version: int, events: seq<Event>, replies: seq<Option<Vote>>,
      first: nat)
    requires Given(g, Init(configs, version), events, replies) && FirstAnswer(replies, first)
    ensures Elected(replies, g.quorum) == if |Answered(replies)| >= g.quorum then Some(g.memberIds[first]) else None
  {
    GivenAsCoded(g, configs, version, events, replies);
    FirstToAnswerIsElected(g.ConfigOf(g.memberIds[first]), replies, first);
  }
}
