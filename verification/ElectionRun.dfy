/**
 * One undisturbed election, from the elector's watch event to the winner's taking office, as events of the running
 * protocol. The runs in which something goes wrong are put together from such elections.
 */
module ElectionRuns {
  import opened Common
  import opened Members
  import opened Elections
  import opened LockProtocol
  import opened Offices
  import opened CodedVotes

  /** Who elects whom, on which answers, and the group's children that the elector sees. */
  datatype Ballot = Ballot(elector: MemberId, winner: MemberId, children: seq<Child>, answers: seq<Vote>)

  // ---------- the events ----------

  function Voting(b: Ballot, term: int): seq<Event> {
    [Watch(b.elector, b.children, true), ServerCreatesElectorLock(b.elector), ElectorLockReply(b.elector)] +
    [ServerIncreasesTerm(b.elector), TermReply(b.elector, term), ChildrenReply(b.elector, b.children)]
  }

  function Result(b: Ballot): seq<Event> {
    [VotesIn(b.elector, map[INVALID_VALUE := b.answers]), ServerRemovesLock(b.elector, b.answers),
     RemovalReply(b.elector, b.answers)]
  }

  function AppointmentOf(b: Ballot, term: int): Appointment {
    Appointment(b.winner, term, MarkFunctional(b.answers))
  }

  function Taking(a: Appointment): seq<Event> {
    [AppointmentArrives(a), ServerCreatesLeaderLock(a.to, a.functional), LeaderLockReply(a.to, a.functional)]
  }

  // ---------- states along the way ----------

  /** `s` but for one member, the LOCK and the term. */
  function With(
      s: System, p: MemberId, x: Proc, lock: Option<Lock>, version: int, issued: seq<(int, MemberId)>): System
  {
    s.(procs := s.procs[p := x], lock := lock, version := version, issued := issued)
  }

  lemma {:induction false} ThreeSteps(s: System, a: Event, b: Event, c: Event)
    ensures Run(s, [a, b, c]) == Step(Step(Step(s, a), b), c)
  {
    assert [a, b, c][..2] == [a, b] && [a, b][..1] == [a] && [a][..0] == [];
    assert Run(s, [a]) == Step(s, a);
    assert Run(s, [a, b]) == Step(Run(s, [a]), b);
  }

  lemma {:induction false} OneStep(s: System, a: Event)
    ensures Run(s, [a]) == Step(s, a)
  {
    assert [a][..0] == [];
  }

  lemma {:induction false} RunAppend(s: System, es: seq<Event>, fs: seq<Event>)
    ensures Run(s, es + fs) == Run(Run(s, es), fs)
  {
    if fs == [] {
      assert es + fs == es;
    } else {
      var n := |fs| - 1;
      RunAppend(s, es, fs[..n]);
      assert (es + fs)[..|es + fs| - 1] == es + fs[..n];
    }
  }

  predicate Plain(e: Event) {
    !e.RemovalReply? && !e.GroupInfoArrives? && !e.SyncRequestArrives? && !e.SyncDone?
  }

  lemma {:induction false} Handles(
      s: System, p: MemberId, x: Proc, lock: Option<Lock>, version: int, issued: seq<(int, MemberId)>,
      e: Event, x': Proc)
    requires p in s.configs && Plain(e) && Handler(With(s, p, x, lock, version, issued), e) == Some(p)
    requires x' == HandledBy(s.configs[p], x, e)
    ensures Step(With(s, p, x, lock, version, issued), e) == With(s, p, x', lock, version, issued)
  {
    var w := With(s, p, x, lock, version, issued);
    assert w.procs[p := x'] == s.procs[p := x'];
    assert w.appointments + {} == w.appointments;
  }

  /** The elector has nothing under way, sees that it is the candidate, sees a quorum, and gets a quorum of answers. */
  ghost predicate CanElect(g: Roster, b: Ballot, s: System) {
    && b.elector in s.procs && b.elector in s.configs && s.configs[b.elector] == g.ConfigOf(b.elector) && s.lock == None
    && s.procs[b.elector].pending == NOTHING_PENDING
    && s.procs[b.elector].m.state == FollowerWaitToJoinGroup
    && LockNode !in b.children && CanBeElector(ParseMembers(b.children), b.elector, true)
    && |ParseMembers(b.children)| >= g.quorum
    && |b.answers| >= g.quorum > 0 && b.answers[0].id == b.winner
  }

  // ---------- the elector, step by step ----------

  function Elector(m: Member, pending: Pending): Proc { Proc(m.(state := EcAcquireLock), pending) }

  lemma {:induction false} Asks(g: Roster, b: Ballot, s: System)
    requires CanElect(g, b, s)
    ensures
      var m := s.procs[b.elector].m;
      Step(s, Watch(b.elector, b.children, true)) ==
      With(s, b.elector, Elector(m, NOTHING_PENDING.(acquireElector := 1)), None, s.version, s.issued)
  {
    var x := s.procs[b.elector];
    assert s == With(s, b.elector, x, None, s.version, s.issued);
    Handles(s, b.elector, x, None, s.version, s.issued, Watch(b.elector, b.children, true),
            Elector(x.m, NOTHING_PENDING.(acquireElector := 1)));
  }

  lemma {:induction false} Creates(s: System, p: MemberId, m: Member)
    requires p in s.configs
    ensures Step(With(s, p, Elector(m, NOTHING_PENDING.(acquireElector := 1)), None, s.version, s.issued),
                 ServerCreatesElectorLock(p)) ==
            With(s, p, Elector(m, NOTHING_PENDING.(electorAcquired := 1)), Some(Lock(p, LockProtocol.Elector)),
                 s.version, s.issued)
  {
    var x := Elector(m, NOTHING_PENDING.(electorAcquired := 1));
    var w := With(s, p, Elector(m, NOTHING_PENDING.(acquireElector := 1)), None, s.version, s.issued);
    assert w.procs[p := x] == s.procs[p := x];
  }

  lemma {:induction false} Hears(s: System, p: MemberId, m: Member, lock: Option<Lock>)
    requires p in s.configs
    ensures Step(With(s, p, Elector(m, NOTHING_PENDING.(electorAcquired := 1)), lock, s.version, s.issued),
                 ElectorLockReply(p)) ==
            With(s, p, Elector(m, NOTHING_PENDING.(increaseTerm := 1)), lock, s.version, s.issued)
  {
    Handles(s, p, Elector(m, NOTHING_PENDING.(electorAcquired := 1)), lock, s.version, s.issued, ElectorLockReply(p),
            Elector(m, NOTHING_PENDING.(increaseTerm := 1)));
  }

  lemma {:induction false} Raises(s: System, p: MemberId, m: Member, lock: Option<Lock>)
    requires p in s.configs
    ensures Step(With(s, p, Elector(m, NOTHING_PENDING.(increaseTerm := 1)), lock, s.version, s.issued),
                 ServerIncreasesTerm(p)) ==
            With(s, p, Elector(m, NOTHING_PENDING.(termIncreased := multiset{s.version + 1})), lock, s.version + 1,
                 s.issued + [(s.version + 1, p)])
  {
    var x := Elector(m, NOTHING_PENDING.(termIncreased := multiset{s.version + 1}));
    var w := With(s, p, Elector(m, NOTHING_PENDING.(increaseTerm := 1)), lock, s.version, s.issued);
    assert multiset{} + multiset{s.version + 1} == multiset{s.version + 1};
    assert w.procs[p := x] == s.procs[p := x];
  }

  lemma {:induction false} Learns(
      s: System, p: MemberId, m: Member, lock: Option<Lock>, term: int, issued: seq<(int, MemberId)>)
    requires p in s.configs
    ensures Step(With(s, p, Elector(m, NOTHING_PENDING.(termIncreased := multiset{term})), lock, term, issued),
                 TermReply(p, term)) ==
            With(s, p, Elector(m.(termId := term), NOTHING_PENDING.(readChildren := 1)), lock, term, issued)
  {
    assert multiset{term} - multiset{term} == multiset{};
    Handles(s, p, Elector(m, NOTHING_PENDING.(termIncreased := multiset{term})), lock, term, issued, TermReply(p, term),
            Elector(m.(termId := term), NOTHING_PENDING.(readChildren := 1)));
  }

  lemma {:induction false} Counts(
      g: Roster, s: System, p: MemberId, m: Member, lock: Option<Lock>, issued: seq<(int, MemberId)>,
      children: seq<Child>)
    requires p in s.configs && s.configs[p] == g.ConfigOf(p) && |ParseMembers(children)| >= g.quorum
    ensures
      var x := Proc(m.(state := EcElectionInProgress), NOTHING_PENDING.(collectVotes := 1));
      Step(With(s, p, Elector(m, NOTHING_PENDING.(readChildren := 1)), lock, m.termId, issued),
           ChildrenReply(p, children)) ==
      With(s, p, x, lock, m.termId, issued)
  {
    Handles(s, p, Elector(m, NOTHING_PENDING.(readChildren := 1)), lock, m.termId, issued, ChildrenReply(p, children),
            Proc(m.(state := EcElectionInProgress), NOTHING_PENDING.(collectVotes := 1)));
  }

  /** The elector when it has asked for votes under a new term. */
  function Asked(m: Member, term: int): Proc {
    Proc(m.(state := EcElectionInProgress, termId := term), NOTHING_PENDING.(collectVotes := 1))
  }

  /** Up to the election requests: the elector has the LOCK and the next term. */
  lemma {:induction false} VotesAreAsked(g: Roster, b: Ballot, s: System)
    requires CanElect(g, b, s)
    ensures
      var term := s.version + 1;
      Run(s, Voting(b, term)) ==
      With(s, b.elector, Asked(s.procs[b.elector].m, term), Some(Lock(b.elector, LockProtocol.Elector)), term,
           s.issued + [(term, b.elector)])
  {
    var term, p, m := s.version + 1, b.elector, s.procs[b.elector].m;
    var lock, issued := Some(Lock(p, LockProtocol.Elector)), s.issued + [(s.version + 1, p)];
    RunAppend(s, [Watch(p, b.children, true), ServerCreatesElectorLock(p), ElectorLockReply(p)],
              [ServerIncreasesTerm(p), TermReply(p, term), ChildrenReply(p, b.children)]);
    ThreeSteps(s, Watch(p, b.children, true), ServerCreatesElectorLock(p), ElectorLockReply(p));
    Asks(g, b, s);
    Creates(s, p, m);
    Hears(s, p, m, lock);
    var half := With(s, p, Elector(m, NOTHING_PENDING.(increaseTerm := 1)), lock, s.version, s.issued);
    ThreeSteps(half, ServerIncreasesTerm(p), TermReply(p, term), ChildrenReply(p, b.children));
    Raises(s, p, m, lock);
    Learns(s, p, m, lock, term, issued);
    Counts(g, s, p, m.(termId := term), lock, issued, b.children);
  }

  lemma {:induction false} VotesCome(g: Roster, b: Ballot, s: System, x: Proc, m: Member)
    requires b.elector in s.procs && b.elector in s.configs && s.configs[b.elector] == g.ConfigOf(b.elector)
    requires s.procs[b.elector] == Proc(m, NOTHING_PENDING.(collectVotes := 1))
    requires |b.answers| >= g.quorum
    requires x == Proc(m, NOTHING_PENDING.(removeLock := multiset{b.answers}))
    ensures Step(s, VotesIn(b.elector, map[INVALID_VALUE := b.answers])) == s.(procs := s.procs[b.elector := x])
  {
    var values: Buckets := map[INVALID_VALUE := b.answers];
    assert INVALID_VALUE in values && LowestKey(values) in values;
    assert multiset{} + multiset{b.answers} == multiset{b.answers};
    assert s == With(s, b.elector, s.procs[b.elector], s.lock, s.version, s.issued);
    Handles(s, b.elector, s.procs[b.elector], s.lock, s.version, s.issued, VotesIn(b.elector, values), x);
  }

  lemma {:induction false} Removes(s: System, p: MemberId, m: Member, f: seq<Vote>)
    requires p in s.procs && p in s.configs && s.procs[p] == Proc(m, NOTHING_PENDING.(removeLock := multiset{f}))
    ensures
      var x := Proc(m, NOTHING_PENDING.(lockRemoved := multiset{f}));
      Step(s, ServerRemovesLock(p, f)) == s.(procs := s.procs[p := x], lock := None)
  {
    assert multiset{f} - multiset{f} == multiset{} && multiset{} + multiset{f} == multiset{f};
  }

  lemma {:induction false} Appoints(b: Ballot, s: System, m: Member)
    requires b.elector in s.procs && b.elector in s.configs && b.answers != [] && b.answers[0].id == b.winner
    requires s.procs[b.elector] == Proc(m, NOTHING_PENDING.(lockRemoved := multiset{b.answers}))
    ensures
      var x := Proc(m.(state := FollowerWaitToJoinGroup), NOTHING_PENDING);
      Step(s, RemovalReply(b.elector, b.answers)) ==
      s.(procs := s.procs[b.elector := x], appointments := s.appointments + {AppointmentOf(b, m.termId)})
  {
    assert multiset{b.answers} - multiset{b.answers} == multiset{};
  }

  /** The elector when its LOCK is gone. */
  function Resigned(m: Member, term: int): Proc {
    Proc(m.(state := FollowerWaitToJoinGroup, termId := term), NOTHING_PENDING)
  }

  /** From the votes to the appointment: the LOCK is gone, and the elector waits again. */
  lemma {:induction false} WinnerIsAppointed(g: Roster, b: Ballot, s: System, m: Member, term: int)
    requires b.elector in s.procs && b.elector in s.configs && s.configs[b.elector] == g.ConfigOf(b.elector)
    requires s.procs[b.elector] == Asked(m, term)
    requires |b.answers| >= g.quorum > 0 && b.answers[0].id == b.winner
    ensures Run(s, Result(b)) ==
            s.(procs := s.procs[b.elector := Resigned(m, term)], lock := None,
               appointments := s.appointments + {AppointmentOf(b, term)})
  {
    var p, m' := b.elector, m.(state := EcElectionInProgress, termId := term);
    ThreeSteps(s, VotesIn(p, map[INVALID_VALUE := b.answers]),
               ServerRemovesLock(p, b.answers), RemovalReply(p, b.answers));
    var x1 := Proc(m', NOTHING_PENDING.(removeLock := multiset{b.answers}));
    VotesCome(g, b, s, x1, m');
    var s1 := s.(procs := s.procs[p := x1]);
    Removes(s1, p, m', b.answers);
    var x2 := Proc(m', NOTHING_PENDING.(lockRemoved := multiset{b.answers}));
    assert s1.procs[p := x2] == s.procs[p := x2];
    var s2 := s.(procs := s.procs[p := x2], lock := None);
    Appoints(b, s2, m');
    assert s2.procs[p := Resigned(m, term)] == s.procs[p := Resigned(m, term)];
  }

  // ---------- the winner ----------

  /** A member that can take office with an appointment. */
  ghost predicate CanTake(g: Roster, a: Appointment, s: System) {
    && a.to in s.procs && a.to in s.configs && s.configs[a.to] == g.ConfigOf(a.to) && s.lock == None
    && a in s.appointments && s.procs[a.to].m.termId <= a.termId
    && s.procs[a.to].pending.acquireLeader == multiset{} && s.procs[a.to].pending.leaderAcquired == multiset{}
  }

  function InLead(g: Roster, a: Appointment, x: Proc): Proc {
    Proc(TakeOffice(g.ConfigOf(a.to), x.m, a.functional), x.pending)
  }

  lemma {:induction false} Accepts(g: Roster, a: Appointment, s: System, x: Proc)
    requires CanTake(g, a, s) && x == s.procs[a.to]
    ensures Step(s, AppointmentArrives(a)) ==
            s.(procs := s.procs[a.to := x.(pending := x.pending.(acquireLeader := multiset{a.functional}))])
  {
    assert multiset{} + multiset{a.functional} == multiset{a.functional};
    assert s == With(s, a.to, x, s.lock, s.version, s.issued);
    Handles(s, a.to, x, s.lock, s.version, s.issued, AppointmentArrives(a),
            x.(pending := x.pending.(acquireLeader := multiset{a.functional})));
  }

  lemma {:induction false} Locks(s: System, p: MemberId, x: Proc, f: seq<Vote>)
    requires p in s.procs && p in s.configs && s.lock == None && x.pending.leaderAcquired == multiset{}
    requires x.pending.acquireLeader == multiset{}
    requires s.procs[p] == x.(pending := x.pending.(acquireLeader := multiset{f}))
    ensures Step(s, ServerCreatesLeaderLock(p, f)) ==
            s.(procs := s.procs[p := x.(pending := x.pending.(leaderAcquired := multiset{f}))],
               lock := Some(Lock(p, Leader)))
  {
    assert multiset{f} - multiset{f} == multiset{} && multiset{} + multiset{f} == multiset{f};
  }

  lemma {:induction false} Leads(g: Roster, s: System, a: Appointment, x: Proc)
    requires a.to in s.procs && a.to in s.configs && s.configs[a.to] == g.ConfigOf(a.to)
    requires x.pending.leaderAcquired == multiset{}
    requires s.procs[a.to] == x.(pending := x.pending.(leaderAcquired := multiset{a.functional}))
    ensures Step(s, LeaderLockReply(a.to, a.functional)) == s.(procs := s.procs[a.to := InLead(g, a, x)])
  {
    assert multiset{a.functional} - multiset{a.functional} == multiset{};
    assert s == With(s, a.to, s.procs[a.to], s.lock, s.version, s.issued);
    Handles(s, a.to, s.procs[a.to], s.lock, s.version, s.issued, LeaderLockReply(a.to, a.functional), InLead(g, a, x));
  }

  /** From the appointment's arrival to office. */
  lemma {:induction false} WinnerTakesOffice(g: Roster, a: Appointment, s: System)
    requires CanTake(g, a, s)
    ensures Run(s, Taking(a)) ==
            s.(procs := s.procs[a.to := InLead(g, a, s.procs[a.to])], lock := Some(Lock(a.to, Leader)))
  {
    var p, x, f := a.to, s.procs[a.to], a.functional;
    ThreeSteps(s, AppointmentArrives(a), ServerCreatesLeaderLock(p, f), LeaderLockReply(p, f));
    Accepts(g, a, s, x);
    var s1 := s.(procs := s.procs[p := x.(pending := x.pending.(acquireLeader := multiset{f}))]);
    Locks(s1, p, x, f);
    var x2 := x.(pending := x.pending.(leaderAcquired := multiset{f}));
    assert s1.procs[p := x2] == s.procs[p := x2];
    var s2 := s.(procs := s.procs[p := x2], lock := Some(Lock(p, Leader)));
    Leads(g, s2, a, x);
    assert s2.procs[p := InLead(g, a, x)] == s.procs[p := InLead(g, a, x)];
  }

  // ---------- the votes are real ----------

  lemma {:induction false} GivenNow(g: Roster, init: System, events: seq<Event>, replies: seq<Option<Vote>>, term: int)
    requires |replies| == |g.memberIds|
    requires forall i | 0 <= i < |replies| && replies[i].Some? ::
               AnswersAt(g, Run(init, events), g.memberIds[i], term, replies[i])
    ensures Given(g, init, events, replies)
  {
    assert events[..|events|] == events;
    forall i | 0 <= i < |replies| && replies[i].Some?
      ensures exists k: nat, t :: k <= |events| && AnswersAt(g, Run(init, events[..k]), g.memberIds[i], t, replies[i])
    {
      assert AnswersAt(g, Run(init, events[..|events|]), g.memberIds[i], term, replies[i]);
    }
  }

  lemma {:induction false} RealWithout(g: Roster, init: System, events: seq<Event>, more: seq<Event>)
    requires RealRun(g, init, events) && forall i | 0 <= i < |more| :: !more[i].VotesIn?
    ensures RealRun(g, init, events + more)
  {
    var all := events + more;
    forall n | 0 <= n < |all| && all[n].VotesIn?
      ensures exists replies :: Given(g, init, all[..n], replies) && all[n].values == Tally(replies)
    {
      if n < |events| {
        assert all[..n] == events[..n] && all[n] == events[n];
      }
    }
  }

  lemma {:induction false} RealWith(g: Roster, init: System, events: seq<Event>, e: Event, replies: seq<Option<Vote>>)
    requires RealRun(g, init, events) && e.VotesIn?
    requires Given(g, init, events, replies) && e.values == Tally(replies)
    ensures RealRun(g, init, events + [e])
  {
    var all := events + [e];
    forall n | 0 <= n < |all| && all[n].VotesIn?
      ensures exists rs :: Given(g, init, all[..n], rs) && all[n].values == Tally(rs)
    {
      if n < |events| {
        assert all[..n] == events[..n] && all[n] == events[n];
      } else {
        assert all[..n] == events;
      }
    }
  }

  /** An election whose votes are answers given when it asks for them is real. */
  lemma {:induction false} RealElectionAppended(
      g: Roster, init: System, events: seq<Event>, b: Ballot, term: int, replies: seq<Option<Vote>>)
    requires RealRun(g, init, events)
    requires Given(g, init, events + Voting(b, term), replies) && Tally(replies) == map[INVALID_VALUE := b.answers]
    ensures RealRun(g, init, events + Voting(b, term) + Result(b))
  {
    RealWithout(g, init, events, Voting(b, term));
    var asked := events + Voting(b, term);
    RealWith(g, init, asked, Result(b)[0], replies);
    RealWithout(g, init, asked + [Result(b)[0]], Result(b)[1..]);
    assert asked + [Result(b)[0]] + Result(b)[1..] == asked + Result(b);
  }
}
