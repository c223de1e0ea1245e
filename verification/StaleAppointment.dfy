/**
 * An appointment that arrives late: nothing but the term that its receiver itself has learned can stop it
 * (src/infra/PBMember.cpp).
 */
module StaleAppointments {
  import opened Common
  import opened Members
  import opened Elections
  import opened LockProtocol
  import opened Offices
  import opened CodedVotes
  import opened ElectionRuns
  import opened ThreeMembers

  /**
   * Exactly when an appointment leads to a request for the LOCK: if its term is not below the term that the receiver
   * has learned as an elector or from a leader, whatever later elections have been held.
   */
  lemma {:induction false} AppointmentAcceptedIff(s: System, a: Appointment)
    requires Handler(s, AppointmentArrives(a)) == Some(a.to)
    ensures
      var proc, s' := s.procs[a.to], Step(s, AppointmentArrives(a));
      var asked := proc.pending.acquireLeader + multiset{a.functional};
      && a.to in s'.procs && s'.procs[a.to].m == proc.m
      && (s'.procs[a.to].pending.acquireLeader == asked <==> proc.m.termId <= a.termId)
      && (proc.m.termId > a.termId ==> s'.procs[a.to] == proc)
  {
    var proc := s.procs[a.to];
    assert |proc.pending.acquireLeader + multiset{a.functional}| == |proc.pending.acquireLeader| + 1;
  }

  const GROUP := Roster(["a", "b", "c"], 2)

  const BEGINNING: System := Beginning(GROUP)

  /** c elects a, on a's answer and its own, and then, a not having taken office, b, on b's answer and its own. */
  const FIRST := Ballot("c", "a", CHILDREN, [
    Vote("a", INVALID_VALUE, 0, FollowerWaitToJoinGroup), Vote("c", INVALID_VALUE, 0, EcElectionInProgress)])

  const SECOND := Ballot("c", "b", CHILDREN, [
    Vote("b", INVALID_VALUE, 0, FollowerWaitToJoinGroup), Vote("c", INVALID_VALUE, 0, EcElectionInProgress)])

  const FIRST_REPLIES: seq<Option<Vote>> := [Some(FIRST.answers[0]), None, Some(FIRST.answers[1])]

  const SECOND_REPLIES: seq<Option<Vote>> := [None, Some(SECOND.answers[0]), Some(SECOND.answers[1])]

  const SECOND_ELECTION: seq<Event> := FirstElection(FIRST) + Voting(SECOND, 2) + Result(SECOND)

  const LATE: seq<Event> := SECOND_ELECTION + Taking(AppointmentOf(FIRST, 1))

  lemma {:induction false} SecondVotes()
    ensures
      var s := Run(BEGINNING, FirstElection(FIRST) + Voting(SECOND, 2));
      && s.procs == map["a" := IDLE, "b" := IDLE, "c" := Asked(Resigned(FRESH, 1).m, 2)]
      && s.configs == BEGINNING.configs && s.version == 2 && s.issued == ISSUED + [(2, "c")]
      && s.appointments == {AppointmentOf(FIRST, 1)}
  {
    FirstAppointed(GROUP, FIRST);
    Candidate("c", "a", "b", 1, 2);
    var s := Run(BEGINNING, FirstElection(FIRST));
    assert CanElect(GROUP, SECOND, s);
    VotesAreAsked(GROUP, SECOND, s);
    RunAppend(BEGINNING, FirstElection(FIRST), Voting(SECOND, 2));
  }

  lemma {:induction false} SecondAppointed()
    ensures
      var s := Run(BEGINNING, SECOND_ELECTION);
      && s.procs == map["a" := IDLE, "b" := IDLE, "c" := Resigned(Resigned(FRESH, 1).m, 2)]
      && s.configs == BEGINNING.configs && s.version == 2 && s.lock == None && s.issued == ISSUED + [(2, "c")]
      && s.appointments == {AppointmentOf(FIRST, 1), AppointmentOf(SECOND, 2)}
  {
    SecondVotes();
    var s := Run(BEGINNING, FirstElection(FIRST) + Voting(SECOND, 2));
    WinnerIsAppointed(GROUP, SECOND, s, Resigned(FRESH, 1).m, 2);
    RunAppend(BEGINNING, FirstElection(FIRST) + Voting(SECOND, 2), Result(SECOND));
  }

  /** The appointment of the first election, late, takes the LOCK ahead of that of the second. */
  lemma {:induction false} StaleAppointmentLeads()
    ensures
      var s := Run(BEGINNING, LATE);
      && s.issued == [(1, "c"), (2, "c")] && s.version == 2
      && AppointmentOf(SECOND, 2) in s.appointments && AppointmentOf(SECOND, 2).to == "b"
      && "a" in s.procs && s.procs["a"].m == TakeOffice(GROUP.ConfigOf("a"), FRESH, AppointmentOf(FIRST, 1).functional)
      && s.procs["a"].m.state == LeaderFunctional && s.lock == Some(Lock("a", Leader))
  {
    SecondAppointed();
    var s := Run(BEGINNING, SECOND_ELECTION);
    assert CanTake(GROUP, AppointmentOf(FIRST, 1), s);
    WinnerTakesOffice(GROUP, AppointmentOf(FIRST, 1), s);
    RunAppend(BEGINNING, SECOND_ELECTION, Taking(AppointmentOf(FIRST, 1)));
    assert |AppointmentOf(FIRST, 1).functional| == 2;
  }

  lemma {:induction false} FirstTallied()
    ensures Tally(FIRST_REPLIES) == map[INVALID_VALUE := FIRST.answers]
  {
    var r := FIRST_REPLIES;
    assert r[..2] == [r[0], r[1]] && r[..2][..1] == [r[0]] && r[..2][..1][..0] == [];
    assert Answered(r[..2][..1]) == [FIRST.answers[0]];
    assert Answered(r[..2]) == [FIRST.answers[0]];
    assert Answered(r) == FIRST.answers;
    TallyAsCoded(r);
  }

  lemma {:induction false} SecondTallied()
    ensures Tally(SECOND_REPLIES) == map[INVALID_VALUE := SECOND.answers]
  {
    var r := SECOND_REPLIES;
    assert r[..2] == [r[0], r[1]] && r[..2][..1] == [r[0]] && r[..2][..1][..0] == [];
    assert Answered(r[..2][..1]) == [];
    assert Answered(r[..2]) == [SECOND.answers[0]];
    assert Answered(r) == SECOND.answers;
    TallyAsCoded(r);
  }

  lemma {:induction false} FirstReal()
    ensures RealRun(GROUP, BEGINNING, FirstElection(FIRST))
  {
    FirstTallied();
    FirstIsReal(GROUP, FIRST, FIRST_REPLIES);
  }

  lemma {:induction false} SecondGiven()
    ensures Given(GROUP, BEGINNING, FirstElection(FIRST) + Voting(SECOND, 2), SECOND_REPLIES)
  {
    SecondVotes();
    GivenNow(GROUP, BEGINNING, FirstElection(FIRST) + Voting(SECOND, 2), SECOND_REPLIES, 2);
  }

  /** The votes of both elections are what the members answer. */
  lemma {:induction false} RunIsReal()
    ensures GROUP.Fits(BEGINNING.configs) && RealRun(GROUP, BEGINNING, LATE)
  {
    FirstReal();
    SecondTallied();
    SecondGiven();
    RealElectionAppended(GROUP, BEGINNING, FirstElection(FIRST), SECOND, 2, SECOND_REPLIES);
    TakingHasNoVotes(AppointmentOf(FIRST, 1));
    RealWithout(GROUP, BEGINNING, SECOND_ELECTION, Taking(AppointmentOf(FIRST, 1)));
  }
}
