/**
 * A run in which a leader steps down while it keeps the LOCK. A follower's sync is under way, with the consent of the
 * leader, when that leader ends; the follower is elected and takes office before its sync ends; and the end of the
 * sync then sets its state outright (src/infra/PBMember.cpp, src/volumeserver/VolumeServer.cpp).
 */
module LateReplies {
  import opened Common
  import opened Members
  import opened Elections
  import opened LockProtocol
  import opened Offices
  import opened CodedVotes
  import opened ElectionRuns
  import opened ThreeMembers

  const GROUP := Roster(["b", "a", "c"], 2)

  const CONFIGS: map<MemberId, Config> := BEGINNING.configs

  /** The first election: c elects a, on a's answer and its own; b's is lost. */
  const FIRST := Ballot("c", "a", CHILDREN, [
    Vote("a", INVALID_VALUE, 0, FollowerWaitToJoinGroup), Vote("c", INVALID_VALUE, 0, EcElectionInProgress)])

  const FIRST_REPLIES: seq<Option<Vote>> := [None, Some(FIRST.answers[0]), Some(FIRST.answers[1])]

  const FIRST_APPOINTMENT := AppointmentOf(FIRST, 1)

  /** The second, when a has restarted: everybody answers, and b is first in the list. */
  const SECOND := Ballot("c", "b", [MemberNode(0, "c"), MemberNode(2, "b"), MemberNode(3, "a")], [
    Vote("b", INVALID_VALUE, 0, FollowerSyncing), Vote("a", INVALID_VALUE, 0, FollowerWaitToJoinGroup),
    Vote("c", INVALID_VALUE, 0, EcElectionInProgress)])

  const SECOND_REPLIES: seq<Option<Vote>> := [Some(SECOND.answers[0]), Some(SECOND.answers[1]), Some(SECOND.answers[2])]

  const SECOND_APPOINTMENT := AppointmentOf(SECOND, 2)

  /** b is told to sync, a lets it join, and ends. */
  const SYNCING: seq<Event> := [
    GroupInfoArrives("b", 1, "a", FIRST_APPOINTMENT.functional), SyncRequestArrives("a", "b", 1, 0), Crash("a")]

  const RESTARTING: seq<Event> := [Start("a")]

  const LED_BY_A: seq<Event> := FirstElection(FIRST) + Taking(FIRST_APPOINTMENT)

  const SECOND_ASKED: seq<Event> := LED_BY_A + SYNCING + RESTARTING

  const LED_BY_B: seq<Event> := SECOND_ASKED + Voting(SECOND, 2) + Result(SECOND) + Taking(SECOND_APPOINTMENT)

  const BEGINNING: System := Beginning(GROUP)

  // ---------- the first leader ----------

  /** a as it leads. */
  const A_LEADS: Proc := InLead(GROUP, FIRST_APPOINTMENT, IDLE)

  /** What holds once a leads: nothing is under way but what is named. */
  ghost predicate AfterFirst(s: System) {
    && s.configs == CONFIGS && s.procs == map["a" := A_LEADS, "b" := IDLE, "c" := Resigned(FRESH, 1)]
    && s.lock == Some(Lock("a", Leader)) && s.version == 1 && s.issued == ISSUED
    && s.appointments == {FIRST_APPOINTMENT} && s.asking == map[] && s.joined == {}
  }

  lemma {:induction false} ALeads()
    ensures AfterFirst(Run(BEGINNING, LED_BY_A))
  {
    FirstLeads(GROUP, FIRST);
    assert map["a" := IDLE, "b" := IDLE, "c" := Resigned(FRESH, 1)]["a" := A_LEADS] ==
           map["a" := A_LEADS, "b" := IDLE, "c" := Resigned(FRESH, 1)];
  }

  // ---------- b's sync, and the end of a ----------

  const B_SYNCING: Member := FRESH.(leaderId := "a", state := FollowerSyncing, termId := 1)

  const B_SYNCS: Proc := Proc(B_SYNCING, NOTHING_PENDING.(sync := 1))

  lemma {:induction false} SyncBegins(s: System)
    requires AfterFirst(s)
    ensures Step(s, SYNCING[0]) == s.(procs := s.procs["b" := B_SYNCS], asking := map["b" := SyncRequest("a", 1)])
  {
    var f := FIRST_APPOINTMENT.functional;
    assert f[0].id == "a" && f[1].id == "c" && |f| == 2;
    assert f[1..][1..] == [];
    assert FindVote(f[1..][1..], "b") == None;
    assert FindVote(f[1..], "b") == None;
    assert FindVote(f, "b") == None;
    assert HandledBy(CONFIGS["b"], IDLE, SYNCING[0]) == B_SYNCS;
    assert s.appointments + {} == s.appointments;
  }

  lemma {:induction false} LeaderConsents(s: System)
    requires s.configs == CONFIGS && "a" in s.procs && s.procs["a"] == A_LEADS
    requires s.asking == map["b" := SyncRequest("a", 1)] && s.joined == {}
    ensures JoinAnswer(s, "a", "b", 1, 0) == Ok
    ensures
      var s' := Step(s, SyncRequestArrives("a", "b", 1, 0));
      s' == s.(procs := s.procs["a" := s'.procs["a"]], asking := map[], joined := {"b"})
  {
    assert A_LEADS.m.state == LeaderFunctional;
    assert s.asking - {"b"} == map[];
    assert s.appointments + {} == s.appointments;
  }

  lemma {:induction false} LeaderEnds(s: System)
    requires "a" in s.procs && s.lock == Some(Lock("a", Leader)) && s.asking == map[] && s.joined == {"b"}
    ensures Step(s, Crash("a")) == s.(procs := s.procs - {"a"}, lock := None)
  {
    assert s.joined - {"a"} == s.joined;
  }

  /** a has started afresh, b's sync is under way with the consent it got, and nobody holds the LOCK. */
  ghost predicate BeforeSecond(s: System) {
    && s.configs == CONFIGS && s.procs == map["a" := IDLE, "b" := B_SYNCS, "c" := Resigned(FRESH, 1)]
    && s.lock == None && s.version == 1 && s.issued == ISSUED
    && s.appointments == {FIRST_APPOINTMENT} && s.asking == map[] && s.joined == {"b"}
  }

  lemma {:induction false} SyncAdmitted(s: System, s2: System)
    requires AfterFirst(s) && s2 == Step(Step(s, SYNCING[0]), SyncRequestArrives("a", "b", 1, 0))
    ensures "a" in s2.procs && s2.procs - {"a"} == map["b" := B_SYNCS, "c" := Resigned(FRESH, 1)]
    ensures s2 == s.(procs := s2.procs, joined := {"b"})
  {
    SyncBegins(s);
    LeaderConsents(Step(s, SYNCING[0]));
  }

  lemma {:induction false} Restarts(s: System)
    requires s.configs == CONFIGS && s.procs == map["b" := B_SYNCS, "c" := Resigned(FRESH, 1)]
    ensures Run(s, RESTARTING) == s.(procs := map["a" := IDLE, "b" := B_SYNCS, "c" := Resigned(FRESH, 1)])
  {
    OneStep(s, Start("a"));
    assert s.procs["a" := IDLE] == map["a" := IDLE, "b" := B_SYNCS, "c" := Resigned(FRESH, 1)];
  }

  lemma {:induction false} SyncOutlivesLeader(s: System)
    requires AfterFirst(s)
    ensures BeforeSecond(Run(Run(s, SYNCING), RESTARTING))
  {
    ThreeSteps(s, SYNCING[0], SyncRequestArrives("a", "b", 1, 0), Crash("a"));
    var s2 := Step(Step(s, SYNCING[0]), SyncRequestArrives("a", "b", 1, 0));
    SyncAdmitted(s, s2);
    LeaderEnds(s2);
    Restarts(Step(s2, Crash("a")));
  }

  // ---------- the second leader ----------

  const SECOND_ISSUED: seq<(int, MemberId)> := [(1, "c"), (2, "c")]

  lemma {:induction false} SecondVotes(s: System)
    requires BeforeSecond(s)
    ensures
      var s' := Run(s, Voting(SECOND, 2));
      && s' == With(s, "c", Asked(Resigned(FRESH, 1).m, 2), Some(Lock("c", Elector)), 2, SECOND_ISSUED)
      && s'.procs == map["a" := IDLE, "b" := B_SYNCS, "c" := Asked(Resigned(FRESH, 1).m, 2)]
  {
    Candidate("c", "b", "a", 2, 3);
    assert CanElect(GROUP, SECOND, s);
    VotesAreAsked(GROUP, SECOND, s);
    assert s.issued + [(2, "c")] == SECOND_ISSUED;
  }

  lemma {:induction false} SecondAppointed(s: System)
    requires s.configs == CONFIGS && s.procs == map["a" := IDLE, "b" := B_SYNCS, "c" := Asked(Resigned(FRESH, 1).m, 2)]
    ensures
      var s' := Run(s, Result(SECOND));
      && s'.procs == map["a" := IDLE, "b" := B_SYNCS, "c" := Resigned(Resigned(FRESH, 1).m, 2)]
      && s' == s.(procs := s'.procs, lock := None, appointments := s.appointments + {SECOND_APPOINTMENT})
  {
    WinnerIsAppointed(GROUP, SECOND, s, Resigned(FRESH, 1).m, 2);
  }

  /** b as it leads, its sync still under way. */
  const B_LEADS: Proc := InLead(GROUP, SECOND_APPOINTMENT, B_SYNCS)

  lemma {:induction false} SecondTakes(s: System)
    requires s.configs == CONFIGS && s.lock == None && SECOND_APPOINTMENT in s.appointments
    requires s.procs == map["a" := IDLE, "b" := B_SYNCS, "c" := Resigned(Resigned(FRESH, 1).m, 2)]
    ensures Run(s, Taking(SECOND_APPOINTMENT)) == s.(procs := s.procs["b" := B_LEADS], lock := Some(Lock("b", Leader)))
  {
    assert CanTake(GROUP, SECOND_APPOINTMENT, s);
    WinnerTakesOffice(GROUP, SECOND_APPOINTMENT, s);
  }

  lemma {:induction false} SecondLeads(s: System)
    requires BeforeSecond(s)
    ensures
      var s' := Run(Run(Run(s, Voting(SECOND, 2)), Result(SECOND)), Taking(SECOND_APPOINTMENT));
      && s'.configs == CONFIGS && "b" in s'.procs && s'.procs["b"] == B_LEADS
      && s'.lock == Some(Lock("b", Leader)) && s'.joined == {"b"}
  {
    SecondVotes(s);
    var s1 := Run(s, Voting(SECOND, 2));
    SecondAppointed(s1);
    var s2 := Run(s1, Result(SECOND));
    assert SECOND_APPOINTMENT in s2.appointments;
    SecondTakes(s2);
  }

  // ---------- the whole run ----------

  lemma {:induction false} SecondAsked()
    ensures BeforeSecond(Run(BEGINNING, SECOND_ASKED))
  {
    ALeads();
    RunAppend(BEGINNING, LED_BY_A, SYNCING);
    RunAppend(BEGINNING, LED_BY_A + SYNCING, RESTARTING);
    SyncOutlivesLeader(Run(BEGINNING, LED_BY_A));
  }

  lemma {:induction false} LedByB()
    ensures
      var s := Run(BEGINNING, LED_BY_B);
      && s.configs == CONFIGS && "b" in s.procs && s.procs["b"] == B_LEADS
      && s.lock == Some(Lock("b", Leader)) && s.joined == {"b"}
  {
    SecondAsked();
    RunAppend(BEGINNING, SECOND_ASKED, Voting(SECOND, 2));
    RunAppend(BEGINNING, SECOND_ASKED + Voting(SECOND, 2), Result(SECOND));
    RunAppend(BEGINNING, SECOND_ASKED + Voting(SECOND, 2) + Result(SECOND), Taking(SECOND_APPOINTMENT));
    SecondLeads(Run(BEGINNING, SECOND_ASKED));
  }

  lemma {:induction false} SyncEnds(s: System)
    requires s.configs == CONFIGS && "b" in s.procs && s.procs["b"] == B_LEADS && s.joined == {"b"}
    ensures
      var s' := Step(s, SyncDone("b"));
      s'.lock == s.lock && "b" in s'.procs && s'.procs["b"] == Proc(SyncCompleted(B_LEADS.m), NOTHING_PENDING)
  {
    assert B_LEADS.pending == NOTHING_PENDING.(sync := 1);
  }

  /**
   * A leader does step down: b leads, with the LOCK; the sync that a let it begin ends; and b keeps the LOCK but no
   * longer leads.
   */
  lemma {:induction false} StepDownReached()
    ensures
      var s := Run(BEGINNING, LED_BY_B);
      var s' := Run(BEGINNING, LED_BY_B + [SyncDone("b")]);
      && Handler(s, SyncDone("b")) == Some("b")
      && s.procs["b"].m.state == LeaderFunctional && s.lock == Some(Lock("b", Leader))
      && "b" in s'.procs && s'.procs["b"].m.state == FollowerFunctional && s'.lock == s.lock
  {
    LedByB();
    RunAppend(BEGINNING, LED_BY_B, [SyncDone("b")]);
    OneStep(Run(BEGINNING, LED_BY_B), SyncDone("b"));
    SyncEnds(Run(BEGINNING, LED_BY_B));
    assert |SECOND_APPOINTMENT.functional| == 3;
  }

  // ---------- the votes are what the members answer ----------

  lemma {:induction false} FirstTallied()
    ensures Tally(FIRST_REPLIES) == map[INVALID_VALUE := FIRST.answers]
  {
    var r := FIRST_REPLIES;
    assert r[..2] == [r[0], r[1]] && r[..2][..1] == [r[0]] && r[..2][..1][..0] == [];
    assert Answered(r[..2][..1]) == [];
    assert Answered(r[..2]) == [FIRST.answers[0]];
    assert Answered(r) == FIRST.answers;
    TallyAsCoded(r);
  }

  lemma {:induction false} SecondTallied()
    ensures Tally(SECOND_REPLIES) == map[INVALID_VALUE := SECOND.answers]
  {
    var r := SECOND_REPLIES;
    assert r[..2] == [r[0], r[1]] && r[..2][..1] == [r[0]] && r[..2][..1][..0] == [];
    assert Answered(r[..2][..1]) == [SECOND.answers[0]];
    assert Answered(r[..2]) == [SECOND.answers[0], SECOND.answers[1]];
    assert Answered(r) == SECOND.answers;
    TallyAsCoded(r);
  }

  lemma {:induction false} SecondGiven()
    ensures Given(GROUP, BEGINNING, SECOND_ASKED + Voting(SECOND, 2), SECOND_REPLIES)
  {
    SecondAsked();
    RunAppend(BEGINNING, SECOND_ASKED, Voting(SECOND, 2));
    SecondVotes(Run(BEGINNING, SECOND_ASKED));
    GivenNow(GROUP, BEGINNING, SECOND_ASKED + Voting(SECOND, 2), SECOND_REPLIES, 2);
  }

  lemma {:induction false} SecondIsReal()
    requires RealRun(GROUP, BEGINNING, SECOND_ASKED)
    ensures RealRun(GROUP, BEGINNING, LED_BY_B)
  {
    SecondGiven();
    SecondTallied();
    RealElectionAppended(GROUP, BEGINNING, SECOND_ASKED, SECOND, 2, SECOND_REPLIES);
    TakingHasNoVotes(SECOND_APPOINTMENT);
    RealWithout(GROUP, BEGINNING, SECOND_ASKED + Voting(SECOND, 2) + Result(SECOND), Taking(SECOND_APPOINTMENT));
  }

  /** The votes counted in both elections are what the members answer at that moment. */
  lemma {:induction false} RunIsReal()
    ensures GROUP.Fits(CONFIGS) && RealRun(GROUP, BEGINNING, LED_BY_B + [SyncDone("b")])
  {
    FirstTallied();
    FirstIsReal(GROUP, FIRST, FIRST_REPLIES);
    TakingHasNoVotes(FIRST_APPOINTMENT);
    RealWithout(GROUP, BEGINNING, FirstElection(FIRST), Taking(FIRST_APPOINTMENT));
    RealWithout(GROUP, BEGINNING, LED_BY_A, SYNCING);
    RealWithout(GROUP, BEGINNING, LED_BY_A + SYNCING, RESTARTING);
    SecondIsReal();
    RealWithout(GROUP, BEGINNING, LED_BY_B, [SyncDone("b")]);
  }
}
