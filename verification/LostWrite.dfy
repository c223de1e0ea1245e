/**
 * The elections around the lost write of CodedElections, as a run of the protocol: b is elected and leads, and when
 * it ends a is elected, on the answers of the members that are left.
 */
module LostWrites {
  import opened Common
  import opened Members
  import opened Elections
  import opened LockProtocol
  import opened Offices
  import opened CodedVotes
  import opened ElectionRuns
  import opened ThreeMembers
  import Loss = CodedElections
  import Cluster

  const GROUP := Roster(["a", "b", "c"], 2)

  const BEGINNING: System := Beginning(GROUP)

  /** c elects b, on b's answer and its own; a's is lost. */
  const FIRST := Ballot("c", "b", CHILDREN, [
    Vote("b", INVALID_VALUE, 0, FollowerWaitToJoinGroup), Vote("c", INVALID_VALUE, 0, EcElectionInProgress)])

  const FIRST_REPLIES: seq<Option<Vote>> := [None, Some(FIRST.answers[0]), Some(FIRST.answers[1])]

  const LED_BY_B: seq<Event> := FirstElection(FIRST) + Taking(AppointmentOf(FIRST, 1))

  /** When b has ended, c elects a, on the answers of both. */
  const SECOND := Ballot("c", "a", [MemberNode(0, "c"), MemberNode(1, "a")], Loss.LOSS_VOTES)

  const B_ENDED: seq<Event> := LED_BY_B + [Crash("b")]

  const LED_BY_A: seq<Event> := B_ENDED + Voting(SECOND, 2) + Result(SECOND) + Taking(AppointmentOf(SECOND, 2))

  const B_LEADS: Proc := InLead(GROUP, AppointmentOf(FIRST, 1), IDLE)

  lemma {:induction false} BLeads()
    ensures
      var s := Run(BEGINNING, LED_BY_B);
      && s.procs == map["a" := IDLE, "b" := B_LEADS, "c" := Resigned(FRESH, 1)]
      && s == BEGINNING.(procs := s.procs, lock := Some(Lock("b", Leader)), version := 1, issued := ISSUED,
                         appointments := {AppointmentOf(FIRST, 1)})
  {
    FirstLeads(GROUP, FIRST);
    assert map["a" := IDLE, "b" := IDLE, "c" := Resigned(FRESH, 1)]["b" := B_LEADS] ==
           map["a" := IDLE, "b" := B_LEADS, "c" := Resigned(FRESH, 1)];
  }

  lemma {:induction false} BEnds()
    ensures
      var s := Run(BEGINNING, B_ENDED);
      && s.procs == map["a" := IDLE, "c" := Resigned(FRESH, 1)]
      && s == BEGINNING.(procs := s.procs, version := 1, issued := ISSUED, appointments := {AppointmentOf(FIRST, 1)})
  {
    BLeads();
    RunAppend(BEGINNING, LED_BY_B, [Crash("b")]);
    OneStep(Run(BEGINNING, LED_BY_B), Crash("b"));
    var s := Run(BEGINNING, LED_BY_B);
    assert s.asking == map[] && s.joined == {};
    assert s.procs - {"b"} == map["a" := IDLE, "c" := Resigned(FRESH, 1)];
  }

  lemma {:induction false} TwoChildren()
    ensures CanBeElector(ParseMembers(SECOND.children), "c", true) && |ParseMembers(SECOND.children)| == 2
  {
    var ch := SECOND.children;
    assert ch[..1] == [ch[0]] && ch[..1][..0] == [];
    assert ParseMembers(ch[..1]) == map[0 := "c"];
    var members: map<nat, MemberId> := map[0 := "c", 1 := "a"];
    assert ParseMembers(ch) == members;
    assert members[0] == "c" && forall k | k in members :: 0 <= k;
    assert |members.Keys| == 2 by { assert members.Keys == {0, 1}; }
  }

  lemma {:induction false} SecondVotes()
    ensures
      var s := Run(BEGINNING, B_ENDED + Voting(SECOND, 2));
      && s.procs == map["a" := IDLE, "c" := Asked(Resigned(FRESH, 1).m, 2)]
      && s.configs == BEGINNING.configs && s.version == 2
  {
    BEnds();
    TwoChildren();
    var s := Run(BEGINNING, B_ENDED);
    assert CanElect(GROUP, SECOND, s);
    VotesAreAsked(GROUP, SECOND, s);
    RunAppend(BEGINNING, B_ENDED, Voting(SECOND, 2));
  }

  lemma {:induction false} SecondTakes(s: System)
    requires s.configs == BEGINNING.configs && s.procs == map["a" := IDLE, "c" := Asked(Resigned(FRESH, 1).m, 2)]
    ensures
      var s' := Run(Run(s, Result(SECOND)), Taking(AppointmentOf(SECOND, 2)));
      "a" in s'.procs && s'.procs["a"] == InLead(GROUP, AppointmentOf(SECOND, 2), IDLE)
  {
    WinnerIsAppointed(GROUP, SECOND, s, Resigned(FRESH, 1).m, 2);
    var s1 := Run(s, Result(SECOND));
    assert s1.procs["a"] == IDLE && AppointmentOf(SECOND, 2) in s1.appointments;
    assert CanTake(GROUP, AppointmentOf(SECOND, 2), s1);
    WinnerTakesOffice(GROUP, AppointmentOf(SECOND, 2), s1);
  }

  lemma {:induction false} ALeads()
    ensures
      var s := Run(BEGINNING, LED_BY_A);
      "a" in s.procs && s.procs["a"] == InLead(GROUP, AppointmentOf(SECOND, 2), IDLE)
  {
    SecondVotes();
    RunAppend(BEGINNING, B_ENDED + Voting(SECOND, 2), Result(SECOND));
    RunAppend(BEGINNING, B_ENDED + Voting(SECOND, 2) + Result(SECOND), Taking(AppointmentOf(SECOND, 2)));
    SecondTakes(Run(BEGINNING, B_ENDED + Voting(SECOND, 2)));
  }

  lemma {:induction false} FirstTallied()
    ensures Tally(FIRST_REPLIES) == map[INVALID_VALUE := FIRST.answers]
  {
    var r := FIRST_REPLIES;
    assert r[..2] == [r[0], r[1]] && r[..2][..1] == [r[0]] && r[..2][..1][..0] == [];
    assert Answered(r[..2][..1]) == [];
    assert Answered(r[..2]) == [FIRST.answers[0]];
    assert Answered(r) == FIRST.answers;
    TallyAsCoded(r);
  }

  lemma {:induction false} SecondGiven()
    ensures Given(GROUP, BEGINNING, B_ENDED + Voting(SECOND, 2), Loss.LOSS_REPLIES)
  {
    SecondVotes();
    GivenNow(GROUP, BEGINNING, B_ENDED + Voting(SECOND, 2), Loss.LOSS_REPLIES, 2);
  }

  lemma {:induction false} FirstReal()
    ensures RealRun(GROUP, BEGINNING, B_ENDED)
  {
    FirstTallied();
    FirstIsReal(GROUP, FIRST, FIRST_REPLIES);
    TakingHasNoVotes(AppointmentOf(FIRST, 1));
    RealWithout(GROUP, BEGINNING, FirstElection(FIRST), Taking(AppointmentOf(FIRST, 1)));
    RealWithout(GROUP, BEGINNING, LED_BY_B, [Crash("b")]);
  }

  lemma {:induction false} RunIsReal()
    ensures GROUP.Fits(BEGINNING.configs) && RealRun(GROUP, BEGINNING, LED_BY_A)
  {
    FirstReal();
    SecondGiven();
    Loss.LossElects();
    RealElectionAppended(GROUP, BEGINNING, B_ENDED, SECOND, 2, Loss.LOSS_REPLIES);
    TakingHasNoVotes(AppointmentOf(SECOND, 2));
    RealWithout(GROUP, BEGINNING, B_ENDED + Voting(SECOND, 2) + Result(SECOND), Taking(AppointmentOf(SECOND, 2)));
  }

  /**
   * In a run whose votes are what the members answer, b leads as the leader of the group in which the write succeeds;
   * b ends; the votes that a and c then give are those that elect a; and a leads, its journal empty.
   */
  lemma {:induction false} LossIsReached()
    ensures RealRun(GROUP, BEGINNING, LED_BY_A)
    ensures
      var s := Run(BEGINNING, LED_BY_B);
      && "b" in s.procs && s.lock == Some(Lock("b", Leader))
      && s.procs["b"].m == Cluster.Start(Loss.LOSS_CONFIG, FRESH, Loss.LOSS_APPOINTMENT).leader
    ensures Given(GROUP, BEGINNING, B_ENDED + Voting(SECOND, 2), Loss.LOSS_REPLIES)
    ensures
      var s := Run(BEGINNING, LED_BY_A);
      "a" in s.procs && s.procs["a"].m.state == LeaderFunctional
    ensures
      var g := Cluster.Reached(Loss.LOSS_CONFIG, FRESH, Loss.LOSS_APPOINTMENT, Loss.LOSS_RUN);
      Cluster.Succeeded(g, 0) && "a" in g.replicas && g.replicas["a"].log == []
  {
    RunIsReal();
    BLeads();
    assert MarkFunctional(FIRST.answers) == Loss.LOSS_APPOINTMENT;
    SecondGiven();
    ALeads();
    assert |MarkFunctional(SECOND.answers)| == 2;
    Loss.ElectionLosesWrite();
  }
}
