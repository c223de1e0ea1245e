/**
 * The beginning that the runs of the following modules share: a group of three members, listed in any order, of which
 * c started first; and its first election, in which c elects another member.
 */
module ThreeMembers {
  import opened Common
  import opened Members
  import opened Elections
  import opened LockProtocol
  import opened Offices
  import opened CodedVotes
  import opened ElectionRuns

  const IDLE: Proc := Proc(FRESH, NOTHING_PENDING)

  function Beginning(g: Roster): System {
    Init(map["a" := g.ConfigOf("a"), "b" := g.ConfigOf("b"), "c" := g.ConfigOf("c")], 0)
  }

  const STARTING: seq<Event> := [Start("c"), Start("a"), Start("b")]

  const CHILDREN: seq<Child> := [MemberNode(0, "c"), MemberNode(1, "a"), MemberNode(2, "b")]

  lemma {:induction false} Started(g: Roster)
    ensures Run(Beginning(g), STARTING) == Beginning(g).(procs := map["a" := IDLE, "b" := IDLE, "c" := IDLE])
  {
    var s := Beginning(g);
    ThreeSteps(s, Start("c"), Start("a"), Start("b"));
    var s1 := Step(s, Start("c"));
    assert s1 == s.(procs := map["c" := IDLE]);
    var s2 := Step(s1, Start("a"));
    assert s2 == s.(procs := map["c" := IDLE, "a" := IDLE]);
    assert Step(s2, Start("b")).procs == map["a" := IDLE, "b" := IDLE, "c" := IDLE];
  }

  /** The first child has the lowest number, so its member is the candidate. */
  lemma {:induction false} Candidate(first: MemberId, second: MemberId, third: MemberId, n: nat, k: nat)
    requires 0 < n < k
    ensures
      var members := ParseMembers([MemberNode(0, first), MemberNode(n, second), MemberNode(k, third)]);
      CanBeElector(members, first, true) && |members| == 3
  {
    var ch := [MemberNode(0, first), MemberNode(n, second), MemberNode(k, third)];
    assert ch[..2] == [ch[0], ch[1]] && ch[..2][..1] == [ch[0]] && ch[..2][..1][..0] == [];
    assert ParseMembers(ch[..2][..1]) == map[0 := first];
    assert ParseMembers(ch[..2]) == map[0 := first, n := second];
    var members: map<nat, MemberId> := map[0 := first, n := second, k := third];
    assert ParseMembers(ch) == members;
    assert members[0] == first && forall i | i in members :: 0 <= i;
    assert |members.Keys| == 3 by { assert members.Keys == {0, n, k}; }
  }

  /** A first election by c. */
  ghost predicate FirstBallot(g: Roster, b: Ballot) {
    && b.elector == "c" && (b.winner == "a" || b.winner == "b") && b.children == CHILDREN
    && 3 >= g.quorum > 0 && |b.answers| >= g.quorum && b.answers[0].id == b.winner
  }

  const ISSUED: seq<(int, MemberId)> := [(1, "c")]

  function FirstElection(b: Ballot): seq<Event> { STARTING + Voting(b, 1) + Result(b) }

  lemma {:induction false} FirstCanElect(g: Roster, b: Ballot, s: System)
    requires FirstBallot(g, b)
    requires s == Beginning(g).(procs := map["a" := IDLE, "b" := IDLE, "c" := IDLE])
    ensures CanElect(g, b, s)
  {
    Candidate("c", "a", "b", 1, 2);
  }

  lemma {:induction false} FirstVotes(g: Roster, b: Ballot)
    requires FirstBallot(g, b)
    ensures
      var s := Run(Beginning(g), STARTING + Voting(b, 1));
      && s.procs == map["a" := IDLE, "b" := IDLE, "c" := Asked(FRESH, 1)]
      && s == Beginning(g).(procs := s.procs, lock := Some(Lock("c", Elector)), version := 1, issued := ISSUED)
  {
    Started(g);
    var s := Run(Beginning(g), STARTING);
    FirstCanElect(g, b, s);
    VotesAreAsked(g, b, s);
    RunAppend(Beginning(g), STARTING, Voting(b, 1));
    assert s.issued + [(1, "c")] == ISSUED;
    assert s.procs["c" := Asked(FRESH, 1)] == map["a" := IDLE, "b" := IDLE, "c" := Asked(FRESH, 1)];
  }

  lemma {:induction false} FirstAppointed(g: Roster, b: Ballot)
    requires FirstBallot(g, b)
    ensures
      var s := Run(Beginning(g), FirstElection(b));
      && s.procs == map["a" := IDLE, "b" := IDLE, "c" := Resigned(FRESH, 1)]
      && s == Beginning(g).(procs := s.procs, version := 1, issued := ISSUED, appointments := {AppointmentOf(b, 1)})
  {
    FirstVotes(g, b);
    var s := Run(Beginning(g), STARTING + Voting(b, 1));
    WinnerIsAppointed(g, b, s, FRESH, 1);
    RunAppend(Beginning(g), STARTING + Voting(b, 1), Result(b));
    assert s.appointments + {AppointmentOf(b, 1)} == {AppointmentOf(b, 1)};
  }

  lemma {:induction false} FirstLeads(g: Roster, b: Ballot)
    requires FirstBallot(g, b)
    ensures
      var s := Run(Beginning(g), FirstElection(b) + Taking(AppointmentOf(b, 1)));
      && s.procs == map["a" := IDLE, "b" := IDLE, "c" := Resigned(FRESH, 1)]
                    [b.winner := InLead(g, AppointmentOf(b, 1), IDLE)]
      && s == Beginning(g).(procs := s.procs, lock := Some(Lock(b.winner, Leader)), version := 1, issued := ISSUED,
                            appointments := {AppointmentOf(b, 1)})
  {
    FirstAppointed(g, b);
    var s := Run(Beginning(g), FirstElection(b));
    assert CanTake(g, AppointmentOf(b, 1), s);
    WinnerTakesOffice(g, AppointmentOf(b, 1), s);
    RunAppend(Beginning(g), FirstElection(b), Taking(AppointmentOf(b, 1)));
  }

  lemma {:induction false} TakingHasNoVotes(a: Appointment)
    ensures forall i | 0 <= i < |Taking(a)| :: !Taking(a)[i].VotesIn?
  {
  }

  /** The first election is real if its votes are what idle members and the elector answer. */
  lemma {:induction false} FirstIsReal(g: Roster, b: Ballot, replies: seq<Option<Vote>>)
    requires FirstBallot(g, b) && |replies| == |g.memberIds| && Tally(replies) == map[INVALID_VALUE := b.answers]
    requires forall i | 0 <= i < |replies| && replies[i].Some? ::
               && (g.memberIds[i] == "a" || g.memberIds[i] == "b" || g.memberIds[i] == "c")
               && replies[i].value ==
                  Vote(g.memberIds[i], INVALID_VALUE, 0,
                       if g.memberIds[i] == "c" then EcElectionInProgress else FollowerWaitToJoinGroup)
    ensures RealRun(g, Beginning(g), FirstElection(b))
  {
    RealWithout(g, Beginning(g), [], STARTING);
    assert [] + STARTING == STARTING;
    FirstVotes(g, b);
    GivenNow(g, Beginning(g), STARTING + Voting(b, 1), replies, 1);
    RealElectionAppended(g, Beginning(g), STARTING, b, 1, replies);
  }
}
