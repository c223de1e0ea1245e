/**
 * When a member sets out to be elector, when it asks for votes, and what it does without enough of them: on the
 * children of the group as they are listed to it, and in every run (src/infra/PBMember.cpp).
 */
module Electors {
  import opened Common
  import opened Members
  import opened LockProtocol
  import opened ElectionRuns

  // ---------- what the children say ----------

  /** The sequence numbers of the members among the children. */
  function SeqNos(children: seq<Child>): set<nat> {
    set i | 0 <= i < |children| && children[i].MemberNode? :: children[i].seqNo
  }

  /** A child names the member under the lowest number, and no later child names another under it. */
  ghost predicate NamedLowest(children: seq<Child>, id: MemberId) {
    exists i :: 0 <= i < |children| && LowestAt(children, i, id)
  }

  predicate LowestAt(children: seq<Child>, i: nat, id: MemberId)
    requires i < |children|
  {
    && children[i].MemberNode? && children[i].id == id
    && forall j | 0 <= j < |children| && children[j].MemberNode? ::
         children[i].seqNo < children[j].seqNo || (children[i].seqNo == children[j].seqNo && j <= i)
  }

  lemma {:induction false} ParsedKeys(children: seq<Child>)
    ensures ParseMembers(children).Keys == SeqNos(children)
  {
    forall n | n in ParseMembers(children)
      ensures n in SeqNos(children)
    {
      ParsedExactly(children, n);
      var i :| 0 <= i < |children| && children[i] == MemberNode(n, ParseMembers(children)[n]);
    }
    forall n | n in SeqNos(children)
      ensures n in ParseMembers(children)
    {
      var i :| 0 <= i < |children| && children[i].MemberNode? && children[i].seqNo == n;
      ParsedExactly(children, n);
      assert MemberNode(n, children[i].id) in children;
    }
  }

  /** Among children with one number the last counts. */
  lemma {:induction false} LastCounts(children: seq<Child>, i: nat)
    requires i < |children| && children[i].MemberNode?
    requires forall j | i < j < |children| && children[j].MemberNode? :: children[j].seqNo != children[i].seqNo
    ensures children[i].seqNo in ParseMembers(children) && ParseMembers(children)[children[i].seqNo] == children[i].id
  {
    var n := |children| - 1;
    if i < n {
      LastCounts(children[..n], i);
    }
  }

  lemma {:induction false} LastWith(children: seq<Child>, n: nat) returns (i: nat)
    requires n in SeqNos(children)
    ensures i < |children| && children[i].MemberNode? && children[i].seqNo == n
    ensures forall j | i < j < |children| && children[j].MemberNode? :: children[j].seqNo != n
  {
    var last := |children| - 1;
    if children[last].MemberNode? && children[last].seqNo == n {
      i := last;
    } else {
      i := LastWith(children[..last], n);
    }
  }

  lemma {:induction false} CandidateIff(children: seq<Child>, id: MemberId)
    ensures CanBeElector(ParseMembers(children), id, true) <==> NamedLowest(children, id)
  {
    var members := ParseMembers(children);
    ParsedKeys(children);
    if n :| n in members && members[n] == id && forall k | k in members :: n <= k {
      var i := LastWith(children, n);
      LastCounts(children, i);
      forall j | 0 <= j < |children| && children[j].MemberNode?
        ensures n < children[j].seqNo || (n == children[j].seqNo && j <= i)
      {
        assert children[j].seqNo in members;
      }
      assert LowestAt(children, i, id);
    }
    if i :| 0 <= i < |children| && LowestAt(children, i, id) {
      LastCounts(children, i);
      forall k | k in members
        ensures children[i].seqNo <= k
      {
        assert k in SeqNos(children);
      }
    }
  }

  // ---------- what the handlers ask ----------

  /** The member asks for the LOCK with these children. */
  ghost predicate SetsOut(c: Config, children: seq<Child>, backoffOver: bool) {
    LockNode !in children && backoffOver && NamedLowest(children, c.myId)
  }

  /** Enough members are among the children. */
  predicate QuorumSeen(c: Config, children: seq<Child>) { |SeqNos(children)| >= c.quorum }

  /**
   * Exactly what a watch event does: a member that waits to join asks for the LOCK if nobody has it, its back-off is
   * over and it is named under the lowest number; an elector that waits for a quorum asks for votes if it sees one;
   * otherwise, and in every other state, nothing is changed and nothing asked.
   */
  lemma {:induction false} WatchAnswerIff(c: Config, m: Member, children: seq<Child>, backoffOver: bool)
    ensures
      var (m', a) := GroupWatch(c, m, children, backoffOver);
      var setsOut := m.state == FollowerWaitToJoinGroup && SetsOut(c, children, backoffOver);
      var votes := m.state == EcWaitingForQuorum && QuorumSeen(c, children);
      && (a == AcquireElectorLock <==> setsOut) && (a == CollectVotes <==> votes)
      && (a == NoAction <==> !setsOut && !votes)
      && m' == m.(state := if setsOut then EcAcquireLock else if votes then EcElectionInProgress else m.state)
  {
    CandidateIff(children, c.myId);
    ParsedKeys(children);
    assert |ParseMembers(children)| == |ParseMembers(children).Keys|;
  }

  /** Exactly what an elector does with the children it has read: votes if they name a quorum, waiting if not. */
  lemma {:induction false} ReadAnswerIff(c: Config, m: Member, children: seq<Child>)
    ensures
      var (m', a) := ChildrenRead(c, m, children);
      && (a == CollectVotes <==> QuorumSeen(c, children)) && (a == NoAction <==> !QuorumSeen(c, children))
      && m' == m.(state := if QuorumSeen(c, children) then EcElectionInProgress else EcWaitingForQuorum)
  {
    ParsedKeys(children);
    assert |ParseMembers(children)| == |ParseMembers(children).Keys|;
  }

  /** Exactly when an elector has a winner: if the bucket with the lowest commit id has a quorum. If not it waits. */
  lemma {:induction false} ElectionAnswerIff(c: Config, m: Member, values: Buckets)
    ensures
      var (m', a) := ElectionResponse(c, m, values);
      && (forall votes :: a == RemoveLock(votes) <==>
            exists low :: low in values && (forall k | k in values :: low <= k) && values[low] == votes &&
                          |votes| >= c.quorum)
      && (a.RemoveLock? ==> m' == m)
      && (!a.RemoveLock? ==> a == NoAction && m' == m.(state := EcWaitingForQuorum))
  {
    if values != map[] {
      var low := LowestKey(values);
      assert forall k | k in values && (forall d | d in values :: k <= d) :: k == low;
    }
  }

  // ---------- in every run ----------

  /** A member that has asked for the LOCK as an elector, or is at work with it. */
  predicate Elects(proc: Proc) { proc.pending.acquireElector > 0 || Tokens(proc) > 0 }

  lemma {:induction false} HandlerSetsOut(c: Config, proc: Proc, e: Event)
    requires ProcOk(proc)
    ensures HandledBy(c, proc, e).pending.acquireElector ==
            proc.pending.acquireElector +
            (if e.Watch? && GroupWatch(c, proc.m, e.children, e.backoffOver).1 == AcquireElectorLock then 1 else 0)
  {
  }

  lemma {:induction false} HandledElects(s: System, e: Event, p: MemberId)
    requires Inv(s) && Handler(s, e).Some? && p in Step(s, e).procs && Elects(Step(s, e).procs[p])
    ensures p in s.procs && p in s.configs
    ensures Elects(s.procs[p]) || (e.Watch? && e.p == p && SetsOut(s.configs[p], e.children, e.backoffOver))
  {
    var q := Handler(s, e).value;
    HandlerEffect(s, e, q);
    assert ProcOk(s.procs[q]);
    if p == q {
      HandlerOk(s, e);
      HandlerSetsOut(s.configs[p], s.procs[p], e);
      if e.Watch? {
        WatchAnswerIff(s.configs[p], s.procs[p].m, e.children, e.backoffOver);
      }
    }
  }

  /** The server acts for a member only on a request, and the requests of an elector are part of its electing. */
  lemma {:induction false} ServedElects(s: System, e: Event, p: MemberId)
    requires p in SessionStep(s, e).procs && p in s.procs && !e.ServerCreatesLeaderLock?
    ensures SessionStep(s, e).procs[p] == s.procs[p] || Elects(s.procs[p])
  {
    if e.ServerRemovesLock? && e.p == p && e.functional in s.procs[p].pending.removeLock {
      assert |s.procs[p].pending.removeLock - multiset{e.functional}| == |s.procs[p].pending.removeLock| - 1;
    }
  }

  lemma {:induction false} LeaderLockElects(s: System, e: Event, p: MemberId)
    requires p in SessionStep(s, e).procs && e.ServerCreatesLeaderLock?
    ensures p in s.procs && Elects(SessionStep(s, e).procs[p]) == Elects(s.procs[p])
  {
  }

  lemma {:induction false} NewcomersDoNotElect(s: System, e: Event, p: MemberId)
    requires p in SessionStep(s, e).procs && p !in s.procs
    ensures SessionStep(s, e).procs[p] == Proc(FRESH, NOTHING_PENDING)
  {
  }

  lemma {:induction false} SessionElects(s: System, e: Event, p: MemberId)
    requires p in SessionStep(s, e).procs && Elects(SessionStep(s, e).procs[p])
    ensures p in s.procs && Elects(s.procs[p])
  {
    if p !in s.procs {
      NewcomersDoNotElect(s, e, p);
    } else if e.ServerCreatesLeaderLock? {
      LeaderLockElects(s, e, p);
    } else {
      ServedElects(s, e, p);
    }
  }

  /** From the event at k on, p has been electing. */
  ghost predicate ElectsSince(init: System, events: seq<Event>, k: nat, p: MemberId) {
    && k < |events|
    && forall j | k < j <= |events| :: p in Run(init, events[..j]).procs && Elects(Run(init, events[..j]).procs[p])
  }

  lemma {:induction false} ElectsLonger(init: System, events: seq<Event>, k: nat, p: MemberId)
    requires events != [] && p in Run(init, events).procs && Elects(Run(init, events).procs[p])
    requires k == |events| - 1 || ElectsSince(init, events[..|events| - 1], k, p)
    ensures ElectsSince(init, events, k, p)
  {
    var front := events[..|events| - 1];
    forall j | k < j <= |events|
      ensures p in Run(init, events[..j]).procs && Elects(Run(init, events[..j]).procs[p])
    {
      assert j < |events| ==> events[..j] == front[..j];
      assert j == |events| ==> events[..j] == events;
    }
  }

  /**
   * In every run, whoever elects set out to do so on a watch event at which its back-off was over, nobody had the LOCK
   * among the children, and it was named under the lowest number; and it has been electing since.
   */
  lemma {:induction false} ElectorsWereCandidates(
      configs: map<MemberId, Config>, version: int, events: seq<Event>, p: MemberId) returns (k: nat)
    requires p in configs && p in Run(Init(configs, version), events).procs
    requires Elects(Run(Init(configs, version), events).procs[p])
    ensures ElectsSince(Init(configs, version), events, k, p)
    ensures events[k].Watch? && events[k].p == p && SetsOut(configs[p], events[k].children, events[k].backoffOver)
  {
    var init, n := Init(configs, version), |events| - 1;
    var s := Run(init, events[..n]);
    RunKeeps(configs, version, events[..n]);
    SameConfigs(init, events[..n]);
    if Handler(s, events[n]).Some? {
      HandledElects(s, events[n], p);
    } else {
      SessionElects(s, events[n], p);
    }
    if Elects(s.procs[p]) {
      k := ElectorsWereCandidates(configs, version, events[..n], p);
    } else {
      k := n;
    }
    ElectsLonger(init, events, k, p);
  }

  lemma {:induction false} SessionKeepsConfigs(s: System, e: Event)
    ensures SessionStep(s, e).configs == s.configs
  {
  }

  lemma {:induction false} SameConfigs(init: System, events: seq<Event>)
    ensures Run(init, events).configs == init.configs
  {
    if events != [] {
      var n := |events| - 1;
      SameConfigs(init, events[..n]);
      SessionKeepsConfigs(Run(init, events[..n]), events[n]);
    }
  }

  // ---------- votes need a quorum in sight ----------

  predicate Collects(s: System, p: MemberId) { p in s.procs && s.procs[p].pending.collectVotes > 0 }

  /** The event shows p children that name a quorum. */
  predicate ShowsQuorum(c: Config, e: Event, p: MemberId) {
    (e.Watch? || e.ChildrenReply?) && e.p == p && QuorumSeen(c, e.children)
  }

  lemma {:induction false} HandlerCollects(c: Config, proc: Proc, e: Event)
    requires HandledBy(c, proc, e).pending.collectVotes > proc.pending.collectVotes
    ensures (e.Watch? && GroupWatch(c, proc.m, e.children, e.backoffOver).1 == CollectVotes) ||
            (e.ChildrenReply? && ChildrenRead(c, proc.m, e.children).1 == CollectVotes)
  {
  }

  lemma {:induction false} HandledCollects(s: System, e: Event, q: MemberId, p: MemberId)
    requires Handler(s, e) == Some(q) && Collects(Step(s, e), p) && !Collects(s, p)
    ensures p == q && ShowsQuorum(s.configs[q], e, p)
  {
    HandlerEffect(s, e, q);
    var c, proc := s.configs[q], s.procs[q];
    if p == q {
      HandlerCollects(c, proc, e);
      if e.Watch? {
        WatchAnswerIff(c, proc.m, e.children, e.backoffOver);
      } else {
        ReadAnswerIff(c, proc.m, e.children);
      }
    }
  }

  lemma {:induction false} SessionCollects(s: System, e: Event, p: MemberId)
    requires Collects(SessionStep(s, e), p)
    ensures Collects(s, p)
  {
  }

  lemma {:induction false} StepCollects(s: System, e: Event, p: MemberId)
    requires Collects(Step(s, e), p)
    ensures Collects(s, p) || (p in s.configs && ShowsQuorum(s.configs[p], e, p))
  {
    if Handler(s, e).None? {
      SessionCollects(s, e, p);
    } else if !Collects(s, p) {
      HandledCollects(s, e, Handler(s, e).value, p);
    }
  }

  /** In every run, whoever collects votes began to on seeing children that named a quorum, and has collected since. */
  lemma {:induction false} VotesNeedQuorumInSight(
      configs: map<MemberId, Config>, version: int, events: seq<Event>, p: MemberId) returns (k: nat)
    requires p in configs && Collects(Run(Init(configs, version), events), p)
    ensures k < |events| && ShowsQuorum(configs[p], events[k], p)
    ensures forall j | k < j <= |events| :: Collects(Run(Init(configs, version), events[..j]), p)
  {
    var init, n := Init(configs, version), |events| - 1;
    var front := events[..n];
    SameConfigs(init, front);
    StepCollects(Run(init, front), events[n], p);
    if Collects(Run(init, front), p) {
      k := VotesNeedQuorumInSight(configs, version, front, p);
    } else {
      k := n;
    }
    forall j | k < j <= |events|
      ensures Collects(Run(init, events[..j]), p)
    {
      assert j < |events| ==> events[..j] == front[..j];
      assert j == |events| ==> events[..j] == events;
    }
  }

  /** In every run, whoever runs answers an elector that collects votes: no member knows a newer term than its. */
  lemma {:induction false} ElectorsAreAnswered(
      configs: map<MemberId, Config>, version: int, events: seq<Event>, p: MemberId, q: MemberId)
    requires version >= INVALID_VALUE && Collects(Run(Init(configs, version), events), p)
    requires q in configs && q in Run(Init(configs, version), events).procs
    ensures
      var s := Run(Init(configs, version), events);
      var m := s.procs[q].m;
      GetMemberState(configs[q], m, s.procs[p].m.termId) == Some(Vote(configs[q].myId, m.commitId, 0, m.state))
  {
    TermsIncrease(configs, version, events, Start(q));
  }

  /** A request under an older term than a member knows is the only one that it does not answer. */
  lemma {:induction false} AnsweredIff(c: Config, m: Member, termId: int)
    ensures GetMemberState(c, m, termId).Some? <==> m.termId <= termId
  {
  }

  /**
   * Without a winner the elector keeps its LOCK and its term, and the next sight of a quorum puts everything back to
   * where the votes were being collected.
   */
  lemma {:induction false} ElectionIsRepeated(
      s: System, p: MemberId, values: Buckets, children: seq<Child>, backoffOver: bool)
    requires Inv(s) && Running(s, p) && Collects(s, p) && !HasWinner(values, s.configs[p].quorum)
    ensures
      var waiting := Step(s, VotesIn(p, values));
      && waiting.lock == s.lock == Some(Lock(p, LockProtocol.Elector))
      && Step(waiting, Watch(p, children, backoffOver)) == if QuorumSeen(s.configs[p], children) then s else waiting
  {
    var c, proc := s.configs[p], s.procs[p];
    assert ProcOk(proc) && LockFits(s, p);
    var w := Proc(proc.m.(state := EcWaitingForQuorum),
                  proc.pending.(collectVotes := proc.pending.collectVotes - 1));
    assert s == With(s, p, proc, s.lock, s.version, s.issued);
    Handles(s, p, proc, s.lock, s.version, s.issued, VotesIn(p, values), w);
    WatchAnswerIff(c, w.m, children, backoffOver);
    Handles(s, p, w, s.lock, s.version, s.issued, Watch(p, children, backoffOver),
            if QuorumSeen(c, children) then proc else w);
  }
}
