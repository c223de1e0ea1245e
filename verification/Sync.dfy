/**
 * A follower's sync in the running protocol: it goes on only after a member that leads has let the follower join
 * (src/volumeserver/VolumeServer.cpp, src/infra/PBMember.cpp).
 */
module Syncs {
  import opened Common
  import opened Members
  import opened Elections
  import opened LockProtocol

  /** A request or a consent under way belongs to a sync under way, and not both to the same one. */
  ghost predicate SyncsFit(s: System) {
    && (forall p | p in s.asking || p in s.joined :: p in s.procs && s.procs[p].pending.sync > 0)
    && s.asking.Keys !! s.joined
  }

  /**
   * Exactly when a follower begins to sync: when it hears, under a term not older than it knows, of functional members
   * that it is not one of. It then takes over the leader and the newer term; otherwise nothing is changed.
   */
  lemma {:induction false} SyncStartsIff(
      c: Config, m: Member, termId: int, leaderId: MemberId, functional: seq<Vote>)
    ensures
      var (m', a) := GroupInfoUpdate(c, m, termId, leaderId, functional);
      var term := if m.termId < termId then termId else m.termId;
      var starts := && m.termId <= termId
                    && (m.state == FollowerWaitToJoinGroup || m.state == FollowerFunctional)
                    && (forall v | v in functional :: v.id != c.myId);
      && (a == Refuse(InvalidTerm) <==> termId < m.termId)
      && (a == RunSync(leaderId, term) <==> starts)
      && (a == NoAction <==> !starts && m.termId <= termId)
      && m' == if starts then m.(state := FollowerSyncing, leaderId := leaderId, termId := term) else m
  {
    FindVoteFinds(functional, c.myId);
    if v :| v in functional && v.id == c.myId {
      assert v.id in IdSet(functional);
    }
  }

  lemma {:induction false} OthersKeepSync(c: Config, proc: Proc, e: Event)
    requires !e.GroupInfoArrives? && !e.SyncDone?
    ensures HandledBy(c, proc, e).pending.sync == proc.pending.sync
  {
  }

  /** A sync begins only when none is under way. */
  lemma {:induction false} SyncBegins(c: Config, proc: Proc, e: Event)
    requires ProcOk(proc) && e.GroupInfoArrives?
    ensures
      var a := GroupInfoUpdate(c, proc.m, e.termId, e.leaderId, e.functional).1;
      && HandledBy(c, proc, e).pending.sync == proc.pending.sync + (if a.RunSync? then 1 else 0)
      && (a.RunSync? ==> proc.pending.sync == 0)
  {
  }

  lemma {:induction false} NewSync(s: System, e: Event, p: MemberId)
    requires Handler(s, e) == Some(p) && ProcOk(s.procs[p]) && SyncsFit(s) && e.GroupInfoArrives?
    ensures SyncsFit(Step(s, e))
  {
    SyncBegins(s.configs[p], s.procs[p], e);
    assert Step(s, e).joined == s.joined;
    assert Step(s, e).procs == s.procs[p := HandledBy(s.configs[p], s.procs[p], e)];
  }

  lemma {:induction false} SyncEnd(s: System, e: Event, p: MemberId)
    requires Inv(s) && SyncsFit(s) && Handler(s, e) == Some(p) && e.SyncDone?
    ensures SyncsFit(Step(s, e))
  {
    assert ProcOk(s.procs[p]);
    assert Step(s, e).procs == s.procs[p := HandledBy(s.configs[p], s.procs[p], e)];
    assert p in s.joined && p !in s.asking.Keys;
  }

  lemma {:induction false} OneProcKeepsSync(s: System, s': System, p: MemberId, proc': Proc)
    requires SyncsFit(s) && p in s.procs && proc'.pending.sync == s.procs[p].pending.sync
    requires s'.procs == s.procs[p := proc']
    requires (s'.asking == s.asking && s'.joined == s.joined) ||
             exists q ::
               q in s.asking && s'.asking == s.asking - {q} && (s'.joined == s.joined || s'.joined == s.joined + {q})
    ensures SyncsFit(s')
  {
  }

  lemma {:induction false} OtherHandled(s: System, e: Event, p: MemberId)
    requires SyncsFit(s) && Handler(s, e) == Some(p) && !e.GroupInfoArrives? && !e.SyncDone?
    ensures SyncsFit(Step(s, e))
  {
    OthersKeepSync(s.configs[p], s.procs[p], e);
    HandlerEffect(s, e, p);
    if e.SyncRequestArrives? {
      assert e.follower in s.asking && Step(s, e).asking == s.asking - {e.follower};
    } else {
      assert Step(s, e).asking == s.asking && Step(s, e).joined == s.joined;
    }
    OneProcKeepsSync(s, Step(s, e), p, HandledBy(s.configs[p], s.procs[p], e));
  }

  lemma {:induction false} SessionKeepsSync(s: System, e: Event, p: MemberId)
    requires p in s.procs && p in SessionStep(s, e).procs
    ensures SessionStep(s, e).procs[p].pending.sync == s.procs[p].pending.sync
  {
  }

  lemma {:induction false} SessionKeepsRequests(s: System, e: Event)
    ensures !e.Crash? ==> SessionStep(s, e).asking == s.asking && SessionStep(s, e).joined == s.joined
    ensures !e.Crash? ==> s.procs.Keys <= SessionStep(s, e).procs.Keys
  {
  }

  lemma {:induction false} SessionKeepsSyncs(s: System, e: Event)
    requires SyncsFit(s)
    ensures SyncsFit(SessionStep(s, e))
  {
    var s' := SessionStep(s, e);
    SessionKeepsRequests(s, e);
    forall p | p in s'.asking || p in s'.joined
      ensures p in s'.procs && s'.procs[p].pending.sync > 0
    {
      assert p in s.procs;
      assert p in s'.procs;
      SessionKeepsSync(s, e, p);
    }
  }

  lemma {:induction false} RunKeepsSyncs(configs: map<MemberId, Config>, version: int, events: seq<Event>)
    ensures SyncsFit(Run(Init(configs, version), events))
  {
    if events != [] {
      var n := |events| - 1;
      var s, e := Run(Init(configs, version), events[..n]), events[n];
      RunKeepsSyncs(configs, version, events[..n]);
      RunKeeps(configs, version, events[..n]);
      match Handler(s, e)
      case None => SessionKeepsSyncs(s, e);
      case Some(p) =>
        if e.GroupInfoArrives? {
          NewSync(s, e, p);
        } else if e.SyncDone? {
          SyncEnd(s, e, p);
        } else {
          OtherHandled(s, e, p);
        }
    }
  }

  /** The event at k is the arrival of p's request at a member that then leads, and the member lets p join. */
  ghost predicate Admits(init: System, events: seq<Event>, k: nat, p: MemberId) {
    && k < |events|
    && events[k].SyncRequestArrives? && events[k].follower == p
    && var s := Run(init, events[..k]);
       var leader := events[k].p;
       && Handler(s, events[k]) == Some(leader)
       && s.procs[leader].m.state.IsLeader()
       && JoinAnswer(s, leader, p, events[k].termId, events[k].peerVersion) == Ok
  }

  lemma {:induction false} AdmitsLonger(init: System, events: seq<Event>, k: nat, p: MemberId, e: Event)
    requires Admits(init, events, k, p)
    ensures Admits(init, events + [e], k, p)
  {
    assert (events + [e])[..k] == events[..k];
  }

  lemma {:induction false} JoinsByConsent(s: System, e: Event, p: MemberId)
    requires p in Step(s, e).joined && p !in s.joined
    ensures e.SyncRequestArrives? && e.follower == p && Handler(s, e) == Some(e.p)
    ensures s.procs[e.p].m.state.IsLeader() && JoinAnswer(s, e.p, p, e.termId, e.peerVersion) == Ok
  {
    if Handler(s, e).None? {
      SessionKeepsRequests(s, e);
    }
  }

  lemma {:induction false} CrashDropsConsent(s: System, p: MemberId)
    requires SyncsFit(s)
    ensures p !in Step(s, Crash(p)).joined
  {
  }

  /** A consent under way was given by a leader, and the follower has not crashed since. */
  lemma {:induction false} JoinedWasAdmitted(
      configs: map<MemberId, Config>, version: int, events: seq<Event>, p: MemberId) returns (k: nat)
    requires p in Run(Init(configs, version), events).joined
    ensures Admits(Init(configs, version), events, k, p)
    ensures forall j | k < j < |events| :: events[j] != Crash(p)
  {
    var n := |events| - 1;
    var front, e := events[..n], events[n];
    var s := Run(Init(configs, version), front);
    assert events == front + [e];
    if p in s.joined {
      k := JoinedWasAdmitted(configs, version, front, p);
      AdmitsLonger(Init(configs, version), front, k, p, e);
      RunKeepsSyncs(configs, version, front);
      assert forall j | k < j < n :: events[j] == front[j];
      CrashDropsConsent(s, p);
    } else {
      JoinsByConsent(s, e, p);
      k := n;
    }
  }

  /**
   * In every run a sync ends, and with it perhaps the lead of a member that has taken office meanwhile, only if a
   * member that led has let the follower join, and the follower has not crashed since.
   */
  lemma {:induction false} SyncEndsOnlyAdmitted(
      configs: map<MemberId, Config>, version: int, events: seq<Event>, p: MemberId)
    requires Handler(Run(Init(configs, version), events), SyncDone(p)).Some?
    ensures exists k: nat ::
              Admits(Init(configs, version), events, k, p) && forall j | k < j < |events| :: events[j] != Crash(p)
  {
    var k := JoinedWasAdmitted(configs, version, events, p);
  }

  // ---------- elections wait for the old leader's end ----------

  /** A member whose LOCK says that it leads. */
  ghost predicate HoldsOffice(s: System, p: MemberId) {
    Inv(s) && s.lock == Some(Lock(p, Leader)) && p in s.procs
  }

  lemma {:induction false} OfficeStays(s: System, e: Event, p: MemberId)
    requires HoldsOffice(s, p) && e != Crash(p)
    ensures HoldsOffice(Step(s, e), p)
  {
    StepKeeps(s, e);
    if Handler(s, e).Some? {
      HandlerEffect(s, e, Handler(s, e).value);
    } else {
      SessionKeepsRunning(s, e, p);
      SessionKeepsLeaderLock(s, e, p);
    }
  }

  lemma {:induction false} SessionKeepsRunning(s: System, e: Event, p: MemberId)
    requires p in s.procs && e != Crash(p)
    ensures p in SessionStep(s, e).procs
  {
  }

  lemma {:induction false} RunInv(s: System, events: seq<Event>)
    requires Inv(s)
    ensures Inv(Run(s, events))
  {
    if events != [] {
      RunInv(s, events[..|events| - 1]);
      StepKeeps(Run(s, events[..|events| - 1]), events[|events| - 1]);
    }
  }

  lemma {:induction false} OfficeUntilCrash(s: System, events: seq<Event>, p: MemberId)
    requires HoldsOffice(s, p) && Crash(p) !in events
    ensures HoldsOffice(Run(s, events), p)
  {
    if events != [] {
      var n := |events| - 1;
      assert events[n] in events && Crash(p) !in events[..n];
      OfficeUntilCrash(s, events[..n], p);
      OfficeStays(Run(s, events[..n]), events[n], p);
    }
  }

  lemma {:induction false} VotesNeedLock(s: System, q: MemberId)
    requires Inv(s) && q in s.procs && s.procs[q].pending.collectVotes > 0
    ensures s.lock == Some(Lock(q, Elector))
  {
    assert LockFits(s, q);
  }

  /**
   * After a member has led, votes are counted again only when its session has ended: it has crashed since, and if it
   * runs again it has started afresh.
   */
  lemma {:induction false} NoVotesBeforeLeaderEnds(
      configs: map<MemberId, Config>, version: int, before: seq<Event>, after: seq<Event>, p: MemberId, q: MemberId)
    requires p in Run(Init(configs, version), before).procs
    requires Run(Init(configs, version), before).procs[p].m.state.IsLeader()
    requires
      var s := Run(Run(Init(configs, version), before), after);
      q in s.procs && s.procs[q].pending.collectVotes > 0
    ensures Crash(p) in after
  {
    var s := Run(Init(configs, version), before);
    RunKeeps(configs, version, before);
    assert LockFits(s, p);
    RunInv(s, after);
    VotesNeedLock(Run(s, after), q);
    if Crash(p) !in after {
      OfficeUntilCrash(s, after, p);
    }
  }
}
