/**
 * Who coordinates a group: the LOCK node, the group key's version as term, and the electors and leaders that
 * use them (src/infra/PBMember.cpp). Every call to the coordination service is split into request, server
 * action and reply; requests and replies of one member may overtake each other. A member fails by stopping:
 * its session ends, its pending requests are dropped, and its LOCK, being ephemeral, is removed. It may then
 * start afresh.
 */
module LockProtocol {
  import opened Common
  import opened Members

  datatype Role = Elector | Leader

  datatype Lock = Lock(owner: MemberId, role: Role)

  /** What a member has outstanding: requests not yet applied, and replies not yet handled. */
  datatype Pending = Pending(
    acquireElector: nat,
    electorAcquired: nat,
    increaseTerm: nat,
    termIncreased: multiset<int>,
    readChildren: nat,
    collectVotes: nat,
    removeLock: multiset<seq<Vote>>,
    lockRemoved: multiset<seq<Vote>>,
    acquireLeader: multiset<seq<Vote>>,
    leaderAcquired: multiset<seq<Vote>>,
    sync: nat)

  const NOTHING_PENDING: Pending :=
    Pending(0, 0, 0, multiset{}, 0, 0, multiset{}, multiset{}, multiset{}, multiset{}, 0)

  datatype Proc = Proc(m: Member, pending: Pending)

  datatype Appointment = Appointment(to: MemberId, termId: int, functional: seq<Vote>)

  /** What a sync first asks: to be let into the group by the leader, under the term the follower then has. */
  datatype SyncRequest = SyncRequest(leader: MemberId, termId: int)

  /** `procs` has the running members only; `issued` lists the terms handed out, in order, with who asked for them. */
  datatype System = System(
    configs: map<MemberId, Config>,
    procs: map<MemberId, Proc>,
    lock: Option<Lock>,
    version: int,
    issued: seq<(int, MemberId)>,
    appointments: set<Appointment>,
    asking: map<MemberId, SyncRequest>,
    joined: set<MemberId>)

  datatype Event =
    | Start(p: MemberId)
    | Crash(p: MemberId)
    | Watch(p: MemberId, children: seq<Child>, backoffOver: bool)
    | ServerCreatesElectorLock(p: MemberId)
    | ElectorLockReply(p: MemberId)
    | ServerIncreasesTerm(p: MemberId)
    | TermReply(p: MemberId, term: int)
    | ChildrenReply(p: MemberId, children: seq<Child>)
    | VotesIn(p: MemberId, values: Buckets)
    | ServerRemovesLock(p: MemberId, functional: seq<Vote>)
    | RemovalReply(p: MemberId, functional: seq<Vote>)
    | AppointmentArrives(a: Appointment)
    | ServerCreatesLeaderLock(p: MemberId, functional: seq<Vote>)
    | LeaderLockReply(p: MemberId, functional: seq<Vote>)
    | GroupInfoArrives(p: MemberId, termId: int, leaderId: MemberId, functional: seq<Vote>)
    | JoinArrives(p: MemberId, termId: int, id: MemberId, peerVersion: int, state: PBMemberState)
    | SyncRequestArrives(p: MemberId, follower: MemberId, termId: int, peerVersion: int)
    | WriteReply(p: MemberId, prior: PeerInfo, ok: bool)
    | SyncDone(p: MemberId)

  function Init(configs: map<MemberId, Config>, version: int): System {
    System(configs, map[], None, version, [], {}, map[], {})
  }

  /** Record what a handler asked for. */
  function Issue(pd: Pending, a: Action): Pending {
    match a
    case AcquireElectorLock => pd.(acquireElector := pd.acquireElector + 1)
    case AcquireLeaderLock(f) => pd.(acquireLeader := pd.acquireLeader + multiset{f})
    case IncreaseTerm => pd.(increaseTerm := pd.increaseTerm + 1)
    case ReadChildren => pd.(readChildren := pd.readChildren + 1)
    case CollectVotes => pd.(collectVotes := pd.collectVotes + 1)
    case RemoveLock(f) => pd.(removeLock := pd.removeLock + multiset{f})
    case RunSync(_, _) => pd.(sync := pd.sync + 1)
    case _ => pd
  }

  function React(pd: Pending, r: (Member, Action)): Proc { Proc(r.0, Issue(pd, r.1)) }

  function Set(s: System, p: MemberId, proc: Proc): System { s.(procs := s.procs[p := proc]) }

  predicate Running(s: System, p: MemberId) { p in s.procs && p in s.configs }

  predicate HoldsLock(s: System, p: MemberId) { s.lock.Some? && s.lock.value.owner == p }

  /** The member that handles an event of its own or from another member, if the event can happen. */
  function Handler(s: System, e: Event): Option<MemberId> {
    match e
    case Watch(p, _, _) => Enabled(s, p, true)
    case ElectorLockReply(p) => Enabled(s, p, Running(s, p) && s.procs[p].pending.electorAcquired > 0)
    case TermReply(p, term) => Enabled(s, p, Running(s, p) && term in s.procs[p].pending.termIncreased)
    case ChildrenReply(p, _) => Enabled(s, p, Running(s, p) && s.procs[p].pending.readChildren > 0)
    case VotesIn(p, _) => Enabled(s, p, Running(s, p) && s.procs[p].pending.collectVotes > 0)
    case RemovalReply(p, f) => Enabled(s, p, Running(s, p) && f in s.procs[p].pending.lockRemoved)
    case AppointmentArrives(a) => Enabled(s, a.to, a in s.appointments)
    case LeaderLockReply(p, f) => Enabled(s, p, Running(s, p) && f in s.procs[p].pending.leaderAcquired)
    case GroupInfoArrives(p, termId, _, _) => Enabled(s, p, termId <= s.version)
    case JoinArrives(p, _, _, _, _) => Enabled(s, p, true)
    case SyncRequestArrives(p, follower, termId, _) =>
      Enabled(s, p, follower in s.asking && s.asking[follower] == SyncRequest(p, termId))
    case WriteReply(p, _, _) => Enabled(s, p, Running(s, p) && s.procs[p].m.leaderCtx.Some?)
    case SyncDone(p) => Enabled(s, p, Running(s, p) && s.procs[p].pending.sync > 0 && p in s.joined)
    case _ => None
  }

  function Enabled(s: System, p: MemberId, possible: bool): (r: Option<MemberId>)
    ensures r.Some? ==> r.value == p && Running(s, p) && possible
  {
    if Running(s, p) && possible then Some(p) else None
  }

  /** What the handling member becomes. */
  function HandledBy(c: Config, proc: Proc, e: Event): Proc {
    var m, pd := proc.m, proc.pending;
    match e
    case Watch(_, children, backoffOver) => React(pd, GroupWatch(c, m, children, backoffOver))
    case ElectorLockReply(_) =>
      if pd.electorAcquired > 0 then React(pd.(electorAcquired := pd.electorAcquired - 1), (m, IncreaseTerm)) else proc
    case TermReply(_, term) =>
      React(pd.(termIncreased := pd.termIncreased - multiset{term}), TermIncreased(m, term))
    case ChildrenReply(_, children) =>
      if pd.readChildren > 0
      then React(pd.(readChildren := pd.readChildren - 1), ChildrenRead(c, m, children))
      else proc
    case VotesIn(_, values) =>
      if pd.collectVotes > 0
      then React(pd.(collectVotes := pd.collectVotes - 1), ElectionResponse(c, m, values))
      else proc
    case RemovalReply(_, f) => React(pd.(lockRemoved := pd.lockRemoved - multiset{f}), LockRemoved(m, f))
    case AppointmentArrives(a) => React(pd, BecomeLeader(m, a.termId, a.functional))
    case LeaderLockReply(_, f) =>
      Proc(TakeOffice(c, m, f), pd.(leaderAcquired := pd.leaderAcquired - multiset{f}))
    case GroupInfoArrives(_, termId, leaderId, f) => React(pd, GroupInfoUpdate(c, m, termId, leaderId, f))
    case JoinArrives(_, termId, id, peerVersion, state) =>
      proc.(m := AddToGroup(c, m, termId, id, peerVersion, state).0)
    case SyncRequestArrives(_, follower, termId, peerVersion) =>
      proc.(m := AddToGroup(c, m, termId, follower, peerVersion, FollowerSyncing).0)
    case WriteReply(_, prior, ok) => if m.leaderCtx.Some? then proc.(m := WriteReplied(c, m, prior, ok)) else proc
    case SyncDone(_) => if pd.sync > 0 then Proc(SyncCompleted(m), pd.(sync := pd.sync - 1)) else proc
    case _ => proc
  }

  /** The message an elector sends once its LOCK is gone. */
  function Sent(proc: Proc, e: Event): set<Appointment> {
    if e.RemovalReply? then
      var (m', a) := LockRemoved(proc.m, e.functional);
      if a.TellLeader? && a.functional != [] then {Appointment(a.functional[0].id, m'.termId, a.functional)} else {}
    else {}
  }

  /** The sync requests under way: a new one goes out with a sync, and the leader's handling uses it up. */
  function AskingAfter(s: System, p: MemberId, e: Event): map<MemberId, SyncRequest>
    requires Running(s, p)
  {
    match e
    case GroupInfoArrives(_, termId, leaderId, f) =>
      var a := GroupInfoUpdate(s.configs[p], s.procs[p].m, termId, leaderId, f).1;
      if a.RunSync? then s.asking[p := SyncRequest(a.leader, a.termId)] else s.asking
    case SyncRequestArrives(_, follower, _, _) => s.asking - {follower}
    case _ => s.asking
  }

  /** The answer of a member that is asked to let a follower join. */
  function JoinAnswer(s: System, p: MemberId, follower: MemberId, termId: int, peerVersion: int): Status
    requires Running(s, p)
  {
    AddToGroup(s.configs[p], s.procs[p].m, termId, follower, peerVersion, FollowerSyncing).1
  }

  /** The followers whose sync can go on: it takes a leader's consent; a refusal ends the process of the follower. */
  function JoinedAfter(s: System, p: MemberId, e: Event): set<MemberId>
    requires Running(s, p)
  {
    match e
    case SyncRequestArrives(_, follower, termId, peerVersion) =>
      if JoinAnswer(s, p, follower, termId, peerVersion) == Ok then s.joined + {follower} else s.joined
    case SyncDone(_) => s.joined - {p}
    case _ => s.joined
  }

  /** A disabled event changes nothing. */
  function Step(s: System, e: Event): System {
    match Handler(s, e)
    case None => SessionStep(s, e)
    case Some(p) =>
      Set(s, p, HandledBy(s.configs[p], s.procs[p], e))
      .(appointments := s.appointments + Sent(s.procs[p], e),
        asking := AskingAfter(s, p, e), joined := JoinedAfter(s, p, e))
  }

  /** What the server does, and sessions beginning and ending. */
  function SessionStep(s: System, e: Event): System {
    match e
    case Start(p) =>
      if p in s.configs && p !in s.procs then Set(s, p, Proc(FRESH, NOTHING_PENDING)) else s
    case Crash(p) =>
      if p in s.procs then EndSession(s, p) else s
    case ServerCreatesElectorLock(p) =>
      if Running(s, p) && s.procs[p].pending.acquireElector > 0 then CreateElectorLock(s, p) else s
    case ServerIncreasesTerm(p) =>
      if Running(s, p) && s.procs[p].pending.increaseTerm > 0 then IncreaseVersion(s, p) else s
    case ServerRemovesLock(p, f) =>
      if Running(s, p) && f in s.procs[p].pending.removeLock then RemoveTheLock(s, p, f) else s
    case ServerCreatesLeaderLock(p, f) =>
      if Running(s, p) && f in s.procs[p].pending.acquireLeader then CreateLeaderLock(s, p, f) else s
    case _ => s
  }

  /** What the member had under way goes with it, and so do the requests under way to it. */
  function EndSession(s: System, p: MemberId): System {
    s.(procs := s.procs - {p}, lock := if HoldsLock(s, p) then None else s.lock,
       asking := map q | q in s.asking && q != p && s.asking[q].leader != p :: s.asking[q],
       joined := s.joined - {p})
  }

  /** A create that finds the LOCK present fails; the crash that follows in the source is an event of its own. */
  function CreateElectorLock(s: System, p: MemberId): System
    requires Running(s, p) && s.procs[p].pending.acquireElector > 0
  {
    var pd := s.procs[p].pending;
    var sent := pd.(acquireElector := pd.acquireElector - 1);
    if s.lock.None?
    then
      Set(s, p, s.procs[p].(pending := sent.(electorAcquired := pd.electorAcquired + 1)))
      .(lock := Some(Lock(p, Elector)))
    else Set(s, p, s.procs[p].(pending := sent))
  }

  function CreateLeaderLock(s: System, p: MemberId, f: seq<Vote>): System
    requires Running(s, p) && f in s.procs[p].pending.acquireLeader
  {
    var pd := s.procs[p].pending;
    var sent := pd.(acquireLeader := pd.acquireLeader - multiset{f});
    if s.lock.None?
    then
      Set(s, p, s.procs[p].(pending := sent.(leaderAcquired := pd.leaderAcquired + multiset{f})))
      .(lock := Some(Lock(p, Leader)))
    else Set(s, p, s.procs[p].(pending := sent))
  }

  /** Setting the group key raises its version by one; the new version is the term. */
  function IncreaseVersion(s: System, p: MemberId): System
    requires Running(s, p) && s.procs[p].pending.increaseTerm > 0
  {
    var pd := s.procs[p].pending;
    var term := s.version + 1;
    Set(s, p, s.procs[p].(pending := pd.(increaseTerm := pd.increaseTerm - 1,
                                         termIncreased := pd.termIncreased + multiset{term})))
    .(version := term, issued := s.issued + [(term, p)])
  }

  /** The removal names no owner and no version: it removes whatever LOCK is there. */
  function RemoveTheLock(s: System, p: MemberId, f: seq<Vote>): System
    requires Running(s, p) && f in s.procs[p].pending.removeLock
  {
    var pd := s.procs[p].pending;
    Set(s, p, s.procs[p].(pending := pd.(removeLock := pd.removeLock - multiset{f},
                                         lockRemoved := pd.lockRemoved + multiset{f}))).(lock := None)
  }

  function Run(s: System, events: seq<Event>): System {
    if events == [] then s else Step(Run(s, events[..|events| - 1]), events[|events| - 1])
  }

  // ---------- the invariant ----------

  /** The stages of an elector's work between getting its LOCK and asking for its removal, one token each. */
  function Tokens(proc: Proc): nat {
    var pd := proc.pending;
    pd.electorAcquired + pd.increaseTerm + |pd.termIncreased| + pd.readChildren + pd.collectVotes + |pd.removeLock|
    + (if proc.m.state == EcWaitingForQuorum then 1 else 0)
  }

  /** The stage an elector is in fits its state. */
  predicate StageFits(proc: Proc) {
    var pd, st := proc.pending, proc.m.state;
    && (pd.electorAcquired + pd.increaseTerm + |pd.termIncreased| + pd.readChildren > 0 ==> st == EcAcquireLock)
    && (pd.collectVotes + |pd.removeLock| > 0 ==> st == EcElectionInProgress)
  }

  /** Nothing that an elector does is under way. */
  predicate NoElectorWork(proc: Proc) {
    Tokens(proc) == 0 && proc.pending.acquireElector == 0 && |proc.pending.lockRemoved| == 0
  }

  predicate ProcOk(proc: Proc) {
    var pd, st := proc.pending, proc.m.state;
    && StageFits(proc)
    && (Tokens(proc) > 0 ==> pd.acquireElector == 0 && |pd.lockRemoved| == 0 && pd.sync == 0)
    && (pd.acquireElector > 0 ==>
          pd.acquireElector == 1 && |pd.lockRemoved| == 0 && pd.sync == 0 && (st == EcAcquireLock || st.IsLeader()))
    && (|pd.lockRemoved| > 0 ==> |pd.lockRemoved| == 1 && pd.sync == 0 && (st == EcElectionInProgress || st.IsLeader()))
    && (pd.sync > 0 ==> pd.sync == 1 && (st == FollowerSyncing || st.IsLeader()))
    && (st.IsFollower() ==> NoElectorWork(proc))
    && (st == FollowerWaitToJoinGroup || st == FollowerFunctional ==> pd.sync == 0)
    && (st == EcElectionInProgress ==> Tokens(proc) > 0 || |pd.lockRemoved| > 0)
  }

  /**
   * The LOCK goes with its owner's work: an elector's LOCK with one token, a leader's with being or becoming
   * leader.
   */
  predicate LockFits(s: System, p: MemberId)
    requires p in s.procs
  {
    && (Tokens(s.procs[p]) == if s.lock == Some(Lock(p, Elector)) then 1 else 0)
    && (s.procs[p].m.state.IsLeader() || |s.procs[p].pending.leaderAcquired| > 0 ==> s.lock == Some(Lock(p, Leader)))
  }

  ghost predicate Inv(s: System) {
    && (s.lock.Some? ==> s.lock.value.owner in s.procs)
    && forall p | p in s.procs :: p in s.configs && ProcOk(s.procs[p]) && LockFits(s, p)
  }

  /** A step that changes one member, and the LOCK only from or to that member's, keeps the others in order. */
  lemma {:induction false} OneChanged(s: System, s': System, p: MemberId, proc': Proc)
    requires Inv(s) && p in s.configs
    requires s'.configs == s.configs && s'.procs == s.procs[p := proc']
    requires s'.lock == s.lock || (HoldsAtMost(s.lock, p) && HoldsAtMost(s'.lock, p))
    requires ProcOk(proc') && LockFits(s', p)
    ensures Inv(s')
  {
    forall q | q in s'.procs
      ensures q in s'.configs && ProcOk(s'.procs[q]) && LockFits(s', q)
    {
      if q != p {
        assert LockFits(s, q);
      }
    }
  }

  predicate HoldsAtMost(lock: Option<Lock>, p: MemberId) { lock.None? || lock.value.owner == p }

  /** An elector past its term increase works under the current version of the group key. */
  predicate TermFits(proc: Proc, version: int) {
    && proc.m.termId <= version
    && (forall t | t in proc.pending.termIncreased :: t == version)
    && (proc.pending.readChildren + proc.pending.collectVotes + |proc.pending.removeLock| > 0
        || proc.m.state == EcWaitingForQuorum ==>
          proc.m.termId == version)
  }

  predicate TermKept(proc: Proc, proc': Proc, version: int) {
    TermFits(proc, version) ==> TermFits(proc', version) && proc'.m.termId >= proc.m.termId
  }

  /**
   * A member that handles something keeps its stage count, and does not come to lead without the reply that says
   * so.
   */
  predicate Handled(proc: Proc, proc': Proc) {
    && ProcOk(proc')
    && Tokens(proc') == Tokens(proc)
    && (proc'.m.state.IsLeader() || |proc'.pending.leaderAcquired| > 0 ==>
          proc.m.state.IsLeader() || |proc.pending.leaderAcquired| > 0)
  }

  /** What a handled event does to the system. */
  lemma {:induction false} HandlerEffect(s: System, e: Event, p: MemberId)
    requires Handler(s, e) == Some(p)
    ensures
      var s' := Step(s, e);
      && s'.procs == s.procs[p := HandledBy(s.configs[p], s.procs[p], e)]
      && s'.configs == s.configs && s'.lock == s.lock && s'.version == s.version && s'.issued == s.issued
      && s'.appointments == s.appointments + Sent(s.procs[p], e)
  {
  }

  lemma {:induction false} HandledKeeps(s: System, p: MemberId, proc': Proc, s': System)
    requires Inv(s) && Running(s, p) && Handled(s.procs[p], proc')
    requires s'.configs == s.configs && s'.procs == s.procs[p := proc'] && s'.lock == s.lock
    ensures Inv(s')
  {
    assert LockFits(s, p);
    OneChanged(s, s', p, proc');
  }

  lemma {:induction false} WatchHandled(c: Config, proc: Proc, e: Event, version: int)
    requires ProcOk(proc) && e.Watch?
    ensures Handled(proc, HandledBy(c, proc, e)) && TermKept(proc, HandledBy(c, proc, e), version)
  {
  }

  lemma {:induction false} ElectorLockHandled(c: Config, proc: Proc, e: Event, version: int)
    requires ProcOk(proc) && e.ElectorLockReply? && proc.pending.electorAcquired > 0
    ensures Handled(proc, HandledBy(c, proc, e)) && TermKept(proc, HandledBy(c, proc, e), version)
  {
  }

  lemma {:induction false} TermHandled(c: Config, proc: Proc, e: Event, version: int)
    requires ProcOk(proc) && e.TermReply? && e.term in proc.pending.termIncreased
    ensures Handled(proc, HandledBy(c, proc, e)) && TermKept(proc, HandledBy(c, proc, e), version)
  {
  }

  lemma {:induction false} ChildrenHandled(c: Config, proc: Proc, e: Event, version: int)
    requires ProcOk(proc) && e.ChildrenReply? && proc.pending.readChildren > 0 && Tokens(proc) == 1
    ensures Handled(proc, HandledBy(c, proc, e)) && TermKept(proc, HandledBy(c, proc, e), version)
  {
  }

  lemma {:induction false} VotesHandled(c: Config, proc: Proc, e: Event, version: int)
    requires ProcOk(proc) && e.VotesIn? && proc.pending.collectVotes > 0 && Tokens(proc) == 1
    ensures Handled(proc, HandledBy(c, proc, e)) && TermKept(proc, HandledBy(c, proc, e), version)
  {
  }

  lemma {:induction false} RemovalHandled(c: Config, proc: Proc, e: Event, version: int)
    requires ProcOk(proc) && e.RemovalReply? && e.functional in proc.pending.lockRemoved
    ensures Handled(proc, HandledBy(c, proc, e)) && TermKept(proc, HandledBy(c, proc, e), version)
  {
    assert |proc.pending.lockRemoved - multiset{e.functional}| == |proc.pending.lockRemoved| - 1;
  }

  lemma {:induction false} AppointmentHandled(c: Config, proc: Proc, e: Event, version: int)
    requires ProcOk(proc) && e.AppointmentArrives?
    ensures Handled(proc, HandledBy(c, proc, e)) && TermKept(proc, HandledBy(c, proc, e), version)
  {
  }

  lemma {:induction false} LeaderLockHandled(c: Config, proc: Proc, e: Event, version: int)
    requires ProcOk(proc) && e.LeaderLockReply? && e.functional in proc.pending.leaderAcquired && Tokens(proc) == 0
    ensures Handled(proc, HandledBy(c, proc, e)) && TermKept(proc, HandledBy(c, proc, e), version)
  {
  }

  lemma {:induction false} GroupInfoHandled(c: Config, proc: Proc, e: Event, version: int)
    requires ProcOk(proc) && e.GroupInfoArrives? && e.termId <= version
    ensures Handled(proc, HandledBy(c, proc, e)) && TermKept(proc, HandledBy(c, proc, e), version)
  {
  }

  lemma {:induction false} JoinHandled(c: Config, proc: Proc, e: Event, version: int)
    requires ProcOk(proc) && (e.JoinArrives? || e.SyncRequestArrives?)
    ensures Handled(proc, HandledBy(c, proc, e)) && TermKept(proc, HandledBy(c, proc, e), version)
  {
  }

  lemma {:induction false} ReplyHandled(c: Config, proc: Proc, e: Event, version: int)
    requires ProcOk(proc) && e.WriteReply?
    ensures Handled(proc, HandledBy(c, proc, e)) && TermKept(proc, HandledBy(c, proc, e), version)
  {
  }

  lemma {:induction false} SyncHandled(c: Config, proc: Proc, e: Event, version: int)
    requires ProcOk(proc) && e.SyncDone? && proc.pending.sync > 0
    ensures Handled(proc, HandledBy(c, proc, e)) && TermKept(proc, HandledBy(c, proc, e), version)
  {
  }

  lemma {:induction false} HandlerOk(s: System, e: Event)
    requires Inv(s) && Handler(s, e).Some?
    ensures
      var p := Handler(s, e).value;
      var proc' := HandledBy(s.configs[p], s.procs[p], e);
      Handled(s.procs[p], proc') && TermKept(s.procs[p], proc', s.version)
  {
    var p := Handler(s, e).value;
    assert ProcOk(s.procs[p]) && LockFits(s, p);
    ProcHandles(s.configs[p], s.procs[p], e, s.version);
  }

  lemma {:induction false} ProcHandles(c: Config, proc: Proc, e: Event, version: int)
    requires ProcOk(proc) && Tokens(proc) <= 1
    requires |proc.pending.leaderAcquired| > 0 ==> Tokens(proc) == 0
    requires
      match e
      case ElectorLockReply(_) => proc.pending.electorAcquired > 0
      case TermReply(_, term) => term in proc.pending.termIncreased
      case ChildrenReply(_, _) => proc.pending.readChildren > 0
      case VotesIn(_, _) => proc.pending.collectVotes > 0
      case RemovalReply(_, f) => f in proc.pending.lockRemoved
      case LeaderLockReply(_, f) => f in proc.pending.leaderAcquired
      case GroupInfoArrives(_, termId, _, _) => termId <= version
      case SyncDone(_) => proc.pending.sync > 0
      case _ => true
    ensures Handled(proc, HandledBy(c, proc, e)) && TermKept(proc, HandledBy(c, proc, e), version)
  {
    match e
    case Watch(_, _, _) => WatchHandled(c, proc, e, version);
    case ElectorLockReply(_) => ElectorLockHandled(c, proc, e, version);
    case TermReply(_, _) => TermHandled(c, proc, e, version);
    case ChildrenReply(_, _) => ChildrenHandled(c, proc, e, version);
    case VotesIn(_, _) => VotesHandled(c, proc, e, version);
    case RemovalReply(_, _) => RemovalHandled(c, proc, e, version);
    case AppointmentArrives(_) => AppointmentHandled(c, proc, e, version);
    case LeaderLockReply(_, _) => LeaderLockHandled(c, proc, e, version);
    case GroupInfoArrives(_, _, _, _) => GroupInfoHandled(c, proc, e, version);
    case JoinArrives(_, _, _, _, _) => JoinHandled(c, proc, e, version);
    case SyncRequestArrives(_, _, _, _) => JoinHandled(c, proc, e, version);
    case WriteReply(_, _, _) => ReplyHandled(c, proc, e, version);
    case SyncDone(_) => SyncHandled(c, proc, e, version);
    case _ =>
  }

  /** The server's answer to an elector's create: the LOCK and the token come into being together. */
  lemma {:induction false} CreateElectorLockKeeps(s: System, p: MemberId)
    requires Inv(s) && Running(s, p) && s.procs[p].pending.acquireElector > 0
    ensures Inv(CreateElectorLock(s, p))
  {
    assert ProcOk(s.procs[p]) && LockFits(s, p);
    OneChanged(s, CreateElectorLock(s, p), p, CreateElectorLock(s, p).procs[p]);
  }

  lemma {:induction false} CreateLeaderLockKeeps(s: System, p: MemberId, f: seq<Vote>)
    requires Inv(s) && Running(s, p) && f in s.procs[p].pending.acquireLeader
    ensures Inv(CreateLeaderLock(s, p, f))
  {
    assert ProcOk(s.procs[p]) && LockFits(s, p);
    OneChanged(s, CreateLeaderLock(s, p, f), p, CreateLeaderLock(s, p, f).procs[p]);
  }

  lemma {:induction false} IncreaseVersionKeeps(s: System, p: MemberId)
    requires Inv(s) && Running(s, p) && s.procs[p].pending.increaseTerm > 0
    ensures Inv(IncreaseVersion(s, p))
  {
    assert ProcOk(s.procs[p]) && LockFits(s, p);
    OneChanged(s, IncreaseVersion(s, p), p, IncreaseVersion(s, p).procs[p]);
  }

  /** The server's removal of the LOCK takes the token with it; the LOCK was the remover's own. */
  lemma {:induction false} RemoveLockKeeps(s: System, p: MemberId, f: seq<Vote>)
    requires Inv(s) && Running(s, p) && f in s.procs[p].pending.removeLock
    ensures s.lock == Some(Lock(p, Elector))
    ensures Inv(RemoveTheLock(s, p, f))
  {
    var s' := RemoveTheLock(s, p, f);
    assert ProcOk(s.procs[p]) && LockFits(s, p);
    assert |s.procs[p].pending.removeLock - multiset{f}| == |s.procs[p].pending.removeLock| - 1;
    OneChanged(s, s', p, s'.procs[p]);
  }

  lemma {:induction false} StartKeeps(s: System, p: MemberId)
    requires Inv(s) && p in s.configs && p !in s.procs
    ensures Inv(Set(s, p, Proc(FRESH, NOTHING_PENDING)))
  {
    OneChanged(s, Set(s, p, Proc(FRESH, NOTHING_PENDING)), p, Proc(FRESH, NOTHING_PENDING));
  }

  lemma {:induction false} OneRemoved(s: System, s': System, p: MemberId)
    requires Inv(s) && s'.configs == s.configs && s'.procs == s.procs - {p}
    requires s'.lock == if HoldsLock(s, p) then None else s.lock
    ensures Inv(s')
  {
    forall q | q in s'.procs
      ensures q in s'.configs && ProcOk(s'.procs[q]) && LockFits(s', q)
    {
      assert LockFits(s, q);
    }
  }

  lemma {:induction false} CrashKeeps(s: System, p: MemberId)
    requires Inv(s) && p in s.procs
    ensures Inv(EndSession(s, p))
  {
    OneRemoved(s, EndSession(s, p), p);
  }

  lemma {:induction false} ServerStepKeeps(s: System, e: Event)
    requires Inv(s) && !e.Start? && !e.Crash?
    ensures Inv(SessionStep(s, e))
  {
    if e.ServerCreatesElectorLock? && Running(s, e.p) && s.procs[e.p].pending.acquireElector > 0 {
      CreateElectorLockKeeps(s, e.p);
    } else if e.ServerIncreasesTerm? && Running(s, e.p) && s.procs[e.p].pending.increaseTerm > 0 {
      IncreaseVersionKeeps(s, e.p);
    } else if e.ServerRemovesLock? && Running(s, e.p) && e.functional in s.procs[e.p].pending.removeLock {
      RemoveLockKeeps(s, e.p, e.functional);
    } else if e.ServerCreatesLeaderLock? && Running(s, e.p) && e.functional in s.procs[e.p].pending.acquireLeader {
      CreateLeaderLockKeeps(s, e.p, e.functional);
    } else {
      assert SessionStep(s, e) == s;
    }
  }

  lemma {:induction false} SessionStepKeeps(s: System, e: Event)
    requires Inv(s)
    ensures Inv(SessionStep(s, e))
  {
    if e.Start? {
      if e.p in s.configs && e.p !in s.procs { StartKeeps(s, e.p); }
    } else if e.Crash? {
      if e.p in s.procs { CrashKeeps(s, e.p); }
    } else {
      ServerStepKeeps(s, e);
    }
  }

  lemma {:induction false} StepKeeps(s: System, e: Event)
    requires Inv(s)
    ensures Inv(Step(s, e))
  {
    if Handler(s, e).Some? {
      var p := Handler(s, e).value;
      HandlerOk(s, e);
      HandledKeeps(s, p, HandledBy(s.configs[p], s.procs[p], e), Step(s, e));
    } else {
      SessionStepKeeps(s, e);
    }
  }

  lemma {:induction false} RunKeeps(configs: map<MemberId, Config>, version: int, events: seq<Event>)
    ensures Inv(Run(Init(configs, version), events))
  {
    if events != [] {
      var n := |events| - 1;
      RunKeeps(configs, version, events[..n]);
      StepKeeps(Run(Init(configs, version), events[..n]), events[n]);
    }
  }

  // ---------- exclusive coordination ----------

  /** An elector that has its LOCK and whose removal of it has not been applied. */
  predicate Coordinates(proc: Proc) {
    || Tokens(proc) > 0
    || ((proc.m.state == EcWaitingForQuorum || proc.m.state == EcElectionInProgress) && |proc.pending.lockRemoved| == 0)
  }

  /**
   * In every run, at most one member leads; nobody leads while an elector coordinates; at most one elector does;
   * and a removal under way is of the remover's own LOCK.
   */
  lemma {:induction false} ExclusiveCoordination(
      configs: map<MemberId, Config>, version: int, events: seq<Event>, p: MemberId, q: MemberId)
    requires
      var s := Run(Init(configs, version), events);
      p in s.procs && q in s.procs && p != q
    ensures
      var s := Run(Init(configs, version), events);
      var a, b := s.procs[p], s.procs[q];
      && !(a.m.state.IsLeader() && b.m.state.IsLeader())
      && !(a.m.state.IsLeader() && Coordinates(b))
      && !(Coordinates(a) && Coordinates(b))
      && (|a.pending.removeLock| > 0 ==> s.lock == Some(Lock(p, Elector)))
  {
    RunKeeps(configs, version, events);
    var s := Run(Init(configs, version), events);
    assert ProcOk(s.procs[p]) && LockFits(s, p) && ProcOk(s.procs[q]) && LockFits(s, q);
  }

  /**
   * In every run the checks that the source makes along an election hold: each reply finds its elector in the state
   * it expects, and an elector at any of these stages has the LOCK.
   */
  lemma {:induction false} ElectionChecksHold(
      configs: map<MemberId, Config>, version: int, events: seq<Event>, p: MemberId)
    requires p in Run(Init(configs, version), events).procs
    ensures
      var s := Run(Init(configs, version), events);
      var pd, st := s.procs[p].pending, s.procs[p].m.state;
      var acquiring := pd.electorAcquired > 0 || pd.increaseTerm > 0 || |pd.termIncreased| > 0 || pd.readChildren > 0;
      var electing := pd.collectVotes > 0 || |pd.removeLock| > 0;
      && (acquiring ==> st == EcAcquireLock)
      && (electing ==> st == EcElectionInProgress)
      && (acquiring || electing || st == EcWaitingForQuorum ==> s.lock == Some(Lock(p, Elector)))
      && pd.electorAcquired + pd.increaseTerm + |pd.termIncreased| + pd.readChildren + pd.collectVotes +
         |pd.removeLock| <= 1
  {
    RunKeeps(configs, version, events);
    var s := Run(Init(configs, version), events);
    assert ProcOk(s.procs[p]) && LockFits(s, p);
  }

  lemma {:induction false} SessionKeepsMember(s: System, e: Event, p: MemberId)
    requires p in s.procs && p in SessionStep(s, e).procs
    ensures SessionStep(s, e).procs[p].m == s.procs[p].m
  {
  }

  /** Only the owner's own removal or crash takes a LOCK away. */
  lemma {:induction false} SessionKeepsLeaderLock(s: System, e: Event, p: MemberId)
    requires Inv(s) && s.lock == Some(Lock(p, Leader)) && p in SessionStep(s, e).procs
    ensures SessionStep(s, e).lock == s.lock
  {
    if e.ServerRemovesLock? && Running(s, e.p) && e.functional in s.procs[e.p].pending.removeLock {
      RemoveLockKeeps(s, e.p, e.functional);
    } else if e.Crash? {
      CrashKeepsOthersLock(s, e.p, p);
    }
  }

  lemma {:induction false} CrashKeepsOthersLock(s: System, q: MemberId, p: MemberId)
    requires s.lock == Some(Lock(p, Leader))
    ensures q != p ==> EndSession(s, q).lock == s.lock
    ensures p !in EndSession(s, p).procs
  {
  }

  /**
   * A leader that goes on running keeps the LOCK, and leaves the leader states exactly by handling a late reply
   * that sets its state outright: the end of a sync begun before it took office, or of a removal.
   */
  lemma {:induction false} LeaderStepsDownExactly(s: System, e: Event, p: MemberId)
    requires Inv(s) && p in s.procs && s.procs[p].m.state.IsLeader() && p in Step(s, e).procs
    ensures Step(s, e).lock == Some(Lock(p, Leader))
    ensures !Step(s, e).procs[p].m.state.IsLeader() <==> Handler(s, e) == Some(p) && (e.SyncDone? || e.RemovalReply?)
  {
    assert LockFits(s, p);
    if Handler(s, e).Some? {
      var q := Handler(s, e).value;
      HandlerEffect(s, e, q);
      if q == p {
        HandlerNeedsPending(s, e, p);
        LeaderHandles(s.configs[p], s.procs[p], e);
      }
    } else {
      SessionKeepsMember(s, e, p);
      SessionKeepsLeaderLock(s, e, p);
    }
  }

  lemma {:induction false} HandlerNeedsPending(s: System, e: Event, p: MemberId)
    requires Handler(s, e) == Some(p)
    ensures Running(s, p)
    ensures e.ChildrenReply? ==> s.procs[p].pending.readChildren > 0
    ensures e.VotesIn? ==> s.procs[p].pending.collectVotes > 0
    ensures e.SyncDone? ==> s.procs[p].pending.sync > 0
  {
  }

  lemma {:induction false} LeaderHandles(c: Config, proc: Proc, e: Event)
    requires proc.m.state.IsLeader() && Tokens(proc) == 0
    requires e.ChildrenReply? ==> proc.pending.readChildren > 0
    requires e.VotesIn? ==> proc.pending.collectVotes > 0
    requires e.SyncDone? ==> proc.pending.sync > 0
    ensures !HandledBy(c, proc, e).m.state.IsLeader() <==> e.SyncDone? || e.RemovalReply?
  {
    if e.JoinArrives? {
      JoinKeepsRole(c, proc.m, e.termId, e.id, e.peerVersion, e.state);
    } else if e.SyncRequestArrives? {
      JoinKeepsRole(c, proc.m, e.termId, e.follower, e.peerVersion, FollowerSyncing);
    }
  }

  lemma {:induction false} JoinKeepsRole(
      c: Config, m: Member, termId: int, id: MemberId, version: int, state: PBMemberState)
    ensures
      var m' := AddToGroup(c, m, termId, id, version, state).0;
      m'.termId == m.termId && (m'.state == m.state || (m.state.IsLeader() && m'.state.IsLeader()))
  {
  }

  // ---------- terms ----------

  ghost predicate TermInv(s: System) {
    && (forall p | p in s.procs :: TermFits(s.procs[p], s.version))
    && (forall i, j | 0 <= i < j < |s.issued| :: s.issued[i].0 < s.issued[j].0)
    && (forall i | 0 <= i < |s.issued| :: s.issued[i].0 <= s.version)
    && (forall a | a in s.appointments :: a.termId <= s.version)
  }

  /** Raising the version leaves no other elector past its term increase: only the LOCK holder can do it. */
  lemma {:induction false} IncreaseKeepsTerms(s: System, p: MemberId)
    requires Inv(s) && TermInv(s) && Running(s, p) && s.procs[p].pending.increaseTerm > 0
    ensures TermInv(IncreaseVersion(s, p))
  {
    var s' := IncreaseVersion(s, p);
    assert LockFits(s, p) && TermFits(s.procs[p], s.version);
    forall q | q in s'.procs
      ensures TermFits(s'.procs[q], s'.version)
    {
      assert LockFits(s, q) && TermFits(s.procs[q], s.version);
      if q == p {
        assert |s.procs[p].pending.termIncreased| == 0;
      } else {
        assert Tokens(s.procs[q]) == 0;
      }
    }
  }

  lemma {:induction false} OneTermChanged(s: System, s': System, p: MemberId, proc': Proc)
    requires TermInv(s) && p in s.procs && TermFits(proc', s.version)
    requires s'.procs == s.procs[p := proc'] && s'.version == s.version && s'.issued == s.issued
    requires forall a | a in s'.appointments :: a in s.appointments || a.termId <= s.version
    ensures TermInv(s')
  {
  }

  lemma {:induction false} SentTerm(proc: Proc, e: Event)
    ensures forall a | a in Sent(proc, e) :: a.termId == proc.m.termId
  {
  }

  lemma {:induction false} HandlerKeepsTerms(s: System, e: Event, p: MemberId, proc': Proc)
    requires Inv(s) && TermInv(s) && Handler(s, e) == Some(p) && proc' == HandledBy(s.configs[p], s.procs[p], e)
    ensures TermInv(Step(s, e))
    ensures Step(s, e).version == s.version && Step(s, e).procs == s.procs[p := proc'] &&
            proc'.m.termId >= s.procs[p].m.termId
  {
    assert TermFits(s.procs[p], s.version);
    HandlerOk(s, e);
    SentTerm(s.procs[p], e);
    OneTermChanged(s, Step(s, e), p, proc');
  }

  /** Nobody's term moves, and at most a member with nothing pending joins. */
  ghost predicate TermsUntouched(s: System, s': System) {
    && s'.version == s.version && s'.issued == s.issued && s'.appointments == s.appointments
    && forall q | q in s'.procs ::
         s'.procs[q] == Proc(FRESH, NOTHING_PENDING) ||
         (q in s.procs && s'.procs[q].m == s.procs[q].m
          && s'.procs[q].pending.termIncreased == s.procs[q].pending.termIncreased
          && s'.procs[q].pending.readChildren == s.procs[q].pending.readChildren
          && s'.procs[q].pending.collectVotes == s.procs[q].pending.collectVotes
          && |s'.procs[q].pending.removeLock| <= |s.procs[q].pending.removeLock|)
  }

  lemma {:induction false} RemovalLeavesTerms(s: System, p: MemberId, f: seq<Vote>)
    requires Running(s, p) && f in s.procs[p].pending.removeLock
    ensures TermsUntouched(s, RemoveTheLock(s, p, f))
    ensures RemoveTheLock(s, p, f).procs[p].m == s.procs[p].m
  {
    var before := s.procs[p].pending.removeLock;
    assert |before - multiset{f}| == |before| - 1;
  }

  lemma {:induction false} SessionLeavesTerms(s: System, e: Event)
    requires !e.ServerIncreasesTerm?
    ensures TermsUntouched(s, SessionStep(s, e))
    ensures forall q | q in s.procs && q in SessionStep(s, e).procs :: SessionStep(s, e).procs[q].m == s.procs[q].m
  {
    if e.ServerRemovesLock? && Running(s, e.p) && e.functional in s.procs[e.p].pending.removeLock {
      RemovalLeavesTerms(s, e.p, e.functional);
    }
  }

  lemma {:induction false} UntouchedKeepsTerms(s: System, s': System)
    requires TermInv(s) && TermsUntouched(s, s') && s.version >= INVALID_VALUE
    ensures TermInv(s')
  {
    forall q | q in s'.procs
      ensures TermFits(s'.procs[q], s'.version)
    {
      if q in s.procs {
        assert TermFits(s.procs[q], s.version);
      }
    }
  }

  /** The version never falls, nor does the term of a member that goes on running. */
  ghost predicate TermsAdvance(s: System, s': System) {
    && s'.version >= s.version
    && forall p | p in s.procs && p in s'.procs :: s'.procs[p].m.termId >= s.procs[p].m.termId
  }

  lemma {:induction false} HandlerAdvances(s: System, e: Event)
    requires Inv(s) && TermInv(s) && Handler(s, e).Some?
    ensures TermInv(Step(s, e)) && TermsAdvance(s, Step(s, e))
  {
    var p := Handler(s, e).value;
    HandlerKeepsTerms(s, e, p, HandledBy(s.configs[p], s.procs[p], e));
  }

  lemma {:induction false} SessionAdvances(s: System, e: Event)
    requires Inv(s) && TermInv(s) && s.version >= INVALID_VALUE
    ensures TermInv(SessionStep(s, e)) && TermsAdvance(s, SessionStep(s, e))
  {
    if e.ServerIncreasesTerm? {
      if Running(s, e.p) && s.procs[e.p].pending.increaseTerm > 0 {
        IncreaseKeepsTerms(s, e.p);
      }
    } else {
      SessionLeavesTerms(s, e);
      UntouchedKeepsTerms(s, SessionStep(s, e));
    }
  }

  lemma {:induction false} StepKeepsTerms(s: System, e: Event)
    requires Inv(s) && TermInv(s) && s.version >= INVALID_VALUE
    ensures TermInv(Step(s, e)) && TermsAdvance(s, Step(s, e))
  {
    if Handler(s, e).Some? {
      HandlerAdvances(s, e);
    } else {
      SessionAdvances(s, e);
    }
  }

  lemma {:induction false} RunKeepsTerms(configs: map<MemberId, Config>, version: int, events: seq<Event>)
    requires version >= INVALID_VALUE
    ensures
      var s := Run(Init(configs, version), events);
      TermInv(s) && s.version >= version
  {
    if events != [] {
      var n := |events| - 1;
      RunKeepsTerms(configs, version, events[..n]);
      RunKeeps(configs, version, events[..n]);
      StepKeepsTerms(Run(Init(configs, version), events[..n]), events[n]);
    }
  }

  /**
   * In every run each election gets a term above all earlier ones; no member's term exceeds the version of the
   * group key; an elector that collects votes does so under the newest term; and one step lowers no running
   * member's term.
   */
  lemma {:induction false} TermsIncrease(configs: map<MemberId, Config>, version: int, events: seq<Event>, next: Event)
    requires version >= INVALID_VALUE
    ensures
      var s := Run(Init(configs, version), events);
      var s' := Step(s, next);
      && (forall i, j | 0 <= i < j < |s.issued| :: s.issued[i].0 < s.issued[j].0)
      && (forall p | p in s.procs :: s.procs[p].m.termId <= s.version)
      && (forall p | p in s.procs && s.procs[p].pending.collectVotes > 0 :: s.procs[p].m.termId == s.version)
      && (forall p | p in s.procs && p in s'.procs :: s'.procs[p].m.termId >= s.procs[p].m.termId)
  {
    var s := Run(Init(configs, version), events);
    RunKeeps(configs, version, events);
    RunKeepsTerms(configs, version, events);
    StepKeepsTerms(s, next);
    forall p | p in s.procs
      ensures s.procs[p].m.termId <= s.version
      ensures s.procs[p].pending.collectVotes > 0 ==> s.procs[p].m.termId == s.version
    {
      assert TermFits(s.procs[p], s.version);
    }
  }
}
