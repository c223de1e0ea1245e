/**
 * One member of a primary-backup group (src/infra/PBMember.cpp). Each handler is a function from the
 * member's state to its new state and the request it issues; class PBMember runs the handlers on fields.
 */
module Members {
  import opened Common
  import opened WriteQuorum

  datatype PBMemberState =
    | FollowerWaitToJoinGroup
    | FollowerSyncing
    | FollowerFunctional
    | EcAcquireLock
    | EcWaitingForQuorum
    | EcElectionInProgress
    | LeaderWaitingForQuorum
    | LeaderFunctional
  {
    predicate IsFollower() { FollowerWaitToJoinGroup? || FollowerSyncing? || FollowerFunctional? }
    predicate IsLeader() { LeaderWaitingForQuorum? || LeaderFunctional? }
  }

  datatype PeerInfo = PeerInfo(id: MemberId, state: PBMemberState, version: int)

  datatype LeaderCtx = LeaderCtx(opId: int, commitId: int, peers: seq<PeerInfo>)

  /** GetMemberStateRespMsg: one member's answer to an election request. */
  datatype Vote = Vote(id: MemberId, commitId: int, version: int, state: PBMemberState)

  /** What the constructor fixes for the life of the member. */
  datatype Config = Config(myId: MemberId, memberIds: seq<MemberId>, quorum: nat)

  datatype Member = Member(
    state: PBMemberState, termId: int, leaderId: MemberId, commitId: int, leaderCtx: Option<LeaderCtx>)

  /** A member after init(). */
  const FRESH: Member := Member(FollowerWaitToJoinGroup, INVALID_VALUE, "", INVALID_VALUE, None)

  /** What a handler asks of the coordination service, of another member, or of its caller. */
  datatype Action =
    | NoAction
    | AcquireElectorLock
    | AcquireLeaderLock(functional: seq<Vote>)
    | IncreaseTerm
    | ReadChildren
    | CollectVotes
    | RemoveLock(functional: seq<Vote>)
    | TellLeader(functional: seq<Vote>)
    | RunSync(leader: MemberId, termId: int)
    | Refuse(status: Status)

  // ---------- group children ----------

  /** A child of the group node: the LOCK, a member's sequential node, or anything else. */
  datatype Child = LockNode | MemberNode(seqNo: nat, id: MemberId) | OtherNode

  function ParseMembers(children: seq<Child>): map<nat, MemberId> {
    if children == [] then map[]
    else
      var parsed := ParseMembers(children[..|children| - 1]);
      match children[|children| - 1]
      case MemberNode(n, id) => parsed[n := id]
      case _ => parsed
  }

  /** The member with the lowest sequence number. */
  predicate CanBeElector(members: map<nat, MemberId>, myId: MemberId, backoffOver: bool) {
    backoffOver && exists n | n in members :: members[n] == myId && forall k | k in members :: n <= k
  }

  lemma {:induction false} LowestExists(s: set<int>)
    requires s != {}
    ensures exists low :: low in s && forall j | j in s :: low <= j
  {
    var k := AnyOf(s);
    if j :| j in s && j < k {
      assert j in s - {k};
      LowestExists(s - {k});
      var low :| low in s - {k} && forall i | i in s - {k} :: low <= i;
      assert forall i | i in s :: i == k || i in s - {k};
    }
  }

  /** Each sequence number is kept with a member that a child names for it; nothing else is. */
  lemma {:induction false} ParsedExactly(children: seq<Child>, n: nat)
    ensures n in ParseMembers(children) <==> exists id :: MemberNode(n, id) in children
    ensures n in ParseMembers(children) ==> MemberNode(n, ParseMembers(children)[n]) in children
  {
    if children != [] {
      var front, last := children[..|children| - 1], children[|children| - 1];
      assert children == front + [last];
      ParsedExactly(front, n);
      forall id
        ensures MemberNode(n, id) in children <==> MemberNode(n, id) in front || last == MemberNode(n, id)
      {
      }
    }
  }

  /** Members that see the same children agree on who may be the elector: one of them exactly, if there is any. */
  lemma {:induction false} OneCandidate(members: map<nat, MemberId>)
    ensures forall a, b | CanBeElector(members, a, true) && CanBeElector(members, b, true) :: a == b
    ensures (exists a :: CanBeElector(members, a, true)) <==> members != map[]
  {
    if members != map[] {
      var keys: set<int> := set n | n in members;
      var some := AnyOf(members.Keys);
      assert some in keys;
      LowestExists(keys);
      var low :| low in keys && forall k | k in keys :: low <= k;
      assert low in members && forall k | k in members :: low <= k by {
        forall k | k in members ensures low <= k { assert k in keys; }
      }
      assert CanBeElector(members, members[low], true);
    }
  }

  // ---------- handlers ----------

  function GroupWatch(c: Config, m: Member, children: seq<Child>, backoffOver: bool): (Member, Action) {
    match m.state
    case FollowerWaitToJoinGroup =>
      if LockNode !in children && CanBeElector(ParseMembers(children), c.myId, backoffOver)
      then (m.(state := EcAcquireLock), AcquireElectorLock)
      else (m, NoAction)
    case EcWaitingForQuorum => QuorumCheck(c, m, children)
    case _ => (m, NoAction)
  }

  function QuorumCheck(c: Config, m: Member, children: seq<Child>): (Member, Action) {
    if |ParseMembers(children)| >= c.quorum
    then (m.(state := EcElectionInProgress), CollectVotes)
    else (m, NoAction)
  }

  function TermIncreased(m: Member, term: int): (Member, Action) {
    (m.(termId := term), ReadChildren)
  }

  function ChildrenRead(c: Config, m: Member, children: seq<Child>): (Member, Action) {
    QuorumCheck(c, m.(state := EcWaitingForQuorum), children)
  }

  type Buckets = map<int, seq<Vote>>

  /** The key of `values.begin()` in an ordered map: the lowest commit id. */
  function LowestKey(values: Buckets): (c: int)
    requires values != map[]
    ensures c in values && forall d | d in values :: c <= d
  {
    LowestExists(values.Keys);
    var k: int :| k in values.Keys && forall j | j in values.Keys :: k <= j;
    k
  }

  predicate HasWinner(values: Buckets, quorum: nat) {
    values != map[] && |values[LowestKey(values)]| >= quorum
  }

  function ElectionResponse(c: Config, m: Member, values: Buckets): (Member, Action) {
    if HasWinner(values, c.quorum)
    then (m, RemoveLock(values[LowestKey(values)]))
    else (m.(state := EcWaitingForQuorum), NoAction)
  }

  function MarkFunctional(votes: seq<Vote>): (r: seq<Vote>)
    ensures |r| == |votes|
    ensures forall i | 0 <= i < |r| :: r[i] == votes[i].(state := FollowerFunctional)
  {
    seq(|votes|, i requires 0 <= i < |votes| => votes[i].(state := FollowerFunctional))
  }

  function LockRemoved(m: Member, functional: seq<Vote>): (Member, Action) {
    (m.(state := FollowerWaitToJoinGroup), TellLeader(MarkFunctional(functional)))
  }

  /** The answer to an election request. */
  function GetMemberState(c: Config, m: Member, termId: int): Option<Vote> {
    if termId < m.termId then None else Some(Vote(c.myId, m.commitId, 0, m.state))
  }

  function BecomeLeader(m: Member, termId: int, functional: seq<Vote>): (Member, Action) {
    if termId < m.termId then (m, Refuse(InvalidTerm)) else (m, AcquireLeaderLock(functional))
  }

  function FindVote(votes: seq<Vote>, id: MemberId): Option<Vote> {
    if votes == [] then None
    else if votes[0].id == id then Some(votes[0])
    else FindVote(votes[1..], id)
  }

  function PeerOf(functional: seq<Vote>, id: MemberId): PeerInfo {
    match FindVote(functional, id)
    case Some(v) => PeerInfo(id, v.state, v.version)
    case None => PeerInfo(id, FollowerWaitToJoinGroup, INVALID_VALUE)
  }

  function PeersFor(memberIds: seq<MemberId>, myId: MemberId, functional: seq<Vote>): seq<PeerInfo> {
    if memberIds == [] then []
    else
      var id := memberIds[|memberIds| - 1];
      PeersFor(memberIds[..|memberIds| - 1], myId, functional) +
      (if id == myId then [] else [PeerOf(functional, id)])
  }

  /** The leader lock has been created: set up the leader context. */
  function TakeOffice(c: Config, m: Member, functional: seq<Vote>): Member {
    m.(leaderCtx := Some(LeaderCtx(INVALID_VALUE, INVALID_VALUE, PeersFor(c.memberIds, c.myId, functional))),
       leaderId := c.myId,
       state := if |functional| >= c.quorum then LeaderFunctional else LeaderWaitingForQuorum)
  }

  function GroupInfoUpdate(
      c: Config, m: Member, termId: int, leaderId: MemberId, functional: seq<Vote>): (Member, Action)
  {
    if termId < m.termId then (m, Refuse(InvalidTerm))
    else if m.state.IsFollower() && m.state != FollowerSyncing && FindVote(functional, c.myId).None?
    then
      var term := if m.termId < termId then termId else m.termId;
      (m.(leaderId := leaderId, state := FollowerSyncing, termId := term), RunSync(leaderId, term))
    else (m, NoAction)
  }

  /** The last step of the sync protocol. */
  function SyncCompleted(m: Member): Member { m.(state := FollowerFunctional) }

  // ---------- peers of a leader ----------

  function FindPeer(peers: seq<PeerInfo>, id: MemberId): (r: Option<nat>)
    ensures r.Some? ==> r.value < |peers| && peers[r.value].id == id
  {
    if peers == [] then None
    else if peers[0].id == id then Some(0)
    else match FindPeer(peers[1..], id)
      case None => None
      case Some(i) => Some(i + 1)
  }

  function ChangePeer(p: PeerInfo, incoming: int, target: PBMemberState): PeerInfo {
    var accepted :=
      match target
      case FollowerWaitToJoinGroup =>
        (p.state.FollowerSyncing? || p.state.FollowerFunctional?) && incoming >= p.version
      case FollowerSyncing =>
        (p.version == incoming && p.state.FollowerWaitToJoinGroup?) || incoming > p.version
      case FollowerFunctional =>
        (p.version == incoming && (p.state.FollowerWaitToJoinGroup? || p.state.FollowerSyncing?))
        || incoming > p.version
      case _ => false;
    if accepted then p.(state := target, version := incoming) else p
  }

  function CountIn(peers: seq<PeerInfo>, s: PBMemberState): (n: nat)
    ensures n <= |peers|
  {
    if peers == [] then 0
    else CountIn(peers[..|peers| - 1], s) + (if peers[|peers| - 1].state == s then 1 else 0)
  }

  function LeaderStateFor(state: PBMemberState, nFunctional: nat, quorum: nat): PBMemberState {
    if state == LeaderFunctional && nFunctional < quorum - 1 then LeaderWaitingForQuorum
    else if state == LeaderWaitingForQuorum && nFunctional >= quorum - 1 then LeaderFunctional
    else state
  }

  function AfterReport(c: Config, m: Member, id: MemberId, incoming: int, target: PBMemberState): Member
    requires m.leaderCtx.Some?
  {
    var peers := m.leaderCtx.value.peers;
    match FindPeer(peers, id)
    case None => m
    case Some(i) =>
      var peers' := peers[i := ChangePeer(peers[i], incoming, target)];
      m.(leaderCtx := Some(m.leaderCtx.value.(peers := peers')),
         state := LeaderStateFor(m.state, CountIn(peers', FollowerFunctional), c.quorum))
  }

  function AddToGroup(
      c: Config, m: Member, termId: int, id: MemberId, version: int, state: PBMemberState): (Member, Status)
  {
    if termId < m.termId then (m, InvalidTerm)
    else if !m.state.IsLeader() || m.leaderCtx.None? then (m, NotLeader)
    else (AfterReport(c, m, id, version, state), Ok)
  }

  predicate IsWritable(p: PeerInfo) { p.state.FollowerFunctional? || p.state.FollowerSyncing? }

  function WritablePeers(peers: seq<PeerInfo>): (r: seq<PeerInfo>)
    ensures |r| <= |peers|
    ensures forall p :: p in r <==> p in peers && IsWritable(p)
  {
    if peers == [] then []
    else
      var last := peers[|peers| - 1];
      assert peers == peers[..|peers| - 1] + [last];
      WritablePeers(peers[..|peers| - 1]) + (if IsWritable(last) then [last] else [])
  }

  // ---------- the member on its fields ----------

  class PBMember {
    const c: Config
    var state: PBMemberState
    var termId: int
    var leaderId: MemberId
    var commitId: int
    var leaderCtx: Option<LeaderCtx>

    ghost function View(): Member
      reads this
    {
      Member(state, termId, leaderId, commitId, leaderCtx)
    }

    constructor (c: Config)
      ensures this.c == c && View() == FRESH
    {
      this.c := c;
      state := FollowerWaitToJoinGroup;
      termId, commitId := INVALID_VALUE, INVALID_VALUE;
      leaderId, leaderCtx := "", None;
    }

    method ParseChildren(children: seq<Child>) returns (members: map<nat, MemberId>)
      ensures members == ParseMembers(children)
    {
      members := map[];
      for i := 0 to |children|
        invariant members == ParseMembers(children[..i])
      {
        assert children[..i + 1][..i] == children[..i];
        if children[i].MemberNode? {
          members := members[children[i].seqNo := children[i].id];
        }
      }
      assert children[..|children|] == children;
    }

    method CheckQuorum(children: seq<Child>) returns (a: Action)
      modifies this`state
      ensures (View(), a) == QuorumCheck(c, old(View()), children)
    {
      var members := ParseChildren(children);
      if |members| >= c.quorum {
        state := EcElectionInProgress;
        return CollectVotes;
      }
      return NoAction;
    }

    method HandleGroupWatchEvent(children: seq<Child>, backoffOver: bool) returns (a: Action)
      modifies this`state
      ensures (View(), a) == GroupWatch(c, old(View()), children, backoffOver)
    {
      a := NoAction;
      match state {
        case FollowerWaitToJoinGroup =>
          var members := ParseChildren(children);
          if LockNode !in children && CanBeElector(members, c.myId, backoffOver) {
            state := EcAcquireLock;
            a := AcquireElectorLock;
          }
        case EcWaitingForQuorum =>
          a := CheckQuorum(children);
        case _ =>
      }
    }

    method OnTermIncreased(term: int) returns (a: Action)
      modifies this`termId
      ensures (View(), a) == TermIncreased(old(View()), term)
    {
      termId := term;
      a := ReadChildren;
    }

    method OnChildrenRead(children: seq<Child>) returns (a: Action)
      modifies this`state
      ensures (View(), a) == ChildrenRead(c, old(View()), children)
    {
      state := EcWaitingForQuorum;
      a := CheckQuorum(children);
    }

    method HandleElectionResponse(values: Buckets) returns (a: Action)
      modifies this`state
      ensures (View(), a) == ElectionResponse(c, old(View()), values)
    {
      if values != map[] && |values[LowestKey(values)]| >= c.quorum {
        a := RemoveLock(values[LowestKey(values)]);
      } else {
        state := EcWaitingForQuorum;
        a := NoAction;
      }
    }

    method OnElectorLockRemoved(functional: seq<Vote>) returns (a: Action)
      modifies this`state
      ensures (View(), a) == LockRemoved(old(View()), functional)
    {
      state := FollowerWaitToJoinGroup;
      var marked := functional;
      for i := 0 to |functional|
        invariant |marked| == |functional|
        invariant forall k | 0 <= k < i :: marked[k] == functional[k].(state := FollowerFunctional)
        invariant forall k | i <= k < |functional| :: marked[k] == functional[k]
      {
        marked := marked[i := marked[i].(state := FollowerFunctional)];
      }
      assert marked == MarkFunctional(functional);
      a := TellLeader(marked);
    }

    method HandleGetMemberStateMsg(term: int) returns (v: Option<Vote>)
      ensures v == GetMemberState(c, View(), term)
    {
      if term < termId {
        return None;
      }
      return Some(Vote(c.myId, commitId, 0, state));
    }

    method HandleBecomeLeaderMsg(term: int, functional: seq<Vote>) returns (a: Action)
      ensures (View(), a) == BecomeLeader(View(), term, functional)
    {
      if term < termId {
        return Refuse(InvalidTerm);
      }
      return AcquireLeaderLock(functional);
    }

    method OnLeaderLockAcquired(functional: seq<Vote>)
      modifies this
      ensures View() == TakeOffice(c, old(View()), functional)
    {
      var peers: seq<PeerInfo> := [];
      for i := 0 to |c.memberIds|
        invariant peers == PeersFor(c.memberIds[..i], c.myId, functional)
      {
        assert c.memberIds[..i + 1][..i] == c.memberIds[..i];
        var id := c.memberIds[i];
        if id == c.myId {
          continue;
        }
        match FindVote(functional, id) {
          case Some(v) => peers := peers + [PeerInfo(id, v.state, v.version)];
          case None => peers := peers + [PeerInfo(id, FollowerWaitToJoinGroup, INVALID_VALUE)];
        }
      }
      assert c.memberIds[..|c.memberIds|] == c.memberIds;
      leaderCtx := Some(LeaderCtx(INVALID_VALUE, INVALID_VALUE, peers));
      leaderId := c.myId;
      if |functional| >= c.quorum {
        state := LeaderFunctional;
      } else {
        state := LeaderWaitingForQuorum;
      }
    }

    method HandleGroupInfoUpdateMsg(term: int, leader: MemberId, functional: seq<Vote>) returns (a: Action)
      modifies this
      ensures (View(), a) == GroupInfoUpdate(c, old(View()), term, leader, functional)
    {
      if term < termId {
        return Refuse(InvalidTerm);
      }
      if state == FollowerSyncing {
        return NoAction;
      }
      if state.IsFollower() && FindVote(functional, c.myId).None? {
        leaderId := leader;
        state := FollowerSyncing;
        if termId < term {
          termId := term;
        }
        return RunSync(leaderId, termId);
      }
      return NoAction;
    }

    method HandleAddToGroupMsg(term: int, id: MemberId, version: int, memberState: PBMemberState) returns (s: Status)
      modifies this
      ensures (View(), s) == AddToGroup(c, old(View()), term, id, version, memberState)
    {
      if term < termId {
        return InvalidTerm;
      }
      if !state.IsLeader() || leaderCtx.None? {
        return NotLeader;
      }
      ChangePeerState(id, version, memberState);
      return Ok;
    }

    method ChangePeerState(id: MemberId, incoming: int, target: PBMemberState)
      requires leaderCtx.Some?
      modifies this
      ensures View() == AfterReport(c, old(View()), id, incoming, target)
    {
      var peers := leaderCtx.value.peers;
      var found := FindPeer(peers, id);
      if found.None? {
        return;
      }
      var changed := AdjustPeer(peers[found.value], incoming, target);
      peers := peers[found.value := changed];
      leaderCtx := Some(leaderCtx.value.(peers := peers));
      var nFunctional := CountFunctional(peers);
      if state == LeaderFunctional && nFunctional < c.quorum - 1 {
        state := LeaderWaitingForQuorum;
      } else if state == LeaderWaitingForQuorum && nFunctional >= c.quorum - 1 {
        state := LeaderFunctional;
      }
    }

    static method AdjustPeer(current: PeerInfo, incoming: int, target: PBMemberState) returns (p: PeerInfo)
      ensures p == ChangePeer(current, incoming, target)
    {
      p := current;
      if target == FollowerWaitToJoinGroup {
        if (current.state == FollowerSyncing || current.state == FollowerFunctional) && incoming >= current.version {
          p := PeerInfo(current.id, target, incoming);
        }
      } else if target == FollowerSyncing {
        if (current.version == incoming && current.state == FollowerWaitToJoinGroup) || incoming > current.version {
          p := PeerInfo(current.id, target, incoming);
        }
      } else if target == FollowerFunctional {
        if (current.version == incoming &&
            (current.state == FollowerWaitToJoinGroup || current.state == FollowerSyncing))
           || incoming > current.version {
          p := PeerInfo(current.id, target, incoming);
        }
      }
    }

    static method CountFunctional(peers: seq<PeerInfo>) returns (nFunctional: nat)
      ensures nFunctional == CountIn(peers, FollowerFunctional)
    {
      var nSyncing, nNonFunctional := 0, 0;
      nFunctional := 0;
      for k := 0 to |peers|
        invariant nFunctional == CountIn(peers[..k], FollowerFunctional)
        invariant nFunctional + nSyncing + nNonFunctional == k
      {
        assert peers[..k + 1][..k] == peers[..k];
        if peers[k].state == FollowerFunctional {
          nFunctional := nFunctional + 1;
        } else if peers[k].state == FollowerSyncing {
          nSyncing := nSyncing + 1;
        } else {
          nNonFunctional := nNonFunctional + 1;
        }
      }
      assert peers[..|peers|] == peers;
      assert nFunctional + nNonFunctional + nSyncing == |peers|;
    }

    method GetWritablePeers() returns (peers: seq<PeerInfo>)
      requires leaderCtx.Some?
      ensures peers == WritablePeers(leaderCtx.value.peers)
    {
      var all := leaderCtx.value.peers;
      peers := [];
      for i := 0 to |all|
        invariant peers == WritablePeers(all[..i])
      {
        assert all[..i + 1][..i] == all[..i];
        if all[i].state == FollowerFunctional || all[i].state == FollowerSyncing {
          peers := peers + [all[i]];
        }
      }
      assert all[..|all|] == all;
    }

    /** The callback of one peer's reply to a write; `prior` is the peer as it was when the write was sent. */
    method OnWriteReply(ctx: WriteCtx, prior: PeerInfo, ok: bool)
      requires leaderCtx.Some?
      modifies this, ctx
      ensures ctx.View() == OnReply(old(ctx.View()), c.quorum, ok)
      ensures View() == WriteReplied(c, old(View()), prior, ok)
    {
      ctx.OnPeerReply(c.quorum, ok);
      if !ok {
        ChangePeerState(prior.id, prior.version, FollowerWaitToJoinGroup);
      }
    }
  }

  function WriteReplied(c: Config, m: Member, prior: PeerInfo, ok: bool): Member
    requires m.leaderCtx.Some?
  {
    if ok then m else AfterReport(c, m, prior.id, prior.version, FollowerWaitToJoinGroup)
  }

  // ---------- what a leader knows about its peers ----------

  function Rank(s: PBMemberState): nat {
    match s
    case FollowerWaitToJoinGroup => 0
    case FollowerSyncing => 1
    case FollowerFunctional => 2
    case _ => 3
  }

  /**
   * Exactly which reports are believed. A report of progress is believed when (version, progress) is
   * lexicographically above what is recorded; a failure is believed when the peer is in use and has not
   * re-registered with a newer version; a report of any other state is ignored.
   */
  lemma {:induction false} ReportBelievedExactly(p: PeerInfo, incoming: int, target: PBMemberState)
    requires p.state.IsFollower()
    ensures
      var believed :=
        if target == FollowerWaitToJoinGroup then IsWritable(p) && incoming >= p.version
        else target.IsFollower() && (incoming > p.version || (incoming == p.version && Rank(target) > Rank(p.state)));
      ChangePeer(p, incoming, target) == if believed then PeerInfo(p.id, target, incoming) else p
  {
  }

  datatype Report = Report(id: MemberId, version: int, state: PBMemberState)

  function AfterReports(c: Config, m: Member, reports: seq<Report>): (r: Member)
    requires m.leaderCtx.Some?
    ensures r.leaderCtx.Some?
  {
    if reports == [] then m
    else
      var last := reports[|reports| - 1];
      AfterReport(c, AfterReports(c, m, reports[..|reports| - 1]), last.id, last.version, last.state)
  }

  ghost predicate HasPeer(peers: seq<PeerInfo>, id: MemberId) {
    exists i | 0 <= i < |peers| :: peers[i].id == id
  }

  ghost predicate DistinctPeers(peers: seq<PeerInfo>) {
    forall i, j | 0 <= i < j < |peers| :: peers[i].id != peers[j].id
  }

  lemma {:induction false} AppendPeer(peers: seq<PeerInfo>, p: PeerInfo)
    ensures forall x :: HasPeer(peers + [p], x) <==> HasPeer(peers, x) || x == p.id
    ensures DistinctPeers(peers) && !HasPeer(peers, p.id) ==> DistinctPeers(peers + [p])
  {
    var all := peers + [p];
    forall x
      ensures HasPeer(all, x) <==> HasPeer(peers, x) || x == p.id
    {
      if HasPeer(peers, x) {
        var i :| 0 <= i < |peers| && peers[i].id == x;
        assert all[i].id == x;
      }
      assert all[|peers|] == p;
    }
  }

  /** The peer list names each other member exactly once, and nobody else. */
  ghost predicate PeersCover(c: Config, peers: seq<PeerInfo>) {
    && DistinctPeers(peers)
    && (forall id :: HasPeer(peers, id) <==> id in c.memberIds && id != c.myId)
    && (forall i | 0 <= i < |peers| :: peers[i].state.IsFollower())
  }

  /**
   * What a member knows about its peers from taking office on, even should it stop leading; while it leads, it is
   * functional exactly when quorum-1 of them are.
   */
  ghost predicate PeersTracked(c: Config, m: Member) {
    && m.leaderCtx.Some?
    && PeersCover(c, m.leaderCtx.value.peers)
    && (m.state.IsLeader() ==>
          (m.state == LeaderFunctional <==> CountIn(m.leaderCtx.value.peers, FollowerFunctional) >= c.quorum - 1))
  }

  /** What holds of a member while it leads. */
  ghost predicate InOffice(c: Config, m: Member) {
    m.state.IsLeader() && PeersTracked(c, m)
  }

  lemma {:induction false} ReportKeepsTracking(c: Config, m: Member, id: MemberId, incoming: int, target: PBMemberState)
    requires PeersTracked(c, m)
    ensures PeersTracked(c, AfterReport(c, m, id, incoming, target))
    ensures AfterReport(c, m, id, incoming, target).state.IsLeader() <==> m.state.IsLeader()
    ensures
      var p, p' := m.leaderCtx.value.peers, AfterReport(c, m, id, incoming, target).leaderCtx.value.peers;
      |p'| == |p| && forall i | 0 <= i < |p| :: p'[i].id == p[i].id && p'[i].version >= p[i].version
  {
    var peers := m.leaderCtx.value.peers;
    var m' := AfterReport(c, m, id, incoming, target);
    var peers' := m'.leaderCtx.value.peers;
    assert |peers'| == |peers| &&
           forall i | 0 <= i < |peers| :: peers'[i].id == peers[i].id && peers'[i].state.IsFollower();
    forall x
      ensures HasPeer(peers', x) <==> HasPeer(peers, x)
    {
      if i :| 0 <= i < |peers'| && peers'[i].id == x {
        assert peers[i].id == x;
      }
      if i :| 0 <= i < |peers| && peers[i].id == x {
        assert peers'[i].id == x;
      }
    }
  }

  lemma {:induction false} ReportKeepsOffice(c: Config, m: Member, id: MemberId, incoming: int, target: PBMemberState)
    requires InOffice(c, m)
    ensures InOffice(c, AfterReport(c, m, id, incoming, target))
    ensures
      var p, p' := m.leaderCtx.value.peers, AfterReport(c, m, id, incoming, target).leaderCtx.value.peers;
      |p'| == |p| && forall i | 0 <= i < |p| :: p'[i].id == p[i].id && p'[i].version >= p[i].version
  {
    ReportKeepsTracking(c, m, id, incoming, target);
  }

  /** The check that closes changePeerState_, on the member as it then is. */
  predicate ClosingCheck(c: Config, m: Member)
    requires m.leaderCtx.Some?
  {
    CountIn(m.leaderCtx.value.peers, FollowerFunctional) < c.quorum - 1 || m.state == LeaderFunctional
  }

  /**
   * The closing check holds after a report about a known peer exactly if the member still leads or the report leaves
   * fewer than quorum-1 peers functional.
   */
  lemma {:induction false} ClosingCheckHoldsIff(
      c: Config, m: Member, id: MemberId, incoming: int, target: PBMemberState)
    requires m.leaderCtx.Some? && FindPeer(m.leaderCtx.value.peers, id).Some?
    ensures
      var i := FindPeer(m.leaderCtx.value.peers, id).value;
      var after := m.leaderCtx.value.peers[i := ChangePeer(m.leaderCtx.value.peers[i], incoming, target)];
      ClosingCheck(c, AfterReport(c, m, id, incoming, target)) <==>
      m.state.IsLeader() || CountIn(after, FollowerFunctional) < c.quorum - 1
  {
  }

  /** Any sequence of joins, sync reports and write failures keeps the office, the peer list and version order. */
  lemma {:induction false} ReportsKeepOffice(c: Config, m: Member, reports: seq<Report>)
    requires InOffice(c, m)
    ensures
      var m' := AfterReports(c, m, reports);
      && InOffice(c, m')
      && |m'.leaderCtx.value.peers| == |m.leaderCtx.value.peers|
      && forall i | 0 <= i < |m.leaderCtx.value.peers| ::
           m'.leaderCtx.value.peers[i].id == m.leaderCtx.value.peers[i].id &&
           m'.leaderCtx.value.peers[i].version >= m.leaderCtx.value.peers[i].version
  {
    if reports != [] {
      var front := reports[..|reports| - 1];
      ReportsKeepOffice(c, m, front);
      var last := reports[|reports| - 1];
      ReportKeepsOffice(c, AfterReports(c, m, front), last.id, last.version, last.state);
    }
  }

  /**
   * A write failure recorded against an older registration never demotes a peer: once the peer is known
   * at a newer version, whatever is reported in between, the failure changes nothing.
   */
  lemma {:induction false} StaleFailureIgnored(c: Config, m: Member, i: nat, later: seq<Report>, prior: PeerInfo)
    requires InOffice(c, m) && i < |m.leaderCtx.value.peers|
    requires prior.id == m.leaderCtx.value.peers[i].id && prior.version < m.leaderCtx.value.peers[i].version
    ensures
      var m' := AfterReports(c, m, later);
      WriteReplied(c, m', prior, false) == m'
  {
    ReportsKeepOffice(c, m, later);
    var m' := AfterReports(c, m, later);
    var peers := m'.leaderCtx.value.peers;
    FindPeerAt(peers, i);
    assert peers[i := peers[i]] == peers;
  }

  lemma {:induction false} FindPeerAt(peers: seq<PeerInfo>, i: nat)
    requires i < |peers| && DistinctPeers(peers)
    ensures FindPeer(peers, peers[i].id) == Some(i)
  {
    if i > 0 {
      FindPeerAt(peers[1..], i - 1);
      assert peers[0].id != peers[i].id;
    }
  }
}
