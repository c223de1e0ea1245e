/**
 * A leader and its peers during one leader context, as a transition system. Write messages stay in the
 * network for ever, so they may arrive in any order, any number of times, or never; a reply to the leader
 * may be a success the peer has sent or, at any time, a failure.
 */
module Cluster {
  import opened Common
  import opened MetaDb
  import opened Journals
  import opened Members
  import opened WriteQuorum
  import opened Replicas
  import opened Elections

  datatype Packet = Packet(to: MemberId, msg: UpdateBlobMetaMsg)

  /** One group write in progress: its shared context, the peers yet to reply and the peers that succeeded. */
  datatype Write = Write(w: WriteState, waiting: map<MemberId, PeerInfo>, acked: set<MemberId>)

  datatype Group = Group(
    c: Config,
    leader: Member,
    replicas: map<MemberId, ReplicaState>,
    net: set<Packet>,
    oks: set<(MemberId, int)>,
    writes: map<int, Write>)

  datatype Event =
    | ClientWrite(msg: UpdateBlobMetaMsg, dbOk: bool)
    | Deliver(to: MemberId, msg: UpdateBlobMetaMsg, dbOk: bool)
    | SuccessReply(id: int, from: MemberId)
    | FailureReply(id: int, from: MemberId)
    | LateSync
    | LateRemoval
    | Join(termId: int, peer: MemberId, version: int, state: PBMemberState)
    | SyncEntry(to: MemberId, position: nat, dbOk: bool)

  /** The late replies that set a leader's state outright: the end of a sync, or of a removal, begun before it led. */
  predicate StepsDown(e: Event) { e.LateSync? || e.LateRemoval? }

  /** A leader that has just taken office among replicas that hold nothing. */
  function Start(c: Config, m: Member, functional: seq<Vote>): Group {
    Group(c, TakeOffice(c, m, functional), map id | id in c.memberIds :: EMPTY_REPLICA, {}, {}, map[])
  }

  function LeaderLog(g: Group): Log {
    if g.c.myId in g.replicas then g.replicas[g.c.myId].log else []
  }

  /** A disabled event changes nothing. */
  function Step(g: Group, e: Event): Group {
    match e
    case ClientWrite(msg, dbOk) => ClientWriteStep(g, msg, dbOk)
    case Deliver(to, msg, dbOk) => DeliverStep(g, to, msg, dbOk)
    case SuccessReply(id, from) => if (from, id) in g.oks then ReplyStep(g, id, from, true) else g
    case FailureReply(id, from) => ReplyStep(g, id, from, false)
    case Join(termId, peer, version, state) =>
      g.(leader := AddToGroup(g.c, g.leader, termId, peer, version, state).0)
    case SyncEntry(to, position, dbOk) => SyncEntryStep(g, to, position, dbOk)
    case LateSync => g.(leader := SyncCompleted(g.leader))
    case LateRemoval => g.(leader := LockRemoved(g.leader, []).0)
  }

  /** A peer applies an entry it has pulled from the leader's journal, through its own write handler. */
  function SyncEntryStep(g: Group, to: MemberId, position: nat, dbOk: bool): Group {
    if to in g.replicas && to != g.c.myId && position < |LeaderLog(g)|
    then g.(replicas := g.replicas[to := MetadataWrite(g.replicas[to], LeaderLog(g)[position].buf, dbOk).0])
    else g
  }

  function PeerMap(peers: seq<PeerInfo>): map<MemberId, PeerInfo> {
    if peers == [] then map[]
    else
      var last := peers[|peers| - 1];
      PeerMap(peers[..|peers| - 1])[last.id := last]
  }

  function ClientWriteStep(g: Group, msg: UpdateBlobMetaMsg, dbOk: bool): Group {
    if g.c.myId !in g.replicas || g.leader.leaderCtx.None? then g
    else
      var (leader', replica', outcome) := LeaderWrite(g.leader, g.replicas[g.c.myId], msg, dbOk);
      var g' := g.(leader := leader', replicas := g.replicas[g.c.myId := replica']);
      match outcome
      case Refused(_) => g'
      case Replicating(stamped, peers) =>
        g'.(net := g.net + (set p | p in peers :: Packet(p.id, stamped)),
            writes := g.writes[stamped.commitId := Write(NewWrite(|peers|), PeerMap(peers), {})])
  }

  function DeliverStep(g: Group, to: MemberId, msg: UpdateBlobMetaMsg, dbOk: bool): Group {
    if Packet(to, msg) !in g.net || to !in g.replicas then g
    else
      var (replica', s) := MetadataWrite(g.replicas[to], msg, dbOk);
      g.(replicas := g.replicas[to := replica'], oks := if s == Ok then g.oks + {(to, msg.commitId)} else g.oks)
  }

  function ReplyStep(g: Group, id: int, from: MemberId, ok: bool): Group {
    if id !in g.writes || from !in g.writes[id].waiting || g.leader.leaderCtx.None? then g
    else
      var wr := g.writes[id];
      g.(writes := g.writes[id := Write(OnReply(wr.w, g.c.quorum, ok), wr.waiting - {from},
                                        if ok then wr.acked + {from} else wr.acked)],
         leader := WriteReplied(g.c, g.leader, wr.waiting[from], ok))
  }

  function Run(g: Group, events: seq<Event>): Group {
    if events == [] then g else Step(Run(g, events[..|events| - 1]), events[|events| - 1])
  }

  // ---------- the invariant ----------

  /** In a contiguous journal the record with id x stands at position x - log[0].id. */
  ghost predicate HasId(log: Log, id: int) {
    log != [] && 0 <= id - log[0].id < |log|
  }

  ghost predicate Holds(log: Log, r: Record) {
    HasId(log, r.id) && log[r.id - log[0].id] == r
  }

  lemma {:induction false} HoldsIsMembership(log: Log, r: Record)
    requires Contiguous(log)
    ensures Holds(log, r) <==> r in log
    ensures HasId(log, r.id) <==> exists i | 0 <= i < |log| :: log[i].id == r.id
  {
    if r in log {
      var i :| 0 <= i < |log| && log[i] == r;
      assert log[i].id == log[0].id + i;
    }
    if HasId(log, r.id) {
      assert log[r.id - log[0].id].id == r.id;
    }
  }

  /** `part` is a contiguous slice of `whole`. */
  ghost predicate IsSlice(part: Log, whole: Log) {
    part == [] ||
    (HasId(whole, part[0].id) &&
     var k := part[0].id - whole[0].id;
     k + |part| <= |whole| && part == whole[k..k + |part|])
  }

  ghost predicate LeaderOk(g: Group) {
    && PeersTracked(g.c, g.leader)
    && g.replicas.Keys == MemberSet(g.c)
    && g.c.myId in g.replicas
    && g.leader.leaderCtx.value.commitId >= INVALID_VALUE
    && (LeaderLog(g) != [] ==>
          0 <= LeaderLog(g)[0].id && LeaderLog(g)[|LeaderLog(g)| - 1].id <= g.leader.leaderCtx.value.commitId)
  }

  /** A replica is the replay of its own journal, which is a slice of the leader's. */
  ghost predicate Follows(r: ReplicaState, whole: Log) {
    IsSlice(r.log, whole) && r.table == Replay(r.log)
  }

  ghost predicate ReplicasOk(g: Group) {
    && Contiguous(LeaderLog(g)) && Stamped(LeaderLog(g))
    && forall id | id in g.replicas :: Follows(g.replicas[id], LeaderLog(g))
  }

  ghost predicate NetOk(g: Group) {
    forall p | p in g.net :: p.to != g.c.myId && Holds(LeaderLog(g), RecordOf(p.msg))
  }

  ghost predicate OksOk(g: Group) {
    forall ok | ok in g.oks :: ok.0 != g.c.myId && ok.0 in g.replicas && HasId(g.replicas[ok.0].log, ok.1)
  }

  ghost predicate WriteOk(g: Group, id: int, wr: Write) {
    && HasId(LeaderLog(g), id)
    && (forall p | p in wr.acked :: (p, id) in g.oks)
    && wr.acked !! wr.waiting.Keys
    && wr.w.nSuccess == |wr.acked|
    && wr.w.nAcked + |wr.waiting| == wr.w.nPeers
    && (wr.w.promise == Fulfilled ==> g.c.quorum >= 2 && wr.w.nSuccess >= g.c.quorum - 1)
  }

  ghost predicate WritesOk(g: Group) {
    forall id | id in g.writes :: WriteOk(g, id, g.writes[id])
  }

  ghost predicate Inv(g: Group) {
    LeaderOk(g) && ReplicasOk(g) && NetOk(g) && OksOk(g) && WritesOk(g)
  }

  /** What every step does to the journals: it only appends to them. */
  ghost predicate Grows(g: Group, g': Group) {
    && g'.c == g.c
    && g'.replicas.Keys == g.replicas.Keys
    && forall id | id in g.replicas :: g.replicas[id].log <= g'.replicas[id].log
  }

  // ---------- every step keeps the invariant ----------

  /** Growing journals keep what is known of messages, replies and writes, for a step that changes one set of writes. */
  lemma {:induction false} MessagesKept(g: Group, g': Group, added: set<(MemberId, int)>, changed: set<int>)
    requires Grows(g, g') && g.c.myId in g.replicas && NetOk(g) && OksOk(g) && WritesOk(g)
    requires g'.net == g.net && g'.oks == g.oks + added
    requires forall ok | ok in added :: ok.0 != g.c.myId && ok.0 in g'.replicas && HasId(g'.replicas[ok.0].log, ok.1)
    requires forall id | id in g'.writes ::
               if id in changed then WriteOk(g', id, g'.writes[id]) else id in g.writes && g'.writes[id] == g.writes[id]
    ensures NetOk(g') && OksOk(g') && WritesOk(g')
  {
    assert g.replicas[g.c.myId].log <= g'.replicas[g.c.myId].log;
  }

  /** A slice with the next record of the whole added is a slice. */
  lemma {:induction false} SliceGrows(part: Log, whole: Log, rec: Record)
    requires IsSlice(part, whole) && Contiguous(whole) && Holds(whole, rec) && Extends(part, rec.id)
    ensures IsSlice(part + [rec], whole) && HasId(part + [rec], rec.id)
  {
    var longer := part + [rec];
    if part == [] {
      assert longer == [rec];
    } else {
      var k := part[0].id - whole[0].id;
      assert part[|part| - 1] == whole[k + |part| - 1];
      assert rec == whole[k + |part|];
      assert longer == whole[k..k + |longer|];
    }
  }

  lemma {:induction false} ReplayAppend(log: Log, rec: Record)
    ensures Replay(log + [rec]) == Updated(Replay(log), rec.buf)
  {
    assert (log + [rec])[..|log|] == log;
  }

  /** A peer that takes a record of the leader's journal still follows it. */
  lemma {:induction false} PeerFollows(r: ReplicaState, whole: Log, msg: UpdateBlobMetaMsg, dbOk: bool)
    requires Follows(r, whole) && Contiguous(whole) && Holds(whole, RecordOf(msg))
    ensures
      var (r', s) := MetadataWrite(r, msg, dbOk);
      Follows(r', whole) && r.log <= r'.log && (s == Ok ==> HasId(r'.log, msg.commitId))
  {
    if Extends(r.log, msg.commitId) && dbOk {
      SliceGrows(r.log, whole, RecordOf(msg));
      ReplayAppend(r.log, RecordOf(msg));
    }
  }

  /** A record of the leader's journal, written at a peer by whatever route, keeps the replicas in order. */
  lemma {:induction false} PeerWriteKeeps(g: Group, to: MemberId, msg: UpdateBlobMetaMsg, dbOk: bool, g': Group)
    requires LeaderOk(g) && ReplicasOk(g)
    requires to in g.replicas && to != g.c.myId && Holds(LeaderLog(g), RecordOf(msg))
    requires g'.c == g.c && g'.leader == g.leader
    requires g'.replicas == g.replicas[to := MetadataWrite(g.replicas[to], msg, dbOk).0]
    ensures Grows(g, g') && LeaderOk(g') && ReplicasOk(g')
    ensures MetadataWrite(g.replicas[to], msg, dbOk).1 == Ok ==> HasId(g'.replicas[to].log, msg.commitId)
  {
    PeerFollows(g.replicas[to], LeaderLog(g), msg, dbOk);
    OneReplicaGrows(g, g', to, MetadataWrite(g.replicas[to], msg, dbOk).0);
    assert LeaderLog(g') == LeaderLog(g);
  }

  lemma {:induction false} PeerStepKeeps(
      g: Group, to: MemberId, msg: UpdateBlobMetaMsg, dbOk: bool, g': Group, added: set<(MemberId, int)>)
    requires Inv(g)
    requires to in g.replicas && to != g.c.myId && Holds(LeaderLog(g), RecordOf(msg))
    requires g'.c == g.c && g'.leader == g.leader && g'.net == g.net && g'.writes == g.writes && g'.oks == g.oks + added
    requires g'.replicas == g.replicas[to := MetadataWrite(g.replicas[to], msg, dbOk).0]
    requires added <= (if MetadataWrite(g.replicas[to], msg, dbOk).1 == Ok then {(to, msg.commitId)} else {})
    ensures Inv(g') && Grows(g, g')
  {
    PeerWriteKeeps(g, to, msg, dbOk, g');
    MessagesKept(g, g', added, {});
  }

  lemma {:induction false} DeliverKeeps(g: Group, to: MemberId, msg: UpdateBlobMetaMsg, dbOk: bool)
    requires Inv(g)
    ensures Inv(DeliverStep(g, to, msg, dbOk)) && Grows(g, DeliverStep(g, to, msg, dbOk))
  {
    if Packet(to, msg) in g.net && to in g.replicas {
      var added := if MetadataWrite(g.replicas[to], msg, dbOk).1 == Ok then {(to, msg.commitId)} else {};
      PeerStepKeeps(g, to, msg, dbOk, DeliverStep(g, to, msg, dbOk), added);
    }
  }

  lemma {:induction false} SyncEntryKeeps(g: Group, to: MemberId, position: nat, dbOk: bool)
    requires Inv(g)
    ensures Inv(SyncEntryStep(g, to, position, dbOk)) && Grows(g, SyncEntryStep(g, to, position, dbOk))
  {
    if to in g.replicas && to != g.c.myId && position < |LeaderLog(g)| {
      var r := LeaderLog(g)[position];
      assert r == RecordOf(r.buf) && r.id == LeaderLog(g)[0].id + position;
      PeerStepKeeps(g, to, r.buf, dbOk, SyncEntryStep(g, to, position, dbOk), {});
    }
  }

  lemma {:induction false} ReplyKeepsWrite(g: Group, id: int, wr: Write, from: MemberId, ok: bool)
    requires WriteOk(g, id, wr) && from in wr.waiting
    requires ok ==> (from, id) in g.oks
    ensures WriteOk(g, id, Write(OnReply(wr.w, g.c.quorum, ok), wr.waiting - {from},
                                 if ok then wr.acked + {from} else wr.acked))
  {
    assert (wr.waiting - {from}).Keys == wr.waiting.Keys - {from};
    assert |(wr.waiting - {from}).Keys| == |wr.waiting.Keys| - 1;
    assert |wr.waiting - {from}| == |(wr.waiting - {from}).Keys| && |wr.waiting| == |wr.waiting.Keys|;
  }

  lemma {:induction false} ReplyKeepsLeader(g: Group, prior: PeerInfo, ok: bool)
    requires PeersTracked(g.c, g.leader)
    ensures
      var m' := WriteReplied(g.c, g.leader, prior, ok);
      PeersTracked(g.c, m') && m'.leaderCtx.value.commitId == g.leader.leaderCtx.value.commitId
  {
    if !ok {
      ReportKeepsTracking(g.c, g.leader, prior.id, prior.version, FollowerWaitToJoinGroup);
    }
  }

  /** A step that changes only the leader's view of its peers and one write. */
  lemma {:induction false} WriteChangeKeeps(g: Group, m': Member, id: int, wr': Write)
    requires Inv(g) && id in g.writes && WriteOk(g, id, wr')
    requires PeersTracked(g.c, m') && m'.leaderCtx.value.commitId == g.leader.leaderCtx.value.commitId
    ensures
      var g' := g.(leader := m', writes := g.writes[id := wr']);
      Inv(g') && Grows(g, g')
  {
    var g' := g.(leader := m', writes := g.writes[id := wr']);
    assert LeaderLog(g') == LeaderLog(g);
    assert WriteOk(g', id, wr');
    MessagesKept(g, g', {}, {id});
  }

  lemma {:induction false} ReplyKeeps(g: Group, id: int, from: MemberId, ok: bool)
    requires Inv(g)
    requires ok ==> (from, id) in g.oks
    ensures Inv(ReplyStep(g, id, from, ok)) && Grows(g, ReplyStep(g, id, from, ok))
  {
    if id in g.writes && from in g.writes[id].waiting {
      var wr := g.writes[id];
      ReplyKeepsLeader(g, wr.waiting[from], ok);
      ReplyKeepsWrite(g, id, wr, from, ok);
      WriteChangeKeeps(g, WriteReplied(g.c, g.leader, wr.waiting[from], ok), id,
                       Write(OnReply(wr.w, g.c.quorum, ok), wr.waiting - {from},
                             if ok then wr.acked + {from} else wr.acked));
    }
  }

  lemma {:induction false} PeerMapShape(peers: seq<PeerInfo>)
    requires DistinctPeers(peers)
    ensures |PeerMap(peers)| == |peers|
    ensures forall id :: id in PeerMap(peers) <==> HasPeer(peers, id)
  {
    if peers != [] {
      var n := |peers| - 1;
      PeerMapShape(peers[..n]);
      AppendPeer(peers[..n], peers[n]);
      assert peers == peers[..n] + [peers[n]];
      assert !HasPeer(peers[..n], peers[n].id);
    }
  }

  lemma {:induction false} WritableDistinct(peers: seq<PeerInfo>)
    requires DistinctPeers(peers)
    ensures DistinctPeers(WritablePeers(peers))
  {
    if peers != [] {
      var n := |peers| - 1;
      WritableDistinct(peers[..n]);
      var ws := WritablePeers(peers[..n]);
      forall i | 0 <= i < |ws|
        ensures ws[i].id != peers[n].id
      {
        assert ws[i] in peers[..n];
        var k :| 0 <= k < n && peers[k] == ws[i];
      }
      AppendPeer(ws, peers[n]);
      assert WritablePeers(peers) == if IsWritable(peers[n]) then ws + [peers[n]] else ws;
    }
  }

  /** A journal that grows at its end keeps its followers. */
  lemma {:induction false} FollowsLonger(r: ReplicaState, whole: Log, longer: Log)
    requires Follows(r, whole) && whole <= longer
    ensures Follows(r, longer)
  {
    if r.log != [] {
      var k := r.log[0].id - whole[0].id;
      assert longer[..|whole|][k..k + |r.log|] == longer[k..k + |r.log|];
    }
  }

  lemma {:induction false} LeaderAppends(r: ReplicaState, rec: Record)
    requires Follows(r, r.log) && Contiguous(r.log) && Stamped(r.log)
    requires Extends(r.log, rec.id) && rec == RecordOf(rec.buf)
    ensures
      var r' := ReplicaState(r.log + [rec], Updated(r.table, rec.buf));
      && r.log <= r'.log && Follows(r', r'.log) && Contiguous(r'.log) && Stamped(r'.log)
      && Holds(r'.log, rec) && r'.log[|r'.log| - 1] == rec
  {
    var log' := r.log + [rec];
    assert log'[..|r.log|] == r.log;
    assert log'[0..|log'|] == log';
  }

  lemma {:induction false} AllFollowLonger(g: Group, longer: Log)
    requires ReplicasOk(g) && LeaderLog(g) <= longer
    ensures forall id | id in g.replicas :: Follows(g.replicas[id], longer)
  {
    forall id | id in g.replicas
      ensures Follows(g.replicas[id], longer)
    {
      FollowsLonger(g.replicas[id], LeaderLog(g), longer);
    }
  }

  lemma {:induction false} OneReplicaGrows(g: Group, g': Group, id: MemberId, r': ReplicaState)
    requires id in g.replicas && g.replicas[id].log <= r'.log
    requires g'.c == g.c && g'.replicas == g.replicas[id := r']
    ensures Grows(g, g') && g'.replicas[id] == r'
    ensures forall p | p in g.replicas && p != id :: g'.replicas[p] == g.replicas[p]
  {
    assert g'.replicas.Keys == g.replicas.Keys;
  }

  /** The leader's own write, appended to its journal. */
  lemma {:induction false} LeaderWriteKeeps(g: Group, g': Group, rec: Record)
    requires LeaderOk(g) && ReplicasOk(g) && g'.c == g.c
    requires Extends(LeaderLog(g), rec.id) && rec == RecordOf(rec.buf)
    requires g'.replicas == g.replicas[g.c.myId :=
               ReplicaState(LeaderLog(g) + [rec], Updated(g.replicas[g.c.myId].table, rec.buf))]
    ensures Grows(g, g') && ReplicasOk(g') && Holds(LeaderLog(g'), rec) && LeaderLog(g') == LeaderLog(g) + [rec]
  {
    var log' := LeaderLog(g) + [rec];
    LeaderAppends(g.replicas[g.c.myId], rec);
    OneReplicaGrows(g, g', g.c.myId, ReplicaState(log', Updated(g.replicas[g.c.myId].table, rec.buf)));
    AllFollowLonger(g, log');
    assert LeaderLog(g') == log';
    forall id | id in g'.replicas
      ensures Follows(g'.replicas[id], log')
    {
      assert id in g.replicas;
    }
  }

  lemma {:induction false} FanOut(g: Group)
    requires PeersTracked(g.c, g.leader)
    ensures
      var peers := WritablePeers(g.leader.leaderCtx.value.peers);
      && |PeerMap(peers)| == |peers|
      && forall p | p in peers :: p.id != g.c.myId
  {
    var all := g.leader.leaderCtx.value.peers;
    var peers := WritablePeers(all);
    WritableDistinct(all);
    PeerMapShape(peers);
    forall p | p in peers
      ensures p.id != g.c.myId
    {
      var i :| 0 <= i < |all| && all[i] == p;
      assert HasPeer(all, p.id);
    }
  }

  lemma {:induction false} NewWriteKept(g: Group, g': Group, stamped: UpdateBlobMetaMsg, peers: seq<PeerInfo>)
    requires Grows(g, g') && g.c.myId in g.replicas && NetOk(g) && OksOk(g) && WritesOk(g)
    requires |PeerMap(peers)| == |peers| && forall p | p in peers :: p.id != g.c.myId
    requires Holds(LeaderLog(g'), RecordOf(stamped))
    requires g'.oks == g.oks && g'.net == g.net + (set p | p in peers :: Packet(p.id, stamped))
    requires g'.writes == g.writes[stamped.commitId := Write(NewWrite(|peers|), PeerMap(peers), {})]
    ensures NetOk(g') && OksOk(g') && WritesOk(g')
  {
    assert WriteOk(g', stamped.commitId, g'.writes[stamped.commitId]);
    MessagesKept(g, g'.(net := g.net), {}, {stamped.commitId});
  }

  /** What a client write may do to the leader: use up the next id, and nothing else. */
  ghost predicate Numbered(m: Member, m': Member) {
    && m.leaderCtx.Some? && m'.leaderCtx.Some?
    && m'.state == m.state && m'.leaderCtx.value.peers == m.leaderCtx.value.peers
    && m'.leaderCtx.value.commitId >= m.leaderCtx.value.commitId
  }

  lemma {:induction false} ClientWriteEffect(g: Group, msg: UpdateBlobMetaMsg, dbOk: bool, g': Group)
    requires g.c.myId in g.replicas && g.leader.leaderCtx.Some? && g' == ClientWriteStep(g, msg, dbOk)
    ensures g'.c == g.c && g'.oks == g.oks && Numbered(g.leader, g'.leader)
    ensures g.leader.state == LeaderFunctional ==>
            g'.leader.leaderCtx.value.commitId == g.leader.leaderCtx.value.commitId + 1
    ensures
      match LeaderWrite(g.leader, g.replicas[g.c.myId], msg, dbOk).2
      case Refused(_) => g'.replicas == g.replicas && g'.net == g.net && g'.writes == g.writes
      case Replicating(stamped, peers) =>
        && g.leader.state == LeaderFunctional
        && peers == WritablePeers(g.leader.leaderCtx.value.peers)
        && stamped.commitId == g.leader.leaderCtx.value.commitId + 1 == g'.leader.leaderCtx.value.commitId
        && Extends(LeaderLog(g), stamped.commitId)
        && g'.replicas == g.replicas[g.c.myId :=
             ReplicaState(LeaderLog(g) + [RecordOf(stamped)], Updated(g.replicas[g.c.myId].table, stamped))]
        && g'.net == g.net + (set p | p in peers :: Packet(p.id, stamped))
        && g'.writes == g.writes[stamped.commitId := Write(NewWrite(|peers|), PeerMap(peers), {})]
  {
    assert g.replicas[g.c.myId := g.replicas[g.c.myId]] == g.replicas;
  }

  lemma {:induction false} RefusedKeeps(g: Group, g': Group)
    requires Inv(g) && g'.c == g.c && g'.oks == g.oks && Numbered(g.leader, g'.leader)
    requires g'.replicas == g.replicas && g'.net == g.net && g'.writes == g.writes
    ensures Inv(g') && Grows(g, g')
  {
    assert LeaderLog(g') == LeaderLog(g);
    MessagesKept(g, g', {}, {});
  }

  lemma {:induction false} ReplicatingKeeps(g: Group, g': Group, stamped: UpdateBlobMetaMsg, peers: seq<PeerInfo>)
    requires Inv(g) && g'.c == g.c && g'.oks == g.oks && Numbered(g.leader, g'.leader)
    requires peers == WritablePeers(g.leader.leaderCtx.value.peers)
    requires stamped.commitId == g.leader.leaderCtx.value.commitId + 1 == g'.leader.leaderCtx.value.commitId
    requires Extends(LeaderLog(g), stamped.commitId)
    requires g'.replicas == g.replicas[g.c.myId :=
               ReplicaState(LeaderLog(g) + [RecordOf(stamped)], Updated(g.replicas[g.c.myId].table, stamped))]
    requires g'.net == g.net + (set p | p in peers :: Packet(p.id, stamped))
    requires g'.writes == g.writes[stamped.commitId := Write(NewWrite(|peers|), PeerMap(peers), {})]
    ensures Inv(g') && Grows(g, g')
  {
    LeaderWriteKeeps(g, g', RecordOf(stamped));
    FanOut(g);
    NewWriteKept(g, g', stamped, peers);
  }

  lemma {:induction false} ClientWriteKeeps(g: Group, msg: UpdateBlobMetaMsg, dbOk: bool)
    requires Inv(g)
    ensures Inv(ClientWriteStep(g, msg, dbOk)) && Grows(g, ClientWriteStep(g, msg, dbOk))
  {
    var g' := ClientWriteStep(g, msg, dbOk);
    ClientWriteEffect(g, msg, dbOk, g');
    match LeaderWrite(g.leader, g.replicas[g.c.myId], msg, dbOk).2
    case Refused(_) => RefusedKeeps(g, g');
    case Replicating(stamped, peers) => ReplicatingKeeps(g, g', stamped, peers);
  }

  lemma {:induction false} LeaderChangeKeeps(g: Group, m': Member)
    requires Inv(g) && PeersTracked(g.c, m') && m'.leaderCtx.value.commitId == g.leader.leaderCtx.value.commitId
    ensures Inv(g.(leader := m')) && Grows(g, g.(leader := m'))
  {
    assert LeaderLog(g.(leader := m')) == LeaderLog(g);
    MessagesKept(g, g.(leader := m'), {}, {});
  }

  lemma {:induction false} JoinKeeps(g: Group, termId: int, peer: MemberId, version: int, state: PBMemberState)
    requires Inv(g)
    ensures
      var m' := AddToGroup(g.c, g.leader, termId, peer, version, state).0;
      Inv(g.(leader := m')) && Grows(g, g.(leader := m'))
  {
    var m' := AddToGroup(g.c, g.leader, termId, peer, version, state).0;
    ReportKeepsTracking(g.c, g.leader, peer, version, state);
    LeaderChangeKeeps(g, m');
  }

  /** Joins and late replies change what the leader knows and is, and nothing else. */
  lemma {:induction false} LeaderEventKeeps(g: Group, e: Event)
    requires Inv(g) && (e.Join? || StepsDown(e))
    ensures Inv(Step(g, e)) && Grows(g, Step(g, e))
  {
    if e.Join? {
      JoinKeeps(g, e.termId, e.peer, e.version, e.state);
    } else if e.LateSync? {
      LeaderChangeKeeps(g, SyncCompleted(g.leader));
    } else {
      LeaderChangeKeeps(g, LockRemoved(g.leader, []).0);
    }
  }

  lemma {:induction false} StepKeeps(g: Group, e: Event)
    requires Inv(g)
    ensures Inv(Step(g, e)) && Grows(g, Step(g, e))
  {
    match e
    case ClientWrite(msg, dbOk) => ClientWriteKeeps(g, msg, dbOk);
    case Deliver(to, msg, dbOk) => DeliverKeeps(g, to, msg, dbOk);
    case SuccessReply(id, from) => if (from, id) in g.oks { ReplyKeeps(g, id, from, true); }
    case FailureReply(id, from) => ReplyKeeps(g, id, from, false);
    case SyncEntry(to, position, dbOk) => SyncEntryKeeps(g, to, position, dbOk);
    case _ => LeaderEventKeeps(g, e);
  }

  lemma {:induction false} RunKeeps(g: Group, events: seq<Event>)
    requires Inv(g)
    ensures Inv(Run(g, events)) && Grows(g, Run(g, events))
  {
    if events != [] {
      var n := |events| - 1;
      RunKeeps(g, events[..n]);
      StepKeeps(Run(g, events[..n]), events[n]);
    }
  }

  lemma {:induction false} StartOk(c: Config, m: Member, functional: seq<Vote>)
    requires Distinct(c.memberIds) && WellFormedAppointment(c, functional)
    ensures Inv(Start(c, m, functional))
  {
    TakeOfficeInOffice(c, m, functional);
    assert functional[0] in functional;
  }

  // ---------- log agreement ----------

  /** The groups that can arise in one leader context, from replicas that start empty. */
  ghost predicate Appointed(c: Config, functional: seq<Vote>) {
    Distinct(c.memberIds) && WellFormedAppointment(c, functional)
  }

  function Reached(c: Config, m: Member, functional: seq<Vote>, events: seq<Event>): Group {
    Run(Start(c, m, functional), events)
  }

  lemma {:induction false} ReachedOk(c: Config, m: Member, functional: seq<Vote>, events: seq<Event>)
    requires Appointed(c, functional)
    ensures Inv(Reached(c, m, functional, events)) && Reached(c, m, functional, events).c == c
  {
    StartOk(c, m, functional);
    RunKeeps(Start(c, m, functional), events);
  }

  lemma {:induction false} ReplyLeads(g: Group, id: int, from: MemberId, ok: bool)
    requires PeersTracked(g.c, g.leader)
    ensures ReplyStep(g, id, from, ok).leader.state.IsLeader() <==> g.leader.state.IsLeader()
  {
    if id in g.writes && from in g.writes[id].waiting {
      var prior := g.writes[id].waiting[from];
      ReportKeepsTracking(g.c, g.leader, prior.id, prior.version, FollowerWaitToJoinGroup);
    }
  }

  lemma {:induction false} ClientWriteLeads(g: Group, msg: UpdateBlobMetaMsg, dbOk: bool)
    requires g.c.myId in g.replicas && g.leader.leaderCtx.Some?
    ensures ClientWriteStep(g, msg, dbOk).leader.state == g.leader.state
  {
    ClientWriteEffect(g, msg, dbOk, ClientWriteStep(g, msg, dbOk));
  }

  lemma {:induction false} StepLeads(g: Group, e: Event)
    requires PeersTracked(g.c, g.leader) && g.c.myId in g.replicas
    ensures Step(g, e).leader.state.IsLeader() <==> g.leader.state.IsLeader() && !StepsDown(e)
  {
    if e.ClientWrite? {
      ClientWriteLeads(g, e.msg, e.dbOk);
    } else if e.SuccessReply? {
      ReplyLeads(g, e.id, e.from, true);
    } else if e.FailureReply? {
      ReplyLeads(g, e.id, e.from, false);
    } else if e.Join? {
      ReportKeepsTracking(g.c, g.leader, e.peer, e.version, e.state);
    } else if e.Deliver? {
      assert DeliverStep(g, e.to, e.msg, e.dbOk).leader == g.leader;
    } else if e.SyncEntry? {
      assert SyncEntryStep(g, e.to, e.position, e.dbOk).leader == g.leader;
    }
  }

  ghost predicate StaysOn(events: seq<Event>) { forall e | e in events :: !StepsDown(e) }

  lemma {:induction false} StaysOnFront(events: seq<Event>)
    requires events != []
    ensures StaysOn(events) <==> StaysOn(events[..|events| - 1]) && !StepsDown(events[|events| - 1])
  {
    assert events == events[..|events| - 1] + [events[|events| - 1]];
  }

  lemma {:induction false} RunLeads(g: Group, events: seq<Event>)
    requires Inv(g) && g.leader.state.IsLeader()
    ensures Run(g, events).leader.state.IsLeader() <==> StaysOn(events)
  {
    if events != [] {
      var n := |events| - 1;
      RunLeads(g, events[..n]);
      RunKeeps(g, events[..n]);
      StepLeads(Run(g, events[..n]), events[n]);
      StaysOnFront(events);
    }
  }

  /**
   * Throughout a run the leader's record of its peers is complete, it leads exactly until a late reply makes it step
   * down, and while it leads it is functional exactly when quorum-1 peers are.
   */
  lemma {:induction false} OfficeThroughout(c: Config, m: Member, functional: seq<Vote>, events: seq<Event>)
    requires Appointed(c, functional)
    ensures PeersTracked(c, Reached(c, m, functional, events).leader)
    ensures Reached(c, m, functional, events).leader.state.IsLeader() <==> StaysOn(events)
  {
    ReachedOk(c, m, functional, events);
    StartOk(c, m, functional);
    RunLeads(Start(c, m, functional), events);
  }

  /**
   * Every journal is a contiguous slice of the leader's, every database replays its journal, and equal ids mean
   * equal records.
   */
  lemma {:induction false} LogAgreement(
      c: Config, m: Member, functional: seq<Vote>, events: seq<Event>, a: MemberId, b: MemberId)
    requires Appointed(c, functional)
    requires
      var g := Reached(c, m, functional, events);
      a in g.replicas && b in g.replicas
    ensures
      var g := Reached(c, m, functional, events);
      var la, lb := g.replicas[a].log, g.replicas[b].log;
      && Contiguous(LeaderLog(g))
      && (la != [] ==> exists i, j | 0 <= i <= j <= |LeaderLog(g)| :: la == LeaderLog(g)[i..j])
      && g.replicas[a].table == Replay(la)
      && forall x, y | x in la && y in lb && x.id == y.id :: x == y
  {
    ReachedOk(c, m, functional, events);
    var g := Reached(c, m, functional, events);
    var la, lb, whole := g.replicas[a].log, g.replicas[b].log, LeaderLog(g);
    assert Follows(g.replicas[a], whole) && Follows(g.replicas[b], whole);
    SliceIsPart(la, whole);
    SliceIsPart(lb, whole);
    forall x, y | x in la && y in lb && x.id == y.id
      ensures x == y
    {
      SameIdSameRecord(whole, x, y);
    }
  }

  lemma {:induction false} SliceIsPart(part: Log, whole: Log)
    requires IsSlice(part, whole)
    ensures forall r | r in part :: r in whole
    ensures part != [] ==> exists i, j | 0 <= i <= j <= |whole| :: part == whole[i..j]
  {
    if part != [] {
      var k := part[0].id - whole[0].id;
      assert part == whole[k..k + |part|];
    }
  }

  /**
   * A follower's journal is a prefix of the leader's, and its database the leader's as of that point, exactly
   * when both began together.
   */
  lemma {:induction false} PrefixIffSameStart(g: Group, p: MemberId)
    requires Inv(g) && p in g.replicas && g.replicas[p].log != []
    ensures g.replicas[p].log <= LeaderLog(g) <==> g.replicas[p].log[0].id == LeaderLog(g)[0].id
    ensures g.replicas[p].log <= LeaderLog(g) ==> g.replicas[p].table == Replay(LeaderLog(g)[..|g.replicas[p].log|])
  {
    assert Follows(g.replicas[p], LeaderLog(g));
  }

  /** What one accepted client write does. */
  lemma {:induction false} AcceptedWrite(g: Group, msg: UpdateBlobMetaMsg)
    requires g.c.myId in g.replicas && g.leader.leaderCtx.Some? && g.leader.state == LeaderFunctional
    requires Extends(LeaderLog(g), g.leader.leaderCtx.value.commitId + 1)
    ensures
      var ctx := g.leader.leaderCtx.value;
      var stamped := msg.(opId := ctx.opId + 1, commitId := ctx.commitId + 1);
      var g' := ClientWriteStep(g, msg, true);
      && g'.c == g.c
      && g'.leader == g.leader.(leaderCtx := Some(ctx.(opId := ctx.opId + 1, commitId := ctx.commitId + 1)))
      && g'.replicas.Keys == g.replicas.Keys
      && (forall p | p in g.replicas && p != g.c.myId :: g'.replicas[p] == g.replicas[p])
      && LeaderLog(g') == LeaderLog(g) + [RecordOf(stamped)]
      && (forall p | p in WritablePeers(ctx.peers) :: Packet(p.id, stamped) in g'.net)
      && g'.writes == g.writes[stamped.commitId :=
           Write(NewWrite(|WritablePeers(ctx.peers)|), PeerMap(WritablePeers(ctx.peers)), {})]
  {
  }

  /**
   * They need not begin together: a peer whose journal is empty accepts whatever id reaches it first, so a peer
   * that misses the first write and receives the second holds the second alone.
   */
  lemma {:induction false} LateStarter(
      g: Group, p: PeerInfo, first: UpdateBlobMetaMsg, second: UpdateBlobMetaMsg, g1: Group, g2: Group)
    requires g.c.myId in g.replicas && g.leader.leaderCtx.Some? && g.leader.state == LeaderFunctional
    requires LeaderLog(g) == []
    requires p in g.leader.leaderCtx.value.peers && IsWritable(p)
    requires p.id != g.c.myId && p.id in g.replicas && g.replicas[p.id].log == []
    requires g1 == ClientWriteStep(g, first, true) && g2 == ClientWriteStep(g1, second, true)
    ensures
      var ctx := g.leader.leaderCtx.value;
      var next := second.(opId := ctx.opId + 2, commitId := ctx.commitId + 2);
      var g' := DeliverStep(g2, p.id, next, true);
      && p.id in g'.replicas
      && g'.replicas[p.id].log == [RecordOf(next)]
      && LeaderLog(g') == [RecordOf(first.(opId := ctx.opId + 1, commitId := ctx.commitId + 1)), RecordOf(next)]
  {
    var ctx := g.leader.leaderCtx.value;
    TwoWrites(g, first, second, g1, g2);
    FirstDelivery(g2, p.id, second.(opId := ctx.opId + 2, commitId := ctx.commitId + 2));
  }

  lemma {:induction false} TwoWrites(
      g: Group, first: UpdateBlobMetaMsg, second: UpdateBlobMetaMsg, g1: Group, g2: Group)
    requires g.c.myId in g.replicas && g.leader.leaderCtx.Some? && g.leader.state == LeaderFunctional
    requires LeaderLog(g) == []
    requires g1 == ClientWriteStep(g, first, true) && g2 == ClientWriteStep(g1, second, true)
    ensures
      var ctx := g.leader.leaderCtx.value;
      var next := second.(opId := ctx.opId + 2, commitId := ctx.commitId + 2);
      && g2.c == g.c && g2.replicas.Keys == g.replicas.Keys
      && (forall p | p in g.replicas && p != g.c.myId :: g2.replicas[p] == g.replicas[p])
      && LeaderLog(g2) == [RecordOf(first.(opId := ctx.opId + 1, commitId := ctx.commitId + 1)), RecordOf(next)]
      && forall p | p in WritablePeers(ctx.peers) :: Packet(p.id, next) in g2.net
  {
    AcceptedWrite(g, first);
    AcceptedWrite(g1, second);
  }

  lemma {:induction false} FirstDelivery(g: Group, to: MemberId, msg: UpdateBlobMetaMsg)
    requires Packet(to, msg) in g.net && to in g.replicas && to != g.c.myId && g.replicas[to].log == []
    ensures
      var g' := DeliverStep(g, to, msg, true);
      to in g'.replicas && g'.replicas[to].log == [RecordOf(msg)] && LeaderLog(g') == LeaderLog(g)
  {
  }

  // ---------- quorum durability ----------

  function RecordAt(log: Log, id: int): Record
    requires HasId(log, id)
  {
    log[id - log[0].id]
  }

  function HoldersOfRecord(g: Group, r: Record): set<MemberId> {
    set p | p in g.replicas && r in g.replicas[p].log
  }

  ghost predicate Succeeded(g: Group, id: int) {
    id in g.writes && g.writes[id].w.promise == Fulfilled
  }

  /** A replica that has the id of a write has the leader's record of it. */
  lemma {:induction false} SameRecordAt(part: Log, whole: Log, id: int)
    requires IsSlice(part, whole) && Contiguous(whole) && HasId(part, id)
    ensures HasId(whole, id) && RecordAt(whole, id) in part && RecordAt(whole, id).id == id
  {
    var k := part[0].id - whole[0].id;
    assert part[id - part[0].id] == whole[k + (id - part[0].id)];
  }

  lemma {:induction false} HavingMeansHolding(g: Group, p: MemberId, id: int)
    requires ReplicasOk(g) && p in g.replicas && HasId(g.replicas[p].log, id)
    ensures HasId(LeaderLog(g), id)
    ensures p in HoldersOfRecord(g, RecordAt(LeaderLog(g), id)) && RecordAt(LeaderLog(g), id).id == id
  {
    assert Follows(g.replicas[p], LeaderLog(g));
    SameRecordAt(g.replicas[p].log, LeaderLog(g), id);
  }

  /** Every peer that succeeded on a write is another member that holds the leader's record of it. */
  lemma {:induction false} AckedHold(g: Group, id: int, acked: set<MemberId>)
    requires ReplicasOk(g) && OksOk(g) && HasId(LeaderLog(g), id)
    requires forall p | p in acked :: (p, id) in g.oks
    ensures g.c.myId !in acked && acked <= HoldersOfRecord(g, RecordAt(LeaderLog(g), id))
  {
    forall p | p in acked
      ensures p != g.c.myId && p in HoldersOfRecord(g, RecordAt(LeaderLog(g), id))
    {
      assert (p, id) in g.oks;
      HavingMeansHolding(g, p, id);
    }
  }

  lemma {:induction false} SuccessMeansHeld(g: Group, id: int)
    requires Inv(g) && Succeeded(g, id)
    ensures HasId(LeaderLog(g), id)
    ensures
      var r := RecordAt(LeaderLog(g), id);
      r.id == id && |HoldersOfRecord(g, r)| >= g.c.quorum
  {
    var wr := g.writes[id];
    assert WriteOk(g, id, wr);
    HavingMeansHolding(g, g.c.myId, id);
    AckedHold(g, id, wr.acked);
    AddedMember(wr.acked, g.c.myId, HoldersOfRecord(g, RecordAt(LeaderLog(g), id)));
  }

  lemma {:induction false} AddedMember(part: set<MemberId>, x: MemberId, whole: set<MemberId>)
    requires part <= whole && x in whole && x !in part
    ensures |whole| >= |part| + 1
  {
    SubsetSize(part + {x}, whole);
  }

  lemma {:induction false} HoldersOnlyGrow(g: Group, g': Group, r: Record)
    requires Grows(g, g')
    ensures HoldersOfRecord(g, r) <= HoldersOfRecord(g', r)
  {
    forall p | p in HoldersOfRecord(g, r)
      ensures p in HoldersOfRecord(g', r)
    {
      assert g.replicas[p].log <= g'.replicas[p].log;
      var i :| 0 <= i < |g.replicas[p].log| && g.replicas[p].log[i] == r;
      assert g'.replicas[p].log[i] == r;
    }
  }

  /**
   * When a group write reports success, one record with its id is in the journals of at least `quorum`
   * members, and it stays there whatever happens next; and every database is the replay of its journal.
   */
  lemma {:induction false} QuorumDurability(
      c: Config, m: Member, functional: seq<Vote>, before: seq<Event>, after: seq<Event>, id: int)
    requires Appointed(c, functional)
    requires Succeeded(Reached(c, m, functional, before), id)
    ensures
      var now, later := Reached(c, m, functional, before), Reached(c, m, functional, before + after);
      exists r: Record ::
        && r.id == id && r in LeaderLog(now)
        && |HoldersOfRecord(now, r)| >= c.quorum
        && HoldersOfRecord(now, r) <= HoldersOfRecord(later, r)
        && forall p | p in HoldersOfRecord(later, r) :: later.replicas[p].table == Replay(later.replicas[p].log)
  {
    var now := Reached(c, m, functional, before);
    ReachedOk(c, m, functional, before);
    SuccessMeansHeld(now, id);
    var r := RecordAt(LeaderLog(now), id);
    assert r in LeaderLog(now);
    HeldLater(c, m, functional, before, after, r);
  }

  /** The message as the leader numbers it, if this client write is accepted. */
  function Stamp(g: Group, msg: UpdateBlobMetaMsg, dbOk: bool): Option<UpdateBlobMetaMsg> {
    if g.c.myId !in g.replicas || g.leader.leaderCtx.None? then None
    else
      match LeaderWrite(g.leader, g.replicas[g.c.myId], msg, dbOk).2
      case Refused(_) => None
      case Replicating(stamped, _) => Some(stamped)
  }

  lemma {:induction false} NextIdNotHeld(log: Log, id: int)
    requires Contiguous(log) && Extends(log, id)
    ensures !HasId(log, id)
  {
    assert log != [] ==> log[|log| - 1].id == log[0].id + |log| - 1;
  }

  lemma {:induction false} AcceptedIsFresh(g: Group, msg: UpdateBlobMetaMsg, dbOk: bool)
    requires Inv(g) && Stamp(g, msg, dbOk).Some?
    ensures
      var stamped := Stamp(g, msg, dbOk).value;
      var g' := ClientWriteStep(g, msg, dbOk);
      && stamped.(opId := msg.opId, commitId := msg.commitId) == msg
      && stamped.commitId !in g.writes && stamped.commitId in g'.writes
      && RecordOf(stamped) in LeaderLog(g')
  {
    ClientWriteEffect(g, msg, dbOk, ClientWriteStep(g, msg, dbOk));
    var stamped := Stamp(g, msg, dbOk).value;
    var log' := LeaderLog(g) + [RecordOf(stamped)];
    assert log'[|LeaderLog(g)|] == RecordOf(stamped);
    NextIdNotHeld(LeaderLog(g), stamped.commitId);
    assert WritesOk(g);
  }

  /** A record once in the leader's journal is the leader's record of its id from then on. */
  lemma {:induction false} RecordStays(g: Group, g': Group, r: Record)
    requires Contiguous(LeaderLog(g')) && Grows(g, g') && g.c.myId in g.replicas && r in LeaderLog(g)
    ensures HasId(LeaderLog(g'), r.id) && RecordAt(LeaderLog(g'), r.id) == r && r in LeaderLog(g')
  {
    assert LeaderLog(g) <= LeaderLog(g');
    HoldsIsMembership(LeaderLog(g'), r);
  }

  /**
   * From the client's call to the replicas: when the write that this message started reports success, this very
   * message, numbered, is in the journals of at least `quorum` members, the leader among them. It stays there
   * whatever happens next, the leader's stepping down included, and every holder's database has applied it in order.
   */
  lemma {:induction false} SuccessfulWriteDurable(
      c: Config, m: Member, functional: seq<Vote>, before: seq<Event>, msg: UpdateBlobMetaMsg, dbOk: bool,
      during: seq<Event>, after: seq<Event>)
    requires Appointed(c, functional)
    requires
      var stamped := Stamp(Reached(c, m, functional, before), msg, dbOk);
      stamped.Some? &&
      Succeeded(Reached(c, m, functional, before + [ClientWrite(msg, dbOk)] + during), stamped.value.commitId)
    ensures
      var stamped := Stamp(Reached(c, m, functional, before), msg, dbOk).value;
      var now := Reached(c, m, functional, before + [ClientWrite(msg, dbOk)] + during);
      var later := Reached(c, m, functional, before + [ClientWrite(msg, dbOk)] + during + after);
      var r := RecordOf(stamped);
      && stamped.(opId := msg.opId, commitId := msg.commitId) == msg
      && stamped.commitId !in Reached(c, m, functional, before).writes
      && c.myId in HoldersOfRecord(now, r) && |HoldersOfRecord(now, r)| >= c.quorum
      && HoldersOfRecord(now, r) <= HoldersOfRecord(later, r)
      && forall p | p in HoldersOfRecord(later, r) :: later.replicas[p].table == Replay(later.replicas[p].log)
  {
    var start := Start(c, m, functional);
    var write := before + [ClientWrite(msg, dbOk)];
    var g, g1, now := Reached(c, m, functional, before), Run(start, write), Run(start, write + during);
    var r := RecordOf(Stamp(g, msg, dbOk).value);
    ReachedOk(c, m, functional, before);
    ReachedOk(c, m, functional, write);
    assert write[..|write| - 1] == before;
    AcceptedIsFresh(g, msg, dbOk);
    RunAppend(start, write, during);
    RunKeeps(g1, during);
    RecordStays(g1, now, r);
    SuccessMeansHeld(now, r.id);
    HeldLater(c, m, functional, write + during, after, r);
  }

  lemma {:induction false} HeldLater(
      c: Config, m: Member, functional: seq<Vote>, before: seq<Event>, after: seq<Event>, r: Record)
    requires Appointed(c, functional)
    ensures
      var now, later := Reached(c, m, functional, before), Reached(c, m, functional, before + after);
      && HoldersOfRecord(now, r) <= HoldersOfRecord(later, r)
      && forall p | p in HoldersOfRecord(later, r) :: later.replicas[p].table == Replay(later.replicas[p].log)
  {
    var now, later := Reached(c, m, functional, before), Reached(c, m, functional, before + after);
    ReachedOk(c, m, functional, before);
    ReachedOk(c, m, functional, before + after);
    RunAppend(Start(c, m, functional), before, after);
    RunKeeps(now, after);
    HoldersOnlyGrow(now, later, r);
    forall p | p in HoldersOfRecord(later, r)
      ensures later.replicas[p].table == Replay(later.replicas[p].log)
    {
      assert Follows(later.replicas[p], LeaderLog(later));
    }
  }

  lemma {:induction false} RunAppend(g: Group, es: seq<Event>, fs: seq<Event>)
    ensures Run(g, es + fs) == Run(Run(g, es), fs)
  {
    if fs == [] {
      assert es + fs == es;
    } else {
      var n := |fs| - 1;
      RunAppend(g, es, fs[..n]);
      assert (es + fs)[..|es + fs| - 1] == es + fs[..n];
    }
  }

  // ---------- after a failed local write ----------

  /** The leader has used up an id that is not in its nonempty journal. */
  ghost predicate Wedged(g: Group) {
    && g.leader.leaderCtx.Some?
    && LeaderLog(g) != []
    && LeaderLog(g)[|LeaderLog(g)| - 1].id < g.leader.leaderCtx.value.commitId
  }

  /** With a quorum and a working database, the next write is accepted exactly when the leader is not wedged. */
  lemma {:induction false} NextWriteAcceptedIff(g: Group, msg: UpdateBlobMetaMsg)
    requires Inv(g) && g.leader.state == LeaderFunctional
    ensures |LeaderLog(ClientWriteStep(g, msg, true))| == |LeaderLog(g)| + 1 <==> !Wedged(g)
  {
    ClientWriteEffect(g, msg, true, ClientWriteStep(g, msg, true));
    if !Wedged(g) {
      AcceptedWrite(g, msg);
    }
  }

  /** A database failure on a nonempty journal wedges the leader. */
  lemma {:induction false} FailedWriteWedges(g: Group, msg: UpdateBlobMetaMsg)
    requires LeaderOk(g) && g.leader.state == LeaderFunctional && LeaderLog(g) != []
    ensures Wedged(ClientWriteStep(g, msg, false))
  {
    ClientWriteEffect(g, msg, false, ClientWriteStep(g, msg, false));
  }

  /** A wedged leader stays wedged: no later event adds to its journal or starts another replicated write. */
  lemma {:induction false} WedgedForEver(g: Group, events: seq<Event>)
    requires Inv(g) && Wedged(g)
    ensures
      var g' := Run(g, events);
      Inv(g') && Wedged(g') && LeaderLog(g') == LeaderLog(g) && g'.writes.Keys == g.writes.Keys
  {
    if events != [] {
      var n := |events| - 1;
      WedgedForEver(g, events[..n]);
      StepKeeps(Run(g, events[..n]), events[n]);
      WedgedStep(Run(g, events[..n]), events[n]);
    }
  }

  ghost predicate SameLeaderLog(g: Group, g': Group) {
    Wedged(g') && LeaderLog(g') == LeaderLog(g) && g'.writes.Keys == g.writes.Keys
  }

  lemma {:induction false} WedgedClientWrite(g: Group, msg: UpdateBlobMetaMsg, dbOk: bool)
    requires g.c.myId in g.replicas && Wedged(g)
    ensures SameLeaderLog(g, ClientWriteStep(g, msg, dbOk))
  {
    ClientWriteEffect(g, msg, dbOk, ClientWriteStep(g, msg, dbOk));
  }

  lemma {:induction false} WedgedReply(g: Group, id: int, from: MemberId, ok: bool)
    requires Wedged(g)
    ensures SameLeaderLog(g, ReplyStep(g, id, from, ok))
  {
    if id in g.writes {
      assert g.writes.Keys == g.writes.Keys + {id};
    }
  }

  lemma {:induction false} WedgedDeliver(g: Group, to: MemberId, msg: UpdateBlobMetaMsg, dbOk: bool)
    requires NetOk(g) && Wedged(g)
    ensures SameLeaderLog(g, DeliverStep(g, to, msg, dbOk))
  {
  }

  lemma {:induction false} WedgedStep(g: Group, e: Event)
    requires NetOk(g) && g.c.myId in g.replicas && Wedged(g)
    ensures SameLeaderLog(g, Step(g, e))
  {
    match e
    case ClientWrite(msg, dbOk) => WedgedClientWrite(g, msg, dbOk);
    case Deliver(to, msg, dbOk) => WedgedDeliver(g, to, msg, dbOk);
    case SuccessReply(id, from) => WedgedReply(g, id, from, true);
    case FailureReply(id, from) => WedgedReply(g, id, from, false);
    case _ =>
  }

  // ---------- an election among the members ----------

  function LastId(log: Log): int {
    if log == [] then INVALID_VALUE else log[|log| - 1].id
  }

  /** Each answer reports the last id in the answering member's journal. */
  ghost predicate ReportsLastId(g: Group, replies: seq<Option<Vote>>) {
    forall i | 0 <= i < |replies| && replies[i].Some? ::
      && replies[i].value.id in g.replicas
      && replies[i].value.commitId == LastId(g.replicas[replies[i].value.id].log)
  }

  ghost predicate AllBeganTogether(g: Group) {
    forall p | p in g.replicas && g.replicas[p].log != [] ::
      LeaderLog(g) != [] && g.replicas[p].log[0].id == LeaderLog(g)[0].id
  }

  function IdsIn(log: Log): set<int> {
    set i | 0 <= i < |log| :: log[i].id
  }

  /**
   * If members reported the last id of their journals, and all journals began together, a majority quorum would
   * elect only a member that holds every write whose success was reported.
   */
  lemma {:induction false} ElectedHoldsSucceeded(g: Group, replies: seq<Option<Vote>>, id: int)
    requires Inv(g) && Distinct(g.c.memberIds) && 0 < g.c.quorum && 2 * g.c.quorum > |g.c.memberIds|
    requires Answers(g.c.memberIds, replies) && HasWinner(Tally(replies), g.c.quorum)
    requires ReportsLastId(g, replies) && AllBeganTogether(g)
    requires Succeeded(g, id)
    ensures
      var elected := Tally(replies)[LowestKey(Tally(replies))][0].id;
      elected in g.replicas && HasId(LeaderLog(g), id) && RecordAt(LeaderLog(g), id) in g.replicas[elected].log
  {
    var low := LowestKey(Tally(replies));
    SuccessMeansHeld(g, id);
    var r := RecordAt(LeaderLog(g), id);
    var applied := map p | p in g.replicas :: IdsIn(g.replicas[p].log);
    SucceededIsAcknowledged(g, r, applied);
    LastIdCovers(g, replies, applied);
    ElectedCoversAcknowledged(g.c, applied, replies, id);
    ElectedReports(g, replies);
    LongEnoughHolds(g, Tally(replies)[low][0].id, id);
  }

  lemma {:induction false} ElectedReports(g: Group, replies: seq<Option<Vote>>)
    requires Distinct(g.c.memberIds) && Answers(g.c.memberIds, replies) && 0 < g.c.quorum
    requires HasWinner(Tally(replies), g.c.quorum) && ReportsLastId(g, replies)
    ensures
      var low := LowestKey(Tally(replies));
      var elected := Tally(replies)[low][0].id;
      elected in g.replicas && low == LastId(g.replicas[elected].log)
  {
    var low := LowestKey(Tally(replies));
    TallyExactly(g.c.memberIds, replies, low);
    var v := Tally(replies)[low][0];
    var i :| 0 <= i < |replies| && replies[i] == Some(v);
  }

  /** A journal that began with the leader's and reaches id holds the leader's record of it. */
  lemma {:induction false} LongEnoughHolds(g: Group, p: MemberId, id: int)
    requires ReplicasOk(g) && p in g.replicas && AllBeganTogether(g)
    requires HasId(LeaderLog(g), id) && 0 <= id <= LastId(g.replicas[p].log)
    ensures RecordAt(LeaderLog(g), id) in g.replicas[p].log
  {
    var log := g.replicas[p].log;
    assert Follows(g.replicas[p], LeaderLog(g));
    SliceContiguous(log, LeaderLog(g));
    assert log[|log| - 1].id == log[0].id + |log| - 1;
    SameRecordAt(log, LeaderLog(g), id);
  }

  lemma {:induction false} HeldIdIn(log: Log, r: Record)
    requires r in log
    ensures r.id in IdsIn(log)
  {
    var i :| 0 <= i < |log| && log[i] == r;
    assert log[i].id in IdsIn(log);
  }

  lemma {:induction false} SucceededIsAcknowledged(g: Group, r: Record, applied: map<MemberId, set<int>>)
    requires g.replicas.Keys == MemberSet(g.c) && |HoldersOfRecord(g, r)| >= g.c.quorum
    requires applied == map p | p in g.replicas :: IdsIn(g.replicas[p].log)
    ensures |HoldersOf(g.c.memberIds, applied, r.id)| >= g.c.quorum
  {
    forall p | p in HoldersOfRecord(g, r)
      ensures p in HoldersOf(g.c.memberIds, applied, r.id)
    {
      assert p in g.replicas.Keys && applied[p] == IdsIn(g.replicas[p].log);
      HeldIdIn(g.replicas[p].log, r);
    }
    SubsetSize(HoldersOfRecord(g, r), HoldersOf(g.c.memberIds, applied, r.id));
  }

  lemma {:induction false} LastIdCovers(g: Group, replies: seq<Option<Vote>>, applied: map<MemberId, set<int>>)
    requires Inv(g) && ReportsLastId(g, replies)
    requires applied == map p | p in g.replicas :: IdsIn(g.replicas[p].log)
    ensures ReportsCover(applied, replies)
  {
    forall i, w | 0 <= i < |replies| && replies[i].Some? && replies[i].value.id in applied &&
        w in applied[replies[i].value.id]
      ensures w <= replies[i].value.commitId
    {
      var log := g.replicas[replies[i].value.id].log;
      assert Follows(g.replicas[replies[i].value.id], LeaderLog(g));
      var j :| 0 <= j < |log| && log[j].id == w;
      SliceContiguous(log, LeaderLog(g));
      assert log[|log| - 1].id == log[0].id + |log| - 1;
    }
  }

  lemma {:induction false} SliceContiguous(part: Log, whole: Log)
    requires IsSlice(part, whole) && Contiguous(whole)
    ensures Contiguous(part)
  {
    if part != [] {
      var k := part[0].id - whole[0].id;
      forall i | 0 <= i < |part|
        ensures part[i].id == part[0].id + i
      {
        assert part[i] == whole[k + i] && part[0] == whole[k];
      }
    }
  }
}
