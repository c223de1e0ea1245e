/**
 * What a leader answers to its clients' writes, and how it numbers them, in every run of one leader context
 * (src/infra/PBMember.tcc).
 */
module ClientWrites {
  import opened Common
  import opened Journals
  import opened Members
  import opened WriteQuorum
  import opened Replicas
  import opened Elections
  import opened Cluster

  // ---------- the answer to one write ----------

  function Answer(g: Group, msg: UpdateBlobMetaMsg, dbOk: bool): GroupWrite
    requires LeaderOk(g)
  {
    LeaderWrite(g.leader, g.replicas[g.c.myId], msg, dbOk).2
  }

  /** Whether quorum-1 peers are functional. */
  predicate EnoughPeers(g: Group)
    requires g.leader.leaderCtx.Some?
  {
    CountIn(g.leader.leaderCtx.value.peers, FollowerFunctional) >= g.c.quorum - 1
  }

  /** Exactly which answer a client gets, by what the leader knows of its peers and what its journal ends with. */
  lemma {:induction false} AnswerIff(g: Group, msg: UpdateBlobMetaMsg, dbOk: bool)
    requires Inv(g)
    ensures
      var leads, enough, wedged := g.leader.state.IsLeader(), EnoughPeers(g), Wedged(g);
      && (Answer(g, msg, dbOk) == Refused(InvalidState) <==> !leads)
      && (Answer(g, msg, dbOk) == Refused(NoQuorum) <==> leads && !enough)
      && (Answer(g, msg, dbOk) == Refused(InvalidCommit) <==> leads && enough && wedged)
      && (Answer(g, msg, dbOk) == Refused(DbWriteFailure) <==> leads && enough && !wedged && !dbOk)
      && (Answer(g, msg, dbOk).Replicating? <==> leads && enough && !wedged && dbOk)
  {
    assert LeaderOk(g);
  }

  /** A write refused for want of a lead or a quorum leaves nothing behind: no id is used up, no message sent. */
  lemma {:induction false} RefusedUnnoticed(g: Group, msg: UpdateBlobMetaMsg, dbOk: bool)
    requires Inv(g) && !(g.leader.state.IsLeader() && EnoughPeers(g))
    ensures Step(g, ClientWrite(msg, dbOk)) == g
  {
    assert g.replicas[g.c.myId := g.replicas[g.c.myId]] == g.replicas;
  }

  // ---------- numbering ----------

  /** The messages of the client writes that found the leader functional, in order. */
  function Taken(g: Group, events: seq<Event>): seq<UpdateBlobMetaMsg> {
    if events == [] then []
    else
      var n := |events| - 1;
      Taken(g, events[..n]) +
      (if events[n].ClientWrite? && Run(g, events[..n]).leader.state == LeaderFunctional then [events[n].msg] else [])
  }

  ghost predicate UsedUp(g: Group, n: int) {
    g.leader.leaderCtx.Some? && g.leader.leaderCtx.value.opId == n - 1 && g.leader.leaderCtx.value.commitId == n - 1
  }

  lemma {:induction false} WriteTakesId(g: Group, msg: UpdateBlobMetaMsg, dbOk: bool, n: int)
    requires Inv(g) && UsedUp(g, n)
    ensures UsedUp(Step(g, ClientWrite(msg, dbOk)), if g.leader.state == LeaderFunctional then n + 1 else n)
  {
    assert g.c.myId in g.replicas;
  }

  /** The leader's journal and the ids it has used up are the same in both. */
  ghost predicate NothingTaken(g: Group, g': Group) {
    && LeaderLog(g') == LeaderLog(g) && g.leader.leaderCtx.Some? && g'.leader.leaderCtx.Some?
    && g'.leader.leaderCtx.value.opId == g.leader.leaderCtx.value.opId
    && g'.leader.leaderCtx.value.commitId == g.leader.leaderCtx.value.commitId
  }

  lemma {:induction false} ReplyTakesNone(g: Group, id: int, from: MemberId, ok: bool)
    requires g.leader.leaderCtx.Some?
    ensures NothingTaken(g, ReplyStep(g, id, from, ok))
  {
  }

  lemma {:induction false} PeerTakesNone(g: Group, e: Event)
    requires g.leader.leaderCtx.Some? && NetOk(g) && (e.Deliver? || e.SyncEntry?)
    ensures NothingTaken(g, Step(g, e))
  {
  }

  /** No other event touches the leader's journal or uses up an id. */
  lemma {:induction false} OthersTakeNone(g: Group, e: Event)
    requires g.leader.leaderCtx.Some? && NetOk(g) && !e.ClientWrite?
    ensures NothingTaken(g, Step(g, e))
  {
    match e
    case SuccessReply(id, from) => ReplyTakesNone(g, id, from, true);
    case FailureReply(id, from) => ReplyTakesNone(g, id, from, false);
    case Deliver(_, _, _) => PeerTakesNone(g, e);
    case SyncEntry(_, _, _) => PeerTakesNone(g, e);
    case _ =>
  }

  lemma {:induction false} RunNumbers(g: Group, events: seq<Event>)
    requires Inv(g) && UsedUp(g, 0)
    ensures UsedUp(Run(g, events), |Taken(g, events)|)
  {
    if events != [] {
      var n := |events| - 1;
      var before := events[..n];
      RunNumbers(g, before);
      RunKeeps(g, before);
      if events[n].ClientWrite? {
        WriteTakesId(Run(g, before), events[n].msg, events[n].dbOk, |Taken(g, before)|);
      } else {
        OthersTakeNone(Run(g, before), events[n]);
      }
    }
  }

  /** In every run the ids used up are as many as the writes that found the leader functional. */
  lemma {:induction false} IdsCountWrites(c: Config, m: Member, functional: seq<Vote>, events: seq<Event>)
    requires Appointed(c, functional)
    ensures
      var g := Reached(c, m, functional, events);
      && g.leader.leaderCtx.Some?
      && g.leader.leaderCtx.value.opId + 1 == |Taken(Start(c, m, functional), events)|
      && g.leader.leaderCtx.value.commitId + 1 == |Taken(Start(c, m, functional), events)|
  {
    StartOk(c, m, functional);
    RunNumbers(Start(c, m, functional), events);
  }

  // ---------- exactly when a leader gets stuck ----------

  /** The event at k is a write whose local database write fails at a functional leader with a nonempty journal. */
  ghost predicate FailsAt(g: Group, events: seq<Event>, k: nat) {
    && k < |events| && events[k].ClientWrite? && !events[k].dbOk
    && Run(g, events[..k]).leader.state == LeaderFunctional && LeaderLog(Run(g, events[..k])) != []
  }

  lemma {:induction false} FailsLonger(g: Group, events: seq<Event>, k: nat)
    requires events != [] && k < |events| - 1
    ensures FailsAt(g, events[..|events| - 1], k) <==> FailsAt(g, events, k)
  {
    assert events[..|events| - 1][..k] == events[..k];
  }

  lemma {:induction false} OnlyFailureWedges(g: Group, e: Event)
    requires Inv(g) && !Wedged(g)
    ensures Wedged(Step(g, e)) <==>
            e.ClientWrite? && !e.dbOk && g.leader.state == LeaderFunctional && LeaderLog(g) != []
  {
    if e.ClientWrite? {
      ClientWriteEffect(g, e.msg, e.dbOk, Step(g, e));
    } else {
      OthersTakeNone(g, e);
    }
  }

  lemma {:induction false} StaysWedged(g: Group, events: seq<Event>)
    requires Inv(g) && events != [] && Wedged(Run(g, events[..|events| - 1]))
    ensures Wedged(Run(g, events))
  {
    var n := |events| - 1;
    RunKeeps(g, events[..n]);
    WedgedStep(Run(g, events[..n]), events[n]);
  }

  lemma {:induction false} FailureWedgesNow(g: Group, events: seq<Event>)
    requires Inv(g) && events != [] && FailsAt(g, events, |events| - 1)
    ensures Wedged(Run(g, events))
  {
    RunKeeps(g, events[..|events| - 1]);
    FailedWriteWedges(Run(g, events[..|events| - 1]), events[|events| - 1].msg);
  }

  lemma {:induction false} FailureWedges(g: Group, events: seq<Event>, k: nat)
    requires Inv(g) && FailsAt(g, events, k)
    ensures Wedged(Run(g, events))
    decreases |events|
  {
    if k < |events| - 1 {
      FailsLonger(g, events, k);
      FailureWedges(g, events[..|events| - 1], k);
      StaysWedged(g, events);
    } else {
      FailureWedgesNow(g, events);
    }
  }

  lemma {:induction false} WedgedByFailure(g: Group, events: seq<Event>) returns (k: nat)
    requires Inv(g) && !Wedged(g) && Wedged(Run(g, events))
    ensures FailsAt(g, events, k)
  {
    var n := |events| - 1;
    if Wedged(Run(g, events[..n])) {
      k := WedgedByFailure(g, events[..n]);
      FailsLonger(g, events, k);
    } else {
      RunKeeps(g, events[..n]);
      OnlyFailureWedges(Run(g, events[..n]), events[n]);
      k := n;
    }
  }

  /** In every run the leader is stuck exactly if a local database write has failed on a journal that was not empty. */
  lemma {:induction false} WedgedIff(c: Config, m: Member, functional: seq<Vote>, events: seq<Event>)
    requires Appointed(c, functional)
    ensures Wedged(Reached(c, m, functional, events)) <==>
            exists k: nat :: FailsAt(Start(c, m, functional), events, k)
  {
    var g := Start(c, m, functional);
    StartOk(c, m, functional);
    assert LeaderLog(g) == [];
    if Wedged(Run(g, events)) {
      var k := WedgedByFailure(g, events);
    }
    if k: nat :| FailsAt(g, events, k) {
      FailureWedges(g, events, k);
    }
  }

  // ---------- while the database works ----------

  /** No local database write fails. */
  predicate DatabaseWorks(events: seq<Event>) {
    forall k | 0 <= k < |events| && events[k].ClientWrite? :: events[k].dbOk
  }

  function JournalOf(msgs: seq<UpdateBlobMetaMsg>): (log: Log)
    ensures |log| == |msgs|
    ensures forall i | 0 <= i < |log| :: log[i] == RecordOf(msgs[i].(opId := i, commitId := i))
  {
    seq(|msgs|, i requires 0 <= i < |msgs| => RecordOf(msgs[i].(opId := i, commitId := i)))
  }

  /** The leader's journal is these messages, numbered, and their numbers are the ids used up. */
  ghost predicate Journalled(g: Group, msgs: seq<UpdateBlobMetaMsg>) {
    UsedUp(g, |msgs|) && LeaderLog(g) == JournalOf(msgs)
  }

  lemma {:induction false} NextNumbered(g: Group, msg: UpdateBlobMetaMsg, msgs: seq<UpdateBlobMetaMsg>)
    requires g.c.myId in g.replicas && g.leader.state == LeaderFunctional && Journalled(g, msgs)
    ensures Journalled(ClientWriteStep(g, msg, true), msgs + [msg])
    ensures Stamp(g, msg, true) == Some(msg.(opId := |msgs|, commitId := |msgs|))
  {
    AcceptedWrite(g, msg);
    var stamped := msg.(opId := |msgs|, commitId := |msgs|);
    assert JournalOf(msgs + [msg]) == JournalOf(msgs) + [RecordOf(stamped)];
  }

  lemma {:induction false} StepJournals(g: Group, e: Event, msgs: seq<UpdateBlobMetaMsg>)
    requires Inv(g) && Journalled(g, msgs) && (e.ClientWrite? ==> e.dbOk)
    ensures Journalled(Step(g, e),
                       if e.ClientWrite? && g.leader.state == LeaderFunctional then msgs + [e.msg] else msgs)
  {
    if !e.ClientWrite? {
      OthersTakeNone(g, e);
    } else if g.leader.state == LeaderFunctional {
      NextNumbered(g, e.msg, msgs);
    } else {
      RefusedUnnoticed(g, e.msg, e.dbOk);
    }
  }

  lemma {:induction false} RunJournals(g: Group, events: seq<Event>)
    requires Inv(g) && Journalled(g, []) && DatabaseWorks(events)
    ensures Journalled(Run(g, events), Taken(g, events))
  {
    if events != [] {
      var n := |events| - 1;
      RunJournals(g, events[..n]);
      RunKeeps(g, events[..n]);
      StepJournals(Run(g, events[..n]), events[n], Taken(g, events[..n]));
    }
  }

  /**
   * As long as the leader's database works, every write that finds it functional is accepted: its journal is exactly
   * the messages of those writes, in order, numbered from 0 on, and the next one gets the next number.
   */
  lemma {:induction false} JournalIsWhatWasTaken(
      c: Config, m: Member, functional: seq<Vote>, events: seq<Event>, msg: UpdateBlobMetaMsg)
    requires Appointed(c, functional) && DatabaseWorks(events)
    ensures
      var g := Reached(c, m, functional, events);
      var msgs := Taken(Start(c, m, functional), events);
      && LeaderLog(g) == JournalOf(msgs)
      && (g.leader.state == LeaderFunctional ==>
            Stamp(g, msg, true) == Some(msg.(opId := |msgs|, commitId := |msgs|)))
  {
    var start := Start(c, m, functional);
    StartOk(c, m, functional);
    assert LeaderLog(start) == [];
    RunJournals(start, events);
    RunKeeps(start, events);
    if Run(start, events).leader.state == LeaderFunctional {
      NextNumbered(Run(start, events), msg, Taken(start, events));
    }
  }
}
