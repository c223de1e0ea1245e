/** Vote collection, the message that makes a leader, and what a quorum of votes guarantees (src/infra/PBMember.cpp). */
module Elections {
  import opened Common
  import opened Members

  // ---------- collecting votes ----------

  function AddVote(values: Buckets, v: Vote): Buckets {
    values[v.commitId := (if v.commitId in values then values[v.commitId] else []) + [v]]
  }

  /** The replies, grouped by reported commit id, in member order within each bucket. */
  function Tally(replies: seq<Option<Vote>>): Buckets {
    if replies == [] then map[]
    else
      var values := Tally(replies[..|replies| - 1]);
      match replies[|replies| - 1]
      case Some(v) => AddVote(values, v)
      case None => values
  }

  method CollectReplies(replies: seq<Option<Vote>>) returns (values: Buckets)
    ensures values == Tally(replies)
  {
    values := map[];
    for i := 0 to |replies|
      invariant values == Tally(replies[..i])
    {
      assert replies[..i + 1][..i] == replies[..i];
      if replies[i].Some? {
        var v := replies[i].value;
        var bucket := if v.commitId in values then values[v.commitId] else [];
        values := values[v.commitId := bucket + [v]];
      }
    }
    assert replies[..|replies|] == replies;
  }

  ghost predicate Distinct(s: seq<MemberId>) {
    forall i, j | 0 <= i < j < |s| :: s[i] != s[j]
  }

  /** One request goes to each member, and a member answers with its own id. */
  ghost predicate Answers(memberIds: seq<MemberId>, replies: seq<Option<Vote>>) {
    && |replies| == |memberIds|
    && forall i | 0 <= i < |replies| :: replies[i].Some? ==> replies[i].value.id == memberIds[i]
  }

  function Ids(votes: seq<Vote>): (ids: seq<MemberId>)
    ensures |ids| == |votes| && forall i | 0 <= i < |ids| :: ids[i] == votes[i].id
  {
    seq(|votes|, i requires 0 <= i < |votes| => votes[i].id)
  }

  function MemberSet(c: Config): set<MemberId> {
    set id | id in c.memberIds
  }

  function IdSet(votes: seq<Vote>): set<MemberId> {
    set v | v in votes :: v.id
  }

  /** Each bucket holds exactly the answers with its commit id, one per member. */
  lemma {:induction false} TallyExactly(memberIds: seq<MemberId>, replies: seq<Option<Vote>>, c: int)
    requires Distinct(memberIds) && Answers(memberIds, replies)
    ensures
      var values := Tally(replies);
      && (c in values ==> values[c] != [] && Distinct(Ids(values[c])))
      && (forall v: Vote :: c in values && v in values[c] <==> Some(v) in replies && v.commitId == c)
  {
    if replies != [] {
      var n := |replies| - 1;
      TallyExactly(memberIds[..n], replies[..n], c);
      assert replies == replies[..n] + [replies[n]];
      var before: Buckets := Tally(replies[..n]);
      if replies[n].Some? && replies[n].value.commitId == c && c in before {
        var v: Vote := replies[n].value;
        forall i | 0 <= i < |before[c]|
          ensures before[c][i].id != v.id
        {
          assert Some(before[c][i]) in replies[..n];
          var j :| 0 <= j < n && replies[..n][j] == Some(before[c][i]);
          assert replies[j].value.id == memberIds[j];
        }
      }
    }
  }

  lemma {:induction false} DistinctSize(s: seq<MemberId>)
    requires Distinct(s)
    ensures |set x | x in s| == |s|
  {
    if s != [] {
      var front := s[..|s| - 1];
      DistinctSize(front);
      assert s == front + [s[|s| - 1]];
      assert (set x | x in s) == (set x | x in front) + {s[|s| - 1]};
    }
  }

  lemma {:induction false} IdSetSize(votes: seq<Vote>)
    requires Distinct(Ids(votes))
    ensures |IdSet(votes)| == |votes|
  {
    DistinctSize(Ids(votes));
    assert IdSet(votes) == set x | x in Ids(votes) by {
      forall x | x in IdSet(votes) ensures x in Ids(votes) {
        var v :| v in votes && v.id == x;
        var i :| 0 <= i < |votes| && votes[i] == v;
        assert Ids(votes)[i] == x;
      }
      forall x | x in Ids(votes) ensures x in IdSet(votes) {
        var i :| 0 <= i < |votes| && Ids(votes)[i] == x;
        assert votes[i] in votes;
      }
    }
  }

  // ---------- taking office ----------

  /** What the elected member may rely on in the message it receives. */
  ghost predicate WellFormedAppointment(c: Config, functional: seq<Vote>) {
    && functional != [] && functional[0].id == c.myId
    && Distinct(Ids(functional))
    && forall v | v in functional :: v.id in c.memberIds && v.state == FollowerFunctional
  }

  /** The message an elector sends is well formed for the member it is sent to. */
  lemma {:induction false} ElectedAppointmentWellFormed(c: Config, m: Member, replies: seq<Option<Vote>>)
    requires Distinct(c.memberIds) && Answers(c.memberIds, replies) && c.quorum > 0
    requires HasWinner(Tally(replies), c.quorum)
    ensures
      var won := ElectionResponse(c, m, Tally(replies)).1;
      && won.RemoveLock?
      && var appointment := LockRemoved(m, won.functional).1;
      && appointment.TellLeader?
      && appointment.functional != []
      && |appointment.functional| >= c.quorum
      && WellFormedAppointment(c.(myId := appointment.functional[0].id), appointment.functional)
  {
    var values := Tally(replies);
    var low := LowestKey(values);
    TallyExactly(c.memberIds, replies, low);
    var marked := MarkFunctional(values[low]);
    forall i | 0 <= i < |marked|
      ensures marked[i].id in c.memberIds && marked[i].state == FollowerFunctional
    {
      assert values[low][i] in values[low];
      var j :| 0 <= j < |replies| && replies[j] == Some(values[low][i]);
      assert marked[i].id == c.memberIds[j];
    }
    forall i, j | 0 <= i < j < |marked|
      ensures marked[i].id != marked[j].id
    {
      assert Ids(values[low])[i] != Ids(values[low])[j];
    }
  }

  lemma {:induction false} FindVoteFinds(votes: seq<Vote>, id: MemberId)
    ensures FindVote(votes, id).Some? <==> id in IdSet(votes)
    ensures FindVote(votes, id).Some? ==> FindVote(votes, id).value in votes && FindVote(votes, id).value.id == id
  {
    if votes != [] {
      FindVoteFinds(votes[1..], id);
      assert votes == [votes[0]] + votes[1..];
      assert IdSet(votes) == {votes[0].id} + IdSet(votes[1..]) by {
        forall v | v in votes ensures v.id in {votes[0].id} + IdSet(votes[1..]) {
          assert v == votes[0] || v in votes[1..];
        }
        forall x | x in {votes[0].id} + IdSet(votes[1..]) ensures x in IdSet(votes) {
          if x == votes[0].id {
            assert votes[0] in votes;
          } else {
            var v :| v in votes[1..] && v.id == x;
            assert v in votes;
          }
        }
      }
    }
  }

  lemma {:induction false} PeersForNamesOthers(memberIds: seq<MemberId>, myId: MemberId, functional: seq<Vote>)
    requires Distinct(memberIds)
    requires forall v | v in functional :: v.state == FollowerFunctional
    ensures
      var peers := PeersFor(memberIds, myId, functional);
      && DistinctPeers(peers)
      && (forall id :: HasPeer(peers, id) <==> id in memberIds && id != myId)
      && (forall i | 0 <= i < |peers| :: peers[i].state.IsFollower())
  {
    if memberIds != [] {
      var n := |memberIds| - 1;
      var front, id := memberIds[..n], memberIds[n];
      PeersForNamesOthers(front, myId, functional);
      assert memberIds == front + [id] && id !in front;
      assert forall x :: x in memberIds <==> x in front || x == id;
      FindVoteFinds(functional, id);
      var before, p := PeersFor(front, myId, functional), PeerOf(functional, id);
      AppendPeer(before, p);
      assert PeersFor(memberIds, myId, functional) == if id == myId then before else before + [p];
    }
  }

  function OtherFunctional(memberIds: seq<MemberId>, myId: MemberId, functional: seq<Vote>): set<MemberId> {
    set id | id in memberIds && id != myId && id in IdSet(functional)
  }

  lemma {:induction false} CountAppended(peers: seq<PeerInfo>, p: PeerInfo)
    ensures CountIn(peers + [p], FollowerFunctional) ==
            CountIn(peers, FollowerFunctional) + (if p.state == FollowerFunctional then 1 else 0)
  {
    assert (peers + [p])[..|peers|] == peers;
  }

  lemma {:induction false} OthersExtended(front: seq<MemberId>, id: MemberId, myId: MemberId, functional: seq<Vote>)
    requires id !in front
    ensures |OtherFunctional(front + [id], myId, functional)| ==
            |OtherFunctional(front, myId, functional)| + (if id != myId && id in IdSet(functional) then 1 else 0)
  {
    var added := if id != myId && id in IdSet(functional) then {id} else {};
    assert OtherFunctional(front + [id], myId, functional) == OtherFunctional(front, myId, functional) + added;
  }

  lemma {:induction false} PeerOfState(functional: seq<Vote>, id: MemberId)
    requires forall v | v in functional :: v.state == FollowerFunctional
    ensures PeerOf(functional, id).state == FollowerFunctional <==> id in IdSet(functional)
  {
    FindVoteFinds(functional, id);
  }

  lemma {:induction false} PeersForCount(memberIds: seq<MemberId>, myId: MemberId, functional: seq<Vote>)
    requires Distinct(memberIds)
    requires forall v | v in functional :: v.state == FollowerFunctional
    ensures CountIn(PeersFor(memberIds, myId, functional), FollowerFunctional) ==
            |OtherFunctional(memberIds, myId, functional)|
  {
    if memberIds != [] {
      var n := |memberIds| - 1;
      var front, id := memberIds[..n], memberIds[n];
      PeersForCount(front, myId, functional);
      assert memberIds == front + [id] && id !in front;
      OthersExtended(front, id, myId, functional);
      PeerOfState(functional, id);
      CountAppended(PeersFor(front, myId, functional), PeerOf(functional, id));
      if id == myId {
        assert PeersFor(memberIds, myId, functional) == PeersFor(front, myId, functional);
      }
    }
  }

  /**
   * On a well-formed appointment the leader takes office with every other member listed once, the other
   * functional members counted as functional, and the functional state exactly when they make a quorum.
   */
  lemma {:induction false} TakeOfficeInOffice(c: Config, m: Member, functional: seq<Vote>)
    requires Distinct(c.memberIds) && WellFormedAppointment(c, functional)
    ensures InOffice(c, TakeOffice(c, m, functional))
    ensures CountIn(TakeOffice(c, m, functional).leaderCtx.value.peers, FollowerFunctional) == |functional| - 1
  {
    PeersForNamesOthers(c.memberIds, c.myId, functional);
    PeersForCount(c.memberIds, c.myId, functional);
    OthersSize(c, functional);
  }

  lemma {:induction false} OthersSize(c: Config, functional: seq<Vote>)
    requires WellFormedAppointment(c, functional)
    ensures |OtherFunctional(c.memberIds, c.myId, functional)| == |functional| - 1
  {
    IdSetSize(functional);
    assert functional[0] in functional;
    assert c.myId in IdSet(functional);
    assert OtherFunctional(c.memberIds, c.myId, functional) == IdSet(functional) - {c.myId};
  }

  // ---------- quorum intersection ----------

  lemma {:induction false} QuorumsIntersect<T>(universe: set<T>, a: set<T>, b: set<T>, quorum: nat)
    requires a <= universe && b <= universe && |a| >= quorum && |b| >= quorum && 2 * quorum > |universe|
    ensures a * b != {}
  {
    if a * b == {} {
      assert |a + b| == |a| + |b|;
      SubsetSize(a + b, universe);
    }
  }

  lemma {:induction false} SubsetSize<T>(a: set<T>, b: set<T>)
    requires a <= b
    ensures |a| <= |b|
  {
    if a != {} {
      var x := AnyOf(a);
      SubsetSize(a - {x}, b - {x});
    }
  }

  lemma {:induction false} BucketVoters(c: Config, replies: seq<Option<Vote>>, k: int)
    requires Distinct(c.memberIds) && Answers(c.memberIds, replies) && k in Tally(replies)
    ensures IdSet(Tally(replies)[k]) <= MemberSet(c)
    ensures |IdSet(Tally(replies)[k])| == |Tally(replies)[k]|
    ensures |MemberSet(c)| == |c.memberIds|
  {
    TallyExactly(c.memberIds, replies, k);
    IdSetSize(Tally(replies)[k]);
    DistinctSize(c.memberIds);
    forall v | v in Tally(replies)[k]
      ensures v.id in c.memberIds
    {
      var j :| 0 <= j < |replies| && replies[j] == Some(v);
      assert v.id == c.memberIds[j];
    }
  }

  /** With a majority quorum at most one bucket can reach it. */
  lemma {:induction false} OneQuorumBucket(c: Config, replies: seq<Option<Vote>>, k1: int, k2: int)
    requires Distinct(c.memberIds) && Answers(c.memberIds, replies) && 2 * c.quorum > |c.memberIds|
    requires
      var values := Tally(replies);
      k1 in values && k2 in values && |values[k1]| >= c.quorum && |values[k2]| >= c.quorum
    ensures k1 == k2
  {
    BucketVoters(c, replies, k1);
    BucketVoters(c, replies, k2);
    var s1, s2 := IdSet(Tally(replies)[k1]), IdSet(Tally(replies)[k2]);
    QuorumsIntersect(MemberSet(c), s1, s2, c.quorum);
    var x := AnyOf(s1 * s2);
    SameVoterSameBucket(c, replies, k1, k2, x);
  }

  lemma {:induction false} SameVoterSameBucket(c: Config, replies: seq<Option<Vote>>, k1: int, k2: int, x: MemberId)
    requires Distinct(c.memberIds) && Answers(c.memberIds, replies)
    requires
      var values := Tally(replies);
      k1 in values && k2 in values && x in IdSet(values[k1]) && x in IdSet(values[k2])
    ensures k1 == k2
  {
    TallyExactly(c.memberIds, replies, k1);
    TallyExactly(c.memberIds, replies, k2);
    var v1 :| v1 in Tally(replies)[k1] && v1.id == x;
    var v2 :| v2 in Tally(replies)[k2] && v2.id == x;
    var i :| 0 <= i < |replies| && replies[i] == Some(v1);
    var j :| 0 <= j < |replies| && replies[j] == Some(v2);
    assert c.memberIds[i] == c.memberIds[j];
  }

  /** The members that hold write `w`, out of everybody's applied writes. */
  function HoldersOf(memberIds: seq<MemberId>, applied: map<MemberId, set<int>>, w: int): set<MemberId> {
    set id | id in memberIds && id in applied && w in applied[id]
  }

  /** A report covers what its member has applied. */
  ghost predicate ReportsCover(applied: map<MemberId, set<int>>, replies: seq<Option<Vote>>) {
    forall i | 0 <= i < |replies| && replies[i].Some? && replies[i].value.id in applied ::
      forall w | w in applied[replies[i].value.id] :: w <= replies[i].value.commitId
  }

  /** When the lowest bucket wins, no write held by a quorum is above the elected commit id. */
  lemma {:induction false} ElectedCoversAcknowledged(
      c: Config, applied: map<MemberId, set<int>>, replies: seq<Option<Vote>>, w: int)
    requires Distinct(c.memberIds) && Answers(c.memberIds, replies) && 2 * c.quorum > |c.memberIds|
    requires ReportsCover(applied, replies)
    requires HasWinner(Tally(replies), c.quorum)
    requires |HoldersOf(c.memberIds, applied, w)| >= c.quorum
    ensures w <= LowestKey(Tally(replies))
  {
    var low := LowestKey(Tally(replies));
    BucketVoters(c, replies, low);
    var voters := IdSet(Tally(replies)[low]);
    var holders := HoldersOf(c.memberIds, applied, w);
    QuorumsIntersect(MemberSet(c), voters, holders, c.quorum);
    var x := AnyOf(voters * holders);
    TallyExactly(c.memberIds, replies, low);
    var v :| v in Tally(replies)[low] && v.id == x;
    var i :| 0 <= i < |replies| && replies[i] == Some(v);
    assert w in applied[replies[i].value.id];
  }

  /** The answers the code really gives: a member's commitId is set once, to INVALID_VALUE. */
  ghost predicate ReportsAsCoded(replies: seq<Option<Vote>>) {
    forall i | 0 <= i < |replies| && replies[i].Some? :: replies[i].value.commitId == INVALID_VALUE
  }

  /** The answers that came, in the order of the members asked. */
  function Answered(replies: seq<Option<Vote>>): seq<Vote> {
    if replies == [] then []
    else
      var last := replies[|replies| - 1];
      Answered(replies[..|replies| - 1]) + (if last.Some? then [last.value] else [])
  }

  lemma {:induction false} CodedFront(replies: seq<Option<Vote>>)
    requires replies != [] && ReportsAsCoded(replies)
    ensures ReportsAsCoded(replies[..|replies| - 1])
  {
    var front := replies[..|replies| - 1];
    assert forall i | 0 <= i < |front| :: front[i] == replies[i];
  }

  /** With the reports as coded there is one bucket, of everybody who answered. */
  lemma {:induction false} TallyAsCoded(replies: seq<Option<Vote>>)
    requires ReportsAsCoded(replies)
    ensures Tally(replies) == if Answered(replies) == [] then map[] else map[INVALID_VALUE := Answered(replies)]
  {
    if replies != [] {
      var front, last := replies[..|replies| - 1], replies[|replies| - 1];
      CodedFront(replies);
      TallyAsCoded(front);
      if last.Some? {
        assert last.value.commitId == INVALID_VALUE;
        var bucket := if INVALID_VALUE in Tally(front) then Tally(front)[INVALID_VALUE] else [];
        assert bucket == Answered(front);
        assert AddVote(Tally(front), last.value) == map[INVALID_VALUE := bucket + [last.value]];
      } else {
        assert Answered(replies) == Answered(front);
      }
    }
  }

  /** The member at `first` is the first of those asked, in order, to have answered. */
  ghost predicate FirstAnswer(replies: seq<Option<Vote>>, first: nat) {
    first < |replies| && replies[first].Some? && forall j | 0 <= j < first :: replies[j].None?
  }

  lemma {:induction false} AnsweredFrom(replies: seq<Option<Vote>>, first: nat)
    requires FirstAnswer(replies, first)
    ensures Answered(replies) != [] && Answered(replies)[0] == replies[first].value
    ensures |Answered(replies)| <= |replies| - first
  {
    var n := |replies| - 1;
    if first < n {
      AnsweredFrom(replies[..n], first);
    } else {
      NoneAnswered(replies[..n]);
    }
  }

  lemma {:induction false} NoneAnswered(replies: seq<Option<Vote>>)
    requires forall j | 0 <= j < |replies| :: replies[j].None?
    ensures Answered(replies) == []
  {
    if replies != [] {
      NoneAnswered(replies[..|replies| - 1]);
    }
  }

  lemma {:induction false} SomeFirstAnswer(replies: seq<Option<Vote>>) returns (first: nat)
    requires Answered(replies) != []
    ensures FirstAnswer(replies, first)
  {
    var n := |replies| - 1;
    if Answered(replies[..n]) != [] {
      first := SomeFirstAnswer(replies[..n]);
    } else {
      first := n;
      NobodyAnswered(replies[..n]);
    }
  }

  lemma {:induction false} NobodyAnswered(replies: seq<Option<Vote>>)
    requires Answered(replies) == []
    ensures forall j | 0 <= j < |replies| :: replies[j].None?
  {
    if replies != [] {
      NobodyAnswered(replies[..|replies| - 1]);
    }
  }

  /** Whom the elector appoints: the first in the winning bucket. */
  function Elected(replies: seq<Option<Vote>>, quorum: nat): Option<MemberId> {
    var values := Tally(replies);
    if HasWinner(values, quorum) && values[LowestKey(values)] != [] then Some(values[LowestKey(values)][0].id) else None
  }

  /**
   * What the election as coded decides: it appoints somebody exactly if a quorum answered, namely the first member
   * in the order of the list to have answered, whatever anybody holds.
   */
  lemma {:induction false} FirstToAnswerIsElected(c: Config, replies: seq<Option<Vote>>, first: nat)
    requires Answers(c.memberIds, replies) && ReportsAsCoded(replies) && FirstAnswer(replies, first)
    ensures Elected(replies, c.quorum) == if |Answered(replies)| >= c.quorum then Some(c.memberIds[first]) else None
  {
    TallyAsCoded(replies);
    AnsweredFrom(replies, first);
    assert INVALID_VALUE in Tally(replies);
  }

  // ---------- whom a quorum of answers can elect ----------

  /** Only members in `may` answer. */
  ghost predicate AnsweredWithin(memberIds: seq<MemberId>, may: set<MemberId>, replies: seq<Option<Vote>>) {
    |replies| == |memberIds| && forall j | 0 <= j < |replies| && replies[j].Some? :: memberIds[j] in may
  }

  /** How many of the members from position `first` on may answer. */
  function CountFrom(memberIds: seq<MemberId>, may: set<MemberId>, first: nat): nat {
    if |memberIds| <= first then 0
    else
      var n := |memberIds| - 1;
      CountFrom(memberIds[..n], may, first) + if memberIds[n] in may then 1 else 0
  }

  /** The member at this position may answer, and together with those after it that may it makes a quorum. */
  predicate Electable(memberIds: seq<MemberId>, may: set<MemberId>, quorum: nat, i: nat) {
    i < |memberIds| && memberIds[i] in may && CountFrom(memberIds, may, i) >= quorum
  }

  lemma {:induction false} AnsweredAtMost(
      memberIds: seq<MemberId>, may: set<MemberId>, replies: seq<Option<Vote>>, first: nat)
    requires AnsweredWithin(memberIds, may, replies) && forall j | 0 <= j < first && j < |replies| :: replies[j].None?
    ensures |Answered(replies)| <= CountFrom(memberIds, may, first)
  {
    if |memberIds| <= first {
      NoneAnswered(replies);
    } else {
      var n := |memberIds| - 1;
      AnsweredAtMost(memberIds[..n], may, replies[..n], first);
    }
  }

  /** The members from position `first` on that may answer do, the others do not. */
  function AnswersFrom(memberIds: seq<MemberId>, may: set<MemberId>, first: nat): (replies: seq<Option<Vote>>)
    ensures |replies| == |memberIds|
    ensures forall j | 0 <= j < |replies| ::
              replies[j] ==
              if j < first || memberIds[j] !in may then None
              else Some(Vote(memberIds[j], INVALID_VALUE, 0, FollowerWaitToJoinGroup))
  {
    seq(|memberIds|, j requires 0 <= j < |memberIds| =>
      if j < first || memberIds[j] !in may then None
      else Some(Vote(memberIds[j], INVALID_VALUE, 0, FollowerWaitToJoinGroup)))
  }

  lemma {:induction false} AnsweredCount(memberIds: seq<MemberId>, may: set<MemberId>, first: nat)
    ensures |Answered(AnswersFrom(memberIds, may, first))| == CountFrom(memberIds, may, first)
  {
    var replies := AnswersFrom(memberIds, may, first);
    if |memberIds| <= first {
      NoneAnswered(replies);
    } else {
      var n := |memberIds| - 1;
      AnsweredCount(memberIds[..n], may, first);
      assert replies[..n] == AnswersFrom(memberIds[..n], may, first);
    }
  }

  /** Answers, as coded, of members in `may` that make somebody a leader. */
  ghost predicate Electing(c: Config, may: set<MemberId>, replies: seq<Option<Vote>>) {
    && Answers(c.memberIds, replies) && ReportsAsCoded(replies) && AnsweredWithin(c.memberIds, may, replies)
    && Elected(replies, c.quorum).Some?
  }

  /** Whom they elect is electable. */
  lemma {:induction false} ElectedIsElectable(
      c: Config, may: set<MemberId>, replies: seq<Option<Vote>>) returns (i: nat)
    requires Electing(c, may, replies)
    ensures Electable(c.memberIds, may, c.quorum, i) && Elected(replies, c.quorum) == Some(c.memberIds[i])
  {
    TallyAsCoded(replies);
    i := SomeFirstAnswer(replies);
    FirstToAnswerIsElected(c, replies, i);
    AnsweredAtMost(c.memberIds, may, replies, i);
  }

  /** Whoever is electable some answers elect. */
  lemma {:induction false} ElectableIsElected(c: Config, may: set<MemberId>, i: nat)
    requires Electable(c.memberIds, may, c.quorum, i)
    ensures
      var replies := AnswersFrom(c.memberIds, may, i);
      Electing(c, may, replies) && Elected(replies, c.quorum) == Some(c.memberIds[i])
  {
    var replies := AnswersFrom(c.memberIds, may, i);
    AnsweredCount(c.memberIds, may, i);
    FirstToAnswerIsElected(c, replies, i);
  }

  /** Whichever quorum of the members that may answers, it elects a member of `good`. */
  ghost predicate AlwaysElects(c: Config, may: set<MemberId>, good: set<MemberId>) {
    forall replies | Electing(c, may, replies) :: Elected(replies, c.quorum).value in good
  }

  /** That is so if and only if every member is in `good` that may answer and makes a quorum with those after it. */
  lemma {:induction false} AlwaysElectsIff(c: Config, may: set<MemberId>, good: set<MemberId>)
    ensures AlwaysElects(c, may, good) <==>
            forall i: nat | Electable(c.memberIds, may, c.quorum, i) :: c.memberIds[i] in good
  {
    if AlwaysElects(c, may, good) {
      forall i: nat | Electable(c.memberIds, may, c.quorum, i)
        ensures c.memberIds[i] in good
      {
        ElectableIsElected(c, may, i);
      }
    }
    if forall i: nat | Electable(c.memberIds, may, c.quorum, i) :: c.memberIds[i] in good {
      forall replies | Electing(c, may, replies)
        ensures Elected(replies, c.quorum).value in good
      {
        var i := ElectedIsElectable(c, may, replies);
      }
    }
  }
}
