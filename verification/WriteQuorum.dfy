/**
 * The shared context of one replicated write and the settlement of its promise (src/infra/PBMember.cpp,
 * writeToPeers).
 */
module WriteQuorum {
  import opened Common

  datatype Promise = Open | Fulfilled | Failed

  datatype WriteState = WriteState(promise: Promise, nAcked: nat, nSuccess: nat, nPeers: nat)

  function NewWrite(nPeers: nat): WriteState { WriteState(Open, 0, 0, nPeers) }

  /** The reply callback: `ok` tells a value from an exception. */
  function OnReply(w: WriteState, quorum: nat, ok: bool): WriteState {
    var acked := w.nAcked + 1;
    if ok then
      var success := w.nSuccess + 1;
      w.(nAcked := acked, nSuccess := success,
         promise := if success == quorum - 1 && w.promise == Open then Fulfilled else w.promise)
    else
      w.(nAcked := acked,
         promise := if acked == w.nPeers && w.promise == Open then Failed else w.promise)
  }

  function AfterReplies(nPeers: nat, quorum: nat, replies: seq<bool>): WriteState {
    if replies == [] then NewWrite(nPeers)
    else OnReply(AfterReplies(nPeers, quorum, replies[..|replies| - 1]), quorum, replies[|replies| - 1])
  }

  function Successes(replies: seq<bool>): (n: nat)
    ensures n <= |replies|
  {
    if replies == [] then 0
    else Successes(replies[..|replies| - 1]) + (if replies[|replies| - 1] then 1 else 0)
  }

  /** A settled promise never changes again. */
  lemma {:induction false} SettledOnce(w: WriteState, quorum: nat, ok: bool)
    requires w.promise != Open
    ensures OnReply(w, quorum, ok).promise == w.promise
  {
  }

  /**
   * The outcome for every reply order. With at most one reply per peer, the promise is fulfilled
   * exactly when quorum-1 (at least one) peers have succeeded, and failed exactly when all replies
   * are in, the last one is a failure, and it is not fulfilled.
   */
  lemma {:induction false} Settlement(nPeers: nat, quorum: nat, replies: seq<bool>)
    requires |replies| <= nPeers
    ensures
      var w := AfterReplies(nPeers, quorum, replies);
      var enough := quorum >= 2 && Successes(replies) >= quorum - 1;
      && w.nAcked == |replies| && w.nSuccess == Successes(replies) && w.nPeers == nPeers
      && (w.promise == Fulfilled <==> enough)
      && (w.promise == Failed <==> !enough && |replies| == nPeers > 0 && !replies[|replies| - 1])
  {
    if replies != [] {
      Settlement(nPeers, quorum, replies[..|replies| - 1]);
    }
  }

  /**
   * Once every peer has replied the promise stays open exactly when there was no peer, or the last
   * reply was a success that left the count short.
   */
  lemma {:induction false} OpenAfterAllReplies(nPeers: nat, quorum: nat, replies: seq<bool>)
    requires |replies| == nPeers
    ensures
      AfterReplies(nPeers, quorum, replies).promise == Open <==>
      (nPeers == 0 || (replies[nPeers - 1] && (quorum < 2 || Successes(replies) < quorum - 1)))
  {
    Settlement(nPeers, quorum, replies);
  }

  /** With quorum 2 a write to at least one peer is always settled by the last reply. */
  lemma {:induction false} QuorumTwoAlwaysSettles(nPeers: nat, replies: seq<bool>)
    requires |replies| == nPeers > 0
    ensures AfterReplies(nPeers, 2, replies).promise == (if true in replies then Fulfilled else Failed)
  {
    Settlement(nPeers, 2, replies);
    SomeSuccess(replies);
  }

  lemma {:induction false} SomeSuccess(replies: seq<bool>)
    ensures Successes(replies) > 0 <==> true in replies
  {
    if replies != [] {
      var front := replies[..|replies| - 1];
      SomeSuccess(front);
      assert replies == front + [replies[|replies| - 1]];
    }
  }

  /** With quorum 3, after one failure and then one success no callback has settled the write. */
  lemma {:induction false} QuorumThreeMayHang()
    ensures AfterReplies(2, 3, [false, true]).promise == Open
  {
    assert Successes([false, true]) == 1 by {
      assert [false, true][..1] == [false] && [false][..0] == [];
    }
    OpenAfterAllReplies(2, 3, [false, true]);
  }

  class WriteCtx {
    var promise: Promise
    var nAcked: nat
    var nSuccess: nat
    const nPeers: nat

    ghost function View(): WriteState
      reads this
    {
      WriteState(promise, nAcked, nSuccess, nPeers)
    }

    constructor (nPeers: nat)
      ensures View() == NewWrite(nPeers)
    {
      promise, nAcked, nSuccess, this.nPeers := Open, 0, 0, nPeers;
    }

    method Settle(p: Promise)
      requires promise == Open && p != Open
      modifies this
      ensures View() == old(View()).(promise := p)
    {
      promise := p;
    }

    method OnPeerReply(quorum: nat, ok: bool)
      modifies this
      ensures View() == OnReply(old(View()), quorum, ok)
    {
      nAcked := nAcked + 1;
      if ok {
        nSuccess := nSuccess + 1;
        if nSuccess == quorum - 1 && promise == Open {
          Settle(Fulfilled);
        }
      } else {
        if nAcked == nPeers && promise == Open {
          Settle(Failed);
        }
      }
    }
  }
}
