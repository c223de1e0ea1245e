/**
 * The alarm queue of src/infra/zk/event.h: callers schedule and cancel, and one worker takes the head off the
 * queue under the lock once it is due and fires it outside the lock.
 */
module Timers {
  import opened Common

  datatype TimerEvent = TimerEvent(id: nat, alarmTime: int, userData: string)

  type Queue = seq<TimerEvent>

  /** `std::lower_bound`: past every event that is earlier than `absTime`. */
  function LowerBound(q: Queue, absTime: int): (pos: nat)
    ensures pos <= |q|
    ensures forall k | 0 <= k < pos :: q[k].alarmTime < absTime
    ensures pos < |q| ==> q[pos].alarmTime >= absTime
  {
    if q == [] || q[0].alarmTime >= absTime then 0 else 1 + LowerBound(q[1..], absTime)
  }

  function Inserted(q: Queue, e: TimerEvent): Queue {
    var pos := LowerBound(q, e.alarmTime);
    q[..pos] + [e] + q[pos..]
  }

  /** Where the event with this id is, if it is pending. */
  function Find(q: Queue, id: nat): (pos: Option<nat>)
    ensures pos.Some? ==> pos.value < |q| && q[pos.value].id == id && forall k | 0 <= k < pos.value :: q[k].id != id
    ensures pos.None? ==> forall k | 0 <= k < |q| :: q[k].id != id
  {
    if q == [] then None
    else if q[0].id == id then Some(0)
    else match Find(q[1..], id)
      case None => None
      case Some(k) => Some(k + 1)
  }

  function Erased(q: Queue, id: nat): Queue {
    match Find(q, id)
    case None => q
    case Some(pos) => q[..pos] + q[pos + 1..]
  }

  /** Whether the worker takes the head at this reading of the clock. */
  predicate HeadDue(q: Queue, now: int) {
    q != [] && q[0].alarmTime - now <= 0
  }

  /** The order in which the worker takes events: the earlier alarm first, among equal alarms the newer event. */
  predicate Before(a: TimerEvent, b: TimerEvent) {
    a.alarmTime < b.alarmTime || (a.alarmTime == b.alarmTime && a.id > b.id)
  }

  ghost predicate Ordered(q: Queue) {
    forall i, j | 0 <= i < j < |q| :: Before(q[i], q[j])
  }

  lemma {:induction false} InsertedOrdered(q: Queue, e: TimerEvent)
    requires Ordered(q) && forall k | 0 <= k < |q| :: q[k].id < e.id
    ensures Ordered(Inserted(q, e))
  {
    var pos := LowerBound(q, e.alarmTime);
    var longer := Inserted(q, e);
    forall i, j | 0 <= i < j < |longer|
      ensures Before(longer[i], longer[j])
    {
      if i == pos {
        assert j > pos + 1 ==> Before(q[pos], q[j - 1]);
      } else if j != pos {
        assert Before(q[if i < pos then i else i - 1], q[if j < pos then j else j - 1]);
      }
    }
  }

  lemma {:induction false} InsertedContents(q: Queue, e: TimerEvent)
    ensures multiset(Inserted(q, e)) == multiset(q) + multiset{e}
  {
    var pos := LowerBound(q, e.alarmTime);
    assert q == q[..pos] + q[pos..];
  }

  lemma {:induction false} ErasedOrdered(q: Queue, id: nat)
    requires Ordered(q)
    ensures Ordered(Erased(q, id))
  {
  }

  lemma {:induction false} ErasedIds(q: Queue, id: nat, bound: nat)
    requires forall k | 0 <= k < |q| :: q[k].id < bound
    ensures forall k | 0 <= k < |Erased(q, id)| :: Erased(q, id)[k].id < bound
  {
  }

  lemma {:induction false} ErasedContents(q: Queue, id: nat)
    requires Find(q, id).Some?
    ensures multiset(q) == multiset(Erased(q, id)) + multiset{q[Find(q, id).value]}
  {
    var pos := Find(q, id).value;
    assert q == q[..pos] + [q[pos]] + q[pos + 1..];
  }

  /** If the head is not due then nothing is; if it is, nothing pending goes before it. */
  lemma {:induction false} HeadDecides(q: Queue, now: int)
    requires Ordered(q)
    ensures !HeadDue(q, now) ==> forall e | e in q :: e.alarmTime > now
    ensures HeadDue(q, now) ==> forall e | e in q && e != q[0] :: Before(q[0], e)
  {
    forall e | e in q && e != q[0]
      ensures Before(q[0], e)
    {
      var k :| 0 <= k < |q| && q[k] == e;
    }
  }

  /** Cancelling an alarm just scheduled restores the queue. */
  lemma {:induction false} CancelUndoesSchedule(q: Queue, e: TimerEvent)
    requires forall x | x in q :: x.id < e.id
    ensures Erased(Inserted(q, e), e.id) == q
  {
    var pos := LowerBound(q, e.alarmTime);
    var longer := Inserted(q, e);
    assert longer[pos] == e;
    forall k | 0 <= k < |longer| && k != pos
      ensures longer[k].id < e.id
    {
      assert longer[k] == if k < pos then q[k] else q[k - 1];
    }
    assert Find(longer, e.id) == Some(pos);
  }

  lemma {:induction false} SameHead(p: Queue, q: Queue)
    requires Ordered(p) && Ordered(q) && multiset(p) == multiset(q) && p != [] && q != []
    ensures p[0] == q[0]
  {
    assert p[0] in multiset(p) && q[0] in multiset(q);
    assert p[0] in q && q[0] in p;
    HeadDecides(p, p[0].alarmTime);
    HeadDecides(q, q[0].alarmTime);
  }

  lemma {:induction false} TailContents(p: Queue)
    requires p != []
    ensures multiset(p[1..]) == multiset(p) - multiset{p[0]}
  {
    assert p == [p[0]] + p[1..];
  }

  /** The order leaves no choice: the pending events alone determine the queue. */
  lemma {:induction false} QueueDetermined(p: Queue, q: Queue)
    requires Ordered(p) && Ordered(q) && multiset(p) == multiset(q)
    ensures p == q
  {
    if p == [] || q == [] {
      assert |multiset(p)| == |p| && |multiset(q)| == |q|;
    } else {
      SameHead(p, q);
      TailContents(p);
      TailContents(q);
      QueueDetermined(p[1..], q[1..]);
    }
  }

  class Timer {
    var currentEventID: nat
    var queue: Queue

    ghost predicate Valid()
      reads this
    {
      Ordered(queue) && forall k | 0 <= k < |queue| :: queue[k].id < currentEventID
    }

    constructor ()
      ensures Valid() && queue == [] && currentEventID == 0
    {
      currentEventID, queue := 0, [];
    }

    method ScheduleAt(absTime: int, userData: string) returns (id: nat)
      requires Valid()
      modifies this
      ensures Valid() && id == old(currentEventID) && currentEventID == id + 1
      ensures queue == Inserted(old(queue), TimerEvent(id, absTime, userData))
    {
      var pos := LowerBound(queue, absTime);
      id := currentEventID;
      currentEventID := currentEventID + 1;
      var event := TimerEvent(id, absTime, userData);
      InsertedOrdered(queue, event);
      queue := queue[..pos] + [event] + queue[pos..];
    }

    method CancelAlarm(eventID: nat) returns (canceled: bool)
      requires Valid()
      modifies this
      ensures Valid() && currentEventID == old(currentEventID)
      ensures canceled <==> Find(old(queue), eventID).Some?
      ensures queue == Erased(old(queue), eventID)
    {
      canceled := false;
      ErasedOrdered(queue, eventID);
      ErasedIds(queue, eventID, currentEventID);
      var i := 0;
      while i < |queue|
        invariant 0 <= i <= |queue| && queue == old(queue) && currentEventID == old(currentEventID)
        invariant forall k | 0 <= k < i :: queue[k].id != eventID
      {
        if queue[i].id == eventID {
          assert Find(queue, eventID) == Some(i);
          queue := queue[..i] + queue[i + 1..];
          canceled := true;
          return;
        }
        i := i + 1;
      }
    }

    /** One turn of the worker up to the point where it has released the lock; `event` is then still to be fired. */
    method TakeDue(now: int) returns (event: Option<TimerEvent>)
      requires Valid()
      modifies this
      ensures Valid() && currentEventID == old(currentEventID)
      ensures event == if HeadDue(old(queue), now) then Some(old(queue)[0]) else None
      ensures queue == if event.Some? then old(queue)[1..] else old(queue)
    {
      event := None;
      if queue != [] {
        var timeToWait := queue[0].alarmTime - now;
        if timeToWait <= 0 {
          event := Some(queue[0]);
          queue := queue[1..];
        }
      }
    }
  }

  // ---------- every interleaving of callers and worker ----------

  /**
   * The timer, the event the worker holds outside the lock, and what has happened so far. `readings` has the clock
   * at which each event was taken off the queue, in the order of firing.
   */
  datatype System = System(
    queue: Queue,
    inFlight: Option<TimerEvent>,
    scheduled: seq<TimerEvent>,
    cancelled: seq<TimerEvent>,
    fired: seq<TimerEvent>,
    readings: seq<int>)

  datatype Action = Schedule(absTime: int, userData: string) | Cancel(id: nat) | Take(now: int) | Fire

  const START := System([], None, [], [], [], [])

  function Step(s: System, a: Action): System {
    match a
    case Schedule(absTime, userData) =>
      var e := TimerEvent(|s.scheduled|, absTime, userData);
      s.(queue := Inserted(s.queue, e), scheduled := s.scheduled + [e])
    case Cancel(id) =>
      if Find(s.queue, id).None? then s
      else s.(queue := Erased(s.queue, id), cancelled := s.cancelled + [s.queue[Find(s.queue, id).value]])
    case Take(now) =>
      if s.inFlight.None? && HeadDue(s.queue, now)
      then s.(queue := s.queue[1..], inFlight := Some(s.queue[0]), readings := s.readings + [now])
      else s
    case Fire =>
      if s.inFlight.Some? then s.(inFlight := None, fired := s.fired + [s.inFlight.value]) else s
  }

  function Run(s: System, actions: seq<Action>): System {
    if actions == [] then s else Step(Run(s, actions[..|actions| - 1]), actions[|actions| - 1])
  }

  function Held(o: Option<TimerEvent>): multiset<TimerEvent> {
    if o.Some? then multiset{o.value} else multiset{}
  }

  /** Where every scheduled event is. */
  ghost predicate Accounted(s: System) {
    multiset(s.scheduled) == multiset(s.queue) + Held(s.inFlight) + multiset(s.fired) + multiset(s.cancelled)
  }

  ghost predicate NothingEarly(s: System) {
    && |s.readings| == |s.fired| + |Held(s.inFlight)|
    && (forall k | 0 <= k < |s.fired| :: s.fired[k].alarmTime <= s.readings[k])
    && (s.inFlight.Some? ==> s.inFlight.value.alarmTime <= s.readings[|s.fired|])
  }

  ghost predicate Inv(s: System) {
    && Ordered(s.queue)
    && Accounted(s)
    && (forall i | 0 <= i < |s.scheduled| :: s.scheduled[i].id == i)
    && NothingEarly(s)
  }

  lemma {:induction false} PendingIds(s: System)
    requires Inv(s)
    ensures forall e | e in s.queue :: e.id < |s.scheduled|
  {
    forall e | e in s.queue
      ensures e.id < |s.scheduled|
    {
      assert e in multiset(s.scheduled);
      var i :| 0 <= i < |s.scheduled| && s.scheduled[i] == e;
    }
  }

  lemma {:induction false} ScheduleKeeps(s: System, a: Action)
    requires Inv(s) && a.Schedule?
    ensures Inv(Step(s, a))
  {
    PendingIds(s);
    InsertedOrdered(s.queue, TimerEvent(|s.scheduled|, a.absTime, a.userData));
    InsertedContents(s.queue, TimerEvent(|s.scheduled|, a.absTime, a.userData));
  }

  lemma {:induction false} CancelKeeps(s: System, a: Action)
    requires Inv(s) && a.Cancel?
    ensures Inv(Step(s, a))
  {
    ErasedOrdered(s.queue, a.id);
    if Find(s.queue, a.id).Some? {
      ErasedContents(s.queue, a.id);
    }
  }

  lemma {:induction false} TakeKeeps(s: System, a: Action)
    requires Inv(s) && a.Take?
    ensures Inv(Step(s, a))
  {
    if s.inFlight.None? && HeadDue(s.queue, a.now) {
      assert s.queue == [s.queue[0]] + s.queue[1..];
    }
  }

  lemma {:induction false} FireKeeps(s: System, a: Action)
    requires Inv(s) && a.Fire?
    ensures Inv(Step(s, a))
  {
  }

  lemma {:induction false} StepKeeps(s: System, a: Action)
    requires Inv(s)
    ensures Inv(Step(s, a))
  {
    match a
    case Schedule(_, _) => ScheduleKeeps(s, a);
    case Cancel(_) => CancelKeeps(s, a);
    case Take(_) => TakeKeeps(s, a);
    case Fire => FireKeeps(s, a);
  }

  lemma {:induction false} RunKeeps(s: System, actions: seq<Action>)
    requires Inv(s)
    ensures Inv(Run(s, actions))
  {
    if actions != [] {
      RunKeeps(s, actions[..|actions| - 1]);
      StepKeeps(Run(s, actions[..|actions| - 1]), actions[|actions| - 1]);
    }
  }

  lemma {:induction false} ScheduledOnce(scheduled: seq<TimerEvent>, id: nat)
    requires id < |scheduled| && forall i | 0 <= i < |scheduled| :: scheduled[i].id == i
    ensures multiset(scheduled)[scheduled[id]] == 1
  {
    var e := scheduled[id];
    assert scheduled == scheduled[..id] + [e] + scheduled[id + 1..];
    assert e !in scheduled[..id] && e !in scheduled[id + 1..];
  }

  /**
   * In every interleaving, each scheduled event is exactly once in exactly one place: pending, held by the worker,
   * fired or cancelled; the queue is in order; and each event that fires was taken at or past its time.
   */
  lemma {:induction false} EachOnce(actions: seq<Action>, id: nat)
    requires id < |Run(START, actions).scheduled|
    ensures
      var s := Run(START, actions);
      var e := s.scheduled[id];
      && Ordered(s.queue)
      && multiset(s.queue)[e] + Held(s.inFlight)[e] + multiset(s.fired)[e] + multiset(s.cancelled)[e] == 1
      && |s.fired| <= |s.readings| && forall k | 0 <= k < |s.fired| :: s.fired[k].alarmTime <= s.readings[k]
  {
    RunKeeps(START, actions);
    var s := Run(START, actions);
    var e := s.scheduled[id];
    ScheduledOnce(s.scheduled, id);
  }

  lemma {:induction false} RecordsGrow(s: System, actions: seq<Action>)
    ensures s.scheduled <= Run(s, actions).scheduled && s.cancelled <= Run(s, actions).cancelled
  {
    if actions != [] {
      RecordsGrow(s, actions[..|actions| - 1]);
    }
  }

  lemma {:induction false} RunAppend(s: System, first: seq<Action>, more: seq<Action>)
    ensures Run(s, first + more) == Run(Run(s, first), more)
  {
    if more == [] {
      assert first + more == first;
    } else {
      var n := |more| - 1;
      assert (first + more)[..|first + more| - 1] == first + more[..n];
      RunAppend(s, first, more[..n]);
    }
  }

  lemma {:induction false} CancelledStays(s: System, more: seq<Action>, k: nat, i: nat)
    requires k < |s.cancelled| && i < |s.scheduled|
    ensures
      var s' := Run(s, more);
      s.cancelled[k] in s'.cancelled && i < |s'.scheduled| && s'.scheduled[i] == s.scheduled[i]
  {
    RecordsGrow(s, more);
    assert Run(s, more).cancelled[k] == s.cancelled[k];
  }

  /** A cancel that answers true is final: whatever happens next, the event does not fire. */
  lemma {:induction false} CancelledNeverFires(actions: seq<Action>, id: nat, more: seq<Action>)
    requires Find(Run(START, actions).queue, id).Some?
    ensures
      var before := Run(START, actions);
      var e := before.queue[Find(before.queue, id).value];
      var after := Run(START, actions + [Cancel(id)] + more);
      e.id == id && e !in after.fired && after.inFlight != Some(e) && e !in after.queue
  {
    var before := Run(START, actions);
    var e := before.queue[Find(before.queue, id).value];
    RunKeeps(START, actions);
    assert e in multiset(before.scheduled);
    var i :| 0 <= i < |before.scheduled| && before.scheduled[i] == e;
    var cancel := actions + [Cancel(id)];
    assert cancel[..|cancel| - 1] == actions;
    assert Run(START, cancel) == before.(queue := Erased(before.queue, id), cancelled := before.cancelled + [e]);
    RunAppend(START, cancel, more);
    CancelledStays(Run(START, cancel), more, |before.cancelled|, i);
    EachOnce(cancel + more, i);
  }
}
