/**
 * Where services and volumes go: the config service groups services into rings as they arrive and assigns volumes
 * to rings in turn (src/configservice/ConfigService.cpp); each volume server hosts the volumes of its own rings
 * (src/infra/PBResourceMgr.tcc). Creations in the config database are outstanding for a while, and may complete in
 * any order.
 */
module Placement {
  import opened Common

  datatype RingInfo = RingInfo(id: nat, memberIds: seq<string>)

  datatype VolumeInfo = VolumeInfo(id: nat, name: string, ringId: nat)

  // ---------- the config service ----------

  predicate NameTaken(resources: map<nat, VolumeInfo>, name: string) {
    exists id | id in resources :: resources[id].name == name
  }

  class SphereConfigMgr {
    const replicaFactor: nat
    var pendingServices: seq<string>
    var rings: map<nat, RingInfo>
    var nextAddRingId: nat
    var resources: map<nat, VolumeInfo>
    var nextResourceId: nat

    /** The source's CHECK that no more services wait than make a ring. */
    ghost predicate Valid()
      reads this
    {
      |pendingServices| < replicaFactor
    }

    ghost function View(): Manager
      reads this
    {
      Manager(pendingServices, rings, nextAddRingId, resources, nextResourceId)
    }

    constructor (replicaFactor: nat)
      requires replicaFactor > 0
      ensures Valid() && View() == NEW_MANAGER && this.replicaFactor == replicaFactor
    {
      this.replicaFactor := replicaFactor;
      pendingServices, rings, nextAddRingId, resources, nextResourceId := [], map[], 0, map[], 0;
    }

    /** The ring whose creation the service's arrival starts, if it completes one. */
    method AddService(id: string) returns (ring: Option<RingInfo>)
      requires Valid()
      modifies this
      ensures Valid()
      ensures (View(), ring) == ServiceAdded(old(View()), replicaFactor, id)
    {
      ring := None;
      pendingServices := pendingServices + [id];
      if |pendingServices| >= replicaFactor {
        assert |pendingServices| == replicaFactor;
        ring := Some(RingInfo(nextAddRingId, pendingServices));
        nextAddRingId := nextAddRingId + 1;
        pendingServices := [];
      }
    }

    method OnRingCreated(ring: RingInfo)
      modifies this
      ensures View() == RingCompleted(old(View()), ring)
    {
      rings := rings[ring.id := ring];
    }

    /** The volume whose creation the request starts, or the status it is refused with. */
    method AddResource(name: string) returns (status: Status, resource: Option<VolumeInfo>)
      modifies this
      ensures (View(), status, resource) == ResourceRequested(old(View()), name)
    {
      resource := None;
      if |rings| == 0 {
        return Invalid, None;
      }
      var left := resources.Keys;
      while left != {}
        modifies {}
        invariant left <= resources.Keys
        invariant forall id | id in resources && id !in left :: resources[id].name != name
        decreases left
      {
        ghost var some := AnyOf(left);
        var id :| id in left;
        if resources[id].name == name {
          return DuplicateVolume, None;
        }
        left := left - {id};
      }
      resource := Some(VolumeInfo(nextResourceId, name, nextResourceId % |rings|));
      nextResourceId := nextResourceId + 1;
      status := Ok;
    }

    method OnResourceCreated(resource: VolumeInfo)
      modifies this
      ensures View() == VolumeCompleted(old(View()), resource)
    {
      resources := resources[resource.id := resource];
    }
  }

  datatype Manager = Manager(
    pendingServices: seq<string>,
    rings: map<nat, RingInfo>,
    nextAddRingId: nat,
    resources: map<nat, VolumeInfo>,
    nextResourceId: nat)

  const NEW_MANAGER := Manager([], map[], 0, map[], 0)

  function ServiceAdded(m: Manager, replicaFactor: nat, id: string): (Manager, Option<RingInfo>) {
    var pending := m.pendingServices + [id];
    if |pending| >= replicaFactor
    then (m.(pendingServices := [], nextAddRingId := m.nextAddRingId + 1), Some(RingInfo(m.nextAddRingId, pending)))
    else (m.(pendingServices := pending), None)
  }

  function ResourceRequested(m: Manager, name: string): (Manager, Status, Option<VolumeInfo>) {
    if |m.rings| == 0 then (m, Invalid, None)
    else if NameTaken(m.resources, name) then (m, DuplicateVolume, None)
    else
      (m.(nextResourceId := m.nextResourceId + 1), Ok,
       Some(VolumeInfo(m.nextResourceId, name, m.nextResourceId % |m.rings|)))
  }

  function RingCompleted(m: Manager, ring: RingInfo): Manager {
    m.(rings := m.rings[ring.id := ring])
  }

  function VolumeCompleted(m: Manager, resource: VolumeInfo): Manager {
    m.(resources := m.resources[resource.id := resource])
  }

  // ---------- all runs of the config service ----------

  /**
   * The manager, the creations outstanding, and what has happened: the services that arrived, the rings formed and
   * the volumes accepted, in the order of their ids.
   */
  datatype System = System(
    m: Manager,
    creatingRings: set<nat>,
    creatingResources: set<nat>,
    arrived: seq<string>,
    formed: seq<RingInfo>,
    accepted: seq<VolumeInfo>)

  const START := System(NEW_MANAGER, {}, {}, [], [], [])

  datatype Event =
    | ServiceArrives(service: string)
    | RingCreated(ringId: nat)
    | VolumeRequested(name: string)
    | VolumeCreated(volumeId: nat)
    | VolumeCreateFailed(volumeId: nat)

  function Step(s: System, replicaFactor: nat, e: Event): System {
    match e
    case ServiceArrives(service) =>
      var (m', ring) := ServiceAdded(s.m, replicaFactor, service);
      var s' := s.(m := m', arrived := s.arrived + [service]);
      if ring.Some?
      then s'.(creatingRings := s.creatingRings + {ring.value.id}, formed := s.formed + [ring.value])
      else s'
    case RingCreated(id) =>
      if id in s.creatingRings && id < |s.formed|
      then s.(creatingRings := s.creatingRings - {id}, m := RingCompleted(s.m, s.formed[id]))
      else s
    case VolumeRequested(name) =>
      var (m', status, volume) := ResourceRequested(s.m, name);
      if volume.Some?
      then s.(m := m', creatingResources := s.creatingResources + {volume.value.id},
              accepted := s.accepted + [volume.value])
      else s
    case VolumeCreated(id) =>
      if id in s.creatingResources && id < |s.accepted|
      then s.(creatingResources := s.creatingResources - {id},
              m := VolumeCompleted(s.m, s.accepted[id]))
      else s
    case VolumeCreateFailed(id) =>
      s.(creatingResources := s.creatingResources - {id})
  }

  function Run(s: System, replicaFactor: nat, events: seq<Event>): System {
    if events == [] then s
    else Step(Run(s, replicaFactor, events[..|events| - 1]), replicaFactor, events[|events| - 1])
  }

  /** The members of the rings one after the other. */
  function Members(rings: seq<RingInfo>): seq<string> {
    if rings == [] then [] else Members(rings[..|rings| - 1]) + rings[|rings| - 1].memberIds
  }

  ghost predicate RingsOk(s: System, replicaFactor: nat) {
    && |s.m.pendingServices| < replicaFactor
    && s.m.nextAddRingId == |s.formed|
    && s.arrived == Members(s.formed) + s.m.pendingServices
    && (forall i | 0 <= i < |s.formed| :: s.formed[i].id == i && |s.formed[i].memberIds| == replicaFactor)
    && s.m.rings.Keys !! s.creatingRings
    && (forall id :: 0 <= id < |s.formed| <==> id in s.m.rings || id in s.creatingRings)
    && (forall id | id in s.m.rings :: id < |s.formed| && s.m.rings[id] == s.formed[id])
  }

  ghost predicate VolumesOk(s: System) {
    && s.m.nextResourceId == |s.accepted|
    && (forall i | 0 <= i < |s.accepted| :: s.accepted[i].id == i)
    && s.m.resources.Keys !! s.creatingResources
    && (forall id | id in s.creatingResources :: id < |s.accepted|)
    && (forall id | id in s.m.resources :: id < |s.accepted| && s.m.resources[id] == s.accepted[id])
  }

  ghost predicate Inv(s: System, replicaFactor: nat) {
    RingsOk(s, replicaFactor) && VolumesOk(s)
  }

  lemma {:induction false} MembersAppend(rings: seq<RingInfo>, ring: RingInfo)
    ensures Members(rings + [ring]) == Members(rings) + ring.memberIds
  {
    assert (rings + [ring])[..|rings|] == rings;
  }

  lemma {:induction false} ServiceKeeps(s: System, replicaFactor: nat, e: Event)
    requires RingsOk(s, replicaFactor) && e.ServiceArrives?
    ensures RingsOk(Step(s, replicaFactor, e), replicaFactor)
  {
    var (m', ring) := ServiceAdded(s.m, replicaFactor, e.service);
    var s' := Step(s, replicaFactor, e);
    assert s'.arrived == Members(s.formed) + (s.m.pendingServices + [e.service]);
    if ring.Some? {
      MembersAppend(s.formed, ring.value);
      assert s'.formed == s.formed + [ring.value] && s'.creatingRings == s.creatingRings + {|s.formed|};
    }
  }

  lemma {:induction false} RingCreatedKeeps(s: System, replicaFactor: nat, e: Event)
    requires RingsOk(s, replicaFactor) && e.RingCreated?
    ensures RingsOk(Step(s, replicaFactor, e), replicaFactor)
  {
  }

  lemma {:induction false} StepKeeps(s: System, replicaFactor: nat, e: Event)
    requires Inv(s, replicaFactor)
    ensures Inv(Step(s, replicaFactor, e), replicaFactor)
  {
    match e
    case ServiceArrives(_) => ServiceKeeps(s, replicaFactor, e);
    case RingCreated(_) => RingCreatedKeeps(s, replicaFactor, e);
    case _ =>
  }

  lemma {:induction false} RunKeeps(replicaFactor: nat, events: seq<Event>)
    requires replicaFactor > 0
    ensures Inv(Run(START, replicaFactor, events), replicaFactor)
  {
    if events != [] {
      RunKeeps(replicaFactor, events[..|events| - 1]);
      StepKeeps(Run(START, replicaFactor, events[..|events| - 1]), replicaFactor, events[|events| - 1]);
    }
  }

  /**
   * In every run: no service is lost, duplicated or moved, every ring has exactly `replicaFactor` members, and the
   * number of rings formed is the number of services that arrived over the replica factor.
   */
  lemma {:induction false} RingsInArrivalOrder(replicaFactor: nat, events: seq<Event>)
    requires replicaFactor > 0
    ensures
      var s := Run(START, replicaFactor, events);
      && Members(s.formed) + s.m.pendingServices == s.arrived
      && (forall id | id in s.m.rings :: id < |s.formed| && s.m.rings[id] == s.formed[id])
      && (forall i | 0 <= i < |s.formed| :: s.formed[i].id == i && |s.formed[i].memberIds| == replicaFactor)
      && |s.formed| == |s.arrived| / replicaFactor
  {
    RunKeeps(replicaFactor, events);
    var s := Run(START, replicaFactor, events);
    MembersLength(s.formed, replicaFactor);
    Quotient(|s.arrived|, replicaFactor, |s.formed|);
  }

  lemma {:induction false} MembersLength(rings: seq<RingInfo>, n: nat)
    requires forall i | 0 <= i < |rings| :: |rings[i].memberIds| == n
    ensures |Members(rings)| == |rings| * n
  {
    if rings != [] {
      var front := rings[..|rings| - 1];
      MembersLength(front, n);
      assert (|front| + 1) * n == |front| * n + n;
    }
  }

  lemma {:induction false} Quotient(x: int, d: nat, q: nat)
    requires d > 0 && 0 <= x - q * d < d
    ensures x / d == q
  {
    var k: int := x / d - q;
    assert k * d == x - q * d - x % d;
    assert k >= 1 ==> k * d >= d;
    assert k <= -1 ==> (k + 1) * d <= 0;
  }

  /** Every volume accepted has an id of its own, and the table holds accepted volumes only, each under its id. */
  lemma {:induction false} FreshIds(replicaFactor: nat, events: seq<Event>)
    requires replicaFactor > 0
    ensures
      var s := Run(START, replicaFactor, events);
      && (forall i, j | 0 <= i < j < |s.accepted| :: s.accepted[i].id != s.accepted[j].id)
      && (forall id | id in s.m.resources :: s.m.resources[id].id == id && s.m.resources[id] in s.accepted)
  {
    RunKeeps(replicaFactor, events);
  }

  // ---------- does the ring exist? ----------

  function IdsBelow(n: nat): (ids: set<nat>)
    ensures |ids| == n && forall k: nat :: k in ids <==> k < n
  {
    if n == 0 then {} else IdsBelow(n - 1) + {n - 1}
  }

  /** The ids from 0 on, without a gap. */
  ghost predicate NoGap(rings: map<nat, RingInfo>) {
    rings.Keys == IdsBelow(|rings|)
  }

  lemma {:induction false} NoGapFindsAll(rings: map<nat, RingInfo>, id: nat)
    requires |rings| > 0 && NoGap(rings)
    ensures id % |rings| in rings
  {
  }

  lemma {:induction false} AllFoundNoGap(rings: map<nat, RingInfo>)
    requires |rings| > 0 && forall id: nat :: id % |rings| in rings
    ensures NoGap(rings)
  {
    var n := |rings|;
    forall k | k in IdsBelow(n)
      ensures k in rings.Keys
    {
      assert k % n == k;
    }
    SameSize(IdsBelow(n), rings.Keys);
  }

  /** The assignment by remainder finds a ring for every volume id exactly if the ring ids have no gap. */
  lemma {:induction false} EveryIdFindsARingIff(rings: map<nat, RingInfo>)
    requires |rings| > 0
    ensures (forall id: nat :: id % |rings| in rings) <==> NoGap(rings)
  {
    if NoGap(rings) {
      forall id: nat
        ensures id % |rings| in rings
      {
        NoGapFindsAll(rings, id);
      }
    } else if forall id: nat :: id % |rings| in rings {
      AllFoundNoGap(rings);
    }
  }

  lemma {:induction false} SameSize(a: set<nat>, b: set<nat>)
    requires a <= b && |a| == |b|
    ensures a == b
  {
    assert b == a + (b - a);
  }

  /** Rings complete in the order of their ids, as creations of one session do. */
  ghost predicate InOrder(s: System, replicaFactor: nat, events: seq<Event>) {
    events == [] ||
    (var before := Run(s, replicaFactor, events[..|events| - 1]);
     var e := events[|events| - 1];
     InOrder(s, replicaFactor, events[..|events| - 1]) &&
     (e.RingCreated? ==> forall id | id in before.creatingRings :: e.ringId <= id))
  }

  lemma {:induction false} NoGapGrows(rings: map<nat, RingInfo>, ring: RingInfo)
    requires NoGap(rings) && ring.id == |rings|
    ensures NoGap(rings[ring.id := ring])
  {
    var more := rings[ring.id := ring];
    assert ring.id !in rings.Keys && more.Keys == rings.Keys + {ring.id};
    assert |more| == |more.Keys| == ring.id + 1;
  }

  lemma {:induction false} LowestIsNext(rings: map<nat, RingInfo>, creating: set<nat>, total: nat, id: nat)
    requires NoGap(rings) && rings.Keys !! creating && id in creating
    requires forall k :: 0 <= k < total <==> k in rings || k in creating
    requires forall k | k in creating :: id <= k
    ensures id == |rings|
  {
    var n := |rings|;
    assert n !in rings && id !in rings && id < total;
    assert n in creating;
  }

  lemma {:induction false} RingsAfter(s: System, replicaFactor: nat, e: Event)
    ensures Step(s, replicaFactor, e).m.rings ==
            if e.RingCreated? && e.ringId in s.creatingRings && e.ringId < |s.formed|
            then s.m.rings[s.formed[e.ringId].id := s.formed[e.ringId]]
            else s.m.rings
  {
  }

  lemma {:induction false} NextNoGap(s: System, replicaFactor: nat, id: nat)
    requires RingsOk(s, replicaFactor) && NoGap(s.m.rings) && id in s.creatingRings && id < |s.formed|
    requires forall k | k in s.creatingRings :: id <= k
    ensures NoGap(s.m.rings[id := s.formed[id]])
  {
    LowestIsNext(s.m.rings, s.creatingRings, |s.formed|, id);
    NoGapGrows(s.m.rings, s.formed[id]);
  }

  lemma {:induction false} InOrderNoGap(replicaFactor: nat, events: seq<Event>)
    requires replicaFactor > 0 && InOrder(START, replicaFactor, events)
    ensures NoGap(Run(START, replicaFactor, events).m.rings)
  {
    if events != [] {
      var front := events[..|events| - 1];
      InOrderNoGap(replicaFactor, front);
      RunKeeps(replicaFactor, front);
      var s := Run(START, replicaFactor, front);
      var e := events[|events| - 1];
      RingsAfter(s, replicaFactor, e);
      if e.RingCreated? && e.ringId in s.creatingRings && e.ringId < |s.formed| {
        NextNoGap(s, replicaFactor, e.ringId);
      }
    }
  }

  /** With rings completing in order, every accepted volume goes to a ring that is in the table. */
  lemma {:induction false} VolumeFindsItsRing(replicaFactor: nat, events: seq<Event>, name: string)
    requires replicaFactor > 0 && InOrder(START, replicaFactor, events)
    ensures
      var s := Run(START, replicaFactor, events);
      var volume := ResourceRequested(s.m, name).2;
      volume.Some? ==> volume.value.ringId in s.m.rings && |s.m.rings[volume.value.ringId].memberIds| == replicaFactor
  {
    InOrderNoGap(replicaFactor, events);
    RunKeeps(replicaFactor, events);
  }

  /** The second ring completing before the first, a volume goes to the first, which the table does not have yet. */
  lemma {:induction false} RingMayBeMissing()
    ensures
      var events := [ServiceArrives("a"), ServiceArrives("b"), RingCreated(1)];
      var s := Run(START, 1, events);
      ResourceRequested(s.m, "v").2 == Some(VolumeInfo(0, "v", 0)) && 0 !in s.m.rings
  {
    var e := [ServiceArrives("a"), ServiceArrives("b"), RingCreated(1)];
    assert e[..2] == [ServiceArrives("a"), ServiceArrives("b")] && e[..2][..1] == [ServiceArrives("a")];
    assert e[..2][..1][..0] == [];
    var s1 := Run(START, 1, e[..2][..1]);
    assert Run(START, 1, e[..2][..1][..0]) == START;
    assert START.m.pendingServices + ["a"] == ["a"] && START.m.pendingServices + ["b"] == ["b"];
    assert s1 == Step(START, 1, e[0]) && s1.formed == [RingInfo(0, ["a"])];
    var s2 := Run(START, 1, e[..2]);
    assert s2 == Step(s1, 1, e[1]) && s2.formed == [RingInfo(0, ["a"]), RingInfo(1, ["b"])];
    assert Run(START, 1, e) == Step(s2, 1, e[2]);
  }

  // ---------- an even spread ----------

  /** How many of the first `n` accepted volumes went to `ringId`. */
  function CountOn(volumes: seq<VolumeInfo>, ringId: nat): nat {
    if volumes == [] then 0
    else CountOn(volumes[..|volumes| - 1], ringId) + (if volumes[|volumes| - 1].ringId == ringId then 1 else 0)
  }

  /** The part of `total` that falls to one of `n` rings served in turn. */
  function Share(total: nat, n: nat, ringId: nat): nat
    requires n > 0
  {
    total / n + (if ringId < total % n then 1 else 0)
  }

  lemma {:induction false} ShareNext(x: nat, n: nat, ringId: nat)
    requires ringId < n
    ensures Share(x + 1, n, ringId) == Share(x, n, ringId) + (if x % n == ringId then 1 else 0)
  {
    var q, r := x / n, x % n;
    assert x == q * n + r;
    if r == n - 1 {
      assert x + 1 == (q + 1) * n;
      Quotient(x + 1, n, q + 1);
      assert (x + 1) % n == 0;
    } else {
      Quotient(x + 1, n, q);
      assert (x + 1) % n == r + 1;
    }
  }

  lemma {:induction false} RoundRobinCounts(volumes: seq<VolumeInfo>, n: nat, ringId: nat)
    requires ringId < n && forall i | 0 <= i < |volumes| :: volumes[i].ringId == i % n
    ensures CountOn(volumes, ringId) == Share(|volumes|, n, ringId)
  {
    if volumes != [] {
      RoundRobinCounts(volumes[..|volumes| - 1], n, ringId);
      ShareNext(|volumes| - 1, n, ringId);
    }
  }

  /** No ring is completed from here on. */
  predicate NoNewRing(events: seq<Event>) {
    forall i | 0 <= i < |events| :: !events[i].RingCreated?
  }

  ghost predicate Spread(rings: map<nat, RingInfo>, s: System) {
    && s.m.rings == rings
    && (|rings| == 0 ==> s.accepted == [])
    && (|rings| > 0 ==> forall i | 0 <= i < |s.accepted| :: s.accepted[i].ringId == i % |rings|)
  }

  lemma {:induction false} SpreadNext(rings: map<nat, RingInfo>, s: System, replicaFactor: nat, e: Event)
    requires VolumesOk(s) && Spread(rings, s) && !e.RingCreated?
    ensures Spread(rings, Step(s, replicaFactor, e))
  {
    var s' := Step(s, replicaFactor, e);
    if e.VolumeRequested? && ResourceRequested(s.m, e.name).2.Some? {
      var volume := ResourceRequested(s.m, e.name).2.value;
      assert s'.accepted == s.accepted + [volume];
      assert volume.ringId == |s.accepted| % |rings|;
    } else {
      assert s'.accepted == s.accepted;
    }
  }

  lemma {:induction false} FixedRings(s: System, replicaFactor: nat, events: seq<Event>)
    requires replicaFactor > 0 && Inv(s, replicaFactor) && s.accepted == [] && NoNewRing(events)
    ensures Inv(Run(s, replicaFactor, events), replicaFactor) && Spread(s.m.rings, Run(s, replicaFactor, events))
  {
    if events != [] {
      var front := events[..|events| - 1];
      FixedRings(s, replicaFactor, front);
      StepKeeps(Run(s, replicaFactor, front), replicaFactor, events[|events| - 1]);
      SpreadNext(s.m.rings, Run(s, replicaFactor, front), replicaFactor, events[|events| - 1]);
    }
  }

  /**
   * Once the rings are complete, before any volume, then however many volumes follow, every ring has been given
   * the same number of them or one more, the lower ring ids first.
   */
  lemma {:induction false} EvenSpread(replicaFactor: nat, setup: seq<Event>, events: seq<Event>, ringId: nat)
    requires replicaFactor > 0 && NoNewRing(events)
    requires Run(START, replicaFactor, setup).accepted == [] && ringId < |Run(START, replicaFactor, setup).m.rings|
    ensures
      var s := Run(START, replicaFactor, setup);
      var n := |s.m.rings|;
      var volumes := Run(s, replicaFactor, events).accepted;
      CountOn(volumes, ringId) == |volumes| / n + (if ringId < |volumes| % n then 1 else 0)
  {
    RunKeeps(replicaFactor, setup);
    var s := Run(START, replicaFactor, setup);
    FixedRings(s, replicaFactor, events);
    RoundRobinCounts(Run(s, replicaFactor, events).accepted, |s.m.rings|, ringId);
  }

  // ---------- names ----------

  /** Whether the volume with this id is in the table or on its way there. */
  predicate Current(s: System, id: nat) { id in s.m.resources || id in s.creatingResources }

  ghost predicate NamesDistinct(s: System)
    requires VolumesOk(s)
  {
    forall i: nat, j: nat | Current(s, i) && Current(s, j) && i != j :: s.accepted[i].name != s.accepted[j].name
  }

  ghost predicate NameUnderway(s: System, name: string)
    requires VolumesOk(s)
  {
    exists id | id in s.creatingResources :: s.accepted[id].name == name
  }

  /** Accepting a name keeps the current names distinct exactly if no creation of that name is outstanding. */
  lemma {:induction false} NamesStayDistinctIff(s: System, replicaFactor: nat, name: string)
    requires replicaFactor > 0 && Inv(s, replicaFactor) && NamesDistinct(s)
    requires ResourceRequested(s.m, name).1 == Ok
    ensures
      var s' := Step(s, replicaFactor, VolumeRequested(name));
      Inv(s', replicaFactor) && (NamesDistinct(s') <==> !NameUnderway(s, name))
  {
    var s' := Step(s, replicaFactor, VolumeRequested(name));
    StepKeeps(s, replicaFactor, VolumeRequested(name));
    var n := |s.accepted|;
    assert s'.accepted[n].name == name && Current(s', n);
    if NameUnderway(s, name) {
      var id :| id in s.creatingResources && s.accepted[id].name == name;
      assert Current(s', id) && id != n;
    } else {
      forall i: nat, j: nat | Current(s', i) && Current(s', j) && i != j
        ensures s'.accepted[i].name != s'.accepted[j].name
      {
        assert i != n ==> Current(s, i);
        assert j != n ==> Current(s, j);
      }
    }
  }

  /** One ring, and two requests for one name, the second before the first one's creation has completed. */
  const OVERLAP: seq<Event> := [ServiceArrives("s"), RingCreated(0), VolumeRequested("v"), VolumeRequested("v")]

  lemma {:induction false} FourSteps(s: System, replicaFactor: nat, a: Event, b: Event, c: Event, d: Event)
    ensures Run(s, replicaFactor, [a, b, c, d]) ==
            Step(Step(Step(Step(s, replicaFactor, a), replicaFactor, b), replicaFactor, c), replicaFactor, d)
  {
    assert [a, b, c, d][..3] == [a, b, c] && [a, b, c][..2] == [a, b] && [a, b][..1] == [a] && [a][..0] == [];
    assert Run(s, replicaFactor, [a]) == Step(s, replicaFactor, a);
    assert Run(s, replicaFactor, [a, b]) == Step(Run(s, replicaFactor, [a]), replicaFactor, b);
    assert Run(s, replicaFactor, [a, b, c]) == Step(Run(s, replicaFactor, [a, b]), replicaFactor, c);
  }

  const OVERLAP_RINGS: map<nat, RingInfo> := map[0 := RingInfo(0, ["s"])]

  /** After the ring is complete, with these volumes accepted and in creation, or created. */
  function Overlapping(accepted: seq<VolumeInfo>, creating: set<nat>, created: map<nat, VolumeInfo>): System {
    System(Manager([], OVERLAP_RINGS, 1, created, |accepted|), {}, creating, ["s"], [RingInfo(0, ["s"])], accepted)
  }

  lemma {:induction false} OverlapRing()
    ensures Step(Step(START, 1, ServiceArrives("s")), 1, RingCreated(0)) == Overlapping([], {}, map[])
  {
    assert [] + ["s"] == ["s"];
    var s := Step(START, 1, ServiceArrives("s"));
    assert s.formed == [RingInfo(0, ["s"])] && s.creatingRings == {0} && s.arrived == ["s"];
    assert {0} - {0} == {};
    assert Step(s, 1, RingCreated(0)).m.rings == OVERLAP_RINGS;
  }

  lemma {:induction false} OverlapRequest(accepted: seq<VolumeInfo>, creating: set<nat>)
    ensures Step(Overlapping(accepted, creating, map[]), 1, VolumeRequested("v")) ==
            Overlapping(accepted + [VolumeInfo(|accepted|, "v", 0)], creating + {|accepted|}, map[])
  {
    assert |OVERLAP_RINGS| == 1;
  }

  const SHARED_NAME: seq<VolumeInfo> := [VolumeInfo(0, "v", 0), VolumeInfo(1, "v", 0)]

  lemma {:induction false} OverlapReached()
    ensures Run(START, 1, OVERLAP) == Overlapping(SHARED_NAME, {0, 1}, map[])
  {
    FourSteps(START, 1, ServiceArrives("s"), RingCreated(0), VolumeRequested("v"), VolumeRequested("v"));
    OverlapRing();
    OverlapRequest([], {});
    assert [] + [VolumeInfo(0, "v", 0)] == [VolumeInfo(0, "v", 0)] && {} + {0} == {0};
    OverlapRequest([VolumeInfo(0, "v", 0)], {0});
    assert [VolumeInfo(0, "v", 0)] + [VolumeInfo(1, "v", 0)] == SHARED_NAME && {0} + {1} == {0, 1};
  }

  lemma {:induction false} OverlapCompletes()
    ensures
      var s := Step(Step(Overlapping(SHARED_NAME, {0, 1}, map[]), 1, VolumeCreated(0)), 1, VolumeCreated(1));
      s.m.resources == map[0 := VolumeInfo(0, "v", 0), 1 := VolumeInfo(1, "v", 0)]
  {
    var s := Step(Overlapping(SHARED_NAME, {0, 1}, map[]), 1, VolumeCreated(0));
    assert s.m.resources == map[0 := VolumeInfo(0, "v", 0)] && 1 in s.creatingResources;
  }

  /** Both are accepted, and both volumes come into being under the same name. */
  lemma {:induction false} OverlappingRequestsShareName()
    ensures Inv(Run(START, 1, OVERLAP), 1) && !NamesDistinct(Run(START, 1, OVERLAP))
    ensures
      var s := Step(Step(Run(START, 1, OVERLAP), 1, VolumeCreated(0)), 1, VolumeCreated(1));
      s.m.resources == map[0 := VolumeInfo(0, "v", 0), 1 := VolumeInfo(1, "v", 0)]
  {
    RunKeeps(1, OVERLAP);
    OverlapReached();
    OverlapCompletes();
    var s := Run(START, 1, OVERLAP);
    assert Current(s, 0) && Current(s, 1) && s.accepted[0].name == s.accepted[1].name;
  }

  /** No request finds a creation of its own name outstanding; requests made one at a time are such a run. */
  ghost predicate Serialized(replicaFactor: nat, events: seq<Event>)
    requires replicaFactor > 0
  {
    RunKeeps(replicaFactor, events[..if events == [] then 0 else |events| - 1]);
    events == [] ||
    (var e := events[|events| - 1];
     Serialized(replicaFactor, events[..|events| - 1]) &&
     (e.VolumeRequested? ==> !NameUnderway(Run(START, replicaFactor, events[..|events| - 1]), e.name)))
  }

  lemma {:induction false} OthersKeepNames(s: System, replicaFactor: nat, e: Event)
    requires Inv(s, replicaFactor) && NamesDistinct(s)
    requires e.VolumeRequested? ==> ResourceRequested(s.m, e.name).1 != Ok
    ensures VolumesOk(Step(s, replicaFactor, e)) && NamesDistinct(Step(s, replicaFactor, e))
  {
    var s' := Step(s, replicaFactor, e);
    StepKeeps(s, replicaFactor, e);
    assert s'.accepted == s.accepted && forall id: nat :: Current(s', id) ==> Current(s, id);
  }

  lemma {:induction false} SerializedNamesDistinct(replicaFactor: nat, events: seq<Event>)
    requires replicaFactor > 0 && Serialized(replicaFactor, events)
    ensures Inv(Run(START, replicaFactor, events), replicaFactor) && NamesDistinct(Run(START, replicaFactor, events))
  {
    RunKeeps(replicaFactor, events);
    if events != [] {
      var front := events[..|events| - 1];
      var e := events[|events| - 1];
      SerializedNamesDistinct(replicaFactor, front);
      var s := Run(START, replicaFactor, front);
      if e.VolumeRequested? && ResourceRequested(s.m, e.name).1 == Ok {
        NamesStayDistinctIff(s, replicaFactor, e.name);
      } else {
        OthersKeepNames(s, replicaFactor, e);
      }
    }
  }

  // ---------- which server hosts which volume ----------

  /** What a server keeps of a volume that it hosts. */
  datatype Replica = Replica(memberIds: seq<string>, quorum: nat, info: VolumeInfo)

  const RESOURCE_QUORUM: nat := 2

  /** The ring's members; a ring that is not in the table has none. */
  function MemberIds(rings: map<nat, RingInfo>, ringId: nat): seq<string> {
    if ringId in rings then rings[ringId].memberIds else []
  }

  predicate Owned(rings: map<nat, RingInfo>, service: string, info: VolumeInfo) {
    service in MemberIds(rings, info.ringId)
  }

  /** The table after one more volume has been seen: the first sight of an id decides. */
  function Seen(
      rings: map<nat, RingInfo>, service: string, table: map<nat, Replica>, info: VolumeInfo): map<nat, Replica>
  {
    if info.id !in table && Owned(rings, service, info)
    then table[info.id := Replica(MemberIds(rings, info.ringId), RESOURCE_QUORUM, info)]
    else table
  }

  function SeenAll(rings: map<nat, RingInfo>, service: string, infos: seq<VolumeInfo>): map<nat, Replica> {
    if infos == [] then map[]
    else Seen(rings, service, SeenAll(rings, service, infos[..|infos| - 1]), infos[|infos| - 1])
  }

  /** The same members everywhere; ids absent from one table may be present without members in the other. */
  ghost predicate SameMembers(a: map<nat, RingInfo>, b: map<nat, RingInfo>) {
    forall ringId :: MemberIds(a, ringId) == MemberIds(b, ringId)
  }

  /** The table of rings that a list amounts to, the last entry with an id counting. */
  function RingTable(rings: seq<RingInfo>): map<nat, RingInfo> {
    if rings == [] then map[] else RingTable(rings[..|rings| - 1])[rings[|rings| - 1].id := rings[|rings| - 1]]
  }

  ghost predicate DistinctIds(infos: seq<VolumeInfo>) {
    forall i, j | 0 <= i < j < |infos| :: infos[i].id != infos[j].id
  }

  class ResourceMgr {
    const serviceId: string
    var ringTable: map<nat, RingInfo>
    var resourceTable: map<nat, Replica>

    constructor (serviceId: string)
      ensures this.serviceId == serviceId && ringTable == map[] && resourceTable == map[]
    {
      this.serviceId := serviceId;
      ringTable, resourceTable := map[], map[];
    }

    /** Looking a ring up puts an empty one into the table if it was not there. */
    method RingAt(ringId: nat) returns (ring: RingInfo)
      modifies this
      ensures SameMembers(ringTable, old(ringTable)) && resourceTable == old(resourceTable)
      ensures ring.memberIds == MemberIds(old(ringTable), ringId)
    {
      if ringId !in ringTable {
        ringTable := ringTable[ringId := RingInfo(0, [])];
      }
      ring := ringTable[ringId];
    }

    method AddResourceReplicaIfOwned(info: VolumeInfo)
      modifies this
      ensures SameMembers(ringTable, old(ringTable))
      ensures resourceTable ==
              if Owned(old(ringTable), serviceId, info)
              then old(resourceTable)[info.id := Replica(MemberIds(old(ringTable), info.ringId), RESOURCE_QUORUM, info)]
              else old(resourceTable)
    {
      var ring := RingAt(info.ringId);
      if serviceId in ring.memberIds {
        ring := RingAt(info.ringId);
        resourceTable := resourceTable[info.id := Replica(ring.memberIds, RESOURCE_QUORUM, info)];
      }
    }

    /** An update for a volume already hosted goes to the volume and leaves the table alone. */
    method HandleResourceConfigTableUpdate(info: VolumeInfo)
      modifies this
      ensures SameMembers(ringTable, old(ringTable))
      ensures resourceTable == Seen(old(ringTable), serviceId, old(resourceTable), info)
    {
      if info.id !in resourceTable {
        AddResourceReplicaIfOwned(info);
      }
    }

    /** At start: the rings there are, then the volumes there are; the database holds one volume per id. */
    method PullResourceConfigTable(rings: seq<RingInfo>, infos: seq<VolumeInfo>)
      requires ringTable == map[] && resourceTable == map[] && DistinctIds(infos)
      modifies this
      ensures SameMembers(ringTable, RingTable(rings))
      ensures resourceTable == SeenAll(RingTable(rings), serviceId, infos)
    {
      var i := 0;
      while i < |rings|
        invariant 0 <= i <= |rings|
        invariant ringTable == RingTable(rings[..i]) && resourceTable == map[]
      {
        assert rings[..i + 1][..i] == rings[..i];
        ringTable := ringTable[rings[i].id := rings[i]];
        i := i + 1;
      }
      assert rings[..|rings|] == rings;
      i := 0;
      while i < |infos|
        invariant 0 <= i <= |infos|
        invariant SameMembers(ringTable, RingTable(rings))
        invariant resourceTable == SeenAll(RingTable(rings), serviceId, infos[..i])
      {
        assert infos[..i + 1][..i] == infos[..i];
        NotSeenBefore(RingTable(rings), serviceId, infos, i);
        SameMembersSameOwned(ringTable, RingTable(rings), serviceId, infos[i]);
        AddResourceReplicaIfOwned(infos[i]);
        i := i + 1;
      }
      assert infos[..|infos|] == infos;
    }
  }

  lemma {:induction false} SameMembersSameOwned(
      a: map<nat, RingInfo>, b: map<nat, RingInfo>, service: string, info: VolumeInfo)
    requires SameMembers(a, b)
    ensures Owned(a, service, info) == Owned(b, service, info) && MemberIds(a, info.ringId) == MemberIds(b, info.ringId)
  {
  }

  lemma {:induction false} SeenFrom(rings: map<nat, RingInfo>, service: string, infos: seq<VolumeInfo>, id: nat)
    ensures id in SeenAll(rings, service, infos) <==>
            exists i :: 0 <= i < |infos| && infos[i].id == id && Owned(rings, service, infos[i])
    ensures id in SeenAll(rings, service, infos) ==>
              var r := SeenAll(rings, service, infos)[id];
              && r == Replica(MemberIds(rings, r.info.ringId), RESOURCE_QUORUM, r.info)
              && r.info in infos && r.info.id == id
  {
    if infos != [] {
      var n := |infos| - 1;
      SeenFrom(rings, service, infos[..n], id);
      if i :| 0 <= i < |infos| && infos[i].id == id && Owned(rings, service, infos[i]) {
        if i < n {
          assert infos[..n][i] == infos[i];
        }
      }
    }
  }

  lemma {:induction false} NotSeenBefore(rings: map<nat, RingInfo>, service: string, infos: seq<VolumeInfo>, i: nat)
    requires DistinctIds(infos) && i < |infos|
    ensures infos[i].id !in SeenAll(rings, service, infos[..i])
  {
    SeenFrom(rings, service, infos[..i], infos[i].id);
  }

  /** Each volume has one description, the one that the config service gave it. */
  ghost predicate OnePerId(infos: seq<VolumeInfo>) {
    forall i, j | 0 <= i < |infos| && 0 <= j < |infos| && infos[i].id == infos[j].id :: infos[i] == infos[j]
  }

  /**
   * Servers with the same ring table, whatever volumes each has seen, in whatever order and however often: a server
   * that has seen a volume hosts it exactly if it belongs to the volume's ring, and any two that host it agree on its
   * members.
   */
  lemma {:induction false} HostsExactlyTheRing(
      rings: map<nat, RingInfo>, service: string, infos: seq<VolumeInfo>, other: string, infos': seq<VolumeInfo>,
      v: VolumeInfo)
    requires OnePerId(infos + infos') && v in infos && v in infos'
    ensures
      var here, there := SeenAll(rings, service, infos), SeenAll(rings, other, infos');
      && (v.id in here <==> service in MemberIds(rings, v.ringId))
      && (v.id in there <==> other in MemberIds(rings, v.ringId))
      && (v.id in here ==> here[v.id] == Replica(MemberIds(rings, v.ringId), 2, v))
      && (v.id in here && v.id in there ==> here[v.id] == there[v.id])
  {
    HostsIfMember(rings, service, infos, infos', v);
    assert forall x :: x in infos' + infos ==> x in infos + infos';
    OnePerIdAgain(infos, infos');
    HostsIfMember(rings, other, infos', infos, v);
  }

  lemma {:induction false} OnePerIdAgain(a: seq<VolumeInfo>, b: seq<VolumeInfo>)
    requires OnePerId(a + b)
    ensures OnePerId(b + a)
  {
    var ab, ba := a + b, b + a;
    forall i, j | 0 <= i < |ba| && 0 <= j < |ba| && ba[i].id == ba[j].id
      ensures ba[i] == ba[j]
    {
      var k := if i < |b| then |a| + i else i - |b|;
      var l := if j < |b| then |a| + j else j - |b|;
      assert ab[k] == ba[i] && ab[l] == ba[j];
    }
  }

  lemma {:induction false} HostsIfMember(
      rings: map<nat, RingInfo>, service: string, infos: seq<VolumeInfo>, more: seq<VolumeInfo>, v: VolumeInfo)
    requires OnePerId(infos + more) && v in infos
    ensures
      var table := SeenAll(rings, service, infos);
      && (v.id in table <==> service in MemberIds(rings, v.ringId))
      && (v.id in table ==> table[v.id] == Replica(MemberIds(rings, v.ringId), RESOURCE_QUORUM, v))
  {
    SeenFrom(rings, service, infos, v.id);
    var k :| 0 <= k < |infos| && infos[k] == v;
    forall i | 0 <= i < |infos| && infos[i].id == v.id
      ensures infos[i] == v
    {
      assert (infos + more)[i] == infos[i] && (infos + more)[k] == v;
    }
  }

  /** What a server keeps of a volume is settled by the first sight of its id, whatever it sees afterwards. */
  lemma {:induction false} FirstSightDecides(
      rings: map<nat, RingInfo>, service: string, infos: seq<VolumeInfo>, more: seq<VolumeInfo>, id: nat)
    requires id in SeenAll(rings, service, infos)
    ensures id in SeenAll(rings, service, infos + more)
    ensures SeenAll(rings, service, infos + more)[id] == SeenAll(rings, service, infos)[id]
  {
    if more == [] {
      assert infos + more == infos;
    } else {
      var n := |more| - 1;
      FirstSightDecides(rings, service, infos, more[..n], id);
      assert (infos + more)[..|infos + more| - 1] == infos + more[..n];
    }
  }

  // ---------- from the config service to the servers ----------

  lemma {:induction false} AcceptedHaveRings(replicaFactor: nat, events: seq<Event>)
    requires replicaFactor > 0 && InOrder(START, replicaFactor, events)
    ensures
      var s := Run(START, replicaFactor, events);
      forall i | 0 <= i < |s.accepted| :: s.accepted[i].ringId in s.m.rings
  {
    if events != [] {
      var front := events[..|events| - 1];
      AcceptedHaveRings(replicaFactor, front);
      var last := events[|events| - 1];
      VolumeFindsItsRing(replicaFactor, front, if last.VolumeRequested? then last.name else "");
      AcceptedStep(Run(START, replicaFactor, front), replicaFactor, events[|events| - 1]);
    }
  }

  lemma {:induction false} AcceptedStep(s: System, replicaFactor: nat, e: Event)
    requires forall i | 0 <= i < |s.accepted| :: s.accepted[i].ringId in s.m.rings
    requires e.VolumeRequested? ==>
               var volume := ResourceRequested(s.m, e.name).2;
               volume.Some? ==> volume.value.ringId in s.m.rings
    ensures
      var s' := Step(s, replicaFactor, e);
      forall i | 0 <= i < |s'.accepted| :: s'.accepted[i].ringId in s'.m.rings
  {
    var s' := Step(s, replicaFactor, e);
    assert s.m.rings.Keys <= s'.m.rings.Keys;
    if e.VolumeRequested? && ResourceRequested(s.m, e.name).2.Some? {
      assert s'.accepted == s.accepted + [ResourceRequested(s.m, e.name).2.value];
    } else {
      assert s'.accepted == s.accepted;
    }
  }

  /**
   * Every volume that the config service accepts is hosted, by the servers that hold its ring table and have heard
   * of the volume, exactly by the members of the ring it was assigned to: the services that arrived in that
   * ring's turn, `replicaFactor` of them.
   */
  lemma {:induction false} HostedInItsTurn(
      replicaFactor: nat, events: seq<Event>, service: string, infos: seq<VolumeInfo>, v: VolumeInfo)
    requires replicaFactor > 0 && InOrder(START, replicaFactor, events)
    requires v in infos && forall x | x in infos :: x in Run(START, replicaFactor, events).accepted
    ensures
      var s := Run(START, replicaFactor, events);
      && v.ringId < |s.formed| && |s.formed[v.ringId].memberIds| == replicaFactor
      && (v.id in SeenAll(s.m.rings, service, infos) <==> service in s.formed[v.ringId].memberIds)
  {
    RunKeeps(replicaFactor, events);
    AcceptedHaveRings(replicaFactor, events);
    var s := Run(START, replicaFactor, events);
    var none: seq<VolumeInfo> := [];
    assert infos + none == infos;
    forall i, j | 0 <= i < |infos| && 0 <= j < |infos| && infos[i].id == infos[j].id
      ensures infos[i] == infos[j]
    {
      assert infos[i] in s.accepted && infos[j] in s.accepted;
    }
    HostsIfMember(s.m.rings, service, infos, none, v);
    assert v in s.accepted;
  }
}
