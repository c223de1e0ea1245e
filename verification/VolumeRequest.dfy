/**
 * Which requests for a volume are granted: for one request on what the config service has in its tables, and over its
 * runs (src/configservice/ConfigService.cpp).
 */
module VolumeRequests {
  import opened Common
  import opened Placement

  /** Exactly which answer a request gets, by the rings and the volumes in the tables. */
  lemma {:induction false} RequestAnswerIff(m: Manager, name: string)
    ensures
      var (m', status, volume) := ResourceRequested(m, name);
      var used := exists id :: id in m.resources && m.resources[id].name == name;
      && (status == Invalid <==> m.rings == map[])
      && (status == DuplicateVolume <==> m.rings != map[] && used)
      && (status == Ok <==> m.rings != map[] && !used)
      && (volume.Some? <==> status == Ok)
      && (status != Ok ==> m' == m)
      && (status == Ok ==> volume.value.name == name && m' == m.(nextResourceId := m.nextResourceId + 1))
  {
    assert |m.rings| == 0 <==> m.rings == map[];
  }

  /**
   * In a run in which no request finds a creation of its name outstanding, a request like those is granted exactly if
   * there is a ring and no current volume has the name: a name is free as long as nobody has it.
   */
  lemma {:induction false} FreeNameGrantedIff(replicaFactor: nat, events: seq<Event>, name: string)
    requires replicaFactor > 0 && Serialized(replicaFactor, events + [VolumeRequested(name)])
    ensures Inv(Run(START, replicaFactor, events), replicaFactor)
    ensures
      var s := Run(START, replicaFactor, events);
      ResourceRequested(s.m, name).1 == Ok <==>
      s.m.rings != map[] && forall id: nat | Current(s, id) :: s.accepted[id].name != name
  {
    var s := Run(START, replicaFactor, events);
    var all := events + [VolumeRequested(name)];
    assert all[..|all| - 1] == events;
    RunKeeps(replicaFactor, events);
    assert !NameUnderway(s, name);
    RequestAnswerIff(s.m, name);
    if id :| id in s.m.resources && s.m.resources[id].name == name {
      assert Current(s, id);
    }
    if id: nat :| Current(s, id) && s.accepted[id].name == name {
      assert id in s.m.resources;
    }
  }

  /** A name is free again when its creation has failed, and taken when it has completed. */
  lemma {:induction false} FailedCreationFreesName(replicaFactor: nat, events: seq<Event>, name: string)
    requires replicaFactor > 0
    requires ResourceRequested(Run(START, replicaFactor, events).m, name).1 == Ok
    ensures
      var s := Run(START, replicaFactor, events);
      var id := |s.accepted|;
      var failed := Step(Step(s, replicaFactor, VolumeRequested(name)), replicaFactor, VolumeCreateFailed(id));
      var created := Step(Step(s, replicaFactor, VolumeRequested(name)), replicaFactor, VolumeCreated(id));
      && !Current(failed, id) && ResourceRequested(failed.m, name).1 == Ok
      && Current(created, id) && ResourceRequested(created.m, name).1 == DuplicateVolume
  {
    var s := Run(START, replicaFactor, events);
    RunKeeps(replicaFactor, events);
    var id := |s.accepted|;
    var asked := Step(s, replicaFactor, VolumeRequested(name));
    assert asked.accepted[id].name == name && id in asked.creatingResources;
    var created := Step(asked, replicaFactor, VolumeCreated(id));
    assert created.m.resources[id].name == name;
    RequestAnswerIff(created.m, name);
    RequestAnswerIff(Step(asked, replicaFactor, VolumeCreateFailed(id)).m, name);
    RequestAnswerIff(s.m, name);
  }
}
