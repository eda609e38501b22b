/**
 * The EC2 side of the script (`Ec2Manager` in ec2.py). The replies of
 * `describe_instances` and `describe_instance_types` are inputs; a
 * `ClientError` is a constructor of the reply. Terminating an instance is
 * recorded as a call, not performed.
 */
module Ec2 {
  import opened Wrappers

  const RUNNING := "running"
  const STOPPED := "stopped"

  /** One entry of an instance's `Tags` list. */
  datatype Tag = Tag(key: string, value: string)

  /** The part of a `describe_instances` instance dictionary the script reads. */
  datatype Instance = Instance(
    instanceId: string,
    stateName: string,
    privateIpAddress: string,
    publicIpAddress: string,
    tags: seq<Tag>)

  datatype Reservation = Reservation(instances: seq<Instance>)

  /** The reply of `describe_instances`, or the `ClientError` it raised. */
  datatype DescribeInstancesReply =
    | Reservations(reservations: seq<Reservation>)
    | DescribeInstancesError

  /** The dictionary `list_instances` builds for each kept instance. */
  datatype InstanceRecord = InstanceRecord(instanceId: string, instanceState: string, instance: Instance)

  /** One entry of `describe_instance_types`' `InstanceTypes`. */
  datatype InstanceTypeInfo = InstanceTypeInfo(instanceType: string, sizeInMiB: nat)

  /** The reply of `describe_instance_types`, or the `ClientError` it raised. */
  datatype DescribeTypesReply =
    | InstanceTypes(types: seq<InstanceTypeInfo>)
    | DescribeTypesError

  datatype Ec2Call = TerminateInstance(instanceId: string)

  predicate IsListed(x: Instance)
  {
    x.stateName == RUNNING || x.stateName == STOPPED
  }

  function RecordOf(x: Instance): InstanceRecord
  {
    InstanceRecord(x.instanceId, x.stateName, x)
  }

  /** The records kept from a list of instances, in order. */
  function ListedIn(xs: seq<Instance>): seq<InstanceRecord>
  {
    if xs == [] then []
    else ListedIn(xs[..|xs| - 1]) + (if IsListed(xs[|xs| - 1]) then [RecordOf(xs[|xs| - 1])] else [])
  }

  /** The records kept across reservations, in order. */
  function ListedFrom(rs: seq<Reservation>): seq<InstanceRecord>
  {
    if rs == [] then [] else ListedFrom(rs[..|rs| - 1]) + ListedIn(rs[|rs| - 1].instances)
  }

  /** What `list_instances` returns for a reply. */
  function Listed(reply: DescribeInstancesReply): seq<InstanceRecord>
  {
    match reply
    case Reservations(rs) => ListedFrom(rs)
    case DescribeInstancesError => []
  }

  /** Every instance of every reservation, in order. */
  function AllInstances(rs: seq<Reservation>): seq<Instance>
  {
    if rs == [] then [] else AllInstances(rs[..|rs| - 1]) + rs[|rs| - 1].instances
  }

  /**
   * `list_instances`: walk the reservations and their instances, keep the
   * running and stopped ones, wrap each in a record. A `ClientError` gives [].
   */
  method ListInstances(reply: DescribeInstancesReply) returns (instances: seq<InstanceRecord>)
    ensures instances == Listed(reply)
  {
    instances := [];
    if reply.DescribeInstancesError? {
      return;
    }
    var rs := reply.reservations;
    for r := 0 to |rs|
      invariant instances == ListedFrom(rs[..r])
    {
      var xs := rs[r].instances;
      for j := 0 to |xs|
        invariant instances == ListedFrom(rs[..r]) + ListedIn(xs[..j])
      {
        assert xs[..j + 1][..j] == xs[..j];
        if xs[j].stateName in [RUNNING, STOPPED] {
          instances := instances + [RecordOf(xs[j])];
        }
      }
      assert xs[..|xs|] == xs;
      assert rs[..r + 1][..r] == rs[..r];
    }
    assert rs[..|rs|] == rs;
  }

  /** Each kept record is running or stopped and repeats its instance's id and state. */
  predicate WellFormed(rec: InstanceRecord)
  {
    && (rec.instanceState == RUNNING || rec.instanceState == STOPPED)
    && rec.instanceId == rec.instance.instanceId
    && rec.instanceState == rec.instance.stateName
  }

  lemma {:induction false} ListedInSpec(xs: seq<Instance>)
    ensures forall rec :: rec in ListedIn(xs) ==> WellFormed(rec)
    ensures forall x :: RecordOf(x) in ListedIn(xs) <==> x in xs && IsListed(x)
    decreases |xs|
  {
    if xs != [] {
      var init := xs[..|xs| - 1];
      ListedInSpec(init);
      assert xs == init + [xs[|xs| - 1]];
    }
  }

  /**
   * `list_instances` keeps exactly the running and stopped instances of the
   * reply, and each record carries the wrapped instance's id and state.
   */
  lemma {:induction false} ListedSpec(rs: seq<Reservation>)
    ensures forall rec :: rec in ListedFrom(rs) ==> WellFormed(rec)
    ensures forall x :: RecordOf(x) in ListedFrom(rs) <==> x in AllInstances(rs) && IsListed(x)
    decreases |rs|
  {
    if rs != [] {
      ListedSpec(rs[..|rs| - 1]);
      ListedInSpec(rs[|rs| - 1].instances);
    }
  }

  /** `[i["InstanceId"] for i in instances if i["InstanceState"] == status]` */
  function IdsWithState(records: seq<InstanceRecord>, status: string): seq<string>
  {
    if records == [] then []
    else (if records[0].instanceState == status then [records[0].instanceId] else [])
         + IdsWithState(records[1..], status)
  }

  /** An id is selected exactly when some record with that state carries it. */
  lemma {:induction false} IdsWithStateMembership(records: seq<InstanceRecord>, status: string, id: string)
    ensures id in IdsWithState(records, status) <==>
            exists k :: 0 <= k < |records| && records[k].instanceState == status && records[k].instanceId == id
    decreases |records|
  {
    if records != [] {
      IdsWithStateMembership(records[1..], status, id);
      if id in IdsWithState(records[1..], status) {
        var k :| 0 <= k < |records[1..]| && records[1..][k].instanceState == status && records[1..][k].instanceId == id;
        assert records[k + 1] == records[1..][k];
      }
      forall k | 0 <= k < |records| && records[k].instanceState == status && records[k].instanceId == id
        ensures id in IdsWithState(records, status)
      {
        if k > 0 { assert records[1..][k - 1] == records[k]; }
      }
    }
  }

  /** No record has a state other than running or stopped, so other statuses select nothing. */
  lemma {:induction false} IdsOfUnlistedState(records: seq<InstanceRecord>, status: string)
    requires forall k :: 0 <= k < |records| ==> WellFormed(records[k])
    requires status != RUNNING && status != STOPPED
    ensures IdsWithState(records, status) == []
    decreases |records|
  {
    if records != [] {
      IdsOfUnlistedState(records[1..], status);
    }
  }

  /** `get_instance_ids(status)`: the ids of the listed instances in that state, in order. */
  method GetInstanceIds(reply: DescribeInstancesReply, status: string) returns (ids: seq<string>)
    ensures ids == IdsWithState(Listed(reply), status)
    ensures status != RUNNING && status != STOPPED ==> ids == []
  {
    var instances := ListInstances(reply);
    ids := IdsWithState(instances, status);
    if reply.Reservations? {
      ListedSpec(reply.reservations);
    }
    if status != RUNNING && status != STOPPED {
      IdsOfUnlistedState(instances, status);
    }
  }

  /** `terminate_all`: one `terminate_instance` call per running id, in listing order. */
  method TerminateAll(reply: DescribeInstancesReply) returns (calls: seq<Ec2Call>)
    ensures |calls| == |IdsWithState(Listed(reply), RUNNING)|
    ensures forall k :: 0 <= k < |calls| ==> calls[k] == TerminateInstance(IdsWithState(Listed(reply), RUNNING)[k])
  {
    var ids := GetInstanceIds(reply, RUNNING);
    calls := [];
    for k := 0 to |ids|
      invariant |calls| == k
      invariant forall j :: 0 <= j < k ==> calls[j] == TerminateInstance(ids[j])
    {
      calls := calls + [TerminateInstance(ids[k])];
    }
  }

  /** Every terminated id belongs to a running listed instance, and every running listed instance is terminated. */
  lemma TerminatesExactlyRunning(reply: DescribeInstancesReply, id: string)
    ensures id in IdsWithState(Listed(reply), RUNNING) <==>
            exists k :: 0 <= k < |Listed(reply)| && Listed(reply)[k].instanceState == RUNNING && Listed(reply)[k].instanceId == id
  {
    IdsWithStateMembership(Listed(reply), RUNNING, id);
  }

  /** The memory table `get_memory_of_instances` fills: later entries overwrite earlier ones. */
  function MemoryTable(types: seq<InstanceTypeInfo>): map<string, nat>
  {
    if types == [] then map[]
    else MemoryTable(types[..|types| - 1])[types[|types| - 1].instanceType := types[|types| - 1].sizeInMiB]
  }

  /** What `get_memory_of_instances` returns; `None` stands for the error raised when the reply is missing. */
  function MemoryOf(reply: DescribeTypesReply): Option<map<string, nat>>
  {
    match reply
    case InstanceTypes(types) => Some(MemoryTable(types))
    case DescribeTypesError => None
  }

  /** The table's keys are exactly the type names of the reply. */
  lemma {:induction false} MemoryTableKeys(types: seq<InstanceTypeInfo>)
    ensures MemoryTable(types).Keys == set k | 0 <= k < |types| :: types[k].instanceType
    decreases |types|
  {
    if types != [] {
      var n := |types| - 1;
      var init := types[..n];
      MemoryTableKeys(init);
      var names := set k | 0 <= k < |types| :: types[k].instanceType;
      var initNames := set k | 0 <= k < |init| :: init[k].instanceType;
      assert names == initNames + {types[n].instanceType} by {
        forall name | name in names ensures name in initNames + {types[n].instanceType} {
          var k :| 0 <= k < |types| && types[k].instanceType == name;
          if k < n { assert init[k] == types[k]; }
        }
        forall name | name in initNames ensures name in names {
          var k :| 0 <= k < |init| && init[k].instanceType == name;
          assert types[k] == init[k];
        }
      }
    }
  }

  /** Each type name maps to the size of its LAST entry in the reply. */
  lemma {:induction false} MemoryTableLastWins(types: seq<InstanceTypeInfo>, name: string)
    requires name in MemoryTable(types)
    ensures exists k :: 0 <= k < |types| && types[k].instanceType == name
                        && MemoryTable(types)[name] == types[k].sizeInMiB
                        && forall j :: k < j < |types| ==> types[j].instanceType != name
    decreases |types|
  {
    var n := |types| - 1;
    var init := types[..n];
    if name == types[n].instanceType {
      assert types[n].instanceType == name && MemoryTable(types)[name] == types[n].sizeInMiB;
    } else {
      MemoryTableLastWins(init, name);
      var k :| 0 <= k < |init| && init[k].instanceType == name
               && MemoryTable(init)[name] == init[k].sizeInMiB
               && forall j :: k < j < |init| ==> init[j].instanceType != name;
      assert types[k] == init[k];
      forall j | k < j < |types| ensures types[j].instanceType != name {
        if j < n { assert types[j] == init[j]; }
      }
    }
  }

  /** `get_memory_of_instances`: fill a dictionary from the reply's `InstanceTypes`. */
  method GetMemoryOfInstances(reply: DescribeTypesReply) returns (memory: Option<map<string, nat>>)
    ensures memory == MemoryOf(reply)
  {
    if reply.DescribeTypesError? {
      return None;
    }
    var types := reply.types;
    var table := map[];
    for k := 0 to |types|
      invariant table == MemoryTable(types[..k])
    {
      assert types[..k + 1][..k] == types[..k];
      table := table[types[k].instanceType := types[k].sizeInMiB];
    }
    assert types[..|types|] == types;
    memory := Some(table);
  }

  /**
   * `get_public_ip`: the public address of the first running listed
   * instance, or `None` when none is running.
   */
  method GetPublicIp(reply: DescribeInstancesReply) returns (ip: Option<string>)
    ensures var records := Listed(reply);
            ip.None? <==> forall k :: 0 <= k < |records| ==> records[k].instanceState != RUNNING
    ensures var records := Listed(reply);
            ip.Some? ==> exists k :: 0 <= k < |records| && records[k].instanceState == RUNNING
                                     && ip.value == records[k].instance.publicIpAddress
                                     && forall j :: 0 <= j < k ==> records[j].instanceState != RUNNING
  {
    var instances := ListInstances(reply);
    for k := 0 to |instances|
      invariant forall j :: 0 <= j < k ==> instances[j].instanceState != RUNNING
    {
      if instances[k].instanceState == RUNNING {
        return Some(instances[k].instance.publicIpAddress);
      }
    }
    return None;
  }
}
