/**
 * Cluster topology as `create_opensearch_cluster` in main.py derives it:
 * the instances whose `Name` tag starts with the prefix, their addresses,
 * and the heap size from the instance type's memory.
 */
module Topology {
  import opened Wrappers
  import opened Ec2

  const NAME_KEY := "Name"
  /** `MAX_MEMORY`: the heap-size ceiling in GiB. */
  const MAX_MEMORY: nat := 32

  predicate NameTagMatches(tag: Tag, prefix: string)
  {
    tag.key == NAME_KEY && prefix <= tag.value
  }

  /** How many of the tags are a `Name` tag whose value starts with the prefix. */
  function MatchCount(tags: seq<Tag>, prefix: string): nat
  {
    if tags == [] then 0
    else MatchCount(tags[..|tags| - 1], prefix) + (if NameTagMatches(tags[|tags| - 1], prefix) then 1 else 0)
  }

  function Repeat<T>(x: T, n: nat): (r: seq<T>)
    ensures |r| == n && forall i :: 0 <= i < n ==> r[i] == x
  {
    if n == 0 then [] else Repeat(x, n - 1) + [x]
  }

  /** The filtered list: each instance, in order, once per matching tag. */
  function Tagged(records: seq<InstanceRecord>, prefix: string): seq<InstanceRecord>
  {
    if records == [] then []
    else
      var last := records[|records| - 1];
      Tagged(records[..|records| - 1], prefix) + Repeat(last, MatchCount(last.instance.tags, prefix))
  }

  /** The nested loop of main.py that builds `just_created_instances`. */
  method FilterByNamePrefix(records: seq<InstanceRecord>, prefix: string) returns (tagged: seq<InstanceRecord>)
    ensures tagged == Tagged(records, prefix)
  {
    tagged := [];
    for i := 0 to |records|
      invariant tagged == Tagged(records[..i], prefix)
    {
      var tags := records[i].instance.tags;
      for j := 0 to |tags|
        invariant tagged == Tagged(records[..i], prefix) + Repeat(records[i], MatchCount(tags[..j], prefix))
      {
        assert tags[..j + 1][..j] == tags[..j];
        if tags[j].key == NAME_KEY && prefix <= tags[j].value {
          tagged := tagged + [records[i]];
        }
      }
      assert tags[..|tags|] == tags;
      assert records[..i + 1][..i] == records[..i];
    }
    assert records[..|records|] == records;
  }

  /** An instance survives the filter exactly when it has a matching `Name` tag. */
  lemma {:induction false} TaggedMembership(records: seq<InstanceRecord>, prefix: string, rec: InstanceRecord)
    ensures rec in Tagged(records, prefix) <==> rec in records && MatchCount(rec.instance.tags, prefix) > 0
    decreases |records|
  {
    if records != [] {
      var init := records[..|records| - 1];
      TaggedMembership(init, prefix, rec);
      assert records == init + [records[|records| - 1]];
    }
  }

  /** The filter's length is the total number of matching tags over all instances. */
  function TotalMatches(records: seq<InstanceRecord>, prefix: string): nat
  {
    if records == [] then 0 else MatchCount(records[0].instance.tags, prefix) + TotalMatches(records[1..], prefix)
  }

  lemma {:induction false} TotalMatchesSnoc(records: seq<InstanceRecord>, prefix: string)
    requires records != []
    ensures TotalMatches(records, prefix)
            == TotalMatches(records[..|records| - 1], prefix) + MatchCount(records[|records| - 1].instance.tags, prefix)
    decreases |records|
  {
    if |records| > 1 {
      TotalMatchesSnoc(records[1..], prefix);
      assert records[1..][..|records[1..]| - 1] == records[..|records| - 1][1..];
    }
  }

  lemma {:induction false} TaggedLength(records: seq<InstanceRecord>, prefix: string)
    ensures |Tagged(records, prefix)| == TotalMatches(records, prefix)
    decreases |records|
  {
    if records != [] {
      TaggedLength(records[..|records| - 1], prefix);
      TotalMatchesSnoc(records, prefix);
    }
  }

  /**
   * `get_ips`: the private addresses when `is_private`, else the public ones
   * when `is_public`, else `None`.
   */
  function GetIps(records: seq<InstanceRecord>, isPrivate: bool, isPublic: bool): (ips: Option<seq<string>>)
    ensures ips.None? <==> !isPrivate && !isPublic
    ensures ips.Some? ==> |ips.value| == |records|
    ensures ips.Some? ==> forall i :: 0 <= i < |records| ==>
              ips.value[i] == if isPrivate then records[i].instance.privateIpAddress
                              else records[i].instance.publicIpAddress
  {
    if isPrivate then Some(seq(|records|, i requires 0 <= i < |records| => records[i].instance.privateIpAddress))
    else if isPublic then Some(seq(|records|, i requires 0 <= i < |records| => records[i].instance.publicIpAddress))
    else None
  }

  /** `int(memory / 1024) // 2`: half the instance memory in whole GiB. */
  function HalfGiB(mib: nat): (gib: nat)
    ensures 2048 * gib <= mib < 2048 * (gib + 1)
  {
    (mib / 1024) / 2
  }

  /** The value passed to `get_jvm_file`: `min(memory, MAX_MEMORY)`. */
  function HeapSize(mib: nat): nat
  {
    if HalfGiB(mib) < MAX_MEMORY then HalfGiB(mib) else MAX_MEMORY
  }

  /**
   * The heap size is the largest whole number of GiB, at most 32, whose
   * double fits in the instance memory; it is 0 (no guard) below 2048 MiB.
   */
  lemma HeapSizeSpec(mib: nat)
    ensures HeapSize(mib) <= MAX_MEMORY
    ensures 2048 * HeapSize(mib) <= mib
    ensures HeapSize(mib) == MAX_MEMORY || mib < 2048 * (HeapSize(mib) + 1)
    ensures HeapSize(mib) == 0 <==> mib < 2048
    ensures HeapSize(mib) == MAX_MEMORY <==> mib >= 2048 * MAX_MEMORY
  {
    var g := mib / 1024;
    assert 1024 * g <= mib < 1024 * (g + 1);
    var h := g / 2;
    assert 2 * h <= g < 2 * (h + 1);
    assert 2048 * h <= mib < 2048 * (h + 1);
  }

  /** `get_memory`: look the type up in `get_memory_of_instances`' table and halve it. */
  function MemoryLookup(reply: DescribeTypesReply, instanceType: string): Option<nat>
  {
    var table := MemoryOf(reply);
    if table.Some? && instanceType in table.value then Some(HalfGiB(table.value[instanceType])) else None
  }

  /**
   * `get_memory`. `None` stands for the exception Python raises when the
   * describe call failed or the type is not in the reply.
   */
  method GetMemory(reply: DescribeTypesReply, instanceType: string) returns (gib: Option<nat>)
    ensures gib == MemoryLookup(reply, instanceType)
  {
    var memory := GetMemoryOfInstances(reply);
    if memory.None? || instanceType !in memory.value {
      return None;
    }
    gib := Some(HalfGiB(memory.value[instanceType]));
  }
}
