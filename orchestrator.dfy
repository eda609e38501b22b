/**
 * `create_opensearch_cluster` in main.py: discover the tagged instances,
 * render `jvm.options` and `opensearch.yml`, upload them with `launch.sh` to
 * every public address and run the launch script on every distinct host.
 * The run is an action trace: written files, SSH connections, uploads and
 * remote commands. Environment values, the cloud's replies and which hosts
 * refuse the SSH session are inputs.
 */
module Orchestrator {
  import opened Wrappers
  import opened PyStr
  import opened Ec2
  import opened Util
  import opened Topology
  import opened Render

  const DEFAULT_REGION := "us-east-1"
  const DEFAULT_PREFIX := "opensearch"
  const DEFAULT_ROOT_DIR := "/home/ubuntu"
  const SSH_USER := "ubuntu"
  const LAUNCH_SCRIPT := "launch.sh"

  /** The environment variables the run reads (`None` when unset), the login name and the home directory. */
  datatype Environment = Environment(
    awsRegion: Option<string>,
    instanceNamePrefix: Option<string>,
    instanceType: string,
    rootDir: Option<string>,
    clusterBaseDir: Option<string>,
    adminPassword: Option<string>,
    nodeRoles: Option<string>,
    pemFile: Option<string>,
    user: string,
    home: string)

  /** What the outside world answers: the credential check, the two describe calls, and the hosts whose SSH session fails. */
  datatype Cloud = Cloud(
    credentialsValid: bool,
    instances: DescribeInstancesReply,
    types: DescribeTypesReply,
    unreachable: set<string>)

  /** The contents of `resources/jvm.options.bak` and `resources/opensearch.yml`. */
  datatype Templates = Templates(jvmOptions: string, openSearchYml: string)

  /** An `SshClient`: the host, user and key file it was opened with. */
  datatype Session = Session(host: string, user: string, keyFile: string)

  datatype Action =
    | WriteFile(path: string, content: string)
    | Connect(host: string, user: string, keyFile: string)
    | Upload(host: string, localPath: string, remotePath: string)
    | Execute(host: string, command: string)

  /**
   * Why a run ended early. `CredentialsInvalid` is the silent early return;
   * the others stand for the exception Python raises at that point.
   */
  datatype RunError =
    | CredentialsInvalid
    | NoTaggedInstances
    | MemoryLookupFailed
    | RolesUnset
    | HostUnreachable(host: string)

  datatype Run = Run(actions: seq<Action>, error: Option<RunError>)

  /** `os.getenv(name, default)` */
  function GetEnv(value: Option<string>, default: string): string
  {
    match value
    case Some(v) => v
    case None => default
  }

  /** How an f-string writes a value read with `os.getenv(name)`: `None` when unset. */
  function Formatted(value: Option<string>): string
  {
    match value
    case Some(v) => v
    case None => "None"
  }

  function Region(env: Environment): string
  {
    GetEnv(env.awsRegion, DEFAULT_REGION)
  }

  /** `f"{root_dir}/{cluster_base_dir}"` */
  function ClusterDir(env: Environment): string
  {
    GetEnv(env.rootDir, DEFAULT_ROOT_DIR) + "/" + Formatted(env.clusterBaseDir)
  }

  function KeyFile(env: Environment): string
  {
    FullPemFilePath(env.user, Region(env), env.home, env.pemFile)
  }

  /** Opening the session to one public address and its three uploads. */
  function HostUploads(ip: string, dir: string, keyFile: string): seq<Action>
  {
    [ Connect(ip, SSH_USER, keyFile),
      Upload(ip, TargetFilename(JVM_TEMPLATE), dir + "/config/jvm.options"),
      Upload(ip, TargetFilename(YML_TEMPLATE), dir + "/config/opensearch.yml"),
      Upload(ip, LAUNCH_SCRIPT, dir + "/" + LAUNCH_SCRIPT) ]
  }

  /** The first loop: `HostUploads` for every public address, duplicates included. */
  function UploadPhase(ips: seq<string>, dir: string, keyFile: string): seq<Action>
  {
    if ips == [] then []
    else UploadPhase(ips[..|ips| - 1], dir, keyFile) + HostUploads(ips[|ips| - 1], dir, keyFile)
  }

  /** The two commands run on one host. */
  function HostLaunch(host: string, dir: string, password: string): seq<Action>
  {
    [ Execute(host, "chmod +x " + dir + "/" + LAUNCH_SCRIPT),
      Execute(host, "bash " + dir + "/" + LAUNCH_SCRIPT + " -s -- " + password) ]
  }

  /** The second loop: `HostLaunch` for every host of the `ssh_clients` dictionary. */
  function LaunchPhase(hosts: seq<string>, dir: string, password: string): seq<Action>
  {
    if hosts == [] then []
    else LaunchPhase(hosts[..|hosts| - 1], dir, password) + HostLaunch(hosts[|hosts| - 1], dir, password)
  }

  /** The keys of a dictionary filled in this order: a key keeps the place of its first insertion. */
  function InsertionOrder(xs: seq<string>): seq<string>
  {
    if xs == [] then []
    else
      var keys := InsertionOrder(xs[..|xs| - 1]);
      if xs[|xs| - 1] in keys then keys else keys + [xs[|xs| - 1]]
  }

  /** The index of the first address whose session fails, or the length when none does. */
  function FirstUnreachable(ips: seq<string>, unreachable: set<string>): (k: nat)
    ensures k <= |ips|
    ensures forall j :: 0 <= j < k ==> ips[j] !in unreachable
    ensures k < |ips| ==> ips[k] in unreachable
  {
    if ips == [] || ips[0] in unreachable then 0
    else 1 + FirstUnreachable(ips[1..], unreachable)
  }

  /** Delivery and launch: stops, without launching anything, at the first host whose session fails. */
  function Deliver(ips: seq<string>, unreachable: set<string>, dir: string, keyFile: string, password: string): Run
  {
    var k := FirstUnreachable(ips, unreachable);
    if k < |ips| then Run(UploadPhase(ips[..k], dir, keyFile), Some(HostUnreachable(ips[k])))
    else Run(UploadPhase(ips, dir, keyFile) + LaunchPhase(InsertionOrder(ips), dir, password), None)
  }

  /** `get_jvm_file(min(memory, MAX_MEMORY))`: the rendered heap options. */
  function HeapFile(templates: Templates, gib: nat): Action
  {
    WriteFile(TargetFilename(JVM_TEMPLATE), RenderJvm(templates.jvmOptions, gib))
  }

  /** `get_yml_file(...)`: the rendered node configuration. */
  function ConfigFile(env: Environment, templates: Templates, privateIps: seq<string>, roles: seq<string>): Action
    requires |privateIps| > 0
  {
    WriteFile(TargetFilename(YML_TEMPLATE),
              RenderYml(templates.openSearchYml, ConfigureInternalManagerIp(privateIps), |privateIps|, Region(env), roles))
  }

  /**
   * The run up to writing the two rendered files, once credentials are valid
   * and the tagged instances are known.
   */
  function Prepare(env: Environment, cloud: Cloud, templates: Templates, tagged: seq<InstanceRecord>): Run
  {
    var privateIps := GetIps(tagged, true, false).value;
    if |privateIps| == 0 then Run([], Some(NoTaggedInstances))
    else
      var memory := MemoryLookup(cloud.types, env.instanceType);
      if memory.None? then Run([], Some(MemoryLookupFailed))
      else
        var jvm := HeapFile(templates, if memory.value < MAX_MEMORY then memory.value else MAX_MEMORY);
        var roles := GetOsRoles(env.nodeRoles);
        if roles.None? then Run([jvm], Some(RolesUnset))
        else Run([jvm, ConfigFile(env, templates, privateIps, roles.value)], None)
  }

  /** Preparing writes at most the two files and never reaches the delivery failure. */
  lemma PrepareWritesOnly(env: Environment, cloud: Cloud, templates: Templates, tagged: seq<InstanceRecord>)
    ensures var prepared := Prepare(env, cloud, templates, tagged);
            && (prepared.error.None? ==> |prepared.actions| == 2)
            && (prepared.error.Some? ==> |prepared.actions| <= 1 && !prepared.error.value.HostUnreachable?)
            && forall i :: 0 <= i < |prepared.actions| ==> prepared.actions[i].WriteFile?
  {
  }

  /** The run once credentials are valid and the tagged instances are known. */
  function BringUp(env: Environment, cloud: Cloud, templates: Templates, tagged: seq<InstanceRecord>): Run
  {
    var prepared := Prepare(env, cloud, templates, tagged);
    if prepared.error.Some? then prepared
    else
      var publicIps := GetIps(tagged, false, true).value;
      var delivered := Deliver(publicIps, cloud.unreachable, ClusterDir(env), KeyFile(env), Formatted(env.adminPassword));
      Run(prepared.actions + delivered.actions, delivered.error)
  }

  /** The whole of `create_opensearch_cluster`. */
  function ClusterRun(env: Environment, cloud: Cloud, templates: Templates): Run
  {
    if !cloud.credentialsValid then Run([], Some(CredentialsInvalid))
    else BringUp(env, cloud, templates, Tagged(Listed(cloud.instances), GetEnv(env.instanceNamePrefix, DEFAULT_PREFIX)))
  }

  /** The position of the first occurrence of `x` in `xs`. */
  function FirstIndex(xs: seq<string>, x: string): (k: nat)
    requires x in xs
    ensures k < |xs| && xs[k] == x && forall j :: 0 <= j < k ==> xs[j] != x
  {
    if xs[0] == x then 0 else 1 + FirstIndex(xs[1..], x)
  }

  /**
   * The dictionary's keys are the addresses without repetition, in the order
   * of their first occurrence.
   */
  lemma {:induction false} InsertionOrderSpec(xs: seq<string>)
    ensures forall x :: x in InsertionOrder(xs) <==> x in xs
    ensures forall i, j :: 0 <= i < j < |InsertionOrder(xs)| ==> InsertionOrder(xs)[i] != InsertionOrder(xs)[j]
    ensures forall i, j :: 0 <= i < j < |InsertionOrder(xs)| ==>
              FirstIndex(xs, InsertionOrder(xs)[i]) < FirstIndex(xs, InsertionOrder(xs)[j])
    decreases |xs|
  {
    if xs != [] {
      var init := xs[..|xs| - 1];
      var last := xs[|xs| - 1];
      InsertionOrderSpec(init);
      var keys := InsertionOrder(init);
      assert xs == init + [last];
      forall x | x in init ensures FirstIndex(xs, x) == FirstIndex(init, x) {
        var k := FirstIndex(init, x);
        assert xs[k] == x;
      }
      if last !in keys {
        assert last !in init;
        assert FirstIndex(xs, last) == |init|;
      }
    }
  }

  /** No action of the upload phase runs a command. */
  lemma {:induction false} UploadPhaseRunsNothing(ips: seq<string>, dir: string, keyFile: string)
    ensures |UploadPhase(ips, dir, keyFile)| == 4 * |ips|
    ensures forall i :: 0 <= i < |UploadPhase(ips, dir, keyFile)| ==> !UploadPhase(ips, dir, keyFile)[i].Execute?
    decreases |ips|
  {
    if ips != [] {
      UploadPhaseRunsNothing(ips[..|ips| - 1], dir, keyFile);
    }
  }

  /** Each address gets its session and three uploads, in address order. */
  lemma {:induction false} UploadPhaseAt(ips: seq<string>, dir: string, keyFile: string)
    ensures |UploadPhase(ips, dir, keyFile)| == 4 * |ips|
    ensures forall k :: 0 <= k < |ips| ==> UploadPhase(ips, dir, keyFile)[4 * k..4 * k + 4] == HostUploads(ips[k], dir, keyFile)
    decreases |ips|
  {
    if ips != [] {
      var init := ips[..|ips| - 1];
      UploadPhaseAt(init, dir, keyFile);
      var whole := UploadPhase(ips, dir, keyFile);
      var front := UploadPhase(init, dir, keyFile);
      forall k | 0 <= k < |ips| ensures whole[4 * k..4 * k + 4] == HostUploads(ips[k], dir, keyFile) {
        if k < |init| {
          assert whole[4 * k..4 * k + 4] == front[4 * k..4 * k + 4];
          assert ips[k] == init[k];
        }
      }
    }
  }

  /** Every action of the launch phase runs a command; each host gets its two commands, in host order. */
  lemma {:induction false} LaunchPhaseAt(hosts: seq<string>, dir: string, password: string)
    ensures |LaunchPhase(hosts, dir, password)| == 2 * |hosts|
    ensures forall i :: 0 <= i < |LaunchPhase(hosts, dir, password)| ==> LaunchPhase(hosts, dir, password)[i].Execute?
    ensures forall k :: 0 <= k < |hosts| ==> LaunchPhase(hosts, dir, password)[2 * k..2 * k + 2] == HostLaunch(hosts[k], dir, password)
    decreases |hosts|
  {
    if hosts != [] {
      var init := hosts[..|hosts| - 1];
      LaunchPhaseAt(init, dir, password);
      var whole := LaunchPhase(hosts, dir, password);
      var front := LaunchPhase(init, dir, password);
      forall k | 0 <= k < |hosts| ensures whole[2 * k..2 * k + 2] == HostLaunch(hosts[k], dir, password) {
        if k < |init| {
          assert whole[2 * k..2 * k + 2] == front[2 * k..2 * k + 2];
          assert hosts[k] == init[k];
        }
      }
    }
  }

  /** On distinct hosts, each host's command is issued exactly once, and no other host's. */
  lemma {:induction false} LaunchPhaseOnce(hosts: seq<string>, dir: string, password: string, h: string, command: string)
    requires forall i, j :: 0 <= i < j < |hosts| ==> hosts[i] != hosts[j]
    requires command == "chmod +x " + dir + "/" + LAUNCH_SCRIPT || command == "bash " + dir + "/" + LAUNCH_SCRIPT + " -s -- " + password
    ensures multiset(LaunchPhase(hosts, dir, password))[Execute(h, command)] == if h in hosts then 1 else 0
    decreases |hosts|
  {
    if hosts != [] {
      var init := hosts[..|hosts| - 1];
      var last := hosts[|hosts| - 1];
      LaunchPhaseOnce(init, dir, password, h, command);
      assert hosts == init + [last];
      assert last !in init;
      assert "chmod +x " + dir + "/" + LAUNCH_SCRIPT != "bash " + dir + "/" + LAUNCH_SCRIPT + " -s -- " + password by {
        assert ("chmod +x " + dir + "/" + LAUNCH_SCRIPT)[0] == 'c';
        assert ("bash " + dir + "/" + LAUNCH_SCRIPT + " -s -- " + password)[0] == 'b';
      }
      assert multiset(LaunchPhase(hosts, dir, password))
             == multiset(LaunchPhase(init, dir, password)) + multiset(HostLaunch(last, dir, password));
    }
  }

  /** No command runs before an upload: once a command runs, only commands follow. */
  predicate CommandsLast(actions: seq<Action>)
  {
    forall i, j :: 0 <= i < j < |actions| && actions[i].Execute? ==> actions[j].Execute?
  }

  predicate RunsNoCommand(actions: seq<Action>)
  {
    forall i :: 0 <= i < |actions| ==> !actions[i].Execute?
  }

  lemma NoCommandAppend(a: seq<Action>, b: seq<Action>)
    requires RunsNoCommand(a) && RunsNoCommand(b)
    ensures RunsNoCommand(a + b)
  {
    forall i | 0 <= i < |a + b| ensures !(a + b)[i].Execute? {
      if i >= |a| { assert (a + b)[i] == b[i - |a|]; }
    }
  }

  /** Delivery never runs a command before an upload. */
  lemma DeliverCommandsLast(ips: seq<string>, unreachable: set<string>, dir: string, keyFile: string, password: string)
    ensures CommandsLast(Deliver(ips, unreachable, dir, keyFile, password).actions)
  {
    var k := FirstUnreachable(ips, unreachable);
    if k < |ips| {
      UploadPhaseRunsNothing(ips[..k], dir, keyFile);
    } else {
      UploadPhaseRunsNothing(ips, dir, keyFile);
      LaunchPhaseAt(InsertionOrder(ips), dir, password);
    }
  }

  /**
   * A failing host stops delivery: the hosts before it got their uploads,
   * and no host, not even those, is launched.
   */
  lemma DeliverStopsAtFailure(ips: seq<string>, unreachable: set<string>, dir: string, keyFile: string, password: string)
    requires Deliver(ips, unreachable, dir, keyFile, password).error.Some?
    ensures var run := Deliver(ips, unreachable, dir, keyFile, password);
            exists k :: 0 <= k < |ips| && ips[k] in unreachable && run.error.value == HostUnreachable(ips[k])
                        && (forall j :: 0 <= j < k ==> ips[j] !in unreachable)
                        && run.actions == UploadPhase(ips[..k], dir, keyFile)
                        && RunsNoCommand(run.actions)
  {
    var k := FirstUnreachable(ips, unreachable);
    UploadPhaseRunsNothing(ips[..k], dir, keyFile);
  }

  /**
   * A delivery that succeeds reached every address: it starts with the
   * uploads to all of them, and runs each of the two launch commands exactly
   * once on every distinct address and on no other host.
   */
  lemma DeliverLaunchesEachHostOnce(ips: seq<string>, unreachable: set<string>, dir: string, keyFile: string, password: string,
                                    h: string, command: string)
    requires Deliver(ips, unreachable, dir, keyFile, password).error.None?
    requires command == "chmod +x " + dir + "/" + LAUNCH_SCRIPT || command == "bash " + dir + "/" + LAUNCH_SCRIPT + " -s -- " + password
    ensures var run := Deliver(ips, unreachable, dir, keyFile, password);
            && (forall j :: 0 <= j < |ips| ==> ips[j] !in unreachable)
            && UploadPhase(ips, dir, keyFile) <= run.actions
            && multiset(run.actions)[Execute(h, command)] == if h in ips then 1 else 0
  {
    var run := Deliver(ips, unreachable, dir, keyFile, password);
    var uploads := UploadPhase(ips, dir, keyFile);
    var hosts := InsertionOrder(ips);
    var launches := LaunchPhase(hosts, dir, password);
    assert run.actions == uploads + launches;
    UploadPhaseRunsNothing(ips, dir, keyFile);
    InsertionOrderSpec(ips);
    LaunchPhaseOnce(hosts, dir, password, h, command);
    assert Execute(h, command) !in uploads;
    assert multiset(run.actions) == multiset(uploads) + multiset(launches);
  }

  /** The instances the run works on: listed instances with a matching `Name` tag. */
  function TaggedInstances(env: Environment, cloud: Cloud): seq<InstanceRecord>
  {
    Tagged(Listed(cloud.instances), GetEnv(env.instanceNamePrefix, DEFAULT_PREFIX))
  }

  /** In every run, all commands come after all file writes, connections and uploads. */
  lemma RunCommandsLast(env: Environment, cloud: Cloud, templates: Templates)
    ensures CommandsLast(ClusterRun(env, cloud, templates).actions)
  {
    if cloud.credentialsValid {
      var tagged := TaggedInstances(env, cloud);
      PrepareWritesOnly(env, cloud, templates, tagged);
      var publicIps := GetIps(tagged, false, true).value;
      DeliverCommandsLast(publicIps, cloud.unreachable, ClusterDir(env), KeyFile(env), Formatted(env.adminPassword));
    }
  }

  /** A run that fails at a host is the two writes followed by the failed delivery. */
  lemma FailedRunShape(env: Environment, cloud: Cloud, templates: Templates)
    requires ClusterRun(env, cloud, templates).error.Some? && ClusterRun(env, cloud, templates).error.value.HostUnreachable?
    ensures var tagged := TaggedInstances(env, cloud);
            var prepared := Prepare(env, cloud, templates, tagged);
            var d := Deliver(GetIps(tagged, false, true).value, cloud.unreachable, ClusterDir(env), KeyFile(env), Formatted(env.adminPassword));
            && cloud.credentialsValid && prepared.error.None?
            && ClusterRun(env, cloud, templates) == Run(prepared.actions + d.actions, d.error)
  {
    PrepareWritesOnly(env, cloud, templates, TaggedInstances(env, cloud));
  }

  /**
   * A host whose session fails ends the whole run: it is one of the tagged
   * public addresses, and no launch command is issued on any host.
   */
  lemma RunUnreachableLaunchesNothing(env: Environment, cloud: Cloud, templates: Templates)
    requires ClusterRun(env, cloud, templates).error.Some? && ClusterRun(env, cloud, templates).error.value.HostUnreachable?
    ensures var run := ClusterRun(env, cloud, templates);
            && run.error.value.host in cloud.unreachable
            && (exists rec :: rec in TaggedInstances(env, cloud) && rec.instance.publicIpAddress == run.error.value.host)
            && RunsNoCommand(run.actions)
  {
    var run := ClusterRun(env, cloud, templates);
    var tagged := TaggedInstances(env, cloud);
    var prepared := Prepare(env, cloud, templates, tagged);
    PrepareWritesOnly(env, cloud, templates, tagged);
    var publicIps := GetIps(tagged, false, true).value;
    var d := Deliver(publicIps, cloud.unreachable, ClusterDir(env), KeyFile(env), Formatted(env.adminPassword));
    FailedRunShape(env, cloud, templates);
    DeliverStopsAtFailure(publicIps, cloud.unreachable, ClusterDir(env), KeyFile(env), Formatted(env.adminPassword));
    var k :| 0 <= k < |publicIps| && publicIps[k] in cloud.unreachable && d.error.value == HostUnreachable(publicIps[k])
             && RunsNoCommand(d.actions);
    assert tagged[k] in tagged && tagged[k].instance.publicIpAddress == publicIps[k];
    NoCommandAppend(prepared.actions, d.actions);
  }

  /** A completed run is the two writes followed by a completed delivery. */
  lemma CompletedRunShape(env: Environment, cloud: Cloud, templates: Templates)
    requires ClusterRun(env, cloud, templates).error.None?
    ensures var tagged := TaggedInstances(env, cloud);
            var prepared := Prepare(env, cloud, templates, tagged);
            var d := Deliver(GetIps(tagged, false, true).value, cloud.unreachable, ClusterDir(env), KeyFile(env), Formatted(env.adminPassword));
            && cloud.credentialsValid && prepared.error.None? && d.error.None?
            && ClusterRun(env, cloud, templates).actions == prepared.actions + d.actions
  {
  }

  /**
   * A run that completes issues `chmod +x` and `bash ... launch.sh` exactly
   * once on each distinct public address of the tagged instances and on no
   * other host, after uploading to every one of those addresses.
   */
  lemma RunLaunchesEachHostOnce(env: Environment, cloud: Cloud, templates: Templates, h: string, command: string)
    requires ClusterRun(env, cloud, templates).error.None?
    requires command == "chmod +x " + ClusterDir(env) + "/" + LAUNCH_SCRIPT
             || command == "bash " + ClusterDir(env) + "/" + LAUNCH_SCRIPT + " -s -- " + Formatted(env.adminPassword)
    ensures var run := ClusterRun(env, cloud, templates);
            var publicIps := GetIps(TaggedInstances(env, cloud), false, true).value;
            && |run.actions| >= 2
            && UploadPhase(publicIps, ClusterDir(env), KeyFile(env)) <= run.actions[2..]
            && multiset(run.actions)[Execute(h, command)]
               == if exists rec :: rec in TaggedInstances(env, cloud) && rec.instance.publicIpAddress == h then 1 else 0
  {
    var run := ClusterRun(env, cloud, templates);
    var tagged := TaggedInstances(env, cloud);
    var prepared := Prepare(env, cloud, templates, tagged);
    PrepareWritesOnly(env, cloud, templates, tagged);
    var publicIps := GetIps(tagged, false, true).value;
    var dir, key, pw := ClusterDir(env), KeyFile(env), Formatted(env.adminPassword);
    var d := Deliver(publicIps, cloud.unreachable, dir, key, pw);
    CompletedRunShape(env, cloud, templates);
    DeliverLaunchesEachHostOnce(publicIps, cloud.unreachable, dir, key, pw, h, command);
    assert run.actions[2..] == d.actions;
    assert multiset(run.actions) == multiset(prepared.actions) + multiset(d.actions);
    assert Execute(h, command) !in prepared.actions;
    assert (exists rec :: rec in tagged && rec.instance.publicIpAddress == h) <==> h in publicIps by {
      if h in publicIps {
        var k :| 0 <= k < |publicIps| && publicIps[k] == h;
        assert tagged[k] in tagged;
      }
    }
  }

  /** The memory lookup succeeds exactly for a type listed in the reply, and yields half its GiB. */
  lemma MemoryLookupValue(reply: DescribeTypesReply, instanceType: string)
    ensures MemoryLookup(reply, instanceType).Some?
            <==> reply.InstanceTypes? && instanceType in MemoryTable(reply.types)
    ensures MemoryLookup(reply, instanceType).Some? ==>
              var gib := MemoryLookup(reply, instanceType).value;
              (if gib < MAX_MEMORY then gib else MAX_MEMORY) == HeapSize(MemoryTable(reply.types)[instanceType])
  {
  }

  /** The heap written is the clamped half of the configured type's memory. */
  lemma PrepareWritesHeap(env: Environment, cloud: Cloud, templates: Templates, tagged: seq<InstanceRecord>)
    requires |Prepare(env, cloud, templates, tagged).actions| >= 1
    ensures |tagged| > 0 && cloud.types.InstanceTypes? && env.instanceType in MemoryTable(cloud.types.types)
    ensures Prepare(env, cloud, templates, tagged).actions[0]
            == HeapFile(templates, HeapSize(MemoryTable(cloud.types.types)[env.instanceType]))
  {
    MemoryLookupValue(cloud.types, env.instanceType);
  }

  /** The configuration is rendered from the first address only, and the count of addresses. */
  lemma ConfigFileFirst(env: Environment, templates: Templates, privateIps: seq<string>, roles: seq<string>)
    requires |privateIps| > 0
    ensures ConfigFile(env, templates, privateIps, roles)
            == WriteFile("opensearch.yml_updated",
                         RenderYml(templates.openSearchYml, ConfigureInternalManagerIp([privateIps[0]]),
                                   |privateIps|, Region(env), roles))
  {
    ManagerFromFirst(privateIps);
  }

  /** The configuration written names the first instance's host and counts the instances. */
  lemma PrepareWritesTopology(env: Environment, cloud: Cloud, templates: Templates, tagged: seq<InstanceRecord>)
    requires |Prepare(env, cloud, templates, tagged).actions| >= 2
    ensures |tagged| > 0 && env.nodeRoles.Some?
    ensures Prepare(env, cloud, templates, tagged).actions[1]
            == WriteFile("opensearch.yml_updated",
                         RenderYml(templates.openSearchYml,
                                   ConfigureInternalManagerIp([tagged[0].instance.privateIpAddress]),
                                   |tagged|, Region(env), GetOsRoles(env.nodeRoles).value))
  {
    var privateIps := GetIps(tagged, true, false).value;
    ConfigFileFirst(env, templates, privateIps, GetOsRoles(env.nodeRoles).value);
  }

  /**
   * What a run writes: once the memory is known, `jvm.options.bak_updated`
   * with the clamped heap of the configured instance type; once the roles are
   * known, `opensearch.yml_updated` with the host name of the first tagged
   * instance, the number of tagged instances (one per matching `Name` tag)
   * and the role list.
   */
  lemma RunRendersConfig(env: Environment, cloud: Cloud, templates: Templates)
    ensures var run := ClusterRun(env, cloud, templates);
            var tagged := TaggedInstances(env, cloud);
            |run.actions| >= 1 ==>
              && cloud.credentialsValid && |tagged| > 0
              && cloud.types.InstanceTypes? && env.instanceType in MemoryTable(cloud.types.types)
              && run.actions[0] == HeapFile(templates, HeapSize(MemoryTable(cloud.types.types)[env.instanceType]))
    ensures var run := ClusterRun(env, cloud, templates);
            var tagged := TaggedInstances(env, cloud);
            |run.actions| >= 2 ==>
              && |tagged| > 0 && env.nodeRoles.Some?
              && run.actions[1] == WriteFile("opensearch.yml_updated",
                   RenderYml(templates.openSearchYml,
                             ConfigureInternalManagerIp([tagged[0].instance.privateIpAddress]),
                             TotalMatches(Listed(cloud.instances), GetEnv(env.instanceNamePrefix, DEFAULT_PREFIX)),
                             Region(env),
                             GetOsRoles(env.nodeRoles).value))
  {
    var run := ClusterRun(env, cloud, templates);
    if |run.actions| >= 1 {
      var tagged := TaggedInstances(env, cloud);
      var prepared := Prepare(env, cloud, templates, tagged);
      PrepareWritesOnly(env, cloud, templates, tagged);
      TaggedLength(Listed(cloud.instances), GetEnv(env.instanceNamePrefix, DEFAULT_PREFIX));
      assert cloud.credentialsValid;
      assert prepared.error.None? ==> run.actions[..2] == prepared.actions;
      assert prepared.error.Some? ==> run.actions == prepared.actions;
      PrepareWritesHeap(env, cloud, templates, tagged);
      if |run.actions| >= 2 {
        PrepareWritesTopology(env, cloud, templates, tagged);
      }
    }
  }

  /** The manager host name for a first private address of 10.0.0.5. */
  lemma ManagerScenario(privateIps: seq<string>)
    requires privateIps == ["10.0.0.5", "10.0.0.9"]
    ensures ConfigureInternalManagerIp(privateIps) == "ip-10-0-0-5"
  {
    var host := ConfigureInternalManagerIp(privateIps);
    var ip := privateIps[0];
    assert ip == "10.0.0.5";
    assert ip[0] == '1' && ip[1] == '0' && ip[2] == '.' && ip[3] == '0';
    assert ip[4] == '.' && ip[5] == '0' && ip[6] == '.' && ip[7] == '5';
    assert |host| == 11 && host[..3] == "ip-";
    assert host[0] == 'i' && host[1] == 'p' && host[2] == '-';
    assert host[3] == '1' && host[4] == '0' && host[5] == '-' && host[6] == '0';
    assert host[7] == '-' && host[8] == '0' && host[9] == '-' && host[10] == '5';
    assert host == [host[0], host[1], host[2], host[3], host[4], host[5], host[6], host[7], host[8], host[9], host[10]];
  }

  /**
   * Two nodes at 10.0.0.5 and 10.0.0.9: the manager is `ip-10-0-0-5`
   * and the storage-node count is 2.
   */
  lemma TwoNodeScenario(privateIps: seq<string>)
    requires privateIps == ["10.0.0.5", "10.0.0.9"]
    ensures ConfigureInternalManagerIp(privateIps) == "ip-10-0-0-5"
    ensures StorageLine(|privateIps|) == "node.max_local_storage_nodes: 2"
  {
    ManagerScenario(privateIps);
    assert |privateIps| == 2;
    assert DecimalString(2) == "2";
  }

  /** The delivery and launch loops over the `ssh_clients` dictionary. */
  method DeliverAndLaunch(publicIps: seq<string>, unreachable: set<string>, dir: string, keyFile: string, password: string)
    returns (run: Run)
    ensures run == Deliver(publicIps, unreachable, dir, keyFile, password)
  {
    var actions: seq<Action> := [];
    var clientOrder: seq<string> := [];
    var clients: map<string, Session> := map[];
    for i := 0 to |publicIps|
      invariant forall j :: 0 <= j < i ==> publicIps[j] !in unreachable
      invariant actions == UploadPhase(publicIps[..i], dir, keyFile)
      invariant clientOrder == InsertionOrder(publicIps[..i])
      invariant forall h :: h in clientOrder ==> h in clients && clients[h].host == h
    {
      var ip := publicIps[i];
      assert publicIps[..i + 1][..i] == publicIps[..i];
      if ip in unreachable {
        return Run(actions, Some(HostUnreachable(ip)));
      }
      var client := Session(ip, SSH_USER, keyFile);
      clients := clients[ip := client];
      if ip !in clientOrder {
        clientOrder := clientOrder + [ip];
      }
      actions := actions + HostUploads(ip, dir, keyFile);
    }
    assert publicIps[..|publicIps|] == publicIps;
    ghost var uploads := actions;
    for k := 0 to |clientOrder|
      invariant actions == uploads + LaunchPhase(clientOrder[..k], dir, password)
    {
      assert clientOrder[..k + 1][..k] == clientOrder[..k];
      var client := clients[clientOrder[k]];
      actions := actions + [ Execute(client.host, "chmod +x " + dir + "/" + LAUNCH_SCRIPT),
                             Execute(client.host, "bash " + dir + "/" + LAUNCH_SCRIPT + " -s -- " + password) ];
    }
    assert clientOrder[..|clientOrder|] == clientOrder;
    run := Run(actions, None);
  }

  /** `create_opensearch_cluster` */
  method CreateOpensearchCluster(env: Environment, cloud: Cloud, templates: Templates) returns (run: Run)
    ensures run == ClusterRun(env, cloud, templates)
  {
    if !cloud.credentialsValid {
      return Run([], Some(CredentialsInvalid));
    }
    var prefix := GetEnv(env.instanceNamePrefix, DEFAULT_PREFIX);
    var instances := ListInstances(cloud.instances);
    var justCreated := FilterByNamePrefix(instances, prefix);
    var privateIps := GetIps(justCreated, true, false).value;
    if |privateIps| == 0 {
      return Run([], Some(NoTaggedInstances));
    }
    var managerIp := ConfigureInternalManagerIp(privateIps);
    var nodeCount := |privateIps|;
    var memory := GetMemory(cloud.types, env.instanceType);
    if memory.None? {
      return Run([], Some(MemoryLookupFailed));
    }
    var heap := if memory.value < MAX_MEMORY then memory.value else MAX_MEMORY;
    var jvmWrite := WriteFile(TargetFilename(JVM_TEMPLATE), RenderJvm(templates.jvmOptions, heap));
    var roles := GetOsRoles(env.nodeRoles);
    if roles.None? {
      return Run([jvmWrite], Some(RolesUnset));
    }
    var ymlWrite := WriteFile(TargetFilename(YML_TEMPLATE),
                              RenderYml(templates.openSearchYml, managerIp, nodeCount, Region(env), roles.value));
    var publicIps := GetIps(justCreated, false, true).value;
    var delivered := DeliverAndLaunch(publicIps, cloud.unreachable, ClusterDir(env), KeyFile(env), Formatted(env.adminPassword));
    run := Run([jvmWrite, ymlWrite] + delivered.actions, delivered.error);
  }
}
