# opensearch-cluster bring-up, modelled in Dafny

`opensearch-cluster` is a small provisioning script. It looks up the EC2
instances of a cluster and keeps those whose `Name` tag starts with a prefix.
It renders `jvm.options` and `opensearch.yml` from templates, then copies the
two files and `launch.sh` to every node over SSH and starts them. This
project models the deterministic part of that script:

- `Ec2Manager` (`ec2.py`): filtering of the describe-instances reply
  (`list_instances`), selection of ids by state (`get_instance_ids`), the
  termination loop (`terminate_all`), the type-to-memory table
  (`get_memory_of_instances`), and the first running instance's address
  (`get_public_ip`).
- `util.py`: the manager host name, the key-pair and key-file names, and
  the role list.
- `main.py`: the `Name`-tag filter, address projection (`get_ips`), heap
  size (`get_memory` and the `MAX_MEMORY` clamp), rendering of the two
  configuration files, and the delivery and launch loops of
  `create_opensearch_cluster`.

The cloud's answers (describe replies, the credential check, and which
hosts refuse an SSH session) are inputs. So are the environment variables,
the login name, the home directory and the template contents. Everything
the run does to the outside world is a trace of `Action`s: files written,
sessions opened, uploads and commands. A run that Python would end with one
of the exceptions the model covers (no tagged instance, an unknown instance
type, unset roles, a host that refuses its SSH session) ends with a
`RunError`; the exceptions it does not cover are listed under "Left out".

Files:

| file | module | contents |
|---|---|---|
| `wrappers.dfy` | `Wrappers` | `Option` |
| `pystr.dfy` | `PyStr` | the Python `str` built-ins the script relies on: `replace`, `split`, `join`, `str(int)`, `repr` |
| `ec2.dfy` | `Ec2` | boto3 replies as datatypes, and the `Ec2Manager` methods as imperative methods proved against specification functions |
| `util.dfy` | `Util` | the naming helpers, as functions |
| `topology.dfy` | `Topology` | the tag filter (a nested loop), `get_ips`, and heap sizing |
| `render.dfy` | `Render` | `get_jvm_file` and `get_yml_file` as chains of `ReplaceAll` |
| `orchestrator.dfy` | `Orchestrator` | `create_opensearch_cluster`: the method with its loops and the function `ClusterRun` that specifies it |

What the code does that a reader might not expect:

- `discovery.seed_hosts` gets one entry, the manager host name with
  `.{region}.compute.internal` appended (main.py:85-86). It does not get
  the address of every node.
- The manager is the host name `ip-a-b-c-d` built from the first private
  address (util.py:5), not the raw address.
- The heap size has no lower guard. It is 0 for instances with less than
  2048 MiB (main.py:120, main.py:155).
- `str.replace` rewrites every occurrence of a default line, not only the
  first one (main.py:71-72, main.py:83-90).
- A host whose SSH session cannot be opened raises out of the upload loop.
  The whole run stops there: hosts already reached have their files, and
  no host, earlier or later, is launched (main.py:131-141). Nodes are not
  handled in isolation.

## Model

| member | source | states |
|---|---|---|
| PyStr.ReplaceAll | main.py:71-72 | text without the pattern comes back unchanged, and replacing a pattern by itself changes nothing |
| PyStr.Split | util.py:64 | `split` gives at least one piece, and the first piece is a prefix of the text |
| PyStr.SplitJoin | util.py:64 | joining the pieces of `s.split(sep)` with `sep` gives back `s` |
| PyStr.SplitPiecesFree | util.py:64 | no piece of `s.split(sep)` contains `sep` |
| PyStr.ReplaceIsSplitJoin | main.py:71-72 | `s.replace(p, r)` is `r.join(s.split(p))`: every non-overlapping occurrence, scanned left to right, is replaced and the text between occurrences is kept |
| PyStr.ReplaceOneChar | util.py:5 | replacing one character by another keeps the length and maps each position on its own |
| PyStr.DecimalString | main.py:70 | `str(n)` of a non-negative integer is a non-empty run of digits with no leading zero except for `0` itself |
| PyStr.DecimalRoundTrip | main.py:70 | reading the digits of `str(n)` back gives `n` |
| PyStr.Join | util.py:64 | `sep.join(pieces)`: the inverse of `Split`, by `SplitJoin` above |
| PyStr.ReprStr | main.py:90 | `repr` of one string: single quotes unless the string holds `'` and no `"`; its contract is given by `ReprPlain` below and `Render.ReprOfWord` |
| PyStr.ReprPlain | main.py:90 | `repr` of a string of printable ASCII characters with no quote or backslash is the string in single quotes |
| PyStr.MapRepr | main.py:90 | the element reprs of a list, one per element, in order |
| PyStr.ReprList | main.py:90 | `str(list)`: the element reprs joined by `, ` inside brackets; its contract is given by `MapRepr` above and `Render.RolesLineExample` |
| Ec2.ListInstances | ec2.py:10-28 | the nested loop builds exactly `Listed(reply)`: one record per running or stopped instance, in reservation order, and the empty list on a `ClientError` |
| Ec2.ListedInSpec | ec2.py:18-24 | within one reservation, an instance has a record iff its state is `running` or `stopped`, and each record repeats the instance's id and state |
| Ec2.ListedSpec | ec2.py:17-24 | across all reservations, an instance has a record iff it is in the reply and its state is `running` or `stopped`, and each record repeats the instance's id and state |
| Ec2.IdsWithStateMembership | ec2.py:32 | an id is selected iff some listed record has that id and the requested state |
| Ec2.IdsOfUnlistedState | ec2.py:19-32 | any state other than `running` or `stopped` selects nothing |
| Ec2.GetInstanceIds | ec2.py:30-32 | the ids of the listed records with that state, in order; empty for any other state |
| Ec2.TerminateAll | ec2.py:44-47 | one `terminate_instance` call per running id, in listing order, and no other call |
| Ec2.TerminatesExactlyRunning | ec2.py:44-47 | an id is terminated iff some listed instance with that id is running |
| Ec2.MemoryTableKeys | ec2.py:59-61 | the table's keys are exactly the type names in the reply |
| Ec2.MemoryTableLastWins | ec2.py:60-61 | each name maps to the `SizeInMiB` of its last entry in the reply, so a later duplicate overwrites an earlier one |
| Ec2.GetMemoryOfInstances | ec2.py:57-62 | the loop fills exactly that table, and there is no table when the describe call failed |
| Ec2.GetPublicIp | ec2.py:121-125 | the public address of the first running listed instance, and `None` iff none is running |
| Util.ConfigureInternalManagerIp | util.py:4-5 | `ip-` followed by the first address with every `.` turned into `-`: length 3 + the address's length, and no `.` left |
| Util.ManagerFromFirst | util.py:5 | the host name depends on the first address only |
| Util.PemFileName | util.py:15-17 | the name is the user, `-`, and the region, and both parts can be read back |
| Util.PathJoin | util.py:21 | `os.path.join(a, b)` ends with `b`; an absolute `b` wins; otherwise `a` is kept and followed by a `/` |
| Util.DownloadsFolder | util.py:7-9 | the home directory joined with `Downloads`: it starts with the home directory and, for a non-empty home, ends in `/Downloads` |
| Util.FullPemFilePath | util.py:19-22 | the `PEM_FILE` override when set; otherwise a path ending in `{user}-{region}.pem` that starts with the downloads folder and a `/` (for a login name not starting with `/`) |
| Util.GetOsRoles | util.py:63-65 | no list iff the variable is unset; otherwise a non-empty list of untrimmed tokens without `,` that join back to the variable |
| Topology.FilterByNamePrefix | main.py:107-112 | the nested loop builds exactly `Tagged(records, prefix)`: each record, in order, once per matching `Name` tag |
| Topology.TaggedMembership | main.py:109-112 | a record is kept iff it is listed and has at least one `Name` tag whose value starts with the prefix |
| Topology.TaggedLength | main.py:109-112 | the number of kept entries is the total number of matching tags, so a record with two matching tags counts twice |
| Topology.GetIps | main.py:145-149 | one address per record, in order: private when `is_private` (which takes precedence), else public, and no list when neither flag is set |
| Topology.HalfGiB | main.py:155 | `int(memory/1024)//2`: the largest whole number of GiB whose double fits in the memory, stated as `2048 * gib <= mib < 2048 * (gib + 1)` |
| Topology.HeapSize | main.py:118-120 | `min(memory, MAX_MEMORY)`; its contract is the lemma `HeapSizeSpec` below |
| Topology.HeapSizeSpec | main.py:118-120 | the heap in GiB is at most 32; its double fits in the memory; it is the largest such value below the cap; it is 0 iff the memory is under 2048 MiB, and 32 iff the memory is at least 65536 MiB |
| Topology.GetMemory | main.py:152-155 | half the instance memory in whole GiB, or no value when the type is missing or the describe call failed |
| Render.TargetFilename | main.py:66-67 | the output name is the input name followed by `_updated` |
| Render.RenderJvm | main.py:65-75 | the text `get_jvm_file` writes; its contract is given by the lemmas `RenderJvmPieces`, `RenderJvmUnchanged` and `RenderJvmFour` below |
| Render.RenderJvmPieces | main.py:70-72 | the template is cut at every `-Xms1g`, the pieces are kept and joined with `-Xms{n}g`; then the same for `-Xmx1g` on the result |
| Render.RenderJvmUnchanged | main.py:71-72 | a template with neither default, or a heap of 1 GiB, is written back unchanged |
| Render.RenderJvmFour | main.py:70-72 | with a 4 GiB heap, the lines `-Xms1g` and `-Xmx1g` become `-Xms4g` and `-Xmx4g` |
| Render.RenderYml | main.py:78-93 | the text `get_yml_file` writes; its contract is given by the lemmas `RenderYmlPieces` and `RenderYmlUnchanged` below |
| Render.RenderYmlPieces | main.py:83-90 | each of the four default lines is replaced at every occurrence, in order, by the manager line, the single seed host, the node count and the role list; the text in between is kept |
| Render.RenderYmlUnchanged | main.py:83-90 | a template holding none of the four default lines is written back unchanged |
| Render.StorageLineOne | main.py:87-88 | with one node the storage line is the default line itself |
| Render.ReprOfWord | main.py:90 | the repr of a lower-case word is the word in single quotes |
| Render.RolesLineExample | main.py:89-90 | the roles `data,ingest` render as `node.roles: ['data', 'ingest']` |
| Orchestrator.FirstUnreachable | main.py:131-133 | the position of the first host whose session fails, or the number of hosts when every session opens |
| Orchestrator.InsertionOrderSpec | main.py:130-133 | the `ssh_clients` keys are the addresses, each once, in the order of their first occurrence |
| Orchestrator.UploadPhaseRunsNothing | main.py:131-136 | the upload loop records four actions per address and runs no command |
| Orchestrator.UploadPhaseAt | main.py:131-136 | address k gets its session and then `jvm.options`, `opensearch.yml` and `launch.sh`, in that order, at positions 4k to 4k+3 |
| Orchestrator.LaunchPhaseAt | main.py:139-141 | host k gets `chmod +x` and then `bash ... launch.sh -s -- {password}`, at positions 2k and 2k+1 |
| Orchestrator.LaunchPhaseOnce | main.py:139-141 | over distinct hosts, each launch command is issued once on each host and on no other host |
| Orchestrator.DeliverCommandsLast | main.py:130-141 | no upload or session follows a command |
| Orchestrator.DeliverStopsAtFailure | main.py:131-136 | a failed delivery stopped at the first failing host, after the uploads to the hosts before it, and ran no command |
| Orchestrator.DeliverLaunchesEachHostOnce | main.py:130-141 | a completed delivery reached every address, uploaded to all of them first, and issued each launch command exactly once per distinct address |
| Orchestrator.PrepareWritesOnly | main.py:115-121 | before delivery the run writes at most the two configuration files and cannot fail at a host |
| Orchestrator.MemoryLookupValue | main.py:118-120 | the memory lookup succeeds iff the type is in the reply's table, and its value clamped at 32 is the heap size of that type |
| Orchestrator.PrepareWritesHeap | main.py:118-120 | the first file written is `jvm.options.bak_updated` with the heap size of the configured type |
| Orchestrator.ConfigFileFirst | main.py:115-121 | the configuration names the host built from the first address and counts all addresses |
| Orchestrator.PrepareWritesTopology | main.py:115-121 | the second file written is `opensearch.yml_updated`, built from the first tagged instance's host name, the number of tagged entries, the region and the roles |
| Orchestrator.RunCommandsLast | main.py:97-141 | in every run, no upload or session follows a command |
| Orchestrator.RunUnreachableLaunchesNothing | main.py:128-141 | a run that fails at a host failed at a tagged public address that refused its session, and it launched nothing anywhere |
| Orchestrator.RunLaunchesEachHostOnce | main.py:128-141 | a completed run uploads to every tagged public address after the two writes, then issues each launch command exactly once on each such address and on no other host |
| Orchestrator.RunRendersConfig | main.py:97-121 | the run writes the clamped heap of the configured type first, then a configuration naming the first tagged instance and counting one node per matching `Name` tag |
| Orchestrator.TwoNodeScenario | main.py:115-117 | with private addresses 10.0.0.5 and 10.0.0.9, the manager is `ip-10-0-0-5` and the storage line says 2 |
| Orchestrator.DeliverAndLaunch | main.py:130-141 | the two loops over `ssh_clients` produce exactly the delivery trace `Deliver` |
| Orchestrator.CreateOpensearchCluster | main.py:97-141 | the method produces exactly the run `ClusterRun`: silent return on bad credentials, then the tag filter, the two writes and the delivery |

## Left out

- `cf.py` is not part of this model. It is made only of CloudFormation calls and waiters, and `create_ec2`, its only caller, is commented out of the workflow (main.py:105).
- Orchestrator.Deliver: uploads and commands never fail, and a host's session either fails on every attempt or never. Python can also fail inside `upload_file` after its third attempt (ssh_client.py:33-40), which ends the run after that host's session and 0 to 2 of its uploads (main.py:134-136). It can fail inside `execute` (ssh_client.py:42-43), possibly after other hosts were already launched (main.py:140-141). A repeated address whose first session opened and whose second failed cannot be expressed either, since the failing hosts are a set.
- `ssh_client.py` is not part of this model. Opening a session, uploading and executing are recorded actions. The set of hosts whose session fails is an input. The three-attempt retry, the host-key policy and the command output and exit status are not modelled.
- The AWS calls themselves (`describe_instances`, `describe_instance_types`, `terminate_instances`, `stop_instance`, `get_instance_status`, `retrieve_ami_id`, `create_key_pair`) are not modelled. Their replies are input datatypes. A termination is a recorded call.
- File I/O is not modelled. Templates are string inputs, and a written file is a `WriteFile` action.
- `is_credential_valid`, `check_pem_exist` and `create_pem_file_if_not_there` are not modelled: they ask STS or the file system. The credential check is a boolean input.
- `click`, `dotenv`, `os.getenv`, `os.getlogin` and `os.path.expanduser` are not modelled. Their values are fields of `Environment`. `INSTANCE_TYPE` is always set in the model.
- Prints are not modelled.
- Topology.GetMemory: `memory/1024` is float division in Python, modelled as integer division; `int(M/1024)` equals `M div 1024` for every memory size M below 2^53 MiB, where the division is exact in a double; above that Python's rounding can differ.
- Topology.GetIps: every instance has a `PublicIpAddress` and a `Tags` list in the model. In Python a missing key raises `KeyError`. A listed instance without tags ends the run at the tag filter (main.py:110). A tagged instance without a public address ends it after both files are written and before any SSH session (main.py:149). That includes any tagged `stopped` instance, since EC2 gives a stopped instance no public address; the model instead opens a session to it, uploads and launches. `get_public_ip` fails the same way on a running instance without one (ec2.py:125).
- `repr` of a string: only the ASCII escapes are modelled; the model keeps every non-ASCII character as is, while Python escapes the non-printable ones. PyStr.ReprPlain therefore speaks of printable ASCII only.
- PyStr.ReplaceAll: an empty pattern is excluded by its precondition; every pattern the script uses is a non-empty literal.
