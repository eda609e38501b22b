/**
 * Naming helpers of util.py. The login name, the home directory and the
 * `PEM_FILE` and `OPENSEARCH_NODE_ROLES` environment values are parameters.
 */
module Util {
  import opened Wrappers
  import opened PyStr

  /**
   * `configure_internal_manager_ip`: the EC2 internal host name of the first
   * private address, `ip-` followed by the address with each `.` turned into `-`.
   * Python raises IndexError on an empty list; in the cluster run that case
   * is the `NoTaggedInstances` error, raised before this is called.
   */
  function ConfigureInternalManagerIp(privateIps: seq<string>): (host: string)
    requires |privateIps| > 0
    ensures |host| == 3 + |privateIps[0]| && host[..3] == "ip-"
    ensures forall i :: 0 <= i < |privateIps[0]| ==>
              host[3 + i] == (if privateIps[0][i] == '.' then '-' else privateIps[0][i])
    ensures '.' !in host
  {
    ReplaceOneChar(privateIps[0], '.', '-');
    "ip-" + ReplaceAll(privateIps[0], ".", "-")
  }

  /** Only the first address decides the manager's host name. */
  lemma ManagerFromFirst(privateIps: seq<string>)
    requires |privateIps| > 0
    ensures ConfigureInternalManagerIp(privateIps) == ConfigureInternalManagerIp([privateIps[0]])
  {
    assert [privateIps[0]][0] == privateIps[0];
  }

  /** `get_pem_file_name`: the key-pair name `{user}-{region}`. */
  function PemFileName(user: string, region: string): (name: string)
    ensures |name| == |user| + 1 + |region|
    ensures name[..|user|] == user && name[|user|] == '-' && name[|user| + 1..] == region
  {
    user + "-" + region
  }

  /** `os.path.join(a, b)` on POSIX: an absolute `b` replaces `a`; otherwise one `/` between them. */
  function PathJoin(a: string, b: string): (path: string)
    ensures EndsWith(path, b)
    ensures b != [] && b[0] == '/' ==> path == b
    ensures !(b != [] && b[0] == '/') ==> a <= path && (a == [] || a[|a| - 1] == '/' || (|path| > |a| && path[|a|] == '/'))
  {
    if b != [] && b[0] == '/' then b
    else if a == [] || a[|a| - 1] == '/' then a + b
    else a + "/" + b
  }

  /** `get_downloads_folder`, with `os.path.expanduser("~")` given as `home`. */
  function DownloadsFolder(home: string): (dir: string)
    ensures home <= dir && EndsWith(dir, "Downloads")
    ensures home != [] ==> EndsWith(dir, "/Downloads")
  {
    PathJoin(home, "Downloads")
  }

  /**
   * `get_full_pem_file_path`: the `PEM_FILE` value when it is set, otherwise
   * `{user}-{region}.pem` in the downloads folder.
   */
  function FullPemFilePath(user: string, region: string, home: string, pemFile: Option<string>): (path: string)
    ensures pemFile.Some? ==> path == pemFile.value
    ensures pemFile.None? ==> EndsWith(path, PemFileName(user, region) + ".pem") && EndsWith(path, ".pem")
    ensures pemFile.None? && (user == [] || user[0] != '/') ==> DownloadsFolder(home) + "/" <= path
  {
    match pemFile
    case Some(p) => p
    case None =>
      var dir := DownloadsFolder(home);
      var file := PemFileName(user, region) + ".pem";
      assert file[0] == (if user == [] then '-' else user[0]);
      assert dir[|dir| - 1] == 's';
      PathJoin(dir, file)
  }

  /**
   * `get_os_roles`: `OPENSEARCH_NODE_ROLES` split on `,`, tokens kept as they
   * are. `None` when the variable is unset (Python raises AttributeError).
   */
  function GetOsRoles(nodeRoles: Option<string>): (roles: Option<seq<string>>)
    ensures nodeRoles.None? <==> roles.None?
    ensures roles.Some? ==> |roles.value| >= 1
    ensures roles.Some? ==> forall i :: 0 <= i < |roles.value| ==> ',' !in roles.value[i]
    ensures roles.Some? ==> Join(roles.value, ",") == nodeRoles.value
  {
    match nodeRoles
    case None => None
    case Some(s) =>
      var tokens := Split(s, ",");
      SplitJoin(s, ",");
      SplitPiecesFree(s, ",");
      assert forall i :: 0 <= i < |tokens| ==> ',' !in tokens[i] by {
        forall i | 0 <= i < |tokens| ensures ',' !in tokens[i] {
          ContainsChar(tokens[i], ',');
        }
      }
      Some(tokens)
  }
}
