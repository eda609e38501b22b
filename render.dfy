/**
 * Rendering of `jvm.options` and `opensearch.yml` (`get_jvm_file` and
 * `get_yml_file` in main.py): literal replace-all of fixed default text.
 * Reading the template and writing the `_updated` file are left to the
 * caller; these functions map template text to output text.
 */
module Render {
  import opened PyStr

  const JVM_TEMPLATE := "jvm.options.bak"
  const YML_TEMPLATE := "opensearch.yml"
  const UPDATED_SUFFIX := "_updated"

  /** The file the rendered text is written to: the template name plus `_updated`. */
  function TargetFilename(filename: string): (target: string)
    ensures filename < target && target[|filename|..] == UPDATED_SUFFIX
  {
    filename + UPDATED_SUFFIX
  }

  const XMS_DEFAULT := "-Xms1g"
  const XMX_DEFAULT := "-Xmx1g"

  /** `-Xms{n}g` / `-Xmx{n}g` with `n = str(int(new_memory))`. */
  function HeapOption(flag: string, gib: nat): string
  {
    flag + DecimalString(gib) + "g"
  }

  /** The text `get_jvm_file` writes: every `-Xms1g`, then every `-Xmx1g`, replaced. */
  function RenderJvm(template: string, gib: nat): string
  {
    var withXms := ReplaceAll(template, XMS_DEFAULT, HeapOption("-Xms", gib));
    ReplaceAll(withXms, XMX_DEFAULT, HeapOption("-Xmx", gib))
  }

  /**
   * Each step keeps the text between occurrences verbatim: the template is
   * its `-Xms1g`-free pieces joined by `-Xms1g`, the intermediate text is the
   * same pieces joined by `-Xms{n}g`, and likewise for `-Xmx1g` on that text.
   */
  lemma RenderJvmPieces(template: string, gib: nat)
    ensures var pieces := Split(template, XMS_DEFAULT);
            var mid := Join(pieces, HeapOption("-Xms", gib));
            var midPieces := Split(mid, XMX_DEFAULT);
            && template == Join(pieces, XMS_DEFAULT)
            && (forall i :: 0 <= i < |pieces| ==> !Contains(pieces[i], XMS_DEFAULT))
            && mid == Join(midPieces, XMX_DEFAULT)
            && (forall i :: 0 <= i < |midPieces| ==> !Contains(midPieces[i], XMX_DEFAULT))
            && RenderJvm(template, gib) == Join(midPieces, HeapOption("-Xmx", gib))
  {
    var mid := ReplaceAll(template, XMS_DEFAULT, HeapOption("-Xms", gib));
    SplitJoin(template, XMS_DEFAULT);
    SplitPiecesFree(template, XMS_DEFAULT);
    ReplaceIsSplitJoin(template, XMS_DEFAULT, HeapOption("-Xms", gib));
    SplitJoin(mid, XMX_DEFAULT);
    SplitPiecesFree(mid, XMX_DEFAULT);
    ReplaceIsSplitJoin(mid, XMX_DEFAULT, HeapOption("-Xmx", gib));
  }

  /** A template without the two defaults, or a heap of 1 GiB, is written back unchanged. */
  lemma RenderJvmUnchanged(template: string, gib: nat)
    requires (!Contains(template, XMS_DEFAULT) && !Contains(template, XMX_DEFAULT)) || gib == 1
    ensures RenderJvm(template, gib) == template
  {
    assert DecimalString(1) == "1";
  }

  lemma JvmFourXms(template: string, rest: string)
    requires rest == "\n" + XMX_DEFAULT + "\n" && template == XMS_DEFAULT + rest
    ensures ReplaceAll(template, XMS_DEFAULT, "-Xms4g") == "-Xms4g" + rest
  {
    assert rest[1..7] == XMX_DEFAULT;
    NotContainsMissingChar(rest, XMS_DEFAULT, 3);
    assert template[|XMS_DEFAULT|..] == rest;
  }

  lemma JvmFourXmx(s: string, head: string, tail: string)
    requires head == "Xms4g\n" && tail == "\n" && s == "-" + head + XMX_DEFAULT + tail
    ensures ReplaceAll(s, XMX_DEFAULT, "-Xmx4g") == "-" + head + "-Xmx4g" + tail
  {
    assert s[3] == 's';
    assert !(XMX_DEFAULT <= s);
    assert s[1..] == head + (XMX_DEFAULT + tail);
    ReplaceAllSkipFree(head, XMX_DEFAULT + tail, XMX_DEFAULT, "-Xmx4g");
    NotContainsMissingChar(tail, XMX_DEFAULT, 0);
    assert (XMX_DEFAULT + tail)[|XMX_DEFAULT|..] == tail;
  }

  lemma HeapOptionFour(gib: nat)
    requires gib == 4
    ensures HeapOption("-Xms", gib) == "-Xms4g" && HeapOption("-Xmx", gib) == "-Xmx4g"
  {
    assert DecimalString(4) == "4";
  }

  /** With a 4 GiB heap the two default lines read back as `4g`. */
  lemma RenderJvmFour(template: string, gib: nat)
    requires template == XMS_DEFAULT + "\n" + XMX_DEFAULT + "\n" && gib == 4
    ensures RenderJvm(template, gib) == "-Xms4g\n-Xmx4g\n"
  {
    HeapOptionFour(gib);
    var rest := "\n" + XMX_DEFAULT + "\n";
    assert template == XMS_DEFAULT + rest;
    JvmFourXms(template, rest);
    var mid := "-Xms4g" + rest;
    assert mid == "-" + "Xms4g\n" + XMX_DEFAULT + "\n";
    JvmFourXmx(mid, "Xms4g\n", "\n");
    assert "-" + "Xms4g\n" + "-Xmx4g" + "\n" == "-Xms4g\n-Xmx4g\n";
  }

  const MANAGER_DEFAULT := "cluster.initial_cluster_manager_nodes: []"
  const SEED_DEFAULT := "discovery.seed_hosts: []"
  const STORAGE_DEFAULT := "node.max_local_storage_nodes: 1"
  const ROLES_DEFAULT := "node.roles: []"

  /** The single seed host: the manager host name with the region's internal DNS suffix. */
  function SeedHost(managerIp: string, region: string): string
  {
    managerIp + "." + region + ".compute.internal"
  }

  function ManagerLine(managerIp: string): string
  {
    "cluster.initial_cluster_manager_nodes: [\"" + managerIp + "\"]"
  }

  function SeedLine(managerIp: string, region: string): string
  {
    "discovery.seed_hosts: [\"" + SeedHost(managerIp, region) + "\"]"
  }

  function StorageLine(nodeCount: nat): string
  {
    "node.max_local_storage_nodes: " + DecimalString(nodeCount)
  }

  function RolesLine(roles: seq<string>): string
  {
    "node.roles: " + ReprList(roles)
  }

  /** The text `get_yml_file` writes: the four defaults replaced in this order. */
  function RenderYml(template: string, managerIp: string, nodeCount: nat, region: string, roles: seq<string>): string
  {
    var s1 := ReplaceAll(template, MANAGER_DEFAULT, ManagerLine(managerIp));
    var s2 := ReplaceAll(s1, SEED_DEFAULT, SeedLine(managerIp, region));
    var s3 := ReplaceAll(s2, STORAGE_DEFAULT, StorageLine(nodeCount));
    ReplaceAll(s3, ROLES_DEFAULT, RolesLine(roles))
  }

  /**
   * Each of the four steps cuts the text at every occurrence of its default
   * line, keeps the pieces between them verbatim, and joins them with the
   * rendered line: the manager, the single seed host, the node count and
   * the role list, in this order.
   */
  lemma RenderYmlPieces(template: string, managerIp: string, nodeCount: nat, region: string, roles: seq<string>)
    ensures var s1 := Join(Split(template, MANAGER_DEFAULT), ManagerLine(managerIp));
            var s2 := Join(Split(s1, SEED_DEFAULT), SeedLine(managerIp, region));
            var s3 := Join(Split(s2, STORAGE_DEFAULT), StorageLine(nodeCount));
            RenderYml(template, managerIp, nodeCount, region, roles) == Join(Split(s3, ROLES_DEFAULT), RolesLine(roles))
  {
    var s1 := ReplaceAll(template, MANAGER_DEFAULT, ManagerLine(managerIp));
    var s2 := ReplaceAll(s1, SEED_DEFAULT, SeedLine(managerIp, region));
    var s3 := ReplaceAll(s2, STORAGE_DEFAULT, StorageLine(nodeCount));
    ReplaceIsSplitJoin(template, MANAGER_DEFAULT, ManagerLine(managerIp));
    ReplaceIsSplitJoin(s1, SEED_DEFAULT, SeedLine(managerIp, region));
    ReplaceIsSplitJoin(s2, STORAGE_DEFAULT, StorageLine(nodeCount));
    ReplaceIsSplitJoin(s3, ROLES_DEFAULT, RolesLine(roles));
  }

  /** A template holding none of the four defaults is written back unchanged. */
  lemma RenderYmlUnchanged(template: string, managerIp: string, nodeCount: nat, region: string, roles: seq<string>)
    requires !Contains(template, MANAGER_DEFAULT) && !Contains(template, SEED_DEFAULT)
    requires !Contains(template, STORAGE_DEFAULT) && !Contains(template, ROLES_DEFAULT)
    ensures RenderYml(template, managerIp, nodeCount, region, roles) == template
  {
  }

  /** With a single node the storage default `node.max_local_storage_nodes: 1` is rewritten to itself. */
  lemma StorageLineOne()
    ensures StorageLine(1) == STORAGE_DEFAULT
  {
    assert DecimalString(1) == "1";
  }

  lemma ReprOfWord(w: string)
    requires forall i :: 0 <= i < |w| ==> 'a' <= w[i] <= 'z'
    ensures ReprStr(w) == "'" + w + "'"
  {
    ReprPlain(w);
  }

  lemma MapReprExample(words: seq<string>)
    requires words == ["data", "ingest"]
    ensures MapRepr(words) == ["'data'", "'ingest'"]
  {
    ReprOfWord("data");
    ReprOfWord("ingest");
    assert "'" + "data" + "'" == "'data'";
    assert "'" + "ingest" + "'" == "'ingest'";
    assert words[1..] == ["ingest"] && words[1..][1..] == [];
  }

  lemma JoinExample(items: seq<string>)
    requires items == ["'data'", "'ingest'"]
    ensures Join(items, ", ") == "'data', 'ingest'"
  {
    assert items[1..] == ["'ingest'"];
  }

  lemma ReprListExample(roles: seq<string>)
    requires roles == ["data", "ingest"]
    ensures ReprList(roles) == "['data', 'ingest']"
  {
    MapReprExample(roles);
    JoinExample(["'data'", "'ingest'"]);
  }

  /** `node.roles` gets Python's list repr, e.g. `['data', 'ingest']`. */
  lemma RolesLineExample(roles: seq<string>)
    requires roles == ["data", "ingest"]
    ensures RolesLine(roles) == "node.roles: ['data', 'ingest']"
  {
    ReprListExample(roles);
  }
}
