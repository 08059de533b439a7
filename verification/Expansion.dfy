/** The expansion of one Pinot resource into config maps, workloads, services and volume claims. */
module Expansion {
  import opened Json

  // ------------------------------------------------------------------ the resource

  const CONTROLLER := "controller"
  const BROKER := "broker"
  const SERVER := "server"
  const MINION := "minion"

  /** Kubernetes field contents that the expansion only passes on. */
  type Opaque = string

  datatype NodeSpec = NodeSpec(
    name: string, kind: string, nodeType: string, replicas: int, k8sConfig: string, pinotNodeConfig: string)

  datatype NodeConfig = NodeConfig(name: string, javaOpts: string, data: string)

  datatype StorageConfig = StorageConfig(name: string, mountPath: string, pvcSpec: Opaque)

  datatype EnvVar = EnvVar(name: string, value: string)

  datatype VolumeMount = VolumeMount(mountPath: string, name: string)

  datatype Volume = ConfigMapVolume(name: string, configMap: string) | OtherVolume(name: string, source: Opaque)

  datatype K8sConfig = K8sConfig(
    name: string,
    env: seq<EnvVar>,
    volumes: seq<Volume>,
    volumeMounts: seq<VolumeMount>,
    storage: seq<StorageConfig>,
    service: Opaque,
    pod: Opaque)

  datatype DeepStorage = DeepStorage(nodeType: string, data: string)

  datatype Pinot = Pinot(
    name: string,
    namespace: string,
    zkAddress: string,
    plugins: Option<seq<string>>,
    deploymentOrder: seq<string>,
    k8sConfigs: seq<K8sConfig>,
    nodeConfigs: seq<NodeConfig>,
    nodes: seq<NodeSpec>,
    deepStorage: seq<DeepStorage>)

  type Labels = map<string, string>

  // ------------------------------------------------------------------ what is generated

  datatype ConfigMap = ConfigMap(name: string, namespace: string, labels: Labels, data: map<string, string>)

  datatype Service = Service(
    name: string, namespace: string, labels: Labels, selector: Labels, spec: Opaque)

  /** The variables of the storage loops, addressed by number: a Go loop has one variable, which
      every iteration overwrites, and its address outlives the loop. */
  type Memory = seq<StorageConfig>

  /** A claim keeps the address of its spec. */
  datatype Claim = Claim(name: string, namespace: string, labels: Labels, pvc: nat)

  /** The same claim with the address followed. */
  datatype ClaimView = ClaimView(name: string, namespace: string, labels: Labels, pvcSpec: Opaque)

  datatype Template = Template(
    name: string,
    namespace: string,
    labels: Labels,
    replicas: int,
    kind: string,
    serviceName: string,
    container: string,
    args: seq<string>,
    env: seq<EnvVar>,
    mounts: seq<VolumeMount>,
    volumes: seq<Volume>,
    pod: Opaque)

  datatype Workload = Workload(template: Template, claims: seq<Claim>)

  // ------------------------------------------------------------------ names and labels

  function StsOrDeployName(node: string, k8sConfig: string): string { node + "-" + k8sConfig }

  function ConfigMapName(pinot: string, config: string): string { pinot + "-" + config + "-" + "config" }

  function SvcName(node: string, k8sConfig: string): string { node + "-" + k8sConfig + "-" + "svc" }

  function PvcName(node: string): string { node + "-" + "pvc" }

  function MakeLabels(pt: Pinot, node: NodeSpec): Labels {
    map["app" := "pinot",
        "custom_resource" := pt.name,
        "nodeType" := node.nodeType,
        "pinotConfigGroup" := node.pinotNodeConfig,
        "k8sConfigGroup" := node.k8sConfig]
  }

  // ------------------------------------------------------------------ config map data

  function ConfName(nodeType: string): Option<string> {
    if nodeType == CONTROLLER then Some("pinot-controller.conf")
    else if nodeType == BROKER then Some("pinot-broker.conf")
    else if nodeType == MINION then Some("pinot-minion.conf")
    else if nodeType == SERVER then Some("pinot-server.conf")
    else None
  }

  function BaseSuffix(pt: Pinot, nodeType: string): string {
    if nodeType == CONTROLLER
    then "\n" + "controller.helix.cluster.name=" + pt.name + "\n" + "controller.zk.str=" + pt.zkAddress
    else ""
  }

  function BaseConfiguration(pt: Pinot, config: NodeConfig, nodeType: string): string {
    config.data + BaseSuffix(pt, nodeType)
  }

  /** The last deep storage entry of the node's type. */
  function DeepStorageOf(entries: seq<DeepStorage>, nodeType: string): Option<string> {
    if entries == [] then None
    else if entries[|entries| - 1].nodeType == nodeType then Some(entries[|entries| - 1].data)
    else DeepStorageOf(entries[..|entries| - 1], nodeType)
  }

  function DeepSuffix(entries: seq<DeepStorage>, nodeType: string): string {
    match DeepStorageOf(entries, nodeType)
    case None => ""
    case Some(data) => "\n" + data
  }

  function DataOf(pt: Pinot, config: NodeConfig, nodeType: string): map<string, string> {
    match ConfName(nodeType)
    case None => map[]
    case Some(file) =>
      map[file := BaseConfiguration(pt, config, nodeType) + DeepSuffix(pt.deepStorage, nodeType)]
  }

  function ConfigMapOf(pt: Pinot, config: NodeConfig, node: NodeSpec): ConfigMap {
    ConfigMap(ConfigMapName(pt.name, config.name), pt.namespace, MakeLabels(pt, node),
              DataOf(pt, config, node.nodeType))
  }

  /** Each branch overwrites `data` once per matching deep storage entry. An unknown node type
      leaves it empty. */
  method MakeConfigMap(pt: Pinot, config: NodeConfig, node: NodeSpec) returns (cm: ConfigMap)
    ensures cm == ConfigMapOf(pt, config, node)
  {
    var data := map[];
    var file := ConfName(node.nodeType);
    if file.Some? {
      var configuration := BaseConfiguration(pt, config, node.nodeType);
      data := map[file.value := configuration];
      assert configuration + "" == configuration;
      for i := 0 to |pt.deepStorage|
        invariant data == map[file.value := configuration + DeepSuffix(pt.deepStorage[..i], node.nodeType)]
      {
        assert pt.deepStorage[..i + 1][..i] == pt.deepStorage[..i];
        if pt.deepStorage[i].nodeType == node.nodeType {
          data := map[file.value := configuration + ("\n" + pt.deepStorage[i].data)];
        }
      }
      assert pt.deepStorage[..|pt.deepStorage|] == pt.deepStorage;
    }
    cm := ConfigMap(ConfigMapName(pt.name, config.name), pt.namespace, MakeLabels(pt, node), data);
  }

  // ------------------------------------------------------------------ environment

  type HashFunction = map<string, string> -> string

  /** `MakeConfigMapHash`: one (name, hash of the data) per config map. */
  function HashEntry(hash: HashFunction, cm: ConfigMap): EnvVar { EnvVar(cm.name, hash(cm.data)) }

  function HashesNamed(hash: HashFunction, cms: seq<ConfigMap>, name: string): seq<EnvVar> {
    if cms == [] then [] else
    var last := cms[|cms| - 1];
    HashesNamed(hash, cms[..|cms| - 1], name) + if last.name == name then [HashEntry(hash, last)] else []
  }

  function PluginOptions(plugins: seq<string>): string {
    if plugins == [] then "" else
    PluginOptions(plugins[..|plugins| - 1]) + "-Dplugins.include=" + plugins[|plugins| - 1]
  }

  function JavaOptions(pt: Pinot, config: NodeConfig): EnvVar {
    EnvVar("JAVA_OPTS", match pt.plugins
                        case None => config.javaOpts
                        case Some(plugins) => config.javaOpts + " " + PluginOptions(plugins))
  }

  function EnvOf(pt: Pinot, config: NodeConfig, k8s: K8sConfig, hash: HashFunction, cms: seq<ConfigMap>): seq<EnvVar> {
    k8s.env + [JavaOptions(pt, config)] + HashesNamed(hash, cms, ConfigMapName(pt.name, config.name))
  }

  method GetEnv(pt: Pinot, config: NodeConfig, k8s: K8sConfig, hash: HashFunction, cms: seq<ConfigMap>)
    returns (envs: seq<EnvVar>)
    ensures envs == EnvOf(pt, config, k8s, hash, cms)
  {
    var jvmOpts := EnvVar("JAVA_OPTS", config.javaOpts);
    if pt.plugins.Some? {
      var plugins := pt.plugins.value;
      var joined := "";
      for i := 0 to |plugins|
        invariant joined == PluginOptions(plugins[..i])
      {
        assert plugins[..i + 1][..i] == plugins[..i];
        joined := joined + "-Dplugins.include=" + plugins[i];
      }
      assert plugins[..|plugins|] == plugins;
      jvmOpts := EnvVar("JAVA_OPTS", jvmOpts.value + " " + joined);
    }
    envs := k8s.env;
    envs := envs + [jvmOpts];
    var name := ConfigMapName(pt.name, config.name);
    var hashHolder := [];
    for i := 0 to |cms|
      invariant hashHolder == HashesNamed(hash, cms[..i], name)
    {
      assert cms[..i + 1][..i] == cms[..i];
      if name == cms[i].name { hashHolder := hashHolder + [HashEntry(hash, cms[i])]; }
    }
    assert cms[..|cms|] == cms;
    envs := envs + hashHolder;
  }

  // ------------------------------------------------------------------ volumes, arguments, templates

  function ConfigMountPath(nodeType: string): string {
    if nodeType == BROKER then "/var/pinot/broker/config"
    else if nodeType == CONTROLLER then "/var/pinot/controller/config"
    else if nodeType == SERVER then "/var/pinot/server/config"
    else if nodeType == MINION then "/var/pinot/minion/config"
    else ""
  }

  function StorageMounts(node: NodeSpec, storage: seq<StorageConfig>): seq<VolumeMount> {
    if storage == [] then [] else
    StorageMounts(node, storage[..|storage| - 1]) + [VolumeMount(storage[|storage| - 1].mountPath, PvcName(node.name))]
  }

  function MountsOf(pt: Pinot, node: NodeSpec, k8s: K8sConfig): seq<VolumeMount> {
    StorageMounts(node, k8s.storage)
    + [VolumeMount(ConfigMountPath(node.nodeType), ConfigMapName(pt.name, node.pinotNodeConfig))]
    + k8s.volumeMounts
  }

  /** The order of the mounts: storage entries, config map, then those of the k8s config. */
  method GetVolumeMounts(pt: Pinot, node: NodeSpec, k8s: K8sConfig) returns (mounts: seq<VolumeMount>)
    ensures mounts == MountsOf(pt, node, k8s)
    ensures var n := |k8s.storage|;
            && |mounts| == n + 1 + |k8s.volumeMounts|
            && (forall i :: 0 <= i < n ==> mounts[i] == VolumeMount(k8s.storage[i].mountPath, PvcName(node.name)))
            && mounts[n] == VolumeMount(ConfigMountPath(node.nodeType), ConfigMapName(pt.name, node.pinotNodeConfig))
            && (forall i :: 0 <= i < |k8s.volumeMounts| ==> mounts[n + 1 + i] == k8s.volumeMounts[i])
  {
    mounts := [];
    for i := 0 to |k8s.storage|
      invariant mounts == StorageMounts(node, k8s.storage[..i]) && |mounts| == i
      invariant forall j :: 0 <= j < i ==> mounts[j] == VolumeMount(k8s.storage[j].mountPath, PvcName(node.name))
    {
      assert k8s.storage[..i + 1][..i] == k8s.storage[..i];
      mounts := mounts + [VolumeMount(k8s.storage[i].mountPath, PvcName(node.name))];
    }
    assert k8s.storage[..|k8s.storage|] == k8s.storage;
    mounts := mounts + [VolumeMount(ConfigMountPath(node.nodeType), ConfigMapName(pt.name, node.pinotNodeConfig))];
    mounts := mounts + k8s.volumeMounts;
  }

  function VolumesOf(pt: Pinot, node: NodeSpec, k8s: K8sConfig): seq<Volume> {
    var name := ConfigMapName(pt.name, node.pinotNodeConfig);
    [ConfigMapVolume(name, name)] + k8s.volumes
  }

  function ArgsOf(pt: Pinot, nodeType: string): seq<string> {
    if nodeType == BROKER then
      ["StartBroker", "-clusterName", pt.name, "-zkAddress", pt.zkAddress,
       "-configFileName", "/var/pinot/broker/config/pinot-broker.conf"]
    else if nodeType == CONTROLLER then
      ["StartController", "-configFileName", "/var/pinot/controller/config/pinot-controller.conf"]
    else if nodeType == SERVER then
      ["StartServer", "-clusterName", pt.name, "-zkAddress", pt.zkAddress,
       "-configFileName", "/var/pinot/server/config/pinot-server.conf"]
    else if nodeType == MINION then
      ["StartMinion", "-clusterName", pt.name, "-zkAddress", pt.zkAddress,
       "-configFileName", "/var/pinot/minion/config/pinot-minion.conf"]
    else []
  }

  /** Go's conversion of an `int` to `int32` wraps around. */
  function ToInt32(n: int): (r: int)
    ensures -0x8000_0000 <= r < 0x8000_0000
    ensures -0x8000_0000 <= n < 0x8000_0000 ==> r == n
    ensures (n - r) % 0x1_0000_0000 == 0
  {
    (n + 0x8000_0000) % 0x1_0000_0000 - 0x8000_0000
  }

  function TemplateOf(pt: Pinot, node: NodeSpec, config: NodeConfig, k8s: K8sConfig, hash: HashFunction,
                      cms: seq<ConfigMap>): Template
  {
    Template(StsOrDeployName(node.name, node.k8sConfig), pt.namespace, MakeLabels(pt, node),
             ToInt32(node.replicas), node.kind, SvcName(node.name, k8s.name),
             node.name + "-" + node.nodeType, ArgsOf(pt, node.nodeType),
             EnvOf(pt, config, k8s, hash, cms), MountsOf(pt, node, k8s), VolumesOf(pt, node, k8s), k8s.pod)
  }

  function ServiceOf(pt: Pinot, node: NodeSpec, k8s: K8sConfig): Service {
    Service(SvcName(node.name, node.k8sConfig), pt.namespace, MakeLabels(pt, node), MakeLabels(pt, node), k8s.service)
  }

  // ------------------------------------------------------------------ claims

  predicate InMemory(mem: Memory, claims: seq<Claim>) {
    forall i :: 0 <= i < |claims| ==> claims[i].pvc < |mem|
  }

  function Follow(mem: Memory, c: Claim): ClaimView
    requires c.pvc < |mem|
  {
    ClaimView(c.name, c.namespace, c.labels, mem[c.pvc].pvcSpec)
  }

  function FollowAll(mem: Memory, claims: seq<Claim>): (views: seq<ClaimView>)
    requires InMemory(mem, claims)
    ensures |views| == |claims|
    ensures forall i :: 0 <= i < |claims| ==> views[i] == Follow(mem, claims[i])
  {
    seq(|claims|, i requires 0 <= i < |claims| && InMemory(mem, claims) => Follow(mem, claims[i]))
  }

  function ClaimOf(pt: Pinot, node: NodeSpec, pvcSpec: Opaque): ClaimView {
    ClaimView(PvcName(node.name), pt.namespace, MakeLabels(pt, node), pvcSpec)
  }

  /** What the claims of one storage loop point to: the last entry, every one of them. */
  function AliasedClaims(pt: Pinot, node: NodeSpec, k8s: K8sConfig): (views: seq<ClaimView>)
    ensures |views| == |k8s.storage|
    ensures forall i :: 0 <= i < |views| ==> views[i] == ClaimOf(pt, node, k8s.storage[|k8s.storage| - 1].pvcSpec)
  {
    seq(|k8s.storage|, i requires 0 <= i < |k8s.storage| =>
      ClaimOf(pt, node, k8s.storage[|k8s.storage| - 1].pvcSpec))
  }

  /** `for _, sc := range storage { ... makePvc(&sc, ...) ... }`: every claim takes the address of
      the one loop variable. */
  method StorageLoop(pt: Pinot, node: NodeSpec, k8s: K8sConfig, mem: Memory) returns (claims: seq<Claim>, mem': Memory)
    ensures mem <= mem' && InMemory(mem', claims)
    ensures FollowAll(mem', claims) == AliasedClaims(pt, node, k8s)
  {
    claims, mem' := [], mem;
    var sc := |mem|;
    for i := 0 to |k8s.storage|
      invariant mem <= mem' && |claims| == i
      invariant |mem'| == if i == 0 then sc else sc + 1
      invariant i > 0 ==> mem'[sc] == k8s.storage[i - 1]
      invariant forall j :: 0 <= j < i ==>
        claims[j] == Claim(PvcName(node.name), pt.namespace, MakeLabels(pt, node), sc)
    {
      mem' := mem'[..sc] + [k8s.storage[i]];
      claims := claims + [Claim(PvcName(node.name), pt.namespace, MakeLabels(pt, node), sc)];
    }
  }

  // ------------------------------------------------------------------ ordered grouping

  function OfType(nodes: seq<NodeSpec>, t: string): seq<NodeSpec> {
    if nodes == [] then [] else
    OfType(nodes[..|nodes| - 1], t) + if nodes[|nodes| - 1].nodeType == t then [nodes[|nodes| - 1]] else []
  }

  function Ordered(nodes: seq<NodeSpec>, order: seq<string>): seq<NodeSpec>
    requires |order| >= 4
  {
    OfType(nodes, order[0]) + OfType(nodes, order[1]) + OfType(nodes, order[2]) + OfType(nodes, order[3])
  }

  /** A missing key reads as the empty slice. */
  function GroupIn(byType: map<string, seq<NodeSpec>>, t: string): seq<NodeSpec> {
    if t in byType then byType[t] else []
  }

  /** `None` is the index panic on a deployment order of fewer than four entries. */
  method GetAllNodeSpecForNodeType(pt: Pinot) returns (all: Option<seq<NodeSpec>>)
    ensures all == if |pt.deploymentOrder| < 4 then None else Some(Ordered(pt.nodes, pt.deploymentOrder))
  {
    var order := pt.deploymentOrder;
    if |order| < 4 { return None; }
    var byType: map<string, seq<NodeSpec>> := map[order[0] := [], order[1] := [], order[2] := [], order[3] := []];
    for i := 0 to |pt.nodes|
      invariant order[0] in byType && order[1] in byType && order[2] in byType && order[3] in byType
      invariant Groups(byType, pt.nodes[..i])
    {
      var node := pt.nodes[i];
      GroupsNext(byType, pt.nodes, i);
      byType := byType[node.nodeType := GroupIn(byType, node.nodeType) + [node]];
    }
    assert pt.nodes[..|pt.nodes|] == pt.nodes;
    var result := [];
    result := result + byType[order[0]];
    result := result + byType[order[1]];
    result := result + byType[order[2]];
    result := result + byType[order[3]];
    FourGroups(pt, byType);
    all := Some(result);
  }

  ghost predicate Groups(byType: map<string, seq<NodeSpec>>, nodes: seq<NodeSpec>) {
    forall t :: GroupIn(byType, t) == OfType(nodes, t)
  }

  lemma GroupsNext(byType: map<string, seq<NodeSpec>>, nodes: seq<NodeSpec>, i: nat)
    requires i < |nodes| && Groups(byType, nodes[..i])
    ensures var t := nodes[i].nodeType;
            Groups(byType[t := GroupIn(byType, t) + [nodes[i]]], nodes[..i + 1])
  {
    var t := nodes[i].nodeType;
    var next := byType[t := GroupIn(byType, t) + [nodes[i]]];
    assert nodes[..i + 1][..i] == nodes[..i];
    forall u
      ensures GroupIn(next, u) == OfType(nodes[..i + 1], u)
    {
      assert GroupIn(byType, u) == OfType(nodes[..i], u);
      assert u == t || GroupIn(next, u) == GroupIn(byType, u);
    }
  }

  lemma FourGroups(pt: Pinot, byType: map<string, seq<NodeSpec>>)
    requires |pt.deploymentOrder| >= 4 && Groups(byType, pt.nodes)
    ensures var order := pt.deploymentOrder;
            Ordered(pt.nodes, order) ==
              [] + GroupIn(byType, order[0]) + GroupIn(byType, order[1]) + GroupIn(byType, order[2]) + GroupIn(byType, order[3])
  {
    assert [] + OfType(pt.nodes, pt.deploymentOrder[0]) == OfType(pt.nodes, pt.deploymentOrder[0]);
  }

  // ------------------------------------------------------------------ the nested loops

  /** A node joined with a node config, by position. */
  datatype Pair = Pair(node: nat, config: nat)

  /** A pair joined with a k8s config. */
  datatype Row = Row(node: nat, config: nat, k8s: nat)

  predicate PairMatches(pt: Pinot, nodes: seq<NodeSpec>, p: Pair) {
    p.node < |nodes| && p.config < |pt.nodeConfigs| &&
    nodes[p.node].pinotNodeConfig == pt.nodeConfigs[p.config].name
  }

  predicate RowMatches(pt: Pinot, nodes: seq<NodeSpec>, r: Row) {
    PairMatches(pt, nodes, Pair(r.node, r.config)) && r.k8s < |pt.k8sConfigs| &&
    nodes[r.node].k8sConfig == pt.k8sConfigs[r.k8s].name
  }

  /** The pairs met before the config loop of node `i` reaches config `j`. */
  function PairsTo(pt: Pinot, nodes: seq<NodeSpec>, i: nat, j: nat): seq<Pair>
    decreases i, j
  {
    if j > 0 then
      PairsTo(pt, nodes, i, j - 1) + if PairMatches(pt, nodes, Pair(i, j - 1)) then [Pair(i, j - 1)] else []
    else if i > 0 then PairsTo(pt, nodes, i - 1, |pt.nodeConfigs|)
    else []
  }

  /** The rows met before the k8s loop of node `i` and config `j` reaches k8s config `m`. */
  function RowsTo(pt: Pinot, nodes: seq<NodeSpec>, i: nat, j: nat, m: nat): seq<Row>
    decreases i, j, m
  {
    if m > 0 then
      RowsTo(pt, nodes, i, j, m - 1) + if RowMatches(pt, nodes, Row(i, j, m - 1)) then [Row(i, j, m - 1)] else []
    else if j > 0 then RowsTo(pt, nodes, i, j - 1, |pt.k8sConfigs|)
    else if i > 0 then RowsTo(pt, nodes, i - 1, |pt.nodeConfigs|, 0)
    else []
  }

  ghost predicate AllPairsMatch(pt: Pinot, nodes: seq<NodeSpec>, pairs: seq<Pair>) {
    forall n :: 0 <= n < |pairs| ==> PairMatches(pt, nodes, pairs[n])
  }

  ghost predicate AllRowsMatch(pt: Pinot, nodes: seq<NodeSpec>, rows: seq<Row>) {
    forall n :: 0 <= n < |rows| ==> RowMatches(pt, nodes, rows[n])
  }

  lemma {:induction false} PairsToMatch(pt: Pinot, nodes: seq<NodeSpec>, i: nat, j: nat)
    ensures AllPairsMatch(pt, nodes, PairsTo(pt, nodes, i, j))
    decreases i, j
  {
    if j > 0 { PairsToMatch(pt, nodes, i, j - 1); }
    else if i > 0 { PairsToMatch(pt, nodes, i - 1, |pt.nodeConfigs|); }
  }

  lemma {:induction false} RowsToMatch(pt: Pinot, nodes: seq<NodeSpec>, i: nat, j: nat, m: nat)
    ensures AllRowsMatch(pt, nodes, RowsTo(pt, nodes, i, j, m))
    decreases i, j, m
  {
    if m > 0 { RowsToMatch(pt, nodes, i, j, m - 1); }
    else if j > 0 { RowsToMatch(pt, nodes, i, j - 1, |pt.k8sConfigs|); }
    else if i > 0 { RowsToMatch(pt, nodes, i - 1, |pt.nodeConfigs|, 0); }
  }

  ghost function ConfigMapsOf(pt: Pinot, nodes: seq<NodeSpec>, pairs: seq<Pair>): (cms: seq<ConfigMap>)
    requires AllPairsMatch(pt, nodes, pairs)
    ensures |cms| == |pairs|
    ensures forall n :: 0 <= n < |pairs| ==>
      cms[n] == ConfigMapOf(pt, pt.nodeConfigs[pairs[n].config], nodes[pairs[n].node])
  {
    seq(|pairs|, n requires 0 <= n < |pairs| && AllPairsMatch(pt, nodes, pairs) =>
      ConfigMapOf(pt, pt.nodeConfigs[pairs[n].config], nodes[pairs[n].node]))
  }

  /** The config maps that exist once node `i` has met config `j`, that pair's own included. */
  ghost function GeneratedBy(pt: Pinot, nodes: seq<NodeSpec>, i: nat, j: nat): seq<ConfigMap> {
    PairsToMatch(pt, nodes, i, j + 1);
    ConfigMapsOf(pt, nodes, PairsTo(pt, nodes, i, j + 1))
  }

  ghost function TemplateAt(pt: Pinot, nodes: seq<NodeSpec>, hash: HashFunction, r: Row): Template
    requires RowMatches(pt, nodes, r)
  {
    TemplateOf(pt, nodes[r.node], pt.nodeConfigs[r.config], pt.k8sConfigs[r.k8s], hash, GeneratedBy(pt, nodes, r.node, r.config))
  }

  ghost function ServiceAt(pt: Pinot, nodes: seq<NodeSpec>, r: Row): Service
    requires RowMatches(pt, nodes, r)
  {
    ServiceOf(pt, nodes[r.node], pt.k8sConfigs[r.k8s])
  }

  ghost function ClaimsAt(pt: Pinot, nodes: seq<NodeSpec>, r: Row): seq<ClaimView>
    requires RowMatches(pt, nodes, r)
  {
    AliasedClaims(pt, nodes[r.node], pt.k8sConfigs[r.k8s])
  }

  datatype Generated = Generated(
    configMaps: seq<ConfigMap>, workloads: seq<Workload>, services: seq<Service>, claims: seq<Claim>, memory: Memory)

  predicate Sound(g: Generated) {
    && InMemory(g.memory, g.claims)
    && (forall i :: 0 <= i < |g.workloads| ==> InMemory(g.memory, g.workloads[i].claims))
  }

  /** The generated lists with every claim address followed are the ones the rows prescribe. */
  ghost predicate Expands(pt: Pinot, nodes: seq<NodeSpec>, hash: HashFunction, rows: seq<Row>, g: Generated)
    requires AllRowsMatch(pt, nodes, rows)
  {
    && Sound(g)
    && |g.workloads| == |rows|
    && |g.services| == |rows|
    && (forall n :: 0 <= n < |rows| ==> WorkloadFits(pt, nodes, hash, rows[n], g.workloads[n], g.memory))
    && (forall n :: 0 <= n < |rows| ==> g.services[n] == ServiceAt(pt, nodes, rows[n]))
    && FollowAll(g.memory, g.claims) == ClaimsOf(pt, nodes, rows)
  }

  ghost predicate WorkloadFits(pt: Pinot, nodes: seq<NodeSpec>, hash: HashFunction, r: Row, w: Workload, mem: Memory) {
    && RowMatches(pt, nodes, r)
    && InMemory(mem, w.claims)
    && w.template == TemplateAt(pt, nodes, hash, r)
    && FollowAll(mem, w.claims) == ClaimsAt(pt, nodes, r)
  }

  ghost function ClaimsOf(pt: Pinot, nodes: seq<NodeSpec>, rows: seq<Row>): seq<ClaimView>
    requires AllRowsMatch(pt, nodes, rows)
  {
    if rows == [] then [] else
    ClaimsOf(pt, nodes, rows[..|rows| - 1]) + ClaimsAt(pt, nodes, rows[|rows| - 1])
  }

  lemma MemoryGrows(mem: Memory, mem': Memory, claims: seq<Claim>)
    requires mem <= mem' && InMemory(mem, claims)
    ensures InMemory(mem', claims) && FollowAll(mem', claims) == FollowAll(mem, claims)
  {
  }

  lemma WorkloadStillFits(pt: Pinot, nodes: seq<NodeSpec>, hash: HashFunction, r: Row, w: Workload,
                          mem: Memory, mem': Memory)
    requires mem <= mem' && WorkloadFits(pt, nodes, hash, r, w, mem)
    ensures WorkloadFits(pt, nodes, hash, r, w, mem')
  {
    MemoryGrows(mem, mem', w.claims);
  }

  lemma ClaimsAppend(mem: Memory, mem': Memory, a: seq<Claim>, b: seq<Claim>)
    requires mem <= mem' && InMemory(mem, a) && InMemory(mem', b)
    ensures InMemory(mem', a + b) && FollowAll(mem', a + b) == FollowAll(mem, a) + FollowAll(mem', b)
  {
  }

  lemma AddedRowExpands(pt: Pinot, nodes: seq<NodeSpec>, hash: HashFunction, rows: seq<Row>, row: Row, g: Generated,
                        w: Workload, service: Service, claims: seq<Claim>, mem: Memory)
    requires AllRowsMatch(pt, nodes, rows) && RowMatches(pt, nodes, row) && Expands(pt, nodes, hash, rows, g)
    requires g.memory <= mem && WorkloadFits(pt, nodes, hash, row, w, mem)
    requires service == ServiceAt(pt, nodes, row)
    requires InMemory(mem, claims) && FollowAll(mem, claims) == ClaimsAt(pt, nodes, row)
    ensures AllRowsMatch(pt, nodes, rows + [row])
    ensures Expands(pt, nodes, hash, rows + [row],
                    Generated(g.configMaps, g.workloads + [w], g.services + [service], g.claims + claims, mem))
  {
    AddedClaims(pt, nodes, rows, row, g.memory, mem, g.claims, claims);
    AddedWorkloads(pt, nodes, hash, rows, row, g.workloads, w, g.memory, mem);
  }

  lemma AddedClaims(pt: Pinot, nodes: seq<NodeSpec>, rows: seq<Row>, row: Row, mem: Memory, mem': Memory,
                    a: seq<Claim>, b: seq<Claim>)
    requires AllRowsMatch(pt, nodes, rows) && RowMatches(pt, nodes, row) && AllRowsMatch(pt, nodes, rows + [row])
    requires mem <= mem' && InMemory(mem, a) && InMemory(mem', b)
    requires FollowAll(mem, a) == ClaimsOf(pt, nodes, rows) && FollowAll(mem', b) == ClaimsAt(pt, nodes, row)
    ensures InMemory(mem', a + b) && FollowAll(mem', a + b) == ClaimsOf(pt, nodes, rows + [row])
  {
    assert (rows + [row])[..|rows|] == rows;
    ClaimsAppend(mem, mem', a, b);
  }

  lemma AddedWorkloads(pt: Pinot, nodes: seq<NodeSpec>, hash: HashFunction, rows: seq<Row>, row: Row,
                       ws: seq<Workload>, w: Workload, mem: Memory, mem': Memory)
    requires |ws| == |rows| && mem <= mem' && WorkloadFits(pt, nodes, hash, row, w, mem')
    requires forall n :: 0 <= n < |rows| ==> WorkloadFits(pt, nodes, hash, rows[n], ws[n], mem)
    ensures forall n :: 0 <= n <= |rows| ==> WorkloadFits(pt, nodes, hash, (rows + [row])[n], (ws + [w])[n], mem')
  {
    forall n | 0 <= n < |rows|
      ensures WorkloadFits(pt, nodes, hash, rows[n], ws[n], mem')
    {
      WorkloadStillFits(pt, nodes, hash, rows[n], ws[n], mem, mem');
    }
  }

  lemma {:induction false} NoPairNoRows(pt: Pinot, nodes: seq<NodeSpec>, i: nat, j: nat, m: nat)
    requires !PairMatches(pt, nodes, Pair(i, j))
    ensures RowsTo(pt, nodes, i, j, m) == RowsTo(pt, nodes, i, j, 0)
    decreases m
  {
    if m > 0 { NoPairNoRows(pt, nodes, i, j, m - 1); }
  }

  /** `makeStsOrDeploy`: its own storage loop, hence its own loop variable. */
  method MakeStsOrDeploy(pt: Pinot, node: NodeSpec, config: NodeConfig, k8s: K8sConfig, hash: HashFunction,
                         cms: seq<ConfigMap>, mem: Memory) returns (w: Workload, mem': Memory)
    ensures w.template == TemplateOf(pt, node, config, k8s, hash, cms)
    ensures mem <= mem' && InMemory(mem', w.claims) && FollowAll(mem', w.claims) == AliasedClaims(pt, node, k8s)
  {
    var env := GetEnv(pt, config, k8s, hash, cms);
    var mounts := GetVolumeMounts(pt, node, k8s);
    var template := Template(
      StsOrDeployName(node.name, node.k8sConfig), pt.namespace, MakeLabels(pt, node),
      ToInt32(node.replicas), node.kind, SvcName(node.name, k8s.name),
      node.name + "-" + node.nodeType, ArgsOf(pt, node.nodeType), env, mounts, VolumesOf(pt, node, k8s), k8s.pod);
    var claims;
    claims, mem' := StorageLoop(pt, node, k8s, mem);
    w := Workload(template, claims);
  }

  /** One iteration of the innermost loop whose names match. */
  method AddRow(pt: Pinot, nodes: seq<NodeSpec>, hash: HashFunction, ghost rows: seq<Row>, row: Row, g: Generated)
    returns (g': Generated)
    requires AllRowsMatch(pt, nodes, rows) && RowMatches(pt, nodes, row) && Expands(pt, nodes, hash, rows, g)
    requires g.configMaps == GeneratedBy(pt, nodes, row.node, row.config)
    ensures AllRowsMatch(pt, nodes, rows + [row]) && Expands(pt, nodes, hash, rows + [row], g')
    ensures g'.configMaps == g.configMaps
  {
    var node, config, k8s := nodes[row.node], pt.nodeConfigs[row.config], pt.k8sConfigs[row.k8s];
    var w, mem1 := MakeStsOrDeploy(pt, node, config, k8s, hash, g.configMaps, g.memory);
    assert WorkloadFits(pt, nodes, hash, row, w, mem1);
    var service := Service(SvcName(node.name, node.k8sConfig), pt.namespace, MakeLabels(pt, node),
                           MakeLabels(pt, node), k8s.service);
    assert service == ServiceAt(pt, nodes, row);
    var claims, mem2 := StorageLoop(pt, node, k8s, mem1);
    WorkloadStillFits(pt, nodes, hash, row, w, mem1, mem2);
    AddedRowExpands(pt, nodes, hash, rows, row, g, w, service, claims, mem2);
    g' := Generated(g.configMaps, g.workloads + [w], g.services + [service], g.claims + claims, mem2);
  }

  lemma RowsNext(pt: Pinot, nodes: seq<NodeSpec>, i: nat, j: nat, m: nat)
    requires PairMatches(pt, nodes, Pair(i, j)) && m < |pt.k8sConfigs|
    ensures RowMatches(pt, nodes, Row(i, j, m)) <==> nodes[i].k8sConfig == pt.k8sConfigs[m].name
    ensures RowMatches(pt, nodes, Row(i, j, m)) ==>
              RowsTo(pt, nodes, i, j, m + 1) == RowsTo(pt, nodes, i, j, m) + [Row(i, j, m)]
    ensures !RowMatches(pt, nodes, Row(i, j, m)) ==> RowsTo(pt, nodes, i, j, m + 1) == RowsTo(pt, nodes, i, j, m)
  {
  }

  /** The loop over k8s configs, entered once per node and matching node config. */
  method K8sLoop(pt: Pinot, nodes: seq<NodeSpec>, hash: HashFunction, i: nat, j: nat, g: Generated)
    returns (g': Generated)
    requires PairMatches(pt, nodes, Pair(i, j))
    requires AllRowsMatch(pt, nodes, RowsTo(pt, nodes, i, j, 0))
    requires Expands(pt, nodes, hash, RowsTo(pt, nodes, i, j, 0), g)
    requires g.configMaps == GeneratedBy(pt, nodes, i, j)
    ensures AllRowsMatch(pt, nodes, RowsTo(pt, nodes, i, j + 1, 0))
    ensures Expands(pt, nodes, hash, RowsTo(pt, nodes, i, j + 1, 0), g') && g'.configMaps == g.configMaps
  {
    g' := g;
    for m := 0 to |pt.k8sConfigs|
      invariant g'.configMaps == g.configMaps
      invariant AllRowsMatch(pt, nodes, RowsTo(pt, nodes, i, j, m))
      invariant Expands(pt, nodes, hash, RowsTo(pt, nodes, i, j, m), g')
    {
      RowsNext(pt, nodes, i, j, m);
      if nodes[i].k8sConfig == pt.k8sConfigs[m].name {
        g' := AddRow(pt, nodes, hash, RowsTo(pt, nodes, i, j, m), Row(i, j, m), g');
      }
    }
  }

  lemma NextConfigMap(pt: Pinot, nodes: seq<NodeSpec>, i: nat, j: nat)
    requires PairMatches(pt, nodes, Pair(i, j))
    ensures AllPairsMatch(pt, nodes, PairsTo(pt, nodes, i, j)) && AllPairsMatch(pt, nodes, PairsTo(pt, nodes, i, j + 1))
    ensures ConfigMapsOf(pt, nodes, PairsTo(pt, nodes, i, j + 1))
         == ConfigMapsOf(pt, nodes, PairsTo(pt, nodes, i, j)) + [ConfigMapOf(pt, pt.nodeConfigs[j], nodes[i])]
  {
    PairsToMatch(pt, nodes, i, j);
    PairsToMatch(pt, nodes, i, j + 1);
    assert PairsTo(pt, nodes, i, j + 1) == PairsTo(pt, nodes, i, j) + [Pair(i, j)];
  }

  /** The config loop's body for node `i` and config `j`. */
  method ConfigStep(pt: Pinot, nodes: seq<NodeSpec>, hash: HashFunction, i: nat, j: nat, g: Generated)
    returns (g': Generated)
    requires i < |nodes| && j < |pt.nodeConfigs|
    requires AllPairsMatch(pt, nodes, PairsTo(pt, nodes, i, j)) && AllRowsMatch(pt, nodes, RowsTo(pt, nodes, i, j, 0))
    requires Expands(pt, nodes, hash, RowsTo(pt, nodes, i, j, 0), g)
    requires g.configMaps == ConfigMapsOf(pt, nodes, PairsTo(pt, nodes, i, j))
    ensures AllPairsMatch(pt, nodes, PairsTo(pt, nodes, i, j + 1)) && AllRowsMatch(pt, nodes, RowsTo(pt, nodes, i, j + 1, 0))
    ensures Expands(pt, nodes, hash, RowsTo(pt, nodes, i, j + 1, 0), g')
    ensures g'.configMaps == ConfigMapsOf(pt, nodes, PairsTo(pt, nodes, i, j + 1))
  {
    if nodes[i].pinotNodeConfig == pt.nodeConfigs[j].name {
      NextConfigMap(pt, nodes, i, j);
      var cm := MakeConfigMap(pt, pt.nodeConfigs[j], nodes[i]);
      g' := g.(configMaps := g.configMaps + [cm]);
      g' := K8sLoop(pt, nodes, hash, i, j, g');
    } else {
      g' := g;
      NoPairNoRows(pt, nodes, i, j, |pt.k8sConfigs|);
      assert PairsTo(pt, nodes, i, j + 1) == PairsTo(pt, nodes, i, j);
    }
  }

  /** `do` up to the point where the lists go to the builder. */
  method Do(pt: Pinot, hash: HashFunction) returns (out: Option<Generated>)
    ensures out.None? <==> |pt.deploymentOrder| < 4
    ensures out.Some? ==>
      var nodes := Ordered(pt.nodes, pt.deploymentOrder);
      var pairs, rows := PairsTo(pt, nodes, |nodes|, 0), RowsTo(pt, nodes, |nodes|, 0, 0);
      && AllPairsMatch(pt, nodes, pairs) && AllRowsMatch(pt, nodes, rows)
      && out.value.configMaps == ConfigMapsOf(pt, nodes, pairs)
      && Expands(pt, nodes, hash, rows, out.value)
  {
    var all := GetAllNodeSpecForNodeType(pt);
    if all.None? { return None; }
    var nodes := all.value;
    var g := Generated([], [], [], [], []);
    for i := 0 to |nodes|
      invariant AllPairsMatch(pt, nodes, PairsTo(pt, nodes, i, 0)) && AllRowsMatch(pt, nodes, RowsTo(pt, nodes, i, 0, 0))
      invariant g.configMaps == ConfigMapsOf(pt, nodes, PairsTo(pt, nodes, i, 0))
      invariant Expands(pt, nodes, hash, RowsTo(pt, nodes, i, 0, 0), g)
    {
      for j := 0 to |pt.nodeConfigs|
        invariant AllPairsMatch(pt, nodes, PairsTo(pt, nodes, i, j)) && AllRowsMatch(pt, nodes, RowsTo(pt, nodes, i, j, 0))
        invariant g.configMaps == ConfigMapsOf(pt, nodes, PairsTo(pt, nodes, i, j))
        invariant Expands(pt, nodes, hash, RowsTo(pt, nodes, i, j, 0), g)
      {
        g := ConfigStep(pt, nodes, hash, i, j, g);
      }
    }
    out := Some(g);
  }
}
