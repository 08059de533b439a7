/** What stands in the generated objects, field by field: names, labels, container, configuration. */
module Contents {
  import opened Json
  import opened Expansion
  import opened ExpansionProofs

  predicate KnownType(t: string) { t == "controller" || t == "broker" || t == "server" || t == "minion" }

  // ------------------------------------------------------------------ names and labels

  lemma LabelsSpelled(pt: Pinot, node: NodeSpec)
    ensures var l := MakeLabels(pt, node);
            && l.Keys == {"app", "custom_resource", "nodeType", "pinotConfigGroup", "k8sConfigGroup"}
            && l["app"] == "pinot" && l["custom_resource"] == pt.name && l["nodeType"] == node.nodeType
            && l["pinotConfigGroup"] == node.pinotNodeConfig && l["k8sConfigGroup"] == node.k8sConfig
  {
  }

  /** The service of a row is named after node and k8s config, selects by its own labels and passes the
      k8s config's service spec on; so are the claims, which are named after the node alone. */
  lemma ServiceSpelled(pt: Pinot, nodes: seq<NodeSpec>, r: Row)
    requires RowMatches(pt, nodes, r)
    ensures var s, node, k8s := ServiceAt(pt, nodes, r), nodes[r.node], pt.k8sConfigs[r.k8s];
            && s.name == node.name + "-" + k8s.name + "-svc" && s.namespace == pt.namespace
            && s.labels == MakeLabels(pt, node) && s.selector == MakeLabels(pt, node) && s.spec == k8s.service
    ensures forall c :: c in ClaimsAt(pt, nodes, r) ==>
              c.name == nodes[r.node].name + "-pvc" && c.namespace == pt.namespace && c.labels == MakeLabels(pt, nodes[r.node])
  {
    var node := nodes[r.node];
    assert node.name + "-" + node.k8sConfig + "-" + "svc" == node.name + "-" + node.k8sConfig + "-svc";
    assert node.name + "-" + "pvc" == node.name + "-pvc";
  }

  // ------------------------------------------------------------------ config maps

  /** The data of the last deep storage entry of a type, if there is one. */
  lemma {:induction false} DeepStorageIsLast(entries: seq<DeepStorage>, t: string)
    ensures DeepStorageOf(entries, t).None? <==> forall i :: 0 <= i < |entries| ==> entries[i].nodeType != t
    ensures DeepStorageOf(entries, t).Some? ==>
              exists i :: 0 <= i < |entries| && entries[i].nodeType == t && entries[i].data == DeepStorageOf(entries, t).value
                && forall j :: i < j < |entries| ==> entries[j].nodeType != t
  {
    if entries != [] {
      var last := |entries| - 1;
      if entries[last].nodeType == t {
        assert entries[last].data == DeepStorageOf(entries, t).value;
      } else {
        DeepStorageIsLast(entries[..last], t);
        if DeepStorageOf(entries, t).Some? {
          var i :| 0 <= i < last && entries[..last][i].nodeType == t && entries[..last][i].data == DeepStorageOf(entries, t).value
            && forall j :: i < j < last ==> entries[..last][j].nodeType != t;
          assert entries[i] == entries[..last][i];
          assert forall j :: i < j < last ==> entries[j] == entries[..last][j];
        } else {
          assert forall i :: 0 <= i < last ==> entries[i] == entries[..last][i];
        }
      }
    }
  }

  /** The one file of a known type, and its text: the node config's data, for controllers the cluster name
      and the ZooKeeper address, and then the deep storage configuration of the type. */
  lemma ConfigMapSpelled(pt: Pinot, config: NodeConfig, node: NodeSpec)
    ensures var cm, t := ConfigMapOf(pt, config, node), node.nodeType;
            && cm.name == pt.name + "-" + config.name + "-config" && cm.namespace == pt.namespace
            && cm.labels == MakeLabels(pt, node)
            && (!KnownType(t) ==> cm.data == map[])
            && (KnownType(t) ==>
                  cm.data.Keys == {"pinot-" + t + ".conf"} &&
                  cm.data["pinot-" + t + ".conf"] ==
                    config.data
                    + (if t == "controller"
                       then "\ncontroller.helix.cluster.name=" + pt.name + "\ncontroller.zk.str=" + pt.zkAddress else "")
                    + (match DeepStorageOf(pt.deepStorage, t) case None => "" case Some(d) => "\n" + d))
  {
    var t := node.nodeType;
    FileSpelled(t);
    assert pt.name + "-" + config.name + "-" + "config" == pt.name + "-" + config.name + "-config";
    assert "\n" + "controller.helix.cluster.name=" == "\ncontroller.helix.cluster.name=";
    assert "\n" + "controller.zk.str=" == "\ncontroller.zk.str=";
    ControllerLines(pt.name, pt.zkAddress);
  }

  lemma ControllerLines(cluster: string, zk: string)
    ensures "\n" + "controller.helix.cluster.name=" + cluster + "\n" + "controller.zk.str=" + zk
         == "\ncontroller.helix.cluster.name=" + cluster + "\ncontroller.zk.str=" + zk
  {
    assert "\n" + "controller.helix.cluster.name=" == "\ncontroller.helix.cluster.name=";
    assert "\n" + "controller.zk.str=" == "\ncontroller.zk.str=";
    TwoLines("\n", "controller.helix.cluster.name=", cluster, "controller.zk.str=", zk);
  }

  lemma TwoLines(nl: string, a: string, x: string, b: string, y: string)
    ensures nl + a + x + nl + b + y == (nl + a) + x + (nl + b) + y
  {
  }

  lemma FileSpelled(t: string)
    ensures ConfName(t) == if KnownType(t) then Some("pinot-" + t + ".conf") else None
  {
    assert "pinot-" + "controller" + ".conf" == "pinot-controller.conf";
    assert "pinot-" + "broker" + ".conf" == "pinot-broker.conf";
    assert "pinot-" + "server" + ".conf" == "pinot-server.conf";
    assert "pinot-" + "minion" + ".conf" == "pinot-minion.conf";
  }

  // ------------------------------------------------------------------ Java options

  /** Every plugin appears once and in order. */
  lemma {:induction false} PluginsInOrder(a: seq<string>, b: seq<string>)
    ensures PluginOptions(a + b) == PluginOptions(a) + PluginOptions(b)
    ensures forall p :: PluginOptions([p]) == "-Dplugins.include=" + p
  {
    forall p
      ensures PluginOptions([p]) == "-Dplugins.include=" + p
    {
      assert [p][..0] == [];
    }
    if b == [] {
      assert a + b == a;
      assert PluginOptions(a) + "" == PluginOptions(a);
    } else {
      var n := |b| - 1;
      assert (a + b)[..|a + b| - 1] == a + b[..n];
      PluginsInOrder(a, b[..n]);
      assert PluginOptions(a) + PluginOptions(b[..n]) + "-Dplugins.include=" + b[n]
          == PluginOptions(a) + (PluginOptions(b[..n]) + "-Dplugins.include=" + b[n]);
    }
  }

  /** The Java options are the node config's own, and after a blank those of all plugins, if plugins are
      listed at all; for any plugin, what stands before it, the plugin, and what stands after it. */
  lemma JavaOptionsSpelled(pt: Pinot, config: NodeConfig, i: nat)
    ensures JavaOptions(pt, config).name == "JAVA_OPTS"
    ensures pt.plugins.None? ==> JavaOptions(pt, config).value == config.javaOpts
    ensures pt.plugins == Some([]) ==> JavaOptions(pt, config).value == config.javaOpts + " "
    ensures pt.plugins.Some? && i < |pt.plugins.value| ==>
              var ps := pt.plugins.value;
              JavaOptions(pt, config).value == config.javaOpts + " " +
                (PluginOptions(ps[..i]) + ("-Dplugins.include=" + ps[i]) + PluginOptions(ps[i + 1..]))
  {
    if pt.plugins == Some([]) {
      assert config.javaOpts + " " + "" == config.javaOpts + " ";
    } else if pt.plugins.Some? && i < |pt.plugins.value| {
      var ps := pt.plugins.value;
      assert ps == ps[..i] + [ps[i]] + ps[i + 1..];
      PluginsInOrder(ps[..i] + [ps[i]], ps[i + 1..]);
      PluginsInOrder(ps[..i], [ps[i]]);
    }
  }

  // ------------------------------------------------------------------ the container

  function StartCommand(t: string): string {
    if t == "controller" then "StartController" else if t == "broker" then "StartBroker"
    else if t == "server" then "StartServer" else "StartMinion"
  }

  /** The configuration file of a type, by its absolute path. */
  function ConfigPath(t: string): string { "/var/pinot/" + t + "/config/pinot-" + t + ".conf" }

  lemma ControllerPath()
    ensures ConfigPath("controller") == "/var/pinot/controller/config/pinot-controller.conf"
  {
  }

  lemma BrokerPath()
    ensures ConfigPath("broker") == "/var/pinot/broker/config/pinot-broker.conf"
  {
  }

  lemma ServerPath()
    ensures ConfigPath("server") == "/var/pinot/server/config/pinot-server.conf"
  {
  }

  lemma MinionPath()
    ensures ConfigPath("minion") == "/var/pinot/minion/config/pinot-minion.conf"
  {
  }

  /** All but controllers are told their cluster. */
  predicate ToldCluster(pt: Pinot, args: seq<string>) {
    |args| == 7 && args[1] == "-clusterName" && args[2] == pt.name && args[3] == "-zkAddress" && args[4] == pt.zkAddress
  }

  predicate StartsOn(args: seq<string>, command: string, path: string) {
    |args| >= 3 && args[0] == command && args[|args| - 2] == "-configFileName" && args[|args| - 1] == path
  }

  lemma ArgsSpelled(pt: Pinot, t: string)
    ensures !KnownType(t) ==> ArgsOf(pt, t) == []
    ensures KnownType(t) ==> StartsOn(ArgsOf(pt, t), StartCommand(t), ConfigPath(t))
    ensures KnownType(t) ==> if t == "controller" then |ArgsOf(pt, t)| == 3 else ToldCluster(pt, ArgsOf(pt, t))
  {
    ControllerPath();
    BrokerPath();
    ServerPath();
    MinionPath();
  }

  lemma MountPathSpelled(t: string)
    ensures ConfigMountPath(t) == if KnownType(t) then "/var/pinot/" + t + "/config" else ""
  {
    assert "/var/pinot/" + "controller" + "/config" == "/var/pinot/controller/config";
    assert "/var/pinot/" + "broker" + "/config" == "/var/pinot/broker/config";
    assert "/var/pinot/" + "server" + "/config" == "/var/pinot/server/config";
    assert "/var/pinot/" + "minion" + "/config" == "/var/pinot/minion/config";
  }

  lemma PathOfFile(t: string)
    ensures ConfigPath(t) == ("/var/pinot/" + t + "/config") + "/" + ("pinot-" + t + ".conf")
  {
    assert "/config/pinot-" == "/config" + "/" + "pinot-";
  }

  /** The fields of a workload that come straight from its node, its config and its k8s config. */
  lemma WorkloadSpelled(pt: Pinot, nodes: seq<NodeSpec>, hash: HashFunction, r: Row)
    requires RowMatches(pt, nodes, r)
    ensures var w, node, k8s := TemplateAt(pt, nodes, hash, r), nodes[r.node], pt.k8sConfigs[r.k8s];
            && w.name == node.name + "-" + k8s.name && w.namespace == pt.namespace && w.labels == MakeLabels(pt, node)
            && w.kind == node.kind && w.container == node.name + "-" + node.nodeType && w.pod == k8s.pod
            && (-0x8000_0000 <= node.replicas < 0x8000_0000 ==> w.replicas == node.replicas)
            && |w.volumes| == 1 + |k8s.volumes| && w.volumes[1..] == k8s.volumes
            && |w.mounts| == |k8s.storage| + 1 + |k8s.volumeMounts|
  {
    MountsCounted(nodes[r.node], pt.k8sConfigs[r.k8s].storage);
  }

  lemma {:induction false} MountsCounted(node: NodeSpec, storage: seq<StorageConfig>)
    ensures |StorageMounts(node, storage)| == |storage|
  {
    if storage != [] { MountsCounted(node, storage[..|storage| - 1]); }
  }

  /** A workload of a known node type starts that type, on the one file of its own config map, at the
      path where it mounts it, and for all but controllers in the right cluster. */
  lemma StartsItsOwnType(pt: Pinot, nodes: seq<NodeSpec>, hash: HashFunction, r: Row)
    requires RowMatches(pt, nodes, r) && KnownType(nodes[r.node].nodeType)
    ensures var w, t, n := TemplateAt(pt, nodes, hash, r), nodes[r.node].nodeType, |pt.k8sConfigs[r.k8s].storage|;
            var cm := ConfigMapOf(pt, pt.nodeConfigs[r.config], nodes[r.node]);
            var file := "pinot-" + t + ".conf";
            && cm.data.Keys == {file}
            && |w.mounts| > n && w.mounts[n].name == cm.name && w.volumes != [] && w.volumes[0] == ConfigMapVolume(cm.name, cm.name)
            && w.args != []
            && w.args[0] == (if t == "controller" then "StartController" else if t == "broker" then "StartBroker"
                             else if t == "server" then "StartServer" else "StartMinion")
            && StartsOn(w.args, w.args[0], w.mounts[n].mountPath + "/" + file)
            && (if t == "controller" then |w.args| == 3 else ToldCluster(pt, w.args))
  {
    var t, storage := nodes[r.node].nodeType, pt.k8sConfigs[r.k8s].storage;
    ArgsSpelled(pt, t);
    MountPathSpelled(t);
    PathOfFile(t);
    FileSpelled(t);
    MountsCounted(nodes[r.node], storage);
    ConfigMountAt(pt, nodes[r.node], pt.k8sConfigs[r.k8s]);
  }

  lemma ConfigMountAt(pt: Pinot, node: NodeSpec, k8s: K8sConfig)
    ensures var n, mounts := |k8s.storage|, MountsOf(pt, node, k8s);
            |mounts| > n && mounts[n] == VolumeMount(ConfigMountPath(node.nodeType), ConfigMapName(pt.name, node.pinotNodeConfig))
  {
    MountsCounted(node, k8s.storage);
  }
}
