/** How the other controllers find a Pinot cluster, and which pods a service reaches: both go by the
    labels the expansion puts on everything it generates. */
module Discovery {
  import opened Expansion

  predicate HasLabels(labels: Labels, wanted: Labels) {
    forall k :: k in wanted ==> k in labels && labels[k] == wanted[k]
  }

  function ControllerSelector(cluster: string): Labels {
    map["custom_resource" := cluster, "nodeType" := "controller"]
  }

  predicate Selected(s: Service, namespace: string, cluster: string) {
    s.namespace == namespace && HasLabels(s.labels, ControllerSelector(cluster))
  }

  function SelectedOf(services: seq<Service>, namespace: string, cluster: string): seq<Service> {
    if services == [] then [] else
    var last := services[|services| - 1];
    SelectedOf(services[..|services| - 1], namespace, cluster) + if Selected(last, namespace, cluster) then [last] else []
  }

  function Url(svcName: string, namespace: string): string {
    "http://" + svcName + "." + namespace + ".svc.cluster.local:" + "9000"
  }

  lemma PortAppended(host: string)
    ensures host + ".svc.cluster.local:" + "9000" == host + ".svc.cluster.local:9000"
  {
    assert ".svc.cluster.local:" + "9000" == ".svc.cluster.local:9000";
    assert host + ".svc.cluster.local:" + "9000" == host + (".svc.cluster.local:" + "9000");
  }

  /** The first listed service wins; without any the host part stays empty. */
  method GetControllerSvcUrl(services: seq<Service>, namespace: string, cluster: string) returns (url: string)
    ensures var items := SelectedOf(services, namespace, cluster);
            url == "http://" + (if items == [] then "" else items[0].name) + "." + namespace + ".svc.cluster.local:9000"
  {
    var items := [];
    for i := 0 to |services|
      invariant items == SelectedOf(services[..i], namespace, cluster)
    {
      assert services[..i + 1][..i] == services[..i];
      if Selected(services[i], namespace, cluster) { items := items + [services[i]]; }
    }
    assert services[..|services|] == services;
    var svcName := "";
    for i := 0 to |items|
      invariant svcName == if i == 0 then "" else items[0].name
    {
      svcName := items[0].name;
    }
    url := Url(svcName, namespace);
    PortAppended("http://" + svcName + "." + namespace);
  }

  /** `s` was generated from row `r` of resource `pt`. */
  ghost predicate GeneratedFrom(s: Service, pt: Pinot, nodes: seq<NodeSpec>, r: Row) {
    RowMatches(pt, nodes, r) && s == ServiceAt(pt, nodes, r)
  }

  /** A generated service is selected for a cluster exactly if it belongs to a controller node of the
      resource with that name and namespace. */
  lemma SelectedExactly(s: Service, pt: Pinot, nodes: seq<NodeSpec>, r: Row, namespace: string, cluster: string)
    requires GeneratedFrom(s, pt, nodes, r)
    ensures Selected(s, namespace, cluster) <==>
            pt.namespace == namespace && pt.name == cluster && nodes[r.node].nodeType == CONTROLLER
  {
    var wanted := ControllerSelector(cluster);
    var labels := MakeLabels(pt, nodes[r.node]);
    assert "custom_resource" in wanted && "nodeType" in wanted;
    assert labels["custom_resource"] == pt.name && labels["nodeType"] == nodes[r.node].nodeType;
  }

  lemma {:induction false} SelectedOfMembers(services: seq<Service>, namespace: string, cluster: string)
    ensures forall s :: s in SelectedOf(services, namespace, cluster) <==> s in services && Selected(s, namespace, cluster)
  {
    if services != [] {
      SelectedOfMembers(services[..|services| - 1], namespace, cluster);
      assert services == services[..|services| - 1] + [services[|services| - 1]];
    }
  }

  /** Where a service came from: a resource, its ordered nodes and a row. */
  datatype Origin = Origin(pt: Pinot, nodes: seq<NodeSpec>, row: Row)

  predicate ControllerOf(o: Origin, namespace: string, cluster: string) {
    && o.row.node < |o.nodes|
    && o.pt.namespace == namespace && o.pt.name == cluster
    && o.nodes[o.row.node].nodeType == CONTROLLER
  }

  /** Among the services of any number of resources, the lookup for a cluster sees exactly those of
      that cluster's controller nodes, and names one of them unless there are none. */
  lemma LookupFindsControllers(services: seq<Service>, origins: seq<Origin>, namespace: string, cluster: string)
    requires |services| == |origins|
    requires forall n :: 0 <= n < |services| ==>
      GeneratedFrom(services[n], origins[n].pt, origins[n].nodes, origins[n].row)
    ensures var items := SelectedOf(services, namespace, cluster);
            && (forall s :: s in items ==>
                  exists n :: 0 <= n < |services| && services[n] == s && ControllerOf(origins[n], namespace, cluster))
            && (forall n :: 0 <= n < |services| && ControllerOf(origins[n], namespace, cluster) ==> services[n] in items)
            && (items == [] <==> forall n :: 0 <= n < |services| ==> !ControllerOf(origins[n], namespace, cluster))
  {
    var items := SelectedOf(services, namespace, cluster);
    SelectedOfMembers(services, namespace, cluster);
    forall n | 0 <= n < |services|
      ensures Selected(services[n], namespace, cluster) <==> ControllerOf(origins[n], namespace, cluster)
    {
      SelectedExactly(services[n], origins[n].pt, origins[n].nodes, origins[n].row, namespace, cluster);
    }
    forall s | s in items
      ensures exists n :: 0 <= n < |services| && services[n] == s && ControllerOf(origins[n], namespace, cluster)
    {
      var n :| 0 <= n < |services| && services[n] == s;
      assert ControllerOf(origins[n], namespace, cluster);
    }
    if items != [] { assert items[0] in items; }
  }

  /** Within one cluster a service reaches the pods of another node exactly if both share node type,
      node config and k8s config; its own pods it always reaches. */
  lemma ServiceReachesExactly(pt: Pinot, nodes: seq<NodeSpec>, hash: HashFunction, r: Row, other: Row)
    requires RowMatches(pt, nodes, r) && RowMatches(pt, nodes, other)
    ensures HasLabels(TemplateAt(pt, nodes, hash, other).labels, ServiceAt(pt, nodes, r).selector) <==>
            && nodes[r.node].nodeType == nodes[other.node].nodeType
            && nodes[r.node].pinotNodeConfig == nodes[other.node].pinotNodeConfig
            && nodes[r.node].k8sConfig == nodes[other.node].k8sConfig
  {
    var mine, theirs := MakeLabels(pt, nodes[r.node]), MakeLabels(pt, nodes[other.node]);
    LabelsRead(pt, nodes[r.node]);
    LabelsRead(pt, nodes[other.node]);
    if HasLabels(theirs, mine) {
      assert "nodeType" in mine && "pinotConfigGroup" in mine && "k8sConfigGroup" in mine;
    }
  }

  lemma LabelsRead(pt: Pinot, node: NodeSpec)
    ensures var l := MakeLabels(pt, node);
            && "nodeType" in l && l["nodeType"] == node.nodeType
            && "pinotConfigGroup" in l && l["pinotConfigGroup"] == node.pinotNodeConfig
            && "k8sConfigGroup" in l && l["k8sConfigGroup"] == node.k8sConfig
  {
  }
}
