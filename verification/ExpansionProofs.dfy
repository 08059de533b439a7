/** What the expansion amounts to: an ordered join, one service per workload, hashes that react to
    exactly the node configs in use, and volume claims that share their loop's variable. */
module ExpansionProofs {
  import opened Json
  import opened Expansion

  // ------------------------------------------------------------------ the join

  /** Row `r` lies before the position (i, j, m) of the nested loops. */
  predicate BeforePosition(r: Row, i: nat, j: nat, m: nat) {
    r.node < i || (r.node == i && (r.config < j || (r.config == j && r.k8s < m)))
  }

  predicate Precedes(r: Row, s: Row) { BeforePosition(r, s.node, s.config, s.k8s) }

  ghost predicate StrictlySorted(rows: seq<Row>) {
    forall a, b :: 0 <= a < b < |rows| ==> Precedes(rows[a], rows[b])
  }

  lemma {:induction false} RowsBefore(pt: Pinot, nodes: seq<NodeSpec>, i: nat, j: nat, m: nat)
    requires j <= |pt.nodeConfigs| && m <= |pt.k8sConfigs|
    ensures forall r :: r in RowsTo(pt, nodes, i, j, m) <==> RowMatches(pt, nodes, r) && BeforePosition(r, i, j, m)
    decreases i, j, m
  {
    if m > 0 { RowsBefore(pt, nodes, i, j, m - 1); }
    else if j > 0 { RowsBefore(pt, nodes, i, j - 1, |pt.k8sConfigs|); }
    else if i > 0 { RowsBefore(pt, nodes, i - 1, |pt.nodeConfigs|, 0); }
  }

  lemma LaterRowKeepsOrder(rows: seq<Row>, r: Row)
    requires StrictlySorted(rows) && forall q :: q in rows ==> Precedes(q, r)
    ensures StrictlySorted(rows + [r])
  {
  }

  lemma {:induction false} RowsSorted(pt: Pinot, nodes: seq<NodeSpec>, i: nat, j: nat, m: nat)
    requires j <= |pt.nodeConfigs| && m <= |pt.k8sConfigs|
    ensures StrictlySorted(RowsTo(pt, nodes, i, j, m))
    decreases i, j, m
  {
    if m > 0 {
      RowsSorted(pt, nodes, i, j, m - 1);
      RowsBefore(pt, nodes, i, j, m - 1);
      LaterRowKeepsOrder(RowsTo(pt, nodes, i, j, m - 1), Row(i, j, m - 1));
    } else if j > 0 {
      RowsSorted(pt, nodes, i, j - 1, |pt.k8sConfigs|);
    } else if i > 0 {
      RowsSorted(pt, nodes, i - 1, |pt.nodeConfigs|, 0);
    }
  }

  /** The rows are the join of nodes, node configs and k8s configs on equal names: every matching
      triple exactly once, ordered by node, then node config, then k8s config. */
  lemma RowsAreTheJoin(pt: Pinot, nodes: seq<NodeSpec>)
    ensures var rows := RowsTo(pt, nodes, |nodes|, 0, 0);
            && StrictlySorted(rows)
            && forall r :: r in rows <==>
                 && r.node < |nodes| && r.config < |pt.nodeConfigs| && r.k8s < |pt.k8sConfigs|
                 && nodes[r.node].pinotNodeConfig == pt.nodeConfigs[r.config].name
                 && nodes[r.node].k8sConfig == pt.k8sConfigs[r.k8s].name
  {
    RowsBefore(pt, nodes, |nodes|, 0, 0);
    RowsSorted(pt, nodes, |nodes|, 0, 0);
  }

  // ------------------------------------------------------------------ workloads, services, config maps

  /** The n-th workload is served by the n-th service, under the same labels. */
  lemma ServiceFitsWorkload(pt: Pinot, nodes: seq<NodeSpec>, hash: HashFunction, rows: seq<Row>, g: Generated, n: nat)
    requires AllRowsMatch(pt, nodes, rows) && Expands(pt, nodes, hash, rows, g) && n < |g.workloads|
    ensures |g.services| == |g.workloads|
    ensures var w, s := g.workloads[n].template, g.services[n];
            w.serviceName == s.name && w.labels == s.labels == s.selector && w.namespace == s.namespace
  {
    assert RowMatches(pt, nodes, rows[n]);
    assert WorkloadFits(pt, nodes, hash, rows[n], g.workloads[n], g.memory);
    assert g.services[n] == ServiceAt(pt, nodes, rows[n]);
  }

  lemma {:induction false} PairsGrow(pt: Pinot, nodes: seq<NodeSpec>, i: nat, j: nat, i': nat, j': nat)
    requires j <= |pt.nodeConfigs| && j' <= |pt.nodeConfigs| && (i < i' || (i == i' && j <= j'))
    ensures PairsTo(pt, nodes, i, j) <= PairsTo(pt, nodes, i', j')
    decreases i', j'
  {
    if i == i' && j == j' {
    } else if j' > 0 {
      PairsGrow(pt, nodes, i, j, i', j' - 1);
    } else {
      PairsGrow(pt, nodes, i, j, i' - 1, |pt.nodeConfigs|);
    }
  }

  /** Every workload mounts a config map that was generated, with the workload's own node config,
      no later than the workload itself. */
  lemma VolumeNamesItsConfigMap(pt: Pinot, nodes: seq<NodeSpec>, hash: HashFunction, r: Row)
    requires RowMatches(pt, nodes, r)
    ensures AllPairsMatch(pt, nodes, PairsTo(pt, nodes, |nodes|, 0))
    ensures var cms, all := GeneratedBy(pt, nodes, r.node, r.config), ConfigMapsOf(pt, nodes, PairsTo(pt, nodes, |nodes|, 0));
            var volumes := TemplateAt(pt, nodes, hash, r).volumes;
            && cms != [] && cms <= all
            && cms[|cms| - 1] == ConfigMapOf(pt, pt.nodeConfigs[r.config], nodes[r.node])
            && volumes != [] && volumes[0] == ConfigMapVolume(cms[|cms| - 1].name, cms[|cms| - 1].name)
  {
    var pairs, all := PairsTo(pt, nodes, r.node, r.config + 1), PairsTo(pt, nodes, |nodes|, 0);
    PairsToMatch(pt, nodes, r.node, r.config + 1);
    PairsToMatch(pt, nodes, |nodes|, 0);
    PairsGrow(pt, nodes, r.node, r.config + 1, |nodes|, 0);
    ConfigMapsGrow(pt, nodes, pairs, all);
    OwnConfigMapIsLast(pt, nodes, r);
  }

  lemma OwnConfigMapIsLast(pt: Pinot, nodes: seq<NodeSpec>, r: Row)
    requires RowMatches(pt, nodes, r)
    ensures var cms := GeneratedBy(pt, nodes, r.node, r.config);
            cms != [] && cms[|cms| - 1] == ConfigMapOf(pt, pt.nodeConfigs[r.config], nodes[r.node])
  {
    var pairs := PairsTo(pt, nodes, r.node, r.config + 1);
    PairsToMatch(pt, nodes, r.node, r.config + 1);
    assert pairs[|pairs| - 1] == Pair(r.node, r.config);
  }

  lemma ConfigMapsGrow(pt: Pinot, nodes: seq<NodeSpec>, pairs: seq<Pair>, all: seq<Pair>)
    requires AllPairsMatch(pt, nodes, pairs) && AllPairsMatch(pt, nodes, all) && pairs <= all
    ensures ConfigMapsOf(pt, nodes, pairs) <= ConfigMapsOf(pt, nodes, all)
  {
  }

  // ------------------------------------------------------------------ hash entries

  function CountNamed(cms: seq<ConfigMap>, name: string): nat {
    if cms == [] then 0 else
    CountNamed(cms[..|cms| - 1], name) + if cms[|cms| - 1].name == name then 1 else 0
  }

  ghost predicate IsHashOf(hash: HashFunction, cms: seq<ConfigMap>, name: string, e: EnvVar) {
    exists p :: 0 <= p < |cms| && cms[p].name == name && e == HashEntry(hash, cms[p])
  }

  lemma {:induction false} HashEntries(hash: HashFunction, cms: seq<ConfigMap>, name: string)
    ensures var hs := HashesNamed(hash, cms, name);
            && |hs| == CountNamed(cms, name)
            && (forall x :: 0 <= x < |hs| ==> IsHashOf(hash, cms, name, hs[x]))
  {
    if cms != [] {
      var front := cms[..|cms| - 1];
      var hs, shorter := HashesNamed(hash, cms, name), HashesNamed(hash, front, name);
      HashEntries(hash, front, name);
      forall x | 0 <= x < |hs|
        ensures IsHashOf(hash, cms, name, hs[x])
      {
        if x < |shorter| {
          assert hs[x] == shorter[x] && IsHashOf(hash, front, name, shorter[x]);
          var p :| 0 <= p < |front| && front[p].name == name && shorter[x] == HashEntry(hash, front[p]);
          assert cms[p] == front[p];
        } else {
          assert cms[|cms| - 1].name == name && hs[x] == HashEntry(hash, cms[|cms| - 1]);
        }
      }
    }
  }

  /** The hash part of a workload's environment. */
  ghost function HashPart(pt: Pinot, nodes: seq<NodeSpec>, hash: HashFunction, r: Row): seq<EnvVar>
    requires RowMatches(pt, nodes, r)
  {
    HashesNamed(hash, GeneratedBy(pt, nodes, r.node, r.config), ConfigMapName(pt.name, pt.nodeConfigs[r.config].name))
  }

  /** A workload's environment ends with one hash entry per config map of its own name generated so
      far, at least one, the last one being that of its own config map; no other hash gets in. */
  lemma HashesAccumulate(pt: Pinot, nodes: seq<NodeSpec>, hash: HashFunction, r: Row)
    requires RowMatches(pt, nodes, r)
    ensures var config, k8s := pt.nodeConfigs[r.config], pt.k8sConfigs[r.k8s];
            var name := ConfigMapName(pt.name, config.name);
            var hs := HashPart(pt, nodes, hash, r);
            && TemplateAt(pt, nodes, hash, r).env == k8s.env + [JavaOptions(pt, config)] + hs
            && |hs| == CountNamed(GeneratedBy(pt, nodes, r.node, r.config), name)
            && |hs| >= 1
            && hs[|hs| - 1] == HashEntry(hash, ConfigMapOf(pt, config, nodes[r.node]))
            && (forall x :: 0 <= x < |hs| ==> hs[x].name == name)
  {
    var name := ConfigMapName(pt.name, pt.nodeConfigs[r.config].name);
    var cms := GeneratedBy(pt, nodes, r.node, r.config);
    OwnConfigMapIsLast(pt, nodes, r);
    HashEntries(hash, cms, name);
    LastHash(hash, cms, name);
  }

  lemma LastHash(hash: HashFunction, cms: seq<ConfigMap>, name: string)
    requires cms != [] && cms[|cms| - 1].name == name
    ensures var hs := HashesNamed(hash, cms, name);
            hs != [] && hs[|hs| - 1] == HashEntry(hash, cms[|cms| - 1])
  {
  }

  ghost predicate UniqueConfigNames(pt: Pinot) {
    forall a, b | 0 <= a < |pt.nodeConfigs| && 0 <= b < |pt.nodeConfigs| && a != b ::
      pt.nodeConfigs[a].name != pt.nodeConfigs[b].name
  }

  lemma ConfigMapNameInjective(pinot: string, a: string, b: string)
    ensures ConfigMapName(pinot, a) == ConfigMapName(pinot, b) <==> a == b
  {
    if ConfigMapName(pinot, a) == ConfigMapName(pinot, b) {
      var x, y := ConfigMapName(pinot, a), ConfigMapName(pinot, b);
      assert |x| == |pinot| + |a| + 8 && |y| == |pinot| + |b| + 8;
      assert x[|pinot| + 1..|pinot| + 1 + |a|] == a;
      assert y[|pinot| + 1..|pinot| + 1 + |b|] == b;
    }
  }

  /** When the nodes that share a config also share a node type, all hash entries of a workload have
      the value of its own config map. */
  lemma SharedTypeSharesHash(pt: Pinot, nodes: seq<NodeSpec>, hash: HashFunction, r: Row)
    requires RowMatches(pt, nodes, r) && UniqueConfigNames(pt)
    requires forall a, b | 0 <= a < |nodes| && 0 <= b < |nodes| ::
      nodes[a].pinotNodeConfig == nodes[b].pinotNodeConfig ==> nodes[a].nodeType == nodes[b].nodeType
    ensures forall x :: 0 <= x < |HashPart(pt, nodes, hash, r)| ==>
      HashPart(pt, nodes, hash, r)[x].value == hash(DataOf(pt, pt.nodeConfigs[r.config], nodes[r.node].nodeType))
  {
    var config := pt.nodeConfigs[r.config];
    var name := ConfigMapName(pt.name, config.name);
    var pairs := PairsTo(pt, nodes, r.node, r.config + 1);
    var cms := GeneratedBy(pt, nodes, r.node, r.config);
    PairsToMatch(pt, nodes, r.node, r.config + 1);
    HashEntries(hash, cms, name);
    forall x | 0 <= x < |HashPart(pt, nodes, hash, r)|
      ensures HashPart(pt, nodes, hash, r)[x].value == hash(DataOf(pt, config, nodes[r.node].nodeType))
    {
      assert IsHashOf(hash, cms, name, HashPart(pt, nodes, hash, r)[x]);
      var p :| 0 <= p < |cms| && cms[p].name == name && HashPart(pt, nodes, hash, r)[x] == HashEntry(hash, cms[p]);
      assert PairMatches(pt, nodes, pairs[p]);
      ConfigMapNameInjective(pt.name, pt.nodeConfigs[pairs[p].config].name, config.name);
    }
  }

  // ------------------------------------------------------------------ locality of a config change

  ghost predicate Injective(hash: HashFunction) {
    forall a, b :: a != b ==> hash(a) != hash(b)
  }

  /** The same resource with other data in node config `c`. */
  function WithData(pt: Pinot, c: nat, data: string): Pinot
    requires c < |pt.nodeConfigs|
  {
    pt.(nodeConfigs := pt.nodeConfigs[c := pt.nodeConfigs[c].(data := data)])
  }

  lemma {:induction false} SamePairs(pt: Pinot, c: nat, data: string, nodes: seq<NodeSpec>, i: nat, j: nat)
    requires c < |pt.nodeConfigs|
    ensures PairsTo(WithData(pt, c, data), nodes, i, j) == PairsTo(pt, nodes, i, j)
    decreases i, j
  {
    if j > 0 { SamePairs(pt, c, data, nodes, i, j - 1); }
    else if i > 0 { SamePairs(pt, c, data, nodes, i - 1, |pt.nodeConfigs|); }
  }

  lemma {:induction false} SameRows(pt: Pinot, c: nat, data: string, nodes: seq<NodeSpec>, i: nat, j: nat, m: nat)
    requires c < |pt.nodeConfigs|
    ensures RowsTo(WithData(pt, c, data), nodes, i, j, m) == RowsTo(pt, nodes, i, j, m)
    decreases i, j, m
  {
    if m > 0 { SameRows(pt, c, data, nodes, i, j, m - 1); }
    else if j > 0 { SameRows(pt, c, data, nodes, i, j - 1, |pt.k8sConfigs|); }
    else if i > 0 { SameRows(pt, c, data, nodes, i - 1, |pt.nodeConfigs|, 0); }
  }

  lemma {:induction false} HashesAgree(hash: HashFunction, cms: seq<ConfigMap>, cms': seq<ConfigMap>, name: string)
    requires Injective(hash) && |cms| == |cms'|
    requires forall p :: 0 <= p < |cms| ==> cms[p].name == cms'[p].name
    ensures |HashesNamed(hash, cms, name)| == |HashesNamed(hash, cms', name)|
    ensures HashesNamed(hash, cms, name) == HashesNamed(hash, cms', name) <==>
            forall p :: 0 <= p < |cms| && cms[p].name == name ==> cms[p].data == cms'[p].data
  {
    if cms != [] {
      var n := |cms| - 1;
      HashesAgree(hash, cms[..n], cms'[..n], name);
      var a, b := HashesNamed(hash, cms[..n], name), HashesNamed(hash, cms'[..n], name);
      var x := if cms[n].name == name then [HashEntry(hash, cms[n])] else [];
      var y := if cms'[n].name == name then [HashEntry(hash, cms'[n])] else [];
      AppendEqual(a, x, b, y);
    }
  }

  lemma AppendEqual<T>(a: seq<T>, x: seq<T>, b: seq<T>, y: seq<T>)
    requires |a| == |b|
    ensures a + x == b + y <==> a == b && x == y
  {
    if a + x == b + y {
      assert (a + x)[..|a|] == a && (b + y)[..|b|] == b;
      assert (a + x)[|a|..] == x && (b + y)[|b|..] == y;
    }
  }

  /** The config map of a pair changes exactly if it belongs to the edited config and its node has
      one of the four known types. */
  lemma ChangedData(pt: Pinot, c: nat, data: string, p: Pair, nodeType: string)
    requires c < |pt.nodeConfigs| && p.config < |pt.nodeConfigs| && data != pt.nodeConfigs[c].data
    ensures DataOf(pt, pt.nodeConfigs[p.config], nodeType)
              == DataOf(WithData(pt, c, data), WithData(pt, c, data).nodeConfigs[p.config], nodeType)
            <==> !(p.config == c && ConfName(nodeType).Some?)
  {
    if ConfName(nodeType).Some? {
      var before, after := pt.nodeConfigs[p.config].data, WithData(pt, c, data).nodeConfigs[p.config].data;
      SuffixCancels(before, after, BaseSuffix(pt, nodeType), DeepSuffix(pt.deepStorage, nodeType));
      DataIsData(pt, pt.nodeConfigs[p.config], WithData(pt, c, data), WithData(pt, c, data).nodeConfigs[p.config], nodeType);
    }
  }

  lemma SuffixCancels(a: string, b: string, s: string, t: string)
    ensures a + s + t == b + s + t <==> a == b
  {
    if a + s + t == b + s + t {
      assert |a| == |b|;
      AppendEqual(a + s, t, b + s, t);
      AppendEqual(a, s, b, s);
    }
  }

  lemma DataIsData(pt: Pinot, config: NodeConfig, pt': Pinot, config': NodeConfig, nodeType: string)
    requires ConfName(nodeType).Some?
    ensures DataOf(pt, config, nodeType) == DataOf(pt', config', nodeType) <==>
            config.data + BaseSuffix(pt, nodeType) + DeepSuffix(pt.deepStorage, nodeType)
            == config'.data + BaseSuffix(pt', nodeType) + DeepSuffix(pt'.deepStorage, nodeType)
  {
    var file := ConfName(nodeType).value;
    var d, d' := DataOf(pt, config, nodeType), DataOf(pt', config', nodeType);
    if d == d' { assert d[file] == d'[file]; }
  }

  /** Some node up to `r.node` uses config `c` and has a known type. */
  predicate Reacts(pt: Pinot, nodes: seq<NodeSpec>, c: nat, r: Row)
    requires c < |pt.nodeConfigs|
  {
    r.config == c &&
    exists k :: 0 <= k <= r.node && k < |nodes| &&
      nodes[k].pinotNodeConfig == pt.nodeConfigs[c].name && ConfName(nodes[k].nodeType).Some?
  }

  lemma {:induction false} PairsBefore(pt: Pinot, nodes: seq<NodeSpec>, i: nat, j: nat)
    requires j <= |pt.nodeConfigs|
    ensures forall p :: p in PairsTo(pt, nodes, i, j) <==>
              PairMatches(pt, nodes, p) && (p.node < i || (p.node == i && p.config < j))
    decreases i, j
  {
    if j > 0 { PairsBefore(pt, nodes, i, j - 1); }
    else if i > 0 { PairsBefore(pt, nodes, i - 1, |pt.nodeConfigs|); }
  }

  /** Hash parts of the two runs agree unless the row reacts. */
  lemma HashPartLocality(pt: Pinot, nodes: seq<NodeSpec>, hash: HashFunction, c: nat, data: string, r: Row)
    requires Injective(hash) && UniqueConfigNames(pt)
    requires c < |pt.nodeConfigs| && data != pt.nodeConfigs[c].data && RowMatches(pt, nodes, r)
    ensures RowMatches(WithData(pt, c, data), nodes, r)
    ensures HashPart(pt, nodes, hash, r) == HashPart(WithData(pt, c, data), nodes, hash, r) <==> !Reacts(pt, nodes, c, r)
  {
    var pt' := WithData(pt, c, data);
    var pairs := PairsTo(pt, nodes, r.node, r.config + 1);
    SamePairs(pt, c, data, nodes, r.node, r.config + 1);
    PairsToMatch(pt, nodes, r.node, r.config + 1);
    PairsToMatch(pt', nodes, r.node, r.config + 1);
    PairsBefore(pt, nodes, r.node, r.config + 1);
    var cms, cms' := GeneratedBy(pt, nodes, r.node, r.config), GeneratedBy(pt', nodes, r.node, r.config);
    var name := ConfigMapName(pt.name, pt.nodeConfigs[r.config].name);
    HashesAgree(hash, cms, cms', name);
    forall n | 0 <= n < |pairs|
      ensures cms[n].name == name <==> pairs[n].config == r.config
      ensures cms[n].data == cms'[n].data <==> !(pairs[n].config == c && ConfName(nodes[pairs[n].node].nodeType).Some?)
    {
      assert PairMatches(pt, nodes, pairs[n]);
      ConfigMapNameInjective(pt.name, pt.nodeConfigs[pairs[n].config].name, pt.nodeConfigs[r.config].name);
      ChangedData(pt, c, data, pairs[n], nodes[pairs[n].node].nodeType);
    }
    if Reacts(pt, nodes, c, r) {
      var k :| 0 <= k <= r.node && k < |nodes| &&
        nodes[k].pinotNodeConfig == pt.nodeConfigs[c].name && ConfName(nodes[k].nodeType).Some?;
      assert Pair(k, c) in pairs;
      var n :| 0 <= n < |pairs| && pairs[n] == Pair(k, c);
      assert cms[n].name == name && cms[n].data != cms'[n].data;
    } else {
      forall n | 0 <= n < |cms| && cms[n].name == name
        ensures cms[n].data == cms'[n].data
      {
        assert pairs[n] in pairs && PairMatches(pt, nodes, pairs[n]);
      }
    }
  }

  /** Changing the data of one node config changes the generated workload of exactly the rows that
      react to it, and no service and no claim. */
  lemma ConfigChangeIsLocal(pt: Pinot, nodes: seq<NodeSpec>, hash: HashFunction, c: nat, data: string, r: Row)
    requires Injective(hash) && UniqueConfigNames(pt)
    requires c < |pt.nodeConfigs| && data != pt.nodeConfigs[c].data && RowMatches(pt, nodes, r)
    ensures var pt' := WithData(pt, c, data);
            && RowMatches(pt', nodes, r)
            && (TemplateAt(pt, nodes, hash, r) == TemplateAt(pt', nodes, hash, r) <==> !Reacts(pt, nodes, c, r))
            && ServiceAt(pt, nodes, r) == ServiceAt(pt', nodes, r)
            && ClaimsAt(pt, nodes, r) == ClaimsAt(pt', nodes, r)
  {
    var pt' := WithData(pt, c, data);
    HashPartLocality(pt, nodes, hash, c, data, r);
    var prefix := pt.k8sConfigs[r.k8s].env + [JavaOptions(pt, pt.nodeConfigs[r.config])];
    assert JavaOptions(pt, pt.nodeConfigs[r.config]) == JavaOptions(pt', pt'.nodeConfigs[r.config]);
    var t, t' := TemplateAt(pt, nodes, hash, r), TemplateAt(pt', nodes, hash, r);
    assert t.env == prefix + HashPart(pt, nodes, hash, r);
    assert t'.env == prefix + HashPart(pt', nodes, hash, r);
    AppendEqual(prefix, HashPart(pt, nodes, hash, r), prefix, HashPart(pt', nodes, hash, r));
    assert t' == t.(env := t'.env);
  }

  /** When the row's own node has a known type, reacting is using the edited config. */
  lemma ReactsIfUsing(pt: Pinot, nodes: seq<NodeSpec>, c: nat, r: Row)
    requires UniqueConfigNames(pt) && c < |pt.nodeConfigs| && RowMatches(pt, nodes, r)
    requires ConfName(nodes[r.node].nodeType).Some?
    ensures Reacts(pt, nodes, c, r) <==> nodes[r.node].pinotNodeConfig == pt.nodeConfigs[c].name
  {
  }

  lemma {:induction false} SameClaims(pt: Pinot, nodes: seq<NodeSpec>, c: nat, data: string, rows: seq<Row>)
    requires c < |pt.nodeConfigs| && AllRowsMatch(pt, nodes, rows) && AllRowsMatch(WithData(pt, c, data), nodes, rows)
    ensures ClaimsOf(pt, nodes, rows) == ClaimsOf(WithData(pt, c, data), nodes, rows)
  {
    if rows != [] {
      var front, r := rows[..|rows| - 1], rows[|rows| - 1];
      assert RowMatches(pt, nodes, r);
      SameClaims(pt, nodes, c, data, front);
      assert ClaimsAt(pt, nodes, r) == ClaimsAt(WithData(pt, c, data), nodes, r);
    }
  }

  /** Two expansions that differ in the data of one node config: the same rows, hence equally many
      workloads; the n-th template differs exactly if its row reacts; all services, all claims and
      each workload's own claims are equal. */
  lemma ConfigChangeAcrossRuns(pt: Pinot, nodes: seq<NodeSpec>, hash: HashFunction, c: nat, data: string,
                               g: Generated, g': Generated)
    requires Injective(hash) && UniqueConfigNames(pt)
    requires c < |pt.nodeConfigs| && data != pt.nodeConfigs[c].data
    requires AllRowsMatch(pt, nodes, RowsTo(pt, nodes, |nodes|, 0, 0))
    requires AllRowsMatch(WithData(pt, c, data), nodes, RowsTo(WithData(pt, c, data), nodes, |nodes|, 0, 0))
    requires Expands(pt, nodes, hash, RowsTo(pt, nodes, |nodes|, 0, 0), g)
    requires Expands(WithData(pt, c, data), nodes, hash, RowsTo(WithData(pt, c, data), nodes, |nodes|, 0, 0), g')
    ensures var rows := RowsTo(pt, nodes, |nodes|, 0, 0);
            && |g.workloads| == |g'.workloads| == |rows|
            && g.services == g'.services
            && FollowAll(g.memory, g.claims) == FollowAll(g'.memory, g'.claims)
            && (forall n :: 0 <= n < |rows| ==>
                  && (g.workloads[n].template == g'.workloads[n].template <==> !Reacts(pt, nodes, c, rows[n]))
                  && FollowAll(g.memory, g.workloads[n].claims) == FollowAll(g'.memory, g'.workloads[n].claims))
  {
    var pt' := WithData(pt, c, data);
    var rows := RowsTo(pt, nodes, |nodes|, 0, 0);
    SameRows(pt, c, data, nodes, |nodes|, 0, 0);
    SameClaims(pt, nodes, c, data, rows);
    forall n | 0 <= n < |rows|
      ensures g.workloads[n].template == g'.workloads[n].template <==> !Reacts(pt, nodes, c, rows[n])
      ensures FollowAll(g.memory, g.workloads[n].claims) == FollowAll(g'.memory, g'.workloads[n].claims)
      ensures g.services[n] == g'.services[n]
    {
      RowAcrossRuns(pt, nodes, hash, c, data, rows[n], g.workloads[n], g.memory, g'.workloads[n], g'.memory);
      assert RowMatches(pt, nodes, rows[n]);
      ConfigChangeIsLocal(pt, nodes, hash, c, data, rows[n]);
    }
  }

  lemma RowAcrossRuns(pt: Pinot, nodes: seq<NodeSpec>, hash: HashFunction, c: nat, data: string, r: Row,
                      w: Workload, mem: Memory, w': Workload, mem': Memory)
    requires Injective(hash) && UniqueConfigNames(pt)
    requires c < |pt.nodeConfigs| && data != pt.nodeConfigs[c].data
    requires WorkloadFits(pt, nodes, hash, r, w, mem) && WorkloadFits(WithData(pt, c, data), nodes, hash, r, w', mem')
    ensures w.template == w'.template <==> !Reacts(pt, nodes, c, r)
    ensures FollowAll(mem, w.claims) == FollowAll(mem', w'.claims)
  {
    ConfigChangeIsLocal(pt, nodes, hash, c, data, r);
  }

  // ------------------------------------------------------------------ claims share the loop variable

  /** Claims that each carry the spec of their own storage entry. */
  function FaithfulClaims(pt: Pinot, node: NodeSpec, k8s: K8sConfig): (views: seq<ClaimView>)
    ensures |views| == |k8s.storage|
    ensures forall i :: 0 <= i < |views| ==> views[i] == ClaimOf(pt, node, k8s.storage[i].pvcSpec)
  {
    seq(|k8s.storage|, i requires 0 <= i < |k8s.storage| => ClaimOf(pt, node, k8s.storage[i].pvcSpec))
  }

  ghost function FaithfulOf(pt: Pinot, nodes: seq<NodeSpec>, rows: seq<Row>): seq<ClaimView>
    requires AllRowsMatch(pt, nodes, rows)
  {
    if rows == [] then [] else
    var r := rows[|rows| - 1];
    assert RowMatches(pt, nodes, r);
    FaithfulOf(pt, nodes, rows[..|rows| - 1]) + FaithfulClaims(pt, nodes[r.node], pt.k8sConfigs[r.k8s])
  }

  ghost predicate UniformStorage(k8s: K8sConfig) {
    forall i, j :: 0 <= i < j < |k8s.storage| ==> k8s.storage[i].pvcSpec == k8s.storage[j].pvcSpec
  }

  lemma OneLoopFaithful(pt: Pinot, node: NodeSpec, k8s: K8sConfig)
    ensures AliasedClaims(pt, node, k8s) == FaithfulClaims(pt, node, k8s) <==> UniformStorage(k8s)
  {
    var a, f, n := AliasedClaims(pt, node, k8s), FaithfulClaims(pt, node, k8s), |k8s.storage|;
    if a == f {
      forall i | 0 <= i < n
        ensures k8s.storage[i].pvcSpec == k8s.storage[n - 1].pvcSpec
      {
        assert a[i] == f[i];
      }
    }
  }

  lemma {:induction false} ClaimsFaithful(pt: Pinot, nodes: seq<NodeSpec>, rows: seq<Row>)
    requires AllRowsMatch(pt, nodes, rows)
    ensures |ClaimsOf(pt, nodes, rows)| == |FaithfulOf(pt, nodes, rows)|
    ensures ClaimsOf(pt, nodes, rows) == FaithfulOf(pt, nodes, rows) <==>
            forall n :: 0 <= n < |rows| ==> UniformStorage(pt.k8sConfigs[rows[n].k8s])
  {
    if rows != [] {
      var front, r := rows[..|rows| - 1], rows[|rows| - 1];
      assert RowMatches(pt, nodes, r);
      ClaimsFaithful(pt, nodes, front);
      OneLoopFaithful(pt, nodes[r.node], pt.k8sConfigs[r.k8s]);
      AppendEqual(ClaimsOf(pt, nodes, front), ClaimsAt(pt, nodes, r),
                  FaithfulOf(pt, nodes, front), FaithfulClaims(pt, nodes[r.node], pt.k8sConfigs[r.k8s]));
      assert forall n :: 0 <= n < |front| ==> front[n] == rows[n];
    }
  }

  /** Followed after the expansion, the volume claims are those of the resource exactly if within
      every joined k8s config all storage entries have equal specs. */
  lemma ClaimListFaithfulExactly(pt: Pinot, nodes: seq<NodeSpec>, hash: HashFunction, rows: seq<Row>, g: Generated)
    requires AllRowsMatch(pt, nodes, rows) && Expands(pt, nodes, hash, rows, g)
    ensures FollowAll(g.memory, g.claims) == FaithfulOf(pt, nodes, rows) <==>
            forall n :: 0 <= n < |rows| ==> UniformStorage(pt.k8sConfigs[rows[n].k8s])
  {
    ClaimsFaithful(pt, nodes, rows);
  }

  /** The same for the claim templates a workload carries itself. */
  lemma OwnClaimsFaithfulExactly(pt: Pinot, nodes: seq<NodeSpec>, hash: HashFunction, r: Row, w: Workload, mem: Memory)
    requires WorkloadFits(pt, nodes, hash, r, w, mem)
    ensures FollowAll(mem, w.claims) == FaithfulClaims(pt, nodes[r.node], pt.k8sConfigs[r.k8s]) <==>
            UniformStorage(pt.k8sConfigs[r.k8s])
  {
    OneLoopFaithful(pt, nodes[r.node], pt.k8sConfigs[r.k8s]);
  }

  // ------------------------------------------------------------------ ordered grouping

  function Occurrences(order: seq<string>, t: string): nat
    requires |order| >= 4
  {
    (if order[0] == t then 1 else 0) + (if order[1] == t then 1 else 0) +
    (if order[2] == t then 1 else 0) + (if order[3] == t then 1 else 0)
  }

  function Position(order: seq<string>, t: string): nat
    requires |order| >= 4
  {
    if order[0] == t then 0 else if order[1] == t then 1 else if order[2] == t then 2
    else if order[3] == t then 3 else 4
  }

  ghost predicate EachTypeOnce(nodes: seq<NodeSpec>, order: seq<string>)
    requires |order| >= 4
  {
    forall n :: n in nodes ==> Occurrences(order, n.nodeType) == 1
  }

  /** The same nodes, by position of their type in the order, original order within a type. */
  ghost predicate StableSort(nodes: seq<NodeSpec>, order: seq<string>, result: seq<NodeSpec>)
    requires |order| >= 4
  {
    && multiset(result) == multiset(nodes)
    && (forall a, b :: 0 <= a < b < |result| ==>
          Position(order, result[a].nodeType) <= Position(order, result[b].nodeType))
    && (forall t :: OfType(result, t) == OfType(nodes, t))
  }

  lemma {:induction false} OfTypeAppend(a: seq<NodeSpec>, b: seq<NodeSpec>, t: string)
    ensures OfType(a + b, t) == OfType(a, t) + OfType(b, t)
  {
    if b == [] {
      assert a + b == a;
    } else {
      assert (a + b)[..|a + b| - 1] == a + b[..|b| - 1];
      OfTypeAppend(a, b[..|b| - 1], t);
    }
  }

  lemma OfTypeOne(n: NodeSpec, t: string)
    ensures OfType([n], t) == if n.nodeType == t then [n] else []
  {
    assert [n][..0] == [];
  }

  lemma {:induction false} OfTypeTwice(nodes: seq<NodeSpec>, s: string, t: string)
    ensures OfType(OfType(nodes, s), t) == if s == t then OfType(nodes, t) else []
  {
    if nodes != [] {
      var front, last := nodes[..|nodes| - 1], nodes[|nodes| - 1];
      OfTypeTwice(front, s, t);
      if last.nodeType == s {
        OfTypeAppend(OfType(front, s), [last], t);
        OfTypeOne(last, t);
      } else {
        assert OfType(nodes, s) == OfType(front, s);
      }
    }
  }

  lemma {:induction false} OfTypeCount(nodes: seq<NodeSpec>, t: string, n: NodeSpec)
    ensures multiset(OfType(nodes, t))[n] == if n.nodeType == t then multiset(nodes)[n] else 0
  {
    if nodes != [] {
      OfTypeCount(nodes[..|nodes| - 1], t, n);
      assert nodes == nodes[..|nodes| - 1] + [nodes[|nodes| - 1]];
    }
  }

  lemma ScaledBy(b0: bool, b1: bool, b2: bool, b3: bool, m: nat)
    ensures (if b0 then m else 0) + (if b1 then m else 0) + (if b2 then m else 0) + (if b3 then m else 0)
         == ((if b0 then 1 else 0) + (if b1 then 1 else 0) + (if b2 then 1 else 0) + (if b3 then 1 else 0)) * m
  {
  }

  lemma FourCounts(a: seq<NodeSpec>, b: seq<NodeSpec>, c: seq<NodeSpec>, d: seq<NodeSpec>, n: NodeSpec)
    ensures multiset(a + b + c + d)[n] == multiset(a)[n] + multiset(b)[n] + multiset(c)[n] + multiset(d)[n]
  {
  }

  lemma OrderedCount(nodes: seq<NodeSpec>, order: seq<string>, n: NodeSpec)
    requires |order| >= 4
    ensures multiset(Ordered(nodes, order))[n] == Occurrences(order, n.nodeType) * multiset(nodes)[n]
  {
    var t, m := n.nodeType, multiset(nodes)[n];
    FourCounts(OfType(nodes, order[0]), OfType(nodes, order[1]), OfType(nodes, order[2]), OfType(nodes, order[3]), n);
    OfTypeCount(nodes, order[0], n);
    OfTypeCount(nodes, order[1], n);
    OfTypeCount(nodes, order[2], n);
    OfTypeCount(nodes, order[3], n);
    ScaledBy(order[0] == t, order[1] == t, order[2] == t, order[3] == t, m);
  }

  lemma CountIfOnce(nodes: seq<NodeSpec>, order: seq<string>, n: NodeSpec)
    requires |order| >= 4 && EachTypeOnce(nodes, order)
    ensures multiset(Ordered(nodes, order))[n] == multiset(nodes)[n]
  {
    OrderedCount(nodes, order, n);
    if n in nodes {
      assert Occurrences(order, n.nodeType) == 1;
    } else {
      assert n !in multiset(nodes);
    }
  }

  lemma SameCounts(a: seq<NodeSpec>, b: seq<NodeSpec>)
    requires forall n :: multiset(a)[n] == multiset(b)[n]
    ensures multiset(a) == multiset(b)
  {
  }

  lemma PermutationIfOnce(nodes: seq<NodeSpec>, order: seq<string>)
    requires |order| >= 4 && EachTypeOnce(nodes, order)
    ensures multiset(Ordered(nodes, order)) == multiset(nodes)
  {
    forall n { CountIfOnce(nodes, order, n); }
    SameCounts(Ordered(nodes, order), nodes);
  }

  lemma OnceIfPermutation(nodes: seq<NodeSpec>, order: seq<string>, n: NodeSpec)
    requires |order| >= 4 && multiset(Ordered(nodes, order)) == multiset(nodes) && n in nodes
    ensures Occurrences(order, n.nodeType) == 1
  {
    OrderedCount(nodes, order, n);
    assert n in multiset(nodes);
    OnlyOneKeeps(Occurrences(order, n.nodeType), multiset(nodes)[n]);
  }

  lemma OnlyOneKeeps(c: nat, m: nat)
    requires m > 0 && c * m == m
    ensures c == 1
  {
  }

  lemma Collapse<T>(x: seq<T>, b0: bool, b1: bool, b2: bool, b3: bool)
    requires x == [] ||
      (if b0 then 1 else 0) + (if b1 then 1 else 0) + (if b2 then 1 else 0) + (if b3 then 1 else 0) == 1
    ensures (if b0 then x else []) + (if b1 then x else []) + (if b2 then x else []) + (if b3 then x else []) == x
  {
  }

  lemma OfTypeOrdered(nodes: seq<NodeSpec>, order: seq<string>, t: string)
    requires |order| >= 4
    ensures var x := OfType(nodes, t);
            OfType(Ordered(nodes, order), t)
              == (if order[0] == t then x else []) + (if order[1] == t then x else [])
               + (if order[2] == t then x else []) + (if order[3] == t then x else [])
  {
    var g0, g1 := OfType(nodes, order[0]), OfType(nodes, order[1]);
    var g2, g3 := OfType(nodes, order[2]), OfType(nodes, order[3]);
    OfTypeAppend(g0 + g1 + g2, g3, t);
    OfTypeAppend(g0 + g1, g2, t);
    OfTypeAppend(g0, g1, t);
    OfTypeTwice(nodes, order[0], t);
    OfTypeTwice(nodes, order[1], t);
    OfTypeTwice(nodes, order[2], t);
    OfTypeTwice(nodes, order[3], t);
  }

  lemma {:induction false} OfTypeMembers(nodes: seq<NodeSpec>, t: string)
    ensures forall n :: n in OfType(nodes, t) <==> n in nodes && n.nodeType == t
  {
    if nodes != [] {
      OfTypeMembers(nodes[..|nodes| - 1], t);
      assert nodes == nodes[..|nodes| - 1] + [nodes[|nodes| - 1]];
    }
  }

  lemma OrderedKeepsGroups(nodes: seq<NodeSpec>, order: seq<string>, t: string)
    requires |order| >= 4 && EachTypeOnce(nodes, order)
    ensures OfType(Ordered(nodes, order), t) == OfType(nodes, t)
  {
    var x := OfType(nodes, t);
    OfTypeOrdered(nodes, order, t);
    OfTypeMembers(nodes, t);
    if x != [] { assert x[0] in nodes && Occurrences(order, t) == 1; }
    Collapse(x, order[0] == t, order[1] == t, order[2] == t, order[3] == t);
  }

  /** Which of the four groups index `a` of the result falls into. */
  lemma GroupOf(nodes: seq<NodeSpec>, order: seq<string>, a: nat) returns (j: nat)
    requires |order| >= 4 && a < |Ordered(nodes, order)|
    ensures j < 4 && Ordered(nodes, order)[a].nodeType == order[j]
    ensures var l0 := |OfType(nodes, order[0])|;
            var l1 := l0 + |OfType(nodes, order[1])|;
            var l2 := l1 + |OfType(nodes, order[2])|;
            j == if a < l0 then 0 else if a < l1 then 1 else if a < l2 then 2 else 3
  {
    var l0 := |OfType(nodes, order[0])|;
    var l1 := l0 + |OfType(nodes, order[1])|;
    var l2 := l1 + |OfType(nodes, order[2])|;
    j := if a < l0 then 0 else if a < l1 then 1 else if a < l2 then 2 else 3;
    forall i: nat | i < 4 { OfTypeMembers(nodes, order[i]); }
    assert Ordered(nodes, order)[a] in OfType(nodes, order[j]);
  }

  lemma OrderedIsSorted(nodes: seq<NodeSpec>, order: seq<string>, a: nat, b: nat)
    requires |order| >= 4 && EachTypeOnce(nodes, order) && a < b < |Ordered(nodes, order)|
    ensures var r := Ordered(nodes, order); Position(order, r[a].nodeType) <= Position(order, r[b].nodeType)
  {
    var r := Ordered(nodes, order);
    var ja := GroupOf(nodes, order, a);
    var jb := GroupOf(nodes, order, b);
    PermutationIfOnce(nodes, order);
    assert r[a] in multiset(r) && r[b] in multiset(r);
    assert r[a] in nodes && r[b] in nodes;
    assert Occurrences(order, order[ja]) == 1 && Occurrences(order, order[jb]) == 1;
  }

  /** Grouping by the first four entries of the deployment order sorts the nodes, stably and
      completely, exactly if every node's type occurs once among those entries. */
  lemma OrderedSortsExactly(nodes: seq<NodeSpec>, order: seq<string>)
    requires |order| >= 4
    ensures StableSort(nodes, order, Ordered(nodes, order)) <==> EachTypeOnce(nodes, order)
  {
    if EachTypeOnce(nodes, order) {
      PermutationIfOnce(nodes, order);
      forall t { OrderedKeepsGroups(nodes, order, t); }
      forall a, b | 0 <= a < b < |Ordered(nodes, order)|
        ensures Position(order, Ordered(nodes, order)[a].nodeType) <= Position(order, Ordered(nodes, order)[b].nodeType)
      {
        OrderedIsSorted(nodes, order, a, b);
      }
    } else if multiset(Ordered(nodes, order)) == multiset(nodes) {
      var n :| n in nodes && Occurrences(order, n.nodeType) != 1;
      OnceIfPermutation(nodes, order, n);
      assert false;
    }
  }
}
