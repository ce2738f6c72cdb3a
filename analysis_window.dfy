/**
 * The legacy analysis window: it draws the networks of a finished task
 * with fixed looks per node type (host protein, viral protein, drug).
 *
 * The task result is taken as already fetched. Its `networks` list is
 * present; `nodeAttributes` stands for `result.nodeAttributes || []`, so
 * a missing list is the empty one. Which items the analysis selection holds
 * is a predicate on the node id.
 */
module AnalysisWindow {
  import opened JsValues
  import opened VisData

  /** One network of a task result: node ids and raw edges. */
  datatype ResultNetwork = ResultNetwork(nodes: seq<string>, edges: seq<Fields>)

  /** The parts of a task result the window reads. */
  datatype TaskResult = TaskResult(networks: seq<ResultNetwork>, nodeAttributes: seq<Value>)

  /** What `getNodeLooks` returns. */
  datatype Looks = Looks(color: string, shape: string, size: int, font: Fields, shadow: bool)

  const HOST_COLOR := "#e2b600"
  const SELECTED_HOST_COLOR := "#c7661c"
  const VIRUS_COLOR := "#118AB2"
  const DRUG_COLOR := "#26b28b"
  const SEED_COLOR := "#c064c7"
  const EDGE_COLOR := "#afafaf"
  const EDGE_HIGHLIGHT := "#854141"

  /** `s.indexOf(c)` for a one-character needle: the first position of `c`,
    * or -1 when `s` has none. */
  function IndexOf(s: string, c: char): (r: int)
    ensures -1 <= r < |s|
    ensures r == -1 <==> c !in s
    ensures 0 <= r ==> s[r] == c && c !in s[..r]
  {
    if s == [] then -1
    else if s[0] == c then 0
    else
      var rest := IndexOf(s[1..], c);
      assert forall x :: x in s <==> x == s[0] || x in s[1..];
      if rest == -1 then -1
      else
        assert s[..rest + 1] == [s[0]] + s[1..][..rest];
        rest + 1
  }

  /** `inferNodeType`: an id with a dash or an underscore names a viral
    * protein, any other a host protein; a drug is never inferred. */
  function InferNodeType(nodeId: string): (r: string)
    ensures r == "virus" <==> '-' in nodeId || '_' in nodeId
    ensures r == "host" || r == "virus"
  {
    if IndexOf(nodeId, '-') != -1 || IndexOf(nodeId, '_') != -1 then "virus" else "host"
  }

  /** `getNodeLooks`: shape, size, font and shadow follow the node type
    * alone; a seed is always coloured as a seed; otherwise the colour
    * follows the type and, for a host protein, whether it is selected. */
  function GetNodeLooks(nodeId: string, nodeType: Value, isSeed: Value, inSelection: string -> bool): (r: Looks)
    ensures Truthy(isSeed) ==> r.color == SEED_COLOR
    ensures nodeType == Str("host") ==>
      && r.shape == "ellipse" && r.size == 10 && r.font == map[] && !r.shadow
      && (!Truthy(isSeed) ==> r.color == if inSelection(nodeId) then SELECTED_HOST_COLOR else HOST_COLOR)
    ensures nodeType == Str("virus") ==>
      && r.shape == "box" && r.size == 12 && r.font == map["color" := Str("white")] && r.shadow
      && (!Truthy(isSeed) ==> r.color == VIRUS_COLOR)
    ensures nodeType == Str("drug") ==>
      && r.shape == "ellipse" && r.size == 6 && r.font == map[] && !r.shadow
      && (!Truthy(isSeed) ==> r.color == DRUG_COLOR)
    ensures nodeType != Str("host") && nodeType != Str("virus") && nodeType != Str("drug") ==>
      && r.shape == "" && r.size == 10 && r.font == map[] && !r.shadow
      && (!Truthy(isSeed) ==> r.color == "")
  {
    var typed :=
      if nodeType == Str("host") then
        Looks(if inSelection(nodeId) then SELECTED_HOST_COLOR else HOST_COLOR, "ellipse", 10, map[], false)
      else if nodeType == Str("virus") then
        Looks(VIRUS_COLOR, "box", 12, map["color" := Str("white")], true)
      else if nodeType == Str("drug") then
        Looks(DRUG_COLOR, "ellipse", 6, map[], false)
      else
        Looks("", "", 10, map[], false);
    if Truthy(isSeed) then typed.(color := SEED_COLOR) else typed
  }

  /** The selection changes the looks of an unseeded host protein only, and
    * only its colour. */
  lemma SelectionColoursHostsOnly(nodeId: string, nodeType: Value, isSeed: Value, a: string -> bool, b: string -> bool)
    ensures GetNodeLooks(nodeId, nodeType, isSeed, a).(color := "") == GetNodeLooks(nodeId, nodeType, isSeed, b).(color := "")
    ensures nodeType != Str("host") || Truthy(isSeed) ==>
      GetNodeLooks(nodeId, nodeType, isSeed, a) == GetNodeLooks(nodeId, nodeType, isSeed, b)
  {
  }

  /** `mapNode`: the looks of the node, its id as id and label, and the
    * given type and seed flag carried along. */
  function MapNode(nodeId: string, nodeType: Value, isSeed: Value, inSelection: string -> bool): Fields {
    var looks := GetNodeLooks(nodeId, nodeType, isSeed, inSelection);
    map[
      "id" := Str(nodeId), "label" := Str(nodeId),
      "size" := Num(looks.size as real), "color" := Str(looks.color), "shape" := Str(looks.shape),
      "font" := Obj(looks.font), "shadow" := Bool(looks.shadow),
      "nodeType" := nodeType, "isSeed" := isSeed
    ]
  }

  /** The drawn item has exactly the keys of `mapNode`'s literal, the id as
    * id and label, the given type and seed flag, the seed colour on seeds
    * and a shadow exactly on virus nodes. */
  lemma MapNodeFacts(nodeId: string, nodeType: Value, isSeed: Value, inSelection: string -> bool)
    ensures var r := MapNode(nodeId, nodeType, isSeed, inSelection);
      && r.Keys == {"id", "label", "size", "color", "shape", "font", "shadow", "nodeType", "isSeed"}
      && r["id"] == r["label"] == Str(nodeId)
      && r["nodeType"] == nodeType && r["isSeed"] == isSeed
      && (Truthy(isSeed) ==> r["color"] == Str(SEED_COLOR))
      && r["shadow"] == Bool(nodeType == Str("virus"))
  {
  }

  function EdgeColor(): Value {
    Obj(map["color" := Str(EDGE_COLOR), "highlight" := Str(EDGE_HIGHLIGHT)])
  }

  /** `mapEdge`: both endpoints as text, and the one edge colour. */
  function MapEdge(edge: Fields): (r: Fields)
    ensures r.Keys == {"from", "to", "color"}
    ensures r["from"] == Str(ToText(Get(edge, "from"))) && r["to"] == Str(ToText(Get(edge, "to")))
    ensures Get(edge, "from").Str? ==> r["from"] == Get(edge, "from")
    ensures Get(edge, "to").Str? ==> r["to"] == Get(edge, "to")
    ensures r["color"] == EdgeColor()
  {
    map["from" := Str(ToText(Get(edge, "from"))), "to" := Str(ToText(Get(edge, "to"))), "color" := EdgeColor()]
  }

  /** A mapped edge maps to itself. */
  lemma MapEdgeIdempotent(edge: Fields)
    ensures MapEdge(MapEdge(edge)) == MapEdge(edge)
  {
  }

  // ---------------------------------------------------------------------
  // createNetwork
  // ---------------------------------------------------------------------

  /** `v[k]` on a truthy value, which never throws. */
  function Member(v: Value, k: string): Value
    requires Truthy(v)
  {
    GetProp(v, k).value
  }

  /** `nodeAttributes[i] || {}`. */
  function Attributes(result: TaskResult, i: nat): (r: Value)
    ensures Truthy(r)
    ensures i >= |result.nodeAttributes| ==> r == Obj(map[])
  {
    Or(if i < |result.nodeAttributes| then result.nodeAttributes[i] else Undefined, Obj(map[]))
  }

  /** `attributes.<key> || {}`. */
  function AttributeTable(attributes: Value, key: string): (r: Value)
    requires Truthy(attributes)
    ensures Truthy(r)
    ensures attributes == Obj(map[]) ==> r == Obj(map[])
  {
    Or(Member(attributes, key), Obj(map[]))
  }

  /** `nodeTypes[node] || inferNodeType(node)`. */
  function NodeTypeOf(nodeTypes: Value, node: string): Value
    requires Truthy(nodeTypes)
  {
    Or(Member(nodeTypes, node), Str(InferNodeType(node)))
  }

  /** The item drawn for node `node` of network `i`. */
  function MappedNode(result: TaskResult, i: nat, node: string, inSelection: string -> bool): Fields {
    var attributes := Attributes(result, i);
    MapNode(node, NodeTypeOf(AttributeTable(attributes, "nodeTypes"), node),
            Member(AttributeTable(attributes, "isSeed"), node), inSelection)
  }

  /** The items drawn for the nodes of network `i`, in its order. */
  function MappedNodes(result: TaskResult, i: nat, inSelection: string -> bool): (r: seq<Fields>)
    requires i < |result.networks|
    ensures |r| == |result.networks[i].nodes|
    ensures forall k | 0 <= k < |r| :: r[k] == MappedNode(result, i, result.networks[i].nodes[k], inSelection)
  {
    var nodes := result.networks[i].nodes;
    seq(|nodes|, k requires 0 <= k < |nodes| => MappedNode(result, i, nodes[k], inSelection))
  }

  /** The items drawn for the nodes of the first `n` networks. */
  function NetworkNodes(result: TaskResult, inSelection: string -> bool, n: nat): seq<Fields>
    requires n <= |result.networks|
  {
    if n == 0 then [] else NetworkNodes(result, inSelection, n - 1) + MappedNodes(result, n - 1, inSelection)
  }

  /** The edges drawn for the first `n` networks. */
  function NetworkEdges(result: TaskResult, n: nat): seq<Fields>
    requires n <= |result.networks|
  {
    if n == 0 then []
    else
      var edges := result.networks[n - 1].edges;
      NetworkEdges(result, n - 1) + seq(|edges|, k requires 0 <= k < |edges| => MapEdge(edges[k]))
  }

  function TotalNodes(networks: seq<ResultNetwork>): nat {
    if networks == [] then 0 else TotalNodes(networks[..|networks| - 1]) + |networks[|networks| - 1].nodes|
  }

  function TotalEdges(networks: seq<ResultNetwork>): nat {
    if networks == [] then 0 else TotalEdges(networks[..|networks| - 1]) + |networks[|networks| - 1].edges|
  }

  /** The inner node loop of `createNetwork` for network `i`. */
  method MapNetworkNodes(result: TaskResult, i: nat, inSelection: string -> bool) returns (mapped: seq<Fields>)
    requires i < |result.networks|
    ensures mapped == MappedNodes(result, i, inSelection)
  {
    var network := result.networks[i];
    var attributes := Attributes(result, i);
    var nodeTypes := AttributeTable(attributes, "nodeTypes");
    var isSeed := AttributeTable(attributes, "isSeed");
    mapped := [];
    for j := 0 to |network.nodes|
      invariant |mapped| == j
      invariant forall k | 0 <= k < j :: mapped[k] == MappedNode(result, i, network.nodes[k], inSelection)
    {
      var node := network.nodes[j];
      mapped := mapped + [MapNode(node, NodeTypeOf(nodeTypes, node), Member(isSeed, node), inSelection)];
    }
  }

  /** The inner edge loop of `createNetwork` for one network. */
  method MapNetworkEdges(edges: seq<Fields>) returns (mapped: seq<Fields>)
    ensures mapped == seq(|edges|, k requires 0 <= k < |edges| => MapEdge(edges[k]))
  {
    mapped := [];
    for j := 0 to |edges|
      invariant |mapped| == j
      invariant forall k | 0 <= k < j :: mapped[k] == MapEdge(edges[k])
    {
      mapped := mapped + [MapEdge(edges[j])];
    }
  }

  /** `createNetwork`: every node and edge of every network, mapped, in order. */
  method CreateNetwork(result: TaskResult, inSelection: string -> bool) returns (nodes: seq<Fields>, edges: seq<Fields>)
    ensures nodes == NetworkNodes(result, inSelection, |result.networks|)
    ensures edges == NetworkEdges(result, |result.networks|)
  {
    nodes, edges := [], [];
    var i := 0;
    while i < |result.networks|
      invariant 0 <= i <= |result.networks|
      invariant nodes == NetworkNodes(result, inSelection, i)
      invariant edges == NetworkEdges(result, i)
    {
      var mappedNodes := MapNetworkNodes(result, i, inSelection);
      var mappedEdges := MapNetworkEdges(result.networks[i].edges);
      nodes := nodes + mappedNodes;
      edges := edges + mappedEdges;
      i := i + 1;
    }
  }

  /** There are as many items as nodes over all networks, and as many
    * edges as edges over all networks. */
  lemma {:induction false} NetworkCounts(result: TaskResult, inSelection: string -> bool, n: nat)
    requires n <= |result.networks|
    ensures |NetworkNodes(result, inSelection, n)| == TotalNodes(result.networks[..n])
    ensures |NetworkEdges(result, n)| == TotalEdges(result.networks[..n])
  {
    if n > 0 {
      NetworkCounts(result, inSelection, n - 1);
      assert result.networks[..n][..n - 1] == result.networks[..n - 1];
    }
  }

  /** Node `k` of network `i` is drawn at its network's offset plus `k`. */
  lemma NetworkNodeAt(result: TaskResult, inSelection: string -> bool, n: nat, i: nat, k: nat)
    requires n <= |result.networks| && i < n && k < |result.networks[i].nodes|
    ensures TotalNodes(result.networks[..i]) + k < |NetworkNodes(result, inSelection, n)|
    ensures NetworkNodes(result, inSelection, n)[TotalNodes(result.networks[..i]) + k]
         == MappedNode(result, i, result.networks[i].nodes[k], inSelection)
  {
    NetworkNodeIndex(result, inSelection, n, i, k);
  }

  /** The offset arithmetic of `NetworkNodeAt`, over the mapped lists. */
  lemma NetworkNodeIndex(result: TaskResult, inSelection: string -> bool, n: nat, i: nat, k: nat)
    requires n <= |result.networks| && i < n && k < |result.networks[i].nodes|
    ensures TotalNodes(result.networks[..i]) + k < |NetworkNodes(result, inSelection, n)|
    ensures NetworkNodes(result, inSelection, n)[TotalNodes(result.networks[..i]) + k] == MappedNodes(result, i, inSelection)[k]
  {
    var parts := NodeParts(result, inSelection, n);
    NetworkNodesFlatten(result, inSelection, n);
    NetworkNodesFlatten(result, inSelection, i);
    assert parts[..i] == NodeParts(result, inSelection, i);
    NetworkCounts(result, inSelection, i);
    FlattenIndex(parts, i, k);
  }

  /** The lists drawn for the nodes of the first `n` networks, one per network. */
  function NodeParts(result: TaskResult, inSelection: string -> bool, n: nat): (r: seq<seq<Fields>>)
    requires n <= |result.networks|
    ensures |r| == n
  {
    seq(n, j requires 0 <= j < n => MappedNodes(result, j, inSelection))
  }

  /** The concatenation of `parts`, in order. */
  function Flatten(parts: seq<seq<Fields>>): seq<Fields> {
    if parts == [] then [] else Flatten(parts[..|parts| - 1]) + parts[|parts| - 1]
  }

  lemma {:induction false} NetworkNodesFlatten(result: TaskResult, inSelection: string -> bool, n: nat)
    requires n <= |result.networks|
    ensures NetworkNodes(result, inSelection, n) == Flatten(NodeParts(result, inSelection, n))
  {
    if n > 0 {
      NetworkNodesFlatten(result, inSelection, n - 1);
      assert NodeParts(result, inSelection, n)[..n - 1] == NodeParts(result, inSelection, n - 1);
    }
  }

  /** Item `k` of part `i` sits after all items of the earlier parts. */
  lemma {:induction false} FlattenIndex(parts: seq<seq<Fields>>, i: nat, k: nat)
    requires i < |parts| && k < |parts[i]|
    ensures |Flatten(parts[..i])| + k < |Flatten(parts)|
    ensures Flatten(parts)[|Flatten(parts[..i])| + k] == parts[i][k]
  {
    var front := parts[..|parts| - 1];
    if i == |parts| - 1 {
      assert parts[..i] == front;
    } else {
      assert front[..i] == parts[..i];
      FlattenIndex(front, i, k);
    }
  }

  /** The type of a drawn node is the listed type when truthy, else the
    * inferred one; a network without attributes gets inferred types and no
    * seeds. */
  lemma MappedNodeType(result: TaskResult, i: nat, node: string, inSelection: string -> bool)
    ensures var nodeTypes := AttributeTable(Attributes(result, i), "nodeTypes");
      MappedNode(result, i, node, inSelection)["nodeType"]
        == if Truthy(Member(nodeTypes, node)) then Member(nodeTypes, node) else Str(InferNodeType(node))
    ensures i >= |result.nodeAttributes| ==>
      && MappedNode(result, i, node, inSelection)["nodeType"] == Str(InferNodeType(node))
      && MappedNode(result, i, node, inSelection)["isSeed"] == Undefined
  {
  }

  // ---------------------------------------------------------------------
  // The window's drawn state
  // ---------------------------------------------------------------------

  class AnalysisWindow {
    /** `nodeData.nodes` and `nodeData.edges`; `None` is `null`. */
    var nodeData: Option<seq<Fields>>
    var edgeData: Option<seq<Fields>>
    /** The drug nodes the toggle adds and removes; the window never fills it. */
    var drugNodes: seq<Fields>
    var showDrugs: bool

    predicate Valid()
      reads this
    {
      drugNodes == [] && (nodeData.Some? ==> UniqueIds(nodeData.value))
    }

    constructor ()
      ensures Valid()
      ensures nodeData == None && edgeData == None && drugNodes == [] && !showDrugs
    {
      nodeData, edgeData := None, None;
      drugNodes := [];
      showDrugs := false;
    }

    /** The reset and draw of `refresh` for a finished task: the node and
      * edge sets are built from `createNetwork`, and a set with clashing
      * ids throws, leaving that set and the ones after it `null`. */
    method Draw(result: TaskResult, inSelection: string -> bool) returns (ok: bool)
      requires Valid()
      modifies this`nodeData, this`edgeData, this`showDrugs
      ensures Valid() && !showDrugs
      ensures var nodes := NetworkNodes(result, inSelection, |result.networks|);
        var edges := NetworkEdges(result, |result.networks|);
        && (ok <==> UniqueIds(nodes) && UniqueIds(edges))
        && nodeData == (if UniqueIds(nodes) then Some(nodes) else None)
        && edgeData == (if ok then Some(edges) else None)
    {
      nodeData, edgeData := None, None;
      showDrugs := false;
      var nodes, edges := CreateNetwork(result, inSelection);
      assert [] + nodes == nodes && [] + edges == edges;
      var nodeSet := AddAll([], nodes);
      if nodeSet.None? {
        return false;
      }
      nodeData := nodeSet;
      var edgeSet := AddAll([], edges);
      if edgeSet.None? {
        return false;
      }
      edgeData := edgeSet;
      return true;
    }

    /** `toggleDrugs`: the flag is set first; the drug nodes are then
      * removed from or added to the node set, which throws when the set is
      * `null` or the ids clash. */
    method ToggleDrugs(show: bool) returns (ok: bool)
      requires Valid()
      modifies this`showDrugs, this`nodeData
      ensures Valid() && showDrugs == show
      ensures old(nodeData).None? ==> !ok && nodeData == None
      ensures old(nodeData).Some? && !show ==> ok && nodeData == Some(RemoveAll(old(nodeData).value, drugNodes))
      ensures old(nodeData).Some? && show ==>
        && (ok <==> AddAll(old(nodeData).value, drugNodes).Some?)
        && nodeData == if ok then AddAll(old(nodeData).value, drugNodes) else old(nodeData)
    {
      showDrugs := show;
      if nodeData.None? {
        return false;
      }
      if !showDrugs {
        RemoveAllMembers(nodeData.value, drugNodes);
        nodeData := Some(RemoveAll(nodeData.value, drugNodes));
        return true;
      }
      var added := AddAll(nodeData.value, drugNodes);
      if added.None? {
        return false;
      }
      assert nodeData.value + drugNodes == nodeData.value;
      nodeData := added;
      return true;
    }
  }

  /** Toggling with no drug nodes leaves a node set with unique ids as it is. */
  lemma ToggleWithoutDrugs(items: seq<Fields>)
    requires UniqueIds(items)
    ensures AddAll(items, []) == Some(items)
    ensures RemoveAll(items, []) == items
  {
    assert items + [] == items;
    WithoutNoneListed(items, Ids([]));
  }

  /** Adding drug nodes whose ids are new and then removing them restores
    * the node set. */
  lemma ToggleRoundTrip(items: seq<Fields>, drugs: seq<Fields>)
    requires UniqueIds(items + drugs)
    ensures AddAll(items, drugs).Some?
    ensures RemoveAll(AddAll(items, drugs).value, drugs) == items
  {
    var ids := Ids(drugs);
    WithoutAppend(items, drugs, ids);
    forall x | x in items ensures IdOf(x) !in ids {
      var a :| 0 <= a < |items| && items[a] == x;
      forall b | 0 <= b < |drugs| ensures IdOf(x) != ids[b] {
        assert (items + drugs)[a] == x && (items + drugs)[|items| + b] == drugs[b];
      }
    }
    WithoutNoneListed(items, ids);
    WithoutAllListed(drugs, ids);
  }
}
