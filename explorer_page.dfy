/**
 * The explorer page: canonicalisation of the input network after the
 * backend mapped its nodes, ingestion of user node and edge groups, the
 * adjacent-drug and adjacent-disorder toggles with their legend context,
 * and a few view helpers.
 *
 * Remote calls (node mapping, adjacent drugs and disorders, edges) are not
 * part of this model: their results are parameters. The collaborators
 * `mapCustomNode` and `mapCustomEdge` are passed in as functions.
 */
module ExplorerPage {
  import opened JsValues
  import opened Config
  import opened Interfaces
  import opened VisData

  // ---------------------------------------------------------------------
  // Ensembl version stripping.
  // ---------------------------------------------------------------------

  /** `s.split('.')[0]`: the text before the first dot. */
  function BeforeDot(s: string): (r: string)
    ensures r <= s && '.' !in r
    ensures |r| < |s| ==> s[|r|] == '.'
  {
    if s == [] || s[0] == '.' then [] else [s[0]] + BeforeDot(s[1..])
  }

  /** A dot-free prefix survives the cut at the first dot. */
  lemma {:induction false} BeforeDotKeepsPrefix(s: string, p: string)
    requires p <= s && '.' !in p
    ensures p <= BeforeDot(s)
  {
    if p != [] {
      assert s[0] == p[0];
      BeforeDotKeepsPrefix(s[1..], p[1..]);
    }
  }

  const ENSEMBL_PREFIX := "ENSG"

  /** Ensembl gene ids lose their version suffix; other ids are unchanged. */
  function RemoveEnsemblVersion(id: string): (r: string)
    ensures !StartsWith(id, ENSEMBL_PREFIX) ==> r == id
    ensures StartsWith(id, ENSEMBL_PREFIX) ==>
      StartsWith(r, ENSEMBL_PREFIX) && r <= id && '.' !in r && (|r| < |id| ==> id[|r|] == '.')
  {
    if StartsWith(id, ENSEMBL_PREFIX) then
      BeforeDotKeepsPrefix(id, ENSEMBL_PREFIX);
      BeforeDot(id)
    else id
  }

  lemma RemoveEnsemblVersionIdempotent(id: string)
    ensures RemoveEnsemblVersion(RemoveEnsemblVersion(id)) == RemoveEnsemblVersion(id)
  {
    var once := RemoveEnsemblVersion(id);
    if StartsWith(id, ENSEMBL_PREFIX) {
      BeforeDotIdentity(once);
    }
  }

  /** Text without a dot is its own first segment. */
  lemma {:induction false} BeforeDotIdentity(s: string)
    requires '.' !in s
    ensures BeforeDot(s) == s
  {
    if s != [] {
      assert '.' !in s[1..] by {
        forall i | 0 <= i < |s[1..]| ensures s[1..][i] != '.' {
          assert s[1..][i] == s[i + 1];
        }
      }
      BeforeDotIdentity(s[1..]);
    }
  }

  /** Lines 294-305: with the `ensg` identifier, node ids and edge endpoints
    * lose their version. A non-string id is a TypeError. */
  predicate StringAt(items: seq<Fields>, key: string) {
    forall i | 0 <= i < |items| :: Get(items[i], key).Str?
  }

  function StripVersion(item: Fields, key: string): (r: Fields)
    requires Get(item, key).Str?
    ensures r == item[key := Str(RemoveEnsemblVersion(item[key].s))]
  {
    item[key := Str(RemoveEnsemblVersion(item[key].s))]
  }

  /** The version stripping of every item's `key`, in place; `false` is the
    * TypeError, raised at the first item whose `key` is not a string. */
  method StripVersions(items: seq<Fields>, key: string) returns (ok: bool, out: seq<Fields>)
    ensures ok <==> StringAt(items, key)
    ensures ok ==> |out| == |items| && forall i | 0 <= i < |items| :: out[i] == StripVersion(items[i], key)
  {
    out := [];
    var i := 0;
    while i < |items|
      invariant 0 <= i <= |items| && |out| == i
      invariant StringAt(items[..i], key)
      invariant forall j | 0 <= j < i :: items[..i][j] == items[j] && out[j] == StripVersion(items[j], key)
    {
      if !Get(items[i], key).Str? {
        return false, out;
      }
      out := out + [StripVersion(items[i], key)];
      i := i + 1;
      assert forall j | 0 <= j < i :: items[..i][j] == items[j];
    }
    assert items[..i] == items;
    return true, out;
  }

  // ---------------------------------------------------------------------
  // Network canonicalisation after the backend mapping (lines 312-343).
  // ---------------------------------------------------------------------

  function KeysOf(nodes: seq<Fields>, key: string): set<Value> {
    set x | x in nodes :: Get(x, key)
  }

  /** The assumed contract of `removeDuplicateObjectsFromList(nodes, key)`:
    * the first node per key value is kept, in order; `seen` holds the key
    * values already kept. */
  function DedupeFrom(nodes: seq<Fields>, key: string, seen: set<Value>): (r: seq<Fields>)
    ensures forall i, j | 0 <= i < j < |r| :: Get(r[i], key) != Get(r[j], key)
    ensures forall x | x in r :: x in nodes && Get(x, key) !in seen
    ensures KeysOf(r, key) == KeysOf(nodes, key) - seen
  {
    if nodes == [] then []
    else
      var k := Get(nodes[0], key);
      assert KeysOf(nodes, key) == {k} + KeysOf(nodes[1..], key) by {
        assert forall x :: x in nodes <==> x == nodes[0] || x in nodes[1..];
      }
      if k in seen then DedupeFrom(nodes[1..], key, seen)
      else
        var rest := DedupeFrom(nodes[1..], key, seen + {k});
        assert KeysOf([nodes[0]] + rest, key) == {k} + KeysOf(rest, key) by {
          assert forall x :: x in [nodes[0]] + rest <==> x == nodes[0] || x in rest;
        }
        [nodes[0]] + rest
  }

  function DedupeBy(nodes: seq<Fields>, key: string): seq<Fields> {
    DedupeFrom(nodes, key, {})
  }

  /** The canonical id of a mapped node: its `netexId` when truthy, else its id. */
  function CanonicalId(node: Fields): Value {
    Or(Get(node, "netexId"), Get(node, "id"))
  }

  /** A node labelled by its original id when it had no label, and
    * identified by its backend id. */
  function CanonicalNode(node: Fields): (r: Fields)
    ensures "label" in r && r["label"] == Or(Get(node, "label"), Get(node, "id"))
    ensures "id" in r && r["id"] == CanonicalId(node)
    ensures r - {"label", "id"} == node - {"label", "id"}
  {
    node["label" := Or(Get(node, "label"), Get(node, "id"))]["id" := CanonicalId(node)]
  }

  /** `nodeIdMap`, filled in node order, keyed by the original id as text;
    * a later node with the same id text overwrites an earlier one. */
  function IdMap(nodes: seq<Fields>): map<string, Value>
    decreases |nodes|
  {
    if nodes == [] then map[]
    else
      var last := nodes[|nodes| - 1];
      IdMap(nodes[..|nodes| - 1])[ToText(Get(last, "id")) := CanonicalId(last)]
  }

  /** The id map has one key per input id text. */
  lemma {:induction false} IdMapKeys(nodes: seq<Fields>)
    ensures IdMap(nodes).Keys == set i | 0 <= i < |nodes| :: ToText(Get(nodes[i], "id"))
    decreases |nodes|
  {
    if nodes != [] {
      var front := nodes[..|nodes| - 1];
      IdMapKeys(front);
      assert forall i | 0 <= i < |front| :: front[i] == nodes[i];
    }
  }

  /** Every value of `nodeIdMap` is the new id of some node. */
  lemma {:induction false} IdMapValues(nodes: seq<Fields>, k: string)
    requires k in IdMap(nodes)
    ensures exists i | 0 <= i < |nodes| :: IdMap(nodes)[k] == CanonicalId(nodes[i])
    decreases |nodes|
  {
    var last := nodes[|nodes| - 1];
    if k != ToText(Get(last, "id")) {
      var front := nodes[..|nodes| - 1];
      IdMapValues(front, k);
      var i :| 0 <= i < |front| && IdMap(front)[k] == CanonicalId(front[i]);
      assert front[i] == nodes[i];
    }
  }

  /** `m[k]` on a plain object: undefined when absent. */
  function Lookup(m: map<string, Value>, k: string): Value {
    if k in m then m[k] else Undefined
  }

  /** An edge with both endpoints rewritten through `nodeIdMap`. */
  function RewriteEdge(edge: Fields, m: map<string, Value>): Fields {
    edge["from" := Lookup(m, ToText(Get(edge, "from")))]["to" := Lookup(m, ToText(Get(edge, "to")))]
  }

  predicate Kept(edge: Fields, m: map<string, Value>) {
    !Lookup(m, ToText(Get(edge, "from"))).Undefined? && !Lookup(m, ToText(Get(edge, "to"))).Undefined?
  }

  /** The rewritten edges whose endpoints both map, in input order. */
  function RewriteEdges(edges: seq<Fields>, m: map<string, Value>): (r: seq<Fields>)
    ensures |r| <= |edges|
  {
    if edges == [] then []
    else
      var rest := RewriteEdges(edges[1..], m);
      if Kept(edges[0], m) then [RewriteEdge(edges[0], m)] + rest else rest
  }

  /** Every output edge is a kept input edge rewritten, and every kept
    * input edge is output. */
  lemma {:induction false} RewriteEdgesMembers(edges: seq<Fields>, m: map<string, Value>)
    ensures forall e | e in RewriteEdges(edges, m) :: exists e0 | e0 in edges :: Kept(e0, m) && e == RewriteEdge(e0, m)
    ensures forall e0 | e0 in edges && Kept(e0, m) :: RewriteEdge(e0, m) in RewriteEdges(edges, m)
  {
    if edges != [] {
      RewriteEdgesMembers(edges[1..], m);
      assert forall x :: x in edges <==> x == edges[0] || x in edges[1..];
    }
  }

  /** Kept edges keep their relative order. */
  lemma {:induction false} RewriteEdgesAppend(a: seq<Fields>, b: seq<Fields>, m: map<string, Value>)
    ensures RewriteEdges(a + b, m) == RewriteEdges(a, m) + RewriteEdges(b, m)
  {
    if a != [] {
      assert (a + b)[1..] == a[1..] + b;
      RewriteEdgesAppend(a[1..], b, m);
    } else {
      assert a + b == b;
    }
  }

  /** With every endpoint known, no edge is dropped and each stays in place. */
  lemma {:induction false} RewriteEdgesAllKept(edges: seq<Fields>, m: map<string, Value>)
    requires forall i | 0 <= i < |edges| :: Kept(edges[i], m)
    ensures |RewriteEdges(edges, m)| == |edges|
    ensures forall i | 0 <= i < |edges| :: RewriteEdges(edges, m)[i] == RewriteEdge(edges[i], m)
  {
    if edges != [] {
      assert forall i | 0 <= i < |edges[1..]| :: edges[1..][i] == edges[i + 1];
      RewriteEdgesAllKept(edges[1..], m);
    }
  }

  /** Each endpoint of a kept edge is the id of an output node. */
  lemma KeptEndpointsAreNodeIds(nodes: seq<Fields>, edges: seq<Fields>, e: Fields)
    requires e in RewriteEdges(edges, IdMap(nodes))
    ensures exists i | 0 <= i < |nodes| :: CanonicalNode(nodes[i])["id"] == Get(e, "from")
    ensures exists i | 0 <= i < |nodes| :: CanonicalNode(nodes[i])["id"] == Get(e, "to")
  {
    var m := IdMap(nodes);
    RewriteEdgesMembers(edges, m);
    var e0 :| e0 in edges && Kept(e0, m) && e == RewriteEdge(e0, m);
    IdMapValues(nodes, ToText(Get(e0, "from")));
    IdMapValues(nodes, ToText(Get(e0, "to")));
  }

  /** Lines 319-326: label, `nodeIdMap` entry and new id, node by node. */
  method CanonicaliseNodes(input: seq<Fields>) returns (nodes: seq<Fields>, nodeIdMap: map<string, Value>)
    ensures |nodes| == |input| && forall i | 0 <= i < |input| :: nodes[i] == CanonicalNode(input[i])
    ensures nodeIdMap == IdMap(input)
  {
    nodeIdMap := map[];
    nodes := [];
    var i := 0;
    while i < |input|
      invariant 0 <= i <= |input| && |nodes| == i
      invariant nodeIdMap == IdMap(input[..i])
      invariant forall j | 0 <= j < i :: nodes[j] == CanonicalNode(input[j])
    {
      var node := input[i];
      node := node["label" := Or(Get(node, "label"), Get(node, "id"))];
      assert Get(node, "id") == Get(input[i], "id") && Get(node, "netexId") == Get(input[i], "netexId");
      nodeIdMap := nodeIdMap[ToText(Get(node, "id")) := Or(Get(node, "netexId"), Get(node, "id"))];
      node := node["id" := nodeIdMap[ToText(Get(node, "id"))]];
      nodes := nodes + [node];
      assert input[..i + 1][..i] == input[..i] && input[..i + 1][i] == input[i];
      i := i + 1;
    }
    assert input[..i] == input;
  }

  /** Lines 329-340: rewrite both endpoints, keep the edges whose endpoints
    * are both known. */
  method FilterEdges(es: seq<Fields>, nodeIdMap: map<string, Value>) returns (keptEdges: seq<Fields>)
    ensures keptEdges == RewriteEdges(es, nodeIdMap)
  {
    keptEdges := [];
    var k := 0;
    while k < |es|
      invariant 0 <= k <= |es|
      invariant keptEdges == RewriteEdges(es[..k], nodeIdMap)
    {
      var edge := es[k];
      edge := edge["from" := Lookup(nodeIdMap, ToText(Get(edge, "from")))];
      edge := edge["to" := Lookup(nodeIdMap, ToText(Get(edge, "to")))];
      RewriteEdgesAppend(es[..k], [es[k]], nodeIdMap);
      assert es[..k + 1] == es[..k] + [es[k]];
      assert edge == RewriteEdge(es[k], nodeIdMap);
      if !edge["from"].Undefined? && !edge["to"].Undefined? {
        keptEdges := keptEdges + [edge];
      }
      k := k + 1;
    }
    assert es[..k] == es;
  }

  /** The node and edge rewriting of lines 312-343. `identifier` is the
    * configured identifier; `edges` is `None` when the network has none. */
  method CanonicaliseNetwork(mapped: seq<Fields>, edges: Option<seq<Fields>>, identifier: Value)
    returns (nodes: seq<Fields>, keptEdges: seq<Fields>)
    ensures var input := if identifier == Str("ensg") then DedupeBy(mapped, "netexId") else mapped;
      && |nodes| == |input|
      && (forall i | 0 <= i < |input| :: nodes[i] == CanonicalNode(input[i]))
      && keptEdges == RewriteEdges(if edges.Some? then edges.value else [], IdMap(input))
  {
    var input := mapped;
    if identifier == Str("ensg") {
      input := DedupeBy(mapped, "netexId");
    }
    var nodeIdMap;
    nodes, nodeIdMap := CanonicaliseNodes(input);
    keptEdges := [];
    if edges.Some? {
      keptEdges := FilterEdges(edges.value, nodeIdMap);
    }
  }

  // ---------------------------------------------------------------------
  // Ingestion of user node and edge groups (lines 610-686).
  // ---------------------------------------------------------------------

  /** A JSON deep copy of each group. */
  function ClonedGroups(groups: map<string, Fields>): (r: map<string, Fields>)
    ensures r.Keys == groups.Keys
  {
    map g | g in groups :: JsonCloneFields(groups[g])
  }

  /** lodash `merge` of two objects of groups: a group both define is merged
    * field by field, any other group is copied. */
  function MergeGroups(dst: map<string, Fields>, src: map<string, Fields>): (r: map<string, Fields>)
    ensures r.Keys == dst.Keys + src.Keys
  {
    map g | g in dst.Keys + src.Keys ::
      if g in dst && g in src then MergeFields(dst[g], src[g])
      else if g in src then src[g]
      else dst[g]
  }

  /** `MergeGroups` is the generic merge on the objects of groups. */
  lemma MergeGroupsIsMerge(dst: map<string, Fields>, src: map<string, Fields>)
    ensures GroupsValue(MergeGroups(dst, src)) == Obj(MergeFields(GroupsValue(dst).fields, GroupsValue(src).fields))
  {
    var lhs := GroupsValue(MergeGroups(dst, src)).fields;
    var rhs := MergeFields(GroupsValue(dst).fields, GroupsValue(src).fields);
    forall g | g in lhs ensures g in rhs && lhs[g] == rhs[g] {
      MergeAt(GroupsValue(dst).fields, GroupsValue(src).fields, g);
    }
  }

  /** A falsy border width becomes 0. */
  function ZeroIfFalsy(group: Fields, k: string): (r: Fields)
    ensures r.Keys == group.Keys + {k} && r[k] == Or(Get(group, k), Num(0.0))
    ensures forall j | j in group && j != k :: r[j] == group[j]
  {
    if !Truthy(Get(group, k)) then group[k := Num(0.0)] else group
  }

  /** A falsy font becomes the font of the default group. */
  function WithDefaultFont(group: Fields): (r: Fields)
    ensures r.Keys == group.Keys + {"font"} && r["font"] == Or(Get(group, "font"), Obj(DefaultFont()))
    ensures forall j | j in group && j != "font" :: r[j] == group[j]
  {
    if !Truthy(Get(group, "font")) then group["font" := Obj(DefaultFont())] else group
  }

  /** A colour given as one string is used for every state. */
  function ExpandColor(group: Fields): (r: Fields)
    ensures r.Keys == group.Keys && !Get(r, "color").Str?
    ensures Get(group, "color").Str? ==> var c := group["color"].s; r["color"] == FullColor(c, c, c, c)
    ensures forall j | j in group && (j != "color" || !group[j].Str?) :: r[j] == group[j]
  {
    if Get(group, "color").Str? then
      var c := group["color"].s; group["color" := FullColor(c, c, c, c)]
    else group
  }

  /** A group with an image is drawn as that image. */
  function ImageShape(group: Fields): (r: Fields)
    ensures Truthy(Get(group, "image")) ==> r.Keys == group.Keys + {"shape"} && r["shape"] == Str("image")
    ensures !Truthy(Get(group, "image")) ==> r == group
    ensures forall j | j in group && j != "shape" :: r[j] == group[j]
  {
    if Truthy(Get(group, "image")) then group["shape" := Str("image")] else group
  }

  /** The defaults one user node group receives, in the order they are set. */
  function FixNodeGroup(group: Fields, nodeShadow: Value): Fields {
    var widths := ZeroIfFalsy(ZeroIfFalsy(group, "borderWidth"), "borderWidthSelected");
    ImageShape(ExpandColor(WithDefaultFont(widths)))["shadow" := nodeShadow]
  }

  /** What every ingested group carries: zero for falsy border widths, a
    * font, a colour that is no longer a bare string (a string is expanded
    * to all four states), the image shape when there is an image, and the
    * shadow flag of the configuration. */
  lemma FixNodeGroupDefaults(group: Fields, nodeShadow: Value)
    ensures var r := FixNodeGroup(group, nodeShadow);
      && "borderWidth" in r && r["borderWidth"] == Or(Get(group, "borderWidth"), Num(0.0))
      && "borderWidthSelected" in r && r["borderWidthSelected"] == Or(Get(group, "borderWidthSelected"), Num(0.0))
      && "font" in r && r["font"] == Or(Get(group, "font"), Obj(DefaultFont()))
      && !Get(r, "color").Str?
      && (Get(group, "color").Str? ==> var c := group["color"].s; r["color"] == FullColor(c, c, c, c))
      && (Truthy(Get(group, "image")) ==> r["shape"] == Str("image"))
      && "shadow" in r && r["shadow"] == nodeShadow
  {
    FixNodeGroupWidths(group, nodeShadow);
    FixNodeGroupColor(group, nodeShadow);
    FixNodeGroupShape(group, nodeShadow);
  }

  lemma FixNodeGroupWidths(group: Fields, nodeShadow: Value)
    ensures var r := FixNodeGroup(group, nodeShadow);
      && "borderWidth" in r && r["borderWidth"] == Or(Get(group, "borderWidth"), Num(0.0))
      && "borderWidthSelected" in r && r["borderWidthSelected"] == Or(Get(group, "borderWidthSelected"), Num(0.0))
      && "font" in r && r["font"] == Or(Get(group, "font"), Obj(DefaultFont()))
  {
    var w1 := ZeroIfFalsy(group, "borderWidth");
    var w2 := ZeroIfFalsy(w1, "borderWidthSelected");
    assert w2["borderWidth"] == w1["borderWidth"];
    var f := WithDefaultFont(w2);
    var i := ImageShape(ExpandColor(f));
    assert i["borderWidth"] == f["borderWidth"] && i["borderWidthSelected"] == f["borderWidthSelected"];
    assert i["font"] == f["font"];
  }

  lemma FixNodeGroupColor(group: Fields, nodeShadow: Value)
    ensures var r := FixNodeGroup(group, nodeShadow);
      && !Get(r, "color").Str?
      && (Get(group, "color").Str? ==> var c := group["color"].s; r["color"] == FullColor(c, c, c, c))
  {
  }

  lemma FixNodeGroupShape(group: Fields, nodeShadow: Value)
    ensures var r := FixNodeGroup(group, nodeShadow);
      && (Truthy(Get(group, "image")) ==> r["shape"] == Str("image"))
      && "shadow" in r && r["shadow"] == nodeShadow
  {
  }

  /** Every field ingestion does not own is kept. */
  lemma FixNodeGroupKeeps(group: Fields, nodeShadow: Value, k: string)
    requires k in group && k !in OwnedKeys()
    ensures k in FixNodeGroup(group, nodeShadow) && FixNodeGroup(group, nodeShadow)[k] == group[k]
  {
    var w2 := ZeroIfFalsy(ZeroIfFalsy(group, "borderWidth"), "borderWidthSelected");
    var f := WithDefaultFont(w2);
    var c := ExpandColor(f);
    assert f[k] == w2[k] == group[k];
    assert ImageShape(c)[k] == c[k];
  }

  /** The fields ingestion sets. */
  function OwnedKeys(): set<string> {
    {"borderWidth", "borderWidthSelected", "font", "color", "shape", "shadow"}
  }

  /** A group as ingestion leaves it. */
  predicate Fixed(group: Fields, nodeShadow: Value) {
    && "borderWidth" in group && (Truthy(group["borderWidth"]) || group["borderWidth"] == Num(0.0))
    && "borderWidthSelected" in group && (Truthy(group["borderWidthSelected"]) || group["borderWidthSelected"] == Num(0.0))
    && Truthy(Get(group, "font"))
    && !Get(group, "color").Str?
    && (Truthy(Get(group, "image")) ==> Get(group, "shape") == Str("image"))
    && "shadow" in group && group["shadow"] == nodeShadow
  }

  /** Ingestion leaves a group that needs no further defaults. */
  lemma FixNodeGroupFixed(group: Fields, nodeShadow: Value)
    ensures Fixed(FixNodeGroup(group, nodeShadow), nodeShadow)
  {
    FixNodeGroupDefaults(group, nodeShadow);
    FixNodeGroupImage(group, nodeShadow);
  }

  /** Ingestion keeps the image, so an image group ends with the image shape. */
  lemma FixNodeGroupImage(group: Fields, nodeShadow: Value)
    ensures Get(FixNodeGroup(group, nodeShadow), "image") == Get(group, "image")
  {
    var w := ZeroIfFalsy(ZeroIfFalsy(group, "borderWidth"), "borderWidthSelected");
    var c := ExpandColor(WithDefaultFont(w));
    var i := ImageShape(c);
    assert Get(w, "image") == Get(group, "image");
    assert Get(c, "image") == Get(group, "image");
    assert Get(i, "image") == Get(group, "image");
  }

  /** A group that needs no defaults is left as it is. */
  lemma FixOfFixed(group: Fields, nodeShadow: Value)
    requires Fixed(group, nodeShadow)
    ensures FixNodeGroup(group, nodeShadow) == group
  {
    var w1 := ZeroIfFalsy(group, "borderWidth");
    assert w1 == group;
    var w2 := ZeroIfFalsy(w1, "borderWidthSelected");
    assert w2 == group;
    assert ImageShape(ExpandColor(WithDefaultFont(group))) == group;
  }

  /** Ingesting an ingested group again changes nothing. */
  lemma FixNodeGroupIdempotent(group: Fields, nodeShadow: Value)
    ensures FixNodeGroup(FixNodeGroup(group, nodeShadow), nodeShadow) == FixNodeGroup(group, nodeShadow)
  {
    FixNodeGroupFixed(group, nodeShadow);
    FixOfFixed(FixNodeGroup(group, nodeShadow), nodeShadow);
  }

  /** Every group of a merged set given its defaults. */
  function FixNodeGroups(merged: map<string, Fields>, nodeShadow: Value): (r: map<string, Fields>)
    ensures r.Keys == merged.Keys
  {
    FixedGroups(merged, NodeGroupFix(nodeShadow))
  }

  function NodeGroupFix(nodeShadow: Value): Fields -> Fields {
    group => FixNodeGroup(group, nodeShadow)
  }

  /** Every group of `merged` passed through `fix`. */
  function FixedGroups(merged: map<string, Fields>, fix: Fields -> Fields): (r: map<string, Fields>)
    ensures r.Keys == merged.Keys
  {
    map g | g in merged :: fix(merged[g])
  }

  /** The configured node groups: user groups merged over a copy of the
    * defaults, each given its defaults. Missing names, colours and shapes
    * are only reported, so there is no error case. */
  function ResolveNodeGroups(user: map<string, Fields>, nodeShadow: Value): (r: map<string, Fields>)
    ensures r.Keys == DefaultNodeGroups().Keys + user.Keys
  {
    FixNodeGroups(MergeGroups(ClonedGroups(DefaultNodeGroups()), user), nodeShadow)
  }

  /** Every reserved group survives ingestion, with its defaults. */
  lemma ResolvedNodeGroupsReserved(user: map<string, Fields>, nodeShadow: Value)
    ensures {DEFAULT_GROUP, FOUND_NODE, FOUND_DRUG, DEFAULT_DISORDER, SEED_NODE, SELECTED_NODE}
      <= ResolveNodeGroups(user, nodeShadow).Keys
    ensures forall g | g in ResolveNodeGroups(user, nodeShadow) :: Fixed(ResolveNodeGroups(user, nodeShadow)[g], nodeShadow)
  {
    DefaultNodeGroupNames();
    var merged := MergeGroups(ClonedGroups(DefaultNodeGroups()), user);
    forall g | g in merged ensures Fixed(FixNodeGroup(merged[g], nodeShadow), nodeShadow) {
      FixNodeGroupFixed(merged[g], nodeShadow);
    }
  }

  /** A field the user sets on a group and that ingestion does not own
    * reaches the configuration unchanged. */
  lemma ResolvedKeepsUserFields(user: map<string, Fields>, nodeShadow: Value, g: string, k: string)
    requires g in user && k in user[g]
    requires !user[g][k].Undefined? && !user[g][k].Obj?
    requires k !in OwnedKeys()
    ensures g in ResolveNodeGroups(user, nodeShadow)
    ensures k in ResolveNodeGroups(user, nodeShadow)[g] && ResolveNodeGroups(user, nodeShadow)[g][k] == user[g][k]
  {
    var defaults := ClonedGroups(DefaultNodeGroups());
    var merged := MergeGroups(defaults, user);
    if g in defaults {
      MergeAt(defaults[g], user[g], k);
    }
    assert k in merged[g] && merged[g][k] == user[g][k];
    FixNodeGroupKeeps(merged[g], nodeShadow, k);
  }

  /** The defaults one user edge group receives: `dashes` only when the key
    * is absent, and the edge shadow flag of the configuration. */
  function FixEdgeGroup(group: Fields, edgeShadow: Value): Fields {
    var g1 := if "dashes" !in group then group["dashes" := Bool(false)] else group;
    g1["shadow" := edgeShadow]
  }

  /** Every group of a merged set given its edge defaults. */
  function FixEdgeGroups(merged: map<string, Fields>, edgeShadow: Value): (r: map<string, Fields>)
    ensures r.Keys == merged.Keys
    ensures forall g | g in r :: "dashes" in r[g] && "shadow" in r[g] && r[g]["shadow"] == edgeShadow
  {
    FixedGroups(merged, EdgeGroupFix(edgeShadow))
  }

  function EdgeGroupFix(edgeShadow: Value): Fields -> Fields {
    group => FixEdgeGroup(group, edgeShadow)
  }

  /** The configured edge groups: user groups merged over a copy of the
    * defaults, each given its defaults. */
  function ResolveEdgeGroups(user: map<string, Fields>, edgeShadow: Value): (r: map<string, Fields>)
    ensures r.Keys == DefaultEdgeGroups().Keys + user.Keys
  {
    FixEdgeGroups(MergeGroups(ClonedGroups(DefaultEdgeGroups()), user), edgeShadow)
  }

  /** The default edge group always exists; every group has `dashes`, the
    * merged value when present, else `false`; every shadow is the flag. */
  lemma ResolvedEdgeGroups(user: map<string, Fields>, edgeShadow: Value, g: string)
    ensures DEFAULT_GROUP in ResolveEdgeGroups(user, edgeShadow)
    ensures g in ResolveEdgeGroups(user, edgeShadow) ==>
      var merged := MergeGroups(ClonedGroups(DefaultEdgeGroups()), user)[g];
      var r := ResolveEdgeGroups(user, edgeShadow)[g];
      && "dashes" in r && r["dashes"] == (if "dashes" in merged then merged["dashes"] else Bool(false))
      && "shadow" in r && r["shadow"] == edgeShadow
  {
  }

  // ---------------------------------------------------------------------
  // View helpers.
  // ---------------------------------------------------------------------

  /** `hasDrugsLoaded`: some node has a truthy `drugId` and a `netexId`
    * starting with `dr`. A node with a truthy `drugId` and a non-string
    * `netexId` makes the filter throw (`None`); no dataset gives `false`. */
  function HasDrugsLoaded(nodes: Option<seq<Fields>>): (r: Option<bool>)
    ensures nodes.None? ==> r == Some(false)
    ensures nodes.Some? ==> (r.None? <==> exists i | 0 <= i < |nodes.value| :: Throws(nodes.value[i]))
    ensures r == Some(true) <==> (&& nodes.Some?
                                  && (exists i | 0 <= i < |nodes.value| :: LoadedDrug(nodes.value[i]))
                                  && (forall i | 0 <= i < |nodes.value| :: !Throws(nodes.value[i])))
  {
    if nodes.None? then Some(false)
    else if exists i | 0 <= i < |nodes.value| :: Throws(nodes.value[i]) then None
    else Some(exists i | 0 <= i < |nodes.value| :: LoadedDrug(nodes.value[i]))
  }

  /** `node.netexId.startsWith` is reached on a non-string. */
  predicate Throws(node: Fields) {
    Truthy(Get(node, "drugId")) && !Get(node, "netexId").Str?
  }

  predicate LoadedDrug(node: Fields) {
    Truthy(Get(node, "drugId")) && Get(node, "netexId").Str? && StartsWith(Get(node, "netexId").s, "dr")
  }

  const GPROFILER_HEAD := "http://biit.cs.ut.ee/gprofiler/gost?organism=hsapiens&query="
  const GPROFILER_TAIL := "&ordered=false&all_results=false&no_iea=false&combined=false&measure_underrepresentation=false&domain_scope=annotated&significance_threshold_method=g_SCS&user_threshold=0.05&numeric_namespace=ENTREZGENE_ACC&sources=GO:MF,GO:CC,GO:BP,KEGG,TF,REAC,MIRNA,HPA,CORUM,HP,WP&background="

  /** `array.join` text of one item: undefined and null print as nothing. */
  function JoinText(v: Value): string {
    if v.Undefined? || v.Null? then "" else ToText(v)
  }

  /** The UniProt accessions of the selected proteins (netexId starting
    * with `p`), in selection order; `None` when a selected item's
    * `netexId` is not a string. */
  function ProteinAccessions(selection: seq<Fields>): (r: Option<seq<string>>)
    ensures r.Some? <==> forall i | 0 <= i < |selection| :: Get(selection[i], "netexId").Str?
    ensures r.Some? ==> |r.value| <= |selection|
  {
    if selection == [] then Some([])
    else
      var rest := ProteinAccessions(selection[1..]);
      assert forall i | 0 <= i < |selection[1..]| :: selection[1..][i] == selection[i + 1];
      var id := Get(selection[0], "netexId");
      if !id.Str? || rest.None? then None
      else if StartsWith(id.s, "p") then Some([JoinText(Get(selection[0], "uniprotAc"))] + rest.value)
      else rest
  }

  /** The g:Profiler link for the selected proteins. */
  function GProfilerLink(selection: seq<Fields>): (r: Option<string>)
    ensures r.Some? <==> ProteinAccessions(selection).Some?
    ensures r.Some? ==> r.value == GPROFILER_HEAD + Join(ProteinAccessions(selection).value, "%0A") + GPROFILER_TAIL
  {
    match ProteinAccessions(selection)
    case None => None
    case Some(acs) => Some(GPROFILER_HEAD + Join(acs, "%0A") + GPROFILER_TAIL)
  }

  /** Non-protein items contribute nothing to the query. */
  lemma GProfilerSkipsNonProteins(selection: seq<Fields>, item: Fields)
    requires Get(item, "netexId").Str? && !StartsWith(Get(item, "netexId").s, "p")
    ensures ProteinAccessions([item] + selection) == ProteinAccessions(selection)
  {
    assert ([item] + selection)[1..] == selection;
  }

  /** The legend for the adjacent layers shown. */
  function LegendFor(drugs: bool, disorders: bool): LegendContext {
    if drugs && disorders then AdjacentDrugsAndDisorders
    else if drugs then AdjacentDrugs
    else if disorders then AdjacentDisorders
    else Explorer
  }

  /** Which adjacency list `saveRemoveDisorders` was handed. */
  datatype DisorderSource = ProteinDisorders | DrugDisorders

  /** Merging two id-unique lists with no shared id keeps ids unique. */
  lemma UniqueConcat(a: seq<Fields>, b: seq<Fields>)
    requires UniqueIds(a) && UniqueIds(b)
    requires forall x | x in b :: IdOf(x) !in Ids(a)
    ensures UniqueIds(a + b)
  {
    forall i, j | 0 <= i < j < |a + b| ensures IdOf((a + b)[i]) != IdOf((a + b)[j]) {
      if i < |a| && j >= |a| {
        assert (a + b)[j] == b[j - |a|] && b[j - |a|] in b;
        assert Ids(a)[i] == IdOf(a[i]);
      }
    }
  }

  /** `saveAddNodes` never duplicates an id: the listed nodes that are not
    * yet shown, if they have distinct ids, are all added. */
  lemma SaveAddNodesUnique(nodes: seq<Fields>, list: seq<Fields>)
    requires UniqueIds(nodes) && UniqueIds(list)
    ensures AddAll(nodes, Without(list, Ids(nodes))).Some?
    ensures UniqueIds(AddAll(nodes, Without(list, Ids(nodes))).value)
  {
    WithoutUnique(list, Ids(nodes));
    WithoutMembers(list, Ids(nodes));
    UniqueConcat(nodes, Without(list, Ids(nodes)));
  }

  /** `saveRemoveDisorders` removes a shown node exactly when a listed
    * disorder has its id and the other adjacency list does not. */
  lemma SaveRemoveDisordersKeeps(nodes: seq<Fields>, list: seq<Fields>, other: seq<Fields>, x: Fields)
    requires x in nodes
    ensures x !in RemoveAll(nodes, Without(list, Ids(other))) <==>
      (exists d | d in list :: IdOf(d) == IdOf(x)) && IdOf(x) !in Ids(other)
  {
    var rest := Without(list, Ids(other));
    WithoutMembers(list, Ids(other));
    RemoveAllMembers(nodes, rest);
    if x !in RemoveAll(nodes, rest) {
      var k :| 0 <= k < |rest| && Ids(rest)[k] == IdOf(x);
      assert rest[k] in rest;
    }
  }

  /** The edge `{from: interaction[fromKey], to: interaction[toKey]}`. */
  function ResponseEdge(interaction: Fields, fromKey: string, toKey: string): (r: Fields)
    ensures r.Keys == {"from", "to"}
    ensures r["from"] == Get(interaction, fromKey) && r["to"] == Get(interaction, toKey)
  {
    map["from" := Get(interaction, fromKey), "to" := Get(interaction, toKey)]
  }

  /** A drug or disorder of a response put in `group`, its id its `netexId`. */
  function ResponseNode(item: Fields, group: string): (r: Fields)
    ensures r.Keys == item.Keys + {"group", "id"}
    ensures r["group"] == Str(group) && r["id"] == Get(item, "netexId") && IdOf(r) == Get(item, "netexId")
    ensures forall k | k in item && k != "group" && k != "id" :: r[k] == item[k]
  {
    item["group" := Str(group)]["id" := Get(item, "netexId")]
  }

  /** The custom edges of the interactions of a response, in order. */
  function ResponseEdges(interactions: seq<Fields>, fromKey: string, toKey: string,
                         mapEdge: (Fields, Config) -> Fields, config: Config): (r: seq<Fields>)
    ensures |r| == |interactions|
    ensures forall i | 0 <= i < |r| :: r[i] == mapEdge(ResponseEdge(interactions[i], fromKey, toKey), config)
  {
    seq(|interactions|, i requires 0 <= i < |interactions| => mapEdge(ResponseEdge(interactions[i], fromKey, toKey), config))
  }

  /** The custom nodes of the drugs or disorders of a response, in order. */
  function ResponseNodes(items: seq<Fields>, group: string, mapNode: (Fields, Config) -> Fields, config: Config): (r: seq<Fields>)
    ensures |r| == |items|
    ensures forall i | 0 <= i < |r| :: r[i] == mapNode(ResponseNode(items[i], group), config)
  {
    seq(|items|, i requires 0 <= i < |items| => mapNode(ResponseNode(items[i], group), config))
  }

  /** The `for` loop pushing a response's custom edges onto `list`. */
  method PushEdges(list: seq<Fields>, interactions: seq<Fields>, fromKey: string, toKey: string,
                   mapEdge: (Fields, Config) -> Fields, config: Config) returns (out: seq<Fields>)
    ensures out == list + ResponseEdges(interactions, fromKey, toKey, mapEdge, config)
  {
    out := list;
    for i := 0 to |interactions|
      invariant out == list + ResponseEdges(interactions[..i], fromKey, toKey, mapEdge, config)
    {
      assert interactions[..i + 1] == interactions[..i] + [interactions[i]];
      out := out + [mapEdge(ResponseEdge(interactions[i], fromKey, toKey), config)];
    }
    assert interactions[..|interactions|] == interactions;
  }

  /** The `for` loop pushing a response's custom nodes onto `list`. */
  method PushNodes(list: seq<Fields>, items: seq<Fields>, group: string,
                   mapNode: (Fields, Config) -> Fields, config: Config) returns (out: seq<Fields>)
    ensures out == list + ResponseNodes(items, group, mapNode, config)
  {
    out := list;
    for i := 0 to |items|
      invariant out == list + ResponseNodes(items[..i], group, mapNode, config)
    {
      assert items[..i + 1] == items[..i] + [items[i]];
      out := out + [mapNode(ResponseNode(items[i], group), config)];
    }
    assert items[..|items|] == items;
  }

  // ---------------------------------------------------------------------
  // The page.
  // ---------------------------------------------------------------------

  /** The state of the explorer page once its network exists. */
  class ExplorerPage {
    var config: Config
    var nodes: seq<Fields>
    var edges: seq<Fields>
    var queryItems: seq<Wrapper>
    var legendContext: LegendContext
    var adjacentDrugs: bool
    var adjacentDisordersProtein: bool
    var adjacentDisordersDrug: bool
    var adjacentDrugList: seq<Fields>
    var adjacentDrugEdgesList: seq<Fields>
    var adjacentProteinDisorderList: seq<Fields>
    var adjacentProteinDisorderEdgesList: seq<Fields>
    var adjacentDrugDisorderList: seq<Fields>
    var adjacentDrugDisorderEdgesList: seq<Fields>
    var windowWidth: real
    var smallStyle: bool

    /** The legend shows exactly the adjacent layers that are switched on. */
    predicate Valid()
      reads this`legendContext, this`adjacentDrugs, this`adjacentDisordersProtein, this`adjacentDisordersDrug
    {
      legendContext == LegendFor(adjacentDrugs, adjacentDisordersProtein || adjacentDisordersDrug)
    }

    /** A page with a JSON copy of the default configuration, no adjacent
      * layers, and the datasets its network was created with. */
    constructor (nodes: seq<Fields>, edges: seq<Fields>)
      ensures Valid()
      ensures config == Config(ClonedGroups(DefaultNodeGroups()), ClonedGroups(DefaultEdgeGroups()), JsonCloneFields(DefaultSettings()))
      ensures this.nodes == nodes && this.edges == edges && queryItems == []
      ensures legendContext == Explorer && !adjacentDrugs && !adjacentDisordersProtein && !adjacentDisordersDrug
      ensures adjacentDrugList == adjacentDrugEdgesList == adjacentProteinDisorderList == [] &&
        adjacentProteinDisorderEdgesList == adjacentDrugDisorderList == adjacentDrugDisorderEdgesList == []
      ensures windowWidth == 0.0 && !smallStyle
    {
      config := Config(ClonedGroups(DefaultNodeGroups()), ClonedGroups(DefaultEdgeGroups()), JsonCloneFields(DefaultSettings()));
      this.nodes := nodes;
      this.edges := edges;
      queryItems := [];
      legendContext := Explorer;
      adjacentDrugs := false;
      adjacentDisordersProtein := false;
      adjacentDisordersDrug := false;
      adjacentDrugList := [];
      adjacentDrugEdgesList := [];
      adjacentProteinDisorderList := [];
      adjacentProteinDisorderEdgesList := [];
      adjacentDrugDisorderList := [];
      adjacentDrugDisorderEdgesList := [];
      windowWidth := 0.0;
      smallStyle := false;
    }

    method SetWindowWidth(width: real)
      modifies this`windowWidth, this`smallStyle
      ensures windowWidth == width && (smallStyle <==> width < 1250.0)
    {
      windowWidth := width;
      smallStyle := windowWidth < 1250.0;
    }

    /** One wrapper per shown node, each node defaulted to `foundNode`. */
    /** `queryItems` as `updateQueryItems` leaves it: one wrapper per
      * shown node, in order, holding the node with its group defaulted to
      * `foundNode` and keyed by its node id. */
    predicate QueryItemsShown()
      reads this`queryItems, this`nodes, set w | w in queryItems :: w.data
    {
      && |queryItems| == |nodes|
      && forall i | 0 <= i < |nodes| ::
           && queryItems[i].data.props == WithFoundGroup(nodes[i])
           && queryItems[i].id == queryItems[i].nodeId == NodeId(WithFoundGroup(nodes[i]))
    }

    method UpdateQueryItems()
      modifies this`queryItems
      ensures QueryItemsShown()
    {
      var items: seq<Wrapper> := [];
      var i := 0;
      while i < |nodes|
        invariant 0 <= i <= |nodes| && |items| == i
        invariant forall j | 0 <= j < i ::
          && items[j].data.props == WithFoundGroup(nodes[j])
          && items[j].id == items[j].nodeId == NodeId(WithFoundGroup(nodes[j]))
      {
        var node := new NodeObject(nodes[i]);
        var w := WrapperFromNode(node);
        items := items + [w];
        i := i + 1;
      }
      queryItems := items;
    }

    /** `nodeData.nodes.add(list)` after dropping the listed nodes already
      * shown; `false` is the error of an id clash inside the list. */
    method SaveAddNodes(list: seq<Fields>) returns (ok: bool)
      modifies this`nodes
      ensures ok <==> AddAll(old(nodes), Without(list, Ids(old(nodes)))).Some?
      ensures nodes == if ok then AddAll(old(nodes), Without(list, Ids(old(nodes)))).value else old(nodes)
    {
      var existing := Ids(nodes);
      var toAdd := Without(list, existing);
      var added := AddAll(nodes, toAdd);
      if added.None? {
        return false;
      }
      nodes := added.value;
      return true;
    }

    /** Removes the listed disorders that the other adjacency list does not
      * also show. */
    method SaveRemoveDisorders(source: DisorderSource)
      modifies this`nodes
      ensures source.DrugDisorders? ==>
        nodes == RemoveAll(old(nodes), Without(adjacentDrugDisorderList, Ids(adjacentProteinDisorderList)))
      ensures source.ProteinDisorders? ==>
        nodes == RemoveAll(old(nodes), Without(adjacentProteinDisorderList, Ids(adjacentDrugDisorderList)))
    {
      var list := if source.DrugDisorders? then adjacentDrugDisorderList else adjacentProteinDisorderList;
      var other := if source.DrugDisorders? then adjacentProteinDisorderList else adjacentDrugDisorderList;
      var otherIds := Ids(other);
      var rest := Without(list, otherIds);
      nodes := RemoveAll(nodes, rest);
    }

    /** Takes the protein-disorder layer off the network. */
    method HideProteinDisorders()
      modifies this`nodes, this`edges, this`adjacentProteinDisorderList, this`adjacentProteinDisorderEdgesList
      ensures nodes == RemoveAll(old(nodes), Without(old(adjacentProteinDisorderList), Ids(adjacentDrugDisorderList)))
      ensures edges == RemoveAll(old(edges), old(adjacentProteinDisorderEdgesList))
      ensures adjacentProteinDisorderList == [] && adjacentProteinDisorderEdgesList == []
    {
      SaveRemoveDisorders(ProteinDisorders);
      edges := RemoveAll(edges, adjacentProteinDisorderEdgesList);
      adjacentProteinDisorderList := [];
      adjacentProteinDisorderEdgesList := [];
    }

    /** Takes the drug-disorder layer off the network. */
    method HideDrugDisorders()
      modifies this`nodes, this`edges, this`adjacentDrugDisorderList, this`adjacentDrugDisorderEdgesList
      ensures nodes == RemoveAll(old(nodes), Without(old(adjacentDrugDisorderList), Ids(adjacentProteinDisorderList)))
      ensures edges == RemoveAll(old(edges), old(adjacentDrugDisorderEdgesList))
      ensures adjacentDrugDisorderList == [] && adjacentDrugDisorderEdgesList == []
    {
      SaveRemoveDisorders(DrugDisorders);
      edges := RemoveAll(edges, adjacentDrugDisorderEdgesList);
      adjacentDrugDisorderList := [];
      adjacentDrugDisorderEdgesList := [];
    }

    method UpdateAdjacentDrugs(on: bool)
      requires Valid()
      modifies this`adjacentDrugs, this`legendContext, this`nodes, this`edges, this`adjacentDrugList, this`adjacentDrugEdgesList, this`queryItems
      ensures Valid()
      ensures adjacentDrugs == on
      ensures on ==> legendContext == (if adjacentDisordersDrug || adjacentDisordersProtein then AdjacentDrugsAndDisorders else AdjacentDrugs)
      ensures !on ==> legendContext == (if adjacentDisordersDrug || adjacentDisordersProtein then AdjacentDisorders else Explorer)
      ensures on ==>
        && nodes == old(nodes) && edges == old(edges) && queryItems == old(queryItems)
        && adjacentDrugList == old(adjacentDrugList) && adjacentDrugEdgesList == old(adjacentDrugEdgesList)
      ensures !on ==> nodes == RemoveAll(old(nodes), old(adjacentDrugList)) && edges == RemoveAll(old(edges), old(adjacentDrugEdgesList))
      ensures !on ==> adjacentDrugList == [] && adjacentDrugEdgesList == [] && QueryItemsShown()
    {
      adjacentDrugs := on;
      if adjacentDrugs {
        legendContext := if adjacentDisordersDrug || adjacentDisordersProtein then AdjacentDrugsAndDisorders else AdjacentDrugs;
      } else {
        nodes := RemoveAll(nodes, adjacentDrugList);
        edges := RemoveAll(edges, adjacentDrugEdgesList);
        adjacentDrugList := [];
        adjacentDrugEdgesList := [];
        legendContext := if adjacentDisordersDrug || adjacentDisordersProtein then AdjacentDisorders else Explorer;
        UpdateQueryItems();
      }
    }

    method UpdateAdjacentProteinDisorders(on: bool)
      requires Valid()
      modifies this`adjacentDisordersProtein, this`legendContext, this`nodes, this`edges, this`adjacentProteinDisorderList,
        this`adjacentProteinDisorderEdgesList, this`queryItems
      ensures Valid()
      ensures adjacentDisordersProtein == on
      ensures on ==> legendContext == (if adjacentDrugs then AdjacentDrugsAndDisorders else AdjacentDisorders)
      ensures !on && adjacentDisordersDrug ==> legendContext == old(legendContext)
      ensures !on && !adjacentDisordersDrug ==> legendContext == (if adjacentDrugs then AdjacentDrugs else Explorer)
      ensures on ==>
        && nodes == old(nodes) && edges == old(edges) && queryItems == old(queryItems)
        && adjacentProteinDisorderList == old(adjacentProteinDisorderList)
        && adjacentProteinDisorderEdgesList == old(adjacentProteinDisorderEdgesList)
      ensures !on ==> QueryItemsShown()
      ensures !on ==>
        && nodes == RemoveAll(old(nodes), Without(old(adjacentProteinDisorderList), Ids(old(adjacentDrugDisorderList))))
        && edges == RemoveAll(old(edges), old(adjacentProteinDisorderEdgesList))
        && adjacentProteinDisorderList == [] && adjacentProteinDisorderEdgesList == []
    {
      adjacentDisordersProtein := on;
      if adjacentDisordersProtein {
        legendContext := if adjacentDrugs then AdjacentDrugsAndDisorders else AdjacentDisorders;
      } else {
        HideProteinDisorders();
        ghost var removed := (nodes, edges);
        assert removed.0 == RemoveAll(old(nodes), Without(old(adjacentProteinDisorderList), Ids(old(adjacentDrugDisorderList))));
        legendContext := if adjacentDisordersDrug then legendContext else if adjacentDrugs then AdjacentDrugs else Explorer;
        UpdateQueryItems();
        assert (nodes, edges) == removed;
      }
    }

    method UpdateAdjacentDrugDisorders(on: bool)
      requires Valid()
      modifies this`adjacentDisordersDrug, this`legendContext, this`nodes, this`edges, this`adjacentDrugDisorderList,
        this`adjacentDrugDisorderEdgesList, this`queryItems
      ensures Valid()
      ensures adjacentDisordersDrug == on
      ensures on ==> legendContext == (if adjacentDrugs then AdjacentDrugsAndDisorders else AdjacentDisorders)
      ensures !on && adjacentDisordersProtein ==> legendContext == old(legendContext)
      ensures !on && !adjacentDisordersProtein ==> legendContext == (if adjacentDrugs then AdjacentDrugs else Explorer)
      ensures on ==>
        && nodes == old(nodes) && edges == old(edges) && queryItems == old(queryItems)
        && adjacentDrugDisorderList == old(adjacentDrugDisorderList)
        && adjacentDrugDisorderEdgesList == old(adjacentDrugDisorderEdgesList)
      ensures !on ==> QueryItemsShown()
      ensures !on ==>
        && nodes == RemoveAll(old(nodes), Without(old(adjacentDrugDisorderList), Ids(old(adjacentProteinDisorderList))))
        && edges == RemoveAll(old(edges), old(adjacentDrugDisorderEdgesList))
        && adjacentDrugDisorderList == [] && adjacentDrugDisorderEdgesList == []
    {
      adjacentDisordersDrug := on;
      if adjacentDisordersDrug {
        legendContext := if adjacentDrugs then AdjacentDrugsAndDisorders else AdjacentDisorders;
      } else {
        HideDrugDisorders();
        ghost var removed := (nodes, edges);
        assert removed.0 == RemoveAll(old(nodes), Without(old(adjacentDrugDisorderList), Ids(old(adjacentProteinDisorderList))));
        legendContext := if adjacentDisordersProtein then legendContext else if adjacentDrugs then AdjacentDrugs else Explorer;
        UpdateQueryItems();
        assert (nodes, edges) == removed;
      }
    }

    /** The response of the adjacent-drugs request: its drugs and edges are
      * appended to the layer lists and the whole lists added to the
      * datasets. `false` is an id clash, which aborts the callback at the
      * failing `add`. */
    method ReceiveAdjacentDrugs(pdis: seq<Fields>, drugs: seq<Fields>,
                                mapNode: (Fields, Config) -> Fields, mapEdge: (Fields, Config) -> Fields) returns (ok: bool)
      modifies this`adjacentDrugList, this`adjacentDrugEdgesList, this`nodes, this`edges, this`queryItems
      ensures adjacentDrugEdgesList == old(adjacentDrugEdgesList) + ResponseEdges(pdis, "protein", "drug", mapEdge, config)
      ensures adjacentDrugList == old(adjacentDrugList) + ResponseNodes(drugs, FOUND_DRUG, mapNode, config)
      ensures nodes == (if AddAll(old(nodes), adjacentDrugList).Some? then AddAll(old(nodes), adjacentDrugList).value else old(nodes))
      ensures ok <==> AddAll(old(nodes), adjacentDrugList).Some? && AddAll(old(edges), adjacentDrugEdgesList).Some?
      ensures edges == (if ok then AddAll(old(edges), adjacentDrugEdgesList).value else old(edges))
      ensures ok ==> QueryItemsShown()
      ensures !ok ==> queryItems == old(queryItems)
    {
      adjacentDrugEdgesList := PushEdges(adjacentDrugEdgesList, pdis, "protein", "drug", mapEdge, config);
      adjacentDrugList := PushNodes(adjacentDrugList, drugs, FOUND_DRUG, mapNode, config);
      var addedNodes := AddAll(nodes, adjacentDrugList);
      if addedNodes.None? {
        return false;
      }
      nodes := addedNodes.value;
      var addedEdges := AddAll(edges, adjacentDrugEdgesList);
      if addedEdges.None? {
        return false;
      }
      edges := addedEdges.value;
      UpdateQueryItems();
      return true;
    }

    /** Adds a disorder layer: its nodes through `saveAddNodes`, so
      * disorders already shown are skipped, then its edges. `false` is an
      * id clash, which aborts the callback at the failing `add`. */
    method AddDisorderLayer(list: seq<Fields>, edgeList: seq<Fields>) returns (ok: bool)
      modifies this`nodes, this`edges, this`queryItems
      ensures var added := AddAll(old(nodes), Without(list, Ids(old(nodes))));
        nodes == (if added.Some? then added.value else old(nodes))
      ensures ok <==> AddAll(old(nodes), Without(list, Ids(old(nodes)))).Some? && AddAll(old(edges), edgeList).Some?
      ensures edges == (if ok then AddAll(old(edges), edgeList).value else old(edges))
      ensures ok ==> QueryItemsShown()
      ensures !ok ==> queryItems == old(queryItems)
    {
      ok := SaveAddNodes(list);
      if !ok {
        return;
      }
      var addedEdges := AddAll(edges, edgeList);
      if addedEdges.None? {
        return false;
      }
      edges := addedEdges.value;
      UpdateQueryItems();
    }

    /** The response of the protein-disorders request. */
    method ReceiveProteinDisorders(links: seq<Fields>, disorders: seq<Fields>,
                                   mapNode: (Fields, Config) -> Fields, mapEdge: (Fields, Config) -> Fields) returns (ok: bool)
      modifies this`adjacentProteinDisorderList, this`adjacentProteinDisorderEdgesList, this`nodes, this`edges, this`queryItems
      ensures adjacentProteinDisorderEdgesList == old(adjacentProteinDisorderEdgesList) + ResponseEdges(links, "protein", "disorder", mapEdge, config)
      ensures adjacentProteinDisorderList == old(adjacentProteinDisorderList) + ResponseNodes(disorders, DEFAULT_DISORDER, mapNode, config)
      ensures var added := AddAll(old(nodes), Without(adjacentProteinDisorderList, Ids(old(nodes))));
        nodes == (if added.Some? then added.value else old(nodes))
      ensures ok <==> (&& AddAll(old(nodes), Without(adjacentProteinDisorderList, Ids(old(nodes)))).Some?
                       && AddAll(old(edges), adjacentProteinDisorderEdgesList).Some?)
      ensures edges == (if ok then AddAll(old(edges), adjacentProteinDisorderEdgesList).value else old(edges))
      ensures ok ==> QueryItemsShown()
      ensures !ok ==> queryItems == old(queryItems)
    {
      adjacentProteinDisorderEdgesList := PushEdges(adjacentProteinDisorderEdgesList, links, "protein", "disorder", mapEdge, config);
      adjacentProteinDisorderList := PushNodes(adjacentProteinDisorderList, disorders, DEFAULT_DISORDER, mapNode, config);
      ok := AddDisorderLayer(adjacentProteinDisorderList, adjacentProteinDisorderEdgesList);
    }

    /** The response of the drug-disorders request. */
    method ReceiveDrugDisorders(links: seq<Fields>, disorders: seq<Fields>,
                                mapNode: (Fields, Config) -> Fields, mapEdge: (Fields, Config) -> Fields) returns (ok: bool)
      modifies this`adjacentDrugDisorderList, this`adjacentDrugDisorderEdgesList, this`nodes, this`edges, this`queryItems
      ensures adjacentDrugDisorderEdgesList == old(adjacentDrugDisorderEdgesList) + ResponseEdges(links, "drug", "disorder", mapEdge, config)
      ensures adjacentDrugDisorderList == old(adjacentDrugDisorderList) + ResponseNodes(disorders, DEFAULT_DISORDER, mapNode, config)
      ensures var added := AddAll(old(nodes), Without(adjacentDrugDisorderList, Ids(old(nodes))));
        nodes == (if added.Some? then added.value else old(nodes))
      ensures ok <==> (&& AddAll(old(nodes), Without(adjacentDrugDisorderList, Ids(old(nodes)))).Some?
                       && AddAll(old(edges), adjacentDrugDisorderEdgesList).Some?)
      ensures edges == (if ok then AddAll(old(edges), adjacentDrugDisorderEdgesList).value else old(edges))
      ensures ok ==> QueryItemsShown()
      ensures !ok ==> queryItems == old(queryItems)
    {
      adjacentDrugDisorderEdgesList := PushEdges(adjacentDrugDisorderEdgesList, links, "drug", "disorder", mapEdge, config);
      adjacentDrugDisorderList := PushNodes(adjacentDrugDisorderList, disorders, DEFAULT_DISORDER, mapNode, config);
      ok := AddDisorderLayer(adjacentDrugDisorderList, adjacentDrugDisorderEdgesList);
    }

    /** `setConfigNodeGroup('nodeGroups', user)`. */
    method SetConfigNodeGroup(user: map<string, Fields>)
      modifies this`config
      ensures config == old(config).(nodeGroups := ResolveNodeGroups(user, Get(old(config).settings, "nodeShadow")))
    {
      var merged := MergeOverDefaults(DefaultNodeGroups(), user);
      var resolved := FixEachNodeGroup(merged, Get(config.settings, "nodeShadow"));
      config := config.(nodeGroups := resolved);
    }

    /** `setConfigEdgeGroup('edgeGroups', user)`. */
    method SetConfigEdgeGroup(user: map<string, Fields>)
      modifies this`config
      ensures config == old(config).(edgeGroups := ResolveEdgeGroups(user, Get(old(config).settings, "edgeShadow")))
    {
      var merged := MergeGroups(ClonedGroups(DefaultEdgeGroups()), user);
      var shadow := Get(config.settings, "edgeShadow");
      var resolved := FixEach(merged, EdgeGroupFix(shadow));
      config := config.(edgeGroups := resolved);
    }
  }

  /** `merge(JSON.parse(JSON.stringify(defaults)), user)`. */
  method MergeOverDefaults(defaults: map<string, Fields>, user: map<string, Fields>) returns (merged: map<string, Fields>)
    ensures merged == MergeGroups(ClonedGroups(defaults), user)
  {
    var copy := ClonedGroups(defaults);
    merged := MergeGroups(copy, user);
  }

  method FixEachNodeGroup(merged: map<string, Fields>, nodeShadow: Value) returns (resolved: map<string, Fields>)
    ensures resolved == FixNodeGroups(merged, nodeShadow)
  {
    resolved := FixEach(merged, NodeGroupFix(nodeShadow));
  }

  /** The `forEach` that gives every merged group its defaults in place. */
  method FixEach(merged: map<string, Fields>, fix: Fields -> Fields) returns (resolved: map<string, Fields>)
    ensures resolved == FixedGroups(merged, fix)
  {
    resolved := map[];
    var pending := merged.Keys;
    while pending != {}
      invariant pending <= merged.Keys
      invariant resolved.Keys == merged.Keys - pending
      invariant forall g | g in resolved :: resolved[g] == fix(merged[g])
      decreases pending
    {
      var g :| g in pending;
      resolved := resolved[g := fix(merged[g])];
      pending := pending - {g};
    }
    assert resolved.Keys == FixedGroups(merged, fix).Keys;
  }
}
