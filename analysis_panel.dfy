/**
 * The analysis panel: the network built from a finished task's result, its
 * score tables, their normalisation, and the protein selection kept in sync
 * with the selection service.
 *
 * Table rows are the very node objects of the analysis network, so
 * normalising a table rewrites `score` on those objects in place. Numbers
 * are reals: JavaScript's NaN and infinities, which `rawScore / 0` yields,
 * are written `Undefined` here.
 */
module AnalysisPanel {
  import opened JsValues
  import opened Config
  import opened Interfaces
  import opened NetworkSettings

  // ---------------------------------------------------------------------
  // Scores and their normalisation (lines 368-398).
  // ---------------------------------------------------------------------

  function RawScore(row: Fields): Value {
    Get(row, "rawScore")
  }

  /** The row property maps of a table. */
  function Props(table: seq<NodeObject>): (r: seq<Fields>)
    reads table
    ensures |r| == |table| && forall i | 0 <= i < |table| :: r[i] == table[i].props
  {
    seq(|table|, i requires 0 <= i < |table| reads table => table[i].props)
  }

  /** `max` after the first loop of `normalizeFn`: starts at 0 and is
    * raised by every numeric `rawScore` above it. */
  function MaxRaw(rows: seq<Fields>): (m: real)
    ensures m >= 0.0
    ensures forall i | 0 <= i < |rows| :: RawScore(rows[i]).Num? ==> RawScore(rows[i]).n <= m
    ensures m == 0.0 || exists i | 0 <= i < |rows| :: RawScore(rows[i]) == Num(m)
  {
    if rows == [] then 0.0
    else
      var m := MaxRaw(rows[..|rows| - 1]);
      var raw := RawScore(rows[|rows| - 1]);
      assert forall i | 0 <= i < |rows| - 1 :: rows[..|rows| - 1][i] == rows[i];
      if raw.Num? && raw.n > m then raw.n else m
  }

  /** `rawScore / max`; the non-finite quotients are `Undefined`. */
  function Quotient(raw: Value, max: real): Value {
    if raw.Num? && max != 0.0 then Num(raw.n / max) else Undefined
  }

  /** A row after `normalizeFn`. */
  function Normalized(row: Fields, max: real): Fields {
    row["score" := Quotient(RawScore(row), max)]
  }

  /** A row after `unnormalizeFn`. */
  function Unnormalized(row: Fields): Fields {
    row["score" := RawScore(row)]
  }

  /** Normalising with a positive maximum scales every numeric raw score
    * into [.., 1]; the rows that attain the maximum score exactly 1. */
  lemma NormalizedAtMostOne(rows: seq<Fields>, i: int)
    requires 0 <= i < |rows| && MaxRaw(rows) > 0.0 && RawScore(rows[i]).Num?
    ensures Normalized(rows[i], MaxRaw(rows))["score"].Num?
    ensures Normalized(rows[i], MaxRaw(rows))["score"].n <= 1.0
    ensures RawScore(rows[i]) == Num(MaxRaw(rows)) ==> Normalized(rows[i], MaxRaw(rows))["score"] == Num(1.0)
  {
    QuotientAtMostOne(RawScore(rows[i]).n, MaxRaw(rows));
  }

  lemma QuotientAtMostOne(a: real, m: real)
    requires 0.0 < m && a <= m
    ensures a / m <= 1.0
    ensures a == m ==> a / m == 1.0
  {
    assert a / m * m == a;
  }

  /** Some row attains a positive maximum, so some row scores 1. */
  lemma NormalizedReachesOne(rows: seq<Fields>)
    requires MaxRaw(rows) > 0.0
    ensures exists i | 0 <= i < |rows| :: Normalized(rows[i], MaxRaw(rows))["score"] == Num(1.0)
  {
    var i :| 0 <= i < |rows| && RawScore(rows[i]) == Num(MaxRaw(rows));
    NormalizedAtMostOne(rows, i);
  }

  /** Unnormalising undoes normalising, and whichever was last, the raw
    * score is untouched. */
  lemma NormalizeRoundTrip(row: Fields, max: real)
    ensures Unnormalized(Normalized(row, max)) == Unnormalized(row)
    ensures RawScore(Normalized(row, max)) == RawScore(row) == RawScore(Unnormalized(row))
    ensures Unnormalized(Unnormalized(row)) == Unnormalized(row)
  {
  }

  /** `normalizeFn(table)`: every row's score becomes its raw score over the
    * table's maximum raw score. */
  method NormalizeTable(table: seq<NodeObject>)
    modifies set o | o in table
    ensures forall o | o in table :: o.props == Normalized(old(o.props), MaxRaw(old(Props(table))))
  {
    var max := MaxRawScore(table);
    for i := 0 to |table|
      invariant forall o | o in table :: o.props == if o in table[..i] then Normalized(old(o.props), max) else old(o.props)
    {
      var row := table[i];
      ghost var before := row.props;
      assert RawScore(before) == RawScore(old(row.props));
      row.props := row.props["score" := Quotient(RawScore(row.props), max)];
      assert row.props == Normalized(old(row.props), max);
      assert table[..i + 1] == table[..i] + [row];
    }
    assert table[..|table|] == table;
  }

  /** The first loop of `normalizeFn`. */
  method MaxRawScore(table: seq<NodeObject>) returns (max: real)
    ensures max == MaxRaw(Props(table))
  {
    max := 0.0;
    for i := 0 to |table|
      invariant max == MaxRaw(Props(table)[..i])
    {
      assert Props(table)[..i + 1][..i] == Props(table)[..i];
      var raw := RawScore(table[i].props);
      if raw.Num? && raw.n > max {
        max := raw.n;
      }
    }
    assert Props(table)[..|table|] == Props(table);
  }

  /** `unnormalizeFn(table)`: every row's score becomes its raw score. */
  method UnnormalizeTable(table: seq<NodeObject>)
    modifies set o | o in table
    ensures forall o | o in table :: o.props == Unnormalized(old(o.props))
  {
    for i := 0 to |table|
      invariant forall o | o in table :: o.props == if o in table[..i] then Unnormalized(old(o.props)) else old(o.props)
    {
      var row := table[i];
      row.props := row.props["score" := RawScore(row.props)];
      assert table[..i + 1] == table[..i] + [row];
    }
    assert table[..|table|] == table;
  }

  // ---------------------------------------------------------------------
  // The analysis network of a result (lines 411-483).
  // ---------------------------------------------------------------------

  /** `v[0]`; `None` is the TypeError on undefined or null. */
  function First(v: Value): Option<Value> {
    GetProp(v, "0")
  }

  /** The entry kinds `createNetwork` tells apart. */
  predicate IsProteinEntry(d: Fields) {
    Truthy(Get(d, "drugstoneId")) && Get(d, "drugstoneType") == Str("protein")
  }

  predicate IsDrugEntry(d: Fields) {
    Truthy(Get(d, "drugstoneId")) && Get(d, "drugstoneType") == Str("drug")
  }

  /** The id an entry starts with: its own when truthy, else its
    * `drugstoneId` when a string, else that id's first element. */
  function EntryId(d: Fields): Option<Value> {
    if Truthy(Get(d, "id")) then Some(Get(d, "id"))
    else if Get(d, "drugstoneId").Str? then Some(Get(d, "drugstoneId"))
    else First(Get(d, "drugstoneId"))
  }

  /** A protein entry is a found node when the result lists it among its
    * target nodes; `None` stands for an absent `targetNodes`. */
  function IsTarget(nodeId: string, targetNodes: Option<seq<Value>>): bool {
    targetNodes.Some? && Str(nodeId) in targetNodes.value
  }

  /** One `details` entry as `createNetwork` rewrites it before styling. */
  function EntryNode(nodeId: string, d: Fields, identifier: string, targetNodes: Option<seq<Value>>): (r: Option<Fields>)
    ensures r.Some? ==> EntryId(d).Some?
    ensures r.Some? && IsProteinEntry(d) ==>
      && Get(r.value, "group") == (if IsTarget(nodeId, targetNodes) then Str(FOUND_NODE) else Or(Get(d, "group"), Str(DEFAULT_GROUP)))
      && Get(r.value, "label") == Or(Get(d, "label"), Get(d, identifier))
      && First(Get(d, identifier)).Some?
      && Get(r.value, "id") == Or(First(Get(d, identifier)).value, EntryId(d).value)
    ensures r.Some? && IsDrugEntry(d) ==>
      Get(r.value, "type") == Str("Drug") && Get(r.value, "group") == Str(FOUND_DRUG) && Get(r.value, "id") == EntryId(d).value
    ensures r.Some? && !IsProteinEntry(d) && !IsDrugEntry(d) ==>
      && Get(r.value, "group") == Or(Get(d, "group"), Str(DEFAULT_GROUP))
      && Get(r.value, "label") == Or(Get(d, "label"), Get(d, identifier))
      && Get(r.value, "id") == EntryId(d).value
    ensures r.None? <==> EntryId(d).None? || (IsProteinEntry(d) && First(Get(d, identifier)).None?)
  {
    match EntryId(d)
    case None => None
    case Some(id) =>
      var d1 := d["id" := id];
      if IsProteinEntry(d) then
        var group := if IsTarget(nodeId, targetNodes) then Str(FOUND_NODE) else Or(Get(d, "group"), Str(DEFAULT_GROUP));
        var d2 := d1["group" := group]["label" := Or(Get(d, "label"), Get(d, identifier))];
        match First(Get(d, identifier))
        case None => None
        case Some(first) => Some(d2["id" := Or(first, id)])
      else if IsDrugEntry(d) then
        Some(d1["type" := Str("Drug")]["group" := Str(FOUND_DRUG)])
      else
        Some(d1["group" := Or(Get(d, "group"), Str(DEFAULT_GROUP))]["label" := Or(Get(d, "label"), Get(d, identifier))])
  }

  /** One entry rewritten and styled as an unselected, unseeded node with
    * full opacity and no renderer. */
  function StyledEntry(nodeId: string, d: Fields, identifier: string, targetNodes: Option<seq<Value>>, groups: Groups)
    : Option<Fields>
  {
    match EntryNode(nodeId, d, identifier, targetNodes)
    case None => None
    case Some(node) =>
      match Style(node, groups, false, false, Num(1.0), None)
      case Err(_) => None
      case Ok(styled) => Some(styled)
  }

  /** Entry `e` of `details` rewritten and styled. */
  function NodeStyler(identifier: string, targetNodes: Option<seq<Value>>, groups: Groups): ((string, Fields)) -> Option<Fields> {
    (e: (string, Fields)) => StyledEntry(e.0, e.1, identifier, targetNodes, groups)
  }

  /** Every entry rewritten and styled, one node per entry, in `details`
    * order; `None` as soon as one entry fails. */
  function CreatedNodes(details: seq<(string, Fields)>, identifier: string, targetNodes: Option<seq<Value>>, groups: Groups)
    : Option<seq<Fields>>
  {
    MapAll(details, NodeStyler(identifier, targetNodes, groups))
  }

  /** The nodes exist exactly when every entry can be styled, and then node
    * `i` is entry `i` styled. */
  lemma CreatedNodesMeans(details: seq<(string, Fields)>, identifier: string, targetNodes: Option<seq<Value>>, groups: Groups)
    ensures var r := CreatedNodes(details, identifier, targetNodes, groups);
      && (r.Some? <==> forall i | 0 <= i < |details| :: StyledEntry(details[i].0, details[i].1, identifier, targetNodes, groups).Some?)
      && (r.Some? ==> |r.value| == |details|)
      && (r.Some? ==> forall i | 0 <= i < |details| ::
            r.value[i] == StyledEntry(details[i].0, details[i].1, identifier, targetNodes, groups).value)
  {
    MapAllMeans(details, NodeStyler(identifier, targetNodes, groups));
  }

  /** Maps every item, failing when any item fails. */
  function MapAll<T, U>(items: seq<T>, f: T -> Option<U>): Option<seq<U>> {
    if items == [] then Some([])
    else
      var rest := MapAll(items[..|items| - 1], f);
      var last := f(items[|items| - 1]);
      if rest.None? || last.None? then None else Some(rest.value + [last.value])
  }

  /** `MapAll` succeeds exactly when `f` succeeds on every item, and then
    * maps each item to its image, in order. */
  lemma {:induction false} MapAllMeans<T, U>(items: seq<T>, f: T -> Option<U>)
    ensures var r := MapAll(items, f);
      && (r.Some? <==> forall i | 0 <= i < |items| :: f(items[i]).Some?)
      && (r.Some? ==> |r.value| == |items| && forall i | 0 <= i < |items| :: r.value[i] == f(items[i]).value)
  {
    if items != [] {
      var front := items[..|items| - 1];
      MapAllMeans(front, f);
      assert forall i | 0 <= i < |front| :: front[i] == items[i];
    }
  }

  /** One more item: the prefix result extended by the item's image. */
  lemma MapAllStep<T, U>(items: seq<T>, i: nat, f: T -> Option<U>)
    requires i < |items|
    ensures MapAll(items[..i + 1], f) ==
      var rest := MapAll(items[..i], f);
      if rest.None? || f(items[i]).None? then None else Some(rest.value + [f(items[i]).value])
  {
    assert items[..i + 1][..i] == items[..i];
  }

  /** Once a prefix fails, the whole list fails. */
  lemma {:induction false} MapAllFailFrom<T, U>(items: seq<T>, n: nat, f: T -> Option<U>)
    requires n <= |items| && MapAll(items[..n], f).None?
    ensures MapAll(items, f).None?
    decreases |items| - n
  {
    if n < |items| {
      assert items[..n + 1][..n] == items[..n];
      MapAllFailFrom(items, n + 1, f);
    } else {
      assert items[..n] == items;
    }
  }

  /** `nodeIdMap`: every `drugstoneId` of a protein entry mapped to the
    * entry's first identifier value, later entries winning. An id list that
    * is not an array, or a missing identifier value, is a TypeError. */
  function ProteinIdMap(details: seq<(string, Fields)>, identifier: string): (r: Option<map<string, Value>>)
  {
    if details == [] then Some(map[])
    else
      match ProteinIdMap(details[..|details| - 1], identifier)
      case None => None
      case Some(rest) => WithEntryIds(rest, details[|details| - 1].1, identifier)
  }

  /** The id map after one entry of `details`. */
  function WithEntryIds(m: map<string, Value>, d: Fields, identifier: string): (r: Option<map<string, Value>>)
  {
    if Get(d, "drugstoneType") != Str("protein") then Some(m)
    else if !Get(d, "drugstoneId").Arr? then None
    else
      var ids := Get(d, "drugstoneId").items;
      if ids == [] then Some(m)
      else
        match First(Get(d, identifier))
        case None => None
        case Some(first) => Some(WithIds(m, ids, first))
  }

  /** `m` with every id of `ids`, as text, mapped to `first`. */
  function WithIds(m: map<string, Value>, ids: seq<Value>, first: Value): (r: map<string, Value>)
    ensures r.Keys == m.Keys + IdTexts(ids)
    ensures forall k | k in r :: r[k] == if k in IdTexts(ids) then first else m[k]
  {
    if ids == [] then m
    else
      assert IdTexts(ids) == IdTexts(ids[..|ids| - 1]) + {ToText(ids[|ids| - 1])} by {
        assert forall k | 0 <= k < |ids| - 1 :: ids[..|ids| - 1][k] == ids[k];
      }
      WithIds(m, ids[..|ids| - 1], first)[ToText(ids[|ids| - 1]) := first]
  }

  /** One more id: the map gains its entry. */
  lemma WithIdsStep(m: map<string, Value>, ids: seq<Value>, j: nat, first: Value)
    requires j < |ids|
    ensures WithIds(m, ids[..j + 1], first) == WithIds(m, ids[..j], first)[ToText(ids[j]) := first]
  {
    assert ids[..j + 1][..j] == ids[..j];
  }

  function IdTexts(ids: seq<Value>): (r: set<string>)
    ensures forall i | 0 <= i < |ids| :: ToText(ids[i]) in r
  {
    set i | 0 <= i < |ids| :: ToText(ids[i])
  }

  /** `e.from[0] === 'p' ? nodeIdMap[e.from] : e.from`. */
  function RewriteEnd(end: Value, idMap: map<string, Value>): (r: Option<Value>)
    ensures r.None? <==> end.Undefined? || end.Null?
    ensures end.Str? && StartsWith(end.s, "p") ==> r == Some(if end.s in idMap then idMap[end.s] else Undefined)
    ensures end.Str? && !StartsWith(end.s, "p") ==> r == Some(end)
    ensures First(end) != Some(Str("p")) && r.Some? ==> r.value == end
  {
    FirstOfText(end);
    match First(end)
    case None => None
    case Some(c) =>
      if c == Str("p") then Some(if ToText(end) in idMap then idMap[ToText(end)] else Undefined)
      else Some(end)
  }

  /** On a string, `s[0] === 'p'` is `s.startsWith('p')`. */
  lemma FirstOfText(end: Value)
    ensures end.Str? ==> (First(end) == Some(Str("p")) <==> StartsWith(end.s, "p"))
  {
    if end.Str? && end.s != [] {
      assert First(end) == Some(Str([end.s[0]]));
      assert StartsWith(end.s, "p") <==> end.s[0] == 'p';
    }
  }

  /** One input edge as the custom edge mapping gives it, endpoints rewritten. */
  function CreatedEdge(edge: Fields, idMap: map<string, Value>, mapEdge: (Fields, Config) -> Fields, config: Config)
    : (r: Option<Fields>)
  {
    var e := mapEdge(edge, config);
    var from := RewriteEnd(Get(e, "from"), idMap);
    if from.None? then None
    else
      var to := RewriteEnd(Get(e, "to"), idMap);
      if to.None? then None else Some(e["from" := from.value]["to" := to.value])
  }

  /** Every input edge, none dropped, in order. */
  function CreatedEdges(edges: seq<Fields>, idMap: map<string, Value>, mapEdge: (Fields, Config) -> Fields, config: Config)
    : (r: Option<seq<Fields>>)
    ensures r.Some? <==> forall i | 0 <= i < |edges| :: CreatedEdge(edges[i], idMap, mapEdge, config).Some?
    ensures r.Some? ==> |r.value| == |edges|
    ensures r.Some? ==> forall i | 0 <= i < |edges| :: r.value[i] == CreatedEdge(edges[i], idMap, mapEdge, config).value
  {
    var f := (e: Fields) => CreatedEdge(e, idMap, mapEdge, config);
    MapAllMeans(edges, f);
    MapAll(edges, f)
  }

  /** An edge with string endpoints is always kept: an endpoint starting
    * with `p` is looked up in the id map, any other is unchanged. */
  lemma CreatedEdgeEnds(edge: Fields, idMap: map<string, Value>, mapEdge: (Fields, Config) -> Fields, config: Config)
    requires Get(mapEdge(edge, config), "from").Str? && Get(mapEdge(edge, config), "to").Str?
    ensures CreatedEdge(edge, idMap, mapEdge, config).Some?
    ensures var e := mapEdge(edge, config);
      var r := CreatedEdge(edge, idMap, mapEdge, config).value;
      && r.Keys == e.Keys + {"from", "to"}
      && r["from"] == Rewritten(e["from"].s, idMap)
      && r["to"] == Rewritten(e["to"].s, idMap)
  {
  }

  /** A string endpoint after the rewrite. */
  function Rewritten(end: string, idMap: map<string, Value>): Value {
    if StartsWith(end, "p") then (if end in idMap then idMap[end] else Undefined) else Str(end)
  }

  /** The rows of `nodes` whose entries are proteins, in order. */
  function ProteinRows(nodes: seq<NodeObject>, details: seq<(string, Fields)>): (r: seq<NodeObject>)
    requires |nodes| == |details|
    ensures forall o | o in r :: o in nodes
  {
    if nodes == [] then []
    else
      var rest := ProteinRows(nodes[..|nodes| - 1], details[..|details| - 1]);
      if IsProteinEntry(details[|details| - 1].1) then rest + [nodes[|nodes| - 1]] else rest
  }

  /** The `forEach` over the protein entries that fills `nodeIdMap`. */
  method BuildProteinIdMap(details: seq<(string, Fields)>, identifier: string) returns (idMap: Option<map<string, Value>>)
    ensures idMap == ProteinIdMap(details, identifier)
  {
    var m: map<string, Value> := map[];
    for i := 0 to |details|
      invariant ProteinIdMap(details[..i], identifier) == Some(m)
    {
      assert details[..i + 1][..i] == details[..i];
      var next := AddEntryIds(m, details[i].1, identifier);
      if next.None? {
        ProteinIdMapFails(details, identifier, i + 1);
        return None;
      }
      m := next.value;
    }
    assert details[..|details|] == details;
    return Some(m);
  }

  /** One protein entry: each of its ids maps to its first identifier value. */
  method AddEntryIds(m: map<string, Value>, d: Fields, identifier: string) returns (r: Option<map<string, Value>>)
    ensures r == WithEntryIds(m, d, identifier)
  {
    if Get(d, "drugstoneType") != Str("protein") {
      return Some(m);
    }
    if !Get(d, "drugstoneId").Arr? {
      return None;
    }
    var ids := Get(d, "drugstoneId").items;
    if ids == [] {
      return Some(m);
    }
    var first := First(Get(d, identifier));
    if first.None? {
      return None;
    }
    var added := AddIds(m, ids, first.value);
    return Some(added);
  }

  /** The inner `forEach`: `nodeIdMap[id] = first` for every id. */
  method AddIds(m: map<string, Value>, ids: seq<Value>, first: Value) returns (r: map<string, Value>)
    ensures r == WithIds(m, ids, first)
  {
    r := m;
    for j := 0 to |ids|
      invariant r == WithIds(m, ids[..j], first)
    {
      WithIdsStep(m, ids, j, first);
      r := r[ToText(ids[j]) := first];
    }
    assert ids[..|ids|] == ids;
  }

  /** Once the id map fails on a prefix it fails on the whole list. */
  lemma {:induction false} ProteinIdMapFails(details: seq<(string, Fields)>, identifier: string, n: nat)
    requires n <= |details| && ProteinIdMap(details[..n], identifier).None?
    ensures ProteinIdMap(details, identifier).None?
    decreases |details| - n
  {
    if n < |details| {
      assert details[..n + 1][..n] == details[..n];
      ProteinIdMapFails(details, identifier, n + 1);
    } else {
      assert details[..n] == details;
    }
  }

  /** One entry of `details`: a fresh node object, rewritten and then
    * styled in place as an unselected, unseeded node. */
  method CreateNode(nodeId: string, d: Fields, identifier: string, targetNodes: Option<seq<Value>>, groups: Groups)
    returns (ok: bool, node: NodeObject)
    ensures ok <==> StyledEntry(nodeId, d, identifier, targetNodes, groups).Some?
    ensures ok ==> node.props == StyledEntry(nodeId, d, identifier, targetNodes, groups).value
    ensures fresh(node)
  {
    var entry := EntryNode(nodeId, d, identifier, targetNodes);
    node := new NodeObject(if entry.Some? then entry.value else map[]);
    if entry.None? {
      return false, node;
    }
    var styled := GetNodeStyle(node, groups, false, false, Num(1.0), None);
    ok := styled.Ok?;
  }

  /** The loop over `Object.keys(details)`: one fresh node object per entry;
    * the proteins among them are remembered. */
  method CreateNodes(details: seq<(string, Fields)>, identifier: string, targetNodes: Option<seq<Value>>, groups: Groups)
    returns (ok: bool, nodes: seq<NodeObject>, proteins: seq<NodeObject>)
    ensures ok <==> CreatedNodes(details, identifier, targetNodes, groups).Some?
    ensures ok ==> Props(nodes) == CreatedNodes(details, identifier, targetNodes, groups).value
    ensures ok ==> |nodes| == |details| && proteins == ProteinRows(nodes, details)
    ensures forall o | o in nodes :: fresh(o)
  {
    nodes, proteins := [], [];
    for i := 0 to |details|
      invariant CreatedNodes(details[..i], identifier, targetNodes, groups) == Some(Props(nodes))
      invariant |nodes| == i
      invariant proteins == ProteinRows(nodes, details[..i])
      invariant forall o | o in nodes :: fresh(o)
    {
      var created, node;
      created, node, proteins := CreateNextNode(details, i, identifier, targetNodes, groups, nodes, proteins);
      if !created {
        return false, nodes, proteins;
      }
      nodes := nodes + [node];
    }
    assert details[..|details|] == details;
    return true, nodes, proteins;
  }

  /** One pass of the loop of `CreateNodes`: entry `i` becomes a fresh
    * node, which joins the proteins when its entry is a protein. */
  method CreateNextNode(details: seq<(string, Fields)>, i: nat, identifier: string, targetNodes: Option<seq<Value>>,
                        groups: Groups, nodes: seq<NodeObject>, proteins: seq<NodeObject>)
    returns (ok: bool, node: NodeObject, proteins': seq<NodeObject>)
    requires i < |details| && |nodes| == i
    requires CreatedNodes(details[..i], identifier, targetNodes, groups) == Some(Props(nodes))
    requires proteins == ProteinRows(nodes, details[..i])
    ensures fresh(node)
    ensures !ok ==> CreatedNodes(details, identifier, targetNodes, groups).None?
    ensures ok ==> CreatedNodes(details[..i + 1], identifier, targetNodes, groups) == Some(Props(nodes + [node]))
    ensures ok ==> proteins' == ProteinRows(nodes + [node], details[..i + 1])
  {
    proteins' := proteins;
    ok, node := CreateNode(details[i].0, details[i].1, identifier, targetNodes, groups);
    MapAllStep(details, i, NodeStyler(identifier, targetNodes, groups));
    if !ok {
      MapAllFailFrom(details, i + 1, NodeStyler(identifier, targetNodes, groups));
      return;
    }
    assert details[..i + 1][..i] == details[..i];
    assert (nodes + [node])[..i] == nodes;
    assert Props(nodes + [node]) == Props(nodes) + [node.props];
    if IsProteinEntry(details[i].1) {
      proteins' := proteins + [node];
    }
  }

  /** The loop over `network.edges`. */
  method CreateEdges(edges: seq<Fields>, idMap: map<string, Value>, mapEdge: (Fields, Config) -> Fields, config: Config)
    returns (r: Option<seq<Fields>>)
    ensures r == CreatedEdges(edges, idMap, mapEdge, config)
  {
    var out: seq<Fields> := [];
    for i := 0 to |edges|
      invariant CreatedEdges(edges[..i], idMap, mapEdge, config) == Some(out)
    {
      var e := mapEdge(edges[i], config);
      var from := RewriteEnd(Get(e, "from"), idMap);
      if from.None? {
        return None;
      }
      var to := RewriteEnd(Get(e, "to"), idMap);
      if to.None? {
        return None;
      }
      assert edges[..i + 1][..i] == edges[..i];
      out := out + [e["from" := from.value]["to" := to.value]];
    }
    assert edges[..|edges|] == edges;
    return Some(out);
  }

  /** The network a finished task's result is drawn as: the nodes of
    * `details`, the edges of the result network, and the protein rows. */
  datatype Network = Network(nodes: seq<NodeObject>, edges: seq<Fields>, proteins: seq<NodeObject>)

  /** The identifier setting names the property that holds a node's label. */
  function Identifier(config: Config): string {
    ToText(Get(config.settings, "identifier"))
  }

  /** The network can be built exactly when the id map, every node and every
    * edge can be. */
  predicate Buildable(details: seq<(string, Fields)>, edges: seq<Fields>, targetNodes: Option<seq<Value>>,
                      config: Config, mapEdge: (Fields, Config) -> Fields)
  {
    var idMap := ProteinIdMap(details, Identifier(config));
    && idMap.Some?
    && CreatedNodes(details, Identifier(config), targetNodes, config.nodeGroups).Some?
    && CreatedEdges(edges, idMap.value, mapEdge, config).Some?
  }

  /** `createNetwork`: `None` is a TypeError raised on the way. */
  method CreateNetwork(details: seq<(string, Fields)>, edges: seq<Fields>, targetNodes: Option<seq<Value>>,
                       config: Config, mapEdge: (Fields, Config) -> Fields)
    returns (r: Option<Network>)
    ensures r.Some? <==> Buildable(details, edges, targetNodes, config, mapEdge)
    ensures r.Some? ==> Props(r.value.nodes) == CreatedNodes(details, Identifier(config), targetNodes, config.nodeGroups).value
    ensures r.Some? ==> r.value.edges == CreatedEdges(edges, ProteinIdMap(details, Identifier(config)).value, mapEdge, config).value
    ensures r.Some? ==> |r.value.nodes| == |details| && r.value.proteins == ProteinRows(r.value.nodes, details)
    ensures r.Some? ==> forall o | o in r.value.nodes :: fresh(o)
  {
    var identifier := Identifier(config);
    var idMap := BuildProteinIdMap(details, identifier);
    if idMap.None? {
      return None;
    }
    var ok, nodes, proteins := CreateNodes(details, identifier, targetNodes, config.nodeGroups);
    if !ok {
      return None;
    }
    var created := CreateEdges(edges, idMap.value, mapEdge, config);
    if created.None? {
      return None;
    }
    return Some(Network(nodes, created.value, proteins));
  }

  // ---------------------------------------------------------------------
  // The score tables of a result (lines 202-228).
  // ---------------------------------------------------------------------

  /** `rows.filter(keep)` on the rows' current properties. */
  function FilterRows(rows: seq<NodeObject>, keep: Fields -> bool): (r: seq<NodeObject>)
    reads rows`props
    ensures forall o | o in r :: o in rows && keep(o.props)
    ensures forall o | o in rows && keep(o.props) :: o in r
    ensures |r| <= |rows|
  {
    if rows == [] then []
    else
      var rest := FilterRows(rows[..|rows| - 1], keep);
      var last := rows[|rows| - 1];
      assert forall o | o in rows :: o in rows[..|rows| - 1] || o == last;
      if keep(last.props) then rest + [last] else rest
  }

  /** The drug filter as written: `e.drugstoneId && e.drugstoneId.drugstoneType === 'drug'`. */
  predicate TableDrugAsWritten(row: Fields) {
    Truthy(Get(row, "drugstoneId")) && GetProp(Get(row, "drugstoneId"), "drugstoneType") == Some(Str("drug"))
  }

  /** A drug's `drugstoneId` is a string or an array, and neither has a
    * `drugstoneType` property: the as-written filter drops every such row. */
  lemma TableDrugAsWrittenMissesDrugs(row: Fields)
    requires Get(row, "drugstoneId").Str? || Get(row, "drugstoneId").Arr?
    ensures !TableDrugAsWritten(row)
  {
  }

  /** A drug row of a result that the drug table never shows as written,
    * and that the intended filter keeps. */
  lemma TableDrugAsWrittenCounterexample()
    ensures var row := map["drugstoneId" := Str("DB00945"), "drugstoneType" := Str("drug")];
      IsDrugEntry(row) && !TableDrugAsWritten(row)
  {
    var row := map["drugstoneId" := Str("DB00945"), "drugstoneType" := Str("drug")];
    assert Get(row, "drugstoneId") == Str("DB00945");
    assert Get(row, "drugstoneType") == Str("drug");
  }

  /** The drug table as written holds no row whose `drugstoneId` is a
    * string or an array, which is every drug the backend returns. */
  lemma {:induction false} DrugTableAsWrittenEmpty(rows: seq<NodeObject>)
    requires forall o | o in rows :: Get(o.props, "drugstoneId").Str? || Get(o.props, "drugstoneId").Arr?
    ensures FilterRows(rows, TableDrugAsWritten) == []
  {
    if rows != [] {
      DrugTableAsWrittenEmpty(rows[..|rows| - 1]);
      TableDrugAsWrittenMissesDrugs(rows[|rows| - 1].props);
    }
  }

  /** The intended drug filter, the one the tables are built with. */
  predicate IsTableDrug(row: Fields) {
    IsDrugEntry(row)
  }

  /** The intended drug table and the protein table never share a row. */
  lemma TablesDisjoint(rows: seq<NodeObject>)
    ensures forall o | o in FilterRows(rows, IsTableDrug) :: o !in FilterRows(rows, IsProteinEntry)
  {
  }

  /** A drug node built from a drug entry is kept by the intended filter:
    * building a node does not touch `drugstoneId` or `drugstoneType`. */
  lemma CreatedDrugIsTableDrug(nodeId: string, d: Fields, identifier: string, targetNodes: Option<seq<Value>>)
    requires IsDrugEntry(d) && EntryNode(nodeId, d, identifier, targetNodes).Some?
    ensures IsTableDrug(EntryNode(nodeId, d, identifier, targetNodes).value)
  {
    var e := EntryId(d).value;
    assert EntryNode(nodeId, d, identifier, targetNodes).value == d["id" := e]["type" := Str("Drug")]["group" := Str(FOUND_DRUG)];
  }

  /** `r.rawScore = r.score`. */
  function WithRawScore(row: Fields): (r: Fields)
    ensures RawScore(r) == Get(row, "score") && r.Keys == row.Keys + {"rawScore"}
    ensures forall k | k in row && k != "rawScore" :: r[k] == row[k]
  {
    row["rawScore" := Get(row, "score")]
  }

  /** A freshly loaded row already shows its unnormalised score, and
    * normalising it later starts from the score the backend gave. */
  lemma LoadedRowUnnormalized(row: Fields, max: real)
    ensures "score" in row ==> Unnormalized(WithRawScore(row)) == WithRawScore(row)
    ensures Get(Unnormalized(WithRawScore(row)), "score") == Get(row, "score")
    ensures Normalized(WithRawScore(row), max)["score"] == Quotient(Get(row, "score"), max)
  {
  }

  /** The drug table: the drug rows, each with its raw score saved. */
  method LoadDrugTable(nodes: seq<NodeObject>) returns (table: seq<NodeObject>)
    modifies set o | o in nodes
    ensures table == old(FilterRows(nodes, IsTableDrug))
    ensures forall o | o in nodes :: o.props == if o in table then WithRawScore(old(o.props)) else old(o.props)
  {
    table := FilterRows(nodes, IsTableDrug);
    for i := 0 to |table|
      invariant forall o | o in nodes :: o.props == if o in table[..i] then WithRawScore(old(o.props)) else old(o.props)
    {
      var row := table[i];
      row.props := row.props["rawScore" := Get(row.props, "score")];
      assert table[..i + 1] == table[..i] + [row];
    }
    assert table[..|table|] == table;
  }

  /** A protein row once loaded: raw score saved, seed flag looked up by
    * its id, and the group default of its wrapper applied. */
  function LoadedProtein(row: Fields, seedMap: Fields): Fields {
    WithFoundGroup(WithRawScore(row)["isSeed" := Get(seedMap, ToText(Get(row, "id")))])
  }

  /** Loading keeps a row a protein row with the same id, its score and
    * raw score agree, and loading it again changes nothing: a row listed
    * twice ends as a row listed once. */
  lemma LoadedProteinKeeps(row: Fields, seedMap: Fields)
    ensures var r := LoadedProtein(row, seedMap);
      && (IsProteinEntry(row) ==> IsProteinEntry(r))
      && NodeId(r) == NodeId(row)
      && Get(r, "id") == Get(row, "id")
      && RawScore(r) == Get(r, "score") == Get(row, "score")
      && Get(r, "isSeed") == Get(seedMap, ToText(Get(row, "id")))
      && Truthy(Get(r, "group"))
      && LoadedProtein(r, seedMap) == r
  {
    var r := LoadedProtein(row, seedMap);
    var inner := WithRawScore(row)["isSeed" := Get(seedMap, ToText(Get(row, "id")))];
    WithFoundGroupIdempotent(inner);
    var again := WithRawScore(r)["isSeed" := Get(seedMap, ToText(Get(r, "id")))];
    assert again == r;
  }

  lemma LoadedProteinIdempotent(row: Fields, seedMap: Fields)
    ensures LoadedProtein(LoadedProtein(row, seedMap), seedMap) == LoadedProtein(row, seedMap)
  {
    LoadedProteinKeeps(row, seedMap);
  }

  /** The rows `inSelection` holds, by the id of their wrapper. */
  function SelectedBy(inSelection: Value -> bool): Fields -> bool {
    (p: Fields) => inSelection(NodeId(p))
  }

  /** One protein row of the `forEach`: loaded, and its wrapper made. */
  method LoadProteinRow(row: NodeObject, seedMap: Fields) returns (wrapper: Wrapper)
    modifies row`props
    ensures row.props == LoadedProtein(old(row.props), seedMap)
    ensures wrapper.id == NodeId(old(row.props)) && wrapper.data == row
  {
    LoadedProteinKeeps(row.props, seedMap);
    row.props := row.props["rawScore" := Get(row.props, "score")];
    row.props := row.props["isSeed" := Get(seedMap, ToText(Get(row.props, "id")))];
    wrapper := WrapperFromNode(row);
  }

  /** The rows of `rows` whose property maps, listed alongside in `props`,
    * `keep` holds of. */
  function Pick(rows: seq<NodeObject>, props: seq<Fields>, keep: Fields -> bool): (r: seq<NodeObject>)
    requires |rows| == |props|
    ensures |r| <= |rows|
  {
    if rows == [] then []
    else
      var rest := Pick(rows[..|rows| - 1], props[..|props| - 1], keep);
      if keep(props[|props| - 1]) then rest + [rows[|rows| - 1]] else rest
  }

  /** `Pick` over the first `i` rows. */
  function PickUpTo(rows: seq<NodeObject>, props: seq<Fields>, i: nat, keep: Fields -> bool): (r: seq<NodeObject>)
    requires i <= |rows| == |props|
    ensures |r| <= i
  {
    if i == 0 then []
    else PickUpTo(rows, props, i - 1, keep) + if keep(props[i - 1]) then [rows[i - 1]] else []
  }

  lemma {:induction false} PickUpToAll(rows: seq<NodeObject>, props: seq<Fields>, keep: Fields -> bool)
    requires |rows| == |props|
    ensures PickUpTo(rows, props, |rows|, keep) == Pick(rows, props, keep)
  {
    PickUpToIsPick(rows, props, |rows|, keep);
    assert rows[..|rows|] == rows && props[..|props|] == props;
  }

  lemma {:induction false} PickUpToIsPick(rows: seq<NodeObject>, props: seq<Fields>, n: nat, keep: Fields -> bool)
    requires n <= |rows| == |props|
    ensures PickUpTo(rows, props, n, keep) == Pick(rows[..n], props[..n], keep)
  {
    if n > 0 {
      PickUpToIsPick(rows, props, n - 1, keep);
      assert rows[..n][..n - 1] == rows[..n - 1];
      assert props[..n][..n - 1] == props[..n - 1];
    }
  }

  /** The first `i` rows, as a set. */
  function RowsUpTo(rows: seq<NodeObject>, i: nat): (r: set<NodeObject>)
    requires i <= |rows|
    ensures forall k | 0 <= k < i :: rows[k] in r
  {
    if i == 0 then {} else RowsUpTo(rows, i - 1) + {rows[i - 1]}
  }

  /** Every row is among all the rows. */
  lemma RowsUpToAll(rows: seq<NodeObject>)
    ensures forall o | o in rows :: o in RowsUpTo(rows, |rows|)
  {
  }

  /** The rows picked are among the rows. */
  lemma {:induction false} PickWithin(rows: seq<NodeObject>, props: seq<Fields>, keep: Fields -> bool)
    requires |rows| == |props|
    ensures forall o | o in Pick(rows, props, keep) :: o in rows
  {
    if rows != [] {
      PickWithin(rows[..|rows| - 1], props[..|props| - 1], keep);
    }
  }

  /** Filtering rows is picking them by their current property maps. */
  lemma {:induction false} FilterRowsIsPick(rows: seq<NodeObject>, keep: Fields -> bool)
    ensures FilterRows(rows, keep) == Pick(rows, Props(rows), keep)
  {
    if rows != [] {
      FilterRowsIsPick(rows[..|rows| - 1], keep);
      assert Props(rows)[..|rows| - 1] == Props(rows[..|rows| - 1]);
    }
  }

  /** Picking depends on the property maps only through `keep`. */
  lemma {:induction false} PickSameKeep(rows: seq<NodeObject>, p: seq<Fields>, q: seq<Fields>, keep: Fields -> bool)
    requires |rows| == |p| == |q|
    requires forall k | 0 <= k < |rows| :: keep(p[k]) == keep(q[k])
    ensures Pick(rows, p, keep) == Pick(rows, q, keep)
  {
    if rows != [] {
      PickSameKeep(rows[..|rows| - 1], p[..|p| - 1], q[..|q| - 1], keep);
    }
  }

  /** The `forEach` over the protein table: every row loaded, and the rows
    * whose id was selected collected in table order. */
  method LoadProteinRows(table: seq<NodeObject>, seedMap: Fields, inSelection: Value -> bool)
    returns (selection: seq<NodeObject>)
    modifies set o | o in table
    ensures forall o | o in table :: o.props == LoadedProtein(old(o.props), seedMap)
    ensures selection == old(FilterRows(table, SelectedBy(inSelection)))
  {
    ghost var rows := Props(table);
    ghost var before := map o | o in table :: o.props;
    FilterRowsIsPick(table, SelectedBy(inSelection));
    PickUpToAll(table, rows, SelectedBy(inSelection));
    selection := [];
    ghost var done: set<NodeObject> := {};
    for i := 0 to |table|
      invariant LoadedSoFar(table, before, done, seedMap)
      invariant done == RowsUpTo(table, i)
      invariant selection == PickUpTo(table, rows, i, SelectedBy(inSelection))
    {
      done, selection := LoadNextRow(table, rows, before, seedMap, inSelection, i, done, selection);
    }
    RowsUpToAll(table);
  }

  /** The rows in `done` are loaded from their props in `before`; the others still hold them. */
  ghost predicate LoadedSoFar(table: seq<NodeObject>, before: map<NodeObject, Fields>, done: set<NodeObject>, seedMap: Fields)
    reads table`props
  {
    forall o | o in table :: o in before && o.props == if o in done then LoadedProtein(before[o], seedMap) else before[o]
  }

  /** One turn of the `forEach` in `LoadProteinRows`. */
  method LoadNextRow(table: seq<NodeObject>, ghost rows: seq<Fields>, ghost before: map<NodeObject, Fields>,
                     seedMap: Fields, inSelection: Value -> bool, i: nat,
                     ghost done: set<NodeObject>, selection: seq<NodeObject>)
    returns (ghost done': set<NodeObject>, selection': seq<NodeObject>)
    requires i < |table| == |rows|
    requires forall k | 0 <= k < |table| :: table[k] in before && rows[k] == before[table[k]]
    requires LoadedSoFar(table, before, done, seedMap)
    requires done == RowsUpTo(table, i)
    requires selection == PickUpTo(table, rows, i, SelectedBy(inSelection))
    modifies table[i]
    ensures LoadedSoFar(table, before, done', seedMap)
    ensures done' == RowsUpTo(table, i + 1)
    ensures selection' == PickUpTo(table, rows, i + 1, SelectedBy(inSelection))
  {
    var row := table[i];
    var id := ReloadProteinRow(row, seedMap, rows[i]);
    done' := done + {row};
    assert SelectedBy(inSelection)(rows[i]) == inSelection(id);
    selection' := if inSelection(id) then selection + [row] else selection;
  }

  /** `LoadProteinRow` on a row that may already have been loaded from
    * `original`: loading is idempotent, so it ends loaded either way. */
  method ReloadProteinRow(row: NodeObject, seedMap: Fields, ghost original: Fields) returns (id: Value)
    requires row.props == original || row.props == LoadedProtein(original, seedMap)
    modifies row`props
    ensures row.props == LoadedProtein(original, seedMap)
    ensures id == NodeId(original)
  {
    LoadedProteinKeeps(original, seedMap);
    var wrapper := LoadProteinRow(row, seedMap);
    id := wrapper.id;
  }

  /** The protein table: every protein row loaded, and the rows already
    * selected collected in table order. */
  method LoadProteinTable(nodes: seq<NodeObject>, seedMap: Fields, inSelection: Value -> bool)
    returns (table: seq<NodeObject>, selection: seq<NodeObject>)
    modifies set o | o in nodes
    ensures table == old(FilterRows(nodes, IsProteinEntry))
    ensures forall o | o in nodes :: o.props == if o in table then LoadedProtein(old(o.props), seedMap) else old(o.props)
    ensures selection == FilterRows(table, SelectedBy(inSelection))
  {
    table := FilterRows(nodes, IsProteinEntry);
    ghost var rows := Props(table);
    FilterRowsIsPick(table, SelectedBy(inSelection));
    selection := LoadProteinRows(table, seedMap, inSelection);
    forall k | 0 <= k < |table|
      ensures SelectedBy(inSelection)(rows[k]) == SelectedBy(inSelection)(Props(table)[k])
    {
      LoadedProteinKeeps(rows[k], seedMap);
    }
    PickSameKeep(table, rows, Props(table), SelectedBy(inSelection));
    FilterRowsIsPick(table, SelectedBy(inSelection));
  }

  /** The tables of `refresh`: the drug rows get their raw score, then the
    * protein rows are loaded and the selected ones picked. */
  method LoadScoreTables(rows: seq<NodeObject>, seedMap: Fields, inSelection: Value -> bool)
    returns (drugs: seq<NodeObject>, proteins: seq<NodeObject>, selected: seq<NodeObject>)
    modifies set o | o in rows
    ensures forall o | o in drugs :: o !in proteins
    ensures drugs == old(FilterRows(rows, IsTableDrug))
    ensures proteins == old(FilterRows(rows, IsProteinEntry))
    ensures selected == FilterRows(proteins, SelectedBy(inSelection))
    ensures forall o | o in drugs :: o.props == WithRawScore(old(o.props))
    ensures forall o | o in proteins :: o.props == LoadedProtein(old(o.props), seedMap)
    ensures forall o | o in rows && o !in drugs && o !in proteins :: o.props == old(o.props)
  {
    ghost var before := Props(rows);
    FilterRowsIsPick(rows, IsProteinEntry);
    TablesDisjoint(rows);
    drugs := LoadDrugTable(rows);
    DrugLoadKeepsProteins(rows, before);
    proteins, selected := LoadProteinTable(rows, seedMap, inSelection);
  }

  /** Each node is in the drug table exactly when its props are a drug
    * row, and in the protein table exactly when they are a protein row. */
  ghost predicate TablesOf(rows: seq<NodeObject>, drugs: seq<NodeObject>, proteins: seq<NodeObject>)
    reads rows`props
  {
    forall i | 0 <= i < |rows| ::
      && (rows[i] in drugs <==> IsTableDrug(rows[i].props))
      && (rows[i] in proteins <==> IsProteinEntry(rows[i].props))
  }

  /** Each node holds `LoadedRow` of its props in `before`. */
  ghost predicate LoadedFrom(rows: seq<NodeObject>, before: seq<Fields>, seedMap: Fields)
    reads rows`props
  {
    |before| == |rows| && forall i | 0 <= i < |rows| :: rows[i].props == LoadedRow(before[i], seedMap)
  }

  /** The drug table's props are the drug rows of `before` with their raw
    * score, and the protein table's are the protein rows loaded. */
  ghost predicate LoadedTables(drugs: seq<NodeObject>, proteins: seq<NodeObject>, before: seq<Fields>, seedMap: Fields)
    reads drugs, proteins
  {
    && Props(drugs) == Each(Keep(before, IsTableDrug), WithRawScore)
    && Props(proteins) == Each(Keep(before, IsProteinEntry), ProteinLoader(seedMap))
  }

  /** `LoadScoreTables`, with each table's props as the kept rows loaded. */
  method LoadTableContents(rows: seq<NodeObject>, seedMap: Fields, inSelection: Value -> bool)
    returns (drugs: seq<NodeObject>, proteins: seq<NodeObject>, selected: seq<NodeObject>)
    modifies set o | o in rows
    ensures forall o | o in drugs :: o !in proteins
    ensures forall o | o in selected :: o in proteins
    ensures drugs == old(FilterRows(rows, IsTableDrug))
    ensures proteins == old(FilterRows(rows, IsProteinEntry))
    ensures forall o | o in drugs :: o.props == WithRawScore(old(o.props))
    ensures forall o | o in proteins :: o.props == LoadedProtein(old(o.props), seedMap)
    ensures forall o | o in rows && o !in drugs && o !in proteins :: o.props == old(o.props)
    ensures ScoreTables(rows, old(Props(rows)), drugs, proteins)
    ensures LoadedTables(drugs, proteins, old(Props(rows)), seedMap)
  {
    FilterRowsIsPick(rows, IsTableDrug);
    FilterRowsIsPick(rows, IsProteinEntry);
    FilterRowsProps(rows, IsTableDrug);
    FilterRowsProps(rows, IsProteinEntry);
    ghost var drugRows := Props(FilterRows(rows, IsTableDrug));
    ghost var proteinRows := Props(FilterRows(rows, IsProteinEntry));
    drugs, proteins, selected := LoadScoreTables(rows, seedMap, inSelection);
    LoadedTableProps(drugs, drugRows, WithRawScore);
    LoadedTableProps(proteins, proteinRows, ProteinLoader(seedMap));
  }

  /** `LoadScoreTables` node by node: each node ends as `LoadedRow` of
    * its props, it is in the table its new props belong to, and each
    * table's props are the kept rows loaded. */
  method LoadScoreRows(rows: seq<NodeObject>, seedMap: Fields, inSelection: Value -> bool)
    returns (drugs: seq<NodeObject>, proteins: seq<NodeObject>, selected: seq<NodeObject>)
    modifies set o | o in rows
    ensures forall o | o in drugs :: o !in proteins
    ensures ScoreTables(rows, old(Props(rows)), drugs, proteins)
    ensures forall o | o in selected :: o in proteins
    ensures LoadedFrom(rows, old(Props(rows)), seedMap) && TablesOf(rows, drugs, proteins)
    ensures LoadedTables(drugs, proteins, old(Props(rows)), seedMap)
  {
    ghost var before := Props(rows);
    drugs, proteins, selected := LoadTableContents(rows, seedMap, inSelection);
    forall i | 0 <= i < |rows|
      ensures rows[i].props == LoadedRow(before[i], seedMap)
      ensures rows[i] in drugs <==> IsTableDrug(rows[i].props)
      ensures rows[i] in proteins <==> IsProteinEntry(rows[i].props)
    {
      LoadedRowKind(before[i], seedMap);
    }
  }

  // ---------------------------------------------------------------------
  // What `refresh` decides from the task's algorithm (lines 145-228).
  // ---------------------------------------------------------------------

  /** What a score tooltip says the score measures. */
  datatype Measure = DirectInteractions | InverseMeanDistance | Trust | DistanceZScore

  /** A score tooltip: blank, or the measure, whether its text speaks of
    * drugs or of proteins, and whether a higher score is the more relevant. */
  datatype Tooltip = Blank | Tooltip(measure: Measure, aboutDrugs: bool, higherIsBetter: bool)

  /** The algorithms whose tooltips `refresh` sets. */
  predicate HasTooltip(algorithm: string) {
    algorithm in {"degree", "closeness", "quick", "super", "trustrank", "proximity"}
  }

  /** The drug and protein tooltips after `refresh`; for other algorithms
    * the current ones stay. The proximity protein tooltip repeats the drug
    * text. */
  function ScoreTooltips(algorithm: string, current: (Tooltip, Tooltip)): (r: (Tooltip, Tooltip))
    ensures !HasTooltip(algorithm) ==> r == current
    ensures HasTooltip(algorithm) ==> r.0.Tooltip? && r.1.Tooltip? && r.0.measure == r.1.measure && r.0.aboutDrugs
  {
    var higher := (m: Measure) => (Tooltip(m, true, true), Tooltip(m, false, true));
    if algorithm == "degree" then higher(DirectInteractions)
    else if algorithm == "closeness" || algorithm == "quick" || algorithm == "super" then higher(InverseMeanDistance)
    else if algorithm == "trustrank" then higher(Trust)
    else if algorithm == "proximity" then (Tooltip(DistanceZScore, true, false), Tooltip(DistanceZScore, true, false))
    else current
  }

  /** The algorithms whose results carry scores. */
  const SCORED_ALGORITHMS: seq<string> := ["trustrank", "closeness", "degree", "proximity", "betweenness", "quick", "super"]

  /** `tableHasScores`. */
  predicate HasScores(algorithm: string) {
    algorithm in SCORED_ALGORITHMS
  }

  /** The `toggleNormalization` call `refresh` makes: none for an
    * algorithm without scores, normalising for every scored algorithm but
    * proximity. */
  function NormalizeChoice(algorithm: string): (r: Option<bool>)
    ensures r.Some? <==> HasScores(algorithm)
    ensures r.Some? ==> (r.value <==> algorithm != "proximity")
  {
    if HasScores(algorithm) then Some(algorithm != "proximity") else None
  }

  /** Scores are scaled into [.., 1] exactly when the tooltips call a
    * higher score the more relevant, and every algorithm with a tooltip
    * has scores. */
  lemma NormalizeMatchesTooltips(algorithm: string, current: (Tooltip, Tooltip))
    requires HasTooltip(algorithm)
    ensures HasScores(algorithm)
    ensures NormalizeChoice(algorithm) == Some(ScoreTooltips(algorithm, current).0.higherIsBetter)
    ensures NormalizeChoice(algorithm) == Some(ScoreTooltips(algorithm, current).1.higherIsBetter)
  {
    assert algorithm in SCORED_ALGORITHMS by {
      if algorithm == "degree" { assert SCORED_ALGORITHMS[2] == algorithm; }
      else if algorithm == "closeness" { assert SCORED_ALGORITHMS[1] == algorithm; }
      else if algorithm == "quick" { assert SCORED_ALGORITHMS[5] == algorithm; }
      else if algorithm == "super" { assert SCORED_ALGORITHMS[6] == algorithm; }
      else if algorithm == "trustrank" { assert SCORED_ALGORITHMS[0] == algorithm; }
      else { assert SCORED_ALGORITHMS[3] == algorithm; }
    }
  }

  /** More than 100 nodes or edges make the network big. */
  predicate IsBig(nodeCount: nat, edgeCount: nat) {
    nodeCount > 100 || edgeCount > 100
  }

  /** The options kind of the analysis network. */
  function AnalysisKind(nodeCount: nat, edgeCount: nat): (r: NetworkKind)
    ensures r == AnalysisBig <==> IsBig(nodeCount, edgeCount)
    ensures r != Main
  {
    if IsBig(nodeCount, edgeCount) then AnalysisBig else Analysis
  }

  // ---------------------------------------------------------------------
  // The protein selection kept in step with the selection service
  // (lines 291-333 and 485-504).
  // ---------------------------------------------------------------------

  /** `getProteinNodeId(row) === id`. */
  predicate RowHasId(row: NodeObject, id: Value)
    reads row`props
  {
    Str(ProteinNodeId(row.props)) == id
  }

  /** `rows.findIndex(...)`: the first row with the id, or -1. */
  function FindIndex(rows: seq<NodeObject>, id: Value): (r: int)
    reads rows`props
    ensures -1 <= r < |rows|
    ensures r == -1 <==> forall k | 0 <= k < |rows| :: !RowHasId(rows[k], id)
    ensures r >= 0 ==> RowHasId(rows[r], id) && forall k | 0 <= k < r :: !RowHasId(rows[k], id)
  {
    if rows == [] then -1
    else if RowHasId(rows[0], id) then 0
    else
      var r := FindIndex(rows[1..], id);
      assert forall k | 1 <= k < |rows| :: rows[k] == rows[1..][k - 1];
      if r == -1 then -1 else r + 1
  }

  /** `rows.find(...)`: the first row with the id. */
  function FindRow(rows: seq<NodeObject>, id: Value): (r: Option<NodeObject>)
    reads rows`props
    ensures r.Some? <==> FindIndex(rows, id) != -1
    ensures r.Some? ==> r.value in rows && RowHasId(r.value, id)
  {
    var k := FindIndex(rows, id);
    if k == -1 then None else Some(rows[k])
  }

  /** One item of the sync loop: a selected item's table row is appended
    * unless a row with its id is selected already; a deselected item's
    * first selected row is spliced out, provided the table has the id. */
  function SyncStep(selection: seq<NodeObject>, table: seq<NodeObject>, id: Value, selected: bool): (r: seq<NodeObject>)
    reads selection`props, table`props
    ensures forall o | o in r :: o in selection || o in table
  {
    var found := FindIndex(selection, id);
    var row := FindRow(table, id);
    if selected && found == -1 && row.Some? then selection + [row.value]
    else if !selected && found != -1 && row.Some? then selection[..found] + selection[found + 1..]
    else selection
  }

  /** The sync loop over all items. */
  function Synced(selection: seq<NodeObject>, table: seq<NodeObject>, items: seq<Value>, selected: bool): (r: seq<NodeObject>)
    reads set o | o in selection + table
    ensures forall o | o in r :: o in selection || o in table
  {
    if items == [] then selection
    else
      var prev := Synced(selection, table, items[..|items| - 1], selected);
      SyncStep(prev, table, items[|items| - 1], selected)
  }

  /** Selecting keeps the selection as it was and appends table rows: after
    * it, every item whose id the table has is selected. */
  lemma {:induction false} SyncSelects(selection: seq<NodeObject>, table: seq<NodeObject>, items: seq<Value>)
    ensures var r := Synced(selection, table, items, true);
      && |selection| <= |r| && r[..|selection|] == selection
      && (forall k | |selection| <= k < |r| :: r[k] in table)
      && (forall id | id in items && FindRow(table, id).Some? :: FindIndex(r, id) != -1)
  {
    if items != [] {
      var prev := items[..|items| - 1];
      SyncSelects(selection, table, prev);
      var before := Synced(selection, table, prev, true);
      var id := items[|items| - 1];
      var r := SyncStep(before, table, id, true);
      forall x | x in items && FindRow(table, x).Some?
        ensures FindIndex(r, x) != -1
      {
        if x == id {
          if FindIndex(before, id) == -1 {
            assert RowHasId(r[|before|], id);
          }
        } else {
          assert x in prev;
          var k := FindIndex(before, x);
          assert r[k] == before[k];
        }
      }
    }
  }

  /** Deselecting only ever drops rows: what stays selected was selected. */
  lemma {:induction false} SyncDeselects(selection: seq<NodeObject>, table: seq<NodeObject>, items: seq<Value>)
    ensures var r := Synced(selection, table, items, false);
      |r| <= |selection| && forall o | o in r :: o in selection
  {
    if items != [] {
      SyncDeselects(selection, table, items[..|items| - 1]);
      var before := Synced(selection, table, items[..|items| - 1], false);
      var found := FindIndex(before, items[|items| - 1]);
      if found != -1 {
        assert forall o | o in before[..found] + before[found + 1..] :: o in before;
      }
    }
  }

  /** Selecting an item and deselecting it again restores the selection. */
  lemma SelectDeselect(selection: seq<NodeObject>, table: seq<NodeObject>, id: Value)
    requires FindIndex(selection, id) == -1
    ensures SyncStep(SyncStep(selection, table, id, true), table, id, false) == selection
  {
    var row := FindRow(table, id);
    if row.Some? {
      var added := selection + [row.value];
      assert SyncStep(selection, table, id, true) == added;
      AppendedIndex(selection, row.value, id);
      assert added[..|selection|] + added[|selection| + 1..] == selection;
    }
  }

  /** A row appended to rows without its id is the first with the id. */
  lemma {:induction false} AppendedIndex(rows: seq<NodeObject>, row: NodeObject, id: Value)
    requires FindIndex(rows, id) == -1 && RowHasId(row, id)
    ensures FindIndex(rows + [row], id) == |rows|
  {
    if rows != [] {
      assert !RowHasId(rows[0], id);
      assert (rows + [row])[1..] == rows[1..] + [row];
      AppendedIndex(rows[1..], row, id);
    }
  }

  /** Selecting an item already selected, or deselecting one that is not,
    * changes nothing. */
  lemma SyncStepStable(selection: seq<NodeObject>, table: seq<NodeObject>, id: Value)
    ensures FindIndex(selection, id) != -1 ==> SyncStep(selection, table, id, true) == selection
    ensures FindIndex(selection, id) == -1 ==> SyncStep(selection, table, id, false) == selection
  {
  }

  /** The selection rebuilt when the service reports a whole new list:
    * the table row of every item the table has, in item order. */
  function Rebuilt(table: seq<NodeObject>, items: seq<Value>): (r: seq<NodeObject>)
    reads table
    ensures |r| <= |items|
    ensures forall o | o in r :: o in table
  {
    if items == [] then []
    else
      var rest := Rebuilt(table, items[..|items| - 1]);
      var row := FindRow(table, items[|items| - 1]);
      if row.Some? then rest + [row.value] else rest
  }

  /** A row is in the rebuilt selection exactly when it is the table row of
    * some item. */
  lemma {:induction false} RebuiltRows(table: seq<NodeObject>, items: seq<Value>, o: NodeObject)
    ensures o in Rebuilt(table, items) <==> exists id | id in items :: FindRow(table, id) == Some(o)
  {
    if items != [] {
      var prev, last := items[..|items| - 1], items[|items| - 1];
      assert items == prev + [last];
      RebuiltRows(table, prev, o);
      if o in Rebuilt(table, prev) {
        var id :| id in prev && FindRow(table, id) == Some(o);
        assert id in items;
      } else if FindRow(table, last) == Some(o) {
        assert last in items;
      } else {
        forall id | id in items
          ensures FindRow(table, id) != Some(o)
        {
          assert id in prev || id == last;
        }
      }
    }
  }

  /** The rows of `a` that are not in `b`, in order (`indexOf === -1`). */
  function Missing(a: seq<NodeObject>, b: seq<NodeObject>): (r: seq<NodeObject>)
    ensures forall o | o in r :: o in a && o !in b
    ensures forall o | o in a && o !in b :: o in r
  {
    if a == [] then []
    else
      var rest := Missing(a[..|a| - 1], b);
      var last := a[|a| - 1];
      assert forall o | o in a :: o in a[..|a| - 1] || o == last;
      if last !in b then rest + [last] else rest
  }

  /** The rows added and the rows removed never overlap, and applying both
    * to the old selection gives the rows of the new one. */
  lemma SelectionDiff(before: seq<NodeObject>, after: seq<NodeObject>)
    ensures forall o | o in Missing(after, before) :: o !in Missing(before, after)
    ensures forall o :: o in after <==> (o in before && o !in Missing(before, after)) || o in Missing(after, before)
  {
  }

  /** Loading the drug table leaves every row's protein status as it was,
    * so the protein table is drawn from the same rows. */
  lemma DrugLoadKeepsProteins(rows: seq<NodeObject>, before: seq<Fields>)
    requires |before| == |rows|
    requires forall k | 0 <= k < |rows| :: rows[k].props == before[k] || rows[k].props == WithRawScore(before[k])
    ensures FilterRows(rows, IsProteinEntry) == Pick(rows, before, IsProteinEntry)
  {
    forall k | 0 <= k < |rows|
      ensures IsProteinEntry(before[k]) == IsProteinEntry(Props(rows)[k])
    {
    }
    PickSameKeep(rows, before, Props(rows), IsProteinEntry);
    FilterRowsIsPick(rows, IsProteinEntry);
  }

  /** `nodeAttributes.isSeed || {}` as the seed map. */
  function SeedMapOf(isSeed: Value): (r: Fields)
    ensures isSeed.Obj? ==> r == isSeed.fields
    ensures !Truthy(isSeed) ==> r == map[]
  {
    if isSeed.Obj? then isSeed.fields else map[]
  }

  /** One loop of `tableProteinSelection`: a wrapper for every row (which
    * gives a falsy group the found-node default), and the wrappers of the
    * rows missing from `others` collected in order. */
  method WrapMissing(rows: seq<NodeObject>, others: seq<NodeObject>) returns (wrappers: seq<Wrapper>)
    modifies set o | o in rows
    ensures forall o | o in rows :: o.props == WithFoundGroup(old(o.props))
    ensures |wrappers| == |Missing(rows, others)|
    ensures forall k | 0 <= k < |wrappers| ::
      && wrappers[k].data == Missing(rows, others)[k]
      && wrappers[k].id == wrappers[k].nodeId == NodeId(wrappers[k].data.props)
  {
    wrappers := [];
    for i := 0 to |rows|
      invariant forall o | o in rows :: o.props == if o in rows[..i] then WithFoundGroup(old(o.props)) else old(o.props)
      invariant |wrappers| == |Missing(rows[..i], others)|
      invariant forall k | 0 <= k < |wrappers| ::
        && wrappers[k].data == Missing(rows[..i], others)[k]
        && wrappers[k].id == wrappers[k].nodeId == NodeId(wrappers[k].data.props)
    {
      var row := rows[i];
      WithFoundGroupIdempotent(old(row.props));
      var wrapper := WrapperFromNode(row);
      assert row.props == WithFoundGroup(old(row.props));
      assert rows[..i + 1][..i] == rows[..i];
      assert rows[..i + 1] == rows[..i] + [row];
      if row !in others {
        wrappers := wrappers + [wrapper];
      }
    }
    assert rows[..|rows|] == rows;
  }

  /** The loop over the reported items when `selected` is not null; the
    * selection array is changed in place and then copied. */
  method SyncItems(selection: seq<NodeObject>, table: seq<NodeObject>, items: seq<Value>, selected: bool)
    returns (proteinSelection: seq<NodeObject>)
    ensures proteinSelection == Synced(selection, table, items, selected)
  {
    proteinSelection := selection;
    for i := 0 to |items|
      invariant proteinSelection == Synced(selection, table, items[..i], selected)
    {
      assert items[..i + 1][..i] == items[..i];
      var found := FindIndex(proteinSelection, items[i]);
      var tableItem := FindRow(table, items[i]);
      if selected && found == -1 && tableItem.Some? {
        proteinSelection := proteinSelection + [tableItem.value];
      }
      if !selected && found != -1 && tableItem.Some? {
        proteinSelection := proteinSelection[..found] + proteinSelection[found + 1..];
      }
    }
    assert items[..|items|] == items;
  }

  /** The loop over the reported items when `selected` is null. */
  method RebuildSelection(table: seq<NodeObject>, items: seq<Value>) returns (proteinSelection: seq<NodeObject>)
    ensures proteinSelection == Rebuilt(table, items)
  {
    proteinSelection := [];
    for i := 0 to |items|
      invariant proteinSelection == Rebuilt(table, items[..i])
    {
      assert items[..i + 1][..i] == items[..i];
      var tableItem := FindRow(table, items[i]);
      if tableItem.Some? {
        proteinSelection := proteinSelection + [tableItem.value];
      }
    }
    assert items[..|items|] == items;
  }

  /** `createNetwork` as `refresh` sees it: the node objects are new and
    * one per entry, and the edges are the created edges. */
  method CreateResultNetwork(details: seq<(string, Fields)>, edges: seq<Fields>, targetNodes: Option<seq<Value>>,
                             config: Config, mapEdge: (Fields, Config) -> Fields)
    returns (r: Option<Network>)
    ensures r.Some? <==> Buildable(details, edges, targetNodes, config, mapEdge)
    ensures r.Some? ==> |r.value.nodes| == |details| && forall o | o in r.value.nodes :: fresh(o)
    ensures r.Some? ==> Props(r.value.nodes) == CreatedNodes(details, Identifier(config), targetNodes, config.nodeGroups).value
    ensures r.Some? ==> r.value.edges == CreatedEdges(edges, ProteinIdMap(details, Identifier(config)).value, mapEdge, config).value
  {
    r := CreateNetwork(details, edges, targetNodes, config, mapEdge);
  }

  // ---------------------------------------------------------------------
  // The panel.
  // ---------------------------------------------------------------------

  /** A row after `toggleNormalization(choice)`, when `refresh` calls it. */
  function Rescored(row: Fields, choice: Option<bool>, max: real): Fields {
    match choice
    case None => row
    case Some(normalize) => if normalize then Normalized(row, max) else Unnormalized(row)
  }

  /** `rows.map(load)` on property maps. */
  function Each(rows: seq<Fields>, load: Fields -> Fields): (r: seq<Fields>)
    ensures |r| == |rows| && forall i | 0 <= i < |rows| :: r[i] == load(rows[i])
  {
    seq(|rows|, i requires 0 <= i < |rows| => load(rows[i]))
  }

  /** `rows.filter(keep)` on property maps. */
  function Keep(rows: seq<Fields>, keep: Fields -> bool): (r: seq<Fields>)
    ensures |r| <= |rows|
  {
    if rows == [] then []
    else Keep(rows[..|rows| - 1], keep) + (if keep(rows[|rows| - 1]) then [rows[|rows| - 1]] else [])
  }

  /** The property maps of the filtered rows are the filtered property maps. */
  lemma {:induction false} FilterRowsProps(rows: seq<NodeObject>, keep: Fields -> bool)
    ensures Props(FilterRows(rows, keep)) == Keep(Props(rows), keep)
  {
    if rows != [] {
      FilterRowsProps(rows[..|rows| - 1], keep);
      assert Props(rows)[..|rows| - 1] == Props(rows[..|rows| - 1]);
    }
  }

  /** The protein row loader of `refresh` for a given seed map. */
  function ProteinLoader(seedMap: Fields): Fields -> Fields {
    (p: Fields) => LoadedProtein(p, seedMap)
  }

  /** The maximum raw score of the drug table once loaded. */
  function DrugMax(rows: seq<Fields>): real {
    MaxRaw(Each(Keep(rows, IsTableDrug), WithRawScore))
  }

  /** The maximum raw score of the protein table once loaded. */
  function ProteinMax(rows: seq<Fields>, seedMap: Fields): real {
    MaxRaw(Each(Keep(rows, IsProteinEntry), ProteinLoader(seedMap)))
  }

  /** A node of the result network after `refresh` loaded the score tables
    * and applied the algorithm's normalisation choice: drug rows and
    * protein rows are loaded and rescored against their own table's
    * maximum; every other node is left alone. */
  function RefreshedRow(row: Fields, choice: Option<bool>, seedMap: Fields, drugMax: real, proteinMax: real): Fields {
    RescoredRow(LoadedRow(row, seedMap), choice, drugMax, proteinMax)
  }

  /** A node as the table loading of `refresh` leaves it: a drug row gets
    * its raw score, a protein row is loaded, any other node is left alone. */
  function LoadedRow(row: Fields, seedMap: Fields): Fields {
    if IsTableDrug(row) then WithRawScore(row)
    else if IsProteinEntry(row) then LoadedProtein(row, seedMap)
    else row
  }

  /** A loaded node after the normalisation choice: the rows of each table
    * are rescored against that table's maximum. */
  function RescoredRow(row: Fields, choice: Option<bool>, drugMax: real, proteinMax: real): Fields {
    if IsTableDrug(row) then Rescored(row, choice, drugMax)
    else if IsProteinEntry(row) then Rescored(row, choice, proteinMax)
    else row
  }

  /** The drug and protein tables are the nodes whose props in `before`
    * are drug and protein rows, in node order. */
  predicate ScoreTables(rows: seq<NodeObject>, before: seq<Fields>, drugs: seq<NodeObject>, proteins: seq<NodeObject>) {
    && |rows| == |before|
    && drugs == Pick(rows, before, IsTableDrug)
    && proteins == Pick(rows, before, IsProteinEntry)
  }

  /** Every node holds its props in `before` refreshed: loaded as a table
    * row, then rescored by `choice` against the maxima of the tables
    * loaded from `before`. */
  ghost predicate Refreshed(rows: seq<NodeObject>, before: seq<Fields>, choice: Option<bool>, seedMap: Fields)
    reads rows`props
  {
    && |before| == |rows|
    && forall i | 0 <= i < |rows| ::
         rows[i].props == RefreshedRow(before[i], choice, seedMap, DrugMax(before), ProteinMax(before, seedMap))
  }

  /** Loading every node and then rescoring every node is refreshing
    * every node. */
  lemma RefreshedInTwoSteps(rows: seq<Fields>, loaded: seq<Fields>, rescored: seq<Fields>, choice: Option<bool>,
                            seedMap: Fields, drugMax: real, proteinMax: real)
    requires |rows| == |loaded| == |rescored|
    requires forall i | 0 <= i < |rows| :: loaded[i] == LoadedRow(rows[i], seedMap)
    requires forall i | 0 <= i < |rows| :: rescored[i] == RescoredRow(loaded[i], choice, drugMax, proteinMax)
    ensures forall i | 0 <= i < |rows| :: rescored[i] == RefreshedRow(rows[i], choice, seedMap, drugMax, proteinMax)
  {
  }

  /** Loading keeps a node in the table it came from, and out of the other. */
  lemma LoadedRowKind(row: Fields, seedMap: Fields)
    ensures IsTableDrug(LoadedRow(row, seedMap)) == IsTableDrug(row)
    ensures IsProteinEntry(LoadedRow(row, seedMap)) == IsProteinEntry(row)
  {
    LoadedProteinKeeps(row, seedMap);
    if IsProteinEntry(row) {
      assert Get(LoadedRow(row, seedMap), "drugstoneType") == Str("protein");
    }
  }

  /** With normalisation on, every numeric score in a refreshed table lies
    * in [.., 1] and a row with the table's maximum raw score scores 1;
    * with it off, the score is the one the backend gave. */
  lemma RefreshedScores(rows: seq<Fields>, seedMap: Fields, i: int)
    requires 0 <= i < |rows| && (IsTableDrug(rows[i]) || IsProteinEntry(rows[i]))
    ensures var r := RefreshedRow(rows[i], Some(false), seedMap, DrugMax(rows), ProteinMax(rows, seedMap));
      Get(r, "score") == Get(rows[i], "score") && RawScore(r) == Get(rows[i], "score")
    ensures var max := if IsTableDrug(rows[i]) then DrugMax(rows) else ProteinMax(rows, seedMap);
      var r := RefreshedRow(rows[i], Some(true), seedMap, DrugMax(rows), ProteinMax(rows, seedMap));
      && RawScore(r) == Get(rows[i], "score")
      && (max > 0.0 && Get(rows[i], "score").Num? ==>
            r["score"].Num? && r["score"].n <= 1.0
            && (Get(rows[i], "score") == Num(max) ==> r["score"] == Num(1.0)))
  {
    RefreshedRowScores(rows[i], seedMap, DrugMax(rows), ProteinMax(rows, seedMap));
    if IsTableDrug(rows[i]) {
      if DrugMax(rows) > 0.0 && Get(rows[i], "score").Num? {
        NormalizedInTable(rows, IsTableDrug, WithRawScore, i);
      }
    } else {
      assert ProteinLoader(seedMap)(rows[i]) == LoadedProtein(rows[i], seedMap);
      if ProteinMax(rows, seedMap) > 0.0 && Get(rows[i], "score").Num? {
        NormalizedInTable(rows, IsProteinEntry, ProteinLoader(seedMap), i);
      }
    }
  }

  /** A table row refreshed without normalisation shows the backend's
    * score; with it, the score is the raw score over its table's maximum. */
  lemma RefreshedRowScores(row: Fields, seedMap: Fields, drugMax: real, proteinMax: real)
    requires IsTableDrug(row) || IsProteinEntry(row)
    ensures var r := RefreshedRow(row, Some(false), seedMap, drugMax, proteinMax);
      Get(r, "score") == Get(row, "score") && RawScore(r) == Get(row, "score")
    ensures var r := RefreshedRow(row, Some(true), seedMap, drugMax, proteinMax);
      && RawScore(r) == Get(row, "score")
      && r == (if IsTableDrug(row) then Normalized(WithRawScore(row), drugMax)
               else Normalized(ProteinLoader(seedMap)(row), proteinMax))
  {
    LoadedProteinKeeps(row, seedMap);
  }

  /** A kept row whose loading saves its score as the raw score, normalised
    * against the loaded table's maximum, scores at most 1, and exactly 1
    * when it holds the maximum. */
  lemma NormalizedInTable(rows: seq<Fields>, keep: Fields -> bool, load: Fields -> Fields, i: int)
    requires 0 <= i < |rows| && keep(rows[i])
    requires RawScore(load(rows[i])) == Get(rows[i], "score")
    requires Get(rows[i], "score").Num? && MaxRaw(Each(Keep(rows, keep), load)) > 0.0
    ensures var max := MaxRaw(Each(Keep(rows, keep), load));
      var r := Normalized(load(rows[i]), max);
      && r["score"].Num? && r["score"].n <= 1.0
      && (Get(rows[i], "score") == Num(max) ==> r["score"] == Num(1.0))
  {
    KeepHas(rows, keep, i);
    var j :| 0 <= j < |Keep(rows, keep)| && Keep(rows, keep)[j] == rows[i];
    NormalizedAtMostOne(Each(Keep(rows, keep), load), j);
  }

  /** A row `keep` holds of is among the kept rows. */
  lemma {:induction false} KeepHas(rows: seq<Fields>, keep: Fields -> bool, i: int)
    requires 0 <= i < |rows| && keep(rows[i])
    ensures exists j | 0 <= j < |Keep(rows, keep)| :: Keep(rows, keep)[j] == rows[i]
  {
    var k := Keep(rows[..|rows| - 1], keep);
    if i == |rows| - 1 {
      assert Keep(rows, keep)[|k|] == rows[i];
    } else {
      KeepHas(rows[..|rows| - 1], keep, i);
      var j :| 0 <= j < |k| && k[j] == rows[i];
      assert Keep(rows, keep)[j] == rows[i];
    }
  }

  /** Rows loaded one by one: their property maps are the loaded maps. */
  lemma LoadedTableProps(table: seq<NodeObject>, before: seq<Fields>, load: Fields -> Fields)
    requires |table| == |before|
    requires forall k | 0 <= k < |table| :: table[k].props == load(before[k])
    ensures Props(table) == Each(before, load)
  {
  }

  /** The panel's state, together with the parts of the active network's
    * state (`seedMap`, `gradientMap`, `highlightSeeds`) and of the
    * selection service (`activeSelection`) that it writes. */
  class AnalysisPanel {
    var token: Option<string>
    var myConfig: Config
    var nodes: seq<NodeObject>
    var edges: seq<Fields>
    var proteins: seq<NodeObject>
    var options: Fields
    var physicsOn: bool
    var tableDrugs: seq<NodeObject>
    var tableProteins: seq<NodeObject>
    var tableSelectedProteins: seq<NodeObject>
    var tableNormalize: bool
    var tableHasScores: bool
    var drugTooltip: Tooltip
    var proteinTooltip: Tooltip
    var showDrugs: bool
    var expressionExpanded: bool
    var expressionMap: Option<Fields>
    var gradientMap: Fields
    var seedMap: Fields
    var highlightSeeds: bool
    var activeSelection: string

    /** The drug and protein tables never share a row. */
    predicate Valid()
      reads this`tableDrugs, this`tableProteins
    {
      forall o | o in tableDrugs :: o !in tableProteins
    }

    constructor (config: Config)
      ensures Valid() && token.None? && myConfig == config
      ensures tableDrugs == tableProteins == tableSelectedProteins == [] && nodes == [] && edges == []
      ensures !tableNormalize && !tableHasScores && drugTooltip == proteinTooltip == Blank
      ensures !showDrugs && !expressionExpanded && expressionMap.None?
    {
      token := None;
      myConfig := config;
      nodes, edges, proteins := [], [], [];
      options := map[];
      physicsOn := false;
      tableDrugs, tableProteins, tableSelectedProteins := [], [], [];
      tableNormalize, tableHasScores := false, false;
      drugTooltip, proteinTooltip := Blank, Blank;
      showDrugs, expressionExpanded := false, false;
      expressionMap := None;
      gradientMap, seedMap := map[], map[];
      highlightSeeds := false;
      activeSelection := "main";
    }

    /** `toggleNormalization`: both score tables normalised against their
    * own maximum raw score, or both reset to their raw scores. */
    method ToggleNormalization(normalize: bool)
      requires Valid()
      modifies this`tableNormalize, set o | o in tableDrugs, set o | o in tableProteins
      ensures Valid() && tableNormalize == normalize
      ensures unchanged(this`nodes, this`seedMap, this`tableDrugs, this`tableProteins)
      ensures unchanged(this`tableSelectedProteins, this`tableHasScores)
      ensures normalize ==> forall o | o in tableDrugs :: o.props == Normalized(old(o.props), MaxRaw(old(Props(tableDrugs))))
      ensures normalize ==> forall o | o in tableProteins :: o.props == Normalized(old(o.props), MaxRaw(old(Props(tableProteins))))
      ensures !normalize ==> forall o | o in tableDrugs :: o.props == Unnormalized(old(o.props))
      ensures !normalize ==> forall o | o in tableProteins :: o.props == Unnormalized(old(o.props))
    {
      tableNormalize := normalize;
      if normalize {
        NormalizeTable(tableDrugs);
        assert Props(tableProteins) == old(Props(tableProteins));
        NormalizeTable(tableProteins);
      } else {
        UnnormalizeTable(tableDrugs);
        UnnormalizeTable(tableProteins);
      }
    }

    /** `close`: the analysis state is reset and the main selection is
    * active again. */
    method Close()
      modifies this`gradientMap, this`expressionExpanded, this`expressionMap, this`seedMap
      modifies this`highlightSeeds, this`showDrugs, this`activeSelection, this`token
      ensures token.None? && !HasToken() && activeSelection == "main"
      ensures gradientMap == map[] && seedMap == map[] && !highlightSeeds
      ensures !expressionExpanded && expressionMap.None? && !showDrugs
      ensures Valid() == old(Valid())
    {
      gradientMap := map[];
      expressionExpanded := false;
      expressionMap := None;
      seedMap := map[];
      highlightSeeds := false;
      showDrugs := false;
      activeSelection := "main";
      token := None;
    }

    /** A truthy token: an analysis is open. */
    predicate HasToken()
      reads this`token
    {
      token.Some? && token.value != ""
    }

    /** The table part of `refresh`: the drug table (with the intended
    * filter) and the protein table, each the matching nodes in order and
    * loaded, and the proteins already selected. */
    method LoadTables(inSelection: Value -> bool, ghost before: seq<Fields>)
      requires before == Props(nodes)
      modifies this`tableDrugs, this`tableProteins, this`tableSelectedProteins, set o | o in nodes
      ensures nodes == old(nodes) && seedMap == old(seedMap)
      ensures tableNormalize == old(tableNormalize) && tableHasScores == old(tableHasScores)
      ensures Valid()
      ensures ScoreTables(nodes, before, tableDrugs, tableProteins)
      ensures forall o | o in tableSelectedProteins :: o in tableProteins
      ensures LoadedFrom(nodes, before, seedMap) && TablesOf(nodes, tableDrugs, tableProteins)
      ensures LoadedTables(tableDrugs, tableProteins, before, seedMap)
    {
      tableDrugs, tableProteins, tableSelectedProteins := LoadScoreRows(nodes, seedMap, inSelection);
    }

    /** The normalisation step of `refresh`: with a choice,
    * `toggleNormalization` rescores each table against its own maximum;
    * without one the rows keep their scores. */
    method Rescore(choice: Option<bool>)
      requires Valid() && TablesOf(nodes, tableDrugs, tableProteins)
      modifies this`tableNormalize, set o | o in tableDrugs, set o | o in tableProteins
      ensures Valid() && nodes == old(nodes) && seedMap == old(seedMap)
      ensures tableDrugs == old(tableDrugs) && tableProteins == old(tableProteins)
      ensures tableSelectedProteins == old(tableSelectedProteins) && tableHasScores == old(tableHasScores)
      ensures tableNormalize == if choice.Some? then choice.value else old(tableNormalize)
      ensures forall i | 0 <= i < |nodes| ::
        nodes[i].props == RescoredRow(old(nodes[i].props), choice, MaxRaw(old(Props(tableDrugs))), MaxRaw(old(Props(tableProteins))))
    {
      if choice.Some? {
        ToggleNormalization(choice.value);
      }
    }

    /** `refresh` for an open analysis: the task's algorithm and whether it
    * is done, and for a done task its result, stand for what the backend
    * returns. `ok` is false when building the network raised a TypeError;
    * what was assigned before then stays assigned. */
    method Refresh(algorithm: string, done: bool, details: seq<(string, Fields)>, resultEdges: seq<Fields>,
                   targetNodes: Option<seq<Value>>, config: Config, isSeed: Value,
                   mapEdge: (Fields, Config) -> Fields, inSelection: Value -> bool)
      returns (ok: bool)
      requires Valid()
      modifies this
      ensures Valid()
      ensures !old(HasToken()) ==> ok && unchanged(this)
      ensures old(HasToken()) ==> activeSelection == old(token.value)
      ensures old(HasToken()) ==> (drugTooltip, proteinTooltip) == ScoreTooltips(algorithm, old((drugTooltip, proteinTooltip)))
      ensures old(HasToken()) && !done ==>
        && ok && nodes == old(nodes) && edges == old(edges)
        && tableDrugs == old(tableDrugs) && tableProteins == old(tableProteins)
        && tableSelectedProteins == old(tableSelectedProteins)
        && tableHasScores == old(tableHasScores) && tableNormalize == old(tableNormalize)
      ensures old(HasToken()) && done ==>
        && seedMap == SeedMapOf(isSeed) && !showDrugs && myConfig == config
        && (ok <==> Buildable(details, resultEdges, targetNodes, config, mapEdge))
      ensures old(HasToken()) && done && ok ==>
        && |nodes| == |details| && (forall o | o in nodes :: fresh(o))
        && edges == CreatedEdges(resultEdges, ProteinIdMap(details, Identifier(config)).value, mapEdge, config).value
        && physicsOn == !IsBig(|nodes|, |edges|)
        && options == ConfigOptions(AnalysisKind(|nodes|, |edges|), config)
        && (forall o | o in tableDrugs :: o in nodes) && (forall o | o in tableProteins :: o in nodes)
        && tableHasScores == NormalizeChoice(algorithm).Some?
        && tableNormalize == (if tableHasScores then NormalizeChoice(algorithm).value else old(tableNormalize))
      ensures old(HasToken()) && done && ok ==>
        var created := CreatedNodes(details, Identifier(config), targetNodes, config.nodeGroups);
        && created.Some?
        && ScoreTables(nodes, created.value, tableDrugs, tableProteins)
        && Refreshed(nodes, created.value, NormalizeChoice(algorithm), seedMap)
      ensures old(HasToken()) && done && !ok ==>
        && nodes == [] && edges == []
        && tableDrugs == old(tableDrugs) && tableProteins == old(tableProteins)
        && tableSelectedProteins == old(tableSelectedProteins)
        && tableHasScores == old(tableHasScores) && tableNormalize == old(tableNormalize)
    {
      ok := true;
      if !HasToken() {
        return;
      }
      activeSelection := token.value;
      var tooltips := ScoreTooltips(algorithm, (drugTooltip, proteinTooltip));
      drugTooltip, proteinTooltip := tooltips.0, tooltips.1;
      if !done {
        return;
      }
      ok := LoadResult(algorithm, details, resultEdges, targetNodes, config, isSeed, mapEdge, inSelection);
    }

    /** The part of `refresh` for a done task. */
    method LoadResult(algorithm: string, details: seq<(string, Fields)>, resultEdges: seq<Fields>,
                      targetNodes: Option<seq<Value>>, config: Config, isSeed: Value,
                      mapEdge: (Fields, Config) -> Fields, inSelection: Value -> bool)
      returns (ok: bool)
      requires Valid()
      modifies this`seedMap, this`nodes, this`edges, this`proteins, this`showDrugs, this`myConfig
      modifies this`options, this`physicsOn, this`tableDrugs, this`tableProteins, this`tableSelectedProteins
      modifies this`tableHasScores, this`tableNormalize
      ensures Valid()
      ensures seedMap == SeedMapOf(isSeed) && !showDrugs && myConfig == config
      ensures ok <==> Buildable(details, resultEdges, targetNodes, config, mapEdge)
      ensures ok ==>
        && |nodes| == |details| && (forall o | o in nodes :: fresh(o))
        && edges == CreatedEdges(resultEdges, ProteinIdMap(details, Identifier(config)).value, mapEdge, config).value
        && physicsOn == !IsBig(|nodes|, |edges|)
        && options == ConfigOptions(AnalysisKind(|nodes|, |edges|), config)
        && (forall o | o in tableDrugs :: o in nodes) && (forall o | o in tableProteins :: o in nodes)
        && tableHasScores == NormalizeChoice(algorithm).Some?
        && tableNormalize == (if tableHasScores then NormalizeChoice(algorithm).value else old(tableNormalize))
      ensures ok ==>
        var created := CreatedNodes(details, Identifier(config), targetNodes, config.nodeGroups);
        && created.Some?
        && ScoreTables(nodes, created.value, tableDrugs, tableProteins)
        && Refreshed(nodes, created.value, NormalizeChoice(algorithm), seedMap)
      ensures !ok ==>
        && nodes == [] && edges == []
        && tableDrugs == old(tableDrugs) && tableProteins == old(tableProteins)
        && tableSelectedProteins == old(tableSelectedProteins)
        && tableHasScores == old(tableHasScores) && tableNormalize == old(tableNormalize)
    {
      var network := CreateResultNetwork(details, resultEdges, targetNodes, config, mapEdge);
      DrawResult(network, config, isSeed);
      if network.None? {
        return false;
      }
      LoadScores(NormalizeChoice(algorithm), inSelection);
      return true;
    }

    /** What `refresh` assigns around `createNetwork`: the seed map, the
    * drug toggle and the configuration, and, once the network is built,
    * its nodes and edges drawn with the result's configuration. */
    method DrawResult(network: Option<Network>, config: Config, isSeed: Value)
      modifies this`seedMap, this`nodes, this`edges, this`proteins, this`showDrugs, this`myConfig
      modifies this`options, this`physicsOn
      ensures seedMap == SeedMapOf(isSeed) && !showDrugs && myConfig == config
      ensures network.None? ==> nodes == [] && edges == []
      ensures network.Some? ==>
        && nodes == network.value.nodes && edges == network.value.edges && proteins == network.value.proteins
        && physicsOn == !IsBig(|nodes|, |edges|)
        && options == ConfigOptions(AnalysisKind(|nodes|, |edges|), config)
    {
      seedMap := SeedMapOf(isSeed);
      nodes, edges := [], [];
      showDrugs := false;
      myConfig := config;
      if network.Some? {
        nodes, edges, proteins := network.value.nodes, network.value.edges, network.value.proteins;
        options := ConfigOptions(AnalysisKind(|nodes|, |edges|), myConfig);
        physicsOn := !IsBig(|nodes|, |edges|);
      }
    }

    /** The score tables of the drawn network and their normalisation: the
    * drug and protein rows of `nodes`, in order, each loaded and rescored
    * as `RefreshedRow` says; the other nodes are left alone. */
    method LoadScores(choice: Option<bool>, inSelection: Value -> bool)
      modifies this`tableDrugs, this`tableProteins, this`tableSelectedProteins, this`tableHasScores
      modifies this`tableNormalize, set o | o in nodes
      ensures Valid()
      ensures ScoreTables(nodes, old(Props(nodes)), tableDrugs, tableProteins)
      ensures (forall o | o in tableDrugs :: o in nodes) && (forall o | o in tableProteins :: o in nodes)
      ensures forall o | o in tableSelectedProteins :: o in tableProteins
      ensures Refreshed(nodes, old(Props(nodes)), choice, seedMap)
      ensures tableHasScores == choice.Some?
      ensures tableNormalize == if choice.Some? then choice.value else old(tableNormalize)
    {
      ghost var rows := Props(nodes);
      PickWithin(nodes, rows, IsTableDrug);
      PickWithin(nodes, rows, IsProteinEntry);
      tableHasScores := choice.Some?;
      LoadTables(inSelection, rows);
      ghost var loaded := Props(nodes);
      assert MaxRaw(Props(tableDrugs)) == DrugMax(rows);
      assert MaxRaw(Props(tableProteins)) == ProteinMax(rows, seedMap);
      Rescore(choice);
      RefreshedInTwoSteps(rows, loaded, Props(nodes), choice, seedMap, DrugMax(rows), ProteinMax(rows, seedMap));
    }

    /** `tableProteinSelection`: the table's new selection replaces the old
    * one; the rows that joined it are added to the selection service and
    * the rows that left it are removed. */
    method TableProteinSelection(e: seq<NodeObject>) returns (addItems: seq<Wrapper>, removeItems: seq<Wrapper>)
      modifies this`tableSelectedProteins, set o | o in e, set o | o in tableSelectedProteins
      ensures tableSelectedProteins == e
      ensures forall o | o in e || o in old(tableSelectedProteins) :: o.props == WithFoundGroup(old(o.props))
      ensures |addItems| == |Missing(e, old(tableSelectedProteins))|
      ensures forall k | 0 <= k < |addItems| ::
        && addItems[k].data == Missing(e, old(tableSelectedProteins))[k]
        && addItems[k].id == addItems[k].nodeId == NodeId(addItems[k].data.props)
      ensures |removeItems| == |Missing(old(tableSelectedProteins), e)|
      ensures forall k | 0 <= k < |removeItems| ::
        && removeItems[k].data == Missing(old(tableSelectedProteins), e)[k]
        && removeItems[k].id == removeItems[k].nodeId == NodeId(removeItems[k].data.props)
    {
      var oldSelection := tableSelectedProteins;
      tableSelectedProteins := e;
      addItems := WrapMissing(e, oldSelection);
      removeItems := WrapMissing(oldSelection, e);
      forall o | o in e && o in oldSelection
        ensures WithFoundGroup(WithFoundGroup(old(o.props))) == WithFoundGroup(old(o.props))
      {
        WithFoundGroupIdempotent(old(o.props));
      }
    }

    /** The table part of the selection service's callback: a reported
    * change of some items is applied row by row; a whole new list
    * (`selected === null`) rebuilds the selection. */
    method SyncSelection(items: seq<Value>, selected: Option<bool>)
      modifies this`tableSelectedProteins
      ensures !HasToken() ==> tableSelectedProteins == old(tableSelectedProteins)
      ensures HasToken() && selected.Some? ==>
        tableSelectedProteins == old(Synced(tableSelectedProteins, tableProteins, items, selected.value))
      ensures HasToken() && selected.None? ==> tableSelectedProteins == old(Rebuilt(tableProteins, items))
    {
      if !HasToken() {
        return;
      }
      var next;
      if selected.Some? {
        next := SyncItems(tableSelectedProteins, tableProteins, items, selected.value);
      } else {
        next := RebuildSelection(tableProteins, items);
      }
      tableSelectedProteins := next;
    }
  }
}
