/**
 * Styling of network nodes from the configured node groups, and the vis.js
 * option presets of the three kinds of network.
 *
 * `GetNodeStyle` rewrites a node in place: it strips the keys of the
 * `default` group, restores or backs up the pre-seed group in `_group`,
 * resolves the shadow, switches seeds to `seedNode`, overlays the selection
 * style on a fresh copy (selected nodes) or strips group keys (others), and
 * finally applies the image shape and the custom renderer. `Style` is the
 * same step sequence on values; its error is the TypeError raised when a
 * group it reads is missing from the configuration.
 */
module NetworkSettings {
  import opened JsValues
  import opened Config
  import opened Interfaces

  const TYPE_ERROR := "TypeError"
  const DIM_SHADOW := "rgba(0,0,0,0.5)"
  const SELECTED_SHADOW := "#000000"

  type Groups = map<string, Fields>

  /** The group a node names: its `group` value used as a property key. */
  function GroupKey(node: Fields): string {
    ToText(Get(node, "group"))
  }

  /** `{enabled: group.shadow, color}` when the group's shadow is truthy, else `{color}`. */
  function ShadowFor(group: Fields, color: string): (r: Value)
    ensures r.Obj? && "color" in r.fields && r.fields["color"] == Str(color)
    ensures "enabled" in r.fields <==> Truthy(Get(group, "shadow"))
  {
    if Truthy(Get(group, "shadow")) then Obj(map["enabled" := group["shadow"], "color" := Str(color)])
    else Obj(map["color" := Str(color)])
  }

  // ---------------------------------------------------------------------
  // Option presets.
  // ---------------------------------------------------------------------

  datatype NetworkKind = Main | Analysis | AnalysisBig

  function Layout(kind: NetworkKind): Fields {
    if kind.Main? then map["improvedLayout" := Bool(false)] else map["improvedLayout" := Bool(true)]
  }

  function EdgeOptions(kind: NetworkKind): Fields {
    if kind.Main? then map["smooth" := Bool(false), "length" := Num(250.0)] else map["smooth" := Bool(false)]
  }

  /** The physics used when the configuration does not switch physics on. */
  function PhysicsPreset(kind: NetworkKind): Value {
    match kind
    case Main => Obj(map["enabled" := Bool(true), "stabilization" := Bool(true)])
    case Analysis => Obj(map[
      "enabled" := Bool(true),
      "stabilization" := Obj(map["enabled" := Bool(true)]),
      "repulsion" := Obj(map["centralGravity" := Num(0.0)]),
      "solver" := Str("repulsion")])
    case AnalysisBig => Obj(map["enabled" := Bool(false)])
  }

  /** vis.js options for a network kind, read from the configuration
    * argument `config`. Reading a property of an undefined or null
    * argument is a TypeError. */
  function Options(kind: NetworkKind, config: Value): (r: Result<Fields, string>)
    ensures r.Ok? <==> !config.Undefined? && !config.Null?
    ensures r.Ok? ==> r.value.Keys == {"layout", "edges", "physics", "groups"}
    ensures r.Ok? ==> r.value["groups"] == GetProp(config, "nodeGroups").value
    ensures r.Ok? ==> var on := GetProp(config, "physicsOn").value;
      r.value["physics"] == (if Truthy(on) then on else PhysicsPreset(kind))
    ensures r.Ok? ==> r.value["layout"] == Obj(map["improvedLayout" := Bool(!kind.Main?)])
    ensures r.Ok? && kind.Main? ==> r.value["edges"] == Obj(map["smooth" := Bool(false), "length" := Num(250.0)])
  {
    match GetProp(config, "physicsOn")
    case None => Err(TYPE_ERROR)
    case Some(physicsOn) =>
      var groups := GetProp(config, "nodeGroups").value;
      Ok(map[
        "layout" := Obj(Layout(kind)),
        "edges" := Obj(EdgeOptions(kind)),
        "physics" := Or(physicsOn, PhysicsPreset(kind)),
        "groups" := groups])
  }

  /** Options for a resolved configuration: its node groups become the vis
    * groups and a truthy `physicsOn` setting replaces the kind's preset. */
  function ConfigOptions(kind: NetworkKind, c: Config): Fields {
    map[
      "layout" := Obj(Layout(kind)),
      "edges" := Obj(EdgeOptions(kind)),
      "physics" := Or(Get(c.settings, "physicsOn"), PhysicsPreset(kind)),
      "groups" := GroupsValue(c.nodeGroups)]
  }

  /** `getOptions(kind, config)` with a full configuration succeeds and
    * yields `ConfigOptions`: the four keys, the configured node groups, and
    * physics from the `physicsOn` setting or the kind's preset. */
  lemma ConfigOptionsAgree(kind: NetworkKind, c: Config)
    ensures Options(kind, AsValue(c)) == Ok(ConfigOptions(kind, c))
    ensures ConfigOptions(kind, c).Keys == {"layout", "edges", "physics", "groups"}
  {
    var config := AsValue(c);
    assert GetProp(config, "physicsOn") == Some(Get(c.settings, "physicsOn"));
    assert GetProp(config, "nodeGroups") == Some(GroupsValue(c.nodeGroups));
  }

  /** The main network is created with `getOptions('main')`, no
    * configuration argument: reading `physicsOn` of undefined throws. */
  lemma MainOptionsWithoutConfig()
    ensures Options(Main, Undefined).Err?
  {
  }

  /** The analysis network passes `myConfig.physicsOn` as the configuration:
    * undefined throws, and a boolean yields the preset physics and no
    * groups, so neither the physics flag nor the node groups take effect. */
  lemma AnalysisOptionsWithPhysicsFlag(kind: NetworkKind, physicsOn: Value)
    requires physicsOn.Undefined? || physicsOn.Bool?
    ensures physicsOn.Undefined? ==> Options(kind, physicsOn).Err?
    ensures physicsOn.Bool? ==>
      (Options(kind, physicsOn).Ok?
       && Options(kind, physicsOn).value["groups"] == Undefined
       && Options(kind, physicsOn).value["physics"] == PhysicsPreset(kind))
  {
  }

  // ---------------------------------------------------------------------
  // The style steps on values.
  // ---------------------------------------------------------------------

  /** The node with the keys of the `default` group deleted; the group it
    * names after that is the pre-seed group. */
  function Stripped(node: Fields, groups: Groups): Fields
    requires DEFAULT_GROUP in groups
  {
    node - groups[DEFAULT_GROUP].Keys
  }

  /** The pre-seed group: `_group` when truthy, else `group`. */
  function RestoredGroup(node: Fields, groups: Groups): Value
    requires DEFAULT_GROUP in groups
  {
    var n := Stripped(node, groups);
    if Truthy(Get(n, "_group")) then n["_group"] else Get(n, "group")
  }

  /** Restore or back up `_group`, resolve the shadow, switch seeds. The
    * same object is updated, so this is also what the caller's node holds
    * after a selected node was copied. */
  function Prelude(node: Fields, groups: Groups, isSeed: bool): Result<Fields, string> {
    if DEFAULT_GROUP !in groups then Err(TYPE_ERROR)
    else
      var n1 := Stripped(node, groups);
      var n2 := if Truthy(Get(n1, "_group")) then n1["group" := n1["_group"]] else n1["_group" := Get(n1, "group")];
      var shadow :=
        if Truthy(Get(n2, "_shadow")) then Ok(n2["_shadow"])
        else if GroupKey(n2) in groups then Ok(ShadowFor(groups[GroupKey(n2)], DIM_SHADOW))
        else Err(TYPE_ERROR);
      if shadow.Err? then Err(TYPE_ERROR)
      else
        var n3 := n2["shadow" := shadow.value];
        Ok(if isSeed then n3["_group" := Get(n3, "group")]["group" := Str(SEED_NODE)] else n3)
  }

  /** A selected node: a copy with the active group's keys spread over it,
    * `selectedNode` deep-merged on top, and a black shadow. */
  function SelectedStep(node: Fields, groups: Groups): Result<Fields, string> {
    var active := if GroupKey(node) in groups then groups[GroupKey(node)] else map[];
    var overlay := if SELECTED_NODE in groups then groups[SELECTED_NODE] else map[];
    var merged := MergeFields(node + active, overlay);
    if GroupKey(merged) !in groups then Err(TYPE_ERROR)
    else Ok(merged["shadow" := ShadowFor(groups[GroupKey(merged)], SELECTED_SHADOW)])
  }

  /** An unselected node loses the keys of `selectedNode` and of its group. */
  function UnselectedStep(node: Fields, groups: Groups): Result<Fields, string> {
    if SELECTED_NODE !in groups then Err(TYPE_ERROR)
    else
      var n := node - groups[SELECTED_NODE].Keys;
      if GroupKey(n) !in groups then Err(TYPE_ERROR)
      else Ok(n - groups[GroupKey(n)].Keys)
  }

  /** A node with its own image (seeds excepted) is drawn as that image. */
  function ImageStep(node: Fields, isSeed: bool): Fields {
    if Truthy(Get(node, "image")) && !isSeed then node["shape" := Str("image")] else node
  }

  /** The custom renderer takes over shape, opacity and shadow; without one
    * the opacity is reset and the renderer removed. */
  function RendererStep(node: Fields, groups: Groups, isSeed: bool, gradient: Value, renderer: Option<Value>): Result<Fields, string> {
    match renderer
    case None => Ok(node["opacity" := Undefined] - {"ctxRenderer"})
    case Some(rd) =>
      if GroupKey(node) !in groups then Err(TYPE_ERROR)
      else
        var group := groups[GroupKey(node)];
        var n1 := node["shape" := Str("custom")]["color" := Obj(map["opacity" := gradient])]["opacity" := gradient];
        var n2 := if isSeed then n1["color" := Get(group, "color")] else n1 - {"color"};
        var n3 := n2["_shadow" := Get(n2, "shadow")];
        Ok(n3["shadow" := ShadowFor(group, DIM_SHADOW)]["ctxRenderer" := rd])
  }

  /** The whole style step sequence on values. */
  function Style(node: Fields, groups: Groups, isSeed: bool, isSelected: bool, gradient: Value, renderer: Option<Value>): Result<Fields, string> {
    var mid := Selection(node, groups, isSeed, isSelected);
    if mid.Err? then Err(TYPE_ERROR)
    else RendererStep(ImageStep(mid.value, isSeed), groups, isSeed, gradient, renderer)
  }

  /** Lines 97-148: the node after the key stripping, the seed switch and the selection style. */
  function Selection(node: Fields, groups: Groups, isSeed: bool, isSelected: bool): Result<Fields, string> {
    var pre := Prelude(node, groups, isSeed);
    if pre.Err? then Err(TYPE_ERROR)
    else if isSelected then SelectedStep(pre.value, groups) else UnselectedStep(pre.value, groups)
  }

  // ---------------------------------------------------------------------
  // The resolver itself, in place.
  // ---------------------------------------------------------------------

  /** `Object.keys(schema).forEach(e => delete node[e])`. */
  method DeleteKeys(node: NodeObject, schema: Fields)
    modifies node`props
    ensures node.props == old(node.props) - schema.Keys
  {
    var pending := schema.Keys;
    while pending != {}
      invariant pending <= schema.Keys
      invariant node.props == old(node.props) - (schema.Keys - pending)
      decreases pending
    {
      var e :| e in pending;
      node.props := node.props - {e};
      pending := pending - {e};
    }
  }

  /** Lines 98-129: strip, restore or back up `_group`, shadow, seed switch. */
  method ApplyPrelude(node: NodeObject, groups: Groups, isSeed: bool) returns (ok: bool)
    modifies node`props
    ensures ok <==> Prelude(old(node.props), groups, isSeed).Ok?
    ensures ok ==> node.props == Prelude(old(node.props), groups, isSeed).value
  {
    if DEFAULT_GROUP !in groups {
      return false;
    }
    DeleteKeys(node, groups[DEFAULT_GROUP]);

    if Truthy(Get(node.props, "_group")) {
      node.props := node.props["group" := node.props["_group"]];
    } else {
      node.props := node.props["_group" := Get(node.props, "group")];
    }

    if Truthy(Get(node.props, "_shadow")) {
      node.props := node.props["shadow" := node.props["_shadow"]];
    } else {
      if GroupKey(node.props) !in groups {
        return false;
      }
      node.props := node.props["shadow" := ShadowFor(groups[GroupKey(node.props)], DIM_SHADOW)];
    }
    if isSeed {
      node.props := node.props["_group" := Get(node.props, "group")];
      node.props := node.props["group" := Str(SEED_NODE)];
    }
    return true;
  }

  /** Lines 135-143: the selection style on a fresh copy. */
  method ApplySelected(node: NodeObject, groups: Groups) returns (r: Result<NodeObject, string>)
    ensures r.Ok? <==> SelectedStep(node.props, groups).Ok?
    ensures r.Ok? ==> fresh(r.value) && r.value.props == SelectedStep(node.props, groups).value
  {
    var active := if GroupKey(node.props) in groups then groups[GroupKey(node.props)] else map[];
    var copy := new NodeObject(node.props + active);
    var overlay := if SELECTED_NODE in groups then groups[SELECTED_NODE] else map[];
    copy.props := MergeFields(copy.props, overlay);
    if GroupKey(copy.props) !in groups {
      return Err(TYPE_ERROR);
    }
    copy.props := copy.props["shadow" := ShadowFor(groups[GroupKey(copy.props)], SELECTED_SHADOW)];
    return Ok(copy);
  }

  /** Lines 146-147: remove the hard-configured keys. */
  method ApplyUnselected(node: NodeObject, groups: Groups) returns (ok: bool)
    modifies node`props
    ensures ok <==> UnselectedStep(old(node.props), groups).Ok?
    ensures ok ==> node.props == UnselectedStep(old(node.props), groups).value
  {
    if SELECTED_NODE !in groups {
      return false;
    }
    DeleteKeys(node, groups[SELECTED_NODE]);
    if GroupKey(node.props) !in groups {
      return false;
    }
    DeleteKeys(node, groups[GroupKey(node.props)]);
    return true;
  }

  /** Lines 151-153: the image shape. */
  method ApplyImage(node: NodeObject, isSeed: bool)
    modifies node`props
    ensures node.props == ImageStep(old(node.props), isSeed)
  {
    if Truthy(Get(node.props, "image")) && !isSeed {
      node.props := node.props["shape" := Str("image")];
    }
  }

  /** Lines 156-180: the custom renderer or its removal. */
  method ApplyRenderer(node: NodeObject, groups: Groups, isSeed: bool, gradient: Value, renderer: Option<Value>)
    returns (ok: bool)
    modifies node`props
    ensures ok <==> RendererStep(old(node.props), groups, isSeed, gradient, renderer).Ok?
    ensures ok ==> node.props == RendererStep(old(node.props), groups, isSeed, gradient, renderer).value
  {
    var props := node.props;
    if renderer.Some? {
      props := props["shape" := Str("custom")];
      props := props["color" := Obj(map["opacity" := gradient])];
      props := props["opacity" := gradient];
      if isSeed {
        if GroupKey(props) !in groups {
          node.props := props;
          return false;
        }
        props := props["color" := Get(groups[GroupKey(props)], "color")];
      } else {
        props := props - {"color"};
      }
      props := props["_shadow" := Get(props, "shadow")];
      if GroupKey(props) !in groups {
        node.props := props;
        return false;
      }
      props := props["shadow" := ShadowFor(groups[GroupKey(props)], DIM_SHADOW)];
      props := props["ctxRenderer" := renderer.value];
    } else {
      props := props["opacity" := Undefined];
      props := props - {"ctxRenderer"};
    }
    node.props := props;
    return true;
  }

  /** Styles `node` for display. A renderer of `None` is the default `null`.
    * A selected node is copied; any other node is updated and returned. */
  method GetNodeStyle(node: NodeObject, groups: Groups, isSeed: bool, isSelected: bool, gradient: Value, renderer: Option<Value>)
    returns (r: Result<NodeObject, string>)
    modifies node`props
    ensures r.Ok? <==> Style(old(node.props), groups, isSeed, isSelected, gradient, renderer).Ok?
    ensures r.Ok? ==> r.value.props == Style(old(node.props), groups, isSeed, isSelected, gradient, renderer).value
    ensures r.Ok? && !isSelected ==> r.value == node
    ensures r.Ok? && isSelected ==> fresh(r.value) && node.props == Prelude(old(node.props), groups, isSeed).value
  {
    var selected := ApplySelection(node, groups, isSeed, isSelected);
    if selected.Err? {
      return Err(TYPE_ERROR);
    }
    var cur := selected.value;
    ApplyImage(cur, isSeed);
    var ok := ApplyRenderer(cur, groups, isSeed, gradient, renderer);
    if !ok {
      return Err(TYPE_ERROR);
    }
    return Ok(cur);
  }

  /** Lines 97-148: the key stripping and seed switch, then the selection style on a copy or
    * its removal from the node itself. */
  method ApplySelection(node: NodeObject, groups: Groups, isSeed: bool, isSelected: bool)
    returns (r: Result<NodeObject, string>)
    modifies node`props
    ensures r.Ok? <==> Selection(old(node.props), groups, isSeed, isSelected).Ok?
    ensures r.Ok? ==> r.value.props == Selection(old(node.props), groups, isSeed, isSelected).value
    ensures r.Ok? && !isSelected ==> r.value == node
    ensures r.Ok? && isSelected ==> fresh(r.value) && node.props == Prelude(old(node.props), groups, isSeed).value
  {
    var ok := ApplyPrelude(node, groups, isSeed);
    if !ok {
      return Err(TYPE_ERROR);
    }
    if isSelected {
      r := ApplySelected(node, groups);
    } else {
      ok := ApplyUnselected(node, groups);
      r := if ok then Ok(node) else Err(TYPE_ERROR);
    }
  }

  // ---------------------------------------------------------------------
  // What the style promises.
  // ---------------------------------------------------------------------

  /** Groups that do not define the bookkeeping keys the resolver keeps on
    * nodes (the reserved groups of the default configuration do not). */
  predicate BookkeepingFree(groups: Groups) {
    forall g | g in groups :: "group" !in groups[g] && "_group" !in groups[g] && "_shadow" !in groups[g]
  }

  /** The group whose style applies after the seed switch. */
  function ActiveGroup(node: Fields, groups: Groups, isSeed: bool): string
    requires DEFAULT_GROUP in groups
  {
    if isSeed then SEED_NODE else ToText(RestoredGroup(node, groups))
  }

  /** The lookup of line 117 fails when the node has no saved shadow and
    * its pre-seed group is not configured. */
  lemma StyleFailsWithoutGroup(node: Fields, groups: Groups, isSeed: bool, isSelected: bool, gradient: Value, renderer: Option<Value>)
    requires DEFAULT_GROUP in groups
    requires !Truthy(Get(Stripped(node, groups), "_shadow"))
    requires ToText(RestoredGroup(node, groups)) !in groups
    ensures Style(node, groups, isSeed, isSelected, gradient, renderer).Err?
  {
    var n1 := Stripped(node, groups);
    var n2 := if Truthy(Get(n1, "_group")) then n1["group" := n1["_group"]] else n1["_group" := Get(n1, "group")];
    assert Get(n2, "_shadow") == Get(n1, "_shadow");
    assert GroupKey(n2) == ToText(RestoredGroup(node, groups));
  }

  lemma PreludeFacts(node: Fields, groups: Groups, isSeed: bool)
    requires BookkeepingFree(groups) && DEFAULT_GROUP in groups
    requires Prelude(node, groups, isSeed).Ok?
    ensures "_group" in Prelude(node, groups, isSeed).value
    ensures GroupKey(Prelude(node, groups, isSeed).value) == ActiveGroup(node, groups, isSeed)
    ensures Prelude(node, groups, isSeed).value["_group"] == RestoredGroup(node, groups)
    ensures !isSeed ==> Get(Prelude(node, groups, isSeed).value, "group") == RestoredGroup(node, groups)
    ensures isSeed ==> Get(Prelude(node, groups, isSeed).value, "group") == Str(SEED_NODE)
  {
    var n1 := Stripped(node, groups);
    var n2 := if Truthy(Get(n1, "_group")) then n1["group" := n1["_group"]] else n1["_group" := Get(n1, "group")];
    assert n2["_group"] == RestoredGroup(node, groups);
    assert Get(n2, "group") == RestoredGroup(node, groups);
  }

  /** The selection overlay and the key stripping keep the bookkeeping keys. */
  lemma MidKeepsGroup(pre: Fields, groups: Groups, isSelected: bool)
    requires BookkeepingFree(groups)
    requires "_group" in pre
    requires (if isSelected then SelectedStep(pre, groups) else UnselectedStep(pre, groups)).Ok?
    ensures var mid := (if isSelected then SelectedStep(pre, groups) else UnselectedStep(pre, groups)).value;
      "_group" in mid && Get(mid, "group") == Get(pre, "group") && mid["_group"] == pre["_group"]
  {
    if isSelected {
      var active := if GroupKey(pre) in groups then groups[GroupKey(pre)] else map[];
      var overlay := if SELECTED_NODE in groups then groups[SELECTED_NODE] else map[];
      MergeAt(pre + active, overlay, "group");
      MergeAt(pre + active, overlay, "_group");
    }
  }

  /** Image shape and renderer leave the bookkeeping keys alone. */
  lemma FinishKeepsGroup(mid: Fields, groups: Groups, isSeed: bool, gradient: Value, renderer: Option<Value>)
    requires "_group" in mid
    requires RendererStep(ImageStep(mid, isSeed), groups, isSeed, gradient, renderer).Ok?
    ensures var r := RendererStep(ImageStep(mid, isSeed), groups, isSeed, gradient, renderer).value;
      "_group" in r && Get(r, "group") == Get(mid, "group") && r["_group"] == mid["_group"]
  {
  }

  /** The result keeps the pre-seed group in `_group`; seeds are in `seedNode`,
    * other nodes are back in their pre-seed group. */
  lemma StyleGroups(node: Fields, groups: Groups, isSeed: bool, isSelected: bool, gradient: Value, renderer: Option<Value>)
    requires BookkeepingFree(groups)
    requires Style(node, groups, isSeed, isSelected, gradient, renderer).Ok?
    ensures DEFAULT_GROUP in groups
    ensures var r := Style(node, groups, isSeed, isSelected, gradient, renderer).value;
      && "_group" in r
      && r["_group"] == RestoredGroup(node, groups)
      && Get(r, "group") == (if isSeed then Str(SEED_NODE) else RestoredGroup(node, groups))
  {
    var pre := Prelude(node, groups, isSeed).value;
    PreludeFacts(node, groups, isSeed);
    MidKeepsGroup(pre, groups, isSelected);
    var mid := (if isSelected then SelectedStep(pre, groups) else UnselectedStep(pre, groups)).value;
    FinishKeepsGroup(mid, groups, isSeed, gradient, renderer);
  }

  /** With the reserved groups and the pre-seed group configured, styling
    * cannot fail. */
  lemma StyleSucceeds(node: Fields, groups: Groups, isSeed: bool, isSelected: bool, gradient: Value, renderer: Option<Value>)
    requires BookkeepingFree(groups)
    requires DEFAULT_GROUP in groups && SEED_NODE in groups && SELECTED_NODE in groups
    requires ToText(RestoredGroup(node, groups)) in groups
    ensures Style(node, groups, isSeed, isSelected, gradient, renderer).Ok?
  {
    PreludeSucceeds(node, groups, isSeed);
    var pre := Prelude(node, groups, isSeed).value;
    PreludeFacts(node, groups, isSeed);
    MidSucceeds(pre, groups, isSelected);
    MidKeepsGroup(pre, groups, isSelected);
    var mid := (if isSelected then SelectedStep(pre, groups) else UnselectedStep(pre, groups)).value;
    FinishSucceeds(mid, groups, isSeed, gradient, renderer);
  }

  lemma FinishSucceeds(mid: Fields, groups: Groups, isSeed: bool, gradient: Value, renderer: Option<Value>)
    requires GroupKey(mid) in groups
    ensures RendererStep(ImageStep(mid, isSeed), groups, isSeed, gradient, renderer).Ok?
  {
    assert GroupKey(ImageStep(mid, isSeed)) == GroupKey(mid);
  }

  lemma PreludeSucceeds(node: Fields, groups: Groups, isSeed: bool)
    requires DEFAULT_GROUP in groups
    requires ToText(RestoredGroup(node, groups)) in groups
    ensures Prelude(node, groups, isSeed).Ok?
  {
    var n1 := Stripped(node, groups);
    var n2 := if Truthy(Get(n1, "_group")) then n1["group" := n1["_group"]] else n1["_group" := Get(n1, "group")];
    assert GroupKey(n2) == ToText(RestoredGroup(node, groups));
  }

  lemma MidSucceeds(pre: Fields, groups: Groups, isSelected: bool)
    requires BookkeepingFree(groups)
    requires SELECTED_NODE in groups && GroupKey(pre) in groups
    ensures (if isSelected then SelectedStep(pre, groups) else UnselectedStep(pre, groups)).Ok?
  {
    if isSelected {
      MergeAt(pre + groups[GroupKey(pre)], groups[SELECTED_NODE], "group");
      assert GroupKey(MergeFields(pre + groups[GroupKey(pre)], groups[SELECTED_NODE])) == GroupKey(pre);
    } else {
      assert GroupKey(pre - groups[SELECTED_NODE].Keys) == GroupKey(pre);
    }
  }

  // ---------------------------------------------------------------------
  // Restyling a styled node with the same flags changes nothing.
  // ---------------------------------------------------------------------

  /** `a` and `b` hold the same keys with the same values, except perhaps
    * the keys in `ks`. */
  ghost predicate AgreeOutside(a: Fields, b: Fields, ks: set<string>) {
    forall k | k !in ks :: (k in a <==> k in b) && (k in a ==> a[k] == b[k])
  }

  /** The keys the image and renderer steps (lines 151-182) set or delete
    * whatever the node held before. */
  function Overwritten(mid: Fields, isSeed: bool, renderer: Option<Value>): set<string> {
    RendererWrites(renderer) + (if Truthy(Get(mid, "image")) && !isSeed then {"shape"} else {})
  }

  /** Writing the same value into both keeps them in agreement there. */
  lemma AgreeUpdate(a: Fields, b: Fields, ks: set<string>, k: string, v: Value)
    requires AgreeOutside(a, b, ks)
    ensures AgreeOutside(a[k := v], b[k := v], ks - {k})
  {
  }

  /** Deleting the same key from both keeps them in agreement there. */
  lemma AgreeRemove(a: Fields, b: Fields, ks: set<string>, k: string)
    requires AgreeOutside(a, b, ks)
    ensures AgreeOutside(a - {k}, b - {k}, ks - {k})
  {
  }

  /** Agreement everywhere is equality. */
  lemma AgreeEverywhere(a: Fields, b: Fields)
    requires AgreeOutside(a, b, {})
    ensures a == b
  {
    assert a.Keys == b.Keys;
  }

  /** The prelude is the node without the keys of `default`, except for the
    * group keys, which hold the pre-seed group or `seedNode`, and the
    * shadow, which is the saved one or the group's. */
  lemma PreludeChanges(x: Fields, groups: Groups, isSeed: bool)
    requires BookkeepingFree(groups) && DEFAULT_GROUP in groups
    requires ToText(RestoredGroup(x, groups)) in groups
    requires Truthy(RestoredGroup(x, groups))
    ensures Prelude(x, groups, isSeed).Ok?
    ensures var p := Prelude(x, groups, isSeed).value;
      && AgreeOutside(p, Stripped(x, groups), {"group", "_group", "shadow"})
      && "_group" in p && p["_group"] == RestoredGroup(x, groups)
      && "group" in p && p["group"] == (if isSeed then Str(SEED_NODE) else RestoredGroup(x, groups))
      && "shadow" in p && Truthy(p["shadow"])
      && p["shadow"] == (if Truthy(Get(x, "_shadow")) then x["_shadow"]
                         else ShadowFor(groups[ToText(RestoredGroup(x, groups))], DIM_SHADOW))
  {
    var n1 := Stripped(x, groups);
    var n2 := if Truthy(Get(n1, "_group")) then n1["group" := n1["_group"]] else n1["_group" := Get(n1, "group")];
    assert Get(n2, "_shadow") == Get(x, "_shadow");
    assert GroupKey(n2) == ToText(RestoredGroup(x, groups));
    assert n2["_group"] == RestoredGroup(x, groups) && n2["group"] == RestoredGroup(x, groups);
  }

  /** The image and renderer steps change only the keys they overwrite and
    * the shadow; a renderer first saves the shadow in `_shadow`. */
  lemma FinishChanges(mid: Fields, groups: Groups, isSeed: bool, gradient: Value, renderer: Option<Value>)
    requires RendererStep(ImageStep(mid, isSeed), groups, isSeed, gradient, renderer).Ok?
    ensures var r := RendererStep(ImageStep(mid, isSeed), groups, isSeed, gradient, renderer).value;
      && AgreeOutside(r, mid, Overwritten(mid, isSeed, renderer) + {"shadow"})
      && (renderer.Some? ==> "_shadow" in r && r["_shadow"] == Get(mid, "shadow"))
  {
  }

  /** The keys the renderer step (lines 157-182) sets or deletes whatever
    * the node held before. */
  function RendererWrites(renderer: Option<Value>): set<string> {
    {"opacity", "ctxRenderer"} + (if renderer.Some? then {"shape", "color", "_shadow"} else {})
  }

  /** Nodes that agree outside the overwritten keys come out of the image
    * and renderer steps alike. */
  lemma FinishCongruent(m1: Fields, m2: Fields, ks: set<string>, groups: Groups, isSeed: bool, gradient: Value, renderer: Option<Value>)
    requires ks <= Overwritten(m1, isSeed, renderer)
    requires AgreeOutside(m1, m2, ks)
    ensures RendererStep(ImageStep(m1, isSeed), groups, isSeed, gradient, renderer)
         == RendererStep(ImageStep(m2, isSeed), groups, isSeed, gradient, renderer)
  {
    assert AgreeOutside(m1, m2, Overwritten(m1, isSeed, renderer));
    ImageCongruent(m1, m2, isSeed, renderer);
    RendererCongruent(ImageStep(m1, isSeed), ImageStep(m2, isSeed), groups, isSeed, gradient, renderer);
  }

  lemma ImageCongruent(m1: Fields, m2: Fields, isSeed: bool, renderer: Option<Value>)
    requires AgreeOutside(m1, m2, Overwritten(m1, isSeed, renderer))
    ensures AgreeOutside(ImageStep(m1, isSeed), ImageStep(m2, isSeed), RendererWrites(renderer))
  {
    assert Get(m1, "image") == Get(m2, "image");
    if Truthy(Get(m1, "image")) && !isSeed {
      AgreeUpdate(m1, m2, Overwritten(m1, isSeed, renderer), "shape", Str("image"));
      assert Overwritten(m1, isSeed, renderer) - {"shape"} <= RendererWrites(renderer);
    } else {
      assert Overwritten(m1, isSeed, renderer) == RendererWrites(renderer);
    }
  }

  lemma RendererCongruent(i1: Fields, i2: Fields, groups: Groups, isSeed: bool, gradient: Value, renderer: Option<Value>)
    requires AgreeOutside(i1, i2, RendererWrites(renderer))
    ensures RendererStep(i1, groups, isSeed, gradient, renderer) == RendererStep(i2, groups, isSeed, gradient, renderer)
  {
    var ks := RendererWrites(renderer);
    match renderer
    case None =>
      AgreeUpdate(i1, i2, ks, "opacity", Undefined);
      AgreeRemove(i1["opacity" := Undefined], i2["opacity" := Undefined], ks - {"opacity"}, "ctxRenderer");
      assert ks - {"opacity"} - {"ctxRenderer"} == {};
      AgreeEverywhere(i1["opacity" := Undefined] - {"ctxRenderer"}, i2["opacity" := Undefined] - {"ctxRenderer"});
    case Some(rd) =>
      assert GroupKey(i1) == GroupKey(i2);
      if GroupKey(i1) in groups {
        var group := groups[GroupKey(i1)];
        var a1, a2 := i1["shape" := Str("custom")], i2["shape" := Str("custom")];
        AgreeUpdate(i1, i2, ks, "shape", Str("custom"));
        var ks1 := ks - {"shape"};
        var b1, b2 := a1["color" := Obj(map["opacity" := gradient])], a2["color" := Obj(map["opacity" := gradient])];
        AgreeUpdate(a1, a2, ks1, "color", Obj(map["opacity" := gradient]));
        var ks2 := ks1 - {"color"};
        var c1, c2 := b1["opacity" := gradient], b2["opacity" := gradient];
        AgreeUpdate(b1, b2, ks2, "opacity", gradient);
        var ks3 := ks2 - {"opacity"};
        var n1 := if isSeed then c1["color" := Get(group, "color")] else c1 - {"color"};
        var n2 := if isSeed then c2["color" := Get(group, "color")] else c2 - {"color"};
        if isSeed {
          AgreeUpdate(c1, c2, ks3, "color", Get(group, "color"));
        } else {
          AgreeRemove(c1, c2, ks3, "color");
        }
        assert ks3 - {"color"} == {"ctxRenderer", "_shadow"};
        assert Get(n1, "shadow") == Get(n2, "shadow");
        var d1, d2 := n1["_shadow" := Get(n1, "shadow")], n2["_shadow" := Get(n1, "shadow")];
        AgreeUpdate(n1, n2, {"ctxRenderer", "_shadow"}, "_shadow", Get(n1, "shadow"));
        var e1, e2 := d1["shadow" := ShadowFor(group, DIM_SHADOW)], d2["shadow" := ShadowFor(group, DIM_SHADOW)];
        AgreeUpdate(d1, d2, {"ctxRenderer"}, "shadow", ShadowFor(group, DIM_SHADOW));
        AgreeUpdate(e1, e2, {"ctxRenderer"}, "ctxRenderer", rd);
        assert {"ctxRenderer"} - {"ctxRenderer"} == {};
        AgreeEverywhere(e1["ctxRenderer" := rd], e2["ctxRenderer" := rd]);
      }
  }

  /** Merging the active group and the overlay again over a node that
    * already carries them gives the same keys, wherever the node was not
    * changed since (`ks`); `gone` are keys neither node holds. */
  lemma MergeAgain(p: Fields, q: Fields, active: Fields, overlay: Fields, gone: set<string>, ks: set<string>)
    requires p.Keys !! gone && q.Keys !! gone
    requires AgreeOutside(q, MergeFields(p + active, overlay), ks + active.Keys + gone)
    ensures AgreeOutside(MergeFields(p + active, overlay), MergeFields(q + active, overlay), ks)
  {
    var m := MergeFields(p + active, overlay);
    var m2 := MergeFields(q + active, overlay);
    forall k | k !in ks
      ensures (k in m2 <==> k in m) && (k in m2 ==> m2[k] == m[k])
    {
      MergeAt(q + active, overlay, k);
      MergeAt(p + active, overlay, k);
      if k !in active && k !in gone && k in overlay {
        if k in p {
          MergeValueIdempotent(p[k], overlay[k]);
        } else {
          MergeValueSelf(overlay[k]);
        }
      }
    }
  }

  /** The unselected prelude again: the second prelude matches the first
    * wherever neither the stripping nor the last steps touched the node. */
  lemma UnselectedPreludeAgain(node: Fields, pre: Fields, mid: Fields, once: Fields, pre2: Fields, defaults: set<string>, selected: set<string>, active: set<string>, ow: set<string>)
    requires mid == pre - selected - active
    requires AgreeOutside(pre, node - defaults, {"group", "_group", "shadow"})
    requires AgreeOutside(once, mid, ow + {"shadow"})
    requires AgreeOutside(pre2, once - defaults, {"group", "_group", "shadow"})
    requires "group" in pre && "group" in pre2 && pre2["group"] == pre["group"]
    requires "_group" in pre && "_group" in pre2 && pre2["_group"] == pre["_group"]
    requires "shadow" !in selected + active ==> "shadow" in pre && "shadow" in pre2 && pre2["shadow"] == pre["shadow"]
    ensures AgreeOutside(mid, pre2 - selected - active, ow)
  {
    forall k | k !in ow
      ensures (k in mid <==> k in pre2 - selected - active)
           && (k in mid ==> mid[k] == (pre2 - selected - active)[k])
    {
      if k !in {"group", "_group", "shadow"} && k !in defaults && k !in selected && k !in active {
        assert (k in pre2 <==> k in once) && (k in pre2 ==> pre2[k] == once[k]);
      }
    }
  }

  /** The second prelude of an unselected node finds the same shadow: the
    * saved one is kept, or the renderer saved the first prelude's. */
  lemma UnselectedShadowAgain(node: Fields, pre: Fields, mid: Fields, once: Fields, pre2: Fields, fallback: Value, defaults: set<string>, selected: set<string>, active: set<string>, ow: set<string>, renderer: Option<Value>)
    requires mid == pre - selected - active
    requires "_shadow" !in defaults + selected + active
    requires "shadow" !in selected + active
    requires AgreeOutside(pre, node - defaults, {"group", "_group", "shadow"})
    requires AgreeOutside(once, mid, ow + {"shadow"})
    requires renderer.None? ==> "_shadow" !in ow
    requires renderer.Some? ==> "_shadow" in once && once["_shadow"] == Get(mid, "shadow")
    requires "shadow" in pre && Truthy(pre["shadow"])
    requires pre["shadow"] == (if Truthy(Get(node, "_shadow")) then node["_shadow"] else fallback)
    requires "shadow" in pre2
    requires pre2["shadow"] == (if Truthy(Get(once, "_shadow")) then once["_shadow"] else fallback)
    ensures pre2["shadow"] == pre["shadow"]
  {
    if renderer.None? {
      assert ("_shadow" in once <==> "_shadow" in pre) && ("_shadow" in once ==> once["_shadow"] == pre["_shadow"]);
      assert Get(once, "_shadow") == Get(node, "_shadow");
    }
  }

  /** The node the first styling left behind restores the same group. */
  lemma RestyleRestores(node: Fields, groups: Groups, isSeed: bool, isSelected: bool, gradient: Value, renderer: Option<Value>)
    requires BookkeepingFree(groups)
    requires DEFAULT_GROUP in groups && SEED_NODE in groups && SELECTED_NODE in groups
    requires ToText(RestoredGroup(node, groups)) in groups
    requires Truthy(RestoredGroup(node, groups))
    ensures Style(node, groups, isSeed, isSelected, gradient, renderer).Ok?
    ensures var once := Style(node, groups, isSeed, isSelected, gradient, renderer).value;
      RestoredGroup(once, groups) == RestoredGroup(node, groups)
  {
    StyleSucceeds(node, groups, isSeed, isSelected, gradient, renderer);
    StyleGroups(node, groups, isSeed, isSelected, gradient, renderer);
    var once := Style(node, groups, isSeed, isSelected, gradient, renderer).value;
    assert Stripped(once, groups)["_group"] == once["_group"];
  }

  /** Lines 145-148 twice: an unselected node styled again is unchanged. */
  lemma RestyleUnselected(node: Fields, groups: Groups, isSeed: bool, gradient: Value, renderer: Option<Value>)
    requires BookkeepingFree(groups)
    requires DEFAULT_GROUP in groups && SEED_NODE in groups && SELECTED_NODE in groups
    requires ToText(RestoredGroup(node, groups)) in groups
    requires Truthy(RestoredGroup(node, groups))
    ensures Style(node, groups, isSeed, false, gradient, renderer).Ok?
    ensures var once := Style(node, groups, isSeed, false, gradient, renderer).value;
      Style(once, groups, isSeed, false, gradient, renderer) == Ok(once)
  {
    RestyleRestores(node, groups, isSeed, false, gradient, renderer);
    var once := Style(node, groups, isSeed, false, gradient, renderer).value;
    PreludeChanges(node, groups, isSeed);
    PreludeChanges(once, groups, isSeed);
    var pre := Prelude(node, groups, isSeed).value;
    var pre2 := Prelude(once, groups, isSeed).value;
    var selected := groups[SELECTED_NODE].Keys;
    assert GroupKey(pre - selected) == GroupKey(pre) == GroupKey(pre2 - selected);
    var active := groups[GroupKey(pre)].Keys;
    var mid := UnselectedStep(pre, groups).value;
    assert mid == pre - selected - active;
    FinishChanges(mid, groups, isSeed, gradient, renderer);
    var ow := Overwritten(mid, isSeed, renderer);
    if "shadow" !in selected + active {
      var fallback := ShadowFor(groups[ToText(RestoredGroup(node, groups))], DIM_SHADOW);
      UnselectedShadowAgain(node, pre, mid, once, pre2, fallback, groups[DEFAULT_GROUP].Keys, selected, active, ow, renderer);
    }
    UnselectedPreludeAgain(node, pre, mid, once, pre2, groups[DEFAULT_GROUP].Keys, selected, active, ow);
    FinishCongruent(mid, pre2 - selected - active, ow, groups, isSeed, gradient, renderer);
  }

  /** Lines 131-143 twice: a selected node styled again is unchanged; the
    * overlay merged a second time adds nothing. */
  lemma RestyleSelected(node: Fields, groups: Groups, isSeed: bool, gradient: Value, renderer: Option<Value>)
    requires BookkeepingFree(groups)
    requires DEFAULT_GROUP in groups && SEED_NODE in groups && SELECTED_NODE in groups
    requires ToText(RestoredGroup(node, groups)) in groups
    requires Truthy(RestoredGroup(node, groups))
    ensures Style(node, groups, isSeed, true, gradient, renderer).Ok?
    ensures var once := Style(node, groups, isSeed, true, gradient, renderer).value;
      Style(once, groups, isSeed, true, gradient, renderer) == Ok(once)
  {
    RestyleRestores(node, groups, isSeed, true, gradient, renderer);
    var once := Style(node, groups, isSeed, true, gradient, renderer).value;
    PreludeChanges(node, groups, isSeed);
    PreludeChanges(once, groups, isSeed);
    var pre := Prelude(node, groups, isSeed).value;
    var pre2 := Prelude(once, groups, isSeed).value;
    var overlay := groups[SELECTED_NODE];
    var active := groups[GroupKey(pre)];
    assert GroupKey(pre2) == GroupKey(pre);
    var merged := MergeFields(pre + active, overlay);
    MergeAt(pre + active, overlay, "group");
    MergeAt(pre + active, overlay, "_group");
    var shadow := ShadowFor(groups[GroupKey(merged)], SELECTED_SHADOW);
    var mid := SelectedStep(pre, groups).value;
    assert mid == merged["shadow" := shadow];
    FinishChanges(mid, groups, isSeed, gradient, renderer);
    var ow := Overwritten(mid, isSeed, renderer);
    var gone := groups[DEFAULT_GROUP].Keys - {"shadow"};
    SelectedPreludeAgain(node, pre, shadow, merged, once, pre2, groups[DEFAULT_GROUP].Keys, ow, active.Keys);
    MergeAgain(pre, pre2, active, overlay, gone, ow + {"shadow"});
    var merged2 := MergeFields(pre2 + active, overlay);
    assert GroupKey(merged2) == GroupKey(merged);
    AgreeUpdate(merged, merged2, ow + {"shadow"}, "shadow", shadow);
    FinishCongruent(mid, merged2["shadow" := shadow], ow + {"shadow"} - {"shadow"}, groups, isSeed, gradient, renderer);
  }

  /** The selected prelude again: the second prelude is the merged node
    * wherever the last steps did not touch it, outside the keys of
    * `default`, which neither prelude holds. */
  lemma SelectedPreludeAgain(node: Fields, pre: Fields, shadow: Value, merged: Fields, once: Fields, pre2: Fields, defaults: set<string>, ow: set<string>, active: set<string>)
    requires AgreeOutside(pre, node - defaults, {"group", "_group", "shadow"})
    requires "group" !in defaults && "_group" !in defaults
    requires AgreeOutside(once, merged["shadow" := shadow], ow + {"shadow"})
    requires AgreeOutside(pre2, once - defaults, {"group", "_group", "shadow"})
    requires "group" in merged && "group" in pre2 && pre2["group"] == merged["group"]
    requires "_group" in merged && "_group" in pre2 && pre2["_group"] == merged["_group"]
    ensures pre.Keys !! defaults - {"shadow"} && pre2.Keys !! defaults - {"shadow"}
    ensures AgreeOutside(pre2, merged, ow + {"shadow"} + active + (defaults - {"shadow"}))
  {
    forall k | k !in ow + {"shadow"} + active + (defaults - {"shadow"})
      ensures (k in pre2 <==> k in merged) && (k in pre2 ==> pre2[k] == merged[k])
    {
      if k !in {"group", "_group"} {
        assert (k in pre2 <==> k in once) && (k in pre2 ==> pre2[k] == once[k]);
      }
    }
  }

  /** Styling is idempotent: a node styled once, styled again with the same
    * flags, gradient and renderer, is unchanged, provided its pre-seed
    * group is truthy and configured (with an empty group the second call
    * saves `seedNode` as the pre-seed group, lines 105-110). */
  lemma StyleIdempotent(node: Fields, groups: Groups, isSeed: bool, isSelected: bool, gradient: Value, renderer: Option<Value>)
    requires BookkeepingFree(groups)
    requires DEFAULT_GROUP in groups && SEED_NODE in groups && SELECTED_NODE in groups
    requires ToText(RestoredGroup(node, groups)) in groups
    requires Truthy(RestoredGroup(node, groups))
    ensures Style(node, groups, isSeed, isSelected, gradient, renderer).Ok?
    ensures var once := Style(node, groups, isSeed, isSelected, gradient, renderer).value;
      Style(once, groups, isSeed, isSelected, gradient, renderer) == Ok(once)
  {
    if isSelected {
      RestyleSelected(node, groups, isSeed, gradient, renderer);
    } else {
      RestyleUnselected(node, groups, isSeed, gradient, renderer);
    }
  }

  /** Without the seed flag a node returns to the group saved in `_group`. */
  lemma UnseededRestoresGroup(node: Fields, groups: Groups, isSelected: bool, gradient: Value, renderer: Option<Value>)
    requires BookkeepingFree(groups) && DEFAULT_GROUP in groups
    requires Truthy(Get(node, "_group"))
    requires Style(node, groups, false, isSelected, gradient, renderer).Ok?
    ensures Get(Style(node, groups, false, isSelected, gradient, renderer).value, "group") == node["_group"]
  {
    StyleGroups(node, groups, false, isSelected, gradient, renderer);
    assert Get(Stripped(node, groups), "_group") == node["_group"];
  }

  /** A selected node carries its active group's keys with `selectedNode`
    * deep-merged on top: the overlay's leaves win, nested fields it omits
    * keep the group's value, and other group keys are copied; shape,
    * opacity, renderer and shadow are settled later. */
  lemma SelectedOverlay(node: Fields, groups: Groups, isSeed: bool, gradient: Value, k: string)
    requires BookkeepingFree(groups)
    requires SELECTED_NODE in groups
    requires Style(node, groups, isSeed, true, gradient, None).Ok?
    requires k !in {"shadow", "shape", "opacity", "ctxRenderer"}
    ensures DEFAULT_GROUP in groups && ActiveGroup(node, groups, isSeed) in groups
    ensures var r := Style(node, groups, isSeed, true, gradient, None).value;
      var active := groups[ActiveGroup(node, groups, isSeed)];
      var overlay := groups[SELECTED_NODE];
      && (k in overlay && !overlay[k].Undefined? && !overlay[k].Obj? ==> k in r && r[k] == overlay[k])
      && (k in overlay && overlay[k].Obj? && k in active && active[k].Obj? ==>
            k in r && r[k] == Obj(MergeFields(active[k].fields, overlay[k].fields)))
      && (k !in overlay && k in active ==> k in r && r[k] == active[k])
  {
    var pre := Prelude(node, groups, isSeed).value;
    PreludeFacts(node, groups, isSeed);
    var g := ActiveGroup(node, groups, isSeed);
    var overlay := groups[SELECTED_NODE];
    var spread := if g in groups then groups[g] else map[];
    MergeAt(pre + spread, overlay, "group");
    assert GroupKey(MergeFields(pre + spread, overlay)) == g;
    MergeAt(pre + spread, overlay, k);
  }

  /** Nested fields the overlay leaves out keep the active group's value,
    * e.g. the background of a recoloured border. */
  lemma SelectedKeepsNested(node: Fields, groups: Groups, isSeed: bool, gradient: Value, k: string, j: string)
    requires BookkeepingFree(groups)
    requires SELECTED_NODE in groups
    requires Style(node, groups, isSeed, true, gradient, None).Ok?
    requires k !in {"shadow", "shape", "opacity", "ctxRenderer"}
    ensures DEFAULT_GROUP in groups && ActiveGroup(node, groups, isSeed) in groups
    ensures var r := Style(node, groups, isSeed, true, gradient, None).value;
      var active := groups[ActiveGroup(node, groups, isSeed)];
      var overlay := groups[SELECTED_NODE];
      k in overlay && overlay[k].Obj? && k in active && active[k].Obj? &&
      j in active[k].fields && j !in overlay[k].fields ==>
        k in r && r[k].Obj? && j in r[k].fields && r[k].fields[j] == active[k].fields[j]
  {
    SelectedOverlay(node, groups, isSeed, gradient, k);
    var active := groups[ActiveGroup(node, groups, isSeed)];
    var overlay := groups[SELECTED_NODE];
    if k in overlay && overlay[k].Obj? && k in active && active[k].Obj? && j in active[k].fields && j !in overlay[k].fields {
      MergeAt(active[k].fields, overlay[k].fields, j);
    }
  }

  /** A selected node without renderer has a black shadow, enabled exactly
    * when its active group's shadow is truthy. */
  lemma SelectedShadow(node: Fields, groups: Groups, isSeed: bool, gradient: Value)
    requires BookkeepingFree(groups)
    requires Style(node, groups, isSeed, true, gradient, None).Ok?
    ensures DEFAULT_GROUP in groups && ActiveGroup(node, groups, isSeed) in groups
    ensures var r := Style(node, groups, isSeed, true, gradient, None).value;
      && "shadow" in r && r["shadow"].Obj?
      && "color" in r["shadow"].fields && r["shadow"].fields["color"] == Str(SELECTED_SHADOW)
      && ("enabled" in r["shadow"].fields <==> Truthy(Get(groups[ActiveGroup(node, groups, isSeed)], "shadow")))
  {
    var pre := Prelude(node, groups, isSeed).value;
    PreludeFacts(node, groups, isSeed);
    var active := if GroupKey(pre) in groups then groups[GroupKey(pre)] else map[];
    var overlay := if SELECTED_NODE in groups then groups[SELECTED_NODE] else map[];
    MergeAt(pre + active, overlay, "group");
  }

  /** An unselected node without renderer keeps no key of `selectedNode` or
    * of its active group, except the image shape re-added for a non-seed
    * node with its own image and the opacity reset to undefined. */
  lemma UnselectedStripsGroupKeys(node: Fields, groups: Groups, isSeed: bool, gradient: Value, k: string)
    requires BookkeepingFree(groups)
    requires Style(node, groups, isSeed, false, gradient, None).Ok?
    ensures DEFAULT_GROUP in groups && SELECTED_NODE in groups && ActiveGroup(node, groups, isSeed) in groups
    ensures var r := Style(node, groups, isSeed, false, gradient, None).value;
      k in r && (k in groups[SELECTED_NODE] || k in groups[ActiveGroup(node, groups, isSeed)]) ==>
        || (k == "shape" && r[k] == Str("image") && !isSeed && Truthy(Get(r, "image")))
        || (k == "opacity" && r[k] == Undefined)
  {
    var pre := Prelude(node, groups, isSeed).value;
    PreludeFacts(node, groups, isSeed);
    var n := pre - groups[SELECTED_NODE].Keys;
    assert GroupKey(n) == GroupKey(pre);
  }

  /** With a renderer the node is drawn by it: custom shape, the gradient
    * as opacity, the group colour for seeds and none otherwise. Without
    * one the renderer key is gone and the opacity is undefined. */
  lemma RendererOverride(node: Fields, groups: Groups, isSeed: bool, isSelected: bool, gradient: Value, renderer: Option<Value>)
    requires BookkeepingFree(groups)
    requires Style(node, groups, isSeed, isSelected, gradient, renderer).Ok?
    ensures var r := Style(node, groups, isSeed, isSelected, gradient, renderer).value;
      && (renderer.Some? ==>
            && "shape" in r && r["shape"] == Str("custom")
            && "opacity" in r && r["opacity"] == gradient
            && "ctxRenderer" in r && r["ctxRenderer"] == renderer.value
            && (isSeed ==> SEED_NODE in groups && "color" in r && r["color"] == Get(groups[SEED_NODE], "color"))
            && (!isSeed ==> "color" !in r))
      && (renderer.None? ==> "ctxRenderer" !in r && "opacity" in r && r["opacity"] == Undefined)
  {
    if renderer.Some? && isSeed {
      StyleGroups(node, groups, isSeed, isSelected, gradient, renderer);
    }
  }
}
