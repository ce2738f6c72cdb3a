/**
 * The configuration object of the front end and its built-in defaults.
 *
 * A configuration holds the node style groups, the edge style groups and a
 * bag of further settings (identifier kind, interaction datasets, shadow and
 * physics toggles, panel visibility). Unknown keys pass through unvalidated,
 * which is why the settings are an open map rather than a record.
 */
module Config {
  import opened JsValues

  datatype Config = Config(
    nodeGroups: map<string, Fields>,
    edgeGroups: map<string, Fields>,
    settings: Fields)

  // The reserved node groups every resolved configuration provides.
  const DEFAULT_GROUP := "default"
  const FOUND_NODE := "foundNode"
  const FOUND_DRUG := "foundDrug"
  const DEFAULT_DISORDER := "defaultDisorder"
  const SEED_NODE := "seedNode"
  const SELECTED_NODE := "selectedNode"

  /** A colour given per state: border, background and their highlight. */
  function FullColor(border: string, background: string, hiBorder: string, hiBackground: string): Value {
    Obj(map[
      "border" := Str(border),
      "background" := Str(background),
      "highlight" := Obj(map["border" := Str(hiBorder), "background" := Str(hiBackground)])])
  }

  /** The font of the `default` group; `background` is present but undefined. */
  function DefaultFont(): Fields {
    map[
      "color" := Str("#000000"),
      "size" := Num(14.0),
      "face" := Str("arial"),
      "background" := Undefined,
      "strokeWidth" := Num(0.0),
      "strokeColor" := Str("#ffffff"),
      "align" := Str("center"),
      "bold" := Bool(false),
      "ital" := Bool(false),
      "boldital" := Bool(false),
      "mono" := Bool(false)]
  }

  function DefaultGroup(): Fields {
    map[
      "groupName" := Str("Default Node Group"),
      "color" := FullColor("#FFFF00", "#FFFF00", "#FF0000", "#FF0000"),
      "shape" := Str("triangle"),
      "type" := Str("default type"),
      "detailShowLabel" := Bool(false),
      "font" := Obj(DefaultFont()),
      "borderWidth" := Num(1.0),
      "borderWidthSelected" := Num(2.0)]
  }

  function SelectedNodeGroup(): Fields {
    map[
      "borderWidth" := Num(3.0),
      "borderWidthSelected" := Num(4.0),
      "color" := Obj(map[
        "border" := Str("#F8981D"),
        "highlight" := Obj(map["border" := Str("#F8981D")])]),
      "font" := Obj(map["color" := Str("#F8981D"), "size" := Num(14.0)])]
  }

  function FoundNodeGroup(): Fields {
    map[
      "groupName" := Str("Found Nodes"),
      "color" := FullColor("#F12590", "#F12590", "#F12590", "#F12590"),
      "shape" := Str("circle"),
      "type" := Str("default node type")]
  }

  function FoundDrugGroup(): Fields {
    map[
      "groupName" := Str("Drugs"),
      "color" := FullColor("#F12590", "#F12590", "#F12590", "#F12590"),
      "shape" := Str("diamond"),
      "type" := Str("default drug type")]
  }

  function DefaultDisorderGroup(): Fields {
    map[
      "groupName" := Str("Disorders"),
      "color" := FullColor("#ffa62f", "#ffa62f", "#ffa62f", "#ffa62f"),
      "shape" := Str("triangle"),
      "type" := Str("default disorder type")]
  }

  function SeedNodeGroup(): Fields {
    map[
      "groupName" := Str("Seed Nodes"),
      "shape" := Str("triangle"),
      "type" := Str("seed"),
      "color" := FullColor("#F1111D", "#F1111D", "#F1111D", "#F1111D"),
      "font" := Obj(map["color" := Str("#F1111D"), "size" := Num(14.0)])]
  }

  function DefaultNodeGroups(): map<string, Fields> {
    map[
      DEFAULT_GROUP := DefaultGroup(),
      FOUND_NODE := FoundNodeGroup(),
      FOUND_DRUG := FoundDrugGroup(),
      DEFAULT_DISORDER := DefaultDisorderGroup(),
      SEED_NODE := SeedNodeGroup(),
      SELECTED_NODE := SelectedNodeGroup()]
  }

  function DefaultEdgeGroups(): map<string, Fields> {
    map[DEFAULT_GROUP := map[
      "groupName" := Str("Default Edge Group"),
      "color" := Str("black"),
      "dashes" := Bool(false)]]
  }

  function DefaultSettings(): Fields {
    map[
      "title" := Str("Drugst.one"),
      "legendUrl" := Str(""),
      "legendClass" := Str("legend"),
      "legendPos" := Str("left"),
      "taskTargetName" := Str("Drug Target Search"),
      "taskDrugName" := Str("Drug Search"),
      "showLegendNodes" := Bool(true),
      "showLegendEdges" := Bool(true),
      "showLeftSidebar" := Bool(true),
      "showRightSidebar" := Bool(true),
      "showOverview" := Bool(true),
      "showQuery" := Bool(true),
      "showItemSelector" := Bool(true),
      "showSimpleAnalysis" := Bool(false),
      "showAdvAnalysis" := Bool(true),
      "showSelection" := Bool(true),
      "showTasks" := Bool(true),
      "showFooter" := Bool(true),
      "showLegend" := Bool(true),
      "showFooterButtonExpression" := Bool(true),
      "showFooterButtonScreenshot" := Bool(true),
      "showFooterButtonExportGraphml" := Bool(true),
      "identifier" := Str("symbol"),
      "interactionDrugProtein" := Str("DrugBank"),
      "interactionProteinProtein" := Str("STRING"),
      "nodeShadow" := Bool(true),
      "edgeShadow" := Bool(true),
      "autofillEdges" := Bool(true)]
  }

  /** A map of style groups as the plain object the front end passes around. */
  function GroupsValue(groups: map<string, Fields>): (r: Value)
    ensures r.Obj? && r.fields.Keys == groups.Keys
    ensures forall g | g in groups :: r.fields[g] == Obj(groups[g])
  {
    Obj(map g | g in groups :: Obj(groups[g]))
  }

  /** The configuration as the object whose properties the front end reads. */
  function AsValue(c: Config): (r: Value)
    ensures r.Obj? && Get(r.fields, "nodeGroups") == GroupsValue(c.nodeGroups)
    ensures r.Obj? && Get(r.fields, "edgeGroups") == GroupsValue(c.edgeGroups)
    ensures forall k | k != "nodeGroups" && k != "edgeGroups" :: Get(r.fields, k) == Get(c.settings, k)
  {
    Obj(c.settings["nodeGroups" := GroupsValue(c.nodeGroups)]["edgeGroups" := GroupsValue(c.edgeGroups)])
  }

  function DefaultConfig(): Config {
    Config(DefaultNodeGroups(), DefaultEdgeGroups(), DefaultSettings())
  }

  /** The reserved node groups are exactly the six named ones. */
  lemma DefaultNodeGroupNames()
    ensures DefaultNodeGroups().Keys ==
      {DEFAULT_GROUP, FOUND_NODE, FOUND_DRUG, DEFAULT_DISORDER, SEED_NODE, SELECTED_NODE}
  {
  }

  /** Every default group but `selectedNode` names itself, has a colour and a shape. */
  lemma DefaultGroupsComplete()
    ensures forall g | g in DefaultNodeGroups() && g != SELECTED_NODE ::
      CompleteGroup(DefaultNodeGroups()[g])
  {
    var groups := DefaultNodeGroups();
    EachDefaultGroupComplete();
    DefaultNodeGroupNames();
    assert CompleteGroup(groups[DEFAULT_GROUP]) && CompleteGroup(groups[FOUND_NODE]) && CompleteGroup(groups[FOUND_DRUG]);
    assert CompleteGroup(groups[DEFAULT_DISORDER]) && CompleteGroup(groups[SEED_NODE]);
  }

  /** The five named groups, each on its own. */
  lemma EachDefaultGroupComplete()
    ensures CompleteGroup(DefaultGroup()) && CompleteGroup(FoundNodeGroup()) && CompleteGroup(FoundDrugGroup())
    ensures CompleteGroup(DefaultDisorderGroup()) && CompleteGroup(SeedNodeGroup())
  {
  }

  /** A group that can stand alone in the legend: named, coloured and shaped. */
  predicate CompleteGroup(group: Fields) {
    && Truthy(Get(group, "groupName"))
    && Truthy(Get(group, "color"))
    && Truthy(Get(group, "shape"))
  }

  /** The selection overlay has neither shape nor name: it thickens the border
    * and recolours only the border. */
  lemma SelectedNodeOverlay()
    ensures DefaultNodeGroups()[SELECTED_NODE].Keys ==
      {"borderWidth", "borderWidthSelected", "color", "font"}
    ensures DefaultNodeGroups()[SELECTED_NODE]["borderWidth"] == Num(3.0)
    ensures DefaultNodeGroups()[SELECTED_NODE]["borderWidthSelected"] == Num(4.0)
    ensures DefaultNodeGroups()[SELECTED_NODE]["color"].fields.Keys == {"border", "highlight"}
    ensures DefaultNodeGroups()[SELECTED_NODE]["color"].fields["highlight"].fields.Keys == {"border"}
  {
  }

  /** The `default` group carries the border widths and the full font. */
  lemma DefaultGroupDefaults()
    ensures DefaultNodeGroups()[DEFAULT_GROUP]["borderWidth"] == Num(1.0)
    ensures DefaultNodeGroups()[DEFAULT_GROUP]["borderWidthSelected"] == Num(2.0)
    ensures DefaultNodeGroups()[DEFAULT_GROUP]["font"] == Obj(DefaultFont())
  {
  }

  /** The only default edge group is `default`: black and not dashed. */
  lemma DefaultEdgeGroup()
    ensures DefaultEdgeGroups().Keys == {DEFAULT_GROUP}
    ensures DefaultEdgeGroups()[DEFAULT_GROUP]["color"] == Str("black")
    ensures DefaultEdgeGroups()[DEFAULT_GROUP]["dashes"] == Bool(false)
  {
  }

  /** The default identifier, interaction datasets and toggles. */
  lemma DefaultToggles()
    ensures DefaultSettings()["identifier"] == Str("symbol")
    ensures DefaultSettings()["interactionDrugProtein"] == Str("DrugBank")
    ensures DefaultSettings()["interactionProteinProtein"] == Str("STRING")
    ensures DefaultSettings()["nodeShadow"] == Bool(true)
    ensures DefaultSettings()["edgeShadow"] == Bool(true)
    ensures DefaultSettings()["autofillEdges"] == Bool(true)
  {
  }
}
