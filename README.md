# Drugstone front end: network presentation, modelled in Dafny

This project models the graph-presentation layer of the Drugstone web
front end, an Angular application that draws protein–drug networks with
vis.js. It covers the following parts:

- **Node styling and network options** (`NetworkSettings`).
  - `getNodeStyle` strips a node's old style keys.
  - It saves and restores the node's pre-seed group in `_group` and switches seeds to `seedNode`.
  - It deep-merges the `selectedNode` overlay onto selected nodes and strips the group keys from unselected ones.
  - It sets the image shape and applies a custom renderer with the gradient as opacity.
  - `getOptions` picks the layout, edge options and physics for the main, analysis and big-analysis networks.
- **The default configuration** (`Config`) and the **id and wrapper helpers** (`Interfaces`).
- **The explorer page** (`ExplorerPage`).
  - It canonicalises the input network: strips Ensembl versions, removes duplicates, remaps ids and filters edges.
  - `setConfigNodeGroup` and `setConfigEdgeGroup` merge user groups over the defaults.
  - The adjacent-drug and adjacent-disorder toggles work through `saveAddNodes` and `saveRemoveDisorders`, with their legend context.
  - The g:Profiler link, `hasDrugsLoaded`, the window width and the query items.
- **The analysis panel** (`AnalysisPanel`).
  - `createNetwork` turns a task result's node details into styled nodes and rewrites `p…` edge ends through the protein id map.
  - `refresh` fills the drug and protein tables, chooses the tooltips and decides whether scores are shown and normalised.
  - `toggleNormalization` divides by the table's maximum raw score.
  - The selection is kept in sync with the table (`tableProteinSelection` and the `subscribeList` callback), and `close` resets the panel.
- **The analysis window** (`AnalysisWindow`).
  - It infers node types and node looks, maps nodes and edges, and builds the network from all result networks.
  - It toggles drugs on the network.
- **The launch-analysis dialog** (`LaunchAnalysis`).
  - The default algorithm settings.
  - `ngOnChanges` chooses which algorithms are offered.
  - `startTask` assembles the parameters.

JavaScript values are modelled as the `JsValues.Value` datatype: undefined, null, booleans, numbers, strings, arrays, objects and functions. Plain objects are `Fields` (`map<string, Value>`). Property access on `undefined` or `null` is a `TypeError`, which appears as `None` or `Err`. vis.js DataSets are sequences of items with unique ids (`VisData`).

Objects that the source changes in place are `NodeObject` instances, and the methods that change them have `modifies` clauses:
- a node being styled;
- a task-result detail;
- a table row.

The pages and dialogs are classes, and their fields are the component state the source assigns. Each method states its new state. Where the method computes something (a filter, a loop over rows, a rescoring), the ensures tie the result to a specification function, and that function's properties are proved as lemmas. For example, `refresh` ties every node to `RefreshedRow` of its detail, and `RefreshedScores` says what a refreshed score means.

## Model

| member | source | states |
|---|---|---|
| NetworkSettings.Options | src/app/network-settings.ts:63-88 | `getOptions` fails exactly when the config is undefined or null; otherwise the result has exactly layout, edges, physics and groups, groups is the config's `nodeGroups`, and physics is `physicsOn` or the preset of the network kind |
| NetworkSettings.ConfigOptionsAgree | src/app/network-settings.ts:63-88 | `getOptions` with a full configuration succeeds, with the four keys, the configured node groups, and physics from the `physicsOn` setting or the kind's preset |
| NetworkSettings.MainOptionsWithoutConfig | src/app/pages/explorer-page/explorer-page.component.ts:415 | asking for the main options without passing a configuration fails (see Findings) |
| NetworkSettings.AnalysisOptionsWithPhysicsFlag | src/app/components/analysis-panel/analysis-panel.component.ts:198 | passing the `physicsOn` flag where a configuration is expected throws when it is undefined; a boolean yields no node groups and the preset physics (see Findings) |
| NetworkSettings.ShadowFor | src/app/network-settings.ts:114-123 | the shadow object has the given colour and is enabled exactly when the group's `shadow` is truthy |
| NetworkSettings.DeleteKeys | src/app/network-settings.ts:98 | the node loses exactly the keys of the default group and keeps everything else |
| NetworkSettings.ApplyPrelude | src/app/network-settings.ts:98-129 | the in-place steps up to the seed switch succeed exactly when the specification `Prelude` does and leave the node as it says |
| NetworkSettings.ApplySelected | src/app/network-settings.ts:131-143 | a selected node becomes a fresh object: the active group deep-merged with `selectedNode`, exactly as `SelectedStep` |
| NetworkSettings.ApplyUnselected | src/app/network-settings.ts:144-148 | an unselected node loses the keys of `selectedNode` and of its group, exactly as `UnselectedStep` |
| NetworkSettings.ApplyImage | src/app/network-settings.ts:151-153 | a non-seed node with an image gets the image shape, exactly as `ImageStep` |
| NetworkSettings.ApplyRenderer | src/app/network-settings.ts:156-180 | the renderer step succeeds and changes the node exactly as `RendererStep` |
| NetworkSettings.GetNodeStyle | src/app/network-settings.ts:90-182 | the in-place `getNodeStyle` succeeds exactly when the specification `Style` does, and its result's properties are `Style`'s |
| NetworkSettings.ApplySelection | src/app/network-settings.ts:97-148 | the key stripping and seed switch followed by the selection style fails exactly when `Selection` does; a selected node is styled on a fresh copy and keeps its post-seed-switch properties, an unselected one is styled in place |
| NetworkSettings.StyleFailsWithoutGroup | src/app/network-settings.ts:105-117 | styling throws when the node has no saved shadow and its pre-seed group is not configured |
| NetworkSettings.PreludeFacts | src/app/network-settings.ts:105-129 | after the prelude, `_group` holds the restored pre-seed group; a seed is in `seedNode`, and any other node is back in its pre-seed group |
| NetworkSettings.MidKeepsGroup | src/app/network-settings.ts:131-148 | the selected and unselected steps keep `_group` and `group` |
| NetworkSettings.FinishKeepsGroup | src/app/network-settings.ts:151-180 | the image and renderer steps keep `_group` and `group` |
| NetworkSettings.StyleGroups | src/app/network-settings.ts:90-182 | a styled node records its pre-seed group in `_group`; seeds carry `seedNode` and other nodes their pre-seed group |
| NetworkSettings.StyleSucceeds | src/app/network-settings.ts:90-182 | styling cannot fail when `default`, `seedNode`, `selectedNode` and the node's pre-seed group are configured |
| NetworkSettings.PreludeSucceeds | src/app/network-settings.ts:105-129 | the prelude succeeds when the pre-seed group is configured |
| NetworkSettings.MidSucceeds | src/app/network-settings.ts:131-148 | the selection steps succeed when `selectedNode` and the active group are configured |
| NetworkSettings.FinishSucceeds | src/app/network-settings.ts:151-180 | the final steps succeed when the active group is configured |
| NetworkSettings.StyleIdempotent | src/app/network-settings.ts:90-182 | styling a node a second time with the same flags, gradient and renderer leaves it exactly as the first call did, for every seed, selection and renderer combination, when its pre-seed group is truthy and configured |
| NetworkSettings.RestyleUnselected | src/app/network-settings.ts:97-148 | an unselected node styled again is unchanged: the second pass strips and restores the same keys and finds the same shadow, saved or from its group |
| NetworkSettings.RestyleSelected | src/app/network-settings.ts:131-143 | a selected node styled again is unchanged: spreading the active group and deep-merging `selectedNode` a second time adds nothing |
| NetworkSettings.MergeAgain | src/app/network-settings.ts:135-136 | spreading the same group and merging the same overlay again over a node that already carries them changes no key the later steps left alone |
| NetworkSettings.FinishCongruent | src/app/network-settings.ts:151-182 | two nodes that differ only in keys the image and renderer steps overwrite come out of those steps identical |
| NetworkSettings.UnseededRestoresGroup | src/app/network-settings.ts:105-111 | a node styled without the seed flag returns to the group saved in `_group` |
| NetworkSettings.SelectedOverlay | src/app/network-settings.ts:131-143 | on a selected node, each overlay leaf wins, object keys of both are deep-merged, and the active group's keys that the overlay lacks are copied |
| NetworkSettings.SelectedKeepsNested | src/app/network-settings.ts:131-143 | nested fields that the overlay omits (e.g. the background of a recoloured border) keep the active group's value |
| NetworkSettings.SelectedShadow | src/app/network-settings.ts:114-123 | a selected node has a black shadow, enabled exactly when its group's shadow is truthy |
| NetworkSettings.UnselectedStripsGroupKeys | src/app/network-settings.ts:144-153 | an unselected node keeps no key of `selectedNode` or of its group, apart from the image shape and the opacity reset |
| NetworkSettings.RendererOverride | src/app/network-settings.ts:156-180 | with a renderer the node uses the custom shape, takes the gradient as opacity, and gets the group colour only when it is a seed; without one the renderer key is removed and the opacity is undefined |
| Config.DefaultNodeGroupNames | src/app/config.ts:100-204 | the default node groups are exactly default, foundNode, foundDrug, defaultDisorder, seedNode and selectedNode |
| Config.DefaultGroupsComplete | src/app/config.ts:100-189 | every default group except `selectedNode` has a name, a colour and a shape |
| Config.SelectedNodeOverlay | src/app/config.ts:190-203 | `selectedNode` holds only border widths 3/4, a border colour and the font |
| Config.DefaultGroupDefaults | src/app/config.ts:103-133 | the `default` group has border widths 1 and 2 and the full default font |
| Config.DefaultEdgeGroup | src/app/config.ts:205-212 | the only default edge group is `default`, black and not dashed |
| Config.DefaultToggles | src/app/config.ts:72-99 | the default identifier is symbol, the datasets are DrugBank and STRING, and the node shadow, edge shadow and edge autofill are on |
| Config.AsValue | src/app/config.ts:71-213 | the configuration seen as one JavaScript object carries its node groups, edge groups and every setting under their own keys |
| Interfaces.ProteinNodeId | src/app/interfaces.ts:66-68 | a protein's node id is `p_` followed by its id as text |
| Interfaces.ProteinNodeIdInjective | src/app/interfaces.ts:66-68 | two proteins have the same node id exactly when their ids have the same text |
| Interfaces.NodeIdsFromI | src/app/interfaces.ts:74-79 | both ends of an interaction get the protein prefix in front of their text |
| Interfaces.NodeIdsFromPPI | src/app/interfaces.ts:81-86 | the ends are found exactly when both protein ids have wrappers, and they are those wrappers' node ids |
| Interfaces.NodeIdsFromPDI | src/app/interfaces.ts:88-93 | string ends are taken as they are |
| Interfaces.NodeId | src/app/interfaces.ts:106-115 | a node's id is its `netexId` when that key is present, and its `id` otherwise |
| Interfaces.WithFoundGroupIdempotent | src/app/interfaces.ts:137-148 | defaulting the group to `foundNode` is idempotent, always leaves a truthy group, and keeps a truthy group as it is |
| Interfaces.WrapperFromCustom | src/app/interfaces.ts:124-135 | the gene's label defaults to its id; the wrapper's ids are the gene's node id and it wraps the gene itself |
| Interfaces.WrapperFromNode | src/app/interfaces.ts:137-148 | the node's group defaults to `foundNode`; the wrapper's ids are its node id and it wraps the node itself |
| Interfaces.WrapperFromDrug | src/app/interfaces.ts:151-160 | the drug becomes type `Drug` in group `foundDrug`; the wrapper's ids are its `netexId` |
| JsValues.MergeFieldsIdempotent | src/app/pages/explorer-page/explorer-page.component.ts:612-614 | merging the same user groups twice gives the same result as merging them once |
| JsValues.MergeAt | src/app/pages/explorer-page/explorer-page.component.ts:612-614 | per key, the merge keeps keys of either side; user values win and objects are merged recursively |
| JsValues.MergeIntoEmpty | src/app/pages/explorer-page/explorer-page.component.ts:612-614 | merging into an empty object gives the user object back |
| JsValues.MergeOfEmpty | src/app/pages/explorer-page/explorer-page.component.ts:612-614 | merging an empty object changes nothing |
| JsValues.JsonCloneFieldsOfPlain | src/app/pages/explorer-page/explorer-page.component.ts:47 | a JSON round trip leaves plain data (no functions, no undefined) unchanged |
| VisData.AddAll | src/app/pages/explorer-page/explorer-page.component.ts:558-562 | adding a list succeeds exactly when all ids stay unique, and then appends it |
| VisData.RemoveAllMembers | src/app/pages/explorer-page/explorer-page.component.ts:564-573 | removing keeps exactly the items whose id is not listed, and ids stay unique |
| VisData.WithoutMembers | src/app/pages/explorer-page/explorer-page.component.ts:564-573 | the filter keeps exactly the items whose id is not among the given ids |
| VisData.WithoutAppend | src/app/pages/explorer-page/explorer-page.component.ts:564-573 | removal keeps the order of the remaining items (it distributes over concatenation) |
| ExplorerPage.BeforeDot | src/app/pages/explorer-page/explorer-page.component.ts:387-389 | `split('.')[0]` is the longest dot-free prefix |
| ExplorerPage.RemoveEnsemblVersion | src/app/pages/explorer-page/explorer-page.component.ts:387-389 | non-Ensembl ids are unchanged; an Ensembl id is cut at its first dot |
| ExplorerPage.RemoveEnsemblVersionIdempotent | src/app/pages/explorer-page/explorer-page.component.ts:387-389 | stripping the version twice is the same as stripping it once |
| ExplorerPage.StripVersions | src/app/pages/explorer-page/explorer-page.component.ts:294-305 | the loop succeeds exactly when every item has a string under the key, and then strips each one's version |
| ExplorerPage.DedupeFrom | src/app/pages/explorer-page/explorer-page.component.ts:312-315 | the result has no two nodes with the same key, every node comes from the input, and every key of the input is represented |
| ExplorerPage.CanonicalNode | src/app/pages/explorer-page/explorer-page.component.ts:319-326 | the label defaults to the id, the id becomes the canonical id, and nothing else changes |
| ExplorerPage.IdMapKeys | src/app/pages/explorer-page/explorer-page.component.ts:319-326 | the node id map has one entry per input id text |
| ExplorerPage.IdMapValues | src/app/pages/explorer-page/explorer-page.component.ts:319-326 | every value of the id map is some node's canonical id |
| ExplorerPage.RewriteEdgesMembers | src/app/pages/explorer-page/explorer-page.component.ts:328-340 | exactly the edges with both ends in the id map are kept, in order, with their ends rewritten |
| ExplorerPage.RewriteEdgesAppend | src/app/pages/explorer-page/explorer-page.component.ts:328-340 | the edge filter distributes over concatenation |
| ExplorerPage.RewriteEdgesAllKept | src/app/pages/explorer-page/explorer-page.component.ts:328-340 | when every edge is kept, each output edge is the rewritten input edge at the same index |
| ExplorerPage.KeptEndpointsAreNodeIds | src/app/pages/explorer-page/explorer-page.component.ts:291-344 | both ends of every kept edge are ids of canonical nodes |
| ExplorerPage.CanonicaliseNodes | src/app/pages/explorer-page/explorer-page.component.ts:319-326 | the loop builds the canonical nodes and the id map of the specification |
| ExplorerPage.FilterEdges | src/app/pages/explorer-page/explorer-page.component.ts:328-340 | the loop keeps exactly the edges `RewriteEdges` keeps |
| ExplorerPage.CanonicaliseNetwork | src/app/pages/explorer-page/explorer-page.component.ts:291-344 | with identifier `ensg` the nodes are deduplicated by `netexId` first; the nodes are canonical and the edges filtered against them |
| ExplorerPage.MergeGroupsIsMerge | src/app/pages/explorer-page/explorer-page.component.ts:612-614 | merging groups one by one equals the deep merge of the two group objects |
| ExplorerPage.ZeroIfFalsy | src/app/pages/explorer-page/explorer-page.component.ts:629-634 | a falsy border width becomes 0; every other key is unchanged |
| ExplorerPage.WithDefaultFont | src/app/pages/explorer-page/explorer-page.component.ts:636-638 | a missing font becomes the default group's font |
| ExplorerPage.ExpandColor | src/app/pages/explorer-page/explorer-page.component.ts:640-649 | a string colour becomes the full colour object with that colour for border, background and highlight |
| ExplorerPage.ImageShape | src/app/pages/explorer-page/explorer-page.component.ts:651-653 | a group with an image gets the image shape; otherwise it is unchanged |
| ExplorerPage.FixNodeGroupDefaults | src/app/pages/explorer-page/explorer-page.component.ts:617-656 | a fixed group has border widths, a font, no string colour, the image shape when it has an image, and the configured node shadow |
| ExplorerPage.FixNodeGroupWidths | src/app/pages/explorer-page/explorer-page.component.ts:629-634 | border widths default to 0 |
| ExplorerPage.FixNodeGroupColor | src/app/pages/explorer-page/explorer-page.component.ts:640-649 | no string colour survives, and a string colour is expanded |
| ExplorerPage.FixNodeGroupShape | src/app/pages/explorer-page/explorer-page.component.ts:651-655 | the image shape is set, and the shadow is the configured node shadow |
| ExplorerPage.FixNodeGroupKeeps | src/app/pages/explorer-page/explorer-page.component.ts:617-656 | keys that the fix does not own keep their values |
| ExplorerPage.FixNodeGroupFixed | src/app/pages/explorer-page/explorer-page.component.ts:617-656 | a fixed group satisfies `Fixed` |
| ExplorerPage.FixOfFixed | src/app/pages/explorer-page/explorer-page.component.ts:617-656 | fixing an already fixed group changes nothing |
| ExplorerPage.FixNodeGroupIdempotent | src/app/pages/explorer-page/explorer-page.component.ts:617-656 | fixing a group twice is fixing it once |
| ExplorerPage.ResolveNodeGroups | src/app/pages/explorer-page/explorer-page.component.ts:610-659 | the resolved groups are the default groups plus the user's groups |
| ExplorerPage.ResolvedNodeGroupsReserved | src/app/pages/explorer-page/explorer-page.component.ts:610-659 | the reserved groups are always present and every resolved group is fixed |
| ExplorerPage.ResolvedKeepsUserFields | src/app/pages/explorer-page/explorer-page.component.ts:610-659 | a user's leaf field that the fix does not own survives resolution |
| ExplorerPage.FixEdgeGroups | src/app/pages/explorer-page/explorer-page.component.ts:676-683 | every edge group gets `dashes` and the configured edge shadow |
| ExplorerPage.ResolveEdgeGroups | src/app/pages/explorer-page/explorer-page.component.ts:667-686 | the resolved edge groups are the default edge groups plus the user's |
| ExplorerPage.ResolvedEdgeGroups | src/app/pages/explorer-page/explorer-page.component.ts:667-686 | `default` is always present, and each group is its merged self with the dashes default and the edge shadow |
| ExplorerPage.HasDrugsLoaded | src/app/pages/explorer-page/explorer-page.component.ts:831-835 | false without nodes; it throws exactly when some node reaches `startsWith` on a non-string; it is true exactly when some node has a truthy `drugId` and a `netexId` starting with `dr` |
| ExplorerPage.ProteinAccessions | src/app/pages/explorer-page/explorer-page.component.ts:725-745 | defined exactly when every item has a string `netexId`; at most one accession per item |
| ExplorerPage.GProfilerLink | src/app/pages/explorer-page/explorer-page.component.ts:725-745 | the link exists exactly when the accessions do, and is the g:Profiler URL with them joined by `%0A` |
| ExplorerPage.GProfilerSkipsNonProteins | src/app/pages/explorer-page/explorer-page.component.ts:725-745 | items whose `netexId` does not start with `p` do not change the query |
| ExplorerPage.UniqueConcat | src/app/pages/explorer-page/explorer-page.component.ts:558-562 | two id-unique lists without a shared id concatenate to an id-unique list |
| ExplorerPage.SaveAddNodesUnique | src/app/pages/explorer-page/explorer-page.component.ts:558-562 | adding the nodes that are not already shown always succeeds and keeps ids unique |
| ExplorerPage.SaveRemoveDisordersKeeps | src/app/pages/explorer-page/explorer-page.component.ts:564-573 | a shown node is removed exactly when a listed disorder has its id and the other disorder list does not |
| ExplorerPage.ResponseEdge | src/app/pages/explorer-page/explorer-page.component.ts:506-508 | the response edge has exactly `from` and `to`, taken from the interaction's two keys |
| ExplorerPage.ResponseNode | src/app/pages/explorer-page/explorer-page.component.ts:510-513 | a response item gets the layer's group and its `netexId` as id |
| ExplorerPage.ResponseEdges | src/app/pages/explorer-page/explorer-page.component.ts:506-508 | one mapped edge per interaction, in order |
| ExplorerPage.ResponseNodes | src/app/pages/explorer-page/explorer-page.component.ts:510-513 | one mapped node per drug or disorder, in order |
| ExplorerPage.PushEdges | src/app/pages/explorer-page/explorer-page.component.ts:579-582 | the loop appends exactly `ResponseEdges` to the list |
| ExplorerPage.PushNodes | src/app/pages/explorer-page/explorer-page.component.ts:583-587 | the loop appends exactly `ResponseNodes` to the list |
| ExplorerPage.ExplorerPage.constructor | src/app/pages/explorer-page/explorer-page.component.ts:47 | a new page holds a JSON copy of the default configuration, no adjacent layers and the explorer legend |
| ExplorerPage.ExplorerPage.SetWindowWidth | src/app/pages/explorer-page/explorer-page.component.ts:346-349 | the width is stored, and the small style is on exactly below 1250 |
| ExplorerPage.ExplorerPage.UpdateQueryItems | src/app/pages/explorer-page/explorer-page.component.ts:467-471 | one wrapper per shown node, in order, each node's group defaulted to `foundNode` |
| ExplorerPage.ExplorerPage.SaveAddNodes | src/app/pages/explorer-page/explorer-page.component.ts:558-562 | the listed nodes that are not already shown are added, and the add succeeds exactly when ids stay unique |
| ExplorerPage.ExplorerPage.SaveRemoveDisorders | src/app/pages/explorer-page/explorer-page.component.ts:564-573 | removes the listed disorders that the other disorder layer does not also show |
| ExplorerPage.ExplorerPage.HideProteinDisorders | src/app/pages/explorer-page/explorer-page.component.ts:520-524 | the protein-disorder layer's nodes (except those shared with the drug-disorder layer) and its edges leave the network, and its lists are emptied |
| ExplorerPage.ExplorerPage.HideDrugDisorders | src/app/pages/explorer-page/explorer-page.component.ts:548-552 | the drug-disorder layer's nodes (except those shared with the protein-disorder layer) and its edges leave the network, and its lists are emptied |
| ExplorerPage.ExplorerPage.UpdateAdjacentDrugs | src/app/pages/explorer-page/explorer-page.component.ts:575-602 | the flag is set; on, the legend is adjacentDrugs, or adjacentDrugsAndDisorders when a disorder layer is shown, and the network, the drug layer's lists and the query items are unchanged until the response arrives; off, the legend is the disorder legend or the explorer legend, the drug layer leaves the network, its lists are emptied and the query items are rebuilt from the remaining nodes |
| ExplorerPage.ExplorerPage.UpdateAdjacentProteinDisorders | src/app/pages/explorer-page/explorer-page.component.ts:502-528 | the flag is set; on, the legend is adjacentDisorders or adjacentDrugsAndDisorders, and the network, the layer's lists and the query items are unchanged until the response arrives; off, the legend is kept while drug disorders are shown and falls back otherwise, the layer leaves the network and the query items are rebuilt; the legend always matches the shown layers |
| ExplorerPage.ExplorerPage.UpdateAdjacentDrugDisorders | src/app/pages/explorer-page/explorer-page.component.ts:530-556 | the same for the drug-disorder layer, including the unchanged query items while on and the rebuilt ones when off |
| ExplorerPage.ExplorerPage.ReceiveAdjacentDrugs | src/app/pages/explorer-page/explorer-page.component.ts:578-590 | the response's drugs and edges are appended to the lists and added to the network; when both adds succeed the query items are rebuilt from the nodes, and otherwise they are unchanged |
| ExplorerPage.ExplorerPage.AddDisorderLayer | src/app/pages/explorer-page/explorer-page.component.ts:515-517 | disorders are added through `saveAddNodes` (new ids only), then the edges; when both adds succeed the query items are rebuilt from the nodes, and otherwise they are unchanged |
| ExplorerPage.ExplorerPage.ReceiveProteinDisorders | src/app/pages/explorer-page/explorer-page.component.ts:505-517 | the protein-disorder response is mapped, stored and added to the network, and the query items are rebuilt exactly when the adds succeed |
| ExplorerPage.ExplorerPage.ReceiveDrugDisorders | src/app/pages/explorer-page/explorer-page.component.ts:533-545 | the drug-disorder response is mapped, stored and added to the network, and the query items are rebuilt exactly when the adds succeed |
| ExplorerPage.ExplorerPage.SetConfigNodeGroup | src/app/pages/explorer-page/explorer-page.component.ts:610-659 | only the node groups change, and they become the resolved node groups under the configured node shadow |
| ExplorerPage.ExplorerPage.SetConfigEdgeGroup | src/app/pages/explorer-page/explorer-page.component.ts:667-686 | only the edge groups change, and they become the resolved edge groups under the configured edge shadow |
| ExplorerPage.MergeOverDefaults | src/app/pages/explorer-page/explorer-page.component.ts:612-614 | the user groups are merged over a copy of the defaults |
| ExplorerPage.FixEachNodeGroup | src/app/pages/explorer-page/explorer-page.component.ts:617-656 | the `forEach` fixes every merged group |
| ExplorerPage.FixEach | src/app/pages/explorer-page/explorer-page.component.ts:676-683 | the loop leaves exactly the merged group names, each passed through the fix |
| AnalysisPanel.NormalizeTable | src/app/components/analysis-panel/analysis-panel.component.ts:371-381 | every row's score becomes its raw score divided by the table's maximum raw score |
| AnalysisPanel.MaxRawScore | src/app/components/analysis-panel/analysis-panel.component.ts:372-377 | the loop finds the maximum raw score, starting from 0 |
| AnalysisPanel.MaxRaw | src/app/components/analysis-panel/analysis-panel.component.ts:372-377 | the maximum is at least 0, bounds every numeric raw score, and is either 0 or some row's raw score |
| AnalysisPanel.NormalizedAtMostOne | src/app/components/analysis-panel/analysis-panel.component.ts:371-381 | with a positive maximum, normalised scores are at most 1, and the row with the maximum gets exactly 1 |
| AnalysisPanel.NormalizedReachesOne | src/app/components/analysis-panel/analysis-panel.component.ts:371-381 | with a positive maximum, some row's normalised score is 1 |
| AnalysisPanel.NormalizeRoundTrip | src/app/components/analysis-panel/analysis-panel.component.ts:368-398 | unnormalising after normalising restores the raw scores; both keep `rawScore`, and unnormalising is idempotent |
| AnalysisPanel.UnnormalizeTable | src/app/components/analysis-panel/analysis-panel.component.ts:383-387 | every row's score is reset to its raw score |
| AnalysisPanel.EntryNode | src/app/components/analysis-panel/analysis-panel.component.ts:446-464 | a protein's group is foundNode when it is a target node, else its own group or default, and its label defaults to the identifier; a drug is typed Drug in foundDrug |
| AnalysisPanel.CreatedNodesMeans | src/app/components/analysis-panel/analysis-panel.component.ts:446-469 | the nodes exist exactly when every detail entry can be styled, one per entry in order |
| AnalysisPanel.RewriteEnd | src/app/components/analysis-panel/analysis-panel.component.ts:475-476 | an end starting with `p` is looked up in the protein id map (undefined when absent); other ends are kept; undefined and null ends throw |
| AnalysisPanel.CreatedEdges | src/app/components/analysis-panel/analysis-panel.component.ts:473-478 | the edges exist exactly when every end can be rewritten, one per result edge in order |
| AnalysisPanel.CreatedEdgeEnds | src/app/components/analysis-panel/analysis-panel.component.ts:473-478 | with string ends the edge is created, and only `from` and `to` change |
| AnalysisPanel.BuildProteinIdMap | src/app/components/analysis-panel/analysis-panel.component.ts:434-445 | the loop builds the protein id map of the specification, failing as it does |
| AnalysisPanel.ProteinIdMapFails | src/app/components/analysis-panel/analysis-panel.component.ts:434-445 | once a prefix of the details throws, the whole map throws |
| AnalysisPanel.CreateNode | src/app/components/analysis-panel/analysis-panel.component.ts:447-468 | one detail entry becomes a fresh styled node exactly as `StyledEntry` says |
| AnalysisPanel.CreateNodes | src/app/components/analysis-panel/analysis-panel.component.ts:446-469 | the loop creates exactly `CreatedNodes`, and the proteins list holds the protein entries |
| AnalysisPanel.CreateEdges | src/app/components/analysis-panel/analysis-panel.component.ts:473-478 | the loop creates exactly `CreatedEdges` |
| AnalysisPanel.CreateNetwork | src/app/components/analysis-panel/analysis-panel.component.ts:411-483 | the network exists exactly when the id map, the nodes and the edges can be built, and then it has the specified nodes and edges |
| AnalysisPanel.FilterRows | src/app/components/analysis-panel/analysis-panel.component.ts:203-207 | exactly the rows that satisfy the filter are kept |
| AnalysisPanel.TableDrugAsWrittenMissesDrugs | src/app/components/analysis-panel/analysis-panel.component.ts:203 | the filter as written rejects every row whose `drugstoneId` is a string or an array |
| AnalysisPanel.TableDrugAsWrittenCounterexample | src/app/components/analysis-panel/analysis-panel.component.ts:203 | a drug entry that the filter as written rejects |
| AnalysisPanel.DrugTableAsWrittenEmpty | src/app/components/analysis-panel/analysis-panel.component.ts:203 | the drug table as written is always empty (see Findings) |
| AnalysisPanel.TablesDisjoint | src/app/components/analysis-panel/analysis-panel.component.ts:203-209 | no row is in both the drug table and the protein table |
| AnalysisPanel.CreatedDrugIsTableDrug | src/app/components/analysis-panel/analysis-panel.component.ts:456-459 | every drug node that `createNetwork` builds is listed by the corrected drug filter |
| AnalysisPanel.WithRawScore | src/app/components/analysis-panel/analysis-panel.component.ts:204-206 | `rawScore` becomes the score, and nothing else changes |
| AnalysisPanel.LoadedRowUnnormalized | src/app/components/analysis-panel/analysis-panel.component.ts:204-206 | a freshly loaded row is already unnormalised, and normalising it divides its score |
| AnalysisPanel.LoadDrugTable | src/app/components/analysis-panel/analysis-panel.component.ts:203-206 | the drug table is the drug rows, each given its raw score; other rows are unchanged |
| AnalysisPanel.LoadedProteinKeeps | src/app/components/analysis-panel/analysis-panel.component.ts:208-217 | a loaded protein keeps its identity and score, records `rawScore` and `isSeed` from the seed map, has a truthy group, and loading it again changes nothing |
| AnalysisPanel.LoadedProteinIdempotent | src/app/components/analysis-panel/analysis-panel.component.ts:208-217 | loading a protein row twice is loading it once |
| AnalysisPanel.LoadProteinRow | src/app/components/analysis-panel/analysis-panel.component.ts:210-213 | one row is loaded in place, and its wrapper wraps it under its node id |
| AnalysisPanel.LoadProteinRows | src/app/components/analysis-panel/analysis-panel.component.ts:210-217 | every row is loaded, and the selection is exactly the rows in the selection, in order |
| AnalysisPanel.LoadProteinTable | src/app/components/analysis-panel/analysis-panel.component.ts:208-217 | the protein table is the protein rows, loaded, and the selected table is its selected rows |
| AnalysisPanel.LoadScoreTables | src/app/components/analysis-panel/analysis-panel.component.ts:203-217 | drug rows get their raw score and nothing else changes for them; protein rows are loaded; the two tables are disjoint; rows in neither table are untouched |
| AnalysisPanel.LoadTableContents | src/app/components/analysis-panel/analysis-panel.component.ts:203-217 | the tables are the filtered rows, loaded in place, disjoint; their props are the kept old props with the raw score saved (drugs) or loaded from the seed map (proteins) |
| AnalysisPanel.LoadScoreRows | src/app/components/analysis-panel/analysis-panel.component.ts:203-217 | node by node: each node holds `LoadedRow` of its old props and is in the table its props belong to; the tables are the picked rows and their props the kept rows loaded |
| AnalysisPanel.FilterRowsProps | src/app/components/analysis-panel/analysis-panel.component.ts:203-207 | the props of the filtered rows are the filtered props |
| AnalysisPanel.LoadedRowKind | src/app/components/analysis-panel/analysis-panel.component.ts:203-217 | loading a row does not change whether it is a drug row or a protein row |
| AnalysisPanel.LoadNextRow | src/app/components/analysis-panel/analysis-panel.component.ts:210-216 | one turn of the row loop loads the next row and extends the selection by it exactly when its id is selected |
| AnalysisPanel.DrugLoadKeepsProteins | src/app/components/analysis-panel/analysis-panel.component.ts:203-208 | giving drug rows their raw score does not change which rows are proteins |
| AnalysisPanel.ScoreTooltips | src/app/components/analysis-panel/analysis-panel.component.ts:148-176 | degree, closeness/quick/super, trustrank and proximity get their tooltips, both naming the same measure; any other algorithm keeps the old tooltips |
| AnalysisPanel.NormalizeChoice | src/app/components/analysis-panel/analysis-panel.component.ts:220-228 | scores are shown exactly for the seven scoring algorithms, and normalised exactly when the algorithm is not proximity |
| AnalysisPanel.RefreshedRowScores | src/app/components/analysis-panel/analysis-panel.component.ts:203-228 | a drug or protein row refreshed without normalisation shows the backend's score and keeps it as raw score; normalised, it is the loaded row divided by its table's maximum |
| AnalysisPanel.RefreshedScores | src/app/components/analysis-panel/analysis-panel.component.ts:203-228 | in a refreshed table, proximity scores are the backend's; normalised scores are at most 1 when the table's maximum is positive, and the row holding the maximum scores exactly 1 |
| AnalysisPanel.NormalizedInTable | src/app/components/analysis-panel/analysis-panel.component.ts:371-381 | a row of a loaded table, normalised against that table's maximum, scores at most 1, and exactly 1 when it holds the maximum |
| AnalysisPanel.NormalizeMatchesTooltips | src/app/components/analysis-panel/analysis-panel.component.ts:148-228 | every algorithm with a tooltip shows scores, and is normalised exactly when its tooltip says that higher is better |
| AnalysisPanel.AnalysisKind | src/app/components/analysis-panel/analysis-panel.component.ts:197-198 | the network is big exactly when it has more than 100 nodes or edges, and it is never the main kind |
| AnalysisPanel.FindIndex | src/app/components/analysis-panel/analysis-panel.component.ts:295 | `findIndex` gives -1 exactly when no row has the id, and otherwise the first row that has it |
| AnalysisPanel.FindRow | src/app/components/analysis-panel/analysis-panel.component.ts:296 | `find` returns a table row with the id exactly when one exists |
| AnalysisPanel.SyncStep | src/app/components/analysis-panel/analysis-panel.component.ts:293-303 | one item's sync step only uses rows from the selection or the table |
| AnalysisPanel.Synced | src/app/components/analysis-panel/analysis-panel.component.ts:291-305 | the synced selection only holds rows from the old selection or the table |
| AnalysisPanel.SyncSelects | src/app/components/analysis-panel/analysis-panel.component.ts:291-305 | selecting keeps the old selection as a prefix, adds only table rows, and every item with a table row ends up selected |
| AnalysisPanel.SyncDeselects | src/app/components/analysis-panel/analysis-panel.component.ts:291-305 | deselecting only removes rows |
| AnalysisPanel.SelectDeselect | src/app/components/analysis-panel/analysis-panel.component.ts:293-303 | selecting an unselected item and then deselecting it restores the selection |
| AnalysisPanel.SyncStepStable | src/app/components/analysis-panel/analysis-panel.component.ts:293-303 | selecting a selected item, or deselecting an unselected one, changes nothing |
| AnalysisPanel.Rebuilt | src/app/components/analysis-panel/analysis-panel.component.ts:323-332 | the rebuilt selection holds at most one table row per item |
| AnalysisPanel.RebuiltRows | src/app/components/analysis-panel/analysis-panel.component.ts:323-332 | a row is in the rebuilt selection exactly when it is the table row of some item |
| AnalysisPanel.Missing | src/app/components/analysis-panel/analysis-panel.component.ts:485-504 | the rows of one selection that are not in the other, both directions of membership |
| AnalysisPanel.SelectionDiff | src/app/components/analysis-panel/analysis-panel.component.ts:485-504 | added and removed rows are disjoint, and the new selection is the old one minus the removed rows plus the added rows |
| AnalysisPanel.SeedMapOf | src/app/components/analysis-panel/analysis-panel.component.ts:183 | the seed map is the result's `isSeed` object, or empty when it is falsy |
| AnalysisPanel.WrapMissing | src/app/components/analysis-panel/analysis-panel.component.ts:489-502 | one wrapper per row missing from the other selection, in order, each row's group defaulted to `foundNode` |
| AnalysisPanel.SyncItems | src/app/components/analysis-panel/analysis-panel.component.ts:291-305 | the loop computes exactly `Synced` |
| AnalysisPanel.RebuildSelection | src/app/components/analysis-panel/analysis-panel.component.ts:323-332 | the loop computes exactly `Rebuilt` |
| AnalysisPanel.CreateResultNetwork | src/app/components/analysis-panel/analysis-panel.component.ts:411-483 | the network exists exactly when it is buildable; its nodes are fresh, and its edges are the created edges |
| AnalysisPanel.AnalysisPanel.constructor | src/app/components/analysis-panel/analysis-panel.component.ts:80-127 | a new panel has no token, empty tables, blank tooltips, and neither scores nor normalisation |
| AnalysisPanel.AnalysisPanel.ToggleNormalization | src/app/components/analysis-panel/analysis-panel.component.ts:368-398 | the flag is set, and both tables are normalised by their own maximum or reset to their raw scores |
| AnalysisPanel.AnalysisPanel.Rescore | src/app/components/analysis-panel/analysis-panel.component.ts:225-233 | with a choice, the normalisation flag is set to it and every table row is rescored against its own table's maximum; without one nothing changes |
| AnalysisPanel.AnalysisPanel.Close | src/app/components/analysis-panel/analysis-panel.component.ts:354-366 | the gradient and seed maps, seed highlighting, the expression view and the drug toggle are reset; the token is cleared and the main selection is active |
| AnalysisPanel.AnalysisPanel.LoadTables | src/app/components/analysis-panel/analysis-panel.component.ts:203-217 | the drug and protein tables are the drug and protein rows of the network in order, disjoint, with the selected proteins among them; every node holds `LoadedRow` of its old props, and each table's props are its kept rows loaded |
| AnalysisPanel.AnalysisPanel.Refresh | src/app/components/analysis-panel/analysis-panel.component.ts:143-340 | without a token nothing changes; otherwise the task's selection is activated and the tooltips chosen; an unfinished task leaves the nodes, edges, tables and score flags as they were; a finished task is drawn, and when its network builds, the tables are its drug and protein nodes and every node holds its detail refreshed (loaded, then rescored by `NormalizeChoice` against its table's maximum raw score); when it fails, nodes and edges are empty and the tables and flags are unchanged |
| AnalysisPanel.AnalysisPanel.LoadResult | src/app/components/analysis-panel/analysis-panel.component.ts:178-228 | the result is drawn; it succeeds exactly when the network is buildable, and then the tables are the drug and protein nodes of the created network, every node holds its created props refreshed by `NormalizeChoice` against its table's maximum raw score, and the score flags follow the algorithm; on failure nodes and edges are empty and the tables and flags are unchanged |
| AnalysisPanel.AnalysisPanel.DrawResult | src/app/components/analysis-panel/analysis-panel.component.ts:181-201 | the seed map is set, the drugs are hidden, and the network drawn with physics on exactly when it is not big, using the corrected options |
| AnalysisPanel.AnalysisPanel.LoadScores | src/app/components/analysis-panel/analysis-panel.component.ts:203-228 | the tables are the drug and protein rows of the nodes, in order and within the nodes; every node holds its old props refreshed with the given choice against its table's maximum raw score; scores are shown exactly when there is a choice, and the normalisation flag is the choice |
| AnalysisPanel.AnalysisPanel.TableProteinSelection | src/app/components/analysis-panel/analysis-panel.component.ts:485-504 | the selection becomes the new one; the wrappers added are those of the newly selected rows, and the wrappers removed are those of the dropped rows |
| AnalysisPanel.AnalysisPanel.SyncSelection | src/app/components/analysis-panel/analysis-panel.component.ts:262-334 | without a token nothing changes; a selection event syncs the table selection item by item; a reset rebuilds it from the items |
| AnalysisWindow.InferNodeType | src/app/components/analysis-window/analysis-window.component.ts:163-168 | an id is viral exactly when it contains `-` or `_`; otherwise it is host |
| AnalysisWindow.GetNodeLooks | src/app/components/analysis-window/analysis-window.component.ts:199-232 | seeds get the seed colour; hosts are size-10 ellipses coloured by selection; viruses are size-12 shadowed boxes with white font; drugs are size-6 ellipses; unknown types get no shape |
| AnalysisWindow.SelectionColoursHostsOnly | src/app/components/analysis-window/analysis-window.component.ts:199-232 | the selection changes only the colour, and only for non-seed hosts |
| AnalysisWindow.MapNodeFacts | src/app/components/analysis-window/analysis-window.component.ts:234-242 | the mapped node has exactly the keys of the literal, its id as id and label, the node type and the seed flag, the seed colour on seeds and a shadow exactly on virus nodes |
| AnalysisWindow.MapEdge | src/app/components/analysis-window/analysis-window.component.ts:244-250 | the mapped edge has exactly `from`, `to` (as text) and the edge colour |
| AnalysisWindow.MapEdgeIdempotent | src/app/components/analysis-window/analysis-window.component.ts:244-250 | mapping a mapped edge changes nothing |
| AnalysisWindow.MapNetworkNodes | src/app/components/analysis-window/analysis-window.component.ts:176-190 | the inner loop maps every node of one result network |
| AnalysisWindow.MapNetworkEdges | src/app/components/analysis-window/analysis-window.component.ts:191-193 | the inner loop maps every edge of one result network |
| AnalysisWindow.CreateNetwork | src/app/components/analysis-window/analysis-window.component.ts:170-197 | the nodes and edges are those of every result network, concatenated in order |
| AnalysisWindow.NetworkCounts | src/app/components/analysis-window/analysis-window.component.ts:170-197 | there are as many nodes and edges as the result networks hold together |
| AnalysisWindow.NetworkNodeAt | src/app/components/analysis-window/analysis-window.component.ts:170-197 | node k of network i sits after all nodes of the earlier networks and is mapped with network i's attributes |
| AnalysisWindow.MappedNodeType | src/app/components/analysis-window/analysis-window.component.ts:176-190 | the node type is the network's recorded type when truthy, and otherwise the inferred one |
| AnalysisWindow.AnalysisWindow.constructor | src/app/components/analysis-window/analysis-window.component.ts:64-73 | a new window has no network data and hides drugs |
| AnalysisWindow.AnalysisWindow.Draw | src/app/components/analysis-window/analysis-window.component.ts:64-73 | the data sets are created from the built network, which fails when ids clash, and drugs are hidden |
| AnalysisWindow.AnalysisWindow.ToggleDrugs | src/app/components/analysis-window/analysis-window.component.ts:252-260 | the flag is set; without data the toggle throws; otherwise the drug nodes are added or removed |
| AnalysisWindow.ToggleWithoutDrugs | src/app/components/analysis-window/analysis-window.component.ts:252-260 | with no drug nodes both toggles leave the network as it is |
| AnalysisWindow.ToggleRoundTrip | src/app/components/analysis-window/analysis-window.component.ts:252-260 | showing drugs and then hiding them restores the network |
| LaunchAnalysis.DefaultAlgorithmSettings | src/app/dialogs/launch-analysis/launch-analysis.component.ts:33-76 | every algorithm's maximum degree starts at 0, meaning no limit |
| LaunchAnalysis.OfferedAlgorithms | src/app/dialogs/launch-analysis/launch-analysis.component.ts:87-94 | only the two targets offer algorithms; both offer TrustRank; drug offers proximity and not multi-Steiner, and drug-target the reverse |
| LaunchAnalysis.Includes | src/app/dialogs/launch-analysis/launch-analysis.component.ts:95-97 | `includes` answers on arrays and strings and throws otherwise |
| LaunchAnalysis.FilterAllowed | src/app/dialogs/launch-analysis/launch-analysis.component.ts:95-97 | the filter throws exactly when the allowed list cannot answer, and never lengthens the offer |
| LaunchAnalysis.FilterAllowedMembers | src/app/dialogs/launch-analysis/launch-analysis.component.ts:95-97 | a successful filter keeps exactly the offered algorithms that are allowed |
| LaunchAnalysis.FilterAllowedAppend | src/app/dialogs/launch-analysis/launch-analysis.component.ts:95-97 | filtering distributes over concatenation |
| LaunchAnalysis.FilterAllowedAll | src/app/dialogs/launch-analysis/launch-analysis.component.ts:95-97 | when everything offered is allowed, everything is kept |
| LaunchAnalysis.DefaultConfigAllowsNothing | src/app/dialogs/launch-analysis/launch-analysis.component.ts:95 | the default configuration has no `algorithms` setting, so the lookup throws |
| LaunchAnalysis.SeedsOf | src/app/dialogs/launch-analysis/launch-analysis.component.ts:111-112 | the seeds are exactly the selected ids that are neither null nor undefined |
| LaunchAnalysis.SeedsOfAppend | src/app/dialogs/launch-analysis/launch-analysis.component.ts:111-112 | the seed list distributes over concatenation, so order is kept |
| LaunchAnalysis.MaxDeg | src/app/dialogs/launch-analysis/launch-analysis.component.ts:137-139 | `max_deg` is sent exactly when the setting is positive |
| LaunchAnalysis.AlgorithmKeys | src/app/dialogs/launch-analysis/launch-analysis.component.ts:131-176 | `max_deg` is sent exactly when the algorithm's setting is positive; KPM sends only `k`; degree sends no hub penalty; betweenness no drug-inclusion flags; multi-Steiner its trees, tolerance and hub penalty; `result_size` exactly for the five ranking algorithms |
| LaunchAnalysis.TargetParameter | src/app/dialogs/launch-analysis/launch-analysis.component.ts:123 | the target is drug exactly for the drug target, and drug-target otherwise |
| LaunchAnalysis.CommonParameters | src/app/dialogs/launch-analysis/launch-analysis.component.ts:113-123 | every task carries exactly the six common keys: seeds, configuration, the two interaction datasets, the licence list and the target |
| LaunchAnalysis.AlgorithmKeysAvoidCommon | src/app/dialogs/launch-analysis/launch-analysis.component.ts:113-176 | no algorithm's keys overwrite a common key |
| LaunchAnalysis.TaskParametersKeys | src/app/dialogs/launch-analysis/launch-analysis.component.ts:109-180 | the parameters hold exactly the common keys and the algorithm's keys, with the seeds and target kept |
| LaunchAnalysis.DropInteractions | src/app/dialogs/launch-analysis/launch-analysis.component.ts:127-129 | every input node loses `interactions` and nothing else |
| LaunchAnalysis.LaunchAnalysis.constructor | src/app/dialogs/launch-analysis/launch-analysis.component.ts:33-76 | a new dialog has its target, no algorithm and the default settings |
| LaunchAnalysis.LaunchAnalysis.OnChanges | src/app/dialogs/launch-analysis/launch-analysis.component.ts:86-102 | without an offering nothing changes; the filter may throw; an empty result falls back to TrustRank; otherwise the first allowed algorithm is chosen |
| LaunchAnalysis.LaunchAnalysis.StartTask | src/app/dialogs/launch-analysis/launch-analysis.component.ts:109-180 | the parameters are exactly `TaskParameters`, and the input nodes lose `interactions` |
| LaunchAnalysis.AddAlgorithmParameters | src/app/dialogs/launch-analysis/launch-analysis.component.ts:131-176 | the chosen algorithm's parameters are added to the common ones |

## Left out

- HTTP requests, the task polling, `vis.Network` drawing, DOM access, event emitters and click handlers are left out. Remote results (mapped nodes, adjacent drugs and disorders, task results) are parameters of the methods.
- The analysis and configuration services are not part of this model. The selection is passed in as a predicate.
- The restyling of nodes and positions in the `subscribeList` callbacks is left out, as is `setLegendContext`. Only the table sync is modelled.
- The panel's viral-protein tables are left out: `tableViralProteins` is never filled in the code shown.
- NaN and Infinity are left out. A division by a zero maximum is modelled as undefined. JavaScript also coerces a non-numeric `rawScore` in `>` and `/` (`null` counts as 0, so `null / max` is 0); the model instead skips a non-numeric raw score when it looks for the maximum and gives `undefined` as its normalised score.
- The vis.js DataSet is not part of this model. Its assumed contract is: unique ids, insertion order, and an add that fails on a clash.
- The `input_network` parameter of `startTask` is left out. It carries object references that the model does not compare.
- `AnalysisWindow.AnalysisWindow.ToggleDrugs` works on an always-empty drug list, as in the source, where nothing fills `drugNodes`.
- `AnalysisWindow.CreateNetwork` takes network nodes as id strings and assumes each result has its `networks` list.
- `JsValues.ToText`: every fractional number gets the same placeholder text, and ids are assumed to be integers or strings, so two fractional ids would wrongly share a key.
- The lodash `merge` used for groups is not part of this model. Its assumed contract treats arrays as leaves, while lodash merges two arrays index by index.
- `AnalysisPanel.SeedMapOf` maps a truthy non-object `isSeed` to an empty map rather than to that value.
- `LaunchAnalysis.LaunchAnalysis.OnChanges`: its empty-list fallback leaves `algorithm` unchanged, as the source does, even when that algorithm is no longer offered.
- The console errors of `setConfigNodeGroup` about missing group keys are left out. They do not change state.

## Findings

| source | as written | input that shows it | evidently intended | confidence | as-written member | corrected member |
|---|---|---|---|---|---|---|
| src/app/pages/explorer-page/explorer-page.component.ts:415 | `getOptions('main')` is called without the configuration argument, so `config.physicsOn` throws | any call of `createNetwork` | pass `this.myConfig` | not executed | NetworkSettings.MainOptionsWithoutConfig | NetworkSettings.ConfigOptionsAgree |
| src/app/components/analysis-panel/analysis-panel.component.ts:198 | `getOptions(kind, this.myConfig.physicsOn)` passes the boolean flag, so `groups` is undefined and physics always takes the preset | `physicsOn = false` | pass `this.myConfig` | not executed | NetworkSettings.AnalysisOptionsWithPhysicsFlag | AnalysisPanel.AnalysisPanel.DrawResult |
| src/app/components/analysis-panel/analysis-panel.component.ts:203 | the drug filter reads `e.drugstoneId.drugstoneType`, a property of an id string or array, so the drug table is always empty | node `{drugstoneId: "DB00945", drugstoneType: "drug"}` | `e.drugstoneId && e.drugstoneType === 'drug'` | not executed | AnalysisPanel.DrugTableAsWrittenEmpty | AnalysisPanel.CreatedDrugIsTableDrug |
