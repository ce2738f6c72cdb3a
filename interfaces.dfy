/**
 * Node records and the id helpers every other part of the front end
 * compares on.
 *
 * A node is a plain object that the front end mutates in place, so it is a
 * class around its property map; a wrapper points at that same object, as
 * the front end's wrappers do. Ids are JavaScript values: `netexId` may be
 * present and still undefined, and template literals turn any value into
 * text.
 */
module Interfaces {
  import opened JsValues

  /** A node object whose properties are added, changed and deleted in place. */
  class NodeObject {
    var props: Fields

    constructor (props: Fields)
      ensures this.props == props
    {
      this.props := props;
    }
  }

  /** A selectable item: its ids and the very node object it wraps. */
  datatype Wrapper = Wrapper(id: Value, nodeId: Value, data: NodeObject)

  /** The `{from, to}` pair of an edge. */
  datatype Ends<T> = Ends(from: T, to: T)

  /** Which legend the network shows. */
  datatype LegendContext =
    | Explorer
    | AdjacentDrugs
    | AdjacentDisorders
    | AdjacentDrugsAndDisorders
    | Drug
    | DrugTarget

  const PROTEIN_PREFIX := "p_"

  /** `p_${protein.id}`: the network id of a protein. The prefix can always
    * be stripped again to recover the protein's own id text. */
  function ProteinNodeId(protein: Fields): (r: string)
    ensures PROTEIN_PREFIX <= r
    ensures r[|PROTEIN_PREFIX|..] == ToText(Get(protein, "id"))
  {
    PROTEIN_PREFIX + ToText(Get(protein, "id"))
  }

  /** Two proteins share a network id exactly when their ids print alike. */
  lemma ProteinNodeIdInjective(a: Fields, b: Fields)
    ensures ProteinNodeId(a) == ProteinNodeId(b) <==> ToText(Get(a, "id")) == ToText(Get(b, "id"))
  {
    if ProteinNodeId(a) == ProteinNodeId(b) {
      assert ProteinNodeId(a)[|PROTEIN_PREFIX|..] == ProteinNodeId(b)[|PROTEIN_PREFIX|..];
    }
  }

  /** Both endpoints of an interaction, prefixed as protein network ids. */
  function NodeIdsFromI(interaction: Fields): (r: Ends<string>)
    ensures PROTEIN_PREFIX <= r.from && r.from[|PROTEIN_PREFIX|..] == ToText(Get(interaction, "from"))
    ensures PROTEIN_PREFIX <= r.to && r.to[|PROTEIN_PREFIX|..] == ToText(Get(interaction, "to"))
  {
    Ends(PROTEIN_PREFIX + ToText(Get(interaction, "from")), PROTEIN_PREFIX + ToText(Get(interaction, "to")))
  }

  /** Endpoints looked up in a wrapper map keyed by the endpoint text; a
    * missing wrapper is the TypeError of reading `nodeId` of undefined. */
  function NodeIdsFromPPI(edge: Fields, wrappers: map<string, Wrapper>): (r: Option<Ends<Value>>)
    ensures r.Some? <==> ToText(Get(edge, "from")) in wrappers && ToText(Get(edge, "to")) in wrappers
    ensures r.Some? ==> r.value.from == wrappers[ToText(Get(edge, "from"))].nodeId
    ensures r.Some? ==> r.value.to == wrappers[ToText(Get(edge, "to"))].nodeId
  {
    var from := ToText(Get(edge, "from"));
    var to := ToText(Get(edge, "to"));
    if from in wrappers && to in wrappers then Some(Ends(wrappers[from].nodeId, wrappers[to].nodeId))
    else None
  }

  /** Endpoints as text; string endpoints come back unchanged. */
  function NodeIdsFromPDI(edge: Fields): (r: Ends<string>)
    ensures Get(edge, "from").Str? ==> r.from == Get(edge, "from").s
    ensures Get(edge, "to").Str? ==> r.to == Get(edge, "to").s
  {
    Ends(ToText(Get(edge, "from")), ToText(Get(edge, "to")))
  }

  /** The id of a drug is its `netexId`. */
  function DrugNodeId(drug: Fields): Value {
    Get(drug, "netexId")
  }

  /** `netexId` whenever the key is present, even holding undefined; else `id`. */
  function NodeId(node: Fields): (r: Value)
    ensures "netexId" in node ==> r == node["netexId"]
    ensures "netexId" !in node ==> r == Get(node, "id")
  {
    if "netexId" in node then node["netexId"] else Get(node, "id")
  }

  /** A node whose group is falsy is put in `foundNode`. */
  function WithFoundGroup(node: Fields): Fields {
    node["group" := Or(Get(node, "group"), Str("foundNode"))]
  }

  /** Applying the group default twice is applying it once; the group is
    * then truthy, and a truthy group is kept. */
  lemma WithFoundGroupIdempotent(node: Fields)
    ensures WithFoundGroup(WithFoundGroup(node)) == WithFoundGroup(node)
    ensures Truthy(WithFoundGroup(node)["group"])
    ensures Truthy(Get(node, "group")) ==> WithFoundGroup(node)["group"] == node["group"]
    ensures NodeId(WithFoundGroup(node)) == NodeId(node)
  {
  }

  method WrapperFromCustom(gene: NodeObject) returns (w: Wrapper)
    modifies gene`props
    ensures gene.props == old(gene.props)["label" := Or(Get(old(gene.props), "label"), Get(old(gene.props), "id"))]
    ensures w.id == w.nodeId == NodeId(old(gene.props)) && w.data == gene
  {
    gene.props := gene.props["label" := Or(Get(gene.props, "label"), Get(gene.props, "id"))];
    w := Wrapper(NodeId(gene.props), NodeId(gene.props), gene);
  }

  method WrapperFromNode(gene: NodeObject) returns (w: Wrapper)
    modifies gene`props
    ensures gene.props == WithFoundGroup(old(gene.props))
    ensures w.id == w.nodeId == NodeId(gene.props) && w.data == gene
  {
    gene.props := WithFoundGroup(gene.props);
    w := Wrapper(NodeId(gene.props), NodeId(gene.props), gene);
  }

  method WrapperFromDrug(drug: NodeObject) returns (w: Wrapper)
    modifies drug`props
    ensures drug.props == old(drug.props)["type" := Str("Drug")]["group" := Str("foundDrug")]
    ensures w.id == w.nodeId == Get(old(drug.props), "netexId") && w.data == drug
  {
    drug.props := drug.props["type" := Str("Drug")];
    drug.props := drug.props["group" := Str("foundDrug")];
    w := Wrapper(DrugNodeId(drug.props), DrugNodeId(drug.props), drug);
  }
}
