/**
 * The dialog that starts an analysis: which algorithms it offers for a
 * target, and the parameter object it sends for the chosen one.
 *
 * Algorithms are named by their slugs. The configuration is the one the
 * front end holds; the slugs it allows for a target are read from its
 * `algorithms` setting, and reading that from an absent setting, or
 * calling `includes` on something that is neither a list nor a string,
 * throws. The selection is the analysis selection's wrappers.
 */
module LaunchAnalysis {
  import opened JsValues
  import opened Config
  import opened Interfaces

  const MULTISTEINER := "multisteiner"
  const KEYPATHWAYMINER := "keypathwayminer"
  const TRUSTRANK := "trustrank"
  const CLOSENESS := "closeness"
  const DEGREE := "degree"
  const BETWEENNESS := "betweenness"
  const PROXIMITY := "proximity"

  /** The dialog's per-algorithm parameter fields, as the form edits them. */
  datatype AlgorithmSettings = AlgorithmSettings(
    trustrankIncludeIndirectDrugs: bool,
    trustrankIncludeNonApprovedDrugs: bool,
    trustrankIncludeViralNonSeeds: bool,
    trustrankDampingFactor: real,
    trustrankMaxDeg: real,
    trustrankHubPenalty: real,
    trustrankResultSize: real,
    closenessIncludeIndirectDrugs: bool,
    closenessIncludeNonApprovedDrugs: bool,
    closenessIncludeViralNonSeeds: bool,
    closenessMaxDeg: real,
    closenessHubPenalty: real,
    closenessResultSize: real,
    degreeIncludeNonApprovedDrugs: bool,
    degreeIncludeViralNonSeeds: bool,
    degreeMaxDeg: real,
    degreeResultSize: real,
    proximityIncludeNonApprovedDrugs: bool,
    proximityMaxDeg: real,
    proximityHubPenalty: real,
    proximityResultSize: real,
    betweennessIncludeViralNonSeeds: bool,
    betweennessMaxDeg: real,
    betweennessHubPenalty: real,
    betweennessResultSize: real,
    keypathwayminerK: real,
    multisteinerNumTrees: real,
    multisteinerTolerance: real,
    multisteinerIncludeViralNonSeeds: bool,
    multisteinerMaxDeg: real,
    multisteinerHubPenalty: real)

  /** The form's initial values: no degree cap and no hub penalty anywhere. */
  function DefaultAlgorithmSettings(): (r: AlgorithmSettings)
    ensures r.trustrankMaxDeg == r.closenessMaxDeg == r.degreeMaxDeg == r.proximityMaxDeg
         == r.betweennessMaxDeg == r.multisteinerMaxDeg == 0.0
  {
    AlgorithmSettings(
      false, false, true, 0.85, 0.0, 0.0, 20.0,
      false, false, true, 0.0, 0.0, 20.0,
      false, true, 0.0, 20.0,
      false, 0.0, 0.0, 20.0,
      true, 0.0, 0.0, 20.0,
      5.0,
      5.0, 10.0, true, 0.0, 0.0)
  }

  // ---------------------------------------------------------------------
  // ngOnChanges
  // ---------------------------------------------------------------------

  /** The algorithms offered for a target, before the configuration
    * filters them; `None` for an unset or unknown target. */
  function OfferedAlgorithms(target: Option<string>): (r: Option<seq<string>>)
    ensures r.Some? <==> target == Some("drug-target") || target == Some("drug")
    ensures r.Some? ==> TRUSTRANK in r.value
    ensures target == Some("drug") ==> r.Some? && PROXIMITY in r.value && MULTISTEINER !in r.value
    ensures target == Some("drug-target") ==> r.Some? && PROXIMITY !in r.value && MULTISTEINER in r.value
  {
    if target == Some("drug-target") then
      Some([MULTISTEINER, KEYPATHWAYMINER, TRUSTRANK, CLOSENESS, DEGREE, BETWEENNESS])
    else if target == Some("drug") then
      Some([TRUSTRANK, CLOSENESS, DEGREE, PROXIMITY])
    else None
  }

  /** `s.includes(p)` on strings: `p` occurs in `s` somewhere. */
  predicate Contains(s: string, p: string) {
    p <= s || (s != [] && Contains(s[1..], p))
  }

  /** `list.includes(slug)`; `None` is the TypeError of a value without
    * `includes`. A string answers by substring, a list by element. */
  function Includes(list: Value, slug: string): (r: Option<bool>)
    ensures r.Some? <==> list.Arr? || list.Str?
    ensures list.Arr? ==> r == Some(Str(slug) in list.items)
  {
    match list
    case Arr(items) => Some(Str(slug) in items)
    case Str(s) => Some(Contains(s, slug))
    case _ => None
  }

  /** `config.algorithms[target]`; `None` when `algorithms` is unset. */
  function AllowedFor(config: Config, target: string): Option<Value> {
    GetProp(Get(config.settings, "algorithms"), target)
  }

  /** The offered algorithms the configuration allows, in their order;
    * `None` when asking the allowed list throws. */
  function FilterAllowed(offered: seq<string>, allowed: Value): (r: Option<seq<string>>)
    ensures r.Some? <==> offered == [] || Includes(allowed, offered[0]).Some?
    ensures r.Some? ==> |r.value| <= |offered|
  {
    if offered == [] then Some([])
    else
      match Includes(allowed, offered[0])
      case None => None
      case Some(keep) =>
        var rest := FilterAllowed(offered[1..], allowed);
        assert rest.Some? by {
          if offered[1..] != [] {
            assert Includes(allowed, offered[1..][0]).Some?;
          }
        }
        Some((if keep then [offered[0]] else []) + rest.value)
  }

  /** A successful filter keeps exactly the offered algorithms that are allowed. */
  lemma {:induction false} FilterAllowedMembers(offered: seq<string>, allowed: Value)
    requires FilterAllowed(offered, allowed).Some?
    ensures forall x :: x in FilterAllowed(offered, allowed).value <==> x in offered && Includes(allowed, x) == Some(true)
  {
    if offered != [] {
      FilterAllowedMembers(offered[1..], allowed);
      assert forall x :: x in offered <==> x == offered[0] || x in offered[1..];
    }
  }

  /** Filtering keeps the relative order: it distributes over concatenation. */
  lemma {:induction false} FilterAllowedAppend(a: seq<string>, b: seq<string>, allowed: Value)
    requires allowed.Arr? || allowed.Str?
    ensures FilterAllowed(a + b, allowed).Some?
    ensures FilterAllowed(a + b, allowed).value == FilterAllowed(a, allowed).value + FilterAllowed(b, allowed).value
  {
    if a == [] {
      assert a + b == b;
    } else {
      assert (a + b)[1..] == a[1..] + b;
      FilterAllowedAppend(a[1..], b, allowed);
    }
  }

  /** An allowed list that names every offered slug keeps the offer as it is. */
  lemma {:induction false} FilterAllowedAll(offered: seq<string>, allowed: seq<Value>)
    requires forall x | x in offered :: Str(x) in allowed
    ensures FilterAllowed(offered, Arr(allowed)) == Some(offered)
  {
    if offered != [] {
      FilterAllowedAll(offered[1..], allowed);
      assert [offered[0]] + offered[1..] == offered;
    }
  }

  /** The defaults of the configuration module set no `algorithms`, so a
    * dialog with a target and those defaults alone throws when filtering. */
  lemma DefaultConfigAllowsNothing(target: string)
    ensures AllowedFor(DefaultConfig(), target).None?
  {
    assert "algorithms" !in DefaultSettings();
  }

  // ---------------------------------------------------------------------
  // startTask
  // ---------------------------------------------------------------------

  /** The seeds: the selected items' ids without `null` and `undefined`
    * (the loose `!= null`), in selection order. */
  function SeedsOf(selection: seq<Wrapper>): (r: seq<Value>)
    ensures |r| <= |selection|
    ensures forall v :: v in r <==> !v.Null? && !v.Undefined? && exists i | 0 <= i < |selection| :: selection[i].id == v
  {
    if selection == [] then []
    else
      var rest := SeedsOf(selection[1..]);
      var id := selection[0].id;
      assert forall i | 0 < i < |selection| :: selection[i] == selection[1..][i - 1];
      if id.Null? || id.Undefined? then rest else [id] + rest
  }

  /** The seeds keep the selection's order. */
  lemma {:induction false} SeedsOfAppend(a: seq<Wrapper>, b: seq<Wrapper>)
    ensures SeedsOf(a + b) == SeedsOf(a) + SeedsOf(b)
  {
    if a == [] {
      assert a + b == b;
    } else {
      assert (a + b)[1..] == a[1..] + b;
      SeedsOfAppend(a[1..], b);
    }
  }

  /** `max_deg` is sent only for a positive cap. */
  function MaxDeg(maxDeg: real): (r: Fields)
    ensures "max_deg" in r <==> maxDeg > 0.0
    ensures r.Keys <= {"max_deg"}
  {
    if maxDeg > 0.0 then map["max_deg" := Num(maxDeg)] else map[]
  }

  function TrustrankParameters(s: AlgorithmSettings): Fields {
    (map[
      "damping_factor" := Num(s.trustrankDampingFactor),
      "include_indirect_drugs" := Bool(s.trustrankIncludeIndirectDrugs),
      "include_non_approved_drugs" := Bool(s.trustrankIncludeNonApprovedDrugs)] + MaxDeg(s.trustrankMaxDeg))
    ["hub_penalty" := Num(s.trustrankHubPenalty)]["result_size" := Num(s.trustrankResultSize)]
  }

  function ClosenessParameters(s: AlgorithmSettings): Fields {
    (map[
      "include_indirect_drugs" := Bool(s.closenessIncludeIndirectDrugs),
      "include_non_approved_drugs" := Bool(s.closenessIncludeNonApprovedDrugs)] + MaxDeg(s.closenessMaxDeg))
    ["hub_penalty" := Num(s.closenessHubPenalty)]["result_size" := Num(s.closenessResultSize)]
  }

  function DegreeParameters(s: AlgorithmSettings): Fields {
    (map["include_non_approved_drugs" := Bool(s.degreeIncludeNonApprovedDrugs)] + MaxDeg(s.degreeMaxDeg))
    ["result_size" := Num(s.degreeResultSize)]
  }

  function ProximityParameters(s: AlgorithmSettings): Fields {
    (map["include_non_approved_drugs" := Bool(s.proximityIncludeNonApprovedDrugs)] + MaxDeg(s.proximityMaxDeg))
    ["hub_penalty" := Num(s.proximityHubPenalty)]["result_size" := Num(s.proximityResultSize)]
  }

  function BetweennessParameters(s: AlgorithmSettings): Fields {
    MaxDeg(s.betweennessMaxDeg)["hub_penalty" := Num(s.betweennessHubPenalty)]["result_size" := Num(s.betweennessResultSize)]
  }

  function MultisteinerParameters(s: AlgorithmSettings): Fields {
    (map[
      "num_trees" := Num(s.multisteinerNumTrees),
      "tolerance" := Num(s.multisteinerTolerance)] + MaxDeg(s.multisteinerMaxDeg))
    ["hub_penalty" := Num(s.multisteinerHubPenalty)]
  }

  /** The parameters an algorithm adds, by slug; none for an unknown one. */
  function AlgorithmParameters(s: AlgorithmSettings, algorithm: Option<string>): Fields {
    if algorithm == Some(TRUSTRANK) then TrustrankParameters(s)
    else if algorithm == Some(CLOSENESS) then ClosenessParameters(s)
    else if algorithm == Some(DEGREE) then DegreeParameters(s)
    else if algorithm == Some(PROXIMITY) then ProximityParameters(s)
    else if algorithm == Some(BETWEENNESS) then BetweennessParameters(s)
    else if algorithm == Some(KEYPATHWAYMINER) then map["k" := Num(s.keypathwayminerK)]
    else if algorithm == Some(MULTISTEINER) then MultisteinerParameters(s)
    else map[]
  }

  /** The cap an algorithm's form sets; none for the others. */
  function MaxDegOf(s: AlgorithmSettings, algorithm: Option<string>): real {
    if algorithm == Some(TRUSTRANK) then s.trustrankMaxDeg
    else if algorithm == Some(CLOSENESS) then s.closenessMaxDeg
    else if algorithm == Some(DEGREE) then s.degreeMaxDeg
    else if algorithm == Some(PROXIMITY) then s.proximityMaxDeg
    else if algorithm == Some(BETWEENNESS) then s.betweennessMaxDeg
    else if algorithm == Some(MULTISTEINER) then s.multisteinerMaxDeg
    else 0.0
  }

  /** Which keys each algorithm adds: `max_deg` exactly for a positive cap
    * of the chosen algorithm; keypathwayminer only `k`; degree no hub
    * penalty; betweenness no inclusion flags; multisteiner trees,
    * tolerance and hub penalty but no result size. */
  lemma AlgorithmKeys(s: AlgorithmSettings, algorithm: Option<string>)
    ensures "max_deg" in AlgorithmParameters(s, algorithm) <==> MaxDegOf(s, algorithm) > 0.0
    ensures algorithm == Some(KEYPATHWAYMINER) ==> AlgorithmParameters(s, algorithm).Keys == {"k"}
    ensures algorithm == Some(DEGREE) ==> "hub_penalty" !in AlgorithmParameters(s, algorithm)
    ensures algorithm == Some(BETWEENNESS) ==>
      "include_indirect_drugs" !in AlgorithmParameters(s, algorithm)
      && "include_non_approved_drugs" !in AlgorithmParameters(s, algorithm)
    ensures algorithm == Some(MULTISTEINER) ==>
      AlgorithmParameters(s, algorithm).Keys - {"max_deg"} == {"num_trees", "tolerance", "hub_penalty"}
    ensures "result_size" in AlgorithmParameters(s, algorithm) <==>
      algorithm in {Some(TRUSTRANK), Some(CLOSENESS), Some(DEGREE), Some(PROXIMITY), Some(BETWEENNESS)}
  {
  }

  /** `'drug'` for the drug target, `'drug-target'` for anything else. */
  function TargetParameter(target: Option<string>): (r: string)
    ensures r == "drug" <==> target == Some("drug")
    ensures r == "drug" || r == "drug-target"
  {
    if target == Some("drug") then "drug" else "drug-target"
  }

  /** The keys every task carries, whatever the algorithm. */
  const COMMON_KEYS := {"seeds", "config", "ppi_dataset", "pdi_dataset", "licenced", "target"}

  /** What every task carries: the seeds, the configuration with its
    * interaction datasets and licence list, and the target. */
  function CommonParameters(selection: seq<Wrapper>, config: Config, target: Option<string>): (r: Fields)
    ensures r.Keys == COMMON_KEYS
  {
    map[
      "seeds" := Arr(SeedsOf(selection)),
      "config" := AsValue(config),
      "ppi_dataset" := Get(config.settings, "interactionProteinProtein"),
      "pdi_dataset" := Get(config.settings, "interactionDrugProtein"),
      "licenced" := Get(config.settings, "licencedDatasets"),
      "target" := Str(TargetParameter(target))]
  }

  /** The parameter object `startTask` sends, the input network aside. */
  function TaskParameters(selection: seq<Wrapper>, config: Config, target: Option<string>,
                          algorithm: Option<string>, s: AlgorithmSettings): Fields
  {
    CommonParameters(selection, config, target) + AlgorithmParameters(s, algorithm)
  }

  /** No algorithm key is one of the common keys. */
  lemma AlgorithmKeysAvoidCommon(s: AlgorithmSettings, algorithm: Option<string>)
    ensures AlgorithmParameters(s, algorithm).Keys !! COMMON_KEYS
  {
    var keys := AlgorithmParameters(s, algorithm).Keys;
    assert keys <= {"damping_factor", "include_indirect_drugs", "include_non_approved_drugs", "max_deg",
                    "hub_penalty", "result_size", "k", "num_trees", "tolerance"};
  }

  /** A task carries the common keys and the chosen algorithm's, and the
    * algorithm's keys never overwrite a common one. */
  lemma TaskParametersKeys(selection: seq<Wrapper>, config: Config, target: Option<string>,
                           algorithm: Option<string>, s: AlgorithmSettings)
    ensures var r := TaskParameters(selection, config, target, algorithm, s);
      && r.Keys == COMMON_KEYS + AlgorithmParameters(s, algorithm).Keys
      && r["seeds"] == Arr(SeedsOf(selection))
      && r["target"] == Str(TargetParameter(target))
      && (forall k | k in AlgorithmParameters(s, algorithm) :: r[k] == AlgorithmParameters(s, algorithm)[k])
  {
    AlgorithmKeysAvoidCommon(s, algorithm);
  }

  /** `delete node.interactions` on every node of the input network. */
  method DropInteractions(nodes: seq<NodeObject>)
    modifies set o | o in nodes
    ensures forall o | o in nodes :: o.props == old(o.props) - {"interactions"}
    ensures forall o | o in nodes :: "interactions" !in o.props
  {
    for i := 0 to |nodes|
      invariant forall o | o in nodes ::
        o.props == if o in nodes[..i] then old(o.props) - {"interactions"} else old(o.props)
    {
      var node := nodes[i];
      node.props := node.props - {"interactions"};
      assert node.props == old(node.props) - {"interactions"};
      assert nodes[..i + 1] == nodes[..i] + [node];
    }
    assert nodes[..|nodes|] == nodes;
  }

  class LaunchAnalysis {
    /** `'drug'`, `'drug-target'`, or unset. */
    var target: Option<string>
    /** The chosen slug; unset until a filter leaves something. */
    var algorithm: Option<string>
    var algorithms: seq<string>
    var settings: AlgorithmSettings

    constructor (target: Option<string>)
      ensures this.target == target && algorithm == None && algorithms == []
      ensures settings == DefaultAlgorithmSettings()
    {
      this.target := target;
      algorithm := None;
      algorithms := [];
      settings := DefaultAlgorithmSettings();
    }

    /** `ngOnChanges`: offer the target's algorithms that the configuration
      * allows and choose the first; when none is allowed, offer trustrank
      * and keep the chosen algorithm as it was. An unset target changes
      * nothing; a throwing filter leaves the unfiltered offer. */
    method OnChanges(config: Config) returns (ok: bool)
      modifies this`algorithms, this`algorithm
      ensures OfferedAlgorithms(target).None? ==>
        ok && algorithms == old(algorithms) && algorithm == old(algorithm)
      ensures OfferedAlgorithms(target).Some? ==>
        var offered := OfferedAlgorithms(target).value;
        var allowed := AllowedFor(config, target.value);
        && (ok <==> allowed.Some? && FilterAllowed(offered, allowed.value).Some?)
        && (!ok ==> algorithms == offered && algorithm == old(algorithm))
        && (ok ==>
          var filtered := FilterAllowed(offered, allowed.value).value;
          && (filtered == [] ==> algorithms == [TRUSTRANK] && algorithm == old(algorithm))
          && (filtered != [] ==> algorithms == filtered && algorithm == Some(filtered[0])))
      ensures ok && OfferedAlgorithms(target).Some? ==>
        && algorithms != []
        && (forall a | a in algorithms :: a in OfferedAlgorithms(target).value)
    {
      if target == Some("drug-target") {
        algorithms := [MULTISTEINER, KEYPATHWAYMINER, TRUSTRANK, CLOSENESS, DEGREE, BETWEENNESS];
      } else if target == Some("drug") {
        algorithms := [TRUSTRANK, CLOSENESS, DEGREE, PROXIMITY];
      } else {
        return true;
      }
      var allowed := AllowedFor(config, target.value);
      if allowed.None? {
        return false;
      }
      var filtered := FilterAllowed(algorithms, allowed.value);
      if filtered.None? {
        return false;
      }
      FilterAllowedMembers(algorithms, allowed.value);
      algorithms := filtered.value;
      if |algorithms| == 0 {
        algorithms := [TRUSTRANK];
      } else {
        algorithm := Some(algorithms[0]);
      }
      return true;
    }

    /** The parameter object of `startTask`, built field by field, after
      * the `interactions` of every input-network node are deleted. */
    method StartTask(selection: seq<Wrapper>, config: Config, inputNodes: seq<NodeObject>) returns (parameters: Fields)
      modifies set o | o in inputNodes
      ensures parameters == TaskParameters(selection, config, target, algorithm, settings)
      ensures forall o | o in inputNodes :: o.props == old(o.props) - {"interactions"}
    {
      parameters := map[
        "seeds" := Arr(SeedsOf(selection)),
        "config" := AsValue(config)];
      parameters := parameters["ppi_dataset" := Get(config.settings, "interactionProteinProtein")];
      parameters := parameters["pdi_dataset" := Get(config.settings, "interactionDrugProtein")];
      parameters := parameters["licenced" := Get(config.settings, "licencedDatasets")];
      parameters := parameters["target" := Str(if target == Some("drug") then "drug" else "drug-target")];
      assert parameters == CommonParameters(selection, config, target);
      DropInteractions(inputNodes);
      parameters := AddAlgorithmParameters(parameters, settings, algorithm);
    }
  }

  /** The branch of `startTask` that adds the chosen algorithm's
    * parameters, one assignment at a time per algorithm. */
  method AddAlgorithmParameters(common: Fields, s: AlgorithmSettings, algorithm: Option<string>) returns (parameters: Fields)
    ensures parameters == common + AlgorithmParameters(s, algorithm)
  {
    if algorithm == Some(TRUSTRANK) {
      parameters := AddTrustrankParameters(common, s);
    } else if algorithm == Some(CLOSENESS) {
      parameters := AddClosenessParameters(common, s);
    } else if algorithm == Some(DEGREE) {
      parameters := AddDegreeParameters(common, s);
    } else if algorithm == Some(PROXIMITY) {
      parameters := AddProximityParameters(common, s);
    } else if algorithm == Some(BETWEENNESS) {
      parameters := AddBetweennessParameters(common, s);
    } else if algorithm == Some(KEYPATHWAYMINER) {
      parameters := common["k" := Num(s.keypathwayminerK)];
      assert parameters == common + map["k" := Num(s.keypathwayminerK)];
    } else if algorithm == Some(MULTISTEINER) {
      parameters := AddMultisteinerParameters(common, s);
    } else {
      parameters := common;
      assert parameters == common + map[];
    }
  }

  method AddTrustrankParameters(common: Fields, s: AlgorithmSettings) returns (parameters: Fields)
    ensures parameters == common + TrustrankParameters(s)
  {
    parameters := common;
    parameters := parameters["damping_factor" := Num(s.trustrankDampingFactor)];
    parameters := parameters["include_indirect_drugs" := Bool(s.trustrankIncludeIndirectDrugs)];
    parameters := parameters["include_non_approved_drugs" := Bool(s.trustrankIncludeNonApprovedDrugs)];
    if s.trustrankMaxDeg > 0.0 {
      parameters := parameters["max_deg" := Num(s.trustrankMaxDeg)];
    }
    parameters := parameters["hub_penalty" := Num(s.trustrankHubPenalty)];
    parameters := parameters["result_size" := Num(s.trustrankResultSize)];
  }

  method AddClosenessParameters(common: Fields, s: AlgorithmSettings) returns (parameters: Fields)
    ensures parameters == common + ClosenessParameters(s)
  {
    parameters := common;
    parameters := parameters["include_indirect_drugs" := Bool(s.closenessIncludeIndirectDrugs)];
    parameters := parameters["include_non_approved_drugs" := Bool(s.closenessIncludeNonApprovedDrugs)];
    if s.closenessMaxDeg > 0.0 {
      parameters := parameters["max_deg" := Num(s.closenessMaxDeg)];
    }
    parameters := parameters["hub_penalty" := Num(s.closenessHubPenalty)];
    parameters := parameters["result_size" := Num(s.closenessResultSize)];
  }

  method AddDegreeParameters(common: Fields, s: AlgorithmSettings) returns (parameters: Fields)
    ensures parameters == common + DegreeParameters(s)
  {
    parameters := common;
    parameters := parameters["include_non_approved_drugs" := Bool(s.degreeIncludeNonApprovedDrugs)];
    if s.degreeMaxDeg > 0.0 {
      parameters := parameters["max_deg" := Num(s.degreeMaxDeg)];
    }
    parameters := parameters["result_size" := Num(s.degreeResultSize)];
  }

  method AddProximityParameters(common: Fields, s: AlgorithmSettings) returns (parameters: Fields)
    ensures parameters == common + ProximityParameters(s)
  {
    parameters := common;
    parameters := parameters["include_non_approved_drugs" := Bool(s.proximityIncludeNonApprovedDrugs)];
    if s.proximityMaxDeg > 0.0 {
      parameters := parameters["max_deg" := Num(s.proximityMaxDeg)];
    }
    parameters := parameters["hub_penalty" := Num(s.proximityHubPenalty)];
    parameters := parameters["result_size" := Num(s.proximityResultSize)];
  }

  method AddBetweennessParameters(common: Fields, s: AlgorithmSettings) returns (parameters: Fields)
    ensures parameters == common + BetweennessParameters(s)
  {
    parameters := common;
    if s.betweennessMaxDeg > 0.0 {
      parameters := parameters["max_deg" := Num(s.betweennessMaxDeg)];
    }
    parameters := parameters["hub_penalty" := Num(s.betweennessHubPenalty)];
    parameters := parameters["result_size" := Num(s.betweennessResultSize)];
  }

  method AddMultisteinerParameters(common: Fields, s: AlgorithmSettings) returns (parameters: Fields)
    ensures parameters == common + MultisteinerParameters(s)
  {
    parameters := common;
    parameters := parameters["num_trees" := Num(s.multisteinerNumTrees)];
    parameters := parameters["tolerance" := Num(s.multisteinerTolerance)];
    if s.multisteinerMaxDeg > 0.0 {
      parameters := parameters["max_deg" := Num(s.multisteinerMaxDeg)];
    }
    parameters := parameters["hub_penalty" := Num(s.multisteinerHubPenalty)];
  }
}
