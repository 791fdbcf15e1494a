/**
 * The LDP interaction-model hierarchy: the ancestor closure the constraint-service tests compute
 * for an interaction model, and the default `constrainedBy` overload that fixes the data prefix.
 */
module InteractionModels {
  import opened Wrappers
  import opened Vocabulary
  import opened Rdf
  import TrellisUtils

  /**
   * The superclass map of LDP interaction models: RDFSource and NonRDFSource under Resource,
   * Container under RDFSource, and the three container kinds under Container. Resource itself,
   * any other IRI and the absent IRI have no superclass.
   */
  function SuperclassOf(t: Option<string>): (sup: Option<string>)
    ensures sup.Some? <==> Depth(t) >= 2
    ensures sup.Some? ==> Depth(sup) + 1 == Depth(t)
  {
    match t
    case None => None
    case Some(iri) =>
      if iri == LdpRDFSource || iri == LdpNonRDFSource then Some(LdpResource)
      else if iri == LdpContainer then Some(LdpRDFSource)
      else if iri == LdpBasicContainer || iri == LdpDirectContainer || iri == LdpIndirectContainer then Some(LdpContainer)
      else None
  }

  /** The number of LDP types from `ldp:Resource` down to `t`; zero for a type outside the hierarchy. */
  function Depth(t: Option<string>): nat {
    match t
    case None => 0
    case Some(iri) =>
      if iri == LdpResource then 1
      else if iri == LdpRDFSource || iri == LdpNonRDFSource then 2
      else if iri == LdpContainer then 3
      else if iri == LdpBasicContainer || iri == LdpDirectContainer || iri == LdpIndirectContainer then 4
      else 0
  }

  /** The filter of `ldpResourceTypes`: `t` has a superclass or is `ldp:Resource`. */
  predicate IsLdpType(t: Option<string>) {
    SuperclassOf(t).Some? || t == Some(LdpResource)
  }

  /**
   * `ldpResourceTypes`: the ancestors of an interaction model followed by the model itself,
   * or nothing for an IRI outside the LDP hierarchy. The recursion reaches the absent IRI
   * (the superclass of `ldp:Resource`), which contributes nothing.
   */
  function LdpResourceTypes(t: Option<string>): (types: seq<string>)
    ensures types == [] <==> !IsLdpType(t)
    ensures types != [] ==> t == Some(types[|types| - 1]) && types[0] == LdpResource
    ensures forall i | 0 <= i < |types| - 1 :: SuperclassOf(Some(types[i + 1])) == Some(types[i])
    ensures forall i, j | 0 <= i < j < |types| :: Depth(Some(types[i])) < Depth(Some(types[j]))
    ensures |types| == Depth(t)
    decreases Depth(t)
  {
    if IsLdpType(t) then LdpResourceTypes(SuperclassOf(t)) + [t.value] else []
  }

  /** A sequence without repeated elements has as many elements as the set of its elements. */
  lemma {:induction false} DistinctCardinality(xs: seq<string>)
    requires forall i, j | 0 <= i < j < |xs| :: xs[i] != xs[j]
    ensures |set x | x in xs| == |xs|
  {
    if |xs| > 0 {
      var init := xs[..|xs| - 1];
      DistinctCardinality(init);
      assert (set x | x in xs) == (set x | x in init) + {xs[|xs| - 1]};
      assert xs[|xs| - 1] !in (set x | x in init);
    }
  }

  /** The closure has no duplicates: counting its elements and counting its distinct elements agree. */
  lemma LdpResourceTypesDistinct(t: Option<string>)
    ensures |set x | x in LdpResourceTypes(t)| == |LdpResourceTypes(t)|
  {
    var types := LdpResourceTypes(t);
    forall i, j | 0 <= i < j < |types|
      ensures types[i] != types[j]
    {
      assert Depth(Some(types[i])) < Depth(Some(types[j]));
    }
    DistinctCardinality(types);
  }

  /** `ldp:Resource` closes to itself alone. */
  lemma ResourceTypesOfResource()
    ensures LdpResourceTypes(Some(LdpResource)) == [LdpResource]
  {
  }

  /** An IRI outside the hierarchy, such as `rdfs:label`, closes to nothing. */
  lemma ResourceTypesOfNonLdp()
    ensures LdpResourceTypes(Some(RdfsLabel)) == []
  {
  }

  /** Each source kind closes to `ldp:Resource` and itself. */
  lemma ResourceTypesOfSources(t: string)
    requires t == LdpRDFSource || t == LdpNonRDFSource
    ensures LdpResourceTypes(Some(t)) == [LdpResource, t]
  {
  }

  /** `ldp:Container` closes to Resource, RDFSource and Container, in that order. */
  lemma ResourceTypesOfContainer()
    ensures LdpResourceTypes(Some(LdpContainer)) == [LdpResource, LdpRDFSource, LdpContainer]
  {
  }

  /** Each of the three container kinds closes to four types, ending with itself. */
  lemma ResourceTypesOfContainerKinds(t: string)
    requires t == LdpBasicContainer || t == LdpDirectContainer || t == LdpIndirectContainer
    ensures LdpResourceTypes(Some(t)) == [LdpResource, LdpRDFSource, LdpContainer, t]
    ensures |set x | x in LdpResourceTypes(Some(t))| == 4
  {
    var types := LdpResourceTypes(Some(t));
    assert |types| == 4 && types[3] == t;
    assert SuperclassOf(Some(types[3])) == Some(types[2]);
    assert SuperclassOf(Some(types[2])) == Some(types[1]);
    LdpResourceTypesDistinct(Some(t));
  }

  /** A violation: the IRI of the broken constraint and the offending triple. */
  datatype Violation = Violation(constraint: string, triple: Triple)

  /** A constraint service, known through its three-argument `constrainedBy` overload. */
  datatype ConstraintService = ConstraintService(constrainedByIn: (string, set<Triple>, string) -> seq<Violation>)

  /** The two-argument `constrainedBy`: the three-argument overload applied with the data prefix. */
  function ConstrainedBy(svc: ConstraintService, model: string, graph: set<Triple>): (violations: seq<Violation>)
    ensures violations == svc.constrainedByIn(model, graph, "trellis:data/")
  {
    TrellisUtils.PrefixConstants();
    svc.constrainedByIn(model, graph, TrellisUtils.TrellisDataPrefix)
  }

  /** Two services that agree under the data prefix agree on the two-argument overload, whatever they do elsewhere. */
  lemma ConstrainedByDependsOnDataPrefixOnly(s1: ConstraintService, s2: ConstraintService, model: string, graph: set<Triple>)
    requires s1.constrainedByIn(model, graph, TrellisUtils.TrellisDataPrefix) == s2.constrainedByIn(model, graph, TrellisUtils.TrellisDataPrefix)
    ensures ConstrainedBy(s1, model, graph) == ConstrainedBy(s2, model, graph)
  {
  }
}
