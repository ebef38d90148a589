/** What a MATCH means: the comparison finds nothing exactly when the two documents agree in every respect below. */
module MatchSoundness {
  import opened Records
  import opened Judgement
  import opened Provenance
  import opened ReviewedGraph
  import opened Comparison
  import opened WholeComparison
  import opened Sorting
  import opened Text

  // -- evidence

  lemma {:induction false} OriginClear(facts: Facts, ref: Option<EvidenceRef>, purpose: Purpose, identity: ContentIdentity, reason: Reason)
    ensures OriginJudged(facts, ref, purpose, identity, reason) == CLEAR <==> Verifies(facts, ref, purpose, identity)
  {
    assert CLEAR.gaps == {} && CLEAR.contradictions == {};
    assert reason in Lacks(true, reason).gaps;
    assert reason in Contradicts(true, reason).contradictions;
  }

  lemma {:induction false} PlusClear(a: Judgement, b: Judgement)
    ensures Plus(a, b) == CLEAR <==> a == CLEAR && b == CLEAR
  {
    assert a.contradictions <= Plus(a, b).contradictions && a.gaps <= Plus(a, b).gaps;
    assert b.contradictions <= Plus(a, b).contradictions && b.gaps <= Plus(a, b).gaps;
  }

  lemma {:induction false} ConditionClear(condition: bool, reason: Reason)
    ensures Lacks(condition, reason) == CLEAR <==> !condition
    ensures Contradicts(condition, reason) == CLEAR <==> !condition
  {
    assert CLEAR.gaps == {} && CLEAR.contradictions == {};
    if condition { assert reason in Lacks(condition, reason).gaps && reason in Contradicts(condition, reason).contradictions; }
  }

  predicate GitProven(repo: Repository, facts: Facts, identify: Identify, n: SourceNode)
    requires n.provenance.Git?
  {
    var p := n.provenance;
    && p.commit == repo.commit && p.tree == repo.tree && p.mode == n.mode
    && Verifies(facts, p.membershipRef, Membership, identify(MembershipClaim(repo, n)))
    && (p.gitRepresentation == Regular || p.targetChain != [])
    && (p.gitRepresentation == Symlink <==> p.mode == "120000") && (p.gitRepresentation == Submodule <==> p.mode == "160000")
  }

  predicate GeneratedProven(related: seq<SourceNode>, facts: Facts, identify: Identify, n: SourceNode)
    requires n.provenance.Generated?
  {
    var p := n.provenance;
    && Verifies(facts, p.generationRef, Generation, identify(NodeClaim(n, related)))
    && p.generators != [] && p.inputs != [] && p.toolchain != [] && n.content == p.output
  }

  predicate CachedProven(related: seq<SourceNode>, facts: Facts, identify: Identify, n: SourceNode)
    requires n.provenance.Cached?
  {
    var p := n.provenance;
    Verifies(facts, p.cacheRef, CachePurpose, identify(NodeClaim(n, related))) && p.sourceNodes != [] && n.content == p.executed
  }

  predicate ArtifactProven(related: seq<SourceNode>, interpreter: SourceNode, facts: Facts, identify: Identify, n: SourceNode)
    requires n.provenance.Artifact?
  {
    var p := n.provenance;
    && Verifies(facts, p.artifactRef, ArtifactPurpose, identify(NodeClaim(n, related)))
    && n.content == p.artifact && interpreter.kind == Interpreter
  }

  predicate NodeProven(repositories: map<string, Repository>, nodes: map<string, SourceNode>, facts: Facts, identify: Identify, n: SourceNode) {
    NodeKnown(repositories, nodes, n) ==>
      var related := Lookup(nodes, RelatedIds(n.provenance));
      match n.provenance
      case Git(repository, _, _, _, _, _, _, _, _) => GitProven(repositories[repository], facts, identify, n)
      case Generated(_, _, _, _, _, _, _) => GeneratedProven(related, facts, identify, n)
      case Cached(_, _, _, _, _) => CachedProven(related, facts, identify, n)
      case Artifact(_, _, _, _, interpreter, _, _, _, _) =>
        assert interpreter in RelatedIds(n.provenance);
        ArtifactProven(related, nodes[interpreter], facts, identify, n)
  }

  lemma {:induction false} GitClear(repo: Repository, facts: Facts, identify: Identify, n: SourceNode)
    requires n.provenance.Git?
    ensures GitJudged(repo, facts, identify, n) == CLEAR <==> GitProven(repo, facts, identify, n)
  {
    var p := n.provenance;
    var a := Contradicts(p.commit != repo.commit || p.tree != repo.tree || p.mode != n.mode, GIT_MEMBERSHIP);
    var b := OriginJudged(facts, p.membershipRef, Membership, identify(MembershipClaim(repo, n)), GIT_MEMBERSHIP);
    var c := Lacks(p.gitRepresentation != Regular && p.targetChain == [], COVERAGE_GAP);
    var d := Contradicts((p.gitRepresentation == Symlink) != (p.mode == "120000") ||
                         (p.gitRepresentation == Submodule) != (p.mode == "160000"), GIT_MEMBERSHIP);
    FourClear(a, b, c, d);
    ConditionClear(p.commit != repo.commit || p.tree != repo.tree || p.mode != n.mode, GIT_MEMBERSHIP);
    OriginClear(facts, p.membershipRef, Membership, identify(MembershipClaim(repo, n)), GIT_MEMBERSHIP);
    ConditionClear(p.gitRepresentation != Regular && p.targetChain == [], COVERAGE_GAP);
    ConditionClear((p.gitRepresentation == Symlink) != (p.mode == "120000") ||
                   (p.gitRepresentation == Submodule) != (p.mode == "160000"), GIT_MEMBERSHIP);
  }

  lemma {:induction false} FourClear(a: Judgement, b: Judgement, c: Judgement, d: Judgement)
    ensures Plus(Plus(a, b), Plus(c, d)) == CLEAR <==> a == CLEAR && b == CLEAR && c == CLEAR && d == CLEAR
  {
    PlusClear(Plus(a, b), Plus(c, d));
    PlusClear(a, b);
    PlusClear(c, d);
  }

  lemma {:induction false} ThreeClear(a: Judgement, b: Judgement, c: Judgement)
    ensures Plus(a, Plus(b, c)) == CLEAR <==> a == CLEAR && b == CLEAR && c == CLEAR
  {
    PlusClear(a, Plus(b, c));
    PlusClear(b, c);
  }

  lemma {:induction false} NodeClear(repositories: map<string, Repository>, nodes: map<string, SourceNode>, facts: Facts, identify: Identify, n: SourceNode)
    ensures NodeJudged(repositories, nodes, facts, identify, n) == CLEAR <==> NodeProven(repositories, nodes, facts, identify, n)
  {
    if NodeKnown(repositories, nodes, n) {
      var related, p := Lookup(nodes, RelatedIds(n.provenance)), n.provenance;
      match n.provenance {
        case Git(repository, _, _, _, _, _, _, _, _) => GitClear(repositories[repository], facts, identify, n);
        case Generated(_, _, _, _, _, _, ref) =>
          OriginClear(facts, ref, Generation, identify(NodeClaim(n, related)), GENERATED_PROVENANCE);
          ThreeClear(OriginJudged(facts, ref, Generation, identify(NodeClaim(n, related)), GENERATED_PROVENANCE),
                     Lacks(p.generators == [] || p.inputs == [] || p.toolchain == [], GENERATED_PROVENANCE),
                     Contradicts(n.content != p.output, GENERATED_PROVENANCE));
          ConditionClear(p.generators == [] || p.inputs == [] || p.toolchain == [], GENERATED_PROVENANCE);
          ConditionClear(n.content != p.output, GENERATED_PROVENANCE);
        case Cached(_, _, _, _, ref) =>
          OriginClear(facts, ref, CachePurpose, identify(NodeClaim(n, related)), CACHED_CODE);
          ThreeClear(OriginJudged(facts, ref, CachePurpose, identify(NodeClaim(n, related)), CACHED_CODE),
                     Lacks(p.sourceNodes == [], CACHED_CODE), Contradicts(n.content != p.executed, CACHED_CODE));
          ConditionClear(p.sourceNodes == [], CACHED_CODE);
          ConditionClear(n.content != p.executed, CACHED_CODE);
        case Artifact(_, _, _, _, interpreter, _, _, _, ref) =>
          assert interpreter in RelatedIds(n.provenance);
          OriginClear(facts, ref, ArtifactPurpose, identify(NodeClaim(n, related)), RUNTIME_PROVENANCE);
          ThreeClear(OriginJudged(facts, ref, ArtifactPurpose, identify(NodeClaim(n, related)), RUNTIME_PROVENANCE),
                     Contradicts(n.content != p.artifact, RUNTIME_PROVENANCE),
                     Contradicts(nodes[interpreter].kind != Interpreter, RUNTIME_PROVENANCE));
          ConditionClear(n.content != p.artifact, RUNTIME_PROVENANCE);
          ConditionClear(nodes[interpreter].kind != Interpreter, RUNTIME_PROVENANCE);
      }
    }
  }

  ghost predicate GraphProven(g: SourceGraph, facts: Facts, identify: Identify) {
    && (forall n :: n in g.nodes ==> NodeProven(RepositoriesById(g.repositories), NodesById(g.nodes), facts, identify, n))
    && (forall e :: e in g.edges && e.conditionRef.Some? ==> Verifies(facts, e.conditionRef, Condition, identify(EdgeClaim(e))))
    && (forall p :: p in g.processProfiles ==> Verifies(facts, Some(p.loadPolicyRef), Policy, identify(ProfileClaim(p))))
  }

  lemma {:induction false} GraphClear(g: SourceGraph, facts: Facts, identify: Identify)
    ensures ProvenanceJudged(g, facts, identify) == CLEAR <==> GraphProven(g, facts, identify)
  {
    var repositories, nodes := RepositoriesById(g.repositories), NodesById(g.nodes);
    var jn, je, jp := (n: SourceNode) => NodeJudged(repositories, nodes, facts, identify, n), (e: SourceEdge) => EdgeJudged(facts, identify, e),
                      (p: ProcessProfile) => PolicyJudged(facts, identify, p);
    OverClear(Elements(g.nodes), jn);
    OverClear(Elements(g.edges), je);
    OverClear(Elements(g.processProfiles), jp);
    PlusClear(Plus(Over(Elements(g.nodes), jn), Over(Elements(g.edges), je)), Over(Elements(g.processProfiles), jp));
    PlusClear(Over(Elements(g.nodes), jn), Over(Elements(g.edges), je));
    forall n ensures jn(n) == CLEAR <==> NodeProven(repositories, nodes, facts, identify, n) {
      NodeClear(repositories, nodes, facts, identify, n);
    }
    forall e ensures je(e) == CLEAR <==> (e.conditionRef.Some? ==> Verifies(facts, e.conditionRef, Condition, identify(EdgeClaim(e)))) {
      OriginClear(facts, e.conditionRef, Condition, identify(EdgeClaim(e)), COVERAGE_GAP);
    }
    forall p ensures jp(p) == CLEAR <==> Verifies(facts, Some(p.loadPolicyRef), Policy, identify(ProfileClaim(p))) {
      OriginClear(facts, Some(p.loadPolicyRef), Policy, identify(ProfileClaim(p)), COVERAGE_GAP);
    }
  }

  // -- the documents themselves

  predicate InputsGenuine(c: Case, verified: VerifiedClosureOrigins, identify: Identify) {
    && c.reviewed.content == identify(GraphClaim(c.reviewed.graph)) && verified.reviewedBytes == Some(c.reviewed.content)
    && c.observed.content == identify(EnvelopeClaim(c.observed.envelope)) && verified.observedBytes == Some(c.observed.content)
    && verified.expectation == Some(identify(ExpectationClaim(c.expected)))
    && verified.validityCheckpoint == Some(c.expected.boundary.validityCheckpoint)
  }

  lemma {:induction false} SuppliedClear(supplied: Option<ContentIdentity>, identity: ContentIdentity, reason: Reason)
    ensures SuppliedJudged(supplied, identity, reason) == CLEAR <==> supplied == Some(identity)
  {
    ConditionClear(supplied.Some? && supplied.value != identity, reason);
    ConditionClear(true, reason);
  }

  lemma {:induction false} InputsClear(c: Case, verified: VerifiedClosureOrigins, identify: Identify)
    ensures ContentJudged(c, identify) == CLEAR && InputsJudged(c, verified, identify) == CLEAR <==> InputsGenuine(c, verified, identify)
  {
    var g, e, x := identify(GraphClaim(c.reviewed.graph)), identify(EnvelopeClaim(c.observed.envelope)), identify(ExpectationClaim(c.expected));
    PlusClear(Contradicts(c.reviewed.content != g, REVIEW_ORIGIN), Contradicts(c.observed.content != e, OBSERVER_ORIGIN));
    ConditionClear(c.reviewed.content != g, REVIEW_ORIGIN);
    ConditionClear(c.observed.content != e, OBSERVER_ORIGIN);
    var stale := verified.validityCheckpoint != Some(c.expected.boundary.validityCheckpoint);
    FourClear(SuppliedJudged(verified.reviewedBytes, g, REVIEW_ORIGIN), SuppliedJudged(verified.observedBytes, e, OBSERVER_ORIGIN),
              SuppliedJudged(verified.expectation, x, BINDING), Lacks(stale, STALE_FRONTIER));
    SuppliedClear(verified.reviewedBytes, g, REVIEW_ORIGIN);
    SuppliedClear(verified.observedBytes, e, OBSERVER_ORIGIN);
    SuppliedClear(verified.expectation, x, BINDING);
    ConditionClear(stale, STALE_FRONTIER);
  }

  predicate ReviewGenuine(c: Case, facts: Facts, identify: Identify) {
    var graph, envelope := c.reviewed.graph, c.observed.envelope;
    && envelope.reviewedGraph == c.expected.reviewedGraph && envelope.reviewedGraph.content == identify(GraphClaim(graph))
    && graph.completenessReviewRef == Some(c.expected.reviewRef)
    && Verifies(facts, graph.completenessReviewRef, Review, identify(GraphClaim(graph)))
    && envelope.binding == c.expected.binding && envelope.boundary == c.expected.boundary
  }

  lemma {:induction false} ReviewClear(c: Case, facts: Facts, identify: Identify)
    ensures ReviewJudged(c, facts, identify) == CLEAR <==> ReviewGenuine(c, facts, identify)
  {
    var graph, envelope, identity := c.reviewed.graph, c.observed.envelope, identify(GraphClaim(c.reviewed.graph));
    var a := envelope.reviewedGraph != c.expected.reviewedGraph || envelope.reviewedGraph.content != identity;
    var d := envelope.binding != c.expected.binding || envelope.boundary != c.expected.boundary;
    FourClear(Contradicts(a, REVIEW_ORIGIN), CompletenessJudged(graph.completenessReviewRef, c.expected.reviewRef),
              OriginJudged(facts, graph.completenessReviewRef, Review, identity, REVIEW_ORIGIN), Contradicts(d, BINDING));
    ConditionClear(a, REVIEW_ORIGIN);
    ConditionClear(d, BINDING);
    ConditionClear(true, COVERAGE_GAP);
    ConditionClear(graph.completenessReviewRef.Some? && graph.completenessReviewRef.value != c.expected.reviewRef, REVIEW_ORIGIN);
    OriginClear(facts, graph.completenessReviewRef, Review, identity, REVIEW_ORIGIN);
  }

  predicate MappingProven(nodes: map<string, SourceNode>, facts: Facts, identify: Identify, m: LegacyNodeLink) {
    && m.graphNodeId in nodes && m.content == nodes[m.graphNodeId].content
    && Verifies(facts, Some(m.provenanceRef), Legacy, identify(LegacyNodeClaim(m, Some(nodes[m.graphNodeId]))))
  }

  predicate LinkProven(nodes: map<string, SourceNode>, facts: Facts, identify: Identify, link: LegacyLink) {
    && Verifies(facts, Some(link.legacyRef), Legacy, identify(LegacyLinkClaim(link)))
    && forall m :: m in link.nodeMap ==> MappingProven(nodes, facts, identify, m)
  }

  lemma {:induction false} LinkClear(nodes: map<string, SourceNode>, facts: Facts, identify: Identify, link: LegacyLink)
    ensures LinkJudged(nodes, facts, identify, link) == CLEAR <==> LinkProven(nodes, facts, identify, link)
  {
    var jm := (m: LegacyNodeLink) => MappingJudged(nodes, facts, identify, m);
    var origin := OriginJudged(facts, Some(link.legacyRef), Legacy, identify(LegacyLinkClaim(link)), REVIEW_ORIGIN);
    PlusClear(origin, Over(Elements(link.nodeMap), jm));
    OverClear(Elements(link.nodeMap), jm);
    OriginClear(facts, Some(link.legacyRef), Legacy, identify(LegacyLinkClaim(link)), REVIEW_ORIGIN);
    forall m ensures jm(m) == CLEAR <==> MappingProven(nodes, facts, identify, m) {
      var node := MappedNode(nodes, m);
      var wrong := node.None? || m.content != node.value.content;
      PlusClear(Contradicts(wrong, BYTE_SUBSTITUTION), OriginJudged(facts, Some(m.provenanceRef), Legacy, identify(LegacyNodeClaim(m, node)), REVIEW_ORIGIN));
      ConditionClear(wrong, BYTE_SUBSTITUTION);
      OriginClear(facts, Some(m.provenanceRef), Legacy, identify(LegacyNodeClaim(m, node)), REVIEW_ORIGIN);
    }
  }

  ghost predicate LegacyProven(c: Case, facts: Facts, identify: Identify) {
    && c.observed.envelope.legacyLinks == c.expected.legacyLinks
    && forall link :: link in c.observed.envelope.legacyLinks ==> LinkProven(NodesById(c.reviewed.graph.nodes), facts, identify, link)
  }

  lemma {:induction false} LegacyClear(c: Case, facts: Facts, identify: Identify)
    ensures LegacyJudged(c, facts, identify) == CLEAR <==> LegacyProven(c, facts, identify)
  {
    var nodes, links := NodesById(c.reviewed.graph.nodes), c.observed.envelope.legacyLinks;
    var jl := (link: LegacyLink) => LinkJudged(nodes, facts, identify, link);
    PlusClear(Contradicts(links != c.expected.legacyLinks, REVIEW_ORIGIN), Over(Elements(links), jl));
    ConditionClear(links != c.expected.legacyLinks, REVIEW_ORIGIN);
    OverClear(Elements(links), jl);
    forall link ensures jl(link) == CLEAR <==> LinkProven(nodes, facts, identify, link) { LinkClear(nodes, facts, identify, link); }
  }

  ghost predicate DocumentsGenuine(c: Case, verified: VerifiedClosureOrigins, identify: Identify) {
    var facts := FactMap(verified.facts);
    && InputsGenuine(c, verified, identify) && ReviewGenuine(c, facts, identify)
    && GraphProven(c.reviewed.graph, facts, identify) && LegacyProven(c, facts, identify)
  }

  lemma {:induction false} DocumentsClear(c: Case, verified: VerifiedClosureOrigins, identify: Identify)
    ensures DocumentsJudged(c, verified, identify) == CLEAR <==> DocumentsGenuine(c, verified, identify)
  {
    var facts := FactMap(verified.facts);
    InputsClear(c, verified, identify);
    ReviewClear(c, facts, identify);
    GraphClear(c.reviewed.graph, facts, identify);
    LegacyClear(c, facts, identify);
    var p, l := ProvenanceJudged(c.reviewed.graph, facts, identify), LegacyJudged(c, facts, identify);
    FourClear(ContentJudged(c, identify), InputsJudged(c, verified, identify), ReviewJudged(c, facts, identify), Plus(p, l));
    PlusClear(p, l);
  }
}
