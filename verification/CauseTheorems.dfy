/** The comparator's judgement is exactly the causes the documents show. For every part of the comparison and every reason,
    the part's judgement holds the reason as a contradiction exactly if the documents refute it there (Causes.Refuted and its
    parts) and as a gap exactly if they leave it open (Causes.LeftOpen and its parts). The parts follow the comparison: the
    provenance of the nodes, both documents' identities and reviews, the roster, each process's events, loads and
    checkpoint, and the tree of parents and children. */
module CauseTheorems {
  import opened Records
  import opened Judgement
  import opened Provenance
  import opened ReviewedGraph
  import opened Comparison
  import opened WholeComparison
  import opened MatchedProcess
  import opened MatchTheorems
  import opened FactMonotonicity
  import opened Sorting
  import opened Causes

  // -- judgements as sets of reasons

  /** The judgement contradicts with `r` exactly under `refuted`, and leaves a gap with `r` exactly under `open`. */
  ghost predicate Gives(j: Judgement, r: Reason, refuted: bool, open: bool) {
    (r in j.contradictions <==> refuted) && (r in j.gaps <==> open)
  }

  lemma {:induction false} OverGives<T(!new)>(s: seq<T>, judge: T -> Judgement, r: Reason)
    ensures Gives(Over(Elements(s), judge), r, exists x :: x in s && r in judge(x).contradictions, exists x :: x in s && r in judge(x).gaps)
  {
    forall x ensures x in Elements(s) <==> x in s {}
  }

  /** A reference has at most one verified claim for a purpose, and the map holds it. */
  lemma {:induction false} FactSays(facts: seq<VerifiedOriginFact>, ref: EvidenceRef, purpose: Purpose)
    requires UniqueFacts(facts)
    ensures (ref, purpose) in FactMap(facts) <==> exists f :: f in facts && f.ref == ref && f.purpose == purpose
    ensures forall f :: f in facts && f.ref == ref && f.purpose == purpose ==> (ref, purpose) in FactMap(facts) && FactMap(facts)[(ref, purpose)] == f.claim
  {
    FactsRecorded(facts);
    forall f | f in facts && f.ref == ref && f.purpose == purpose
      ensures (ref, purpose) in FactMap(facts) && FactMap(facts)[(ref, purpose)] == f.claim
    {
      assert Recorded(FactMap(facts), f);
    }
    if (ref, purpose) in FactMap(facts) {
      RecordsAreFacts(facts, (ref, purpose));
      assert VerifiedOriginFact(ref, purpose, FactMap(facts)[(ref, purpose)]) in facts;
    }
  }

  lemma {:induction false} MistakenIs(facts: seq<VerifiedOriginFact>, ref: EvidenceRef, purpose: Purpose, identity: ContentIdentity)
    requires UniqueFacts(facts)
    ensures Unverified(facts, Some(ref), purpose) <==> (ref, purpose) !in FactMap(facts)
    ensures Mistaken(facts, Some(ref), purpose, identity) <==> (ref, purpose) in FactMap(facts) && FactMap(facts)[(ref, purpose)] != identity
  {
    FactSays(facts, ref, purpose);
    if (ref, purpose) in FactMap(facts) {
      var f :| f in facts && f.ref == ref && f.purpose == purpose;
    }
  }

  lemma {:induction false} OriginGives(facts: seq<VerifiedOriginFact>, ref: Option<EvidenceRef>, purpose: Purpose, identity: ContentIdentity,
                                       reason: Reason, r: Reason)
    requires UniqueFacts(facts)
    ensures Gives(OriginJudged(FactMap(facts), ref, purpose, identity, reason), r,
                  r == reason && Mistaken(facts, ref, purpose, identity), r == reason && Unverified(facts, ref, purpose))
  {
    if ref.Some? { MistakenIs(facts, ref.value, purpose, identity); }
  }

  // -- the graph's provenance

  lemma {:induction false} NodeFound(g: SourceGraph, n: SourceNode)
    requires DistinctIds(g) && n in g.nodes
    ensures n.id in NodesById(g.nodes) && NodesById(g.nodes)[n.id] == n
  {
    ByIdFinds(g);
  }

  lemma {:induction false} NamedIs(g: SourceGraph, ids: seq<string>, related: seq<SourceNode>)
    requires DistinctIds(g) && forall k :: k in ids ==> k in NodesById(g.nodes)
    ensures Named(g, ids, related) <==> related == Lookup(NodesById(g.nodes), ids)
  {
    ByIdFinds(g);
    var nodes := NodesById(g.nodes);
    if Named(g, ids, related) {
      forall i | 0 <= i < |ids| ensures related[i] == Lookup(nodes, ids)[i] {}
    }
    forall i | 0 <= i < |ids| ensures nodes[ids[i]] in g.nodes && nodes[ids[i]].id == ids[i] { assert ids[i] in ids; }
  }

  lemma {:induction false} NodeMistakenIs(g: SourceGraph, facts: seq<VerifiedOriginFact>, identify: Identify, n: SourceNode, ids: seq<string>,
                                          ref: Option<EvidenceRef>, purpose: Purpose)
    requires DistinctIds(g) && forall k :: k in ids ==> k in NodesById(g.nodes)
    ensures NodeMistaken(g, facts, identify, n, ids, ref, purpose) <==>
            Mistaken(facts, ref, purpose, identify(NodeClaim(n, Lookup(NodesById(g.nodes), ids))))
  {
    var related := Lookup(NodesById(g.nodes), ids);
    NamedIs(g, ids, related);
    if NodeMistaken(g, facts, identify, n, ids, ref, purpose) {
      var other :| Named(g, ids, other) && Mistaken(facts, ref, purpose, identify(NodeClaim(n, other)));
      NamedIs(g, ids, other);
    }
  }

  /** A node whose references the graph resolves. */
  ghost predicate KnownHere(g: SourceGraph, n: SourceNode) {
    DistinctIds(g) && NodeKnown(RepositoriesById(g.repositories), NodesById(g.nodes), n)
  }

  lemma {:induction false} RelatedKnown(g: SourceGraph, n: SourceNode)
    requires GraphOk(g) && n in g.nodes
    ensures KnownHere(g, n)
  {
    assert ProvenanceOk(RepositoriesById(g.repositories), NodesById(g.nodes).Keys, n);
  }

  lemma {:induction false} GitGives(g: SourceGraph, facts: seq<VerifiedOriginFact>, identify: Identify, n: SourceNode, r: Reason)
    requires KnownHere(g, n) && UniqueFacts(facts) && n.provenance.Git?
    ensures n.provenance.repository in RepositoriesById(g.repositories)
    ensures Gives(GitJudged(RepositoriesById(g.repositories)[n.provenance.repository], FactMap(facts), identify, n), r,
                  NodeRefuted(g, facts, identify, n, r), NodeOpen(facts, n, r))
  {
    ByIdFinds(g);
    var repo := RepositoriesById(g.repositories)[n.provenance.repository];
    OriginGives(facts, n.provenance.membershipRef, Membership, identify(MembershipClaim(repo, n)), GIT_MEMBERSHIP, r);
    forall other | other in g.repositories && other.id == n.provenance.repository ensures other == repo {}
  }

  lemma {:induction false} GeneratedGives(g: SourceGraph, facts: seq<VerifiedOriginFact>, identify: Identify, n: SourceNode, r: Reason)
    requires KnownHere(g, n) && UniqueFacts(facts) && n.provenance.Generated?
    ensures Gives(NodeJudged(RepositoriesById(g.repositories), NodesById(g.nodes), FactMap(facts), identify, n), r,
                  NodeRefuted(g, facts, identify, n, r), NodeOpen(facts, n, r))
  {
    var p := n.provenance;
    var ids := p.generators + p.inputs + p.toolchain;
    assert ids == RelatedIds(p);
    NodeMistakenIs(g, facts, identify, n, ids, p.generationRef, Generation);
    OriginGives(facts, p.generationRef, Generation, identify(NodeClaim(n, Lookup(NodesById(g.nodes), ids))), GENERATED_PROVENANCE, r);
  }

  lemma {:induction false} CachedGives(g: SourceGraph, facts: seq<VerifiedOriginFact>, identify: Identify, n: SourceNode, r: Reason)
    requires KnownHere(g, n) && UniqueFacts(facts) && n.provenance.Cached?
    ensures Gives(NodeJudged(RepositoriesById(g.repositories), NodesById(g.nodes), FactMap(facts), identify, n), r,
                  NodeRefuted(g, facts, identify, n, r), NodeOpen(facts, n, r))
  {
    var p := n.provenance;
    var ids := p.sourceNodes + [p.cacheInterpreter];
    assert ids == RelatedIds(p);
    NodeMistakenIs(g, facts, identify, n, ids, p.cacheRef, CachePurpose);
    OriginGives(facts, p.cacheRef, CachePurpose, identify(NodeClaim(n, Lookup(NodesById(g.nodes), ids))), CACHED_CODE, r);
  }

  lemma {:induction false} InterpreterKind(g: SourceGraph, id: string)
    requires DistinctIds(g) && id in NodesById(g.nodes)
    ensures NodesById(g.nodes)[id].kind != Interpreter <==> exists m :: m in g.nodes && m.id == id && m.kind != Interpreter
  {
    ByIdFinds(g);
    assert NodesById(g.nodes)[id] in g.nodes;
  }

  lemma {:induction false} ArtifactGives(g: SourceGraph, facts: seq<VerifiedOriginFact>, identify: Identify, n: SourceNode, r: Reason)
    requires KnownHere(g, n) && UniqueFacts(facts) && n.provenance.Artifact?
    ensures Gives(NodeJudged(RepositoriesById(g.repositories), NodesById(g.nodes), FactMap(facts), identify, n), r,
                  NodeRefuted(g, facts, identify, n, r), NodeOpen(facts, n, r))
  {
    var p := n.provenance;
    var ids := p.sources + p.dependencies + [p.interpreter];
    assert ids == RelatedIds(p) && p.interpreter in ids;
    InterpreterKind(g, p.interpreter);
    NodeMistakenIs(g, facts, identify, n, ids, p.artifactRef, ArtifactPurpose);
    OriginGives(facts, p.artifactRef, ArtifactPurpose, identify(NodeClaim(n, Lookup(NodesById(g.nodes), ids))), RUNTIME_PROVENANCE, r);
  }

  lemma {:induction false} NodeGives(g: SourceGraph, facts: seq<VerifiedOriginFact>, identify: Identify, n: SourceNode, r: Reason)
    requires KnownHere(g, n) && UniqueFacts(facts)
    ensures Gives(NodeJudged(RepositoriesById(g.repositories), NodesById(g.nodes), FactMap(facts), identify, n), r,
                  NodeRefuted(g, facts, identify, n, r), NodeOpen(facts, n, r))
  {
    match n.provenance {
      case Git(_, _, _, _, _, _, _, _, _) =>
        GitGives(g, facts, identify, n, r);
      case Generated(_, _, _, _, _, _, _) => GeneratedGives(g, facts, identify, n, r);
      case Cached(_, _, _, _, _) => CachedGives(g, facts, identify, n, r);
      case Artifact(_, _, _, _, _, _, _, _, _) => ArtifactGives(g, facts, identify, n, r);
    }
  }

  lemma {:induction false} NodesGive(g: SourceGraph, facts: seq<VerifiedOriginFact>, identify: Identify, r: Reason)
    requires GraphOk(g) && UniqueFacts(facts)
    ensures Gives(Over(Elements(g.nodes), n => NodeJudged(RepositoriesById(g.repositories), NodesById(g.nodes), FactMap(facts), identify, n)), r,
                  exists n :: n in g.nodes && NodeRefuted(g, facts, identify, n, r), exists n :: n in g.nodes && NodeOpen(facts, n, r))
  {
    var judge := (n: SourceNode) => NodeJudged(RepositoriesById(g.repositories), NodesById(g.nodes), FactMap(facts), identify, n);
    OverGives(g.nodes, judge, r);
    forall n | n in g.nodes ensures Gives(judge(n), r, NodeRefuted(g, facts, identify, n, r), NodeOpen(facts, n, r)) {
      RelatedKnown(g, n);
      NodeGives(g, facts, identify, n, r);
    }
  }

  lemma {:induction false} EdgesGive(g: SourceGraph, facts: seq<VerifiedOriginFact>, identify: Identify, r: Reason)
    requires UniqueFacts(facts)
    ensures Gives(Over(Elements(g.edges), e => EdgeJudged(FactMap(facts), identify, e)), r,
                  r == COVERAGE_GAP && exists e :: e in g.edges && Mistaken(facts, e.conditionRef, Condition, identify(EdgeClaim(e))),
                  r == COVERAGE_GAP && exists e :: e in g.edges && e.conditionRef.Some? && Unverified(facts, e.conditionRef, Condition))
  {
    var judge := (e: SourceEdge) => EdgeJudged(FactMap(facts), identify, e);
    OverGives(g.edges, judge, r);
    forall e ensures Gives(judge(e), r, r == COVERAGE_GAP && Mistaken(facts, e.conditionRef, Condition, identify(EdgeClaim(e))),
                           r == COVERAGE_GAP && e.conditionRef.Some? && Unverified(facts, e.conditionRef, Condition))
    {
      OriginGives(facts, e.conditionRef, Condition, identify(EdgeClaim(e)), COVERAGE_GAP, r);
    }
  }

  lemma {:induction false} PoliciesGive(g: SourceGraph, facts: seq<VerifiedOriginFact>, identify: Identify, r: Reason)
    requires UniqueFacts(facts)
    ensures Gives(Over(Elements(g.processProfiles), p => PolicyJudged(FactMap(facts), identify, p)), r,
                  r == COVERAGE_GAP && exists p :: p in g.processProfiles && Mistaken(facts, Some(p.loadPolicyRef), Policy, identify(ProfileClaim(p))),
                  r == COVERAGE_GAP && exists p :: p in g.processProfiles && Unverified(facts, Some(p.loadPolicyRef), Policy))
  {
    var judge := (p: ProcessProfile) => PolicyJudged(FactMap(facts), identify, p);
    OverGives(g.processProfiles, judge, r);
    forall p ensures Gives(judge(p), r, r == COVERAGE_GAP && Mistaken(facts, Some(p.loadPolicyRef), Policy, identify(ProfileClaim(p))),
                           r == COVERAGE_GAP && Unverified(facts, Some(p.loadPolicyRef), Policy))
    {
      OriginGives(facts, Some(p.loadPolicyRef), Policy, identify(ProfileClaim(p)), COVERAGE_GAP, r);
    }
  }

  lemma {:induction false} GraphGives(g: SourceGraph, facts: seq<VerifiedOriginFact>, identify: Identify, r: Reason)
    requires GraphOk(g) && UniqueFacts(facts)
    ensures Gives(ProvenanceJudged(g, FactMap(facts), identify), r, GraphRefuted(g, facts, identify, r), GraphOpen(g, facts, r))
  {
    NodesGive(g, facts, identify, r);
    EdgesGive(g, facts, identify, r);
    PoliciesGive(g, facts, identify, r);
  }

  // -- the documents

  lemma {:induction false} MappingGives(g: SourceGraph, facts: seq<VerifiedOriginFact>, identify: Identify, m: LegacyNodeLink, r: Reason)
    requires DistinctIds(g) && UniqueFacts(facts)
    ensures Gives(MappingJudged(NodesById(g.nodes), FactMap(facts), identify, m), r, MappingRefuted(g, facts, identify, m, r),
                  r == REVIEW_ORIGIN && Unverified(facts, Some(m.provenanceRef), Legacy))
  {
    ByIdFinds(g);
    var node := MappedNode(NodesById(g.nodes), m);
    OriginGives(facts, Some(m.provenanceRef), Legacy, identify(LegacyNodeClaim(m, node)), REVIEW_ORIGIN, r);
    if node.Some? {
      assert node.value in g.nodes && node.value.id == m.graphNodeId;
      forall n | n in g.nodes && n.id == m.graphNodeId ensures n == node.value {}
    } else {
      forall n | n in g.nodes ensures n.id != m.graphNodeId {}
    }
  }

  lemma {:induction false} LinkGives(g: SourceGraph, facts: seq<VerifiedOriginFact>, identify: Identify, link: LegacyLink, r: Reason)
    requires DistinctIds(g) && UniqueFacts(facts)
    ensures Gives(LinkJudged(NodesById(g.nodes), FactMap(facts), identify, link), r, LinkRefuted(g, facts, identify, link, r),
                  r == REVIEW_ORIGIN && LinkOpen(facts, link))
  {
    var judge := (m: LegacyNodeLink) => MappingJudged(NodesById(g.nodes), FactMap(facts), identify, m);
    OriginGives(facts, Some(link.legacyRef), Legacy, identify(LegacyLinkClaim(link)), REVIEW_ORIGIN, r);
    OverGives(link.nodeMap, judge, r);
    forall m ensures Gives(judge(m), r, MappingRefuted(g, facts, identify, m, r), r == REVIEW_ORIGIN && Unverified(facts, Some(m.provenanceRef), Legacy)) {
      MappingGives(g, facts, identify, m, r);
    }
  }

  lemma {:induction false} LegacyGives(c: Case, facts: seq<VerifiedOriginFact>, identify: Identify, r: Reason)
    requires DistinctIds(c.reviewed.graph) && UniqueFacts(facts)
    ensures var links := c.observed.envelope.legacyLinks;
            Gives(LegacyJudged(c, FactMap(facts), identify), r,
                  (r == REVIEW_ORIGIN && links != c.expected.legacyLinks)
                  || exists link :: link in links && LinkRefuted(c.reviewed.graph, facts, identify, link, r),
                  r == REVIEW_ORIGIN && exists link :: link in links && LinkOpen(facts, link))
  {
    var g, links := c.reviewed.graph, c.observed.envelope.legacyLinks;
    var judge := (link: LegacyLink) => LinkJudged(NodesById(g.nodes), FactMap(facts), identify, link);
    OverGives(links, judge, r);
    forall link ensures Gives(judge(link), r, LinkRefuted(g, facts, identify, link, r), r == REVIEW_ORIGIN && LinkOpen(facts, link)) {
      LinkGives(g, facts, identify, link, r);
    }
  }

  /** The identities of the documents, and what the review says of the graph. */
  ghost predicate IdentitiesRefuted(c: Case, v: VerifiedClosureOrigins, identify: Identify, r: Reason) {
    var g, x, want := c.reviewed.graph, c.observed.envelope, c.expected;
    || (r == REVIEW_ORIGIN && (c.reviewed.content != identify(GraphClaim(g)) || Supplies(v.reviewedBytes, identify(GraphClaim(g)))))
    || (r == OBSERVER_ORIGIN && (c.observed.content != identify(EnvelopeClaim(x)) || Supplies(v.observedBytes, identify(EnvelopeClaim(x)))))
    || (r == BINDING && Supplies(v.expectation, identify(ExpectationClaim(want))))
  }

  ghost predicate IdentitiesOpen(c: Case, v: VerifiedClosureOrigins, r: Reason) {
    || (r == REVIEW_ORIGIN && v.reviewedBytes.None?) || (r == OBSERVER_ORIGIN && v.observedBytes.None?)
    || (r == BINDING && v.expectation.None?)
    || (r == STALE_FRONTIER && v.validityCheckpoint != Some(c.expected.boundary.validityCheckpoint))
  }

  lemma {:induction false} IdentitiesGive(c: Case, v: VerifiedClosureOrigins, identify: Identify, r: Reason)
    ensures Gives(Plus(ContentJudged(c, identify), InputsJudged(c, v, identify)), r, IdentitiesRefuted(c, v, identify, r), IdentitiesOpen(c, v, r))
  {
  }

  ghost predicate ReviewRefuted(c: Case, facts: seq<VerifiedOriginFact>, identify: Identify, r: Reason) {
    var g, x, want := c.reviewed.graph, c.observed.envelope, c.expected;
    || (r == REVIEW_ORIGIN &&
        (|| x.reviewedGraph != want.reviewedGraph || x.reviewedGraph.content != identify(GraphClaim(g))
         || (g.completenessReviewRef.Some? && g.completenessReviewRef.value != want.reviewRef)
         || Mistaken(facts, g.completenessReviewRef, Review, identify(GraphClaim(g)))))
    || (r == BINDING && (x.binding != want.binding || x.boundary != want.boundary))
  }

  lemma {:induction false} ReviewGives(c: Case, facts: seq<VerifiedOriginFact>, identify: Identify, r: Reason)
    requires UniqueFacts(facts)
    ensures Gives(ReviewJudged(c, FactMap(facts), identify), r, ReviewRefuted(c, facts, identify, r),
                  || (r == REVIEW_ORIGIN && Unverified(facts, c.reviewed.graph.completenessReviewRef, Review))
                  || (r == COVERAGE_GAP && c.reviewed.graph.completenessReviewRef.None?))
  {
    OriginGives(facts, c.reviewed.graph.completenessReviewRef, Review, identify(GraphClaim(c.reviewed.graph)), REVIEW_ORIGIN, r);
  }

  lemma {:induction false} DocumentsGive(c: Case, v: VerifiedClosureOrigins, identify: Identify, r: Reason)
    requires GraphOk(c.reviewed.graph) && UniqueFacts(v.facts)
    ensures Gives(DocumentsJudged(c, v, identify), r, DocumentsRefuted(c, v, identify, r), DocumentsOpen(c, v, r))
  {
    IdentitiesGive(c, v, identify, r);
    ReviewGives(c, v.facts, identify, r);
    GraphGives(c.reviewed.graph, v.facts, identify, r);
    LegacyGives(c, v.facts, identify, r);
  }

  // -- the roster

  lemma {:induction false} KeysAre(c: Case, id: string)
    ensures id in RequiredBy(c.expected.processes) <==> IsExpected(c, id)
    ensures id in ActualBy(c.observed.envelope.processObservations) <==> IsObserved(c, id)
  {
  }

  lemma {:induction false} TwiceObserved(c: Case)
    ensures |ActualBy(c.observed.envelope.processObservations)| != |c.observed.envelope.processObservations| <==>
            SeenTwice(c.observed.envelope.processObservations)
  {
    var processes := c.observed.envelope.processObservations;
    ActualCounts(processes);
    var ids := ObservedIds(processes);
    if !NoDuplicates(ids) {
      var i, j :| 0 <= i < j < |ids| && ids[i] == ids[j];
      assert processes[i].instance.instanceId == processes[j].instance.instanceId;
    } else {
      forall i, j | 0 <= i < j < |processes| ensures processes[i].instance.instanceId != processes[j].instance.instanceId {
        assert ids[i] != ids[j];
      }
    }
  }

  lemma {:induction false} AbsentIs(c: Case, q: ExpectedProcess)
    ensures Absent(c, q) ==> q.instance.instanceId in RequiredBy(c.expected.processes).Keys - ActualBy(c.observed.envelope.processObservations).Keys
  {
    KeysAre(c, q.instance.instanceId);
  }

  lemma {:induction false} MissingIs(c: Case, id: string)
    requires UniqueProcesses(c.expected.processes)
    requires id in RequiredBy(c.expected.processes).Keys - ActualBy(c.observed.envelope.processObservations).Keys
    ensures Absent(c, RequiredBy(c.expected.processes)[id])
    ensures forall q :: q in c.expected.processes && q.instance.instanceId == id ==> q == RequiredBy(c.expected.processes)[id]
  {
    KeysAre(c, id);
    forall q | q in c.expected.processes && q.instance.instanceId == id ensures q == RequiredBy(c.expected.processes)[id] {
      RequiredFinds(c.expected.processes, q);
    }
  }

  lemma {:induction false} RequiredFinds(processes: seq<ExpectedProcess>, q: ExpectedProcess)
    requires UniqueProcesses(processes) && q in processes
    ensures RequiredBy(processes)[q.instance.instanceId] == q
  {
    var other := RequiredBy(processes)[q.instance.instanceId];
    var i :| 0 <= i < |processes| && processes[i] == q;
    var j :| 0 <= j < |processes| && processes[j] == other;
    assert i == j;
  }

  lemma {:induction false} MissingAre(c: Case)
    requires UniqueProcesses(c.expected.processes)
    ensures var required, actual := RequiredBy(c.expected.processes), ActualBy(c.observed.envelope.processObservations);
            var missing := required.Keys - actual.Keys;
            && (forall id :: id in missing ==> Absent(c, required[id]))
            && (forall q :: Absent(c, q) ==> q.instance.instanceId in missing && required[q.instance.instanceId] == q)
  {
    var required, actual := RequiredBy(c.expected.processes), ActualBy(c.observed.envelope.processObservations);
    var missing := required.Keys - actual.Keys;
    forall id | id in missing ensures Absent(c, required[id]) { MissingIs(c, id); }
    forall q | Absent(c, q) ensures q.instance.instanceId in missing && required[q.instance.instanceId] == q {
      AbsentIs(c, q);
      RequiredFinds(c.expected.processes, q);
    }
  }

  lemma {:induction false} MissingChild(c: Case)
    requires UniqueProcesses(c.expected.processes)
    ensures var required, actual := RequiredBy(c.expected.processes), ActualBy(c.observed.envelope.processObservations);
            var missing := required.Keys - actual.Keys;
            (missing != {} <==> AnyAbsent(c)) && (MissesChild(required, missing) <==> ChildAbsent(c))
  {
    MissingAre(c);
    var required, actual := RequiredBy(c.expected.processes), ActualBy(c.observed.envelope.processObservations);
    var missing := required.Keys - actual.Keys;
    if missing != {} {
      var id :| id in missing;
      assert Absent(c, required[id]);
    }
    if MissesChild(required, missing) {
      var k :| k in missing && k in required && required[k].instance.parentInstance.Some?;
      assert Absent(c, required[k]);
    }
  }

  lemma {:induction false} MissingGives(c: Case, r: Reason)
    requires UniqueProcesses(c.expected.processes)
    ensures var required, actual := RequiredBy(c.expected.processes), ActualBy(c.observed.envelope.processObservations);
            Gives(MissingJudged(required, required.Keys - actual.Keys), r, false,
                  MissingOpen(c, r))
  {
    MissingChild(c);
  }

  lemma {:induction false} ExtraIs(c: Case)
    ensures ActualBy(c.observed.envelope.processObservations).Keys - RequiredBy(c.expected.processes).Keys != {} <==>
            SeenUnexpected(c)
  {
    var actual := ActualBy(c.observed.envelope.processObservations);
    forall id ensures id in actual.Keys - RequiredBy(c.expected.processes).Keys <==> IsObserved(c, id) && !IsExpected(c, id) { KeysAre(c, id); }
    if p :| p in c.observed.envelope.processObservations && !IsExpected(c, p.instance.instanceId) {
      assert p.instance.instanceId in actual.Keys - RequiredBy(c.expected.processes).Keys;
    }
    if id :| id in actual.Keys - RequiredBy(c.expected.processes).Keys { assert IsObserved(c, id); }
  }

  lemma {:induction false} HalfIs(g: SourceGraph, profileId: string, location: Location, host: bool)
    requires DistinctIds(g)
    ensures InHalf(ProfilesById(g.processProfiles), profileId, location, if host then Host else Container) <==> OfHalf(g, profileId, location, host)
  {
    ByIdFinds(g);
    if profileId in ProfilesById(g.processProfiles) { assert ProfilesById(g.processProfiles)[profileId] in g.processProfiles; }
  }

  lemma {:induction false} HalfSeenIs(c: Case, host: bool)
    requires DistinctIds(c.reviewed.graph)
    ensures HasHalf(c, if host then Host else Container) <==> HalfSeen(c, host)
  {
    var g, half := c.reviewed.graph, if host then Host else Container;
    forall q | q in c.expected.processes
      ensures InHalf(ProfilesById(g.processProfiles), q.profileId, q.instance.location, half) <==> OfHalf(g, q.profileId, q.instance.location, host)
    {
      HalfIs(g, q.profileId, q.instance.location, host);
    }
    forall p | p in c.observed.envelope.processObservations
      ensures InHalf(ProfilesById(g.processProfiles), p.profileId, p.instance.location, half) <==> OfHalf(g, p.profileId, p.instance.location, host)
    {
      HalfIs(g, p.profileId, p.instance.location, host);
    }
  }

  lemma {:induction false} HalvesGive(c: Case, r: Reason)
    requires DistinctIds(c.reviewed.graph)
    ensures Gives(HalvesJudged(c), r, false,
                  r == COVERAGE_GAP && c.observed.envelope.boundary.phase in {BPreRequest, CPreRequest, CPreExecution, CBeforeCount}
                  && !(HalfSeen(c, true) && HalfSeen(c, false)))
  {
    HalfSeenIs(c, true);
    HalfSeenIs(c, false);
    assert HasHalf(c, Host) && HasHalf(c, Container) <==> HalfSeen(c, true) && HalfSeen(c, false);
    var phase := c.observed.envelope.boundary.phase;
    match phase { case APreCreate => case APreArm => case _ => }
  }

  lemma {:induction false} NoneExpected(c: Case)
    ensures RequiredBy(c.expected.processes) == map[] <==> c.expected.processes == []
  {
    if c.expected.processes != [] { assert c.expected.processes[0] in c.expected.processes; }
  }

  lemma {:induction false} CensusParts(required: map<string, ExpectedProcess>, actual: map<string, ProcessObservation>, n: nat, r: Reason,
                                       twice: bool, extra: bool, none: bool, open: bool)
    requires (twice <==> |actual| != n) && (extra <==> actual.Keys - required.Keys != {}) && (none <==> required == map[])
    requires Gives(MissingJudged(required, required.Keys - actual.Keys), r, false, open)
    ensures Gives(CensusJudged(required, actual, n), r, r == PROCESS_INSTANCE && (twice || extra), (r == COVERAGE_GAP && none) || open)
  {
  }

  lemma {:induction false} CensusGives(c: Case, r: Reason)
    requires UniqueProcesses(c.expected.processes)
    ensures Gives(CensusJudged(RequiredBy(c.expected.processes), ActualBy(c.observed.envelope.processObservations),
                               |c.observed.envelope.processObservations|), r, RosterRefuted(c, r),
                  (r == COVERAGE_GAP && c.expected.processes == []) || MissingOpen(c, r))
  {
    TwiceObserved(c);
    MissingGives(c, r);
    ExtraIs(c);
    NoneExpected(c);
    CensusParts(RequiredBy(c.expected.processes), ActualBy(c.observed.envelope.processObservations), |c.observed.envelope.processObservations|, r,
                SeenTwice(c.observed.envelope.processObservations), SeenUnexpected(c), c.expected.processes == [], MissingOpen(c, r));
  }

  lemma {:induction false} PlusGives(a: Judgement, b: Judgement, r: Reason, ra: bool, oa: bool, rb: bool, ob: bool)
    requires Gives(a, r, ra, oa) && Gives(b, r, rb, ob)
    ensures Gives(Plus(a, b), r, ra || rb, oa || ob)
  {
  }

  lemma {:induction false} RosterGives(c: Case, r: Reason)
    requires DistinctIds(c.reviewed.graph) && UniqueProcesses(c.expected.processes)
    ensures Gives(RosterJudged(c), r, RosterRefuted(c, r), RosterOpen(c, r))
  {
    CensusGives(c, r);
    HalvesGive(c, r);
  }

  // -- one process: who it is

  lemma {:induction false} ProfileIs(g: SourceGraph, q: ExpectedProcess, f: ProcessProfile)
    requires DistinctIds(g)
    ensures RunsAs(g, q, f) <==> FindProfile(g.processProfiles, q.profileId) == Some(f)
  {
    if RunsAs(g, q, f) {
      var found := FindProfile(g.processProfiles, q.profileId).value;
      var i :| 0 <= i < |g.processProfiles| && g.processProfiles[i] == f;
      var j :| 0 <= j < |g.processProfiles| && g.processProfiles[j] == found;
    }
  }

  ghost predicate IdentityRefuted(c: Case, p: ProcessObservation, q: ExpectedProcess, r: Reason) {
    || (r == PROCESS_INSTANCE && (p.instance != q.instance || p.profileId != q.profileId))
    || (r == BINDING && (p.binding != c.observed.envelope.binding || p.graphId != c.reviewed.graph.graphId))
  }

  lemma {:induction false} IdentityGives(c: Case, p: ProcessObservation, q: ExpectedProcess, r: Reason)
    ensures Gives(IdentityJudged(p, q, c.reviewed.graph, c.observed.envelope), r, IdentityRefuted(c, p, q, r), false)
  {
  }

  ghost predicate RoleRefuted(g: SourceGraph, p: ProcessObservation, q: ExpectedProcess, r: Reason) {
    || (r == PROCESS_INSTANCE && forall f :: !RunsAs(g, q, f))
    || (exists f :: RunsAs(g, q, f) && ProfileRefuted(p, f, r))
  }

  lemma {:induction false} OneProfileGives(p: ProcessObservation, f: ProcessProfile, r: Reason)
    ensures Gives(ProfileJudged(p, Some(f)), r, ProfileRefuted(p, f, r), false)
  {
  }

  lemma {:induction false} RoleGives(g: SourceGraph, p: ProcessObservation, q: ExpectedProcess, r: Reason)
    requires DistinctIds(g)
    ensures Gives(ProfileJudged(p, FindProfile(g.processProfiles, q.profileId)), r, RoleRefuted(g, p, q, r), false)
  {
    var found := FindProfile(g.processProfiles, q.profileId);
    forall f ensures RunsAs(g, q, f) <==> found == Some(f) { ProfileIs(g, q, f); }
    if found.Some? {
      assert RunsAs(g, q, found.value);
      OneProfileGives(p, found.value, r);
    }
  }

  ghost predicate WitnessRefuted(facts: seq<VerifiedOriginFact>, identify: Identify, p: ProcessObservation, r: Reason) {
    || (r == PROCESS_INSTANCE && Mistaken(facts, p.processRef, ProcessPurpose, identify(ProcessOf(p))))
    || (r == OBSERVER_ORIGIN &&
        (|| Mistaken(facts, p.collectorRef, Collector, identify(CollectorClaim(CollectorOf(p))))
         || Mistaken(facts, p.checkpoint.checkpointRef, CheckpointPurpose, identify(CheckpointOf(p)))))
    || (r == COVERAGE_GAP && Mistaken(facts, p.checkpoint.initialStateRef, Collector, identify(InitialClaim(CollectorOf(p)))))
  }

  ghost predicate WitnessOpen(facts: seq<VerifiedOriginFact>, p: ProcessObservation, r: Reason) {
    || (r == PROCESS_INSTANCE && Unverified(facts, p.processRef, ProcessPurpose))
    || (r == OBSERVER_ORIGIN && (Unverified(facts, p.collectorRef, Collector) || Unverified(facts, p.checkpoint.checkpointRef, CheckpointPurpose)))
    || (r == COVERAGE_GAP && Unverified(facts, p.checkpoint.initialStateRef, Collector))
  }

  lemma {:induction false} WitnessGives(facts: seq<VerifiedOriginFact>, identify: Identify, p: ProcessObservation, r: Reason)
    requires UniqueFacts(facts)
    ensures Gives(OriginsJudged(p, FactMap(facts), identify), r, WitnessRefuted(facts, identify, p, r), WitnessOpen(facts, p, r))
  {
    assert ProcessOf(p) == ProcessClaim(ProcessIdOf(p)) && CollectorOf(p) == CollectorIdOf(p);
    OriginGives(facts, p.processRef, ProcessPurpose, identify(ProcessOf(p)), PROCESS_INSTANCE, r);
    OriginGives(facts, p.collectorRef, Collector, identify(CollectorClaim(CollectorOf(p))), OBSERVER_ORIGIN, r);
    OriginGives(facts, p.checkpoint.initialStateRef, Collector, identify(InitialClaim(CollectorOf(p))), COVERAGE_GAP, r);
    OriginGives(facts, p.checkpoint.checkpointRef, CheckpointPurpose, identify(CheckpointOf(p)), OBSERVER_ORIGIN, r);
  }

  // -- one process: its checkpoint and its history

  ghost predicate Unsealed(p: ProcessObservation, q: ExpectedProcess) {
    var cp := p.checkpoint;
    || !cp.sealed || cp.lossCount > 0 || cp.gaps != []
    || (exists k :: k in q.coverage && k !in cp.coverage) || (exists k :: k !in cp.coverage || k !in q.coverage)
  }

  lemma {:induction false} AllKinds(k: Coverage)
    ensures k in ALL_COVERAGE
  {
    match k {
      case Launch => case BootstrapCoverage => case Python => case GeneratedCoverage => case CacheCoverage => case Native =>
      case Dynamic => case Children => case ControlPlane => case EffectFence =>
    }
  }

  lemma {:induction false} SealedIs(p: ProcessObservation, q: ExpectedProcess)
    ensures Covered(p, q) <==> !Unsealed(p, q)
  {
    forall k: Coverage ensures k in ALL_COVERAGE { AllKinds(k); }
  }

  lemma {:induction false} FrontierIs(p: ProcessObservation, q: ExpectedProcess)
    ensures FrontierOf(p) != Some(q.frontier) <==> FrontierMoved(p, q)
  {
  }

  lemma {:induction false} CheckpointGives(c: Case, p: ProcessObservation, q: ExpectedProcess, r: Reason)
    ensures Gives(CheckpointJudged(p, q, c.observed.envelope), r, false,
                  || (r == STALE_FRONTIER && (FrontierMoved(p, q) || p.checkpoint.boundary != c.observed.envelope.boundary))
                  || (r == COVERAGE_GAP && Unsealed(p, q)))
  {
    SealedIs(p, q);
    FrontierIs(p, q);
  }

  lemma {:induction false} NumberedIs(p: ProcessObservation)
    ensures SequenceWhole(p) <==> !Misnumbered(p)
  {
  }

  lemma {:induction false} ClashIs(p: ProcessObservation)
    ensures AnyClash(p.events, |p.events|) <==> EventsClash(p)
  {
    ClashesAreExact(p.events);
    if Contradictory(p.events) {
      var i, j :| 0 <= j < i < |p.events| && Shares(p.events, j, i) && p.events[j] != p.events[i];
      assert SameKey(p.events, false, j, i) || SameKey(p.events, true, j, i);
    }
    if EventsClash(p) {
      var i, j :| 0 <= i < j < |p.events| && p.events[i] != p.events[j]
        && (p.events[i].sequence == p.events[j].sequence || p.events[i].eventId == p.events[j].eventId);
      assert SameKey(p.events, false, i, j) || SameKey(p.events, true, i, j);
      assert Shares(p.events, i, j);
    }
  }

  /** An identical repeat is misnumbered, so it adds no gap of its own. */
  lemma {:induction false} RepeatMisnumbered(p: ProcessObservation)
    requires AnyRepeat(p.events, |p.events|)
    ensures Misnumbered(p)
  {
    var i :| 0 <= i < |p.events| && RepeatAt(p.events, i);
    var j :| 0 <= j < i && Shares(p.events, j, i);
    if p.events[i].sequence != p.events[j].sequence || p.events[i] == p.events[j] {
      if p.events[i] != p.events[j] { ClashAtSome(p, j, i); }
    }
  }

  /** A repeat that is no clash equals some earlier event. */
  lemma {:induction false} ClashAtSome(p: ProcessObservation, j: int, i: int)
    requires 0 <= j < i < |p.events| && Shares(p.events, j, i) && p.events[i] != p.events[j] && !ClashAt(p.events, i)
    ensures Misnumbered(p)
  {
    var byId := !SameKey(p.events, false, j, i);
    var l := LatestOf(p.events, byId, j, i);
    assert p.events[l] == p.events[i];
  }

  lemma {:induction false} LatestOf(events: seq<LoadEvent>, byId: bool, j: int, i: int) returns (l: int)
    requires 0 <= j < i < |events| && SameKey(events, byId, j, i)
    ensures j <= l < i && Latest(events, byId, l, i)
  {
    l := i - 1;
    while !SameKey(events, byId, l, i)
      invariant j <= l < i
      invariant forall k :: l < k < i ==> !SameKey(events, byId, k, i)
      decreases l
    {
      l := l - 1;
    }
  }

  lemma {:induction false} SequenceGives(p: ProcessObservation, r: Reason)
    ensures Gives(Plus(SequenceJudged(p), RepeatsJudged(p.events)), r, r == SEQUENCE_GAP && EventsClash(p),
                  || (r == SEQUENCE_GAP && Misnumbered(p))
                  || (r == STALE_FRONTIER && p.events != [] && p.checkpoint.lastEventId != p.events[|p.events| - 1].eventId))
  {
    NumberedIs(p);
    ClashIs(p);
    if AnyRepeat(p.events, |p.events|) { RepeatMisnumbered(p); }
  }

  lemma {:induction false} EndIs(p: ProcessObservation)
    ensures EndMisplaced(p) <==> EndsBadly(p)
  {
    if EndsAt(p.events, |p.events| - 1) {
      var i :| 0 <= i < |p.events| - 1 && p.events[i].kind == End;
    }
    if EndsAt(p.events, |p.events|) {
      var i :| 0 <= i < |p.events| && p.events[i].kind == End;
    }
    if EndsBadly(p) {
      var i :| 0 <= i < |p.events| && p.events[i].kind == End && (i < |p.events| - 1 || p.state == Running);
    }
  }

  ghost predicate StartsBadly(p: ProcessObservation) {
    p.events == [] || p.events[0].kind != Start || (p.state == Terminated && p.events[|p.events| - 1].kind != End)
  }

  lemma {:induction false} KindsGive(p: ProcessObservation, r: Reason)
    ensures Gives(KindsJudged(p), r, r == PROCESS_INSTANCE && EndsBadly(p),
                  || (r == COVERAGE_GAP && StartsBadly(p))
                  || (r == PROCESS_INSTANCE && exists i :: 1 <= i < |p.events| && (p.events[i].kind == Start || p.events[i].kind == Exec)))
  {
    EndIs(p);
    assert Unopened(p) <==> StartsBadly(p);
    assert Restarted(p.events) <==> exists i :: 1 <= i < |p.events| && (p.events[i].kind == Start || p.events[i].kind == Exec) by {
      if Restarted(p.events) {
        var i :| 1 <= i < |p.events| && p.events[i].kind in {Start, Exec};
      }
    }
  }

  // -- one process: its loads and children

  lemma {:induction false} LoadsIs(g: SourceGraph, q: ExpectedProcess, e: LoadEvent, n: SourceNode)
    requires DistinctIds(g)
    ensures LoadsReviewed(g, q, e, n) <==>
            e.nodeId.Some? && Reviewed(NodesById(g.nodes), FindProfile(g.processProfiles, q.profileId), e.nodeId.value)
            && n == NodesById(g.nodes)[e.nodeId.value]
  {
    ByIdFinds(g);
    var found := FindProfile(g.processProfiles, q.profileId);
    forall f ensures RunsAs(g, q, f) <==> found == Some(f) { ProfileIs(g, q, f); }
    if e.nodeId.Some? && e.nodeId.value in NodesById(g.nodes) {
      assert NodesById(g.nodes)[e.nodeId.value] in g.nodes;
    }
  }

  lemma {:induction false} OneLoadGives(n: SourceNode, e: LoadEvent, r: Reason)
    ensures Gives(LoadJudged(n, e), r,
                  || (r == BYTE_SUBSTITUTION && Substituted(n, e)) || (r == CACHED_CODE && Substituted(n, e) && n.kind == CachedCode)
                  || (r == RUNTIME_PROVENANCE && FormDiffers(n, e)),
                  r == RUNTIME_PROVENANCE && e.representation != Bytes && (FormDiffers(n, e) || !n.provenance.Artifact?))
  {
    assert e.loaded != Some(ExecutedContent(n)) <==> Substituted(n, e);
  }

  ghost predicate LoadRefuted(g: SourceGraph, q: ExpectedProcess, e: LoadEvent, r: Reason) {
    || (r == UNREVIEWED_LOAD && e.nodeId.Some? && forall n :: !LoadsReviewed(g, q, e, n))
    || (r == BYTE_SUBSTITUTION && exists n :: LoadsReviewed(g, q, e, n) && Substituted(n, e))
    || (r == CACHED_CODE && exists n :: LoadsReviewed(g, q, e, n) && Substituted(n, e) && n.kind == CachedCode)
    || (r == RUNTIME_PROVENANCE && exists n :: LoadsReviewed(g, q, e, n) && FormDiffers(n, e))
  }

  ghost predicate LoadOpen(g: SourceGraph, q: ExpectedProcess, e: LoadEvent, r: Reason) {
    r == RUNTIME_PROVENANCE && e.representation != Bytes && exists n :: LoadsReviewed(g, q, e, n) && (FormDiffers(n, e) || !n.provenance.Artifact?)
  }

  ghost function LoadPart(nodes: map<string, SourceNode>, profile: Option<ProcessProfile>, e: LoadEvent): Judgement {
    if e.nodeId.None? then CLEAR
    else if !Reviewed(nodes, profile, e.nodeId.value) then Contradicts(true, UNREVIEWED_LOAD)
    else LoadJudged(nodes[e.nodeId.value], e)
  }

  lemma {:induction false} OnlyLoad(g: SourceGraph, q: ExpectedProcess, e: LoadEvent, only: SourceNode, r: Reason)
    requires forall n :: LoadsReviewed(g, q, e, n) <==> n == only
    ensures LoadRefuted(g, q, e, r) <==>
            || (r == BYTE_SUBSTITUTION && Substituted(only, e)) || (r == CACHED_CODE && Substituted(only, e) && only.kind == CachedCode)
            || (r == RUNTIME_PROVENANCE && FormDiffers(only, e))
    ensures LoadOpen(g, q, e, r) <==> r == RUNTIME_PROVENANCE && e.representation != Bytes && (FormDiffers(only, e) || !only.provenance.Artifact?)
  {
    assert LoadsReviewed(g, q, e, only);
  }

  lemma {:induction false} LoadGives(g: SourceGraph, q: ExpectedProcess, e: LoadEvent, r: Reason)
    requires DistinctIds(g)
    ensures Gives(LoadPart(NodesById(g.nodes), FindProfile(g.processProfiles, q.profileId), e), r, LoadRefuted(g, q, e, r), LoadOpen(g, q, e, r))
  {
    var nodes, profile := NodesById(g.nodes), FindProfile(g.processProfiles, q.profileId);
    if e.nodeId.Some? && Reviewed(nodes, profile, e.nodeId.value) {
      var only := nodes[e.nodeId.value];
      forall n ensures LoadsReviewed(g, q, e, n) <==> n == only { LoadsIs(g, q, e, n); }
      OneLoadGives(only, e, r);
      OnlyLoad(g, q, e, only, r);
    } else {
      forall n ensures !LoadsReviewed(g, q, e, n) { LoadsIs(g, q, e, n); }
    }
  }

  lemma {:induction false} EventGives(g: SourceGraph, facts: seq<VerifiedOriginFact>, identify: Identify, p: ProcessObservation, q: ExpectedProcess,
                                      e: LoadEvent, r: Reason)
    requires DistinctIds(g) && UniqueFacts(facts)
    ensures Gives(EventJudged(NodesById(g.nodes), FindProfile(g.processProfiles, q.profileId), p, FactMap(facts), identify, e), r,
                  EventRefuted(g, facts, identify, p, q, e, r), EventOpen(g, facts, q, e, r))
  {
    assert EventOf(p, e) == EventClaim(ProcessIdOf(p), p.checkpoint.epoch, e);
    OriginGives(facts, e.originRef, Event, identify(EventOf(p, e)), OBSERVER_ORIGIN, r);
    LoadGives(g, q, e, r);
  }

  lemma {:induction false} EventsGive(g: SourceGraph, facts: seq<VerifiedOriginFact>, identify: Identify, p: ProcessObservation, q: ExpectedProcess, r: Reason)
    requires DistinctIds(g) && UniqueFacts(facts)
    ensures Gives(Over(Elements(p.events), e => EventJudged(NodesById(g.nodes), FindProfile(g.processProfiles, q.profileId), p, FactMap(facts), identify, e)), r,
                  exists e :: e in p.events && EventRefuted(g, facts, identify, p, q, e, r), exists e :: e in p.events && EventOpen(g, facts, q, e, r))
  {
    var judge := (e: LoadEvent) => EventJudged(NodesById(g.nodes), FindProfile(g.processProfiles, q.profileId), p, FactMap(facts), identify, e);
    OverGives(p.events, judge, r);
    forall e ensures Gives(judge(e), r, EventRefuted(g, facts, identify, p, q, e, r), EventOpen(g, facts, q, e, r)) {
      EventGives(g, facts, identify, p, q, e, r);
    }
  }

  lemma {:induction false} ChildrenGive(p: ProcessObservation, r: Reason)
    ensures Gives(ChildrenJudged(p), r, false, r == CHILD_COVERAGE && ChildrenUnannounced(p))
  {
    var frontier := set k | k in p.checkpoint.childFrontier;
    forall k ensures k in AnnouncedBy(p.events) <==> exists e :: e in p.events && e.childInstance == Some(k) {}
    if frontier != AnnouncedBy(p.events) {
      var k :| (k in frontier) != (k in AnnouncedBy(p.events));
      if k in AnnouncedBy(p.events) {
        var e :| e in p.events && e.childInstance == Some(k);
      }
    }
    if ChildrenUnannounced(p) {
      if k :| k in p.checkpoint.childFrontier && forall e :: e in p.events ==> e.childInstance != Some(k) {
        assert k in frontier && k !in AnnouncedBy(p.events);
      } else {
        var e :| e in p.events && e.childInstance.Some? && e.childInstance.value !in p.checkpoint.childFrontier;
        assert e.childInstance.value in AnnouncedBy(p.events);
      }
    }
  }

  // -- one process as a whole

  /** What contradicts about a process, its missing loads aside. */
  ghost predicate ObservationRefuted(c: Case, facts: seq<VerifiedOriginFact>, identify: Identify, p: ProcessObservation, q: ExpectedProcess, r: Reason) {
    var g := c.reviewed.graph;
    || IdentityRefuted(c, p, q, r) || RoleRefuted(g, p, q, r) || WitnessRefuted(facts, identify, p, r)
    || (r == SEQUENCE_GAP && EventsClash(p)) || (r == PROCESS_INSTANCE && EndsBadly(p))
    || exists e :: e in p.events && EventRefuted(g, facts, identify, p, q, e, r)
  }

  lemma {:induction false} EightGive(a: Judgement, b: Judgement, c: Judgement, d: Judgement, s: Judgement, t: Judgement, k: Judgement, e: Judgement,
                                     h: Judgement, r: Reason)
    ensures var j := Plus(Plus(Plus(a, b), Plus(c, d)), Plus(Plus(s, t), Plus(k, Plus(e, h))));
            && (r in j.contradictions <==> || r in a.contradictions || r in b.contradictions || r in c.contradictions || r in d.contradictions
                                           || r in Plus(s, t).contradictions || r in k.contradictions || r in e.contradictions || r in h.contradictions)
            && (r in j.gaps <==> || r in a.gaps || r in b.gaps || r in c.gaps || r in d.gaps || r in Plus(s, t).gaps || r in k.gaps || r in e.gaps || r in h.gaps)
  {
  }

  lemma {:induction false} OpenParts(c: Case, facts: seq<VerifiedOriginFact>, p: ProcessObservation, q: ExpectedProcess, r: Reason)
    ensures ObservationOpen(c, facts, p, q, r) <==>
            || WitnessOpen(facts, p, r)
            || (r == STALE_FRONTIER && (FrontierMoved(p, q) || p.checkpoint.boundary != c.observed.envelope.boundary))
            || (r == COVERAGE_GAP && Unsealed(p, q))
            || (r == SEQUENCE_GAP && Misnumbered(p))
            || (r == STALE_FRONTIER && p.events != [] && p.checkpoint.lastEventId != p.events[|p.events| - 1].eventId)
            || (r == COVERAGE_GAP && StartsBadly(p))
            || (r == PROCESS_INSTANCE && exists i :: 1 <= i < |p.events| && (p.events[i].kind == Start || p.events[i].kind == Exec))
            || (exists e :: e in p.events && EventOpen(c.reviewed.graph, facts, q, e, r))
            || (r == CHILD_COVERAGE && ChildrenUnannounced(p))
  {
    assert Uncovered(p, q) <==> Unsealed(p, q) || StartsBadly(p);
  }

  lemma {:induction false} ObservationGives(c: Case, facts: seq<VerifiedOriginFact>, identify: Identify, p: ProcessObservation, q: ExpectedProcess, r: Reason)
    requires DistinctIds(c.reviewed.graph) && UniqueFacts(facts)
    ensures Gives(ObservationJudged(p, q, c.reviewed.graph, c.observed.envelope, FactMap(facts), identify), r,
                  ObservationRefuted(c, facts, identify, p, q, r), ObservationOpen(c, facts, p, q, r))
  {
    var g := c.reviewed.graph;
    var profile, nodes := FindProfile(g.processProfiles, q.profileId), NodesById(g.nodes);
    var events := Over(Elements(p.events), e => EventJudged(nodes, profile, p, FactMap(facts), identify, e));
    EightGive(IdentityJudged(p, q, g, c.observed.envelope), ProfileJudged(p, profile), OriginsJudged(p, FactMap(facts), identify),
              CheckpointJudged(p, q, c.observed.envelope), SequenceJudged(p), RepeatsJudged(p.events), KindsJudged(p), events, ChildrenJudged(p), r);
    IdentityGives(c, p, q, r);
    RoleGives(g, p, q, r);
    WitnessGives(facts, identify, p, r);
    CheckpointGives(c, p, q, r);
    SequenceGives(p, r);
    KindsGive(p, r);
    EventsGive(g, facts, identify, p, q, r);
    ChildrenGive(p, r);
    OpenParts(c, facts, p, q, r);
  }

  lemma {:induction false} MandatoryIs(g: SourceGraph, f: ProcessProfile, id: string)
    requires DistinctIds(g)
    ensures IsMandatory(f, EntriesById(g.entrypoints), id) <==> MustLoad(g, f, id)
  {
    ByIdFinds(g);
    var entries := EntriesById(g.entrypoints);
    if k :| k in f.entrypointIds && k in entries && (id == entries[k].node || id in entries[k].bootstrapChain) {
      assert entries[k] in g.entrypoints && entries[k].id == k;
    }
  }

  lemma {:induction false} LoadsAre(p: ProcessObservation, id: string)
    ensures id in Loads(p.events) <==> exists e :: e in p.events && e.nodeId == Some(id)
  {
  }

  lemma {:induction false} MissingLoadIs(g: SourceGraph, p: ProcessObservation, q: ExpectedProcess)
    requires DistinctIds(g)
    ensures LoadsComplete(FindProfile(g.processProfiles, q.profileId), EntriesById(g.entrypoints), Loads(p.events)) <==> !LoadMissing(g, p, q)
  {
    var found := FindProfile(g.processProfiles, q.profileId);
    forall f ensures RunsAs(g, q, f) <==> found == Some(f) { ProfileIs(g, q, f); }
    forall id ensures id in Loads(p.events) <==> exists e :: e in p.events && e.nodeId == Some(id) { LoadsAre(p, id); }
    if found.Some? {
      forall id ensures IsMandatory(found.value, EntriesById(g.entrypoints), id) <==> MustLoad(g, found.value, id) { MandatoryIs(g, found.value, id); }
    }
  }

  lemma {:induction false} ExcusedIs(c: Case, facts: seq<VerifiedOriginFact>, identify: Identify, p: ProcessObservation, q: ExpectedProcess)
    requires DistinctIds(c.reviewed.graph) && UniqueFacts(facts)
    ensures Excused(c, facts, p, q) <==>
            ObservationJudged(p, q, c.reviewed.graph, c.observed.envelope, FactMap(facts), identify).gaps
              * {COVERAGE_GAP, SEQUENCE_GAP, OBSERVER_ORIGIN, STALE_FRONTIER} != {}
  {
    var base := ObservationJudged(p, q, c.reviewed.graph, c.observed.envelope, FactMap(facts), identify);
    ObservationGives(c, facts, identify, p, q, COVERAGE_GAP);
    ObservationGives(c, facts, identify, p, q, SEQUENCE_GAP);
    ObservationGives(c, facts, identify, p, q, OBSERVER_ORIGIN);
    ObservationGives(c, facts, identify, p, q, STALE_FRONTIER);
    FourMeet(base.gaps);
  }

  lemma {:induction false} FourMeet(gaps: set<Reason>)
    ensures gaps * {COVERAGE_GAP, SEQUENCE_GAP, OBSERVER_ORIGIN, STALE_FRONTIER} != {} <==>
            COVERAGE_GAP in gaps || SEQUENCE_GAP in gaps || OBSERVER_ORIGIN in gaps || STALE_FRONTIER in gaps
  {
    var four := {COVERAGE_GAP, SEQUENCE_GAP, OBSERVER_ORIGIN, STALE_FRONTIER};
    if r :| r in gaps * four { assert r in four; }
    assert forall r :: r in gaps && r in four ==> r in gaps * four;
  }

  lemma {:induction false} RefutedParts(c: Case, facts: seq<VerifiedOriginFact>, identify: Identify, p: ProcessObservation, q: ExpectedProcess, r: Reason)
    ensures ProcessRefuted(c, facts, identify, p, q, r) <==>
            ObservationRefuted(c, facts, identify, p, q, r) || (r == REQUIRED_LOAD && LoadMissing(c.reviewed.graph, p, q) && !Excused(c, facts, p, q))
  {
  }

  lemma {:induction false} ProcessGives(c: Case, facts: seq<VerifiedOriginFact>, identify: Identify, p: ProcessObservation, q: ExpectedProcess, r: Reason)
    requires DistinctIds(c.reviewed.graph) && UniqueFacts(facts)
    ensures Gives(ProcessJudged(p, q, c.reviewed.graph, c.observed.envelope, FactMap(facts), identify), r,
                  ProcessRefuted(c, facts, identify, p, q, r), ProcessOpen(c, facts, p, q, r))
  {
    ObservationGives(c, facts, identify, p, q, r);
    MissingLoadIs(c.reviewed.graph, p, q);
    ExcusedIs(c, facts, identify, p, q);
    RefutedParts(c, facts, identify, p, q, r);
  }

  // -- the tree

  /** The last observation of an instance is the one the comparator takes. */
  lemma {:induction false} CountsIs(c: Case, id: string, p: ProcessObservation)
    ensures CountsFor(c, id, p) <==>
            id in ActualBy(c.observed.envelope.processObservations) && ActualBy(c.observed.envelope.processObservations)[id] == p
  {
    var processes := c.observed.envelope.processObservations;
    var key := (x: ProcessObservation) => x.instance.instanceId;
    if CountsFor(c, id, p) {
      var i :| 0 <= i < |processes| && processes[i] == p && p.instance.instanceId == id
               && forall j :: i < j < |processes| ==> processes[j].instance.instanceId != id;
      LastByLast(processes, key, i);
    }
    if id in ActualBy(processes) {
      var k :| 0 <= k < |processes| && processes[k] == ActualBy(processes)[id];
      var i := LastOf(processes, id, k);
      LastByLast(processes, key, i);
    }
  }

  lemma {:induction false} LastOf(processes: seq<ProcessObservation>, id: string, k: nat) returns (i: nat)
    requires k < |processes| && processes[k].instance.instanceId == id
    ensures i < |processes| && processes[i].instance.instanceId == id && forall j :: i < j < |processes| ==> processes[j].instance.instanceId != id
  {
    i := |processes| - 1;
    while processes[i].instance.instanceId != id
      invariant k <= i < |processes|
      invariant forall j :: i < j < |processes| ==> processes[j].instance.instanceId != id
      decreases i
    {
      i := i - 1;
    }
  }

  /** The parent's profile, if there is one, does not permit the child's. */
  lemma {:induction false} BarredIs(c: Case, parent: ProcessObservation, child: string)
    requires DistinctIds(c.reviewed.graph)
    ensures var found := FindProfile(c.reviewed.graph.processProfiles, parent.profileId);
            (found.None? || child !in found.value.childProfiles) <==>
            forall f :: f in c.reviewed.graph.processProfiles && f.id == parent.profileId ==> child !in f.childProfiles
  {
    var q := ExpectedProcess(parent.profileId, parent.instance, ProcessFrontier("", "", 0, "", [], EvidenceRef("", ContentIdentity("", 0), "", "")), []);
    var found := FindProfile(c.reviewed.graph.processProfiles, parent.profileId);
    forall f ensures RunsAs(c.reviewed.graph, q, f) <==> found == Some(f) { ProfileIs(c.reviewed.graph, q, f); }
    if found.Some? { assert RunsAs(c.reviewed.graph, q, found.value); }
    forall f | f in c.reviewed.graph.processProfiles && f.id == parent.profileId ensures found == Some(f) {
      assert RunsAs(c.reviewed.graph, q, f);
    }
  }

  lemma {:induction false} ParentGives(c: Case, p: ProcessObservation, r: Reason)
    requires DistinctIds(c.reviewed.graph) && CountsFor(c, p.instance.instanceId, p)
    ensures var actual, id := ActualBy(c.observed.envelope.processObservations), p.instance.instanceId;
            id in actual
            && Gives(ParentJudged(c.reviewed.graph.processProfiles, actual, id), r,
                  r == CHILD_COVERAGE && ParentRefuted(c, p), r == CHILD_COVERAGE && ParentOpen(c, p))
  {
    var actual, id := ActualBy(c.observed.envelope.processObservations), p.instance.instanceId;
    CountsIs(c, id, p);
    if p.instance.parentInstance.Some? {
      var key := p.instance.parentInstance.value;
      forall x ensures CountsFor(c, key, x) <==> key in actual && actual[key] == x { CountsIs(c, key, x); }
      if key in actual { BarredIs(c, actual[key], p.profileId); }
    }
  }

  lemma {:induction false} OneChildGives(c: Case, p: ProcessObservation, child: string, r: Reason)
    ensures var actual, id := ActualBy(c.observed.envelope.processObservations), p.instance.instanceId;
            Gives(ChildJudged(actual, id, child), r,
                  r == CHILD_COVERAGE && Strayed(c, p, child), r == CHILD_COVERAGE && !IsObserved(c, child))
  {
    var actual := ActualBy(c.observed.envelope.processObservations);
    KeysAre(c, child);
    forall x ensures CountsFor(c, child, x) <==> child in actual && actual[child] == x { CountsIs(c, child, x); }
  }

  /** An announced child observed with another parent. */
  ghost predicate Strayed(c: Case, p: ProcessObservation, child: string) {
    exists x :: CountsFor(c, child, x) && x.instance.parentInstance != Some(p.instance.instanceId)
  }

  lemma {:induction false} StrayedIs(c: Case, p: ProcessObservation)
    ensures ChildRefuted(c, p) <==> exists child :: child in p.checkpoint.childFrontier && Strayed(c, p, child)
  {
    if ChildRefuted(c, p) {
      var x: ProcessObservation :| x.instance.instanceId in p.checkpoint.childFrontier && CountsFor(c, x.instance.instanceId, x)
                                   && x.instance.parentInstance != Some(p.instance.instanceId);
      assert Strayed(c, p, x.instance.instanceId);
    }
    if child :| child in p.checkpoint.childFrontier && Strayed(c, p, child) {
      var x :| CountsFor(c, child, x) && x.instance.parentInstance != Some(p.instance.instanceId);
      assert x.instance.instanceId == child;
    }
  }

  lemma {:induction false} ChildrenGives(c: Case, p: ProcessObservation, r: Reason)
    ensures var actual, id := ActualBy(c.observed.envelope.processObservations), p.instance.instanceId;
            Gives(Over(Elements(p.checkpoint.childFrontier), child => ChildJudged(actual, id, child)), r,
                  r == CHILD_COVERAGE && ChildRefuted(c, p), r == CHILD_COVERAGE && ChildOpen(c, p))
  {
    var actual, id := ActualBy(c.observed.envelope.processObservations), p.instance.instanceId;
    var judge := (child: string) => ChildJudged(actual, id, child);
    OverGives(p.checkpoint.childFrontier, judge, r);
    StrayedIs(c, p);
    forall child ensures Gives(judge(child), r, r == CHILD_COVERAGE && Strayed(c, p, child), r == CHILD_COVERAGE && !IsObserved(c, child)) {
      OneChildGives(c, p, child, r);
    }
  }

  lemma {:induction false} TreeGives(c: Case, p: ProcessObservation, r: Reason)
    requires DistinctIds(c.reviewed.graph) && CountsFor(c, p.instance.instanceId, p)
    ensures var actual, id := ActualBy(c.observed.envelope.processObservations), p.instance.instanceId;
            id in actual && actual[id] == p && Gives(TreeJudged(c.reviewed.graph.processProfiles, actual, id), r, TreeRefuted(c, p, r), TreeOpen(c, p, r))
  {
    CountsIs(c, p.instance.instanceId, p);
    ParentGives(c, p, r);
    ChildrenGives(c, p, r);
  }

  // -- the whole

  lemma {:induction false} PairedIs(c: Case, key: string)
    requires UniqueProcesses(c.expected.processes)
    ensures var required, actual := RequiredBy(c.expected.processes), ActualBy(c.observed.envelope.processObservations);
            && (key in required && key in actual ==> Paired(c, actual[key], required[key]))
            && (forall p, q :: Paired(c, p, q) && q.instance.instanceId == key ==> key in required && key in actual && p == actual[key] && q == required[key])
  {
    var required, actual := RequiredBy(c.expected.processes), ActualBy(c.observed.envelope.processObservations);
    if key in required && key in actual { CountsIs(c, key, actual[key]); }
    forall p, q | Paired(c, p, q) && q.instance.instanceId == key ensures key in required && key in actual && p == actual[key] && q == required[key] {
      CountsIs(c, key, p);
      RequiredFinds(c.expected.processes, q);
    }
  }

  lemma {:induction false} KeyGives(c: Case, facts: seq<VerifiedOriginFact>, identify: Identify, p: ProcessObservation, q: ExpectedProcess, r: Reason)
    requires DistinctIds(c.reviewed.graph) && UniqueFacts(facts) && UniqueProcesses(c.expected.processes) && Paired(c, p, q)
    ensures Gives(KeyJudged(c, FactMap(facts), identify, q.instance.instanceId), r,
                  PairRefuted(c, facts, identify, p, q, r), PairOpen(c, facts, p, q, r))
  {
    PairedIs(c, q.instance.instanceId);
    assert p.instance.instanceId == q.instance.instanceId;
    ProcessGives(c, facts, identify, p, q, r);
    TreeGives(c, p, r);
  }

  /** A key of both maps is judged, and judged by its pair. */
  lemma {:induction false} KeyParts(c: Case, facts: seq<VerifiedOriginFact>, identify: Identify, key: string, r: Reason)
    requires DistinctIds(c.reviewed.graph) && UniqueFacts(facts) && UniqueProcesses(c.expected.processes)
    requires key in RequiredBy(c.expected.processes).Keys * ActualBy(c.observed.envelope.processObservations).Keys
    ensures r in KeyJudged(c, FactMap(facts), identify, key).contradictions ==> ProcessesRefuted(c, facts, identify, r)
    ensures r in KeyJudged(c, FactMap(facts), identify, key).gaps ==> ProcessesOpen(c, facts, r)
  {
    var p, q := ActualBy(c.observed.envelope.processObservations)[key], RequiredBy(c.expected.processes)[key];
    PairedIs(c, key);
    KeyGives(c, facts, identify, p, q, r);
  }

  lemma {:induction false} PairParts(c: Case, facts: seq<VerifiedOriginFact>, identify: Identify, p: ProcessObservation, q: ExpectedProcess, r: Reason)
    requires DistinctIds(c.reviewed.graph) && UniqueFacts(facts) && UniqueProcesses(c.expected.processes) && Paired(c, p, q)
    ensures var key := q.instance.instanceId;
            && key in RequiredBy(c.expected.processes).Keys * ActualBy(c.observed.envelope.processObservations).Keys
            && (PairRefuted(c, facts, identify, p, q, r) ==> r in KeyJudged(c, FactMap(facts), identify, key).contradictions)
            && (PairOpen(c, facts, p, q, r) ==> r in KeyJudged(c, FactMap(facts), identify, key).gaps)
  {
    PairedIs(c, q.instance.instanceId);
    KeyGives(c, facts, identify, p, q, r);
  }

  lemma {:induction false} OverHas<T(!new)>(s: set<T>, judge: T -> Judgement, r: Reason)
    ensures r in Over(s, judge).contradictions <==> exists x :: x in s && r in judge(x).contradictions
    ensures r in Over(s, judge).gaps <==> exists x :: x in s && r in judge(x).gaps
  {
  }

  lemma {:induction false} PairHas(c: Case, facts: seq<VerifiedOriginFact>, identify: Identify, p: ProcessObservation, q: ExpectedProcess, r: Reason)
    requires DistinctIds(c.reviewed.graph) && UniqueFacts(facts) && UniqueProcesses(c.expected.processes) && Paired(c, p, q)
    ensures PairRefuted(c, facts, identify, p, q, r) ==> r in ProcessesJudged(c, FactMap(facts), identify).contradictions
    ensures PairOpen(c, facts, p, q, r) ==> r in ProcessesJudged(c, FactMap(facts), identify).gaps
  {
    var keys := RequiredBy(c.expected.processes).Keys * ActualBy(c.observed.envelope.processObservations).Keys;
    var judge := (key: string) => KeyJudged(c, FactMap(facts), identify, key);
    OverHas(keys, judge, r);
    PairParts(c, facts, identify, p, q, r);
    var key := q.instance.instanceId;
    assert judge(key) == KeyJudged(c, FactMap(facts), identify, key);
  }

  lemma {:induction false} ProcessesHave(c: Case, facts: seq<VerifiedOriginFact>, identify: Identify, r: Reason)
    requires DistinctIds(c.reviewed.graph) && UniqueFacts(facts) && UniqueProcesses(c.expected.processes)
    ensures r in ProcessesJudged(c, FactMap(facts), identify).contradictions ==> ProcessesRefuted(c, facts, identify, r)
    ensures r in ProcessesJudged(c, FactMap(facts), identify).gaps ==> ProcessesOpen(c, facts, r)
  {
    var keys := RequiredBy(c.expected.processes).Keys * ActualBy(c.observed.envelope.processObservations).Keys;
    var judge := (key: string) => KeyJudged(c, FactMap(facts), identify, key);
    OverHas(keys, judge, r);
    if key :| key in keys && r in judge(key).contradictions { KeyParts(c, facts, identify, key, r); }
    if key :| key in keys && r in judge(key).gaps { KeyParts(c, facts, identify, key, r); }
  }

  lemma {:induction false} SomePairRefuted(c: Case, facts: seq<VerifiedOriginFact>, identify: Identify, r: Reason)
    requires DistinctIds(c.reviewed.graph) && UniqueFacts(facts) && UniqueProcesses(c.expected.processes) && ProcessesRefuted(c, facts, identify, r)
    ensures r in ProcessesJudged(c, FactMap(facts), identify).contradictions
  {
    var p, q :| Paired(c, p, q) && PairRefuted(c, facts, identify, p, q, r);
    PairHas(c, facts, identify, p, q, r);
  }

  lemma {:induction false} SomePairOpen(c: Case, facts: seq<VerifiedOriginFact>, identify: Identify, r: Reason)
    requires DistinctIds(c.reviewed.graph) && UniqueFacts(facts) && UniqueProcesses(c.expected.processes) && ProcessesOpen(c, facts, r)
    ensures r in ProcessesJudged(c, FactMap(facts), identify).gaps
  {
    var p, q :| Paired(c, p, q) && PairOpen(c, facts, p, q, r);
    PairHas(c, facts, identify, p, q, r);
  }

  lemma {:induction false} ProcessesGive(c: Case, facts: seq<VerifiedOriginFact>, identify: Identify, r: Reason)
    requires DistinctIds(c.reviewed.graph) && UniqueFacts(facts) && UniqueProcesses(c.expected.processes)
    ensures Gives(ProcessesJudged(c, FactMap(facts), identify), r, ProcessesRefuted(c, facts, identify, r), ProcessesOpen(c, facts, r))
  {
    ProcessesHave(c, facts, identify, r);
    if ProcessesRefuted(c, facts, identify, r) { SomePairRefuted(c, facts, identify, r); }
    if ProcessesOpen(c, facts, r) { SomePairOpen(c, facts, identify, r); }
  }

  lemma {:induction false} PartsGive(c: Case, v: VerifiedClosureOrigins, identify: Identify, r: Reason)
    requires GraphOk(c.reviewed.graph) && DistinctIds(c.reviewed.graph) && UniqueFacts(v.facts) && UniqueProcesses(c.expected.processes)
    ensures Gives(DocumentsJudged(c, v, identify), r, DocumentsRefuted(c, v, identify, r), DocumentsOpen(c, v, r))
    ensures Gives(RosterJudged(c), r, RosterRefuted(c, r), RosterOpen(c, r))
    ensures Gives(ProcessesJudged(c, FactMap(v.facts), identify), r, ProcessesRefuted(c, v.facts, identify, r), ProcessesOpen(c, v.facts, r))
  {
    DocumentsGive(c, v, identify, r);
    RosterGives(c, r);
    ProcessesGive(c, v.facts, identify, r);
  }

  lemma {:induction false} ThreeGive(a: Judgement, b: Judgement, d: Judgement, r: Reason)
    ensures r in Plus(a, Plus(b, d)).contradictions <==> r in a.contradictions || r in b.contradictions || r in d.contradictions
    ensures r in Plus(a, Plus(b, d)).gaps <==> r in a.gaps || r in b.gaps || r in d.gaps
  {
  }

  lemma {:induction false} WholeGives(c: Case, v: VerifiedClosureOrigins, identify: Identify, r: Reason)
    requires WholeComparison.Acceptable(c, v, identify)
    ensures Gives(WholeJudged(c, v, identify), r, Refuted(c, v, identify, r), LeftOpen(c, v, r))
  {
    PartsGive(c, v, identify, r);
    ThreeGive(DocumentsJudged(c, v, identify), RosterJudged(c), ProcessesJudged(c, FactMap(v.facts), identify), r);
  }

  ghost function Causing(c: Case, v: VerifiedClosureOrigins, identify: Identify): Reason -> bool {
    r => Refuted(c, v, identify, r)
  }

  ghost function Leaving(c: Case, v: VerifiedClosureOrigins): Reason -> bool {
    r => LeftOpen(c, v, r)
  }

  /** REFUSED exactly if some reason contradicts, UNKNOWN exactly if none does and some is open, MATCH otherwise; and the reasons are
      exactly those that contradict or are open. */
  ghost predicate DecidedBy(outcome: Outcome, refuted: Reason -> bool, open: Reason -> bool) {
    && outcome.Compared?
    && (outcome.disposition == REFUSED <==> exists r :: refuted(r))
    && (outcome.disposition == UNKNOWN <==> (forall r :: !refuted(r)) && exists r :: open(r))
    && (forall r :: r in outcome.reasons <==> refuted(r) || open(r))
  }

  lemma {:induction false} OutcomeGives(c: Case, j: Judgement, refuted: Reason -> bool, open: Reason -> bool)
    requires forall r :: Gives(j, r, refuted(r), open(r))
    ensures DecidedBy(OutcomeOf(c, j), refuted, open)
  {
    if j.contradictions != {} {
      var r :| r in j.contradictions;
      assert Gives(j, r, refuted(r), open(r));
    }
    if j.gaps != {} {
      var r :| r in j.gaps;
      assert Gives(j, r, refuted(r), open(r));
    }
    if r :| refuted(r) { assert Gives(j, r, refuted(r), open(r)); }
    if r :| open(r) { assert Gives(j, r, refuted(r), open(r)); }
  }

  lemma {:induction false} AllGive(c: Case, v: VerifiedClosureOrigins, identify: Identify)
    requires WholeComparison.Acceptable(c, v, identify)
    ensures forall r :: Gives(WholeJudged(c, v, identify), r, Causing(c, v, identify)(r), Leaving(c, v)(r))
  {
    forall r ensures Gives(WholeJudged(c, v, identify), r, Causing(c, v, identify)(r), Leaving(c, v)(r)) { WholeGives(c, v, identify, r); }
  }

  /** What the comparison answers is decided by what the documents show, for the expectation it was given. */
  lemma {:induction false} OutcomeIsExact(c: Case, v: VerifiedClosureOrigins, identify: Identify)
    requires WholeComparison.Acceptable(c, v, identify)
    ensures DecidedBy(LoadedSourceOutcome(c, v, identify), Causing(c, v, identify), Leaving(c, v))
    ensures var o := LoadedSourceOutcome(c, v, identify);
            o.binding == c.expected.binding && o.boundary == c.expected.boundary && o.reviewedGraph == c.expected.reviewedGraph
  {
    AllGive(c, v, identify);
    OutcomeGives(c, WholeJudged(c, v, identify), Causing(c, v, identify), Leaving(c, v));
  }
}
