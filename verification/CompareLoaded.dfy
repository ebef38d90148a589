/** compare_loaded_source of p3_source_closure/comparison.py: guards on the two documents, then findings added step by step
    over the roster and the processes, until they hold exactly the judgement of WholeComparison. */
module CompareLoaded {
  import opened Records
  import opened Judgement
  import opened Provenance
  import opened ReviewedGraph
  import opened LoadedEnvelope
  import opened Comparison
  import opened Comparator
  import opened WholeComparison
  import opened Sorting
  import opened Text

  // -- what the grammar of the graph gives the loops

  lemma {:induction false} ReviewedNodesKnown(g: SourceGraph)
    requires GraphOk(g)
    ensures forall n :: n in g.nodes ==> NodeKnown(RepositoriesById(g.repositories), NodesById(g.nodes), n)
  {
    forall n | n in g.nodes ensures NodeKnown(RepositoriesById(g.repositories), NodesById(g.nodes), n) {
      assert ProvenanceOk(RepositoriesById(g.repositories), NodesById(g.nodes).Keys, n);
    }
  }

  lemma {:induction false} ReviewedEntriesKnown(g: SourceGraph)
    requires GraphOk(g)
    ensures EntriesOf(g)
  {
    forall p | p in g.processProfiles ensures forall k :: k in p.entrypointIds ==> k in EntriesById(g.entrypoints) {
      assert ProfileOk(NodesById(g.nodes), EntriesById(g.entrypoints), ProfilesById(g.processProfiles).Keys, p);
    }
  }

  // -- the documents

  method CheckSupplied(supplied: Option<ContentIdentity>, identity: ContentIdentity, reason: Reason, findings: Findings)
    modifies findings
    ensures findings.Value() == Plus(old(findings.Value()), SuppliedJudged(supplied, identity, reason))
  {
    if supplied.None? { findings.Unknown(true, reason); } else { findings.Refuse(supplied.value != identity, reason); }
  }

  method CheckContents(c: Case, findings: Findings)
    modifies findings
    ensures findings.Value() == Plus(old(findings.Value()), ContentJudged(c, findings.identify))
  {
    ghost var before := findings.Value();
    var identify := findings.identify;
    var graph, envelope := identify(GraphClaim(c.reviewed.graph)), identify(EnvelopeClaim(c.observed.envelope));
    findings.Refuse(c.reviewed.content != graph, REVIEW_ORIGIN);
    findings.Refuse(c.observed.content != envelope, OBSERVER_ORIGIN);
    PlusAssociates(before, Contradicts(c.reviewed.content != graph, REVIEW_ORIGIN), Contradicts(c.observed.content != envelope, OBSERVER_ORIGIN));
  }

  method CheckInputs(c: Case, verified: VerifiedClosureOrigins, findings: Findings)
    modifies findings
    ensures findings.Value() == Plus(old(findings.Value()), InputsJudged(c, verified, findings.identify))
  {
    ghost var before := findings.Value();
    var identify := findings.identify;
    var graph, envelope := identify(GraphClaim(c.reviewed.graph)), identify(EnvelopeClaim(c.observed.envelope));
    var expectation := identify(ExpectationClaim(c.expected));
    var stale := verified.validityCheckpoint != Some(c.expected.boundary.validityCheckpoint);
    CheckSupplied(verified.reviewedBytes, graph, REVIEW_ORIGIN, findings);
    CheckSupplied(verified.observedBytes, envelope, OBSERVER_ORIGIN, findings);
    CheckSupplied(verified.expectation, expectation, BINDING, findings);
    findings.Unknown(stale, STALE_FRONTIER);
    PlusFour(before, SuppliedJudged(verified.reviewedBytes, graph, REVIEW_ORIGIN), SuppliedJudged(verified.observedBytes, envelope, OBSERVER_ORIGIN),
             SuppliedJudged(verified.expectation, expectation, BINDING), Lacks(stale, STALE_FRONTIER));
  }

  method CheckReview(c: Case, findings: Findings)
    modifies findings
    ensures findings.Value() == Plus(old(findings.Value()), ReviewJudged(c, findings.origins, findings.identify))
  {
    ghost var before := findings.Value();
    var graph, envelope, identity := c.reviewed.graph, c.observed.envelope, findings.identify(GraphClaim(c.reviewed.graph));
    var ref := graph.completenessReviewRef;
    var a := envelope.reviewedGraph != c.expected.reviewedGraph || envelope.reviewedGraph.content != identity;
    var d := envelope.binding != c.expected.binding || envelope.boundary != c.expected.boundary;
    findings.Refuse(a, REVIEW_ORIGIN);
    if ref.None? { findings.Unknown(true, COVERAGE_GAP); } else { findings.Refuse(ref.value != c.expected.reviewRef, REVIEW_ORIGIN); }
    findings.Origin(ref, Review, GraphClaim(graph), REVIEW_ORIGIN);
    findings.Refuse(d, BINDING);
    PlusFour(before, Contradicts(a, REVIEW_ORIGIN), CompletenessJudged(ref, c.expected.reviewRef),
             OriginJudged(findings.origins, ref, Review, identity, REVIEW_ORIGIN), Contradicts(d, BINDING));
  }

  method CheckMapping(nodes: map<string, SourceNode>, m: LegacyNodeLink, findings: Findings)
    modifies findings
    ensures findings.Value() == Plus(old(findings.Value()), MappingJudged(nodes, findings.origins, findings.identify, m))
  {
    ghost var before := findings.Value();
    var node := MappedNode(nodes, m);
    var wrong := node.None? || m.content != node.value.content;
    findings.Refuse(wrong, BYTE_SUBSTITUTION);
    findings.Origin(Some(m.provenanceRef), Legacy, LegacyNodeClaim(m, node), REVIEW_ORIGIN);
    PlusAssociates(before, Contradicts(wrong, BYTE_SUBSTITUTION),
                   OriginJudged(findings.origins, Some(m.provenanceRef), Legacy, findings.identify(LegacyNodeClaim(m, node)), REVIEW_ORIGIN));
  }

  method CheckLink(nodes: map<string, SourceNode>, link: LegacyLink, findings: Findings)
    modifies findings
    ensures findings.Value() == Plus(old(findings.Value()), LinkJudged(nodes, findings.origins, findings.identify, link))
  {
    ghost var before := findings.Value();
    ghost var judge := (m: LegacyNodeLink) => MappingJudged(nodes, findings.origins, findings.identify, m);
    ghost var origin := OriginJudged(findings.origins, Some(link.legacyRef), Legacy, findings.identify(LegacyLinkClaim(link)), REVIEW_ORIGIN);
    findings.Origin(Some(link.legacyRef), Legacy, LegacyLinkClaim(link), REVIEW_ORIGIN);
    OverNothing(judge);
    for i := 0 to |link.nodeMap|
      invariant findings.Value() == Plus(Plus(before, origin), Over(Elements(link.nodeMap[..i]), judge))
    {
      CheckMapping(nodes, link.nodeMap[i], findings);
      OverStep(link.nodeMap, i, judge);
      PlusAssociates(Plus(before, origin), Over(Elements(link.nodeMap[..i]), judge), judge(link.nodeMap[i]));
    }
    assert link.nodeMap[..|link.nodeMap|] == link.nodeMap;
    PlusAssociates(before, origin, Over(Elements(link.nodeMap), judge));
  }

  method CheckLegacy(c: Case, findings: Findings)
    modifies findings
    ensures findings.Value() == Plus(old(findings.Value()), LegacyJudged(c, findings.origins, findings.identify))
  {
    ghost var before := findings.Value();
    var nodes, links := NodesById(c.reviewed.graph.nodes), c.observed.envelope.legacyLinks;
    ghost var judge := (link: LegacyLink) => LinkJudged(nodes, findings.origins, findings.identify, link);
    ghost var differ := Contradicts(links != c.expected.legacyLinks, REVIEW_ORIGIN);
    findings.Refuse(links != c.expected.legacyLinks, REVIEW_ORIGIN);
    OverNothing(judge);
    for i := 0 to |links|
      invariant findings.Value() == Plus(Plus(before, differ), Over(Elements(links[..i]), judge))
    {
      CheckLink(nodes, links[i], findings);
      OverStep(links, i, judge);
      PlusAssociates(Plus(before, differ), Over(Elements(links[..i]), judge), judge(links[i]));
    }
    assert links[..|links|] == links;
    PlusAssociates(before, differ, Over(Elements(links), judge));
  }

  method CheckDocuments(c: Case, verified: VerifiedClosureOrigins, findings: Findings)
    requires forall n :: n in c.reviewed.graph.nodes ==>
               NodeKnown(RepositoriesById(c.reviewed.graph.repositories), NodesById(c.reviewed.graph.nodes), n)
    requires findings.origins == FactMap(verified.facts) && findings.Value() == CLEAR
    modifies findings
    ensures findings.Value() == DocumentsJudged(c, verified, findings.identify)
  {
    ghost var identify, facts := findings.identify, findings.origins;
    CheckContents(c, findings);
    CheckInputs(c, verified, findings);
    CheckReview(c, findings);
    findings.CheckProvenance(c.reviewed.graph);
    CheckLegacy(c, findings);
    SumFive(ContentJudged(c, identify), InputsJudged(c, verified, identify), ReviewJudged(c, facts, identify),
            ProvenanceJudged(c.reviewed.graph, facts, identify), LegacyJudged(c, facts, identify));
  }

  lemma {:induction false} SumFive(a: Judgement, b: Judgement, c: Judgement, d: Judgement, e: Judgement)
    ensures Plus(Plus(Plus(Plus(Plus(CLEAR, a), b), c), d), e) == Plus(Plus(a, b), Plus(c, Plus(d, e)))
  {
    assert Plus(CLEAR, a) == a;
    PlusAssociates(Plus(Plus(a, b), c), d, e);
    PlusAssociates(Plus(a, b), c, Plus(d, e));
  }

  // -- the roster

  method CheckRoster(c: Case, required: map<string, ExpectedProcess>, actual: map<string, ProcessObservation>, findings: Findings)
    requires required == RequiredBy(c.expected.processes) && actual == ActualBy(c.observed.envelope.processObservations)
    modifies findings
    ensures findings.Value() == Plus(old(findings.Value()), RosterJudged(c))
  {
    ghost var before := findings.Value();
    var n := |c.observed.envelope.processObservations|;
    CheckCensus(required, actual, n, findings);
    CheckHalves(c, findings);
    PlusAssociates(before, CensusJudged(required, actual, n), HalvesJudged(c));
  }

  method CheckCensus(required: map<string, ExpectedProcess>, actual: map<string, ProcessObservation>, n: nat, findings: Findings)
    modifies findings
    ensures findings.Value() == Plus(old(findings.Value()), CensusJudged(required, actual, n))
  {
    ghost var before := findings.Value();
    var missing, extra := required.Keys - actual.Keys, actual.Keys - required.Keys;
    findings.Refuse(|actual| != n, PROCESS_INSTANCE);
    findings.Unknown(required == map[], COVERAGE_GAP);
    findings.Unknown(missing != {}, if MissesChild(required, missing) then CHILD_COVERAGE else PROCESS_INSTANCE);
    findings.Refuse(extra != {}, PROCESS_INSTANCE);
    PlusFour(before, Contradicts(|actual| != n, PROCESS_INSTANCE), Lacks(required == map[], COVERAGE_GAP),
             MissingJudged(required, missing), Contradicts(extra != {}, PROCESS_INSTANCE));
  }

  method CheckHalves(c: Case, findings: Findings)
    modifies findings
    ensures findings.Value() == Plus(old(findings.Value()), HalvesJudged(c))
  {
    if c.observed.envelope.boundary.phase !in {APreCreate, APreArm} {
      var host, worker := HasHalf(c, Host), HasHalf(c, Container);
      var locations := set p | p in c.expected.processes :: p.instance.location;
      if host && worker { BothLocations(c); }
      findings.Unknown(locations != {Host, Container} || !host || !worker, COVERAGE_GAP);
    }
  }

  /** With both halves present the expected processes stand in both locations. */
  lemma {:induction false} BothLocations(c: Case)
    requires HasHalf(c, Host) && HasHalf(c, Container)
    ensures (set p | p in c.expected.processes :: p.instance.location) == {Host, Container}
  {
    var profiles := ProfilesById(c.reviewed.graph.processProfiles);
    var h :| h in c.expected.processes && InHalf(profiles, h.profileId, h.instance.location, Host);
    var w :| w in c.expected.processes && InHalf(profiles, w.profileId, w.instance.location, Container);
    var locations := set p | p in c.expected.processes :: p.instance.location;
    assert h.instance.location in locations && w.instance.location in locations;
    assert forall l :: l in locations ==> l == Host || l == Container;
  }

  // -- the processes

  method CheckParent(profiles: seq<ProcessProfile>, actual: map<string, ProcessObservation>, key: string, findings: Findings)
    requires key in actual
    modifies findings
    ensures findings.Value() == Plus(old(findings.Value()), ParentJudged(profiles, actual, key))
  {
    var parent := actual[key].instance.parentInstance;
    if parent.Some? {
      if parent.value !in actual || key !in actual[parent.value].checkpoint.childFrontier {
        findings.Unknown(true, CHILD_COVERAGE);
      } else {
        var profile := FindProfile(profiles, actual[parent.value].profileId);
        findings.Refuse(profile.None? || actual[key].profileId !in profile.value.childProfiles, CHILD_COVERAGE);
      }
    }
  }

  method CheckChild(actual: map<string, ProcessObservation>, key: string, child: string, findings: Findings)
    modifies findings
    ensures findings.Value() == Plus(old(findings.Value()), ChildJudged(actual, key, child))
  {
    if child !in actual { findings.Unknown(true, CHILD_COVERAGE); }
    else { findings.Refuse(actual[child].instance.parentInstance != Some(key), CHILD_COVERAGE); }
  }

  method CheckTree(profiles: seq<ProcessProfile>, actual: map<string, ProcessObservation>, key: string, findings: Findings)
    requires key in actual
    modifies findings
    ensures findings.Value() == Plus(old(findings.Value()), TreeJudged(profiles, actual, key))
  {
    ghost var before := findings.Value();
    ghost var judge := (child: string) => ChildJudged(actual, key, child);
    var children := actual[key].checkpoint.childFrontier;
    CheckParent(profiles, actual, key, findings);
    ghost var parent := ParentJudged(profiles, actual, key);
    OverNothing(judge);
    for i := 0 to |children|
      invariant findings.Value() == Plus(Plus(before, parent), Over(Elements(children[..i]), judge))
    {
      CheckChild(actual, key, children[i], findings);
      OverStep(children, i, judge);
      PlusAssociates(Plus(before, parent), Over(Elements(children[..i]), judge), judge(children[i]));
    }
    assert children[..|children|] == children;
    PlusAssociates(before, parent, Over(Elements(children), judge));
  }

  /** One turn of the process loop: findings of its own for the process, then its place in the tree. */
  method CheckKey(c: Case, required: map<string, ExpectedProcess>, actual: map<string, ProcessObservation>, key: string, findings: Findings)
    requires required == RequiredBy(c.expected.processes) && actual == ActualBy(c.observed.envelope.processObservations)
    requires key in required && key in actual && EntriesOf(c.reviewed.graph)
    modifies findings
    ensures findings.Value() == Plus(old(findings.Value()), KeyJudged(c, findings.origins, findings.identify, key))
  {
    ghost var before := findings.Value();
    var local := new Findings(findings.origins, findings.identify);
    CheckProcess(actual[key], required[key], c.reviewed.graph, c.observed.envelope, local);
    ghost var process := local.Value();
    findings.Update(local);
    CheckTree(c.reviewed.graph.processProfiles, actual, key, findings);
    PlusAssociates(before, process, TreeJudged(c.reviewed.graph.processProfiles, actual, key));
  }

  /** The keys of both maps, sorted. */
  function CommonKeys(processes: seq<ExpectedProcess>, actual: map<string, ProcessObservation>): (r: seq<string>)
    ensures Elements(r) == RequiredBy(processes).Keys * actual.Keys
  {
    var all := Dedup(seq(|processes|, i requires 0 <= i < |processes| => processes[i].instance.instanceId));
    KeysOfProcesses(processes);
    LexOrder();
    SortElements(Kept(all, actual), LexLe);
    Sort(Kept(all, actual), LexLe)
  }

  function Kept(ids: seq<string>, actual: map<string, ProcessObservation>): (r: seq<string>)
    ensures forall k :: k in r <==> k in ids && k in actual
  {
    if ids == [] then []
    else
      assert ids == [ids[0]] + ids[1..];
      (if ids[0] in actual then [ids[0]] else []) + Kept(ids[1..], actual)
  }

  lemma {:induction false} KeysOfProcesses(processes: seq<ExpectedProcess>)
    ensures var ids := seq(|processes|, i requires 0 <= i < |processes| => processes[i].instance.instanceId);
            forall k :: k in ids <==> k in RequiredBy(processes)
  {
    var ids := seq(|processes|, i requires 0 <= i < |processes| => processes[i].instance.instanceId);
    forall k | k in RequiredBy(processes) ensures k in ids {
      var i :| 0 <= i < |processes| && processes[i] == RequiredBy(processes)[k];
      assert ids[i] == k;
    }
    forall k | k in ids ensures k in RequiredBy(processes) {
      var i :| 0 <= i < |ids| && ids[i] == k;
      assert processes[i] in processes;
    }
  }

  method CheckKeys(c: Case, required: map<string, ExpectedProcess>, actual: map<string, ProcessObservation>, keys: seq<string>, findings: Findings)
    requires required == RequiredBy(c.expected.processes) && actual == ActualBy(c.observed.envelope.processObservations)
    requires EntriesOf(c.reviewed.graph) && forall k :: k in keys ==> k in required && k in actual
    modifies findings
    ensures findings.Value() == Plus(old(findings.Value()), Over(Elements(keys), key => KeyJudged(c, findings.origins, findings.identify, key)))
  {
    ghost var before := findings.Value();
    ghost var judge := (key: string) => KeyJudged(c, findings.origins, findings.identify, key);
    OverNothing(judge);
    for i := 0 to |keys|
      invariant findings.Value() == Plus(before, Over(Elements(keys[..i]), judge))
    {
      CheckKey(c, required, actual, keys[i], findings);
      OverStep(keys, i, judge);
      PlusAssociates(before, Over(Elements(keys[..i]), judge), judge(keys[i]));
    }
    assert keys[..|keys|] == keys;
  }

  method CheckProcesses(c: Case, required: map<string, ExpectedProcess>, actual: map<string, ProcessObservation>, findings: Findings)
    requires required == RequiredBy(c.expected.processes) && actual == ActualBy(c.observed.envelope.processObservations)
    requires EntriesOf(c.reviewed.graph)
    modifies findings
    ensures findings.Value() == Plus(old(findings.Value()), ProcessesJudged(c, findings.origins, findings.identify))
  {
    var keys := CommonKeys(c.expected.processes, actual);
    assert forall k :: k in keys <==> k in Elements(keys);
    CheckKeys(c, required, actual, keys, findings);
  }

  /** compare_loaded_source */
  method CompareLoadedSource(c: Case, verified: VerifiedClosureOrigins, identify: Identify) returns (outcome: Outcome)
    ensures outcome == LoadedSourceOutcome(c, verified, identify)
  {
    if !Acceptable(c, verified, identify) { return Invalid; }
    ReviewedNodesKnown(c.reviewed.graph);
    ReviewedEntriesKnown(c.reviewed.graph);
    var findings := Examine(c, verified, identify);
    var disposition := if findings.contradictions != {} then REFUSED else if findings.gaps != {} then UNKNOWN else MATCH;
    outcome := Compared(disposition, findings.contradictions + findings.gaps, c.expected.binding, c.expected.boundary, c.expected.reviewedGraph,
                        if disposition == MATCH then Sort(ExpectedFrontiers(c.expected.processes), FrontierLe()) else []);
    assert outcome == OutcomeOf(c, findings.Value());
  }

  method Examine(c: Case, verified: VerifiedClosureOrigins, identify: Identify) returns (findings: Findings)
    requires forall n :: n in c.reviewed.graph.nodes ==>
               NodeKnown(RepositoriesById(c.reviewed.graph.repositories), NodesById(c.reviewed.graph.nodes), n)
    requires EntriesOf(c.reviewed.graph)
    ensures fresh(findings) && findings.Value() == WholeJudged(c, verified, identify)
  {
    findings := new Findings(FactMap(verified.facts), identify);
    CheckDocuments(c, verified, findings);
    ExamineProcesses(c, findings);
  }

  method ExamineProcesses(c: Case, findings: Findings)
    requires EntriesOf(c.reviewed.graph)
    modifies findings
    ensures findings.Value() == Plus(old(findings.Value()), Plus(RosterJudged(c), ProcessesJudged(c, findings.origins, findings.identify)))
  {
    ghost var before, roster := findings.Value(), RosterJudged(c);
    var required, actual := RequiredBy(c.expected.processes), ActualBy(c.observed.envelope.processObservations);
    CheckRoster(c, required, actual, findings);
    CheckProcesses(c, required, actual, findings);
    PlusAssociates(before, roster, ProcessesJudged(c, findings.origins, findings.identify));
  }
}
