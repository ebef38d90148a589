/** One host process with one start event, before anything is created: a case that matches. */
module MatchWitness {
  import opened Records
  import opened Judgement
  import opened Provenance
  import opened ReviewedGraph
  import opened LoadedEnvelope
  import opened Comparison
  import opened WholeComparison
  import opened MatchSoundness
  import opened MatchedProcess
  import opened MatchTheorems
  import opened FactMonotonicity
  import opened Sorting

  // -- the reviewed graph: an interpreter, run by one profile

  function Ref(x: ContentIdentity, id: string): EvidenceRef {
    EvidenceRef("p3-evidence/1", x, "qa", id)
  }

  function Runtime(x: ContentIdentity): SourceNode {
    SourceNode("n", Interpreter, x, "python", "100755", Artifact(x, x, [], [], "n", "cp312", Bytes, x, Some(Ref(x, "r"))))
  }

  function Runs(x: ContentIdentity): ProcessProfile {
    ProcessProfile("p", Controller, ["e"], ["n"], ["n"], [], [], Ref(x, "r"))
  }

  function Graph(x: ContentIdentity): SourceGraph {
    SourceGraph("g", [], [Runtime(x)], [], [Entrypoint("e", "p", "n", "main", [])], [Runs(x)], Some(Ref(x, "r")))
  }

  // -- the observed process

  function Binding(x: ContentIdentity): ClosureBinding {
    ClosureBinding("uuid", 1, "nonce", "job", "selection", "subject", x, "parent", None, None)
  }

  const BOUNDARY := ClosureBoundary(APreCreate, "create", None, None, "barrier", "valid")
  const INSTANCE := ProcessInstance("i", "boot", 1, "start", 0, None, "launch", "pid", "mount", "user", Host, None, "root", 0, 0, [], "n")
  const COVERED := [Launch, BootstrapCoverage, Python, GeneratedCoverage, CacheCoverage, Native, Dynamic, Children, ControlPlane, EffectFence]

  function Begun(x: ContentIdentity): LoadEvent {
    LoadEvent(0, "first", Start, Some("n"), Some(x), "exec", Bytes, None, Some(Ref(x, "r")))
  }

  function Reached(x: ContentIdentity): Checkpoint {
    Checkpoint("epoch", 0, 0, "first", [], COVERED, [], 0, true, Some(Ref(x, "s")), Some(Ref(x, "r")), BOUNDARY)
  }

  function Observed(x: ContentIdentity): ProcessObservation {
    ProcessObservation("p", INSTANCE, Binding(x), "g", ["e"], ["n"], "collector", "1", "exec", Some(Ref(x, "r")), Some(Ref(x, "r")),
                       [Begun(x)], Reached(x), Running)
  }

  function Required(x: ContentIdentity): ExpectedProcess {
    ExpectedProcess("p", INSTANCE, ProcessFrontier("i", "epoch", 0, "first", [], Ref(x, "r")), COVERED)
  }

  // -- the documents and what is verified of them

  function GraphRef(x: ContentIdentity, identify: Identify): EvidenceRef {
    EvidenceRef(GRAPH_SCHEMA, identify(GraphClaim(Graph(x))), "qa", "graph")
  }

  function Envelope(x: ContentIdentity, identify: Identify): ClosureEnvelope {
    ClosureEnvelope("envelope", GraphRef(x, identify), [], Binding(x), BOUNDARY, [Observed(x)], [])
  }

  function Expectation(x: ContentIdentity, identify: Identify): NativeClosureExpectation {
    NativeClosureExpectation(Binding(x), BOUNDARY, GraphRef(x, identify), Ref(x, "r"), [Required(x)], [])
  }

  function OneProcess(x: ContentIdentity, identify: Identify): Case {
    Case(ReviewedSourceGraph(Graph(x), identify(GraphClaim(Graph(x)))),
         LoadedClosureEnvelope(Envelope(x, identify), identify(EnvelopeClaim(Envelope(x, identify)))),
         Expectation(x, identify))
  }

  function Claims(x: ContentIdentity): seq<(string, Purpose, Claim)> {
    var process, collector := ProcessIdOf(Observed(x)), CollectorIdOf(Observed(x));
    [("r", Review, GraphClaim(Graph(x))), ("r", ArtifactPurpose, NodeClaim(Runtime(x), [Runtime(x)])), ("r", Policy, ProfileClaim(Runs(x))),
     ("r", ProcessPurpose, ProcessClaim(process)), ("r", Collector, CollectorClaim(collector)), ("s", Collector, InitialClaim(collector)),
     ("r", CheckpointPurpose, CheckpointClaim(process, Reached(x))), ("r", Event, EventClaim(process, "epoch", Begun(x)))]
  }

  function FactsOf(x: ContentIdentity, identify: Identify): seq<VerifiedOriginFact> {
    var claims := Claims(x);
    seq(|claims|, i requires 0 <= i < |claims| => VerifiedOriginFact(Ref(x, claims[i].0), claims[i].1, identify(claims[i].2)))
  }

  function Verified(x: ContentIdentity, identify: Identify): VerifiedClosureOrigins {
    VerifiedClosureOrigins(Some(identify(GraphClaim(Graph(x)))), Some(identify(EnvelopeClaim(Envelope(x, identify)))),
                           Some(identify(ExpectationClaim(Expectation(x, identify)))), Some("valid"), FactsOf(x, identify))
  }

  lemma {:induction false} FactsDiffer(x: ContentIdentity, identify: Identify)
    ensures UniqueFacts(FactsOf(x, identify))
  {
    var claims := Claims(x);
    assert forall i, j :: 0 <= i < j < |claims| ==> claims[i].0 != claims[j].0 || claims[i].1 != claims[j].1;
  }

  lemma {:induction false} FactHolds(x: ContentIdentity, identify: Identify, i: nat)
    requires i < |Claims(x)|
    ensures var c := Claims(x)[i]; Verifies(FactMap(FactsOf(x, identify)), Some(Ref(x, c.0)), c.1, identify(c.2))
  {
    FactsDiffer(x, identify);
    FactsRecorded(FactsOf(x, identify));
    assert FactsOf(x, identify)[i] in FactsOf(x, identify);
  }

  // -- every part agrees

  lemma {:induction false} OneNode(x: ContentIdentity)
    ensures NodesById(Graph(x).nodes) == map["n" := Runtime(x)] && EntriesById(Graph(x).entrypoints).Keys == {"e"}
    ensures ProfilesById(Graph(x).processProfiles).Keys == {"p"}
  {
    var g := Graph(x);
    assert Runtime(x) in g.nodes && g.entrypoints[0] in g.entrypoints && g.processProfiles[0] in g.processProfiles;
  }

  lemma {:induction false} ProfileHolds(x: ContentIdentity)
    ensures ProfilesOk(Graph(x))
  {
    OneNode(x);
    assert "n" in Runs(x).runtimeNodes;
  }

  lemma {:induction false} ListsHold(x: ContentIdentity)
    ensures DistinctIds(Graph(x)) && SpelledIds(Graph(x)) && RepositoriesOk(Graph(x))
  {
  }

  lemma {:induction false} GraphFits(x: ContentIdentity)
    ensures GraphOk(Graph(x))
  {
    OneNode(x);
    ProfileHolds(x);
    ListsHold(x);
    assert Graph(x).entrypoints != [] && Graph(x).processProfiles != [] && Graph(x).nodes != [];
  }

  lemma {:induction false} EnvelopeFits(x: ContentIdentity, identify: Identify)
    ensures EnvelopeOk(Envelope(x, identify)) && BoundaryOk(Binding(x), BOUNDARY)
  {
  }

  lemma {:induction false} GraphHolds(x: ContentIdentity, identify: Identify)
    ensures GraphProven(Graph(x), FactMap(FactsOf(x, identify)), identify)
  {
    var facts := FactMap(FactsOf(x, identify));
    OneNode(x);
    FactHolds(x, identify, 1);
    FactHolds(x, identify, 2);
    assert Lookup(NodesById(Graph(x).nodes), RelatedIds(Runtime(x).provenance)) == [Runtime(x)];
  }

  lemma {:induction false} DocumentsHold(x: ContentIdentity, identify: Identify)
    ensures DocumentsGenuine(OneProcess(x, identify), Verified(x, identify), identify)
  {
    FactHolds(x, identify, 0);
    GraphHolds(x, identify);
  }

  lemma {:induction false} EventHolds(x: ContentIdentity, identify: Identify)
    ensures EventsFaithful(NodesById(Graph(x).nodes), Some(Runs(x)), Observed(x), FactMap(FactsOf(x, identify)), identify)
  {
    OneNode(x);
    FactHolds(x, identify, 7);
  }

  lemma {:induction false} WitnessesHold(x: ContentIdentity, identify: Identify)
    ensures Witnessed(Observed(x), FactMap(FactsOf(x, identify)), identify)
  {
    FactHolds(x, identify, 3);
    FactHolds(x, identify, 4);
    FactHolds(x, identify, 5);
    FactHolds(x, identify, 6);
  }

  lemma {:induction false} ProcessIdentified(x: ContentIdentity, identify: Identify)
    ensures FindProfile(Graph(x).processProfiles, "p") == Some(Runs(x))
    ensures Identified(Observed(x), Required(x), Graph(x), Envelope(x, identify))
  {
  }

  lemma {:induction false} AllCovered(x: ContentIdentity)
    ensures Covered(Observed(x), Required(x))
  {
  }

  lemma {:induction false} ProcessSealed(x: ContentIdentity, identify: Identify)
    ensures Sealed(Observed(x), Required(x), Envelope(x, identify))
  {
    AllCovered(x);
  }

  lemma {:induction false} HistoryWhole(x: ContentIdentity)
    ensures WholeHistory(Observed(x)) && ChildrenAnnounced(Observed(x))
  {
  }

  lemma {:induction false} ProcessLoads(x: ContentIdentity)
    ensures LoadsComplete(Some(Runs(x)), EntriesById(Graph(x).entrypoints), Loads(Observed(x).events))
  {
    OneNode(x);
    assert "n" in Loads(Observed(x).events) by { assert Begun(x) in Observed(x).events; }
    assert EntriesById(Graph(x).entrypoints)["e"] == Graph(x).entrypoints[0];
  }

  lemma {:induction false} ProcessHolds(x: ContentIdentity, identify: Identify)
    ensures ProcessFaithful(Observed(x), Required(x), Graph(x), Envelope(x, identify), FactMap(FactsOf(x, identify)), identify)
  {
    ProcessIdentified(x, identify);
    WitnessesHold(x, identify);
    ProcessSealed(x, identify);
    HistoryWhole(x);
    EventHolds(x, identify);
    ProcessLoads(x);
  }

  lemma {:induction false} OneInstance(x: ContentIdentity, identify: Identify)
    ensures RequiredBy([Required(x)]) == map["i" := Required(x)] && ActualBy([Observed(x)]) == map["i" := Observed(x)]
    ensures RosterExact(OneProcess(x, identify))
  {
    assert Required(x) in [Required(x)] && Observed(x) in [Observed(x)];
  }

  lemma {:induction false} PlaceHolds(x: ContentIdentity)
    ensures var actual := map["i" := Observed(x)]; ParentFits(Graph(x).processProfiles, actual, "i") && ChildrenFit(actual, "i")
  {
  }

  lemma {:induction false} InstanceHolds(x: ContentIdentity, identify: Identify)
    ensures KeyFaithful(OneProcess(x, identify), FactMap(FactsOf(x, identify)), identify, "i")
  {
    OneInstance(x, identify);
    ProcessHolds(x, identify);
    PlaceHolds(x);
  }

  lemma {:induction false} OneProcessFaithful(x: ContentIdentity, identify: Identify)
    ensures Faithful(OneProcess(x, identify), Verified(x, identify), identify)
  {
    DocumentsHold(x, identify);
    OneInstance(x, identify);
    InstanceHolds(x, identify);
  }

  lemma {:induction false} OneProcessAcceptable(x: ContentIdentity, identify: Identify)
    requires identify(GraphClaim(Graph(x))).byteLength <= MAX_DOCUMENT
    requires identify(EnvelopeClaim(Envelope(x, identify))).byteLength <= MAX_DOCUMENT
    ensures WholeComparison.Acceptable(OneProcess(x, identify), Verified(x, identify), identify)
  {
    GraphFits(x);
    EnvelopeFits(x, identify);
    FactsDiffer(x, identify);
  }

  /** Whatever the identities are, so long as the two documents are within the size limit, this case matches. */
  lemma {:induction false} OneProcessMatches(x: ContentIdentity, identify: Identify)
    requires identify(GraphClaim(Graph(x))).byteLength <= MAX_DOCUMENT
    requires identify(EnvelopeClaim(Envelope(x, identify))).byteLength <= MAX_DOCUMENT
    ensures Matches(OneProcess(x, identify), Verified(x, identify), identify)
  {
    OneProcessAcceptable(x, identify);
    OneProcessFaithful(x, identify);
    MatchIsExact(OneProcess(x, identify), Verified(x, identify), identify);
  }
}
