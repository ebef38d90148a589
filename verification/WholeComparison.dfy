/** What compare_loaded_source of p3_source_closure/comparison.py judges, over all processes and both documents. */
module WholeComparison {
  import opened Records
  import opened Judgement
  import opened Provenance
  import opened ReviewedGraph
  import opened LoadedEnvelope
  import opened Comparison
  import opened Sorting
  import opened Text

  /** The documents compared; the verified facts stand apart, since they are what may grow. */
  datatype Case = Case(reviewed: ReviewedSourceGraph, observed: LoadedClosureEnvelope, expected: NativeClosureExpectation)

  datatype Disposition = REFUSED | UNKNOWN | MATCH
  /** `Invalid` is the refusal of an input's grammar, which carries no comparison. */
  datatype Outcome =
    | Invalid
    | Compared(disposition: Disposition, reasons: set<Reason>, binding: ClosureBinding, boundary: ClosureBoundary,
               reviewedGraph: EvidenceRef, frontiers: seq<ProcessFrontier>)

  const MAX_DOCUMENT: nat := 16777216

  predicate UniqueFacts(facts: seq<VerifiedOriginFact>) {
    forall i, j :: 0 <= i < j < |facts| ==> !(facts[i].ref == facts[j].ref && facts[i].purpose == facts[j].purpose)
  }

  predicate UniqueProcesses(processes: seq<ExpectedProcess>) {
    forall i, j :: 0 <= i < j < |processes| ==> processes[i].instance.instanceId != processes[j].instance.instanceId
  }

  predicate Acceptable(c: Case, verified: VerifiedClosureOrigins, identify: Identify) {
    && GraphOk(c.reviewed.graph) && identify(GraphClaim(c.reviewed.graph)).byteLength <= MAX_DOCUMENT
    && EnvelopeOk(c.observed.envelope) && identify(EnvelopeClaim(c.observed.envelope)).byteLength <= MAX_DOCUMENT
    && BoundaryOk(c.expected.binding, c.expected.boundary)
    && UniqueFacts(verified.facts) && UniqueProcesses(c.expected.processes)
  }

  // -- both documents

  function ContentJudged(c: Case, identify: Identify): Judgement {
    Plus(Contradicts(c.reviewed.content != identify(GraphClaim(c.reviewed.graph)), REVIEW_ORIGIN),
         Contradicts(c.observed.content != identify(EnvelopeClaim(c.observed.envelope)), OBSERVER_ORIGIN))
  }

  function SuppliedJudged(supplied: Option<ContentIdentity>, identity: ContentIdentity, reason: Reason): Judgement {
    if supplied.None? then Lacks(true, reason) else Contradicts(supplied.value != identity, reason)
  }

  function InputsJudged(c: Case, verified: VerifiedClosureOrigins, identify: Identify): Judgement {
    Plus(Plus(SuppliedJudged(verified.reviewedBytes, identify(GraphClaim(c.reviewed.graph)), REVIEW_ORIGIN),
              SuppliedJudged(verified.observedBytes, identify(EnvelopeClaim(c.observed.envelope)), OBSERVER_ORIGIN)),
         Plus(SuppliedJudged(verified.expectation, identify(ExpectationClaim(c.expected)), BINDING),
              Lacks(verified.validityCheckpoint != Some(c.expected.boundary.validityCheckpoint), STALE_FRONTIER)))
  }

  function CompletenessJudged(ref: Option<EvidenceRef>, reviewRef: EvidenceRef): Judgement {
    if ref.None? then Lacks(true, COVERAGE_GAP) else Contradicts(ref.value != reviewRef, REVIEW_ORIGIN)
  }

  function ReviewJudged(c: Case, facts: Facts, identify: Identify): Judgement {
    var graph, envelope, identity := c.reviewed.graph, c.observed.envelope, identify(GraphClaim(c.reviewed.graph));
    Plus(Plus(Contradicts(envelope.reviewedGraph != c.expected.reviewedGraph || envelope.reviewedGraph.content != identity, REVIEW_ORIGIN),
              CompletenessJudged(graph.completenessReviewRef, c.expected.reviewRef)),
         Plus(OriginJudged(facts, graph.completenessReviewRef, Review, identity, REVIEW_ORIGIN),
              Contradicts(envelope.binding != c.expected.binding || envelope.boundary != c.expected.boundary, BINDING)))
  }

  // -- legacy links

  function MappedNode(nodes: map<string, SourceNode>, m: LegacyNodeLink): Option<SourceNode> {
    if m.graphNodeId in nodes then Some(nodes[m.graphNodeId]) else None
  }

  function MappingJudged(nodes: map<string, SourceNode>, facts: Facts, identify: Identify, m: LegacyNodeLink): Judgement {
    var node := MappedNode(nodes, m);
    Plus(Contradicts(node.None? || m.content != node.value.content, BYTE_SUBSTITUTION),
         OriginJudged(facts, Some(m.provenanceRef), Legacy, identify(LegacyNodeClaim(m, node)), REVIEW_ORIGIN))
  }

  ghost function LinkJudged(nodes: map<string, SourceNode>, facts: Facts, identify: Identify, link: LegacyLink): Judgement {
    Plus(OriginJudged(facts, Some(link.legacyRef), Legacy, identify(LegacyLinkClaim(link)), REVIEW_ORIGIN),
         Over(Elements(link.nodeMap), m => MappingJudged(nodes, facts, identify, m)))
  }

  ghost function LegacyJudged(c: Case, facts: Facts, identify: Identify): Judgement {
    var nodes := NodesById(c.reviewed.graph.nodes);
    Plus(Contradicts(c.observed.envelope.legacyLinks != c.expected.legacyLinks, REVIEW_ORIGIN),
         Over(Elements(c.observed.envelope.legacyLinks), link => LinkJudged(nodes, facts, identify, link)))
  }

  // -- which processes there are

  function RequiredBy(processes: seq<ExpectedProcess>): (m: map<string, ExpectedProcess>)
    ensures forall p :: p in processes ==> p.instance.instanceId in m
    ensures forall k :: k in m ==> m[k] in processes && m[k].instance.instanceId == k
  {
    LastByHolds(processes, (x: ExpectedProcess) => x.instance.instanceId);
    LastBy(processes, (x: ExpectedProcess) => x.instance.instanceId)
  }

  function ActualBy(processes: seq<ProcessObservation>): (m: map<string, ProcessObservation>)
    ensures forall p :: p in processes ==> p.instance.instanceId in m
    ensures forall k :: k in m ==> m[k] in processes && m[k].instance.instanceId == k
    ensures |m| <= |processes|
  {
    LastByHolds(processes, (x: ProcessObservation) => x.instance.instanceId);
    LastBy(processes, (x: ProcessObservation) => x.instance.instanceId)
  }

  predicate MissesChild(required: map<string, ExpectedProcess>, missing: set<string>) {
    exists k :: k in missing && k in required && required[k].instance.parentInstance.Some?
  }

  function MissingJudged(required: map<string, ExpectedProcess>, missing: set<string>): Judgement {
    Lacks(missing != {}, if MissesChild(required, missing) then CHILD_COVERAGE else PROCESS_INSTANCE)
  }

  function CensusJudged(required: map<string, ExpectedProcess>, actual: map<string, ProcessObservation>, observed: nat): Judgement {
    Plus(Plus(Contradicts(|actual| != observed, PROCESS_INSTANCE), Lacks(required == map[], COVERAGE_GAP)),
         Plus(MissingJudged(required, required.Keys - actual.Keys), Contradicts(actual.Keys - required.Keys != {}, PROCESS_INSTANCE)))
  }

  predicate InHalf(profiles: map<string, ProcessProfile>, profileId: string, location: Location, half: Location) {
    && location == half && profileId in profiles
    && (if half == Host then HostRole(profiles[profileId].role) else WorkerRole(profiles[profileId].role))
  }

  predicate HasHalf(c: Case, half: Location) {
    var profiles := ProfilesById(c.reviewed.graph.processProfiles);
    && (exists p :: p in c.expected.processes && InHalf(profiles, p.profileId, p.instance.location, half))
    && (exists p :: p in c.observed.envelope.processObservations && InHalf(profiles, p.profileId, p.instance.location, half))
  }

  function HalvesJudged(c: Case): Judgement {
    Lacks(c.observed.envelope.boundary.phase !in {APreCreate, APreArm} && !(HasHalf(c, Host) && HasHalf(c, Container)), COVERAGE_GAP)
  }

  // -- each process and its place in the tree

  function ParentJudged(profiles: seq<ProcessProfile>, actual: map<string, ProcessObservation>, key: string): Judgement
    requires key in actual
  {
    var parent := actual[key].instance.parentInstance;
    if parent.None? then CLEAR
    else if parent.value !in actual || key !in actual[parent.value].checkpoint.childFrontier then Lacks(true, CHILD_COVERAGE)
    else
      var profile := FindProfile(profiles, actual[parent.value].profileId);
      Contradicts(profile.None? || actual[key].profileId !in profile.value.childProfiles, CHILD_COVERAGE)
  }

  function ChildJudged(actual: map<string, ProcessObservation>, key: string, child: string): Judgement {
    if child !in actual then Lacks(true, CHILD_COVERAGE)
    else Contradicts(actual[child].instance.parentInstance != Some(key), CHILD_COVERAGE)
  }

  ghost function TreeJudged(profiles: seq<ProcessProfile>, actual: map<string, ProcessObservation>, key: string): Judgement
    requires key in actual
  {
    Plus(ParentJudged(profiles, actual, key),
         Over(Elements(actual[key].checkpoint.childFrontier), child => ChildJudged(actual, key, child)))
  }

  ghost function KeyJudged(c: Case, facts: Facts, identify: Identify, key: string): Judgement {
    var required, actual := RequiredBy(c.expected.processes), ActualBy(c.observed.envelope.processObservations);
    if key !in required || key !in actual then CLEAR
    else Plus(ProcessJudged(actual[key], required[key], c.reviewed.graph, c.observed.envelope, facts, identify),
              TreeJudged(c.reviewed.graph.processProfiles, actual, key))
  }

  ghost function ProcessesJudged(c: Case, facts: Facts, identify: Identify): Judgement {
    var required, actual := RequiredBy(c.expected.processes), ActualBy(c.observed.envelope.processObservations);
    Over(required.Keys * actual.Keys, key => KeyJudged(c, facts, identify, key))
  }

  // -- the whole

  ghost function DocumentsJudged(c: Case, verified: VerifiedClosureOrigins, identify: Identify): Judgement {
    var facts := FactMap(verified.facts);
    Plus(Plus(ContentJudged(c, identify), InputsJudged(c, verified, identify)),
         Plus(ReviewJudged(c, facts, identify),
              Plus(ProvenanceJudged(c.reviewed.graph, facts, identify), LegacyJudged(c, facts, identify))))
  }

  ghost function RosterJudged(c: Case): Judgement {
    Plus(CensusJudged(RequiredBy(c.expected.processes), ActualBy(c.observed.envelope.processObservations),
                      |c.observed.envelope.processObservations|), HalvesJudged(c))
  }

  ghost function WholeJudged(c: Case, verified: VerifiedClosureOrigins, identify: Identify): Judgement {
    Plus(DocumentsJudged(c, verified, identify), Plus(RosterJudged(c), ProcessesJudged(c, FactMap(verified.facts), identify)))
  }

  function DispositionOf(j: Judgement): Disposition {
    if j.contradictions != {} then REFUSED else if j.gaps != {} then UNKNOWN else MATCH
  }

  function FrontierLe(): (le: (ProcessFrontier, ProcessFrontier) -> bool) {
    (a: ProcessFrontier, b: ProcessFrontier) => LexLe(a.instanceId, b.instanceId)
  }

  function ExpectedFrontiers(processes: seq<ExpectedProcess>): (r: seq<ProcessFrontier>) {
    seq(|processes|, i requires 0 <= i < |processes| => processes[i].frontier)
  }

  function OutcomeOf(c: Case, j: Judgement): Outcome {
    Compared(DispositionOf(j), j.contradictions + j.gaps, c.expected.binding, c.expected.boundary, c.expected.reviewedGraph,
             if j == CLEAR then Sort(ExpectedFrontiers(c.expected.processes), FrontierLe()) else [])
  }

  ghost function LoadedSourceOutcome(c: Case, verified: VerifiedClosureOrigins, identify: Identify): Outcome {
    if !Acceptable(c, verified, identify) then Invalid else OutcomeOf(c, WholeJudged(c, verified, identify))
  }
}
