/** What contradicts and what leaves a gap, spelled out on the four documents: no judgement is named here. */
module Causes {
  import opened Records
  import opened Provenance
  import opened WholeComparison

  // -- verified facts

  /** The facts hold another claim for the reference. */
  ghost predicate Mistaken(facts: seq<VerifiedOriginFact>, ref: Option<EvidenceRef>, purpose: Purpose, claim: ContentIdentity) {
    ref.Some? && exists f :: f in facts && f.ref == ref.value && f.purpose == purpose && f.claim != claim
  }

  /** The facts say nothing of the reference, or there is none. */
  ghost predicate Unverified(facts: seq<VerifiedOriginFact>, ref: Option<EvidenceRef>, purpose: Purpose) {
    ref.None? || forall f :: f in facts ==> !(f.ref == ref.value && f.purpose == purpose)
  }

  // -- the graph's own provenance

  /** The nodes that the ids name, in order. */
  ghost predicate Named(g: SourceGraph, ids: seq<string>, related: seq<SourceNode>) {
    |related| == |ids| && forall i :: 0 <= i < |ids| ==> related[i] in g.nodes && related[i].id == ids[i]
  }

  ghost predicate NodeMistaken(g: SourceGraph, facts: seq<VerifiedOriginFact>, identify: Identify, n: SourceNode, ids: seq<string>,
                               ref: Option<EvidenceRef>, purpose: Purpose) {
    exists related :: Named(g, ids, related) && Mistaken(facts, ref, purpose, identify(NodeClaim(n, related)))
  }

  ghost predicate GitRefuted(g: SourceGraph, facts: seq<VerifiedOriginFact>, identify: Identify, n: SourceNode)
    requires n.provenance.Git?
  {
    var p := n.provenance;
    || (exists repo :: repo in g.repositories && repo.id == p.repository
          && (|| p.commit != repo.commit || p.tree != repo.tree || p.mode != n.mode
              || Mistaken(facts, p.membershipRef, Membership, identify(MembershipClaim(repo, n)))))
    || (p.gitRepresentation == Symlink && p.mode != "120000") || (p.gitRepresentation != Symlink && p.mode == "120000")
    || (p.gitRepresentation == Submodule && p.mode != "160000") || (p.gitRepresentation != Submodule && p.mode == "160000")
  }

  ghost predicate NodeRefuted(g: SourceGraph, facts: seq<VerifiedOriginFact>, identify: Identify, n: SourceNode, r: Reason) {
    match n.provenance
    case Git(_, _, _, _, _, _, _, _, _) => r == GIT_MEMBERSHIP && GitRefuted(g, facts, identify, n)
    case Generated(generators, inputs, toolchain, _, output, _, ref) =>
      r == GENERATED_PROVENANCE && (n.content != output || NodeMistaken(g, facts, identify, n, generators + inputs + toolchain, ref, Generation))
    case Cached(sources, interpreter, _, executed, ref) =>
      r == CACHED_CODE && (n.content != executed || NodeMistaken(g, facts, identify, n, sources + [interpreter], ref, CachePurpose))
    case Artifact(artifact, _, sources, dependencies, interpreter, _, _, _, ref) =>
      r == RUNTIME_PROVENANCE &&
        (|| n.content != artifact
         || (exists m :: m in g.nodes && m.id == interpreter && m.kind != Interpreter)
         || NodeMistaken(g, facts, identify, n, sources + dependencies + [interpreter], ref, ArtifactPurpose))
  }

  ghost predicate NodeOpen(facts: seq<VerifiedOriginFact>, n: SourceNode, r: Reason) {
    match n.provenance
    case Git(_, _, _, _, _, _, ref, chain, form) =>
      || (r == GIT_MEMBERSHIP && Unverified(facts, ref, Membership))
      || (r == COVERAGE_GAP && form != Regular && chain == [])
    case Generated(generators, inputs, toolchain, _, _, _, ref) =>
      r == GENERATED_PROVENANCE && (Unverified(facts, ref, Generation) || generators == [] || inputs == [] || toolchain == [])
    case Cached(sources, _, _, _, ref) => r == CACHED_CODE && (Unverified(facts, ref, CachePurpose) || sources == [])
    case Artifact(_, _, _, _, _, _, _, _, ref) => r == RUNTIME_PROVENANCE && Unverified(facts, ref, ArtifactPurpose)
  }

  ghost predicate GraphRefuted(g: SourceGraph, facts: seq<VerifiedOriginFact>, identify: Identify, r: Reason) {
    || (exists n :: n in g.nodes && NodeRefuted(g, facts, identify, n, r))
    || (r == COVERAGE_GAP && exists e :: e in g.edges && Mistaken(facts, e.conditionRef, Condition, identify(EdgeClaim(e))))
    || (r == COVERAGE_GAP && exists p :: p in g.processProfiles && Mistaken(facts, Some(p.loadPolicyRef), Policy, identify(ProfileClaim(p))))
  }

  ghost predicate GraphOpen(g: SourceGraph, facts: seq<VerifiedOriginFact>, r: Reason) {
    || (exists n :: n in g.nodes && NodeOpen(facts, n, r))
    || (r == COVERAGE_GAP && exists e :: e in g.edges && e.conditionRef.Some? && Unverified(facts, e.conditionRef, Condition))
    || (r == COVERAGE_GAP && exists p :: p in g.processProfiles && Unverified(facts, Some(p.loadPolicyRef), Policy))
  }

  // -- the documents as wholes

  ghost predicate MappingRefuted(g: SourceGraph, facts: seq<VerifiedOriginFact>, identify: Identify, m: LegacyNodeLink, r: Reason) {
    || (r == BYTE_SUBSTITUTION && forall n :: n in g.nodes && n.id == m.graphNodeId ==> n.content != m.content)
    || (r == REVIEW_ORIGIN && ((exists n :: n in g.nodes && n.id == m.graphNodeId
                                            && Mistaken(facts, Some(m.provenanceRef), Legacy, identify(LegacyNodeClaim(m, Some(n)))))
                               || ((forall n :: n in g.nodes ==> n.id != m.graphNodeId)
                                   && Mistaken(facts, Some(m.provenanceRef), Legacy, identify(LegacyNodeClaim(m, None))))))
  }

  ghost predicate LinkRefuted(g: SourceGraph, facts: seq<VerifiedOriginFact>, identify: Identify, link: LegacyLink, r: Reason) {
    || (r == REVIEW_ORIGIN && Mistaken(facts, Some(link.legacyRef), Legacy, identify(LegacyLinkClaim(link))))
    || exists m :: m in link.nodeMap && MappingRefuted(g, facts, identify, m, r)
  }

  ghost predicate LinkOpen(facts: seq<VerifiedOriginFact>, link: LegacyLink) {
    || Unverified(facts, Some(link.legacyRef), Legacy)
    || exists m :: m in link.nodeMap && Unverified(facts, Some(m.provenanceRef), Legacy)
  }

  ghost predicate Supplies(supplied: Option<ContentIdentity>, other: ContentIdentity) {
    supplied.Some? && supplied.value != other
  }

  ghost predicate DocumentsRefuted(c: Case, v: VerifiedClosureOrigins, identify: Identify, r: Reason) {
    var g, x, want := c.reviewed.graph, c.observed.envelope, c.expected;
    || (r == REVIEW_ORIGIN &&
        (|| c.reviewed.content != identify(GraphClaim(g)) || Supplies(v.reviewedBytes, identify(GraphClaim(g)))
         || x.reviewedGraph != want.reviewedGraph || x.reviewedGraph.content != identify(GraphClaim(g))
         || (g.completenessReviewRef.Some? && g.completenessReviewRef.value != want.reviewRef)
         || Mistaken(v.facts, g.completenessReviewRef, Review, identify(GraphClaim(g)))
         || x.legacyLinks != want.legacyLinks))
    || (r == OBSERVER_ORIGIN && (c.observed.content != identify(EnvelopeClaim(x)) || Supplies(v.observedBytes, identify(EnvelopeClaim(x)))))
    || (r == BINDING && (Supplies(v.expectation, identify(ExpectationClaim(want))) || x.binding != want.binding || x.boundary != want.boundary))
    || GraphRefuted(g, v.facts, identify, r)
    || exists link :: link in x.legacyLinks && LinkRefuted(g, v.facts, identify, link, r)
  }

  ghost predicate DocumentsOpen(c: Case, v: VerifiedClosureOrigins, r: Reason) {
    var g, x, want := c.reviewed.graph, c.observed.envelope, c.expected;
    || (r == REVIEW_ORIGIN && (v.reviewedBytes.None? || Unverified(v.facts, g.completenessReviewRef, Review)
                               || exists link :: link in x.legacyLinks && LinkOpen(v.facts, link)))
    || (r == OBSERVER_ORIGIN && v.observedBytes.None?)
    || (r == BINDING && v.expectation.None?)
    || (r == STALE_FRONTIER && v.validityCheckpoint != Some(want.boundary.validityCheckpoint))
    || (r == COVERAGE_GAP && g.completenessReviewRef.None?)
    || GraphOpen(g, v.facts, r)
  }

  // -- the roster

  ghost predicate IsExpected(c: Case, id: string) {
    exists q :: q in c.expected.processes && q.instance.instanceId == id
  }

  ghost predicate IsObserved(c: Case, id: string) {
    exists p :: p in c.observed.envelope.processObservations && p.instance.instanceId == id
  }

  ghost predicate RosterRefuted(c: Case, r: Reason) {
    r == PROCESS_INSTANCE && (SeenTwice(c.observed.envelope.processObservations) || SeenUnexpected(c))
  }

  ghost predicate SeenUnexpected(c: Case) {
    exists p :: p in c.observed.envelope.processObservations && !IsExpected(c, p.instance.instanceId)
  }

  ghost predicate SeenTwice(processes: seq<ProcessObservation>) {
    exists i, j :: 0 <= i < j < |processes| && processes[i].instance.instanceId == processes[j].instance.instanceId
  }

  /** An expected process that was not observed. */
  ghost predicate Absent(c: Case, q: ExpectedProcess) {
    q in c.expected.processes && !IsObserved(c, q.instance.instanceId)
  }

  /** A profile's process of one half, on the host or in a container. */
  ghost predicate OfHalf(g: SourceGraph, profileId: string, location: Location, host: bool) {
    && location == (if host then Host else Container)
    && exists f :: f in g.processProfiles && f.id == profileId
         && (if host then f.role in {Creator, Controller, Executor, Checker, Registry, Verifier, Observer, Comparator, Dispatcher} else f.role == Worker)
  }

  ghost predicate HalfSeen(c: Case, host: bool) {
    var g := c.reviewed.graph;
    && (exists q :: q in c.expected.processes && OfHalf(g, q.profileId, q.instance.location, host))
    && (exists p :: p in c.observed.envelope.processObservations && OfHalf(g, p.profileId, p.instance.location, host))
  }

  ghost predicate AnyAbsent(c: Case) {
    exists q :: Absent(c, q)
  }

  ghost predicate ChildAbsent(c: Case) {
    exists q :: Absent(c, q) && q.instance.parentInstance.Some?
  }

  /** Absent processes are a matter of child coverage if one of them has a parent. */
  ghost predicate MissingOpen(c: Case, r: Reason) {
    (r == CHILD_COVERAGE && ChildAbsent(c)) || (r == PROCESS_INSTANCE && AnyAbsent(c) && !ChildAbsent(c))
  }

  ghost predicate RosterOpen(c: Case, r: Reason) {
    || (r == COVERAGE_GAP && c.expected.processes == [])
    || MissingOpen(c, r)
    || (r == COVERAGE_GAP && c.observed.envelope.boundary.phase in {BPreRequest, CPreRequest, CPreExecution, CBeforeCount}
        && !(HalfSeen(c, true) && HalfSeen(c, false)))
  }

  // -- one process

  function ProcessOf(p: ProcessObservation): Claim {
    ProcessClaim(ProcessId(p.instance, p.profileId, p.binding, p.graphId))
  }

  function CollectorOf(p: ProcessObservation): CollectorId {
    CollectorId(ProcessId(p.instance, p.profileId, p.binding, p.graphId), p.collectorId, p.collectorVersion, p.mechanism,
                p.checkpoint.epoch, p.checkpoint.coverage)
  }

  function EventOf(p: ProcessObservation, e: LoadEvent): Claim {
    EventClaim(ProcessId(p.instance, p.profileId, p.binding, p.graphId), p.checkpoint.epoch, e)
  }

  function CheckpointOf(p: ProcessObservation): Claim {
    CheckpointClaim(ProcessId(p.instance, p.profileId, p.binding, p.graphId), p.checkpoint)
  }

  /** The profile the process is required to run. */
  ghost predicate RunsAs(g: SourceGraph, q: ExpectedProcess, f: ProcessProfile) {
    f in g.processProfiles && f.id == q.profileId
  }

  /** The event loads node `n`, which is reviewed and allowed. */
  ghost predicate LoadsReviewed(g: SourceGraph, q: ExpectedProcess, e: LoadEvent, n: SourceNode) {
    e.nodeId == Some(n.id) && n in g.nodes && exists f :: RunsAs(g, q, f) && n.id in f.allowedNodeIds
  }

  /** The bytes a node is reviewed to run as. */
  ghost predicate RunsBytes(n: SourceNode, content: ContentIdentity) {
    match n.provenance
    case Git(_, _, _, _, _, _, _, _, _) => content == n.content
    case Generated(_, _, _, _, _, execution, _) => content == execution
    case Artifact(_, _, _, _, _, _, _, loaded, _) => content == loaded
    case Cached(_, _, _, _, _) => content == n.content
  }

  /** The form a node is reviewed to be loaded in. */
  ghost predicate FormDiffers(n: SourceNode, e: LoadEvent) {
    n.provenance.Artifact? && e.representation != n.provenance.representation
  }

  ghost predicate Substituted(n: SourceNode, e: LoadEvent) {
    e.loaded.None? || !RunsBytes(n, e.loaded.value)
  }

  ghost predicate EventRefuted(g: SourceGraph, facts: seq<VerifiedOriginFact>, identify: Identify, p: ProcessObservation, q: ExpectedProcess,
                               e: LoadEvent, r: Reason) {
    || (r == OBSERVER_ORIGIN && Mistaken(facts, e.originRef, Event, identify(EventOf(p, e))))
    || (r == UNREVIEWED_LOAD && e.nodeId.Some? && forall n :: !LoadsReviewed(g, q, e, n))
    || (r == BYTE_SUBSTITUTION && exists n :: LoadsReviewed(g, q, e, n) && Substituted(n, e))
    || (r == CACHED_CODE && exists n :: LoadsReviewed(g, q, e, n) && Substituted(n, e) && n.kind == CachedCode)
    || (r == RUNTIME_PROVENANCE && exists n :: LoadsReviewed(g, q, e, n) && FormDiffers(n, e))
  }

  ghost predicate EventOpen(g: SourceGraph, facts: seq<VerifiedOriginFact>, q: ExpectedProcess, e: LoadEvent, r: Reason) {
    || (r == OBSERVER_ORIGIN && Unverified(facts, e.originRef, Event))
    || (r == RUNTIME_PROVENANCE && e.representation != Bytes
        && exists n :: LoadsReviewed(g, q, e, n) && (FormDiffers(n, e) || !n.provenance.Artifact?))
  }

  /** An end that is not the last event, or any end of a process still running. */
  ghost predicate EndsBadly(p: ProcessObservation) {
    exists i :: 0 <= i < |p.events| && p.events[i].kind == End && (i < |p.events| - 1 || p.state == Running)
  }

  ghost predicate ProfileRefuted(p: ProcessObservation, f: ProcessProfile, r: Reason) {
    || (r == PROCESS_INSTANCE &&
        (|| p.entrypointIds != f.entrypointIds
         || (f.role in {Creator, Controller, Executor, Checker, Registry, Verifier, Observer, Comparator, Dispatcher} && p.instance.location == Container)
         || (f.role == Worker && p.instance.location == Host)))
    || (r == RUNTIME_PROVENANCE && (p.runtimeNodes != f.runtimeNodes || p.instance.runtimeId !in f.runtimeNodes))
  }

  /** Two events share a number or an id and differ. */
  ghost predicate EventsClash(p: ProcessObservation) {
    exists i, j :: 0 <= i < j < |p.events| && p.events[i] != p.events[j]
      && (p.events[i].sequence == p.events[j].sequence || p.events[i].eventId == p.events[j].eventId)
  }

  ghost predicate ProcessRefuted(c: Case, facts: seq<VerifiedOriginFact>, identify: Identify, p: ProcessObservation, q: ExpectedProcess, r: Reason) {
    var g, x := c.reviewed.graph, c.observed.envelope;
    || (r == PROCESS_INSTANCE &&
        (|| p.instance != q.instance || p.profileId != q.profileId || (forall f :: !RunsAs(g, q, f))
         || Mistaken(facts, p.processRef, ProcessPurpose, identify(ProcessOf(p))) || EndsBadly(p)))
    || (r == BINDING && (p.binding != x.binding || p.graphId != g.graphId))
    || (exists f :: RunsAs(g, q, f) && ProfileRefuted(p, f, r))
    || (r == OBSERVER_ORIGIN &&
        (|| Mistaken(facts, p.collectorRef, Collector, identify(CollectorClaim(CollectorOf(p))))
         || Mistaken(facts, p.checkpoint.checkpointRef, CheckpointPurpose, identify(CheckpointOf(p)))))
    || (r == COVERAGE_GAP && Mistaken(facts, p.checkpoint.initialStateRef, Collector, identify(InitialClaim(CollectorOf(p)))))
    || (r == SEQUENCE_GAP && EventsClash(p))
    || (exists e :: e in p.events && EventRefuted(g, facts, identify, p, q, e, r))
    || (r == REQUIRED_LOAD && LoadMissing(g, p, q) && !Excused(c, facts, p, q))
  }

  /** The observed frontier is not the expected one. */
  ghost predicate FrontierMoved(p: ProcessObservation, q: ExpectedProcess) {
    var cp, f := p.checkpoint, q.frontier;
    || cp.checkpointRef != Some(f.checkpointRef) || f.instanceId != p.instance.instanceId || f.epoch != cp.epoch
    || f.lastSequence != cp.lastSequence || f.lastEventId != cp.lastEventId || f.childFrontier != cp.childFrontier
  }

  ghost predicate Uncovered(p: ProcessObservation, q: ExpectedProcess) {
    var cp := p.checkpoint;
    || !cp.sealed || cp.lossCount > 0 || cp.gaps != []
    || (exists k :: k in q.coverage && k !in cp.coverage) || (exists k :: k !in cp.coverage || k !in q.coverage)
    || p.events == [] || p.events[0].kind != Start || (p.state == Terminated && p.events[|p.events| - 1].kind != End)
  }

  /** The events are not numbered 0, 1, 2, … up to the number attested. */
  ghost predicate Misnumbered(p: ProcessObservation) {
    var cp, n := p.checkpoint, |p.events|;
    n == 0 || cp.firstSequence != 0 || cp.lastSequence != n - 1 || exists i :: 0 <= i < n && p.events[i].sequence != i
  }

  ghost predicate ChildrenUnannounced(p: ProcessObservation) {
    || (exists k :: k in p.checkpoint.childFrontier && forall e :: e in p.events ==> e.childInstance != Some(k))
    || (exists e :: e in p.events && e.childInstance.Some? && e.childInstance.value !in p.checkpoint.childFrontier)
  }

  /** What is open about a process, its missing loads aside. */
  ghost predicate ObservationOpen(c: Case, facts: seq<VerifiedOriginFact>, p: ProcessObservation, q: ExpectedProcess, r: Reason) {
    || (r == PROCESS_INSTANCE &&
        (Unverified(facts, p.processRef, ProcessPurpose) || exists i :: 1 <= i < |p.events| && (p.events[i].kind == Start || p.events[i].kind == Exec)))
    || (r == OBSERVER_ORIGIN && (Unverified(facts, p.collectorRef, Collector) || Unverified(facts, p.checkpoint.checkpointRef, CheckpointPurpose)))
    || (r == COVERAGE_GAP && (Unverified(facts, p.checkpoint.initialStateRef, Collector) || Uncovered(p, q)))
    || (r == STALE_FRONTIER && (|| FrontierMoved(p, q) || p.checkpoint.boundary != c.observed.envelope.boundary
                                || (p.events != [] && p.checkpoint.lastEventId != p.events[|p.events| - 1].eventId)))
    || (r == SEQUENCE_GAP && Misnumbered(p))
    || (r == CHILD_COVERAGE && ChildrenUnannounced(p))
    || (exists e :: e in p.events && EventOpen(c.reviewed.graph, facts, q, e, r))
  }

  /** A node the profile must load was not: a required or runtime node, or a node of an entrypoint or its chain. */
  ghost predicate LoadMissing(g: SourceGraph, p: ProcessObservation, q: ExpectedProcess) {
    exists f, id :: RunsAs(g, q, f) && MustLoad(g, f, id) && forall e :: e in p.events ==> e.nodeId != Some(id)
  }

  ghost predicate MustLoad(g: SourceGraph, f: ProcessProfile, id: string) {
    || id in f.requiredLoadIds || id in f.runtimeNodes
    || exists e :: e in g.entrypoints && e.id in f.entrypointIds && (id == e.node || id in e.bootstrapChain)
  }

  /** Something open about the observation itself excuses it. */
  ghost predicate Excused(c: Case, facts: seq<VerifiedOriginFact>, p: ProcessObservation, q: ExpectedProcess) {
    || ObservationOpen(c, facts, p, q, COVERAGE_GAP) || ObservationOpen(c, facts, p, q, SEQUENCE_GAP)
    || ObservationOpen(c, facts, p, q, OBSERVER_ORIGIN) || ObservationOpen(c, facts, p, q, STALE_FRONTIER)
  }

  ghost predicate ProcessOpen(c: Case, facts: seq<VerifiedOriginFact>, p: ProcessObservation, q: ExpectedProcess, r: Reason) {
    ObservationOpen(c, facts, p, q, r) || (r == REQUIRED_LOAD && LoadMissing(c.reviewed.graph, p, q) && Excused(c, facts, p, q))
  }

  // -- the process tree

  /** The observation that counts for an instance: the last one. */
  ghost predicate CountsFor(c: Case, id: string, p: ProcessObservation) {
    var processes := c.observed.envelope.processObservations;
    exists i :: 0 <= i < |processes| && processes[i] == p && p.instance.instanceId == id
                && forall j :: i < j < |processes| ==> processes[j].instance.instanceId != id
  }

  /** The parent announces the process, and no profile of the parent's may start the process's. */
  ghost predicate ParentRefuted(c: Case, p: ProcessObservation) {
    p.instance.parentInstance.Some?
    && exists parent :: CountsFor(c, p.instance.parentInstance.value, parent) && p.instance.instanceId in parent.checkpoint.childFrontier
         && forall f :: f in c.reviewed.graph.processProfiles && f.id == parent.profileId ==> p.profileId !in f.childProfiles
  }

  /** The parent was not observed or does not announce the process. */
  ghost predicate ParentOpen(c: Case, p: ProcessObservation) {
    p.instance.parentInstance.Some?
    && forall parent :: CountsFor(c, p.instance.parentInstance.value, parent) ==> p.instance.instanceId !in parent.checkpoint.childFrontier
  }

  /** An announced child that was observed with another parent, or with none. */
  ghost predicate ChildRefuted(c: Case, p: ProcessObservation) {
    exists child: ProcessObservation :: child.instance.instanceId in p.checkpoint.childFrontier
      && CountsFor(c, child.instance.instanceId, child) && child.instance.parentInstance != Some(p.instance.instanceId)
  }

  ghost predicate ChildOpen(c: Case, p: ProcessObservation) {
    exists child :: child in p.checkpoint.childFrontier && !IsObserved(c, child)
  }

  ghost predicate TreeRefuted(c: Case, p: ProcessObservation, r: Reason) {
    r == CHILD_COVERAGE && (ParentRefuted(c, p) || ChildRefuted(c, p))
  }

  ghost predicate TreeOpen(c: Case, p: ProcessObservation, r: Reason) {
    r == CHILD_COVERAGE && (ParentOpen(c, p) || ChildOpen(c, p))
  }

  // -- the whole

  /** An expected process and the observation that counts for it. */
  ghost predicate Paired(c: Case, p: ProcessObservation, q: ExpectedProcess) {
    q in c.expected.processes && CountsFor(c, q.instance.instanceId, p)
  }

  ghost predicate PairRefuted(c: Case, facts: seq<VerifiedOriginFact>, identify: Identify, p: ProcessObservation, q: ExpectedProcess, r: Reason) {
    ProcessRefuted(c, facts, identify, p, q, r) || TreeRefuted(c, p, r)
  }

  ghost predicate PairOpen(c: Case, facts: seq<VerifiedOriginFact>, p: ProcessObservation, q: ExpectedProcess, r: Reason) {
    ProcessOpen(c, facts, p, q, r) || TreeOpen(c, p, r)
  }

  ghost predicate ProcessesRefuted(c: Case, facts: seq<VerifiedOriginFact>, identify: Identify, r: Reason) {
    exists p, q :: Paired(c, p, q) && PairRefuted(c, facts, identify, p, q, r)
  }

  ghost predicate ProcessesOpen(c: Case, facts: seq<VerifiedOriginFact>, r: Reason) {
    exists p, q :: Paired(c, p, q) && PairOpen(c, facts, p, q, r)
  }

  /** The reason contradicts. */
  ghost predicate Refuted(c: Case, v: VerifiedClosureOrigins, identify: Identify, r: Reason) {
    DocumentsRefuted(c, v, identify, r) || RosterRefuted(c, r) || ProcessesRefuted(c, v.facts, identify, r)
  }

  /** The reason leaves a gap. */
  ghost predicate LeftOpen(c: Case, v: VerifiedClosureOrigins, r: Reason) {
    DocumentsOpen(c, v, r) || RosterOpen(c, r) || ProcessesOpen(c, v.facts, r)
  }
}
