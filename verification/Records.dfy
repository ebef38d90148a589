/** The records of p3_source_closure/records.py that the comparator and the builder read.
    Python tuples are sequences; a field typed `X | None` is an Option. */
module Records {
  datatype Option<+T> = None | Some(value: T)

  datatype ContentIdentity = ContentIdentity(sha256: string, byteLength: nat)
  datatype EvidenceRef = EvidenceRef(schema: string, content: ContentIdentity, supplier: string, recordId: string)

  datatype ObjectFormat = Sha1 | Sha256
  datatype Repository = Repository(id: string, owner: string, objectFormat: ObjectFormat, commit: string, tree: string)

  datatype GitRepresentation = Regular | Symlink | Submodule | Lfs
  datatype Representation = Bytes | Relocated | Jit
  datatype Provenance =
    | Git(repository: string, commit: string, tree: string, path: string, mode: string, objectId: string,
          membershipRef: Option<EvidenceRef>, targetChain: seq<string>, gitRepresentation: GitRepresentation)
    | Generated(generators: seq<string>, inputs: seq<string>, toolchain: seq<string>, recipe: ContentIdentity,
                output: ContentIdentity, executionObject: ContentIdentity, generationRef: Option<EvidenceRef>)
    | Artifact(artifact: ContentIdentity, build: ContentIdentity, sources: seq<string>, dependencies: seq<string>,
               interpreter: string, abi: string, representation: Representation,
               loadedRepresentation: ContentIdentity, artifactRef: Option<EvidenceRef>)
    | Cached(sourceNodes: seq<string>, cacheInterpreter: string, cacheFormat: string,
             executed: ContentIdentity, cacheRef: Option<EvidenceRef>)

  datatype NodeKind = GitSource | GeneratedCode | Package | Interpreter | Stdlib | NativeBinary | Resource | CachedCode
  datatype SourceNode = SourceNode(id: string, kind: NodeKind, content: ContentIdentity, logicalOrigin: string,
                                   mode: string, provenance: Provenance)

  datatype EdgeKind = Bootstrap | Import | DynamicImport | ResourceUse | Generates | GeneratedInput | Links | CacheOf | Spawns
  datatype SourceEdge = SourceEdge(source: string, target: string, kind: EdgeKind, conditionRef: Option<EvidenceRef>)
  datatype Entrypoint = Entrypoint(id: string, profileId: string, node: string, symbol: string, bootstrapChain: seq<string>)

  datatype Role = Creator | Controller | Executor | Worker | Checker | Child | Registry | Verifier | Observer | Comparator | Dispatcher
  datatype ProcessProfile = ProcessProfile(id: string, role: Role, entrypointIds: seq<string>, runtimeNodes: seq<string>,
                                           allowedNodeIds: seq<string>, requiredLoadIds: seq<string>,
                                           childProfiles: seq<string>, loadPolicyRef: EvidenceRef)
  datatype SourceGraph = SourceGraph(graphId: string, repositories: seq<Repository>, nodes: seq<SourceNode>,
                                     edges: seq<SourceEdge>, entrypoints: seq<Entrypoint>,
                                     processProfiles: seq<ProcessProfile>, completenessReviewRef: Option<EvidenceRef>)

  datatype ClosureBinding = ClosureBinding(executionUuid: string, attempt: nat, dispatchNonce: string, jobRevision: string,
                                           selectionRevision: string, creationSubject: string, build: ContentIdentity,
                                           parentIdentity: string, windowId: Option<string>, creationAssociation: Option<string>)
  datatype Phase = APreCreate | APreArm | BPreRequest | CPreRequest | CPreExecution | CBeforeCount
  datatype ClosureBoundary = ClosureBoundary(phase: Phase, operation: string, requestId: Option<string>,
                                             receipt: Option<ContentIdentity>, barrierId: string, validityCheckpoint: string)

  datatype Location = Host | Container
  datatype ProcessInstance = ProcessInstance(instanceId: string, hostBoot: string, pid: nat, startIdentity: string,
                                             execEpoch: nat, parentInstance: Option<string>, launchIdentity: string,
                                             pidNamespace: string, mountNamespace: string, userNamespace: string,
                                             location: Location, containerIdentity: Option<string>, principal: string,
                                             uid: nat, gid: nat, supplementaryGroups: seq<nat>, runtimeId: string)

  datatype EventKind = Start | Load | Compile | Cache | Use | Exec | ChildStart | End
  datatype LoadEvent = LoadEvent(sequence: nat, eventId: string, kind: EventKind, nodeId: Option<string>,
                                 loaded: Option<ContentIdentity>, loader: string, representation: Representation,
                                 childInstance: Option<string>, originRef: Option<EvidenceRef>)

  datatype Coverage = Launch | BootstrapCoverage | Python | GeneratedCoverage | CacheCoverage | Native | Dynamic | Children
                    | ControlPlane | EffectFence
  const ALL_COVERAGE: set<Coverage> :=
    {Launch, BootstrapCoverage, Python, GeneratedCoverage, CacheCoverage, Native, Dynamic, Children, ControlPlane, EffectFence}

  datatype Checkpoint = Checkpoint(epoch: string, firstSequence: nat, lastSequence: nat, lastEventId: string,
                                   childFrontier: seq<string>, coverage: seq<Coverage>, gaps: seq<Coverage>, lossCount: nat,
                                   sealed: bool, initialStateRef: Option<EvidenceRef>, checkpointRef: Option<EvidenceRef>,
                                   boundary: ClosureBoundary)
  datatype ProcessState = Running | Terminated
  datatype ProcessObservation = ProcessObservation(profileId: string, instance: ProcessInstance, binding: ClosureBinding,
                                                   graphId: string, entrypointIds: seq<string>, runtimeNodes: seq<string>,
                                                   collectorId: string, collectorVersion: string, mechanism: string,
                                                   processRef: Option<EvidenceRef>, collectorRef: Option<EvidenceRef>,
                                                   events: seq<LoadEvent>, checkpoint: Checkpoint, state: ProcessState)

  datatype LegacyNodeLink = LegacyNodeLink(legacyNodeId: string, graphNodeId: string, content: ContentIdentity,
                                           provenanceRef: EvidenceRef)
  datatype LegacyLink = LegacyLink(legacyRef: EvidenceRef, nodeMap: seq<LegacyNodeLink>)
  datatype ClosureEnvelope = ClosureEnvelope(envelopeId: string, reviewedGraph: EvidenceRef, legacyLinks: seq<LegacyLink>,
                                             binding: ClosureBinding, boundary: ClosureBoundary,
                                             processObservations: seq<ProcessObservation>, provenanceRefs: seq<EvidenceRef>)
  datatype ReviewedSourceGraph = ReviewedSourceGraph(graph: SourceGraph, content: ContentIdentity)
  datatype LoadedClosureEnvelope = LoadedClosureEnvelope(envelope: ClosureEnvelope, content: ContentIdentity)

  datatype ProcessFrontier = ProcessFrontier(instanceId: string, epoch: string, lastSequence: nat, lastEventId: string,
                                             childFrontier: seq<string>, checkpointRef: EvidenceRef)
  datatype ExpectedProcess = ExpectedProcess(profileId: string, instance: ProcessInstance, frontier: ProcessFrontier,
                                             coverage: seq<Coverage>)
  datatype NativeClosureExpectation = NativeClosureExpectation(binding: ClosureBinding, boundary: ClosureBoundary,
                                                               reviewedGraph: EvidenceRef, reviewRef: EvidenceRef,
                                                               processes: seq<ExpectedProcess>, legacyLinks: seq<LegacyLink>)

  datatype Purpose = Review | Membership | Generation | ArtifactPurpose | CachePurpose | Condition | Policy | Legacy
                   | ProcessPurpose | Collector | Event | CheckpointPurpose
  datatype VerifiedOriginFact = VerifiedOriginFact(ref: EvidenceRef, purpose: Purpose, claim: ContentIdentity)
  datatype VerifiedClosureOrigins = VerifiedClosureOrigins(reviewedBytes: Option<ContentIdentity>,
                                                           observedBytes: Option<ContentIdentity>,
                                                           expectation: Option<ContentIdentity>,
                                                           validityCheckpoint: Option<string>,
                                                           facts: seq<VerifiedOriginFact>)

  datatype Reason = REVIEW_ORIGIN | GIT_MEMBERSHIP | GENERATED_PROVENANCE | RUNTIME_PROVENANCE | CACHED_CODE | BINDING
                  | PROCESS_INSTANCE | UNREVIEWED_LOAD | BYTE_SUBSTITUTION | REQUIRED_LOAD | OBSERVER_ORIGIN | SEQUENCE_GAP
                  | COVERAGE_GAP | STALE_FRONTIER | CHILD_COVERAGE

  predicate HostRole(role: Role) {
    role in {Creator, Controller, Executor, Checker, Registry, Verifier, Observer, Comparator, Dispatcher}
  }

  predicate WorkerRole(role: Role) {
    role == Worker
  }
}
