/** The grammar of an observed envelope: p3_source_closure/loaded_envelope.py, short of the refusal codes. */
module LoadedEnvelope {
  import opened Records
  import opened Sorting

  const GRAPH_SCHEMA := "p3-reviewed-source-graph/1"
  const LEGACY_SCHEMA := "qa-ops-host-source-closure/1"

  predicate BoundaryOk(binding: ClosureBinding, boundary: ClosureBoundary) {
    var early := boundary.phase in {APreCreate, APreArm};
    && (early ==> boundary.receipt.None? && boundary.requestId.None?)
    && (boundary.phase == APreCreate ==> binding.windowId.None? && binding.creationAssociation.None?)
    && (!early ==> binding.windowId.Some? && binding.creationAssociation.Some?)
    && (boundary.phase in {CPreRequest, CPreExecution, CBeforeCount} ==> boundary.requestId.Some?)
    && (boundary.phase == CBeforeCount ==> boundary.receipt.Some?)
    && (boundary.phase in {BPreRequest, CPreRequest} ==> boundary.receipt.None?)
  }

  predicate LinkOk(link: LegacyLink) {
    && link.legacyRef.schema == LEGACY_SCHEMA
    && (forall i, j :: 0 <= i < j < |link.nodeMap| ==>
          link.nodeMap[i].legacyNodeId != link.nodeMap[j].legacyNodeId && link.nodeMap[i].graphNodeId != link.nodeMap[j].graphNodeId)
  }

  predicate EventOk(e: LoadEvent) {
    && (e.nodeId.None? <==> e.loaded.None?)
    && (e.kind in {Load, Compile, Cache, Use} ==> e.nodeId.Some?)
    && (e.kind == ChildStart ==> e.childInstance.Some?)
  }

  predicate ObservationOk(p: ProcessObservation) {
    && p.instance.pid != 0 && (p.instance.location == Container <==> p.instance.containerIdentity.Some?)
    && NoDuplicates(p.instance.supplementaryGroups) && NoDuplicates(p.entrypointIds) && NoDuplicates(p.runtimeNodes)
    && NoDuplicates(p.checkpoint.childFrontier) && NoDuplicates(p.checkpoint.coverage) && NoDuplicates(p.checkpoint.gaps)
    && forall e :: e in p.events ==> EventOk(e)
  }

  predicate EnvelopeOk(x: ClosureEnvelope) {
    && x.reviewedGraph.schema == GRAPH_SCHEMA && BoundaryOk(x.binding, x.boundary) && NoDuplicates(x.provenanceRefs)
    && (forall i, j :: 0 <= i < j < |x.legacyLinks| ==> x.legacyLinks[i].legacyRef != x.legacyLinks[j].legacyRef)
    && (forall link :: link in x.legacyLinks ==> LinkOk(link))
    && (forall i, j :: 0 <= i < j < |x.processObservations| ==>
          !(x.processObservations[i].instance.instanceId == x.processObservations[j].instance.instanceId &&
            x.processObservations[i].checkpoint.epoch == x.processObservations[j].checkpoint.epoch))
    && (forall p :: p in x.processObservations ==> ObservationOk(p))
  }
}
