/** Evidence comparisons: p3_source_closure/provenance.py. Claim identities are an arbitrary function of the claim. */
module Provenance {
  import opened Records
  import opened Judgement
  import opened ReviewedGraph

  /** The claims evidence is checked against, one constructor per shape of encoded claim. */
  datatype Claim =
    | GraphClaim(graph: SourceGraph)
    | EnvelopeClaim(envelope: ClosureEnvelope)
    | ExpectationClaim(expected: NativeClosureExpectation)
    | MembershipClaim(repository: Repository, node: SourceNode)
    | NodeClaim(node: SourceNode, related: seq<SourceNode>)
    | EdgeClaim(edge: SourceEdge)
    | ProfileClaim(profile: ProcessProfile)
    | LegacyLinkClaim(link: LegacyLink)
    | LegacyNodeClaim(mapping: LegacyNodeLink, mapped: Option<SourceNode>)
    | ProcessClaim(process: ProcessId)
    | CollectorClaim(collector: CollectorId)
    | InitialClaim(collector: CollectorId)
    | EventClaim(process: ProcessId, epoch: string, event: LoadEvent)
    | CheckpointClaim(process: ProcessId, checkpoint: Checkpoint)
  datatype ProcessId = ProcessId(instance: ProcessInstance, profileId: string, binding: ClosureBinding, graphId: string)
  datatype CollectorId = CollectorId(process: ProcessId, id: string, version: string, mechanism: string, epoch: string,
                                     coverage: seq<Coverage>)

  function ProcessIdOf(p: ProcessObservation): ProcessId {
    ProcessId(p.instance, p.profileId, p.binding, p.graphId)
  }

  function CollectorIdOf(p: ProcessObservation): CollectorId {
    CollectorId(ProcessIdOf(p), p.collectorId, p.collectorVersion, p.mechanism, p.checkpoint.epoch, p.checkpoint.coverage)
  }

  type Identify = Claim -> ContentIdentity
  type Facts = map<(EvidenceRef, Purpose), ContentIdentity>

  function FactMap(facts: seq<VerifiedOriginFact>): Facts {
    if facts == [] then map[]
    else
      var last := facts[|facts| - 1];
      FactMap(facts[..|facts| - 1])[(last.ref, last.purpose) := last.claim]
  }

  // -- specification

  /** The exact claim is verified for this reference and purpose. */
  predicate Verifies(facts: Facts, ref: Option<EvidenceRef>, purpose: Purpose, identity: ContentIdentity) {
    ref.Some? && (ref.value, purpose) in facts && facts[(ref.value, purpose)] == identity
  }

  function OriginJudged(facts: Facts, ref: Option<EvidenceRef>, purpose: Purpose, identity: ContentIdentity, reason: Reason): Judgement {
    if ref.None? || (ref.value, purpose) !in facts then Lacks(true, reason)
    else Contradicts(facts[(ref.value, purpose)] != identity, reason)
  }

  function Lookup(nodes: map<string, SourceNode>, ids: seq<string>): (r: seq<SourceNode>)
    requires forall k :: k in ids ==> k in nodes
    ensures |r| == |ids| && forall i :: 0 <= i < |r| ==> r[i] == nodes[ids[i]]
  {
    seq(|ids|, i requires 0 <= i < |ids| => nodes[ids[i]])
  }

  /** The nodes a node's provenance claim holds beside the node, in order. */
  function RelatedIds(p: Provenance): seq<string> {
    match p
    case Git(_, _, _, _, _, _, _, _, _) => []
    case Generated(generators, inputs, toolchain, _, _, _, _) => generators + inputs + toolchain
    case Cached(sources, interpreter, _, _, _) => sources + [interpreter]
    case Artifact(_, _, sources, dependencies, interpreter, _, _, _, _) => sources + dependencies + [interpreter]
  }

  predicate NodeKnown(repositories: map<string, Repository>, nodes: map<string, SourceNode>, n: SourceNode) {
    && (n.provenance.Git? ==> n.provenance.repository in repositories)
    && forall k :: k in RelatedIds(n.provenance) ==> k in nodes
  }

  function GitJudged(repo: Repository, facts: Facts, identify: Identify, n: SourceNode): Judgement
    requires n.provenance.Git?
  {
    var p := n.provenance;
    Plus(Plus(Contradicts(p.commit != repo.commit || p.tree != repo.tree || p.mode != n.mode, GIT_MEMBERSHIP),
              OriginJudged(facts, p.membershipRef, Membership, identify(MembershipClaim(repo, n)), GIT_MEMBERSHIP)),
         Plus(Lacks(p.gitRepresentation != Regular && p.targetChain == [], COVERAGE_GAP),
              Contradicts((p.gitRepresentation == Symlink) != (p.mode == "120000") ||
                          (p.gitRepresentation == Submodule) != (p.mode == "160000"), GIT_MEMBERSHIP)))
  }

  function GeneratedJudged(related: seq<SourceNode>, facts: Facts, identify: Identify, n: SourceNode): Judgement
    requires n.provenance.Generated?
  {
    var p := n.provenance;
    Plus(OriginJudged(facts, p.generationRef, Generation, identify(NodeClaim(n, related)), GENERATED_PROVENANCE),
         Plus(Lacks(p.generators == [] || p.inputs == [] || p.toolchain == [], GENERATED_PROVENANCE),
              Contradicts(n.content != p.output, GENERATED_PROVENANCE)))
  }

  function CachedJudged(related: seq<SourceNode>, facts: Facts, identify: Identify, n: SourceNode): Judgement
    requires n.provenance.Cached?
  {
    var p := n.provenance;
    Plus(OriginJudged(facts, p.cacheRef, CachePurpose, identify(NodeClaim(n, related)), CACHED_CODE),
         Plus(Lacks(p.sourceNodes == [], CACHED_CODE), Contradicts(n.content != p.executed, CACHED_CODE)))
  }

  function ArtifactJudged(related: seq<SourceNode>, interpreter: SourceNode, facts: Facts, identify: Identify, n: SourceNode): Judgement
    requires n.provenance.Artifact?
  {
    var p := n.provenance;
    Plus(OriginJudged(facts, p.artifactRef, ArtifactPurpose, identify(NodeClaim(n, related)), RUNTIME_PROVENANCE),
         Plus(Contradicts(n.content != p.artifact, RUNTIME_PROVENANCE), Contradicts(interpreter.kind != Interpreter, RUNTIME_PROVENANCE)))
  }

  function NodeJudged(repositories: map<string, Repository>, nodes: map<string, SourceNode>, facts: Facts, identify: Identify,
                      n: SourceNode): Judgement {
    if !NodeKnown(repositories, nodes, n) then CLEAR  // ruled out by the grammar of the reviewed graph
    else
      var related := Lookup(nodes, RelatedIds(n.provenance));
      match n.provenance
      case Git(repository, _, _, _, _, _, _, _, _) => GitJudged(repositories[repository], facts, identify, n)
      case Generated(_, _, _, _, _, _, _) => GeneratedJudged(related, facts, identify, n)
      case Cached(_, _, _, _, _) => CachedJudged(related, facts, identify, n)
      case Artifact(_, _, _, _, interpreter, _, _, _, _) =>
        assert interpreter in RelatedIds(n.provenance);
        ArtifactJudged(related, nodes[interpreter], facts, identify, n)
  }

  function EdgeJudged(facts: Facts, identify: Identify, e: SourceEdge): Judgement {
    if e.conditionRef.Some? then OriginJudged(facts, e.conditionRef, Condition, identify(EdgeClaim(e)), COVERAGE_GAP) else CLEAR
  }

  function PolicyJudged(facts: Facts, identify: Identify, p: ProcessProfile): Judgement {
    OriginJudged(facts, Some(p.loadPolicyRef), Policy, identify(ProfileClaim(p)), COVERAGE_GAP)
  }

  ghost function ProvenanceJudged(g: SourceGraph, facts: Facts, identify: Identify): Judgement {
    var repositories, nodes := RepositoriesById(g.repositories), NodesById(g.nodes);
    Plus(Plus(Over(Elements(g.nodes), n => NodeJudged(repositories, nodes, facts, identify, n)),
              Over(Elements(g.edges), e => EdgeJudged(facts, identify, e))),
         Over(Elements(g.processProfiles), p => PolicyJudged(facts, identify, p)))
  }

  // -- the accumulator

  class Findings {
    const origins: Facts
    const identify: Identify
    var contradictions: set<Reason>
    var gaps: set<Reason>

    ghost function Value(): Judgement
      reads this
    {
      Judgement(contradictions, gaps)
    }

    constructor (origins: Facts, identify: Identify)
      ensures Value() == CLEAR && this.origins == origins && this.identify == identify
    {
      this.origins, this.identify, contradictions, gaps := origins, identify, {}, {};
    }

    method Refuse(condition: bool, reason: Reason)
      modifies this
      ensures Value() == Plus(old(Value()), Contradicts(condition, reason))
    {
      if condition { contradictions := contradictions + {reason}; }
    }

    method Unknown(condition: bool, reason: Reason)
      modifies this
      ensures Value() == Plus(old(Value()), Lacks(condition, reason))
    {
      if condition { gaps := gaps + {reason}; }
    }

    method Origin(ref: Option<EvidenceRef>, purpose: Purpose, claim: Claim, reason: Reason)
      modifies this
      ensures Value() == Plus(old(Value()), OriginJudged(origins, ref, purpose, identify(claim), reason))
    {
      if ref.None? || (ref.value, purpose) !in origins {
        gaps := gaps + {reason};
      } else if origins[(ref.value, purpose)] != identify(claim) {
        contradictions := contradictions + {reason};
      }
    }

    method Update(other: Findings)
      modifies this
      ensures Value() == Plus(old(Value()), old(other.Value()))
    {
      contradictions, gaps := contradictions + other.contradictions, gaps + other.gaps;
    }

    method CheckGit(repo: Repository, n: SourceNode)
      requires n.provenance.Git?
      modifies this
      ensures Value() == Plus(old(Value()), GitJudged(repo, origins, identify, n))
    {
      var p := n.provenance;
      Refuse(p.commit != repo.commit || p.tree != repo.tree || p.mode != n.mode, GIT_MEMBERSHIP);
      Origin(p.membershipRef, Membership, MembershipClaim(repo, n), GIT_MEMBERSHIP);
      Unknown(p.gitRepresentation != Regular && p.targetChain == [], COVERAGE_GAP);
      Refuse((p.gitRepresentation == Symlink) != (p.mode == "120000") ||
             (p.gitRepresentation == Submodule) != (p.mode == "160000"), GIT_MEMBERSHIP);
      PlusFour(old(Value()),
               Contradicts(p.commit != repo.commit || p.tree != repo.tree || p.mode != n.mode, GIT_MEMBERSHIP),
               OriginJudged(origins, p.membershipRef, Membership, identify(MembershipClaim(repo, n)), GIT_MEMBERSHIP),
               Lacks(p.gitRepresentation != Regular && p.targetChain == [], COVERAGE_GAP),
               Contradicts((p.gitRepresentation == Symlink) != (p.mode == "120000") ||
                           (p.gitRepresentation == Submodule) != (p.mode == "160000"), GIT_MEMBERSHIP));
    }

    method CheckGenerated(related: seq<SourceNode>, n: SourceNode)
      requires n.provenance.Generated?
      modifies this
      ensures Value() == Plus(old(Value()), GeneratedJudged(related, origins, identify, n))
    {
      var p := n.provenance;
      Origin(p.generationRef, Generation, NodeClaim(n, related), GENERATED_PROVENANCE);
      Unknown(p.generators == [] || p.inputs == [] || p.toolchain == [], GENERATED_PROVENANCE);
      Refuse(n.content != p.output, GENERATED_PROVENANCE);
    }

    method CheckCached(related: seq<SourceNode>, n: SourceNode)
      requires n.provenance.Cached?
      modifies this
      ensures Value() == Plus(old(Value()), CachedJudged(related, origins, identify, n))
    {
      var p := n.provenance;
      Origin(p.cacheRef, CachePurpose, NodeClaim(n, related), CACHED_CODE);
      Unknown(p.sourceNodes == [], CACHED_CODE);
      Refuse(n.content != p.executed, CACHED_CODE);
    }

    method CheckArtifact(related: seq<SourceNode>, interpreter: SourceNode, n: SourceNode)
      requires n.provenance.Artifact?
      modifies this
      ensures Value() == Plus(old(Value()), ArtifactJudged(related, interpreter, origins, identify, n))
    {
      var p := n.provenance;
      Origin(p.artifactRef, ArtifactPurpose, NodeClaim(n, related), RUNTIME_PROVENANCE);
      Refuse(n.content != p.artifact, RUNTIME_PROVENANCE);
      Refuse(interpreter.kind != Interpreter, RUNTIME_PROVENANCE);
    }

    method CheckNode(repositories: map<string, Repository>, nodes: map<string, SourceNode>, n: SourceNode)
      requires NodeKnown(repositories, nodes, n)
      modifies this
      ensures Value() == Plus(old(Value()), NodeJudged(repositories, nodes, origins, identify, n))
    {
      var related := Lookup(nodes, RelatedIds(n.provenance));
      match n.provenance {
        case Git(repository, _, _, _, _, _, _, _, _) => CheckGit(repositories[repository], n);
        case Generated(_, _, _, _, _, _, _) => CheckGenerated(related, n);
        case Cached(_, _, _, _, _) => CheckCached(related, n);
        case Artifact(_, _, _, _, interpreter, _, _, _, _) =>
          assert interpreter in RelatedIds(n.provenance);
          CheckArtifact(related, nodes[interpreter], n);
      }
    }

    method CheckNodes(repositories: map<string, Repository>, nodes: map<string, SourceNode>, all: seq<SourceNode>)
      requires forall n :: n in all ==> NodeKnown(repositories, nodes, n)
      modifies this
      ensures Value() == Plus(old(Value()), Over(Elements(all), n => NodeJudged(repositories, nodes, origins, identify, n)))
    {
      ghost var judge := (n: SourceNode) => NodeJudged(repositories, nodes, origins, identify, n);
      ghost var before := Value();
      OverNothing(judge);
      for i := 0 to |all|
        invariant Value() == Plus(before, Over(Elements(all[..i]), judge))
      {
        CheckNode(repositories, nodes, all[i]);
        OverStep(all, i, judge);
        PlusAssociates(before, Over(Elements(all[..i]), judge), judge(all[i]));
      }
      assert all[..|all|] == all;
    }

    method CheckEdges(all: seq<SourceEdge>)
      modifies this
      ensures Value() == Plus(old(Value()), Over(Elements(all), e => EdgeJudged(origins, identify, e)))
    {
      ghost var judge := (e: SourceEdge) => EdgeJudged(origins, identify, e);
      ghost var before := Value();
      OverNothing(judge);
      for i := 0 to |all|
        invariant Value() == Plus(before, Over(Elements(all[..i]), judge))
      {
        if all[i].conditionRef.Some? { Origin(all[i].conditionRef, Condition, EdgeClaim(all[i]), COVERAGE_GAP); }
        OverStep(all, i, judge);
        PlusAssociates(before, Over(Elements(all[..i]), judge), judge(all[i]));
      }
      assert all[..|all|] == all;
    }

    method CheckPolicies(all: seq<ProcessProfile>)
      modifies this
      ensures Value() == Plus(old(Value()), Over(Elements(all), p => PolicyJudged(origins, identify, p)))
    {
      ghost var judge := (p: ProcessProfile) => PolicyJudged(origins, identify, p);
      ghost var before := Value();
      OverNothing(judge);
      for i := 0 to |all|
        invariant Value() == Plus(before, Over(Elements(all[..i]), judge))
      {
        Origin(Some(all[i].loadPolicyRef), Policy, ProfileClaim(all[i]), COVERAGE_GAP);
        OverStep(all, i, judge);
        PlusAssociates(before, Over(Elements(all[..i]), judge), judge(all[i]));
      }
      assert all[..|all|] == all;
    }

    method CheckProvenance(g: SourceGraph)
      requires forall n :: n in g.nodes ==> NodeKnown(RepositoriesById(g.repositories), NodesById(g.nodes), n)
      modifies this
      ensures Value() == Plus(old(Value()), ProvenanceJudged(g, origins, identify))
    {
      ghost var before := Value();
      var repositories, nodes := RepositoriesById(g.repositories), NodesById(g.nodes);
      CheckNodes(repositories, nodes, g.nodes);
      CheckEdges(g.edges);
      CheckPolicies(g.processProfiles);
      ghost var a := Over(Elements(g.nodes), n => NodeJudged(repositories, nodes, origins, identify, n));
      ghost var b := Over(Elements(g.edges), e => EdgeJudged(origins, identify, e));
      ghost var c := Over(Elements(g.processProfiles), p => PolicyJudged(origins, identify, p));
      PlusAssociates(before, a, b);
      PlusAssociates(before, Plus(a, b), c);
    }
  }
}
