/** The reviewed-versus-loaded comparator: p3_source_closure/comparison.py. The four inputs are decoded records;
    a refusal of the input grammars carries no more than that it is one. */
module Comparison {
  import opened Records
  import opened Judgement
  import opened Provenance
  import opened ReviewedGraph
  import opened LoadedEnvelope
  import opened Sorting
  import opened Text

  // -- one process, as judgements

  function FindProfile(profiles: seq<ProcessProfile>, id: string): (r: Option<ProcessProfile>)
    ensures r.Some? ==> r.value in profiles && r.value.id == id
    ensures r.None? ==> forall p :: p in profiles ==> p.id != id
  {
    if profiles == [] then None
    else if profiles[0].id == id then Some(profiles[0])
    else FindProfile(profiles[1..], id)
  }

  predicate RoleMisplaced(role: Role, location: Location) {
    (HostRole(role) && location != Host) || (WorkerRole(role) && location != Container)
  }

  function ProfileJudged(p: ProcessObservation, profile: Option<ProcessProfile>): Judgement {
    match profile
    case None => Contradicts(true, PROCESS_INSTANCE)
    case Some(q) =>
      Plus(Contradicts(p.entrypointIds != q.entrypointIds || RoleMisplaced(q.role, p.instance.location), PROCESS_INSTANCE),
           Contradicts(p.runtimeNodes != q.runtimeNodes || p.instance.runtimeId !in q.runtimeNodes, RUNTIME_PROVENANCE))
  }

  function IdentityJudged(p: ProcessObservation, required: ExpectedProcess, g: SourceGraph, envelope: ClosureEnvelope): Judgement {
    Plus(Contradicts(p.instance != required.instance || p.profileId != required.profileId, PROCESS_INSTANCE),
         Contradicts(p.binding != envelope.binding || p.graphId != g.graphId, BINDING))
  }

  function OriginsJudged(p: ProcessObservation, facts: Facts, identify: Identify): Judgement {
    Plus(Plus(OriginJudged(facts, p.processRef, ProcessPurpose, identify(ProcessClaim(ProcessIdOf(p))), PROCESS_INSTANCE),
              OriginJudged(facts, p.collectorRef, Collector, identify(CollectorClaim(CollectorIdOf(p))), OBSERVER_ORIGIN)),
         Plus(OriginJudged(facts, p.checkpoint.initialStateRef, Collector, identify(InitialClaim(CollectorIdOf(p))), COVERAGE_GAP),
              OriginJudged(facts, p.checkpoint.checkpointRef, CheckpointPurpose,
                           identify(CheckpointClaim(ProcessIdOf(p), p.checkpoint)), OBSERVER_ORIGIN)))
  }

  function FrontierOf(p: ProcessObservation): Option<ProcessFrontier> {
    var cp := p.checkpoint;
    if cp.checkpointRef.None? then None
    else Some(ProcessFrontier(p.instance.instanceId, cp.epoch, cp.lastSequence, cp.lastEventId, cp.childFrontier, cp.checkpointRef.value))
  }

  predicate Covered(p: ProcessObservation, required: ExpectedProcess) {
    var cp := p.checkpoint;
    && cp.sealed && cp.lossCount == 0 && cp.gaps == []
    && (forall c :: c in required.coverage ==> c in cp.coverage)
    && (forall c :: c in ALL_COVERAGE ==> c in cp.coverage && c in required.coverage)
  }

  function CheckpointJudged(p: ProcessObservation, required: ExpectedProcess, envelope: ClosureEnvelope): Judgement {
    Plus(Lacks(FrontierOf(p) != Some(required.frontier) || p.checkpoint.boundary != envelope.boundary, STALE_FRONTIER),
         Lacks(!Covered(p, required), COVERAGE_GAP))
  }

  predicate Numbered(events: seq<LoadEvent>, first: nat) {
    forall i :: 0 <= i < |events| ==> events[i].sequence == first + i
  }

  predicate SequenceWhole(p: ProcessObservation) {
    var events, cp := p.events, p.checkpoint;
    events != [] && cp.firstSequence == 0 && Numbered(events, 0) && cp.lastSequence == events[|events| - 1].sequence
  }

  function SequenceJudged(p: ProcessObservation): Judgement {
    Plus(Lacks(!SequenceWhole(p), SEQUENCE_GAP),
         Lacks(p.events != [] && p.checkpoint.lastEventId != p.events[|p.events| - 1].eventId, STALE_FRONTIER))
  }

  // -- repeated events

  /** `j` is the last event before `i` with its sequence number (`byId`: with its id). */
  ghost predicate Latest(events: seq<LoadEvent>, byId: bool, j: int, i: int)
    requires 0 <= i < |events|
  {
    && 0 <= j < i && SameKey(events, byId, j, i)
    && forall k :: j < k < i ==> !SameKey(events, byId, k, i)
  }

  ghost predicate SameKey(events: seq<LoadEvent>, byId: bool, j: int, i: int)
    requires 0 <= i < |events| && 0 <= j < |events|
  {
    if byId then events[j].eventId == events[i].eventId else events[j].sequence == events[i].sequence
  }

  ghost predicate Shares(events: seq<LoadEvent>, j: int, i: int)
    requires 0 <= i < |events| && 0 <= j < |events|
  {
    SameKey(events, false, j, i) || SameKey(events, true, j, i)
  }

  /** Event `i` differs from the event last recorded under its number or its id. */
  ghost predicate ClashAt(events: seq<LoadEvent>, i: int)
    requires 0 <= i < |events|
  {
    exists byId, j :: 0 <= j < |events| && Latest(events, byId, j, i) && events[j] != events[i]
  }

  ghost predicate RepeatAt(events: seq<LoadEvent>, i: int)
    requires 0 <= i < |events|
  {
    !ClashAt(events, i) && exists j :: 0 <= j < i && Shares(events, j, i)
  }

  /** Some event among the first `n` clashes; some repeats. */
  ghost predicate AnyClash(events: seq<LoadEvent>, n: nat)
    requires n <= |events|
  {
    exists i :: 0 <= i < n && ClashAt(events, i)
  }

  ghost predicate AnyRepeat(events: seq<LoadEvent>, n: nat)
    requires n <= |events|
  {
    exists i :: 0 <= i < n && RepeatAt(events, i)
  }

  ghost function RepeatsJudged(events: seq<LoadEvent>): Judgement {
    Plus(Contradicts(AnyClash(events, |events|), SEQUENCE_GAP), Lacks(AnyRepeat(events, |events|), SEQUENCE_GAP))
  }

  // -- kinds and loads

  predicate Unopened(p: ProcessObservation) {
    p.events == [] || p.events[0].kind != Start || (p.state == Terminated && p.events[|p.events| - 1].kind != End)
  }

  predicate EndsAt(events: seq<LoadEvent>, limit: int)
    requires limit <= |events|
  {
    exists i :: 0 <= i < limit && events[i].kind == End
  }

  /** An end that is not the last event, or any end of a running process. */
  predicate EndMisplaced(p: ProcessObservation) {
    EndsAt(p.events, |p.events| - 1) || (p.state == Running && EndsAt(p.events, |p.events|))
  }

  predicate Restarted(events: seq<LoadEvent>) {
    exists i :: 1 <= i < |events| && events[i].kind in {Start, Exec}
  }

  function KindsJudged(p: ProcessObservation): Judgement {
    Plus(Lacks(Unopened(p), COVERAGE_GAP),
         Plus(Contradicts(EndMisplaced(p), PROCESS_INSTANCE), Lacks(Restarted(p.events), PROCESS_INSTANCE)))
  }

  /** The bytes a reviewed node runs as. */
  function ExecutedContent(n: SourceNode): ContentIdentity {
    match n.provenance
    case Generated(_, _, _, _, _, execution, _) => execution
    case Artifact(_, _, _, _, _, _, _, loaded, _) => loaded
    case _ => n.content
  }

  function LoadJudged(n: SourceNode, e: LoadEvent): Judgement {
    var artifact, wrongForm := n.provenance.Artifact?, n.provenance.Artifact? && e.representation != n.provenance.representation;
    Plus(Plus(Contradicts(wrongForm, RUNTIME_PROVENANCE),
              Contradicts(e.loaded != Some(ExecutedContent(n)), BYTE_SUBSTITUTION)),
         Plus(Contradicts(e.loaded != Some(ExecutedContent(n)) && n.kind == CachedCode, CACHED_CODE),
              Lacks(e.representation != Bytes && (!artifact || wrongForm), RUNTIME_PROVENANCE)))
  }

  predicate Reviewed(nodes: map<string, SourceNode>, profile: Option<ProcessProfile>, id: string) {
    id in nodes && profile.Some? && id in profile.value.allowedNodeIds
  }

  function EventJudged(nodes: map<string, SourceNode>, profile: Option<ProcessProfile>, p: ProcessObservation, facts: Facts,
                       identify: Identify, e: LoadEvent): Judgement {
    Plus(OriginJudged(facts, e.originRef, Event, identify(EventClaim(ProcessIdOf(p), p.checkpoint.epoch, e)), OBSERVER_ORIGIN),
         if e.nodeId.None? then CLEAR
         else if !Reviewed(nodes, profile, e.nodeId.value) then Contradicts(true, UNREVIEWED_LOAD)
         else LoadJudged(nodes[e.nodeId.value], e))
  }

  ghost function Loads(events: seq<LoadEvent>): set<string> {
    set e | e in events && e.nodeId.Some? :: e.nodeId.value
  }

  ghost function AnnouncedBy(events: seq<LoadEvent>): set<string> {
    set e | e in events && e.childInstance.Some? :: e.childInstance.value
  }

  ghost function ChildrenJudged(p: ProcessObservation): Judgement {
    Lacks((set c | c in p.checkpoint.childFrontier) != AnnouncedBy(p.events), CHILD_COVERAGE)
  }

  /** Every node a run of the profile has to load. */
  ghost predicate IsMandatory(profile: ProcessProfile, entries: map<string, Entrypoint>, n: string) {
    || n in profile.requiredLoadIds || n in profile.runtimeNodes
    || exists k :: k in profile.entrypointIds && k in entries && (n == entries[k].node || n in entries[k].bootstrapChain)
  }

  ghost predicate LoadsComplete(profile: Option<ProcessProfile>, entries: map<string, Entrypoint>, loads: set<string>) {
    profile.Some? ==> forall n :: IsMandatory(profile.value, entries, n) ==> n in loads
  }

  /** A missing load proves nothing while the observation itself has gaps. */
  function MissingLoadJudged(complete: bool, gaps: set<Reason>): Judgement {
    var excused := gaps * {COVERAGE_GAP, SEQUENCE_GAP, OBSERVER_ORIGIN, STALE_FRONTIER} != {};
    Plus(Lacks(!complete && excused, REQUIRED_LOAD), Contradicts(!complete && !excused, REQUIRED_LOAD))
  }

  ghost function ObservationJudged(p: ProcessObservation, required: ExpectedProcess, g: SourceGraph, envelope: ClosureEnvelope,
                                   facts: Facts, identify: Identify): Judgement {
    var profile, nodes := FindProfile(g.processProfiles, required.profileId), NodesById(g.nodes);
    Plus(Plus(Plus(IdentityJudged(p, required, g, envelope), ProfileJudged(p, profile)),
              Plus(OriginsJudged(p, facts, identify), CheckpointJudged(p, required, envelope))),
         Plus(Plus(SequenceJudged(p), RepeatsJudged(p.events)),
              Plus(KindsJudged(p),
                   Plus(Over(Elements(p.events), e => EventJudged(nodes, profile, p, facts, identify, e)), ChildrenJudged(p)))))
  }

  ghost function ProcessJudged(p: ProcessObservation, required: ExpectedProcess, g: SourceGraph, envelope: ClosureEnvelope,
                               facts: Facts, identify: Identify): Judgement {
    var base := ObservationJudged(p, required, g, envelope, facts, identify);
    var complete := LoadsComplete(FindProfile(g.processProfiles, required.profileId), EntriesById(g.entrypoints), Loads(p.events));
    Plus(base, MissingLoadJudged(complete, base.gaps))
  }
}
