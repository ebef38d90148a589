/** What a clear judgement of one process means, and what the repeated-event pass decides. */
module MatchedProcess {
  import opened Records
  import opened Judgement
  import opened Provenance
  import opened ReviewedGraph
  import opened Comparison
  import opened MatchSoundness

  // -- repeated events

  /** Two events of the process share a number or an id and differ. */
  ghost predicate Contradictory(events: seq<LoadEvent>) {
    exists i, j :: 0 <= j < i < |events| && Shares(events, j, i) && events[j] != events[i]
  }

  ghost predicate Repeated(events: seq<LoadEvent>) {
    exists i, j :: 0 <= j < i < |events| && Shares(events, j, i)
  }

  /** Between two differing events with one key, some event clashes with the last one recorded under that key. */
  lemma {:induction false} DifferenceClashes(events: seq<LoadEvent>, byId: bool, j: int, i: int)
    requires 0 <= j < i < |events| && SameKey(events, byId, j, i) && events[j] != events[i]
    ensures exists k :: j < k <= i && ClashAt(events, k)
    decreases i
  {
    var l := i - 1;
    while !SameKey(events, byId, l, i)
      invariant j <= l < i
      invariant forall k :: l < k < i ==> !SameKey(events, byId, k, i)
      decreases l
    {
      l := l - 1;
    }
    assert Latest(events, byId, l, i);
    if events[l] == events[i] {
      DifferenceClashes(events, byId, j, l);
    } else {
      assert ClashAt(events, i);
    }
  }

  /** The one pass with overwritten maps decides contradiction exactly. */
  lemma {:induction false} ClashesAreExact(events: seq<LoadEvent>)
    ensures AnyClash(events, |events|) <==> Contradictory(events)
  {
    if AnyClash(events, |events|) {
      var i :| 0 <= i < |events| && ClashAt(events, i);
      var byId, j :| 0 <= j < |events| && Latest(events, byId, j, i) && events[j] != events[i];
      assert Shares(events, j, i);
    }
    if Contradictory(events) {
      var i, j :| 0 <= j < i < |events| && Shares(events, j, i) && events[j] != events[i];
      DifferenceClashes(events, !SameKey(events, false, j, i), j, i);
    }
  }

  lemma {:induction false} RepeatsAreExact(events: seq<LoadEvent>)
    ensures !Contradictory(events) ==> (AnyRepeat(events, |events|) <==> Repeated(events))
    ensures AnyClash(events, |events|) || AnyRepeat(events, |events|) <==> Repeated(events)
  {
    ClashesAreExact(events);
    if Repeated(events) && !AnyClash(events, |events|) {
      var i, j :| 0 <= j < i < |events| && Shares(events, j, i);
      assert RepeatAt(events, i);
    }
  }

  /** A contradiction exactly for differing events under one number or id; identical repeats leave only a gap. */
  lemma {:induction false} DuplicatesClassified(events: seq<LoadEvent>)
    ensures SEQUENCE_GAP in RepeatsJudged(events).contradictions <==> Contradictory(events)
    ensures !Contradictory(events) ==> (SEQUENCE_GAP in RepeatsJudged(events).gaps <==> Repeated(events))
    ensures RepeatsJudged(events) == CLEAR <==> !Repeated(events)
  {
    RepeatsAreExact(events);
    ClashesAreExact(events);
    PlusClear(Contradicts(AnyClash(events, |events|), SEQUENCE_GAP), Lacks(AnyRepeat(events, |events|), SEQUENCE_GAP));
    ConditionClear(AnyClash(events, |events|), SEQUENCE_GAP);
    ConditionClear(AnyRepeat(events, |events|), SEQUENCE_GAP);
  }

  // -- identity, profile, checkpoint

  predicate ProfileFits(p: ProcessObservation, q: ProcessProfile) {
    && p.entrypointIds == q.entrypointIds && !RoleMisplaced(q.role, p.instance.location)
    && p.runtimeNodes == q.runtimeNodes && p.instance.runtimeId in q.runtimeNodes
  }

  predicate Identified(p: ProcessObservation, required: ExpectedProcess, g: SourceGraph, envelope: ClosureEnvelope) {
    && p.instance == required.instance && p.profileId == required.profileId
    && p.binding == envelope.binding && p.graphId == g.graphId
    && var profile := FindProfile(g.processProfiles, required.profileId); profile.Some? && ProfileFits(p, profile.value)
  }

  lemma {:induction false} IdentityClear(p: ProcessObservation, required: ExpectedProcess, g: SourceGraph, envelope: ClosureEnvelope)
    ensures IdentityJudged(p, required, g, envelope) == CLEAR && ProfileJudged(p, FindProfile(g.processProfiles, required.profileId)) == CLEAR
       <==> Identified(p, required, g, envelope)
  {
    var a, b := p.instance != required.instance || p.profileId != required.profileId, p.binding != envelope.binding || p.graphId != g.graphId;
    PlusClear(Contradicts(a, PROCESS_INSTANCE), Contradicts(b, BINDING));
    ConditionClear(a, PROCESS_INSTANCE);
    ConditionClear(b, BINDING);
    ConditionClear(true, PROCESS_INSTANCE);
    var profile := FindProfile(g.processProfiles, required.profileId);
    if profile.Some? {
      var q := profile.value;
      var c, d := p.entrypointIds != q.entrypointIds || RoleMisplaced(q.role, p.instance.location),
                  p.runtimeNodes != q.runtimeNodes || p.instance.runtimeId !in q.runtimeNodes;
      PlusClear(Contradicts(c, PROCESS_INSTANCE), Contradicts(d, RUNTIME_PROVENANCE));
      ConditionClear(c, PROCESS_INSTANCE);
      ConditionClear(d, RUNTIME_PROVENANCE);
    }
  }

  predicate Witnessed(p: ProcessObservation, facts: Facts, identify: Identify) {
    && Verifies(facts, p.processRef, ProcessPurpose, identify(ProcessClaim(ProcessIdOf(p))))
    && Verifies(facts, p.collectorRef, Collector, identify(CollectorClaim(CollectorIdOf(p))))
    && Verifies(facts, p.checkpoint.initialStateRef, Collector, identify(InitialClaim(CollectorIdOf(p))))
    && Verifies(facts, p.checkpoint.checkpointRef, CheckpointPurpose, identify(CheckpointClaim(ProcessIdOf(p), p.checkpoint)))
  }

  lemma {:induction false} WitnessClear(p: ProcessObservation, facts: Facts, identify: Identify)
    ensures OriginsJudged(p, facts, identify) == CLEAR <==> Witnessed(p, facts, identify)
  {
    var a, b := identify(ProcessClaim(ProcessIdOf(p))), identify(CollectorClaim(CollectorIdOf(p)));
    var c, d := identify(InitialClaim(CollectorIdOf(p))), identify(CheckpointClaim(ProcessIdOf(p), p.checkpoint));
    FourClear(OriginJudged(facts, p.processRef, ProcessPurpose, a, PROCESS_INSTANCE), OriginJudged(facts, p.collectorRef, Collector, b, OBSERVER_ORIGIN),
              OriginJudged(facts, p.checkpoint.initialStateRef, Collector, c, COVERAGE_GAP),
              OriginJudged(facts, p.checkpoint.checkpointRef, CheckpointPurpose, d, OBSERVER_ORIGIN));
    OriginClear(facts, p.processRef, ProcessPurpose, a, PROCESS_INSTANCE);
    OriginClear(facts, p.collectorRef, Collector, b, OBSERVER_ORIGIN);
    OriginClear(facts, p.checkpoint.initialStateRef, Collector, c, COVERAGE_GAP);
    OriginClear(facts, p.checkpoint.checkpointRef, CheckpointPurpose, d, OBSERVER_ORIGIN);
  }

  predicate Sealed(p: ProcessObservation, required: ExpectedProcess, envelope: ClosureEnvelope) {
    && FrontierOf(p) == Some(required.frontier) && p.checkpoint.boundary == envelope.boundary && Covered(p, required)
  }

  lemma {:induction false} CheckpointClear(p: ProcessObservation, required: ExpectedProcess, envelope: ClosureEnvelope)
    ensures CheckpointJudged(p, required, envelope) == CLEAR <==> Sealed(p, required, envelope)
  {
    var stale := FrontierOf(p) != Some(required.frontier) || p.checkpoint.boundary != envelope.boundary;
    PlusClear(Lacks(stale, STALE_FRONTIER), Lacks(!Covered(p, required), COVERAGE_GAP));
    ConditionClear(stale, STALE_FRONTIER);
    ConditionClear(!Covered(p, required), COVERAGE_GAP);
  }

  // -- the history of events

  /** The events are numbered 0, 1, 2, … with distinct ids, open with a start, and end, if at all, with the last. */
  predicate WholeHistory(p: ProcessObservation) {
    var events, n := p.events, |p.events|;
    && n > 0 && p.checkpoint.firstSequence == 0 && p.checkpoint.lastSequence == n - 1
    && p.checkpoint.lastEventId == events[n - 1].eventId
    && (forall i :: 0 <= i < n ==> events[i].sequence == i)
    && (forall i, j :: 0 <= i < j < n ==> events[i].eventId != events[j].eventId)
    && events[0].kind == Start
    && (forall i :: 1 <= i < n ==> events[i].kind !in {Start, Exec})
    && (forall i :: 0 <= i < n && events[i].kind == End ==> i == n - 1 && p.state == Terminated)
    && (p.state == Terminated ==> events[n - 1].kind == End)
  }

  lemma {:induction false} SequenceClear(p: ProcessObservation)
    ensures SequenceJudged(p) == CLEAR <==> SequenceWhole(p) && p.checkpoint.lastEventId == p.events[|p.events| - 1].eventId
  {
    var moved := p.events != [] && p.checkpoint.lastEventId != p.events[|p.events| - 1].eventId;
    PlusClear(Lacks(!SequenceWhole(p), SEQUENCE_GAP), Lacks(moved, STALE_FRONTIER));
    ConditionClear(!SequenceWhole(p), SEQUENCE_GAP);
    ConditionClear(moved, STALE_FRONTIER);
  }

  lemma {:induction false} KindsClear(p: ProcessObservation)
    ensures KindsJudged(p) == CLEAR <==> !Unopened(p) && !EndMisplaced(p) && !Restarted(p.events)
  {
    ThreeClear(Lacks(Unopened(p), COVERAGE_GAP), Contradicts(EndMisplaced(p), PROCESS_INSTANCE), Lacks(Restarted(p.events), PROCESS_INSTANCE));
    ConditionClear(Unopened(p), COVERAGE_GAP);
    ConditionClear(EndMisplaced(p), PROCESS_INSTANCE);
    ConditionClear(Restarted(p.events), PROCESS_INSTANCE);
  }

  lemma {:induction false} NumberedDistinct(events: seq<LoadEvent>)
    requires Numbered(events, 0)
    ensures !Repeated(events) <==> forall i, j :: 0 <= i < j < |events| ==> events[i].eventId != events[j].eventId
  {
    if i, j :| 0 <= i < j < |events| && events[i].eventId == events[j].eventId {
      assert SameKey(events, true, i, j) && Shares(events, i, j);
    }
    if Repeated(events) {
      var i, j :| 0 <= j < i < |events| && Shares(events, j, i);
      assert !SameKey(events, false, j, i);
      assert events[j].eventId == events[i].eventId;
    }
  }

  lemma {:induction false} HistoryClear(p: ProcessObservation)
    ensures SequenceJudged(p) == CLEAR && RepeatsJudged(p.events) == CLEAR && KindsJudged(p) == CLEAR <==> WholeHistory(p)
  {
    SequenceClear(p);
    DuplicatesClassified(p.events);
    KindsClear(p);
    if SequenceWhole(p) { NumberedDistinct(p.events); }
    if WholeHistory(p) {
      assert Numbered(p.events, 0);
      NumberedDistinct(p.events);
    }
  }

  // -- loads and children

  /** A load of a reviewed node the profile allows, in the bytes and the form the node was reviewed to run as. */
  predicate LoadFaithful(nodes: map<string, SourceNode>, profile: Option<ProcessProfile>, e: LoadEvent)
    requires e.nodeId.Some?
  {
    && Reviewed(nodes, profile, e.nodeId.value)
    && var n := nodes[e.nodeId.value];
       && e.loaded == Some(ExecutedContent(n))
       && e.representation == (if n.provenance.Artifact? then n.provenance.representation else Bytes)
  }

  predicate EventFaithful(nodes: map<string, SourceNode>, profile: Option<ProcessProfile>, p: ProcessObservation, facts: Facts,
                          identify: Identify, e: LoadEvent) {
    && Verifies(facts, e.originRef, Event, identify(EventClaim(ProcessIdOf(p), p.checkpoint.epoch, e)))
    && (e.nodeId.Some? ==> LoadFaithful(nodes, profile, e))
  }

  lemma {:induction false} LoadClear(n: SourceNode, e: LoadEvent)
    ensures LoadJudged(n, e) == CLEAR <==>
            e.loaded == Some(ExecutedContent(n)) && e.representation == (if n.provenance.Artifact? then n.provenance.representation else Bytes)
  {
    var artifact, wrongForm := n.provenance.Artifact?, n.provenance.Artifact? && e.representation != n.provenance.representation;
    var wrongBytes := e.loaded != Some(ExecutedContent(n));
    FourClear(Contradicts(wrongForm, RUNTIME_PROVENANCE), Contradicts(wrongBytes, BYTE_SUBSTITUTION),
              Contradicts(wrongBytes && n.kind == CachedCode, CACHED_CODE),
              Lacks(e.representation != Bytes && (!artifact || wrongForm), RUNTIME_PROVENANCE));
    ConditionClear(wrongForm, RUNTIME_PROVENANCE);
    ConditionClear(wrongBytes, BYTE_SUBSTITUTION);
    ConditionClear(wrongBytes && n.kind == CachedCode, CACHED_CODE);
    ConditionClear(e.representation != Bytes && (!artifact || wrongForm), RUNTIME_PROVENANCE);
  }

  lemma {:induction false} EventClear(nodes: map<string, SourceNode>, profile: Option<ProcessProfile>, p: ProcessObservation, facts: Facts,
                                      identify: Identify, e: LoadEvent)
    ensures EventJudged(nodes, profile, p, facts, identify, e) == CLEAR <==> EventFaithful(nodes, profile, p, facts, identify, e)
  {
    var identity := identify(EventClaim(ProcessIdOf(p), p.checkpoint.epoch, e));
    OriginClear(facts, e.originRef, Event, identity, OBSERVER_ORIGIN);
    ConditionClear(true, UNREVIEWED_LOAD);
    var rest := if e.nodeId.None? then CLEAR
                else if !Reviewed(nodes, profile, e.nodeId.value) then Contradicts(true, UNREVIEWED_LOAD)
                else LoadJudged(nodes[e.nodeId.value], e);
    PlusClear(OriginJudged(facts, e.originRef, Event, identity, OBSERVER_ORIGIN), rest);
    if e.nodeId.Some? && Reviewed(nodes, profile, e.nodeId.value) { LoadClear(nodes[e.nodeId.value], e); }
  }

  ghost predicate EventsFaithful(nodes: map<string, SourceNode>, profile: Option<ProcessProfile>, p: ProcessObservation, facts: Facts, identify: Identify) {
    forall e :: e in p.events ==> EventFaithful(nodes, profile, p, facts, identify, e)
  }

  lemma {:induction false} EventsClear(nodes: map<string, SourceNode>, profile: Option<ProcessProfile>, p: ProcessObservation, facts: Facts, identify: Identify)
    ensures Over(Elements(p.events), e => EventJudged(nodes, profile, p, facts, identify, e)) == CLEAR
       <==> EventsFaithful(nodes, profile, p, facts, identify)
  {
    var judge := (e: LoadEvent) => EventJudged(nodes, profile, p, facts, identify, e);
    OverClear(Elements(p.events), judge);
    forall e ensures judge(e) == CLEAR <==> EventFaithful(nodes, profile, p, facts, identify, e) {
      EventClear(nodes, profile, p, facts, identify, e);
    }
  }

  ghost predicate ChildrenAnnounced(p: ProcessObservation) {
    forall c :: c in p.checkpoint.childFrontier <==> exists e :: e in p.events && e.childInstance == Some(c)
  }

  lemma {:induction false} ChildrenClear(p: ProcessObservation)
    ensures ChildrenJudged(p) == CLEAR <==> ChildrenAnnounced(p)
  {
    var frontier := set c | c in p.checkpoint.childFrontier;
    ConditionClear(frontier != AnnouncedBy(p.events), CHILD_COVERAGE);
    assert forall c :: c in AnnouncedBy(p.events) <==> exists e :: e in p.events && e.childInstance == Some(c);
    if ChildrenAnnounced(p) { assert frontier == AnnouncedBy(p.events); }
    if frontier == AnnouncedBy(p.events) {
      forall c ensures c in p.checkpoint.childFrontier <==> exists e :: e in p.events && e.childInstance == Some(c) {
        assert c in frontier <==> c in AnnouncedBy(p.events);
      }
    }
  }

  // -- the process

  /** Everything a clear judgement of one observed process says. */
  ghost predicate ProcessFaithful(p: ProcessObservation, required: ExpectedProcess, g: SourceGraph, envelope: ClosureEnvelope,
                                  facts: Facts, identify: Identify) {
    var profile, nodes := FindProfile(g.processProfiles, required.profileId), NodesById(g.nodes);
    && Identified(p, required, g, envelope) && Witnessed(p, facts, identify) && Sealed(p, required, envelope)
    && WholeHistory(p) && EventsFaithful(nodes, profile, p, facts, identify) && ChildrenAnnounced(p)
    && LoadsComplete(profile, EntriesById(g.entrypoints), Loads(p.events))
  }

  lemma {:induction false} ObservationClear(p: ProcessObservation, required: ExpectedProcess, g: SourceGraph, envelope: ClosureEnvelope,
                                            facts: Facts, identify: Identify)
    ensures ObservationJudged(p, required, g, envelope, facts, identify) == CLEAR
       <==> && Identified(p, required, g, envelope) && Witnessed(p, facts, identify) && Sealed(p, required, envelope) && WholeHistory(p)
            && EventsFaithful(NodesById(g.nodes), FindProfile(g.processProfiles, required.profileId), p, facts, identify) && ChildrenAnnounced(p)
  {
    var profile, nodes := FindProfile(g.processProfiles, required.profileId), NodesById(g.nodes);
    var events := Over(Elements(p.events), e => EventJudged(nodes, profile, p, facts, identify, e));
    NineClear(IdentityJudged(p, required, g, envelope), ProfileJudged(p, profile), OriginsJudged(p, facts, identify),
              CheckpointJudged(p, required, envelope), SequenceJudged(p), RepeatsJudged(p.events), KindsJudged(p), events, ChildrenJudged(p));
    IdentityClear(p, required, g, envelope);
    WitnessClear(p, facts, identify);
    CheckpointClear(p, required, envelope);
    HistoryClear(p);
    EventsClear(nodes, profile, p, facts, identify);
    ChildrenClear(p);
  }

  lemma {:induction false} NineClear(a: Judgement, b: Judgement, c: Judgement, d: Judgement, e: Judgement, f: Judgement, g: Judgement,
                                     h: Judgement, i: Judgement)
    ensures Plus(Plus(Plus(a, b), Plus(c, d)), Plus(Plus(e, f), Plus(g, Plus(h, i)))) == CLEAR
       <==> a == CLEAR && b == CLEAR && c == CLEAR && d == CLEAR && e == CLEAR && f == CLEAR && g == CLEAR && h == CLEAR && i == CLEAR
  {
    PlusClear(Plus(Plus(a, b), Plus(c, d)), Plus(Plus(e, f), Plus(g, Plus(h, i))));
    FourClear(a, b, c, d);
    FourClear(e, f, g, Plus(h, i));
    PlusClear(h, i);
  }

  lemma {:induction false} ProcessClear(p: ProcessObservation, required: ExpectedProcess, g: SourceGraph, envelope: ClosureEnvelope,
                                        facts: Facts, identify: Identify)
    ensures ProcessJudged(p, required, g, envelope, facts, identify) == CLEAR <==> ProcessFaithful(p, required, g, envelope, facts, identify)
  {
    var base := ObservationJudged(p, required, g, envelope, facts, identify);
    var complete := LoadsComplete(FindProfile(g.processProfiles, required.profileId), EntriesById(g.entrypoints), Loads(p.events));
    ObservationClear(p, required, g, envelope, facts, identify);
    PlusClear(base, MissingLoadJudged(complete, base.gaps));
    var excused := base.gaps * {COVERAGE_GAP, SEQUENCE_GAP, OBSERVER_ORIGIN, STALE_FRONTIER} != {};
    PlusClear(Lacks(!complete && excused, REQUIRED_LOAD), Contradicts(!complete && !excused, REQUIRED_LOAD));
    ConditionClear(!complete && excused, REQUIRED_LOAD);
    ConditionClear(!complete && !excused, REQUIRED_LOAD);
  }
}
