/** The comparator's loops over one process (p3_source_closure/comparison.py): repeated events, kinds, loads and required
    loads. Each adds to the findings exactly the judgement that Comparison specifies for it, and nothing else. */
module Comparator {
  import opened Records
  import opened Judgement
  import opened Provenance
  import opened ReviewedGraph
  import opened Comparison

  method CheckIdentity(p: ProcessObservation, required: ExpectedProcess, g: SourceGraph, envelope: ClosureEnvelope,
                       profile: Option<ProcessProfile>, findings: Findings)
    modifies findings
    ensures findings.Value() == Plus(old(findings.Value()), Plus(IdentityJudged(p, required, g, envelope), ProfileJudged(p, profile)))
  {
    ghost var before := findings.Value();
    findings.Refuse(p.instance != required.instance || p.profileId != required.profileId, PROCESS_INSTANCE);
    findings.Refuse(p.binding != envelope.binding || p.graphId != g.graphId, BINDING);
    PlusAssociates(before, Contradicts(p.instance != required.instance || p.profileId != required.profileId, PROCESS_INSTANCE),
                   Contradicts(p.binding != envelope.binding || p.graphId != g.graphId, BINDING));
    CheckProfile(p, profile, findings);
    PlusAssociates(before, IdentityJudged(p, required, g, envelope), ProfileJudged(p, profile));
  }

  method CheckProfile(p: ProcessObservation, profile: Option<ProcessProfile>, findings: Findings)
    modifies findings
    ensures findings.Value() == Plus(old(findings.Value()), ProfileJudged(p, profile))
  {
    match profile {
      case None => findings.Refuse(true, PROCESS_INSTANCE);
      case Some(q) =>
        findings.Refuse(p.entrypointIds != q.entrypointIds || RoleMisplaced(q.role, p.instance.location), PROCESS_INSTANCE);
        findings.Refuse(p.runtimeNodes != q.runtimeNodes || p.instance.runtimeId !in q.runtimeNodes, RUNTIME_PROVENANCE);
    }
  }

  method CheckOrigins(p: ProcessObservation, findings: Findings)
    modifies findings
    ensures findings.Value() == Plus(old(findings.Value()), OriginsJudged(p, findings.origins, findings.identify))
  {
    ghost var before, facts, identify := findings.Value(), findings.origins, findings.identify;
    findings.Origin(p.processRef, ProcessPurpose, ProcessClaim(ProcessIdOf(p)), PROCESS_INSTANCE);
    findings.Origin(p.collectorRef, Collector, CollectorClaim(CollectorIdOf(p)), OBSERVER_ORIGIN);
    findings.Origin(p.checkpoint.initialStateRef, Collector, InitialClaim(CollectorIdOf(p)), COVERAGE_GAP);
    findings.Origin(p.checkpoint.checkpointRef, CheckpointPurpose, CheckpointClaim(ProcessIdOf(p), p.checkpoint), OBSERVER_ORIGIN);
    PlusFour(before,
             OriginJudged(facts, p.processRef, ProcessPurpose, identify(ProcessClaim(ProcessIdOf(p))), PROCESS_INSTANCE),
             OriginJudged(facts, p.collectorRef, Collector, identify(CollectorClaim(CollectorIdOf(p))), OBSERVER_ORIGIN),
             OriginJudged(facts, p.checkpoint.initialStateRef, Collector, identify(InitialClaim(CollectorIdOf(p))), COVERAGE_GAP),
             OriginJudged(facts, p.checkpoint.checkpointRef, CheckpointPurpose, identify(CheckpointClaim(ProcessIdOf(p), p.checkpoint)), OBSERVER_ORIGIN));
  }

  method CheckCheckpoint(p: ProcessObservation, required: ExpectedProcess, envelope: ClosureEnvelope, findings: Findings)
    modifies findings
    ensures findings.Value() == Plus(old(findings.Value()), CheckpointJudged(p, required, envelope))
  {
    ghost var before := findings.Value();
    var stale := FrontierOf(p) != Some(required.frontier) || p.checkpoint.boundary != envelope.boundary;
    findings.Unknown(stale, STALE_FRONTIER);
    findings.Unknown(!Covered(p, required), COVERAGE_GAP);
    PlusAssociates(before, Lacks(stale, STALE_FRONTIER), Lacks(!Covered(p, required), COVERAGE_GAP));
  }

  method CheckSequence(p: ProcessObservation, findings: Findings)
    modifies findings
    ensures findings.Value() == Plus(old(findings.Value()), SequenceJudged(p))
  {
    ghost var before := findings.Value();
    var moved := p.events != [] && p.checkpoint.lastEventId != p.events[|p.events| - 1].eventId;
    findings.Unknown(!SequenceWhole(p), SEQUENCE_GAP);
    findings.Unknown(moved, STALE_FRONTIER);
    PlusAssociates(before, Lacks(!SequenceWhole(p), SEQUENCE_GAP), Lacks(moved, STALE_FRONTIER));
  }

  // -- repeated events: one pass, two maps that later events overwrite

  datatype Key = Number(sequence: nat) | Id(eventId: string)

  function KeyOf(e: LoadEvent, byId: bool): Key {
    if byId then Id(e.eventId) else Number(e.sequence)
  }

  /** What a map of the pass holds after `i` events: under each key the last event that has it. */
  ghost predicate Remembers(events: seq<LoadEvent>, byId: bool, i: nat, m: map<Key, LoadEvent>)
    requires i <= |events|
  {
    && (forall j :: 0 <= j < i ==> KeyOf(events[j], byId) in m)
    && (forall k :: k in m ==> exists j :: LastWith(events, byId, i, k, j) && m[k] == events[j])
  }

  ghost predicate LastWith(events: seq<LoadEvent>, byId: bool, i: nat, k: Key, j: int)
    requires i <= |events|
  {
    0 <= j < i && KeyOf(events[j], byId) == k && forall l :: j < l < i ==> KeyOf(events[l], byId) != k
  }

  lemma {:induction false} RemembersStep(events: seq<LoadEvent>, byId: bool, i: nat, m: map<Key, LoadEvent>)
    requires i < |events| && Remembers(events, byId, i, m)
    ensures Remembers(events, byId, i + 1, m[KeyOf(events[i], byId) := events[i]])
  {
    var key := KeyOf(events[i], byId);
    var m' := m[key := events[i]];
    forall k | k in m' ensures exists j :: LastWith(events, byId, i + 1, k, j) && m'[k] == events[j] {
      if k == key {
        assert LastWith(events, byId, i + 1, k, i);
      } else {
        var j :| LastWith(events, byId, i, k, j) && m[k] == events[j];
        assert LastWith(events, byId, i + 1, k, j);
      }
    }
  }

  ghost predicate ClashBy(events: seq<LoadEvent>, byId: bool, i: int)
    requires 0 <= i < |events|
  {
    exists j :: 0 <= j < |events| && Latest(events, byId, j, i) && events[j] != events[i]
  }

  ghost predicate SharesBy(events: seq<LoadEvent>, byId: bool, i: int)
    requires 0 <= i < |events|
  {
    exists j :: 0 <= j < i && SameKey(events, byId, j, i)
  }

  /** The pass's test for event `i` under one key is exactly a clash with the latest such event. */
  lemma {:induction false} ClashTest(events: seq<LoadEvent>, byId: bool, i: nat, m: map<Key, LoadEvent>)
    requires i < |events| && Remembers(events, byId, i, m)
    ensures var k := KeyOf(events[i], byId); k in m && m[k] != events[i] <==> ClashBy(events, byId, i)
    ensures KeyOf(events[i], byId) in m <==> SharesBy(events, byId, i)
  {
    var k := KeyOf(events[i], byId);
    if k in m {
      var j :| LastWith(events, byId, i, k, j) && m[k] == events[j];
      assert SameKey(events, byId, j, i) && Latest(events, byId, j, i);
      forall l | 0 <= l < |events| && Latest(events, byId, l, i) ensures l == j {
        assert SameKey(events, byId, j, i) && KeyOf(events[l], byId) == k;
      }
    }
    if SharesBy(events, byId, i) {
      var j :| 0 <= j < i && SameKey(events, byId, j, i);
      assert KeyOf(events[j], byId) == k;
    }
  }

  predicate Clashes(e: LoadEvent, bySequence: map<Key, LoadEvent>, byId: map<Key, LoadEvent>) {
    (Number(e.sequence) in bySequence && bySequence[Number(e.sequence)] != e) || (Id(e.eventId) in byId && byId[Id(e.eventId)] != e)
  }

  predicate Repeats(e: LoadEvent, bySequence: map<Key, LoadEvent>, byId: map<Key, LoadEvent>) {
    !Clashes(e, bySequence, byId) && (Number(e.sequence) in bySequence || Id(e.eventId) in byId)
  }

  lemma {:induction false} PassStep(events: seq<LoadEvent>, i: nat, bySequence: map<Key, LoadEvent>, byId: map<Key, LoadEvent>)
    requires i < |events| && Remembers(events, false, i, bySequence) && Remembers(events, true, i, byId)
    ensures Clashes(events[i], bySequence, byId) <==> ClashAt(events, i)
    ensures Repeats(events[i], bySequence, byId) <==> RepeatAt(events, i)
  {
    ClashTest(events, false, i, bySequence);
    ClashTest(events, true, i, byId);
    EitherKey(events, i);
  }

  lemma {:induction false} EitherKey(events: seq<LoadEvent>, i: nat)
    requires i < |events|
    ensures ClashAt(events, i) <==> ClashBy(events, false, i) || ClashBy(events, true, i)
    ensures (exists j :: 0 <= j < i && Shares(events, j, i)) <==> SharesBy(events, false, i) || SharesBy(events, true, i)
  {
    if SharesBy(events, false, i) { var j :| 0 <= j < i && SameKey(events, false, j, i); assert Shares(events, j, i); }
    if SharesBy(events, true, i) { var j :| 0 <= j < i && SameKey(events, true, j, i); assert Shares(events, j, i); }
  }

  ghost function RepeatsBefore(events: seq<LoadEvent>, n: nat): Judgement
    requires n <= |events|
  {
    Plus(Contradicts(AnyClash(events, n), SEQUENCE_GAP), Lacks(AnyRepeat(events, n), SEQUENCE_GAP))
  }

  lemma {:induction false} RepeatStep(events: seq<LoadEvent>, i: nat)
    requires i < |events|
    ensures RepeatsBefore(events, i + 1)
         == Plus(RepeatsBefore(events, i), Plus(Contradicts(ClashAt(events, i), SEQUENCE_GAP), Lacks(RepeatAt(events, i), SEQUENCE_GAP)))
  {
    AnyStep(events, i);
    FindingsStep(AnyClash(events, i), ClashAt(events, i), AnyRepeat(events, i), RepeatAt(events, i));
  }

  lemma {:induction false} AnyStep(events: seq<LoadEvent>, i: nat)
    requires i < |events|
    ensures AnyClash(events, i + 1) <==> AnyClash(events, i) || ClashAt(events, i)
    ensures AnyRepeat(events, i + 1) <==> AnyRepeat(events, i) || RepeatAt(events, i)
  {
  }

  lemma {:induction false} FindingsStep(clashed: bool, clash: bool, repeated: bool, repeat: bool)
    ensures Plus(Contradicts(clashed || clash, SEQUENCE_GAP), Lacks(repeated || repeat, SEQUENCE_GAP))
         == Plus(Plus(Contradicts(clashed, SEQUENCE_GAP), Lacks(repeated, SEQUENCE_GAP)),
                 Plus(Contradicts(clash, SEQUENCE_GAP), Lacks(repeat, SEQUENCE_GAP)))
  {
  }

  method NoteRepeat(clash: bool, repeat: bool, findings: Findings)
    modifies findings
    ensures findings.Value() == Plus(old(findings.Value()), Plus(Contradicts(clash, SEQUENCE_GAP), Lacks(repeat, SEQUENCE_GAP)))
  {
    ghost var before := findings.Value();
    findings.Refuse(clash, SEQUENCE_GAP);
    findings.Unknown(repeat, SEQUENCE_GAP);
    PlusAssociates(before, Contradicts(clash, SEQUENCE_GAP), Lacks(repeat, SEQUENCE_GAP));
  }

  method RepeatTurn(events: seq<LoadEvent>, i: nat, bySequence: map<Key, LoadEvent>, byId: map<Key, LoadEvent>, findings: Findings,
                    ghost before: Judgement)
    requires i < |events| && Remembers(events, false, i, bySequence) && Remembers(events, true, i, byId)
    requires findings.Value() == Plus(before, RepeatsBefore(events, i))
    modifies findings
    ensures findings.Value() == Plus(before, RepeatsBefore(events, i + 1))
  {
    PassStep(events, i, bySequence, byId);
    RepeatStep(events, i);
    NoteRepeat(Clashes(events[i], bySequence, byId), Repeats(events[i], bySequence, byId), findings);
    PlusAssociates(before, RepeatsBefore(events, i),
                   Plus(Contradicts(ClashAt(events, i), SEQUENCE_GAP), Lacks(RepeatAt(events, i), SEQUENCE_GAP)));
  }

  method CheckRepeats(events: seq<LoadEvent>, findings: Findings)
    modifies findings
    ensures findings.Value() == Plus(old(findings.Value()), RepeatsJudged(events))
  {
    ghost var before := findings.Value();
    var bySequence: map<Key, LoadEvent>, byId: map<Key, LoadEvent> := map[], map[];
    NothingBefore(events, before);
    for i := 0 to |events|
      invariant Remembers(events, false, i, bySequence) && Remembers(events, true, i, byId)
      invariant findings.Value() == Plus(before, RepeatsBefore(events, i))
    {
      RepeatTurn(events, i, bySequence, byId, findings, before);
      RemembersStep(events, false, i, bySequence);
      RemembersStep(events, true, i, byId);
      bySequence, byId := bySequence[Number(events[i].sequence) := events[i]], byId[Id(events[i].eventId) := events[i]];
    }
  }

  lemma {:induction false} NothingBefore(events: seq<LoadEvent>, before: Judgement)
    ensures Plus(before, RepeatsBefore(events, 0)) == before
  {
  }

  // -- kinds, loads and children

  method CheckKinds(p: ProcessObservation, findings: Findings)
    modifies findings
    ensures findings.Value() == Plus(old(findings.Value()), KindsJudged(p))
  {
    ghost var before := findings.Value();
    findings.Unknown(Unopened(p), COVERAGE_GAP);
    findings.Refuse(EndMisplaced(p), PROCESS_INSTANCE);
    findings.Unknown(Restarted(p.events), PROCESS_INSTANCE);
    ghost var a, b, c := Lacks(Unopened(p), COVERAGE_GAP), Contradicts(EndMisplaced(p), PROCESS_INSTANCE),
                         Lacks(Restarted(p.events), PROCESS_INSTANCE);
    PlusAssociates(Plus(before, a), b, c);
    PlusAssociates(before, a, Plus(b, c));
  }

  method CheckLoad(n: SourceNode, e: LoadEvent, findings: Findings)
    modifies findings
    ensures findings.Value() == Plus(old(findings.Value()), LoadJudged(n, e))
  {
    ghost var before := findings.Value();
    var executed := if n.provenance.Generated? then n.provenance.executionObject else n.content;
    var wrongForm := false;
    if n.provenance.Artifact? {
      executed := n.provenance.loadedRepresentation;
      wrongForm := e.representation != n.provenance.representation;
    }
    var substituted := e.loaded != Some(executed);
    var unexplained := e.representation != Bytes && (!n.provenance.Artifact? || wrongForm);
    findings.Refuse(wrongForm, RUNTIME_PROVENANCE);
    findings.Refuse(substituted, BYTE_SUBSTITUTION);
    findings.Refuse(substituted && n.kind == CachedCode, CACHED_CODE);
    findings.Unknown(unexplained, RUNTIME_PROVENANCE);
    PlusFour(before, Contradicts(wrongForm, RUNTIME_PROVENANCE), Contradicts(substituted, BYTE_SUBSTITUTION),
             Contradicts(substituted && n.kind == CachedCode, CACHED_CODE), Lacks(unexplained, RUNTIME_PROVENANCE));
  }

  method CheckEvent(nodes: map<string, SourceNode>, profile: Option<ProcessProfile>, p: ProcessObservation, e: LoadEvent, findings: Findings)
    modifies findings
    ensures findings.Value() == Plus(old(findings.Value()), EventJudged(nodes, profile, p, findings.origins, findings.identify, e))
  {
    ghost var before := findings.Value();
    var claim := EventClaim(ProcessIdOf(p), p.checkpoint.epoch, e);
    findings.Origin(e.originRef, Event, claim, OBSERVER_ORIGIN);
    ghost var origin := OriginJudged(findings.origins, e.originRef, Event, findings.identify(claim), OBSERVER_ORIGIN);
    ghost var load := CLEAR;
    if e.nodeId.Some? {
      if !Reviewed(nodes, profile, e.nodeId.value) {
        findings.Refuse(true, UNREVIEWED_LOAD);
        load := Contradicts(true, UNREVIEWED_LOAD);
      } else {
        CheckLoad(nodes[e.nodeId.value], e, findings);
        load := LoadJudged(nodes[e.nodeId.value], e);
      }
    }
    PlusAssociates(before, origin, load);
  }

  lemma {:induction false} GatherStep(events: seq<LoadEvent>, i: nat)
    requires i < |events|
    ensures Loads(events[..i + 1]) == Loads(events[..i]) + (if events[i].nodeId.Some? then {events[i].nodeId.value} else {})
    ensures AnnouncedBy(events[..i + 1]) == AnnouncedBy(events[..i]) + (if events[i].childInstance.Some? then {events[i].childInstance.value} else {})
  {
    assert events[..i + 1] == events[..i] + [events[i]];
    assert forall e :: e in events[..i + 1] <==> e in events[..i] || e == events[i];
  }

  /** The event loop; it also gathers the loaded nodes and the announced children. */
  method CheckEvents(nodes: map<string, SourceNode>, profile: Option<ProcessProfile>, p: ProcessObservation, findings: Findings)
    returns (loads: set<string>, children: set<string>)
    modifies findings
    ensures findings.Value() == Plus(old(findings.Value()),
              Over(Elements(p.events), e => EventJudged(nodes, profile, p, findings.origins, findings.identify, e)))
    ensures loads == Loads(p.events) && children == AnnouncedBy(p.events)
  {
    ghost var judge := (e: LoadEvent) => EventJudged(nodes, profile, p, findings.origins, findings.identify, e);
    ghost var before := findings.Value();
    loads, children := {}, {};
    OverNothing(judge);
    for i := 0 to |p.events|
      invariant findings.Value() == Plus(before, Over(Elements(p.events[..i]), judge))
      invariant loads == Loads(p.events[..i]) && children == AnnouncedBy(p.events[..i])
    {
      var e := p.events[i];
      CheckEvent(nodes, profile, p, e, findings);
      OverStep(p.events, i, judge);
      PlusAssociates(before, Over(Elements(p.events[..i]), judge), judge(e));
      GatherStep(p.events, i);
      if e.childInstance.Some? { children := children + {e.childInstance.value}; }
      if e.nodeId.Some? { loads := loads + {e.nodeId.value}; }
    }
    assert p.events[..|p.events|] == p.events;
  }

  function MandatoryOf(entries: map<string, Entrypoint>, ids: seq<string>): (r: set<string>)
    requires forall k :: k in ids ==> k in entries
    ensures forall n :: n in r <==> exists k :: k in ids && (n == entries[k].node || n in entries[k].bootstrapChain)
  {
    if ids == [] then {}
    else
      assert ids == [ids[0]] + ids[1..];
      {entries[ids[0]].node} + (set n | n in entries[ids[0]].bootstrapChain) + MandatoryOf(entries, ids[1..])
  }

  method CheckRequired(profile: Option<ProcessProfile>, entries: map<string, Entrypoint>, loads: set<string>, findings: Findings)
    requires profile.Some? ==> forall k :: k in profile.value.entrypointIds ==> k in entries
    modifies findings
    ensures findings.Value() == Plus(old(findings.Value()), MissingLoadJudged(LoadsComplete(profile, entries, loads), old(findings.gaps)))
  {
    ghost var complete := LoadsComplete(profile, entries, loads);
    if profile.Some? {
      var q := profile.value;
      var mandatory := (set n | n in q.requiredLoadIds) + (set n | n in q.runtimeNodes) + MandatoryOf(entries, q.entrypointIds);
      assert complete <==> mandatory <= loads by {
        assert forall n :: n in mandatory <==> IsMandatory(q, entries, n);
      }
      if !(mandatory <= loads) {
        if findings.gaps * {COVERAGE_GAP, SEQUENCE_GAP, OBSERVER_ORIGIN, STALE_FRONTIER} != {} {
          findings.Unknown(true, REQUIRED_LOAD);
        } else {
          findings.Refuse(true, REQUIRED_LOAD);
        }
      }
    }
  }

  ghost predicate EntriesOf(g: SourceGraph) {
    forall p :: p in g.processProfiles ==> forall k :: k in p.entrypointIds ==> k in EntriesById(g.entrypoints)
  }

  method CheckObservation(p: ProcessObservation, required: ExpectedProcess, g: SourceGraph, envelope: ClosureEnvelope, findings: Findings)
    returns (loads: set<string>)
    requires findings.Value() == CLEAR
    modifies findings
    ensures findings.Value() == ObservationJudged(p, required, g, envelope, findings.origins, findings.identify)
    ensures loads == Loads(p.events)
  {
    var profile, nodes := FindProfile(g.processProfiles, required.profileId), NodesById(g.nodes);
    ghost var facts, identify := findings.origins, findings.identify;
    CheckIdentity(p, required, g, envelope, profile, findings);
    CheckOrigins(p, findings);
    CheckCheckpoint(p, required, envelope, findings);
    CheckSequence(p, findings);
    CheckRepeats(p.events, findings);
    CheckKinds(p, findings);
    var children;
    loads, children := CheckEvents(nodes, profile, p, findings);
    findings.Unknown((set c | c in p.checkpoint.childFrontier) != children, CHILD_COVERAGE);
    PlusEight(Plus(IdentityJudged(p, required, g, envelope), ProfileJudged(p, profile)), OriginsJudged(p, facts, identify),
              CheckpointJudged(p, required, envelope), SequenceJudged(p), RepeatsJudged(p.events), KindsJudged(p),
              Over(Elements(p.events), e => EventJudged(nodes, profile, p, facts, identify, e)), ChildrenJudged(p));
  }

  lemma {:induction false} PlusEight(a: Judgement, b: Judgement, c: Judgement, d: Judgement, e: Judgement, f: Judgement, g: Judgement, h: Judgement)
    ensures Plus(Plus(Plus(Plus(Plus(Plus(Plus(Plus(CLEAR, a), b), c), d), e), f), g), h)
         == Plus(Plus(a, Plus(b, c)), Plus(Plus(d, e), Plus(f, Plus(g, h))))
  {
    var abc := Plus(a, Plus(b, c));
    assert Plus(CLEAR, a) == a;
    PlusAssociates(a, b, c);
    PlusFour(Plus(abc, d), e, f, g, h);
    PlusAssociates(abc, d, Plus(Plus(e, f), Plus(g, h)));
    PlusAssociates(e, f, Plus(g, h));
    PlusAssociates(d, e, Plus(f, Plus(g, h)));
  }

  /** `_check_process`, on findings of its own. */
  method CheckProcess(p: ProcessObservation, required: ExpectedProcess, g: SourceGraph, envelope: ClosureEnvelope, local: Findings)
    requires EntriesOf(g) && local.Value() == CLEAR
    modifies local
    ensures local.Value() == ProcessJudged(p, required, g, envelope, local.origins, local.identify)
  {
    var loads := CheckObservation(p, required, g, envelope, local);
    CheckRequired(FindProfile(g.processProfiles, required.profileId), EntriesById(g.entrypoints), loads, local);
  }
}
