/** The comparator's main results: what MATCH says of the two documents, their processes and the process tree. MATCH is
    characterised exactly first; the corollaries then read single clauses off it: which processes there are, how their
    events are numbered, what they loaded, who started whom, which frontiers are returned, and that one set of verified
    origins determines the inputs. */
module MatchTheorems {
  import opened Records
  import opened Judgement
  import opened Provenance
  import opened ReviewedGraph
  import opened LoadedEnvelope
  import opened Comparison
  import opened WholeComparison
  import opened MatchSoundness
  import opened MatchedProcess
  import opened Sorting
  import opened Text

  // -- the roster

  function ObservedIds(processes: seq<ProcessObservation>): (r: seq<string>) {
    seq(|processes|, i requires 0 <= i < |processes| => processes[i].instance.instanceId)
  }

  function ExpectedIds(processes: seq<ExpectedProcess>): (r: seq<string>) {
    seq(|processes|, i requires 0 <= i < |processes| => processes[i].instance.instanceId)
  }

  lemma {:induction false} DistinctTail<T(!new)>(s: seq<T>)
    requires s != []
    ensures NoDuplicates(s) <==> s[0] !in s[1..] && NoDuplicates(s[1..])
  {
    var rest := s[1..];
    assert forall i :: 0 <= i < |rest| ==> rest[i] == s[i + 1];
    if s[0] in rest {
      var j :| 0 <= j < |rest| && rest[j] == s[0];
      assert s[j + 1] == s[0];
    }
  }

  lemma {:induction false} ElementsCount<T(!new)>(s: seq<T>)
    ensures |Elements(s)| <= |s|
    ensures |Elements(s)| == |s| <==> NoDuplicates(s)
  {
    if s != [] {
      var rest := s[1..];
      ElementsCount(rest);
      DistinctTail(s);
      assert s == [s[0]] + rest;
      assert Elements(s) == Elements(rest) + {s[0]};
      assert s[0] in rest ==> Elements(s) == Elements(rest);
    }
  }

  lemma {:induction false} ActualKeys(processes: seq<ProcessObservation>)
    ensures ActualBy(processes).Keys == Elements(ObservedIds(processes))
  {
    var ids := ObservedIds(processes);
    forall k | k in ActualBy(processes) ensures k in ids {
      var i :| 0 <= i < |processes| && processes[i] == ActualBy(processes)[k];
      assert ids[i] == k;
    }
    forall k | k in ids ensures k in ActualBy(processes) {
      var i :| 0 <= i < |ids| && ids[i] == k;
      assert processes[i] in processes;
    }
  }

  lemma {:induction false} RequiredKeys(processes: seq<ExpectedProcess>)
    ensures RequiredBy(processes).Keys == Elements(ExpectedIds(processes))
  {
    var ids := ExpectedIds(processes);
    forall k | k in RequiredBy(processes) ensures k in ids {
      var i :| 0 <= i < |processes| && processes[i] == RequiredBy(processes)[k];
      assert ids[i] == k;
    }
    forall k | k in ids ensures k in RequiredBy(processes) {
      var i :| 0 <= i < |ids| && ids[i] == k;
      assert processes[i] in processes;
    }
  }

  lemma {:induction false} ActualCounts(processes: seq<ProcessObservation>)
    ensures |ActualBy(processes)| == |processes| <==> NoDuplicates(ObservedIds(processes))
  {
    ActualKeys(processes);
    ElementsCount(ObservedIds(processes));
    assert |ActualBy(processes)| == |ActualBy(processes).Keys|;
  }

  /** At least one process is expected, the observed instances are distinct and they are the expected ones. */
  ghost predicate RosterExact(c: Case) {
    && c.expected.processes != [] && NoDuplicates(ObservedIds(c.observed.envelope.processObservations))
    && RequiredBy(c.expected.processes).Keys == ActualBy(c.observed.envelope.processObservations).Keys
    && (c.observed.envelope.boundary.phase !in {APreCreate, APreArm} ==> HasHalf(c, Host) && HasHalf(c, Container))
  }

  lemma {:induction false} CensusClear(required: map<string, ExpectedProcess>, actual: map<string, ProcessObservation>, n: nat)
    ensures CensusJudged(required, actual, n) == CLEAR <==> |actual| == n && required != map[] && required.Keys == actual.Keys
  {
    var missing, extra := required.Keys - actual.Keys, actual.Keys - required.Keys;
    FourClear(Contradicts(|actual| != n, PROCESS_INSTANCE), Lacks(required == map[], COVERAGE_GAP),
              MissingJudged(required, missing), Contradicts(extra != {}, PROCESS_INSTANCE));
    ConditionClear(|actual| != n, PROCESS_INSTANCE);
    ConditionClear(required == map[], COVERAGE_GAP);
    ConditionClear(missing != {}, if MissesChild(required, missing) then CHILD_COVERAGE else PROCESS_INSTANCE);
    ConditionClear(extra != {}, PROCESS_INSTANCE);
    assert missing == {} && extra == {} <==> required.Keys == actual.Keys;
  }

  lemma {:induction false} RosterClear(c: Case)
    ensures RosterJudged(c) == CLEAR <==> RosterExact(c)
  {
    var required, actual := RequiredBy(c.expected.processes), ActualBy(c.observed.envelope.processObservations);
    var n := |c.observed.envelope.processObservations|;
    ActualCounts(c.observed.envelope.processObservations);
    CensusClear(required, actual, n);
    PlusClear(CensusJudged(required, actual, n), HalvesJudged(c));
    ConditionClear(c.observed.envelope.boundary.phase !in {APreCreate, APreArm} && !(HasHalf(c, Host) && HasHalf(c, Container)), COVERAGE_GAP);
    assert required == map[] <==> c.expected.processes == [] by {
      if c.expected.processes != [] { assert c.expected.processes[0].instance.instanceId in required; }
    }
  }

  // -- the tree

  /** The parent of `key`, if it has one, is observed, announces it and may have children of its profile. */
  predicate ParentFits(profiles: seq<ProcessProfile>, actual: map<string, ProcessObservation>, key: string)
    requires key in actual
  {
    var parent := actual[key].instance.parentInstance;
    parent.Some? ==>
      && parent.value in actual && key in actual[parent.value].checkpoint.childFrontier
      && var profile := FindProfile(profiles, actual[parent.value].profileId);
         profile.Some? && actual[key].profileId in profile.value.childProfiles
  }

  predicate ChildrenFit(actual: map<string, ProcessObservation>, key: string)
    requires key in actual
  {
    forall child :: child in actual[key].checkpoint.childFrontier ==> child in actual && actual[child].instance.parentInstance == Some(key)
  }

  lemma {:induction false} TreeClear(profiles: seq<ProcessProfile>, actual: map<string, ProcessObservation>, key: string)
    requires key in actual
    ensures TreeJudged(profiles, actual, key) == CLEAR <==> ParentFits(profiles, actual, key) && ChildrenFit(actual, key)
  {
    var judge := (child: string) => ChildJudged(actual, key, child);
    var children := Elements(actual[key].checkpoint.childFrontier);
    PlusClear(ParentJudged(profiles, actual, key), Over(children, judge));
    OverClear(children, judge);
    ConditionClear(true, CHILD_COVERAGE);
    forall child ensures judge(child) == CLEAR <==> child in actual && actual[child].instance.parentInstance == Some(key) {
      ConditionClear(child in actual && actual[child].instance.parentInstance != Some(key), CHILD_COVERAGE);
    }
    var parent := actual[key].instance.parentInstance;
    if parent.Some? && parent.value in actual {
      var profile := FindProfile(profiles, actual[parent.value].profileId);
      ConditionClear(profile.None? || actual[key].profileId !in profile.value.childProfiles, CHILD_COVERAGE);
    }
  }

  // -- the whole

  ghost predicate KeyFaithful(c: Case, facts: Facts, identify: Identify, key: string) {
    var required, actual := RequiredBy(c.expected.processes), ActualBy(c.observed.envelope.processObservations);
    key in required && key in actual ==>
      && ProcessFaithful(actual[key], required[key], c.reviewed.graph, c.observed.envelope, facts, identify)
      && ParentFits(c.reviewed.graph.processProfiles, actual, key) && ChildrenFit(actual, key)
  }

  ghost predicate Faithful(c: Case, verified: VerifiedClosureOrigins, identify: Identify) {
    && DocumentsGenuine(c, verified, identify) && RosterExact(c)
    && forall key :: key in RequiredBy(c.expected.processes) ==> KeyFaithful(c, FactMap(verified.facts), identify, key)
  }

  lemma {:induction false} KeyClear(c: Case, facts: Facts, identify: Identify, key: string)
    ensures KeyJudged(c, facts, identify, key) == CLEAR <==> KeyFaithful(c, facts, identify, key)
  {
    var required, actual := RequiredBy(c.expected.processes), ActualBy(c.observed.envelope.processObservations);
    if key in required && key in actual {
      var process := ProcessJudged(actual[key], required[key], c.reviewed.graph, c.observed.envelope, facts, identify);
      PlusClear(process, TreeJudged(c.reviewed.graph.processProfiles, actual, key));
      ProcessClear(actual[key], required[key], c.reviewed.graph, c.observed.envelope, facts, identify);
      TreeClear(c.reviewed.graph.processProfiles, actual, key);
    }
  }

  lemma {:induction false} ProcessesClear(c: Case, facts: Facts, identify: Identify)
    ensures ProcessesJudged(c, facts, identify) == CLEAR
       <==> forall key :: key in RequiredBy(c.expected.processes) ==> KeyFaithful(c, facts, identify, key)
  {
    var required, actual := RequiredBy(c.expected.processes), ActualBy(c.observed.envelope.processObservations);
    var judge := (key: string) => KeyJudged(c, facts, identify, key);
    OverClear(required.Keys * actual.Keys, judge);
    forall key ensures judge(key) == CLEAR <==> KeyFaithful(c, facts, identify, key) { KeyClear(c, facts, identify, key); }
    forall key | key in required && key !in actual ensures KeyFaithful(c, facts, identify, key) {}
  }

  /** MATCH is sound and complete: it is returned exactly for documents that agree in every respect. */
  lemma {:induction false} MatchIsExact(c: Case, verified: VerifiedClosureOrigins, identify: Identify)
    requires Acceptable(c, verified, identify)
    ensures LoadedSourceOutcome(c, verified, identify).disposition == MATCH <==> Faithful(c, verified, identify)
  {
    DocumentsClear(c, verified, identify);
    RosterClear(c);
    ProcessesClear(c, FactMap(verified.facts), identify);
    ThreeClear(DocumentsJudged(c, verified, identify), RosterJudged(c), ProcessesJudged(c, FactMap(verified.facts), identify));
    var whole := WholeJudged(c, verified, identify);
    assert DispositionOf(whole) == MATCH <==> whole == CLEAR;
  }

  ghost predicate Matches(c: Case, verified: VerifiedClosureOrigins, identify: Identify) {
    var outcome := LoadedSourceOutcome(c, verified, identify);
    outcome.Compared? && outcome.disposition == MATCH
  }

  lemma {:induction false} MatchFaithful(c: Case, verified: VerifiedClosureOrigins, identify: Identify)
    requires Matches(c, verified, identify)
    ensures Faithful(c, verified, identify)
  {
    MatchIsExact(c, verified, identify);
  }

  lemma {:induction false} SameId(processes: seq<ProcessObservation>, i: nat, j: nat)
    requires NoDuplicates(ObservedIds(processes)) && i < |processes| && j < |processes|
    requires processes[i].instance.instanceId == processes[j].instance.instanceId
    ensures i == j
  {
    assert ObservedIds(processes)[i] == ObservedIds(processes)[j];
  }

  lemma {:induction false} ActualFinds(processes: seq<ProcessObservation>, p: ProcessObservation)
    requires NoDuplicates(ObservedIds(processes)) && p in processes
    ensures ActualBy(processes)[p.instance.instanceId] == p
  {
    var id := p.instance.instanceId;
    assert id in ActualBy(processes) && ActualBy(processes)[id].instance.instanceId == id;
    var i :| 0 <= i < |processes| && processes[i] == p;
    var j :| 0 <= j < |processes| && processes[j] == ActualBy(processes)[id];
    SameId(processes, i, j);
  }

  /** Every observed process is one of the expected ones, and behaved as reviewed. */
  lemma {:induction false} MatchProcess(c: Case, verified: VerifiedClosureOrigins, identify: Identify, p: ProcessObservation)
    returns (required: ExpectedProcess)
    requires Matches(c, verified, identify) && p in c.observed.envelope.processObservations
    ensures required in c.expected.processes && required.instance == p.instance
    ensures ProcessFaithful(p, required, c.reviewed.graph, c.observed.envelope, FactMap(verified.facts), identify)
  {
    MatchFaithful(c, verified, identify);
    var key := p.instance.instanceId;
    ActualFinds(c.observed.envelope.processObservations, p);
    required := RequiredBy(c.expected.processes)[key];
    assert KeyFaithful(c, FactMap(verified.facts), identify, key);
  }

  lemma {:induction false} RostersCoincide(expected: seq<ExpectedProcess>, observed: seq<ProcessObservation>)
    requires UniqueProcesses(expected) && NoDuplicates(ObservedIds(observed))
    requires RequiredBy(expected).Keys == ActualBy(observed).Keys
    ensures Elements(ExpectedIds(expected)) == Elements(ObservedIds(observed))
    ensures |expected| == |observed|
  {
    RequiredKeys(expected);
    ActualKeys(observed);
    ElementsCount(ExpectedIds(expected));
    ElementsCount(ObservedIds(observed));
    assert NoDuplicates(ExpectedIds(expected));
  }

  /** The expected and the observed processes coincide, one observation each. */
  lemma {:induction false} MatchRoster(c: Case, verified: VerifiedClosureOrigins, identify: Identify)
    requires Matches(c, verified, identify)
    ensures Elements(ExpectedIds(c.expected.processes)) == Elements(ObservedIds(c.observed.envelope.processObservations))
    ensures NoDuplicates(ObservedIds(c.observed.envelope.processObservations))
    ensures |c.expected.processes| == |c.observed.envelope.processObservations| > 0
  {
    MatchFaithful(c, verified, identify);
    RostersCoincide(c.expected.processes, c.observed.envelope.processObservations);
  }

  /** Every loaded node is a reviewed node its profile allows, in exactly the bytes it was reviewed to run as. */
  lemma {:induction false} MatchLoads(c: Case, verified: VerifiedClosureOrigins, identify: Identify, p: ProcessObservation, e: LoadEvent)
    returns (n: SourceNode, q: ProcessProfile)
    requires Matches(c, verified, identify) && p in c.observed.envelope.processObservations && e in p.events && e.nodeId.Some?
    ensures n in c.reviewed.graph.nodes && n.id == e.nodeId.value && e.loaded == Some(ExecutedContent(n))
    ensures q in c.reviewed.graph.processProfiles && q.id == p.profileId && n.id in q.allowedNodeIds
  {
    var required := MatchProcess(c, verified, identify, p);
    var profile, nodes := FindProfile(c.reviewed.graph.processProfiles, required.profileId), NodesById(c.reviewed.graph.nodes);
    assert EventFaithful(nodes, profile, p, FactMap(verified.facts), identify, e);
    n, q := nodes[e.nodeId.value], profile.value;
  }

  /** Every node a profile must load was loaded. */
  lemma {:induction false} MatchLoadsRequired(c: Case, verified: VerifiedClosureOrigins, identify: Identify, p: ProcessObservation,
                                              q: ProcessProfile, id: string)
    requires Matches(c, verified, identify) && p in c.observed.envelope.processObservations
    requires q in c.reviewed.graph.processProfiles && q.id == p.profileId && IsMandatory(q, EntriesById(c.reviewed.graph.entrypoints), id)
    ensures exists e :: e in p.events && e.nodeId == Some(id)
  {
    var required := MatchProcess(c, verified, identify, p);
    var profile := FindProfile(c.reviewed.graph.processProfiles, required.profileId);
    SameProfile(c.reviewed.graph, q, profile.value);
    assert id in Loads(p.events);
  }

  lemma {:induction false} SameProfile(g: SourceGraph, a: ProcessProfile, b: ProcessProfile)
    requires GraphOk(g) && a in g.processProfiles && b in g.processProfiles && a.id == b.id
    ensures a == b
  {
    var i :| 0 <= i < |g.processProfiles| && g.processProfiles[i] == a;
    var j :| 0 <= j < |g.processProfiles| && g.processProfiles[j] == b;
  }

  /** Each event history is exactly 0, 1, …, n-1, and its last number is the one the frontier attests. */
  lemma {:induction false} MatchSequences(c: Case, verified: VerifiedClosureOrigins, identify: Identify, p: ProcessObservation)
    requires Matches(c, verified, identify) && p in c.observed.envelope.processObservations
    ensures forall i :: 0 <= i < |p.events| ==> p.events[i].sequence == i
    ensures |p.events| == p.checkpoint.lastSequence + 1 && !Repeated(p.events)
  {
    var required := MatchProcess(c, verified, identify, p);
    NumberedDistinct(p.events);
  }

  /** Parent and child frontier are inverse relations over the observed processes; every frontier is what the events announced. */
  lemma {:induction false} MatchTree(c: Case, verified: VerifiedClosureOrigins, identify: Identify, parent: ProcessObservation, child: ProcessObservation)
    requires Matches(c, verified, identify)
    requires parent in c.observed.envelope.processObservations && child in c.observed.envelope.processObservations
    ensures child.instance.parentInstance == Some(parent.instance.instanceId) <==> child.instance.instanceId in parent.checkpoint.childFrontier
    ensures child.instance.instanceId in parent.checkpoint.childFrontier <==>
            exists e :: e in parent.events && e.childInstance == Some(child.instance.instanceId)
    ensures child.instance.instanceId in parent.checkpoint.childFrontier ==>
            exists q :: q in c.reviewed.graph.processProfiles && q.id == parent.profileId && child.profileId in q.childProfiles
  {
    MatchFaithful(c, verified, identify);
    var actual := ActualBy(c.observed.envelope.processObservations);
    ActualFinds(c.observed.envelope.processObservations, parent);
    ActualFinds(c.observed.envelope.processObservations, child);
    assert KeyFaithful(c, FactMap(verified.facts), identify, parent.instance.instanceId);
    assert KeyFaithful(c, FactMap(verified.facts), identify, child.instance.instanceId);
    assert ParentFits(c.reviewed.graph.processProfiles, actual, child.instance.instanceId);
    assert ChildrenFit(actual, parent.instance.instanceId);
    assert ChildrenAnnounced(parent);
  }

  /** No announced child is missing: every child a process announces was observed with that process as its parent. */
  lemma {:induction false} MatchChildren(c: Case, verified: VerifiedClosureOrigins, identify: Identify, parent: ProcessObservation, id: string)
    returns (child: ProcessObservation)
    requires Matches(c, verified, identify)
    requires parent in c.observed.envelope.processObservations && id in parent.checkpoint.childFrontier
    ensures child in c.observed.envelope.processObservations && child.instance.instanceId == id
    ensures child.instance.parentInstance == Some(parent.instance.instanceId)
  {
    MatchFaithful(c, verified, identify);
    var actual := ActualBy(c.observed.envelope.processObservations);
    ActualFinds(c.observed.envelope.processObservations, parent);
    assert KeyFaithful(c, FactMap(verified.facts), identify, parent.instance.instanceId);
    child := actual[id];
  }

  lemma {:induction false} FrontierOrder()
    ensures TotalPreorder(FrontierLe())
  {
    forall a: ProcessFrontier, b: ProcessFrontier ensures FrontierLe()(a, b) || FrontierLe()(b, a) { LexLeTotal(a.instanceId, b.instanceId); }
    forall a: ProcessFrontier, b: ProcessFrontier, d: ProcessFrontier | FrontierLe()(a, b) && FrontierLe()(b, d) ensures FrontierLe()(a, d) {
      LexLeTransitive(a.instanceId, b.instanceId, d.instanceId);
    }
  }

  /** The frontiers returned are the expected ones, ordered by instance; without a match none is returned. */
  lemma {:induction false} OutcomeFrontiers(c: Case, j: Judgement)
    ensures var outcome := OutcomeOf(c, j);
            if outcome.disposition == MATCH
            then multiset(outcome.frontiers) == multiset(ExpectedFrontiers(c.expected.processes)) && Ordered(outcome.frontiers, FrontierLe())
            else outcome.frontiers == []
  {
    FrontierOrder();
    SortOrdered(ExpectedFrontiers(c.expected.processes), FrontierLe());
    assert DispositionOf(j) == MATCH <==> j == CLEAR;
  }

  /** Each returned frontier is where its process was observed to have come. */
  lemma {:induction false} MatchFrontier(c: Case, verified: VerifiedClosureOrigins, identify: Identify, p: ProcessObservation)
    requires Matches(c, verified, identify) && p in c.observed.envelope.processObservations
    ensures FrontierOf(p).Some? && FrontierOf(p).value in LoadedSourceOutcome(c, verified, identify).frontiers
  {
    var required := MatchProcess(c, verified, identify, p);
    var i :| 0 <= i < |c.expected.processes| && c.expected.processes[i] == required;
    var frontiers := ExpectedFrontiers(c.expected.processes);
    assert frontiers[i] == required.frontier;
    OutcomeFrontiers(c, WholeJudged(c, verified, identify));
    assert required.frontier in multiset(frontiers);
  }

  ghost predicate Injective(identify: Identify) {
    forall a, b :: identify(a) == identify(b) ==> a == b
  }

  lemma {:induction false} GenuineInputs(c: Case, d: Case, verified: VerifiedClosureOrigins, identify: Identify)
    requires Injective(identify) && InputsGenuine(c, verified, identify) && InputsGenuine(d, verified, identify)
    ensures c == d
  {
    assert GraphClaim(c.reviewed.graph) == GraphClaim(d.reviewed.graph);
    assert EnvelopeClaim(c.observed.envelope) == EnvelopeClaim(d.observed.envelope);
    assert ExpectationClaim(c.expected) == ExpectationClaim(d.expected);
  }

  /** Under one set of verified origins, at most one graph, one envelope and one expectation can match. */
  lemma {:induction false} MatchDeterminesInputs(c: Case, d: Case, verified: VerifiedClosureOrigins, identify: Identify)
    requires Injective(identify) && Matches(c, verified, identify) && Matches(d, verified, identify)
    ensures c == d
  {
    MatchFaithful(c, verified, identify);
    MatchFaithful(d, verified, identify);
    GenuineInputs(c, d, verified, identify);
  }
}
