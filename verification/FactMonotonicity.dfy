/** More verified facts never hurt: gaps close, and what closes as a contradiction was a gap before. The relation
    Judgement.Settles is shown of every part of the comparison in turn, from one reference to a whole case, and the
    parts are put together with Judgement.PlusSettles and Judgement.OverSettles. Only the judgement of missing loads
    looks at other gaps, and it too moves one way. */
module FactMonotonicity {
  import opened Records
  import opened Judgement
  import opened Provenance
  import opened ReviewedGraph
  import opened Comparison
  import opened WholeComparison

  ghost predicate Grows(less: Facts, more: Facts) {
    forall k :: k in less ==> k in more && more[k] == less[k]
  }

  predicate SuppliedGrows<T(==)>(less: Option<T>, more: Option<T>) {
    less.None? || less == more
  }

  /** `more` verifies everything `less` does. */
  ghost predicate VerifiesMore(less: VerifiedClosureOrigins, more: VerifiedClosureOrigins) {
    && SuppliedGrows(less.reviewedBytes, more.reviewedBytes)
    && SuppliedGrows(less.observedBytes, more.observedBytes)
    && SuppliedGrows(less.expectation, more.expectation)
    && SuppliedGrows(less.validityCheckpoint, more.validityCheckpoint)
    && forall f :: f in less.facts ==> f in more.facts
  }

  ghost predicate Recorded(facts: Facts, f: VerifiedOriginFact) {
    (f.ref, f.purpose) in facts && facts[(f.ref, f.purpose)] == f.claim
  }

  lemma {:induction false} FactsRecorded(facts: seq<VerifiedOriginFact>)
    requires UniqueFacts(facts)
    ensures forall f :: f in facts ==> Recorded(FactMap(facts), f)
  {
    if facts != [] {
      var front, last := facts[..|facts| - 1], facts[|facts| - 1];
      FactsRecorded(front);
      forall f | f in facts ensures Recorded(FactMap(facts), f) {
        var i :| 0 <= i < |facts| && facts[i] == f;
        if i < |front| {
          assert front[i] == f;
          assert Recorded(FactMap(front), f);
        }
      }
    }
  }

  lemma {:induction false} RecordsAreFacts(facts: seq<VerifiedOriginFact>, k: (EvidenceRef, Purpose))
    requires k in FactMap(facts)
    ensures VerifiedOriginFact(k.0, k.1, FactMap(facts)[k]) in facts
  {
    if facts != [] {
      var front, last := facts[..|facts| - 1], facts[|facts| - 1];
      if k != (last.ref, last.purpose) { RecordsAreFacts(front, k); }
    }
  }

  lemma {:induction false} FactsGrow(less: seq<VerifiedOriginFact>, more: seq<VerifiedOriginFact>)
    requires UniqueFacts(more)
    requires forall f :: f in less ==> f in more
    ensures Grows(FactMap(less), FactMap(more))
  {
    FactsRecorded(more);
    forall k | k in FactMap(less) ensures k in FactMap(more) && FactMap(more)[k] == FactMap(less)[k] {
      RecordsAreFacts(less, k);
      assert Recorded(FactMap(more), VerifiedOriginFact(k.0, k.1, FactMap(less)[k]));
    }
  }

  // -- one reference

  lemma {:induction false} OriginSettles(less: Facts, more: Facts, ref: Option<EvidenceRef>, purpose: Purpose,
                                         identity: ContentIdentity, reason: Reason)
    requires Grows(less, more)
    ensures Settles(OriginJudged(less, ref, purpose, identity, reason), OriginJudged(more, ref, purpose, identity, reason))
  {
  }

  lemma {:induction false} SuppliedSettles(less: Option<ContentIdentity>, more: Option<ContentIdentity>, identity: ContentIdentity, reason: Reason)
    requires SuppliedGrows(less, more)
    ensures Settles(SuppliedJudged(less, identity, reason), SuppliedJudged(more, identity, reason))
  {
  }

  // -- provenance

  lemma {:induction false} NodeSettles(repositories: map<string, Repository>, nodes: map<string, SourceNode>, less: Facts, more: Facts,
                                       identify: Identify, n: SourceNode)
    requires Grows(less, more)
    ensures Settles(NodeJudged(repositories, nodes, less, identify, n), NodeJudged(repositories, nodes, more, identify, n))
  {
    if NodeKnown(repositories, nodes, n) {
      var related := Lookup(nodes, RelatedIds(n.provenance));
      match n.provenance {
        case Git(repository, _, _, _, _, _, ref, _, _) =>
          OriginSettles(less, more, ref, Membership, identify(MembershipClaim(repositories[repository], n)), GIT_MEMBERSHIP);
        case Generated(_, _, _, _, _, _, ref) =>
          OriginSettles(less, more, ref, Generation, identify(NodeClaim(n, related)), GENERATED_PROVENANCE);
        case Cached(_, _, _, _, ref) =>
          OriginSettles(less, more, ref, CachePurpose, identify(NodeClaim(n, related)), CACHED_CODE);
        case Artifact(_, _, _, _, _, _, _, _, ref) =>
          OriginSettles(less, more, ref, ArtifactPurpose, identify(NodeClaim(n, related)), RUNTIME_PROVENANCE);
      }
    }
  }

  lemma {:induction false} ProvenanceSettles(g: SourceGraph, less: Facts, more: Facts, identify: Identify)
    requires Grows(less, more)
    ensures Settles(ProvenanceJudged(g, less, identify), ProvenanceJudged(g, more, identify))
  {
    var repositories, nodes := RepositoriesById(g.repositories), NodesById(g.nodes);
    var n0, n1 := (n: SourceNode) => NodeJudged(repositories, nodes, less, identify, n),
                  (n: SourceNode) => NodeJudged(repositories, nodes, more, identify, n);
    forall n | n in Elements(g.nodes) ensures Settles(n0(n), n1(n)) { NodeSettles(repositories, nodes, less, more, identify, n); }
    OverSettles(Elements(g.nodes), n0, n1);
    var e0, e1 := (e: SourceEdge) => EdgeJudged(less, identify, e), (e: SourceEdge) => EdgeJudged(more, identify, e);
    forall e | e in Elements(g.edges) ensures Settles(e0(e), e1(e)) {
      OriginSettles(less, more, e.conditionRef, Condition, identify(EdgeClaim(e)), COVERAGE_GAP);
    }
    OverSettles(Elements(g.edges), e0, e1);
    var p0, p1 := (p: ProcessProfile) => PolicyJudged(less, identify, p), (p: ProcessProfile) => PolicyJudged(more, identify, p);
    forall p | p in Elements(g.processProfiles) ensures Settles(p0(p), p1(p)) {
      OriginSettles(less, more, Some(p.loadPolicyRef), Policy, identify(ProfileClaim(p)), COVERAGE_GAP);
    }
    OverSettles(Elements(g.processProfiles), p0, p1);
    PlusSettles(Over(Elements(g.nodes), n0), Over(Elements(g.nodes), n1), Over(Elements(g.edges), e0), Over(Elements(g.edges), e1));
    PlusSettles(Plus(Over(Elements(g.nodes), n0), Over(Elements(g.edges), e0)), Plus(Over(Elements(g.nodes), n1), Over(Elements(g.edges), e1)),
                Over(Elements(g.processProfiles), p0), Over(Elements(g.processProfiles), p1));
  }

  // -- legacy links

  lemma {:induction false} LinkSettles(nodes: map<string, SourceNode>, less: Facts, more: Facts, identify: Identify, link: LegacyLink)
    requires Grows(less, more)
    ensures Settles(LinkJudged(nodes, less, identify, link), LinkJudged(nodes, more, identify, link))
  {
    var m0, m1 := (m: LegacyNodeLink) => MappingJudged(nodes, less, identify, m), (m: LegacyNodeLink) => MappingJudged(nodes, more, identify, m);
    forall m | m in Elements(link.nodeMap) ensures Settles(m0(m), m1(m)) {
      OriginSettles(less, more, Some(m.provenanceRef), Legacy, identify(LegacyNodeClaim(m, MappedNode(nodes, m))), REVIEW_ORIGIN);
    }
    OverSettles(Elements(link.nodeMap), m0, m1);
    OriginSettles(less, more, Some(link.legacyRef), Legacy, identify(LegacyLinkClaim(link)), REVIEW_ORIGIN);
    PlusSettles(OriginJudged(less, Some(link.legacyRef), Legacy, identify(LegacyLinkClaim(link)), REVIEW_ORIGIN),
                OriginJudged(more, Some(link.legacyRef), Legacy, identify(LegacyLinkClaim(link)), REVIEW_ORIGIN),
                Over(Elements(link.nodeMap), m0), Over(Elements(link.nodeMap), m1));
  }

  lemma {:induction false} LegacySettles(c: Case, less: Facts, more: Facts, identify: Identify)
    requires Grows(less, more)
    ensures Settles(LegacyJudged(c, less, identify), LegacyJudged(c, more, identify))
  {
    var nodes, links := NodesById(c.reviewed.graph.nodes), Elements(c.observed.envelope.legacyLinks);
    var l0, l1 := (link: LegacyLink) => LinkJudged(nodes, less, identify, link), (link: LegacyLink) => LinkJudged(nodes, more, identify, link);
    forall link | link in links ensures Settles(l0(link), l1(link)) { LinkSettles(nodes, less, more, identify, link); }
    OverSettles(links, l0, l1);
    var same := Contradicts(c.observed.envelope.legacyLinks != c.expected.legacyLinks, REVIEW_ORIGIN);
    PlusSettles(same, same, Over(links, l0), Over(links, l1));
  }

  // -- one process

  lemma {:induction false} OriginsSettle(p: ProcessObservation, less: Facts, more: Facts, identify: Identify)
    requires Grows(less, more)
    ensures Settles(OriginsJudged(p, less, identify), OriginsJudged(p, more, identify))
  {
    OriginSettles(less, more, p.processRef, ProcessPurpose, identify(ProcessClaim(ProcessIdOf(p))), PROCESS_INSTANCE);
    OriginSettles(less, more, p.collectorRef, Collector, identify(CollectorClaim(CollectorIdOf(p))), OBSERVER_ORIGIN);
    OriginSettles(less, more, p.checkpoint.initialStateRef, Collector, identify(InitialClaim(CollectorIdOf(p))), COVERAGE_GAP);
    OriginSettles(less, more, p.checkpoint.checkpointRef, CheckpointPurpose, identify(CheckpointClaim(ProcessIdOf(p), p.checkpoint)), OBSERVER_ORIGIN);
  }

  lemma {:induction false} EventsSettle(nodes: map<string, SourceNode>, profile: Option<ProcessProfile>, p: ProcessObservation,
                                        less: Facts, more: Facts, identify: Identify)
    requires Grows(less, more)
    ensures Settles(Over(Elements(p.events), e => EventJudged(nodes, profile, p, less, identify, e)),
                    Over(Elements(p.events), e => EventJudged(nodes, profile, p, more, identify, e)))
  {
    var e0, e1 := (e: LoadEvent) => EventJudged(nodes, profile, p, less, identify, e), (e: LoadEvent) => EventJudged(nodes, profile, p, more, identify, e);
    forall e | e in Elements(p.events) ensures Settles(e0(e), e1(e)) {
      OriginSettles(less, more, e.originRef, Event, identify(EventClaim(ProcessIdOf(p), p.checkpoint.epoch, e)), OBSERVER_ORIGIN);
    }
    OverSettles(Elements(p.events), e0, e1);
  }

  lemma {:induction false} ObservationSettles(p: ProcessObservation, required: ExpectedProcess, g: SourceGraph, envelope: ClosureEnvelope,
                                              less: Facts, more: Facts, identify: Identify)
    requires Grows(less, more)
    ensures Settles(ObservationJudged(p, required, g, envelope, less, identify), ObservationJudged(p, required, g, envelope, more, identify))
  {
    OriginsSettle(p, less, more, identify);
    var profile, nodes := FindProfile(g.processProfiles, required.profileId), NodesById(g.nodes);
    EventsSettle(nodes, profile, p, less, more, identify);
    SettlesInside(Plus(IdentityJudged(p, required, g, envelope), ProfileJudged(p, profile)),
                  OriginsJudged(p, less, identify), OriginsJudged(p, more, identify), CheckpointJudged(p, required, envelope),
                  Plus(SequenceJudged(p), RepeatsJudged(p.events)), KindsJudged(p),
                  Over(Elements(p.events), e => EventJudged(nodes, profile, p, less, identify, e)),
                  Over(Elements(p.events), e => EventJudged(nodes, profile, p, more, identify, e)), ChildrenJudged(p));
  }

  /** Two parts of a sum settle; the others stay. */
  lemma {:induction false} SettlesInside(a: Judgement, x: Judgement, x': Judgement, b: Judgement, c: Judgement, d: Judgement,
                                         y: Judgement, y': Judgement, e: Judgement)
    requires Settles(x, x') && Settles(y, y')
    ensures Settles(Plus(Plus(a, Plus(x, b)), Plus(c, Plus(d, Plus(y, e)))), Plus(Plus(a, Plus(x', b)), Plus(c, Plus(d, Plus(y', e)))))
  {
    PlusSettles(x, x', b, b);
    PlusSettles(a, a, Plus(x, b), Plus(x', b));
    PlusSettles(y, y', e, e);
    PlusSettles(d, d, Plus(y, e), Plus(y', e));
    PlusSettles(c, c, Plus(d, Plus(y, e)), Plus(d, Plus(y', e)));
    PlusSettles(Plus(a, Plus(x, b)), Plus(a, Plus(x', b)), Plus(c, Plus(d, Plus(y, e))), Plus(c, Plus(d, Plus(y', e))));
  }

  /** The one judgement that looks at other gaps: it moves from gap to contradiction, never back. */
  lemma {:induction false} MissingLoadSettles(complete: bool, less: set<Reason>, more: set<Reason>)
    requires more <= less
    ensures Settles(MissingLoadJudged(complete, less), MissingLoadJudged(complete, more))
  {
  }

  lemma {:induction false} ProcessSettles(p: ProcessObservation, required: ExpectedProcess, g: SourceGraph, envelope: ClosureEnvelope,
                                          less: Facts, more: Facts, identify: Identify)
    requires Grows(less, more)
    ensures Settles(ProcessJudged(p, required, g, envelope, less, identify), ProcessJudged(p, required, g, envelope, more, identify))
  {
    ObservationSettles(p, required, g, envelope, less, more, identify);
    var a, b := ObservationJudged(p, required, g, envelope, less, identify), ObservationJudged(p, required, g, envelope, more, identify);
    var complete := LoadsComplete(FindProfile(g.processProfiles, required.profileId), EntriesById(g.entrypoints), Loads(p.events));
    MissingLoadSettles(complete, a.gaps, b.gaps);
    PlusSettles(a, b, MissingLoadJudged(complete, a.gaps), MissingLoadJudged(complete, b.gaps));
  }

  lemma {:induction false} KeySettles(c: Case, less: Facts, more: Facts, identify: Identify, key: string)
    requires Grows(less, more)
    ensures Settles(KeyJudged(c, less, identify, key), KeyJudged(c, more, identify, key))
  {
    var required, actual := RequiredBy(c.expected.processes), ActualBy(c.observed.envelope.processObservations);
    if key in required && key in actual {
      ProcessSettles(actual[key], required[key], c.reviewed.graph, c.observed.envelope, less, more, identify);
      var tree := TreeJudged(c.reviewed.graph.processProfiles, actual, key);
      PlusSettles(ProcessJudged(actual[key], required[key], c.reviewed.graph, c.observed.envelope, less, identify),
                  ProcessJudged(actual[key], required[key], c.reviewed.graph, c.observed.envelope, more, identify), tree, tree);
    }
  }

  lemma {:induction false} ProcessesSettle(c: Case, less: Facts, more: Facts, identify: Identify)
    requires Grows(less, more)
    ensures Settles(ProcessesJudged(c, less, identify), ProcessesJudged(c, more, identify))
  {
    var keys := RequiredBy(c.expected.processes).Keys * ActualBy(c.observed.envelope.processObservations).Keys;
    var k0, k1 := (k: string) => KeyJudged(c, less, identify, k), (k: string) => KeyJudged(c, more, identify, k);
    forall k | k in keys ensures Settles(k0(k), k1(k)) { KeySettles(c, less, more, identify, k); }
    OverSettles(keys, k0, k1);
  }

  // -- the whole

  lemma {:induction false} InputsSettle(c: Case, less: VerifiedClosureOrigins, more: VerifiedClosureOrigins, identify: Identify)
    requires VerifiesMore(less, more)
    ensures Settles(InputsJudged(c, less, identify), InputsJudged(c, more, identify))
  {
    SuppliedSettles(less.reviewedBytes, more.reviewedBytes, identify(GraphClaim(c.reviewed.graph)), REVIEW_ORIGIN);
    SuppliedSettles(less.observedBytes, more.observedBytes, identify(EnvelopeClaim(c.observed.envelope)), OBSERVER_ORIGIN);
    SuppliedSettles(less.expectation, more.expectation, identify(ExpectationClaim(c.expected)), BINDING);
  }

  lemma {:induction false} ReviewSettles(c: Case, less: Facts, more: Facts, identify: Identify)
    requires Grows(less, more)
    ensures Settles(ReviewJudged(c, less, identify), ReviewJudged(c, more, identify))
  {
    OriginSettles(less, more, c.reviewed.graph.completenessReviewRef, Review, identify(GraphClaim(c.reviewed.graph)), REVIEW_ORIGIN);
  }

  lemma {:induction false} WholeSettles(c: Case, less: VerifiedClosureOrigins, more: VerifiedClosureOrigins, identify: Identify)
    requires VerifiesMore(less, more) && UniqueFacts(less.facts) && UniqueFacts(more.facts)
    ensures Settles(WholeJudged(c, less, identify), WholeJudged(c, more, identify))
  {
    FactsGrow(less.facts, more.facts);
    var a, b := FactMap(less.facts), FactMap(more.facts);
    InputsSettle(c, less, more, identify);
    ReviewSettles(c, a, b, identify);
    ProvenanceSettles(c.reviewed.graph, a, b, identify);
    LegacySettles(c, a, b, identify);
    ProcessesSettle(c, a, b, identify);
    var p0, p1 := ProvenanceJudged(c.reviewed.graph, a, identify), ProvenanceJudged(c.reviewed.graph, b, identify);
    var l0, l1 := LegacyJudged(c, a, identify), LegacyJudged(c, b, identify);
    PlusSettles(p0, p1, l0, l1);
    PlusSettles(ReviewJudged(c, a, identify), ReviewJudged(c, b, identify), Plus(p0, l0), Plus(p1, l1));
    var content := ContentJudged(c, identify);
    PlusSettles(content, content, InputsJudged(c, less, identify), InputsJudged(c, more, identify));
    PlusSettles(Plus(content, InputsJudged(c, less, identify)), Plus(content, InputsJudged(c, more, identify)),
                Plus(ReviewJudged(c, a, identify), Plus(p0, l0)), Plus(ReviewJudged(c, b, identify), Plus(p1, l1)));
    PlusSettles(RosterJudged(c), RosterJudged(c), ProcessesJudged(c, a, identify), ProcessesJudged(c, b, identify));
    PlusSettles(DocumentsJudged(c, less, identify), DocumentsJudged(c, more, identify),
                Plus(RosterJudged(c), ProcessesJudged(c, a, identify)), Plus(RosterJudged(c), ProcessesJudged(c, b, identify)));
  }

  lemma {:induction false} OutcomeSettles(c: Case, less: Judgement, more: Judgement)
    requires Settles(less, more)
    ensures OutcomeOf(c, more).reasons <= OutcomeOf(c, less).reasons
    ensures OutcomeOf(c, less).disposition == REFUSED ==> OutcomeOf(c, more).disposition == REFUSED
    ensures OutcomeOf(c, less).disposition == MATCH ==> OutcomeOf(c, more) == OutcomeOf(c, less)
  {
    if OutcomeOf(c, less).disposition == MATCH {
      assert more.contradictions == {} && more.gaps == {};
      assert more == CLEAR == less;
    }
  }

  /** Verified-fact monotonicity: what was refused stays refused, a match stays the same match, and no reason appears. */
  lemma {:induction false} MoreFactsOnlySettle(c: Case, less: VerifiedClosureOrigins, more: VerifiedClosureOrigins, identify: Identify)
    requires VerifiesMore(less, more)
    requires Acceptable(c, less, identify) && Acceptable(c, more, identify)
    ensures var x, y := LoadedSourceOutcome(c, less, identify), LoadedSourceOutcome(c, more, identify);
            && x.Compared? && y.Compared?
            && y.reasons <= x.reasons
            && (x.disposition == REFUSED ==> y.disposition == REFUSED)
            && (x.disposition == MATCH ==> y == x)
    ensures Settles(WholeJudged(c, less, identify), WholeJudged(c, more, identify))
  {
    WholeSettles(c, less, more, identify);
    OutcomeSettles(c, WholeJudged(c, less, identify), WholeJudged(c, more, identify));
  }
}
