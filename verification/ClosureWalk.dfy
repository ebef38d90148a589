/** The worklist of build_reviewed_source_graph (p3_source_closure/graph_builder.py), over scoped states. What a walk is given
    is a World; what holds of its variables after any number of visits is said before the class that does the visiting. */
module ClosureWalk {
  import opened Records
  import opened Reachability
  import Sorting

  type Node = string
  type Name = Option<string>

  /** What one source file, bound as one name, resolves its imports to in one scope. */
  datatype Analysis = Analysis(stat: seq<Node>, dyn: seq<(Node, EvidenceRef)>, bound: map<Node, seq<Name>>, errors: seq<string>)
  datatype Scope = Scope(analyze: (Node, Name) -> Analysis, reach: Node -> Name)
  datatype World = World(git: set<Node>, declared: map<Node, SourceNode>, scopes: map<string, Scope>,
                         resolveNode: string -> Option<Node>)
  datatype State = State(scope: string, node: Node, name: Name)
  datatype EdgeKey = EdgeKey(source: Node, target: Node, kind: EdgeKind)

  type Adjacency = map<Node, seq<Node>>
  type Edges = map<EdgeKey, Option<EvidenceRef>>

  /** The part of an analysis the builder compares between contexts. */
  datatype Targets = Targets(stat: seq<Node>, dyn: seq<(Node, EvidenceRef)>)

  function Adj(m: Adjacency, n: Node): seq<Node> {
    if n in m then m[n] else []
  }

  function TargetsOf(a: Analysis): Targets {
    Targets(a.stat, a.dyn)
  }

  predicate IsDynamicTarget(dyn: seq<(Node, EvidenceRef)>, t: Node) {
    exists i :: 0 <= i < |dyn| && dyn[i].0 == t
  }

  predicate IsTarget(x: Targets, t: Node) {
    t in x.stat || IsDynamicTarget(x.dyn, t)
  }

  /** The names a target is walked under: those its imports bound it as, else the scope's own name for it. */
  function NamesOf(scope: Scope, a: Analysis, t: Node): seq<Name> {
    if t in a.bound && a.bound[t] != [] then a.bound[t] else [scope.reach(t)]
  }

  /** The references of a declared node the walk follows without condition. */
  function Follows(p: Provenance): seq<string> {
    match p
    case Git(_, _, _, _, _, _, _, _, _) => []
    case Generated(generators, inputs, _, _, _, _, _) => inputs + generators
    case Cached(sources, _, _, _, _) => sources
    case Artifact(_, _, sources, dependencies, _, _, _, _, _) => sources + dependencies
  }

  /** The interpreter of an artifact, "" when there is none to follow. */
  function InterpreterOf(p: Provenance): string {
    if p.Artifact? then p.interpreter else ""
  }

  function Nodes(w: World): set<Node> {
    w.git + w.declared.Keys
  }

  // -- steps between states

  ghost predicate Declares(w: World, s: State) {
    s.node !in w.git && s.node in w.declared
  }

  ghost predicate ResolvesFrom(w: World, refs: seq<string>, n: Node) {
    exists r :: r in refs && w.resolveNode(r) == Some(n)
  }

  ghost predicate FollowsTo(w: World, refs: seq<string>, s: State, t: State)
    requires s.scope in w.scopes
  {
    && t.scope == s.scope && t.name == w.scopes[s.scope].reach(t.node)
    && ResolvesFrom(w, refs, t.node)
  }

  ghost predicate ImportsTo(w: World, s: State, t: State)
    requires s.scope in w.scopes
  {
    var scope := w.scopes[s.scope];
    var a := scope.analyze(s.node, s.name);
    t.scope == s.scope && IsTarget(TargetsOf(a), t.node) && t.name in NamesOf(scope, a, t.node)
  }

  /** A step the walk always takes. */
  ghost predicate StepTo(w: World, s: State, t: State) {
    && s.scope in w.scopes
    && (if s.node in w.git then ImportsTo(w, s, t)
        else s.node in w.declared && FollowsTo(w, Follows(w.declared[s.node].provenance), s, t))
  }

  /** A step to an artifact's interpreter, which the walk takes only while that node is not reached yet. */
  ghost predicate InterpreterStep(w: World, s: State, t: State) {
    && s.scope in w.scopes && Declares(w, s)
    && InterpreterOf(w.declared[s.node].provenance) != ""
    && FollowsTo(w, [InterpreterOf(w.declared[s.node].provenance)], s, t)
  }

  ghost function Always(w: World): (State, State) -> bool {
    (s, t) => StepTo(w, s, t)
  }

  ghost function Possible(w: World): (State, State) -> bool {
    (s, t) => StepTo(w, s, t) || InterpreterStep(w, s, t)
  }

  // -- what the walk is given: finitely many nodes and names, and nothing resolves outside them

  ghost predicate Known(w: World, names: set<Name>, s: State) {
    s.scope in w.scopes && s.node in Nodes(w) && s.name in names
  }

  ghost predicate Bounded(w: World, names: set<Name>) {
    && (forall l, n :: l in w.scopes && n in Nodes(w) ==> w.scopes[l].reach(n) in names)
    && (forall r :: w.resolveNode(r).Some? ==> w.resolveNode(r).value in Nodes(w))
    && (forall s, t :: Known(w, names, s) && s.node in w.git && ImportsTo(w, s, t) ==> Known(w, names, t))
  }

  ghost function Universe(w: World, names: set<Name>): set<State> {
    set l, n, m | l in w.scopes.Keys && n in Nodes(w) && m in names :: State(l, n, m)
  }

  lemma {:induction false} StepsStayKnown(w: World, names: set<Name>, s: State, t: State)
    requires Bounded(w, names) && Known(w, names, s) && (StepTo(w, s, t) || InterpreterStep(w, s, t))
    ensures Known(w, names, t)
  {
  }

  // -- what holds of the walk's variables after any number of visits

  ghost predicate Pending(seen: set<State>, queue: seq<State>, s: State) {
    s in seen || s in queue
  }

  /** Nothing is forgotten: seeds and successors of seen states are seen or queued. */
  ghost predicate Complete(w: World, seeds: set<State>, seen: set<State>, queue: seq<State>) {
    && (forall s :: s in seeds ==> Pending(seen, queue, s))
    && (forall s, t :: s in seen && StepTo(w, s, t) ==> Pending(seen, queue, t))
  }

  /** Nothing is invented: every state comes from a seed by possible steps. */
  ghost predicate Derived(w: World, names: set<Name>, seeds: set<State>, seen: set<State>, queue: seq<State>) {
    forall s :: Pending(seen, queue, s) ==> Known(w, names, s) && Reachable(Possible(w), seeds, s) && Sourced(w, seeds, seen, s)
  }

  /** A seed, or one step from a state already seen. */
  ghost predicate Sourced(w: World, seeds: set<State>, seen: set<State>, s: State) {
    s in seeds || exists p :: p in seen && Possible(w)(p, s)
  }

  ghost predicate InterpreterReached(w: World, reached: set<Node>, seen: set<State>, queue: seq<State>, s: State)
    requires s.node in w.declared
  {
    var r := InterpreterOf(w.declared[s.node].provenance);
    r == "" || r in reached || exists t :: Pending(seen, queue, t) && t.scope == s.scope && w.resolveNode(r) == Some(t.node)
  }

  /** The guard of the interpreter step. */
  ghost predicate InterpreterWanted(w: World, reached: set<Node>, s: State) {
    Declares(w, s) &&
      var r := InterpreterOf(w.declared[s.node].provenance);
      r != "" && r !in reached
  }

  ghost predicate InterpretersReached(w: World, reached: set<Node>, seen: set<State>, queue: seq<State>) {
    forall s :: s in seen && Declares(w, s) ==> InterpreterReached(w, reached, seen, queue, s)
  }

  ghost predicate Tracks(w: World, names: set<Name>, seeds: set<State>, reached: set<Node>, seen: set<State>, queue: seq<State>,
                         resolved: bool) {
    && Bounded(w, names)
    && Complete(w, seeds, seen, queue)
    && Derived(w, names, seeds, seen, queue)
    && (resolved ==> InterpretersReached(w, reached, seen, queue))
  }

  ghost predicate Analyzes(w: World, s: State, x: Targets) {
    s.scope in w.scopes && s.node in w.git && TargetsOf(w.scopes[s.scope].analyze(s.node, s.name)) == x
  }

  /** One analysis per reached source node, taken from one of its states. */
  ghost predicate OneAnalysis(w: World, seen: set<State>, reached: set<Node>, first: map<Node, Targets>) {
    && reached == (set s | s in seen :: s.node)
    && (forall n :: n in first <==> n in w.git && n in reached)
    && (forall n :: n in first ==> exists s :: s in seen && s.node == n && Analyzes(w, s, first[n]))
  }

  /** With no conflict on record, every state of a node agrees with the node's analysis. */
  ghost predicate Agreed(w: World, seen: set<State>, first: map<Node, Targets>) {
    forall s :: s in seen && s.node in first ==> Analyzes(w, s, first[s.node])
  }

  ghost predicate AdjacencyAt(boots: Adjacency, first: map<Node, Targets>, staticAdj: Adjacency, dynamicAdj: Adjacency, n: Node) {
    && Adj(staticAdj, n) == Adj(boots, n) + (if n in first then first[n].stat else [])
    && forall t :: t in Adj(dynamicAdj, n) <==> n in first && IsDynamicTarget(first[n].dyn, t)
  }

  /** The closures' adjacency: bootstrap targets, then the one analysis of a node. */
  ghost predicate AdjacencyOf(boots: Adjacency, first: map<Node, Targets>, staticAdj: Adjacency, dynamicAdj: Adjacency) {
    forall n :: AdjacencyAt(boots, first, staticAdj, dynamicAdj, n)
  }

  /** The edges a declared node calls for. */
  ghost predicate DeclaredEdge(w: World, n: Node, k: EdgeKey) {
    && n !in w.git && n in w.declared
    && match w.declared[n].provenance {
         case Generated(generators, inputs, _, _, _, _, _) =>
           k.target == n && ((k.kind == GeneratedInput && ResolvesFrom(w, inputs, k.source)) ||
                             (k.kind == Generates && ResolvesFrom(w, generators, k.source)))
         case Cached(sources, _, _, _, _) => k.source == n && k.kind == CacheOf && ResolvesFrom(w, sources, k.target)
         case _ => false
       }
  }

  /** Exactly the edges the reached nodes call for. */
  ghost predicate EdgeDue(w: World, boots: Adjacency, first: map<Node, Targets>, reached: set<Node>, k: EdgeKey) {
    match k.kind
    case Bootstrap => k.target in Adj(boots, k.source)
    case Import => k.source in first && k.target in first[k.source].stat
    case DynamicImport => k.source in first && IsDynamicTarget(first[k.source].dyn, k.target)
    case GeneratedInput => k.target in reached && DeclaredEdge(w, k.target, k)
    case Generates => k.target in reached && DeclaredEdge(w, k.target, k)
    case CacheOf => k.source in reached && DeclaredEdge(w, k.source, k)
    case _ => false
  }

  ghost predicate ConditionDue(first: map<Node, Targets>, k: EdgeKey, condition: Option<EvidenceRef>) {
    if k.kind == DynamicImport then condition.Some? && k.source in first && (k.target, condition.value) in first[k.source].dyn
    else condition == None
  }

  ghost predicate EdgesOf(w: World, boots: Adjacency, first: map<Node, Targets>, reached: set<Node>, edges: Edges) {
    && (forall k :: k in edges <==> EdgeDue(w, boots, first, reached, k))
    && (forall k :: k in edges ==> ConditionDue(first, k, edges[k]))
  }

  /** A visited file resolved all its imports, a visited declared node the references the walk follows. */
  ghost predicate ResolvedAt(w: World, s: State) {
    s.scope in w.scopes ==>
      && (s.node in w.git ==> w.scopes[s.scope].analyze(s.node, s.name).errors == [])
      && (Declares(w, s) ==> forall r :: r in Follows(w.declared[s.node].provenance) ==> w.resolveNode(r).Some?)
  }

  ghost predicate InterpreterResolves(w: World, s: State) {
    Declares(w, s) ==>
      var r := InterpreterOf(w.declared[s.node].provenance);
      r == "" || w.resolveNode(r).Some?
  }

  ghost predicate Resolved(w: World, seen: set<State>) {
    forall s :: s in seen ==> ResolvedAt(w, s)
  }

  /** What an error, and what a conflict, stands for. */
  ghost predicate Stuck(w: World, seen: set<State>, s: State) {
    s in seen && !(ResolvedAt(w, s) && InterpreterResolves(w, s))
  }

  ghost predicate Clashes(w: World, seen: set<State>, first: map<Node, Targets>, s: State) {
    s in seen && s.node in first && !Analyzes(w, s, first[s.node])
  }

  /** Two seen states of one file resolve its imports differently. */
  ghost predicate Disagree(w: World, seen: set<State>) {
    exists s, t :: s in seen && t in seen && s.node == t.node && s.node in w.git && s.scope in w.scopes && t.scope in w.scopes
      && TargetsOf(w.scopes[s.scope].analyze(s.node, s.name)) != TargetsOf(w.scopes[t.scope].analyze(t.node, t.name))
  }

  lemma {:induction false} ClashesDisagree(w: World, seen: set<State>, reached: set<Node>, first: map<Node, Targets>, agreed: bool)
    requires OneAnalysis(w, seen, reached, first) && forall t :: t in seen ==> t.scope in w.scopes
    requires if agreed then Agreed(w, seen, first) else exists s :: Clashes(w, seen, first, s)
    ensures Disagree(w, seen) <==> !agreed
  {
    if agreed {
      forall x, y | x in seen && y in seen && x.node == y.node && x.node in w.git ensures Analyzes(w, x, first[x.node]) && Analyzes(w, y, first[x.node]) {
        assert x.node in reached;
      }
    } else {
      var s :| Clashes(w, seen, first, s);
      var t :| t in seen && t.node == s.node && Analyzes(w, t, first[s.node]);
    }
  }

  /** Conflicts and errors are on record exactly when a seen state calls for one. */
  ghost predicate Judged(w: World, seen: set<State>, first: map<Node, Targets>, agreed: bool, resolved: bool) {
    && (if agreed then Agreed(w, seen, first) else exists s :: Clashes(w, seen, first, s))
    && (if resolved then Resolved(w, seen) else exists s :: Stuck(w, seen, s))
  }

  ghost function StateSet(states: seq<State>): set<State> {
    set s | s in states
  }

  /** The walk's variables, as values. */
  datatype WalkData = WalkData(seeds: set<State>, boots: Adjacency, seen: set<State>, reached: set<Node>, first: map<Node, Targets>,
                               staticAdj: Adjacency, dynamicAdj: Adjacency, edges: Edges)

  /** The walk is over, and no contexts disagreed. */
  ghost predicate Finished(w: World, names: set<Name>, d: WalkData) {
    && Complete(w, d.seeds, d.seen, []) && Derived(w, names, d.seeds, d.seen, [])
    && OneAnalysis(w, d.seen, d.reached, d.first) && Agreed(w, d.seen, d.first)
    && AdjacencyOf(d.boots, d.first, d.staticAdj, d.dynamicAdj) && EdgesOf(w, d.boots, d.first, d.reached, d.edges)
  }

  // -- the walk

  class Walk {
    const w: World
    ghost const names: set<Name>
    ghost const seeds: set<State>
    ghost const boots: Adjacency
    var queue: seq<State>
    var seen: set<State>
    var reached: set<Node>
    var staticAdj: Adjacency
    var dynamicAdj: Adjacency
    var first: map<Node, Targets>
    var edges: Edges
    var conflicts: seq<string>
    var errors: seq<string>

    ghost function Data(): WalkData
      reads this
    {
      WalkData(seeds, boots, seen, reached, first, staticAdj, dynamicAdj, edges)
    }

    /** What the walk has written down fits what it has seen. */
    ghost predicate Recorded()
      reads this`seen, this`reached, this`first, this`staticAdj, this`dynamicAdj, this`edges
    {
      && OneAnalysis(w, seen, reached, first)
      && AdjacencyOf(boots, first, staticAdj, dynamicAdj)
      && EdgesOf(w, boots, first, reached, edges)
    }

    ghost predicate Verdicts()
      reads this`seen, this`first, this`conflicts, this`errors
    {
      Judged(w, seen, first, conflicts == [], errors == [])
    }

    ghost predicate Valid()
      reads this
    {
      && Tracks(w, names, seeds, reached, seen, queue, errors == [])
      && Recorded()
      && Verdicts()
    }

    /** `bootEdges` are the bootstrap edges and `bootAdj` the adjacency they give, both made from the entrypoints. */
    constructor (w: World, ghost names: set<Name>, starts: seq<State>, bootAdj: Adjacency, bootEdges: Edges)
      requires Bounded(w, names) && forall s :: s in starts ==> Known(w, names, s)
      requires EdgesOf(w, bootAdj, map[], {}, bootEdges)
      ensures Valid() && this.w == w && this.names == names && seeds == StateSet(starts) && boots == bootAdj
    {
      this.w, this.names, this.seeds, this.boots := w, names, StateSet(starts), bootAdj;
      queue, seen, reached, first, conflicts, errors := starts, {}, {}, map[], [], [];
      staticAdj, dynamicAdj, edges := bootAdj, map[], bootEdges;
      new;
      forall s | s in starts ensures Reachable(Possible(w), seeds, s) { SeedReachable(Possible(w), seeds, s); }
    }

    method Enqueue(s: State)
      modifies this`queue
      ensures queue == if s in seen then old(queue) else old(queue) + [s]
    {
      if s !in seen { queue := queue + [s]; }
    }

    method AddEdge(source: Node, target: Node, kind: EdgeKind, condition: Option<EvidenceRef>)
      modifies this`edges
      ensures var k := EdgeKey(source, target, kind);
              edges == if k in old(edges) then old(edges) else old(edges)[k := condition]
    {
      var k := EdgeKey(source, target, kind);
      if k !in edges { edges := edges[k := condition]; }
    }

    /** The first analysis of a node gives its edges and adjacency. */
    method RecordStatic(n: Node, stat: seq<Node>)
      modifies this`edges, this`staticAdj
      ensures staticAdj == if stat == [] then old(staticAdj) else old(staticAdj)[n := Adj(old(staticAdj), n) + stat]
      ensures forall k :: k in edges <==> k in old(edges) || (k.source == n && k.kind == Import && k.target in stat)
      ensures forall k :: k in edges ==> edges[k] == if k in old(edges) then old(edges)[k] else None
    {
      for i := 0 to |stat|
        invariant staticAdj == if i == 0 then old(staticAdj) else old(staticAdj)[n := Adj(old(staticAdj), n) + stat[..i]]
        invariant forall k :: k in edges <==> k in old(edges) || (k.source == n && k.kind == Import && k.target in stat[..i])
        invariant forall k :: k in edges ==> edges[k] == if k in old(edges) then old(edges)[k] else None
      {
        AddEdge(n, stat[i], Import, None);
        assert stat[..i + 1] == stat[..i] + [stat[i]];
        assert Adj(staticAdj, n) + [stat[i]] == Adj(old(staticAdj), n) + stat[..i + 1];
        staticAdj := staticAdj[n := Adj(staticAdj, n) + [stat[i]]];
      }
      assert stat[..|stat|] == stat;
    }

    method RecordDynamic(n: Node, dyn: seq<(Node, EvidenceRef)>)
      modifies this`edges, this`dynamicAdj
      ensures forall m :: m != n ==> Adj(dynamicAdj, m) == Adj(old(dynamicAdj), m)
      ensures forall t :: t in Adj(dynamicAdj, n) <==> t in Adj(old(dynamicAdj), n) || IsDynamicTarget(dyn, t)
      ensures forall k :: k in edges <==> k in old(edges) || (k.source == n && k.kind == DynamicImport && IsDynamicTarget(dyn, k.target))
      ensures forall k :: k in edges ==> if k in old(edges) then edges[k] == old(edges)[k]
                                         else edges[k].Some? && (k.target, edges[k].value) in dyn
    {
      for i := 0 to |dyn|
        invariant forall m :: m != n ==> Adj(dynamicAdj, m) == Adj(old(dynamicAdj), m)
        invariant forall t :: t in Adj(dynamicAdj, n) <==> t in Adj(old(dynamicAdj), n) || IsDynamicTarget(dyn[..i], t)
        invariant forall k :: k in edges <==> k in old(edges) || (k.source == n && k.kind == DynamicImport && IsDynamicTarget(dyn[..i], k.target))
        invariant forall k :: k in edges ==> if k in old(edges) then edges[k] == old(edges)[k]
                                             else edges[k].Some? && (k.target, edges[k].value) in dyn
      {
        DynamicPrefix(dyn, i);
        AddEdge(n, dyn[i].0, DynamicImport, Some(dyn[i].1));
        assert dyn[i] in dyn;
        dynamicAdj := dynamicAdj[n := Adj(dynamicAdj, n) + [dyn[i].0]];
      }
      assert dyn[..|dyn|] == dyn;
    }

    method RecordFirst(n: Node, a: Analysis)
      requires n in w.git && n !in first
      requires AdjacencyOf(boots, first, staticAdj, dynamicAdj) && EdgesOf(w, boots, first, reached, edges)
      modifies this`first, this`staticAdj, this`dynamicAdj, this`edges
      ensures first == old(first)[n := TargetsOf(a)]
      ensures AdjacencyOf(boots, first, staticAdj, dynamicAdj) && EdgesOf(w, boots, first, reached, edges)
    {
      RecordStatic(n, a.stat);
      RecordDynamic(n, a.dyn);
      AdjacencyAfterFirst(boots, first, n, TargetsOf(a), old(staticAdj), staticAdj, old(dynamicAdj), dynamicAdj);
      EdgesAfterFirst(w, boots, first, reached, n, TargetsOf(a), old(edges), edges);
      first := first[n := TargetsOf(a)];
    }

    method EnqueueTargets(s: State, a: Analysis)
      requires s.scope in w.scopes && s.node in w.git && a == w.scopes[s.scope].analyze(s.node, s.name)
      modifies this`queue
      ensures forall t :: t in queue <==> t in old(queue) || (ImportsTo(w, s, t) && t !in seen)
    {
      var scope := w.scopes[s.scope];
      var nodes := a.stat + seq(|a.dyn|, i requires 0 <= i < |a.dyn| => a.dyn[i].0);
      NodesAreTargets(a, nodes);
      for i := 0 to |nodes|
        invariant forall t :: t in queue <==>
                    (t in old(queue) || (t.scope == s.scope && t.node in nodes[..i] && t.name in NamesOf(scope, a, t.node) && t !in seen))
      {
        var bound := Sorting.Dedup(NamesOf(scope, a, nodes[i]));
        for j := 0 to |bound|
          invariant forall t :: t in queue <==>
                      (|| t in old(queue)
                       || (t.scope == s.scope && t.node in nodes[..i] && t.name in NamesOf(scope, a, t.node) && t !in seen)
                       || (t.scope == s.scope && t.node == nodes[i] && t.name in bound[..j] && t !in seen))
        {
          Enqueue(State(s.scope, nodes[i], bound[j]));
        }
        assert bound[..|bound|] == bound;
        assert nodes[..i + 1] == nodes[..i] + [nodes[i]];
      }
      assert nodes[..|nodes|] == nodes;
    }

    /** References inside declared provenance: an edge of kind `kind` to or from the node, and the target queued. */
    method FollowRefs(s: State, refs: seq<string>, kind: Option<EdgeKind>, into: bool)
      requires s.scope in w.scopes
      modifies this`queue, this`edges, this`errors
      ensures forall t :: t in queue <==> t in old(queue) || (FollowsTo(w, refs, s, t) && t !in seen)
      ensures forall k :: k in edges <==>
                (|| k in old(edges)
                 || (kind == Some(k.kind) && (if into then k.target else k.source) == s.node
                     && ResolvesFrom(w, refs, if into then k.source else k.target)))
      ensures forall k :: k in edges ==> edges[k] == if k in old(edges) then old(edges)[k] else None
      ensures errors == [] <==> old(errors) == [] && forall r :: r in refs ==> w.resolveNode(r).Some?
    {
      for i := 0 to |refs|
        invariant forall t :: t in queue <==> t in old(queue) || (FollowsTo(w, refs[..i], s, t) && t !in seen)
        invariant forall k :: k in edges <==>
                    (|| k in old(edges)
                     || (kind == Some(k.kind) && (if into then k.target else k.source) == s.node
                         && ResolvesFrom(w, refs[..i], if into then k.source else k.target)))
        invariant forall k :: k in edges ==> edges[k] == if k in old(edges) then old(edges)[k] else None
        invariant errors == [] <==> old(errors) == [] && forall r :: r in refs[..i] ==> w.resolveNode(r).Some?
      {
        var resolved := w.resolveNode(refs[i]);
        ResolvesPrefix(w, refs, i);
        if resolved.None? {
          errors := errors + [refs[i]];
        } else {
          var n := resolved.value;
          if kind.Some? {
            AddEdge(if into then n else s.node, if into then s.node else n, kind.value, None);
          }
          Enqueue(State(s.scope, n, w.scopes[s.scope].reach(n)));
        }
      }
      assert refs[..|refs|] == refs;
    }

    /** A repository file: keep its first analysis, or compare with it; queue what it imports. */
    method VisitSource(s: State)
      requires s.scope in w.scopes && s.node in w.git
      requires AdjacencyOf(boots, first, staticAdj, dynamicAdj) && EdgesOf(w, boots, first, reached, edges)
      modifies this`queue, this`first, this`staticAdj, this`dynamicAdj, this`edges, this`conflicts, this`errors
      ensures forall t :: t in queue <==> t in old(queue) || (ImportsTo(w, s, t) && t !in seen)
      ensures var x := TargetsOf(w.scopes[s.scope].analyze(s.node, s.name));
              && first == (if s.node in old(first) then old(first) else old(first)[s.node := x])
              && (conflicts == [] <==> old(conflicts) == [] && first[s.node] == x)
      ensures errors == [] <==> old(errors) == [] && w.scopes[s.scope].analyze(s.node, s.name).errors == []
      ensures AdjacencyOf(boots, first, staticAdj, dynamicAdj) && EdgesOf(w, boots, first, reached, edges)
    {
      var a := w.scopes[s.scope].analyze(s.node, s.name);
      errors := errors + a.errors;
      if s.node !in first {
        RecordFirst(s.node, a);
      } else if first[s.node] != TargetsOf(a) {
        conflicts := conflicts + [s.node];
      }
      EnqueueTargets(s, a);
    }

    /** A declared node: queue the nodes its provenance names, with the edges they call for; its interpreter only while the
        reference is not a reached node. */
    method VisitDeclared(s: State, ghost before: set<Node>)
      requires s.scope in w.scopes && Declares(w, s)
      requires reached == before + {s.node} && EdgesOf(w, boots, first, before, edges)
      modifies this`queue, this`edges, this`errors
      ensures forall t :: t in queue <==>
                t in old(queue) || (t !in seen && (StepTo(w, s, t) || (InterpreterWanted(w, reached, s) && InterpreterStep(w, s, t))))
      ensures errors == [] <==>
                old(errors) == [] && ResolvedAt(w, s) && (InterpreterWanted(w, reached, s) ==> InterpreterResolves(w, s))
      ensures EdgesOf(w, boots, first, reached, edges)
    {
      match w.declared[s.node].provenance {
        case Git(_, _, _, _, _, _, _, _, _) =>
        case Generated(generators, inputs, _, _, _, _, _) =>
          FollowRefs(s, inputs, Some(GeneratedInput), true);
          FollowRefs(s, generators, Some(Generates), true);
          FollowsBoth(w, inputs, generators, s);
        case Cached(sources, _, _, _, _) =>
          FollowRefs(s, sources, Some(CacheOf), false);
        case Artifact(_, _, sources, dependencies, interpreter, _, _, _, _) =>
          FollowRefs(s, sources + dependencies, None, false);
          if interpreter != "" && interpreter !in reached {
            FollowRefs(s, [interpreter], None, false);
          }
      }
      assert forall k :: k in edges <==> k in old(edges) || DeclaredEdge(w, s.node, k);
      EdgesAfterDeclared(w, boots, first, before, s.node, old(edges), edges);
    }

    /** What the rest of the walk needs of either visit. */
    method FollowSource(s: State, ghost before: set<Node>)
      requires s.scope in w.scopes && s.node in w.git
      requires reached == before + {s.node} && AdjacencyOf(boots, first, staticAdj, dynamicAdj) && EdgesOf(w, boots, first, before, edges)
      modifies this`queue, this`first, this`staticAdj, this`dynamicAdj, this`edges, this`conflicts, this`errors
      ensures forall t :: StepTo(w, s, t) ==> Pending(seen, queue, t)
      ensures forall t :: t in queue ==> t in old(queue) || StepTo(w, s, t)
      ensures forall t :: t in old(queue) ==> t in queue
      ensures first == if s.node in old(first) then old(first) else old(first)[s.node := TargetsOf(w.scopes[s.scope].analyze(s.node, s.name))]
      ensures conflicts == [] <==> old(conflicts) == [] && Analyzes(w, s, first[s.node])
      ensures errors == [] <==> old(errors) == [] && ResolvedAt(w, s)
      ensures AdjacencyOf(boots, first, staticAdj, dynamicAdj) && EdgesOf(w, boots, first, reached, edges)
    {
      SourceReached(w, boots, first, before, s.node, edges);
      VisitSource(s);
    }

    method FollowDeclared(s: State, ghost before: set<Node>)
      requires s.scope in w.scopes && Declares(w, s)
      requires reached == before + {s.node} && EdgesOf(w, boots, first, before, edges)
      modifies this`queue, this`edges, this`errors
      ensures forall t :: StepTo(w, s, t) ==> Pending(seen, queue, t)
      ensures forall t :: t in queue ==> t in old(queue) || StepTo(w, s, t) || InterpreterStep(w, s, t)
      ensures forall t :: t in old(queue) ==> t in queue
      ensures errors == [] ==> old(errors) == [] && ResolvedAt(w, s)
      ensures errors != [] ==> old(errors) != [] || !(ResolvedAt(w, s) && InterpreterResolves(w, s))
      ensures errors == [] ==> InterpreterReached(w, reached, seen, queue, s)
      ensures EdgesOf(w, boots, first, reached, edges)
    {
      VisitDeclared(s, before);
      if errors == [] { InterpreterFollowed(w, reached, seen, queue, s); }
    }

    method Visit(s: State)
      requires Recorded() && Known(w, names, s)
      modifies this`queue, this`seen, this`reached, this`first, this`staticAdj, this`dynamicAdj, this`edges,
               this`conflicts, this`errors
      ensures Recorded() && seen == old(seen) + {s} && reached == old(reached) + {s.node}
      ensures forall t :: StepTo(w, s, t) ==> Pending(seen, queue, t)
      ensures forall t :: t in queue ==> t in old(queue) || StepTo(w, s, t) || InterpreterStep(w, s, t)
      ensures forall t :: t in old(queue) ==> t in queue
      ensures first == if s.node !in w.git || s.node in old(first) then old(first)
                       else old(first)[s.node := TargetsOf(w.scopes[s.scope].analyze(s.node, s.name))]
      ensures conflicts == [] <==> old(conflicts) == [] && (s.node in first ==> Analyzes(w, s, first[s.node]))
      ensures errors == [] ==> old(errors) == [] && ResolvedAt(w, s)
      ensures errors != [] ==> old(errors) != [] || !(ResolvedAt(w, s) && InterpreterResolves(w, s))
      ensures errors == [] && Declares(w, s) ==> InterpreterReached(w, reached, seen, queue, s)
    {
      ghost var before, known := reached, first;
      seen := seen + {s};
      reached := reached + {s.node};
      if s.node in w.git {
        FollowSource(s, before);
      } else {
        FollowDeclared(s, before);
      }
      StaysOneAnalysis(w, old(seen), before, known, s, first);
    }

    /** The head of the queue is visited; conflicts and errors keep their meaning. */
    method See()
      requires queue != [] && Recorded() && Known(w, names, queue[0]) && Verdicts()
      modifies this`queue, this`seen, this`reached, this`first, this`staticAdj, this`dynamicAdj, this`edges,
               this`conflicts, this`errors
      ensures Recorded() && Verdicts()
      ensures var s, rest := old(queue)[0], old(queue)[1..];
              && seen == old(seen) + {s} && reached == old(reached) + {s.node}
              && (forall t :: StepTo(w, s, t) ==> Pending(seen, queue, t))
              && (forall t :: t in queue ==> t in rest || StepTo(w, s, t) || InterpreterStep(w, s, t))
              && (forall t :: t in rest ==> t in queue)
              && (errors == [] && Declares(w, s) ==> InterpreterReached(w, reached, seen, queue, s))
      ensures errors == [] ==> old(errors) == []
    {
      var s := queue[0];
      queue := queue[1..];
      Visit(s);
      StaysJudged(w, old(seen), old(reached), old(first), s, first, old(conflicts) == [], conflicts == [], old(errors) == [], errors == []);
    }

    method Skip()
      requires Valid() && queue != [] && queue[0] in seen
      modifies this`queue
      ensures Valid() && queue == old(queue)[1..]
    {
      var s := queue[0];
      assert queue == [s] + queue[1..];
      queue := queue[1..];
      SkipTracked(w, names, seeds, reached, seen, s, queue, errors == []);
    }

    /** One turn of the worklist: what was seen stays seen, and either a new state is seen or the queue shrinks. */
    method Turn()
      requires Valid() && queue != []
      modifies this`queue, this`seen, this`reached, this`first, this`staticAdj, this`dynamicAdj, this`edges,
               this`conflicts, this`errors
      ensures Valid()
      ensures old(seen) < seen || (seen == old(seen) && |queue| < |old(queue)|)
    {
      var s := queue[0];
      ghost var rest := queue[1..];
      assert queue == [s] + rest && Pending(seen, queue, s);
      if s !in seen {
        See();
        StaysTracked(w, names, seeds, old(reached), reached, old(seen), s, rest, queue, old(errors) == [], errors == []);
      } else {
        Skip();
      }
    }

    method Run()
      requires Valid()
      modifies this`queue, this`seen, this`reached, this`first, this`staticAdj, this`dynamicAdj, this`edges,
               this`conflicts, this`errors
      ensures Valid() && queue == []
      ensures conflicts == [] ==> Finished(w, names, Data())
      ensures conflicts == [] <==> !Disagree(w, seen)
    {
      SeenInUniverse();
      while queue != []
        invariant Valid() && seen <= Universe(w, names)
        decreases Universe(w, names) - seen, |queue|
      {
        ghost var before := seen;
        Turn();
        SeenInUniverse();
        assert before < seen ==> Universe(w, names) - seen < Universe(w, names) - before by {
          if before < seen { Shrinks(Universe(w, names), before, seen); }
        }
      }
      Decided();
    }

    lemma {:induction false} Decided()
      requires Valid() && queue == []
      ensures conflicts == [] ==> Finished(w, names, Data())
      ensures conflicts == [] <==> !Disagree(w, seen)
    {
      forall t | t in seen ensures t.scope in w.scopes { assert Pending(seen, queue, t); }
      ClashesDisagree(w, seen, reached, first, conflicts == []);
    }

    lemma {:induction false} SeenInUniverse()
      requires Valid()
      ensures seen <= Universe(w, names)
    {
      forall s | s in seen ensures s in Universe(w, names) {
        assert Pending(seen, queue, s) && Known(w, names, s);
        assert s == State(s.scope, s.node, s.name);
      }
    }
  }

  lemma {:induction false} Shrinks(all: set<State>, a: set<State>, b: set<State>)
    requires a < b <= all
    ensures all - b < all - a
  {
    var x :| x in b && x !in a;
    assert x in all - a && x !in all - b;
  }

  lemma {:induction false} NodesAreTargets(a: Analysis, nodes: seq<Node>)
    requires nodes == a.stat + seq(|a.dyn|, i requires 0 <= i < |a.dyn| => a.dyn[i].0)
    ensures forall n :: n in nodes <==> IsTarget(TargetsOf(a), n)
  {
    forall n | IsDynamicTarget(a.dyn, n) ensures n in nodes {
      var i :| 0 <= i < |a.dyn| && a.dyn[i].0 == n;
      assert nodes[|a.stat| + i] == n;
    }
  }

  // -- one visit keeps each part of the invariant

  lemma {:induction false} SourceReached(w: World, boots: Adjacency, first: map<Node, Targets>, reached: set<Node>, n: Node, edges: Edges)
    requires n in w.git && EdgesOf(w, boots, first, reached, edges)
    ensures EdgesOf(w, boots, first, reached + {n}, edges)
  {
    forall k ensures EdgeDue(w, boots, first, reached + {n}, k) <==> EdgeDue(w, boots, first, reached, k) {}
  }

  lemma {:induction false} StaysOneAnalysis(w: World, seen: set<State>, reached: set<Node>, first: map<Node, Targets>, s: State,
                         first1: map<Node, Targets>)
    requires OneAnalysis(w, seen, reached, first) && s.scope in w.scopes
    requires first1 == if s.node !in w.git || s.node in first then first
                       else first[s.node := TargetsOf(w.scopes[s.scope].analyze(s.node, s.name))]
    ensures OneAnalysis(w, seen + {s}, reached + {s.node}, first1)
  {
    forall n | n in first1 ensures exists t :: t in seen + {s} && t.node == n && Analyzes(w, t, first1[n]) {
      if n in first {
        var t :| t in seen && t.node == n && Analyzes(w, t, first[n]);
        assert t in seen + {s} && Analyzes(w, t, first1[n]);
      } else {
        assert s in seen + {s} && Analyzes(w, s, first1[n]);
      }
    }
  }

  lemma {:induction false} StaysAgreed(w: World, seen: set<State>, reached: set<Node>, first: map<Node, Targets>, s: State,
                    first1: map<Node, Targets>)
    requires OneAnalysis(w, seen, reached, first) && Agreed(w, seen, first)
    requires forall n :: n in first ==> n in first1 && first1[n] == first[n]
    requires forall n :: n in first1 ==> n in first || n == s.node
    requires s.node in first1 ==> Analyzes(w, s, first1[s.node])
    ensures Agreed(w, seen + {s}, first1)
  {
    forall t | t in seen && t.node in first1 ensures Analyzes(w, t, first1[t.node]) {
      assert t.node in reached;
    }
  }

  lemma {:induction false} StaysResolved(w: World, seen: set<State>, s: State)
    requires Resolved(w, seen) && ResolvedAt(w, s)
    ensures Resolved(w, seen + {s})
  {
  }

  lemma {:induction false} StaysJudged(w: World, seen: set<State>, reached: set<Node>, first: map<Node, Targets>, s: State,
                                       first1: map<Node, Targets>, agreed: bool, agreed1: bool, resolved: bool, resolved1: bool)
    requires OneAnalysis(w, seen, reached, first) && Judged(w, seen, first, agreed, resolved)
    requires forall n :: n in first ==> n in first1 && first1[n] == first[n]
    requires forall n :: n in first1 ==> n in first || n == s.node
    requires agreed1 <==> agreed && (s.node in first1 ==> Analyzes(w, s, first1[s.node]))
    requires if resolved1 then resolved && ResolvedAt(w, s) else !(resolved && ResolvedAt(w, s) && InterpreterResolves(w, s))
    ensures Judged(w, seen + {s}, first1, agreed1, resolved1)
  {
    if agreed1 {
      StaysAgreed(w, seen, reached, first, s, first1);
    } else if !agreed {
      var t :| Clashes(w, seen, first, t);
      assert Clashes(w, seen + {s}, first1, t);
    } else {
      assert Clashes(w, seen + {s}, first1, s);
    }
    if resolved1 {
      StaysResolved(w, seen, s);
    } else if !resolved {
      var t :| Stuck(w, seen, t);
      assert Stuck(w, seen + {s}, t);
    } else {
      assert Stuck(w, seen + {s}, s);
    }
  }

  lemma {:induction false} FollowsBoth(w: World, a: seq<string>, b: seq<string>, s: State)
    requires s.scope in w.scopes
    ensures forall t :: FollowsTo(w, a + b, s, t) <==> FollowsTo(w, a, s, t) || FollowsTo(w, b, s, t)
  {
    forall t ensures ResolvesFrom(w, a + b, t) <==> ResolvesFrom(w, a, t) || ResolvesFrom(w, b, t) {
      if r :| r in a && w.resolveNode(r) == Some(t) { assert r in a + b; }
      if r :| r in b && w.resolveNode(r) == Some(t) { assert r in a + b; }
    }
  }

  lemma {:induction false} InterpreterFollowed(w: World, reached: set<Node>, seen: set<State>, queue: seq<State>, s: State)
    requires s.scope in w.scopes && Declares(w, s) && (InterpreterWanted(w, reached, s) ==> InterpreterResolves(w, s))
    requires forall t :: InterpreterWanted(w, reached, s) && InterpreterStep(w, s, t) ==> Pending(seen, queue, t)
    ensures InterpreterReached(w, reached, seen, queue, s)
  {
    if InterpreterWanted(w, reached, s) {
      var r := InterpreterOf(w.declared[s.node].provenance);
      var n := w.resolveNode(r).value;
      var t := State(s.scope, n, w.scopes[s.scope].reach(n));
      assert InterpreterStep(w, s, t);
    }
  }

  lemma {:induction false} StaysComplete(w: World, seeds: set<State>, seen: set<State>, s: State, rest: seq<State>, queue: seq<State>)
    requires Complete(w, seeds, seen, [s] + rest)
    requires forall t :: t in rest ==> t in queue
    requires forall t :: StepTo(w, s, t) ==> Pending(seen + {s}, queue, t)
    ensures Complete(w, seeds, seen + {s}, queue)
  {
    forall t | Pending(seen, [s] + rest, t) ensures Pending(seen + {s}, queue, t) {}
  }

  lemma {:induction false} StaysSourced(w: World, seeds: set<State>, seen: set<State>, s: State, t: State)
    requires Sourced(w, seeds, seen, t)
    ensures Sourced(w, seeds, seen + {s}, t)
  {
    if t !in seeds {
      var p :| p in seen && Possible(w)(p, t);
      assert p in seen + {s};
    }
  }

  lemma {:induction false} StaysDerived(w: World, names: set<Name>, seeds: set<State>, seen: set<State>, s: State, rest: seq<State>, queue: seq<State>)
    requires Bounded(w, names) && Derived(w, names, seeds, seen, [s] + rest)
    requires forall t :: t in queue ==> t in rest || StepTo(w, s, t) || InterpreterStep(w, s, t)
    ensures Derived(w, names, seeds, seen + {s}, queue)
  {
    assert Pending(seen, [s] + rest, s);
    forall t | Pending(seen + {s}, queue, t)
      ensures Known(w, names, t) && Reachable(Possible(w), seeds, t) && Sourced(w, seeds, seen + {s}, t)
    {
      if Pending(seen, [s] + rest, t) {
        StaysSourced(w, seeds, seen, s, t);
      } else {
        StepsStayKnown(w, names, s, t);
        StepReachable(Possible(w), seeds, s, t);
        assert s in seen + {s} && Possible(w)(s, t);
      }
    }
  }

  lemma {:induction false} StaysTracked(w: World, names: set<Name>, seeds: set<State>, reached: set<Node>, reached1: set<Node>,
                                        seen: set<State>, s: State, rest: seq<State>, queue: seq<State>, resolved: bool, resolved1: bool)
    requires Tracks(w, names, seeds, reached, seen, [s] + rest, resolved) && reached <= reached1 && (resolved1 ==> resolved)
    requires forall t :: t in rest ==> t in queue
    requires forall t :: StepTo(w, s, t) ==> Pending(seen + {s}, queue, t)
    requires forall t :: t in queue ==> t in rest || StepTo(w, s, t) || InterpreterStep(w, s, t)
    requires resolved1 && Declares(w, s) ==> InterpreterReached(w, reached1, seen + {s}, queue, s)
    ensures Tracks(w, names, seeds, reached1, seen + {s}, queue, resolved1)
  {
    StaysComplete(w, seeds, seen, s, rest, queue);
    StaysDerived(w, names, seeds, seen, s, rest, queue);
    if resolved1 { InterpretersStay(w, reached, reached1, seen, s, rest, queue); }
  }

  lemma {:induction false} SkipTracked(w: World, names: set<Name>, seeds: set<State>, reached: set<Node>, seen: set<State>,
                                       s: State, rest: seq<State>, resolved: bool)
    requires Tracks(w, names, seeds, reached, seen, [s] + rest, resolved) && s in seen
    ensures Tracks(w, names, seeds, reached, seen, rest, resolved)
  {
    assert forall t :: Pending(seen, rest, t) <==> Pending(seen, [s] + rest, t);
  }

  lemma {:induction false} InterpretersStay(w: World, reached: set<Node>, reached1: set<Node>, seen: set<State>, s: State, rest: seq<State>, queue: seq<State>)
    requires InterpretersReached(w, reached, seen, [s] + rest) && reached <= reached1
    requires forall t :: t in rest ==> t in queue
    requires Declares(w, s) ==> InterpreterReached(w, reached1, seen + {s}, queue, s)
    ensures InterpretersReached(w, reached1, seen + {s}, queue)
  {
    forall u | u in seen && Declares(w, u) ensures InterpreterReached(w, reached1, seen + {s}, queue, u) {
      var r := InterpreterOf(w.declared[u.node].provenance);
      if r != "" && r !in reached {
        var t :| Pending(seen, [s] + rest, t) && t.scope == u.scope && w.resolveNode(r) == Some(t.node);
        assert Pending(seen + {s}, queue, t);
      }
    }
  }

  lemma {:induction false} AdjacencyAfterFirst(boots: Adjacency, first: map<Node, Targets>, n: Node, x: Targets,
                            static0: Adjacency, static1: Adjacency, dynamic0: Adjacency, dynamic1: Adjacency)
    requires n !in first && AdjacencyOf(boots, first, static0, dynamic0)
    requires static1 == if x.stat == [] then static0 else static0[n := Adj(static0, n) + x.stat]
    requires forall m :: m != n ==> Adj(dynamic1, m) == Adj(dynamic0, m)
    requires forall t :: t in Adj(dynamic1, n) <==> t in Adj(dynamic0, n) || IsDynamicTarget(x.dyn, t)
    ensures AdjacencyOf(boots, first[n := x], static1, dynamic1)
  {
    var first1 := first[n := x];
    forall m ensures AdjacencyAt(boots, first1, static1, dynamic1, m) {
      assert AdjacencyAt(boots, first, static0, dynamic0, m);
    }
  }

  lemma {:induction false} EdgesAfterFirst(w: World, boots: Adjacency, first: map<Node, Targets>, reached: set<Node>, n: Node, x: Targets,
                        edges0: Edges, edges1: Edges)
    requires n in w.git && n !in first && EdgesOf(w, boots, first, reached, edges0)
    requires forall k :: k in edges1 <==>
               (|| k in edges0
                || (k.source == n && k.kind == Import && k.target in x.stat)
                || (k.source == n && k.kind == DynamicImport && IsDynamicTarget(x.dyn, k.target)))
    requires forall k :: k in edges1 ==> if k in edges0 then edges1[k] == edges0[k]
                                         else if k.kind == DynamicImport then edges1[k].Some? && (k.target, edges1[k].value) in x.dyn
                                         else edges1[k] == None
    ensures EdgesOf(w, boots, first[n := x], reached, edges1)
  {
  }

  lemma {:induction false} EdgesAfterDeclared(w: World, boots: Adjacency, first: map<Node, Targets>, reached: set<Node>, n: Node,
                           edges0: Edges, edges1: Edges)
    requires EdgesOf(w, boots, first, reached, edges0)
    requires forall k :: k in edges1 <==> k in edges0 || DeclaredEdge(w, n, k)
    requires forall k :: k in edges1 ==> edges1[k] == if k in edges0 then edges0[k] else None
    ensures EdgesOf(w, boots, first, reached + {n}, edges1)
  {
    forall k ensures k in edges1 <==> EdgeDue(w, boots, first, reached + {n}, k) {}
  }

  lemma {:induction false} ResolvesPrefix(w: World, refs: seq<string>, i: nat)
    requires i < |refs|
    ensures forall r :: r in refs[..i + 1] <==> r in refs[..i] || r == refs[i]
    ensures forall n :: ResolvesFrom(w, refs[..i + 1], n) <==> ResolvesFrom(w, refs[..i], n) || w.resolveNode(refs[i]) == Some(n)
  {
    assert refs[..i + 1] == refs[..i] + [refs[i]];
    forall n | ResolvesFrom(w, refs[..i], n) || w.resolveNode(refs[i]) == Some(n)
      ensures ResolvesFrom(w, refs[..i + 1], n)
    {
      if ResolvesFrom(w, refs[..i], n) {
        var r :| r in refs[..i] && w.resolveNode(r) == Some(n);
        assert r in refs[..i + 1];
      } else {
        assert refs[i] in refs[..i + 1];
      }
    }
  }

  lemma {:induction false} DynamicPrefix(dyn: seq<(Node, EvidenceRef)>, i: nat)
    requires i < |dyn|
    ensures forall t :: IsDynamicTarget(dyn[..i + 1], t) <==> IsDynamicTarget(dyn[..i], t) || dyn[i].0 == t
  {
    forall t | IsDynamicTarget(dyn[..i], t) || dyn[i].0 == t ensures IsDynamicTarget(dyn[..i + 1], t) {
      if dyn[i].0 != t {
        var j :| 0 <= j < |dyn[..i]| && dyn[..i][j].0 == t;
        assert dyn[..i + 1][j].0 == t;
      } else {
        assert dyn[..i + 1][i].0 == t;
      }
    }
    forall t | IsDynamicTarget(dyn[..i + 1], t) && dyn[i].0 != t ensures IsDynamicTarget(dyn[..i], t) {
      var j :| 0 <= j < |dyn[..i + 1]| && dyn[..i + 1][j].0 == t;
      assert dyn[..i][j].0 == t;
    }
  }
}
