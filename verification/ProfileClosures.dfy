/** The closures of build_reviewed_source_graph. */
module ProfileClosures {
  import opened Records
  import opened Reachability
  import opened ClosureWalk
  import opened Sorting

  ghost function NodeStep(staticAdj: Adjacency, dynamicAdj: Adjacency): (Node, Node) -> bool {
    (x, y) => y in Adj(staticAdj, x) || y in Adj(dynamicAdj, x)
  }

  ghost function Elements(s: seq<Node>): set<Node> {
    set n | n in s
  }

  ghost function Mentioned(adj: Adjacency): set<Node> {
    set m, n | m in adj.Keys && n in adj[m] :: n
  }

  /** `transitive_allowed`, and with an empty `dynamicAdj` `transitive_static`: first come, first kept. */
  method Transitive(staticAdj: Adjacency, dynamicAdj: Adjacency, seeds: seq<Node>) returns (seen: seq<Node>)
    ensures NoDuplicates(seen)
    ensures forall n :: n in seen <==> Reachable(NodeStep(staticAdj, dynamicAdj), Elements(seeds), n)
  {
    seen := [];
    var work := seeds;
    ghost var next, roots := NodeStep(staticAdj, dynamicAdj), Elements(seeds);
    ghost var all := roots + Mentioned(staticAdj) + Mentioned(dynamicAdj);
    forall n | n in work ensures Reachable(next, roots, n) { SeedReachable(next, roots, n); }
    while work != []
      invariant NoDuplicates(seen) && Explored(next, roots, all, seen, work)
      decreases all - Elements(seen), |work|
    {
      var current := work[0];
      ghost var rest := work[1..];
      assert work == [current] + rest;
      work := work[1..];
      if current !in seen {
        work := work + NotIn(Adj(staticAdj, current), seen + [current]) + NotIn(Adj(dynamicAdj, current), seen + [current]);
        ExploredStep(next, roots, all, seen, current, rest, work);
        seen := seen + [current];
      } else {
        ExploredSkip(next, roots, all, seen, current, rest);
      }
    }
    ExploredAll(next, roots, all, seen);
  }

  /** Everything seen or queued is reachable, and what follows a seen node is seen or queued. */
  ghost predicate Explored(next: (Node, Node) -> bool, roots: set<Node>, all: set<Node>, seen: seq<Node>, work: seq<Node>) {
    && (forall n :: n in roots ==> n in seen || n in work)
    && (forall n :: n in seen || n in work ==> n in all && Reachable(next, roots, n))
    && (forall m, n :: m in seen && next(m, n) ==> n in seen || n in work)
  }

  lemma {:induction false} ExploredStep(next: (Node, Node) -> bool, roots: set<Node>, all: set<Node>, seen: seq<Node>,
                                        current: Node, rest: seq<Node>, work: seq<Node>)
    requires Explored(next, roots, all, seen, [current] + rest) && current !in seen
    requires forall n :: n in work <==> n in rest || (next(current, n) && n !in seen + [current])
    requires forall n :: next(current, n) ==> n in all
    ensures Explored(next, roots, all, seen + [current], work)
    ensures Elements(seen + [current]) == Elements(seen) + {current} && current in all - Elements(seen)
    ensures NoDuplicates(seen) ==> NoDuplicates(seen + [current])
  {
    assert current in [current] + rest;
    forall n | n in work ensures n in all && Reachable(next, roots, n) {
      if n in rest { assert n in [current] + rest; } else { StepReachable(next, roots, current, n); }
    }
    forall m, n | m in seen + [current] && next(m, n) ensures n in seen + [current] || n in work {
      if m in seen { assert n in seen || n in [current] + rest; }
    }
  }

  lemma {:induction false} ExploredSkip(next: (Node, Node) -> bool, roots: set<Node>, all: set<Node>, seen: seq<Node>,
                                        current: Node, rest: seq<Node>)
    requires Explored(next, roots, all, seen, [current] + rest) && current in seen
    ensures Explored(next, roots, all, seen, rest)
  {
    assert forall n :: n in [current] + rest <==> n == current || n in rest;
  }

  lemma {:induction false} ExploredAll(next: (Node, Node) -> bool, roots: set<Node>, all: set<Node>, seen: seq<Node>)
    requires Explored(next, roots, all, seen, [])
    ensures forall n :: n in seen <==> Reachable(next, roots, n)
  {
    forall n | Reachable(next, roots, n) ensures n in seen { ClosedHolds(next, roots, Elements(seen), n); }
  }

  function NotIn(s: seq<Node>, seen: seq<Node>): (r: seq<Node>)
    ensures forall n :: n in r <==> n in s && n !in seen
  {
    if s == [] then []
    else (if s[0] in seen then [] else [s[0]]) + NotIn(s[1..], seen)
  }

  // -- what the finished walk says

  /** Whatever interpreter an artifact names, its scope comes to it by unconditional steps as well, so the guard on the
      interpreter's step decides nothing. */
  ghost predicate InterpretersSeeded(w: World, seeds: set<State>) {
    forall s, t :: Reachable(Always(w), seeds, s) && InterpreterStep(w, s, t) ==> Reachable(Always(w), seeds, t)
  }

  lemma {:induction false} PathUnguarded(w: World, seeds: set<State>, path: seq<State>, i: nat)
    requires InterpretersSeeded(w, seeds) && IsPath(Possible(w), path) && path[0] in seeds && i < |path|
    ensures Reachable(Always(w), seeds, path[i])
  {
    if i == 0 {
      SeedReachable(Always(w), seeds, path[0]);
    } else {
      PathUnguarded(w, seeds, path, i - 1);
      assert Possible(w)(path[i - 1], path[i - 1 + 1]);
      if StepTo(w, path[i - 1], path[i]) { StepReachable(Always(w), seeds, path[i - 1], path[i]); }
    }
  }

  /** Then possible steps lead no further than unconditional ones. */
  lemma {:induction false} GuardsIdle(w: World, seeds: set<State>, s: State)
    requires InterpretersSeeded(w, seeds)
    ensures Reachable(Possible(w), seeds, s) <==> Reachable(Always(w), seeds, s)
  {
    if Reachable(Possible(w), seeds, s) {
      var path :| PathTo(Possible(w), seeds, path, s);
      PathUnguarded(w, seeds, path, |path| - 1);
    }
    if Reachable(Always(w), seeds, s) { MoreSteps(Always(w), Possible(w), seeds, s); }
  }

  /** Seen states lie between what the unconditional steps reach and what all steps reach; the two differ only by
      interpreters, so where those are reached anyway the walk is exact. */
  lemma {:induction false} WalkIsExact(w: World, names: set<Name>, seeds: set<State>, seen: set<State>)
    requires Complete(w, seeds, seen, []) && Derived(w, names, seeds, seen, [])
    ensures forall s :: Reachable(Always(w), seeds, s) ==> s in seen
    ensures forall s :: s in seen ==> Reachable(Possible(w), seeds, s)
    ensures InterpretersSeeded(w, seeds) ==> forall s :: s in seen <==> Reachable(Always(w), seeds, s)
  {
    forall s | Reachable(Always(w), seeds, s) ensures s in seen {
      forall x, y | x in seen && Always(w)(x, y) ensures y in seen { assert Pending(seen, [], y); }
      forall x | x in seeds ensures x in seen { assert Pending(seen, [], x); }
      ClosedHolds(Always(w), seeds, seen, s);
    }
    forall s | s in seen ensures Reachable(Possible(w), seeds, s) { assert Pending(seen, [], s); }
    if InterpretersSeeded(w, seeds) {
      forall s | s in seen ensures Reachable(Always(w), seeds, s) { GuardsIdle(w, seeds, s); }
    }
  }

  /** With no conflict, a source node's import edges and dynamic edges are its resolved targets in every state it was
      walked in. */
  lemma {:induction false} EdgesFitEveryState(w: World, names: set<Name>, d: WalkData, s: State, t: Node)
    requires Finished(w, names, d) && s in d.seen && s.node in w.git
    ensures s.scope in w.scopes
    ensures var a := w.scopes[s.scope].analyze(s.node, s.name);
            && (EdgeKey(s.node, t, Import) in d.edges <==> t in a.stat)
            && (EdgeKey(s.node, t, DynamicImport) in d.edges <==> IsDynamicTarget(a.dyn, t))
  {
    assert s.node in d.reached && Analyzes(w, s, d.first[s.node]);
  }

  /** `n` was walked under scope `l`. */
  ghost predicate WalkedUnder(seen: set<State>, l: string, n: Node) {
    exists s :: s in seen && s.scope == l && s.node == n
  }

  ghost function WalkedNodes(seen: set<State>, l: string): (r: set<Node>)
    ensures forall n :: n in r <==> WalkedUnder(seen, l, n)
  {
    set s | s in seen && s.scope == l :: s.node
  }

  /** A node's imports were followed in every scope the node was walked under. */
  lemma {:induction false} TargetsWalked(w: World, names: set<Name>, d: WalkData, l: string, n: Node, t: Node)
    requires Finished(w, names, d) && n in d.first && IsTarget(d.first[n], t) && WalkedUnder(d.seen, l, n)
    ensures WalkedUnder(d.seen, l, t)
  {
    var s :| s in d.seen && s.scope == l && s.node == n;
    assert Analyzes(w, s, d.first[n]);
    var scope := w.scopes[l];
    var u := State(l, t, NamesOf(scope, scope.analyze(n, s.name), t)[0]);
    assert StepTo(w, s, u);
    assert Pending(d.seen, [], u);
  }

  // -- under which names

  /** The file of `s` imports `t.node`, and `t` carries a name its imports bound it as, or the scope's own name for it if they
      bound it as none. */
  ghost predicate ImportedAs(w: World, s: State, t: State) {
    && s.scope in w.scopes && t.scope == s.scope && s.node in w.git
    && var a := w.scopes[s.scope].analyze(s.node, s.name);
       && (t.node in a.stat || exists i :: 0 <= i < |a.dyn| && a.dyn[i].0 == t.node)
       && (if t.node in a.bound && a.bound[t.node] != [] then t.name in a.bound[t.node] else t.name == w.scopes[s.scope].reach(t.node))
  }

  /** The declared node of `s` names `t.node` among its provenance's references, under the scope's own name for it. */
  ghost predicate DeclaredAs(w: World, s: State, t: State, interpreters: bool) {
    && s.scope in w.scopes && t.scope == s.scope && s.node in w.declared && s.node !in w.git
    && t.name == w.scopes[s.scope].reach(t.node)
    && exists r :: w.resolveNode(r) == Some(t.node) && Mentions(w.declared[s.node].provenance, interpreters, r)
  }

  /** A reference the walk follows from a provenance, with or without an artifact's interpreter. */
  predicate Mentions(p: Provenance, interpreters: bool, r: string) {
    match p
    case Git(_, _, _, _, _, _, _, _, _) => false
    case Generated(generators, inputs, _, _, _, _, _) => r in generators || r in inputs
    case Cached(sources, _, _, _, _) => r in sources
    case Artifact(_, _, sources, dependencies, interpreter, _, _, _, _) =>
      r in sources || r in dependencies || (interpreters && r == interpreter && r != "")
  }

  lemma {:induction false} StepsAre(w: World, s: State, t: State)
    ensures StepTo(w, s, t) <==> ImportedAs(w, s, t) || DeclaredAs(w, s, t, false)
    ensures Possible(w)(s, t) <==> ImportedAs(w, s, t) || DeclaredAs(w, s, t, true)
  {
    if s.node in w.declared {
      var p := w.declared[s.node].provenance;
      forall r ensures Mentions(p, false, r) <==> r in Follows(p) {}
      forall r ensures Mentions(p, true, r) <==> r in Follows(p) || (r == InterpreterOf(p) && r != "") {}
    }
  }

  /** A target is walked under every name the imports of a walked file bind it as, and under the scope's own name for it if they
      bind none; so are declared references. Conversely nothing else is walked: each state is a seed, or carries such a name
      from a state that was walked. */
  lemma {:induction false} NamesWalked(w: World, names: set<Name>, d: WalkData)
    requires Finished(w, names, d)
    ensures forall s, t :: s in d.seen && (ImportedAs(w, s, t) || DeclaredAs(w, s, t, false)) ==> t in d.seen
    ensures forall t :: t in d.seen ==> t in d.seeds || exists s :: s in d.seen && (ImportedAs(w, s, t) || DeclaredAs(w, s, t, true))
  {
    forall s, t | s in d.seen && (ImportedAs(w, s, t) || DeclaredAs(w, s, t, false)) ensures t in d.seen {
      StepsAre(w, s, t);
      assert Pending(d.seen, [], t);
    }
    forall t | t in d.seen && t !in d.seeds ensures exists s :: s in d.seen && (ImportedAs(w, s, t) || DeclaredAs(w, s, t, true)) {
      assert Pending(d.seen, [], t);
      var s :| s in d.seen && Possible(w)(s, t);
      StepsAre(w, s, t);
    }
  }

  /** A step of a closure leads to a bootstrap target or to a target of the node's analysis. */
  lemma {:induction false} StepsOfClosure(w: World, names: set<Name>, d: WalkData, useDynamic: bool, n: Node, t: Node)
    requires Finished(w, names, d)
    ensures var step := NodeStep(d.staticAdj, if useDynamic then d.dynamicAdj else map[]);
            && (t in Adj(d.boots, n) ==> step(n, t))
            && (step(n, t) ==> t in Adj(d.boots, n) || (n in d.first && IsTarget(d.first[n], t)))
  {
    assert AdjacencyAt(d.boots, d.first, d.staticAdj, d.dynamicAdj, n);
  }

  /** A profile's closure stays within the profile's own walk exactly when the bootstrap chains met on the way do. */
  lemma {:induction false} ClosureRespectsScope(w: World, names: set<Name>, d: WalkData, l: string, roots: set<Node>, useDynamic: bool)
    requires Finished(w, names, d) && forall n :: n in roots ==> WalkedUnder(d.seen, l, n)
    ensures var step := NodeStep(d.staticAdj, if useDynamic then d.dynamicAdj else map[]);
            (forall n :: Reachable(step, roots, n) ==> WalkedUnder(d.seen, l, n)) <==>
            (forall n, b :: Reachable(step, roots, n) && WalkedUnder(d.seen, l, n) && b in Adj(d.boots, n) ==> WalkedUnder(d.seen, l, b))
  {
    var step := NodeStep(d.staticAdj, if useDynamic then d.dynamicAdj else map[]);
    forall n, b | Reachable(step, roots, n) && b in Adj(d.boots, n) ensures Reachable(step, roots, b) {
      StepsOfClosure(w, names, d, useDynamic, n, b);
      StepReachable(step, roots, n, b);
    }
    if forall n, b :: Reachable(step, roots, n) && WalkedUnder(d.seen, l, n) && b in Adj(d.boots, n) ==> WalkedUnder(d.seen, l, b) {
      var inside := set n | n in WalkedNodes(d.seen, l) && Reachable(step, roots, n);
      forall n, t | n in inside && step(n, t) ensures t in inside {
        StepReachable(step, roots, n, t);
        StepsOfClosure(w, names, d, useDynamic, n, t);
        if t !in Adj(d.boots, n) { TargetsWalked(w, names, d, l, n, t); }
      }
      forall n | n in roots ensures n in inside { SeedReachable(step, roots, n); }
      forall n | Reachable(step, roots, n) ensures WalkedUnder(d.seen, l, n) { ClosedHolds(step, roots, inside, n); }
    }
  }
}
