/** The scopes of the builder, and why its walk is bounded. */
module RootScopes {
  import opened Records
  import opened Text
  import opened ImportRoots
  import opened ModuleResolver
  import opened ModuleNames
  import opened ClosureWalk

  // _RepositoryRootScope and _ProfileRootsScope of p3_source_closure/graph_builder.py: what imports resolve to in one repository,
  // or under a profile's import roots.

  // -- the names a file can bind as

  /** The strings that differ from `s` only by dots in place of other characters. */
  function Spellings(s: string): (r: set<string>)
    ensures s in r
  {
    if s == "" then {""}
    else
      var rest := Spellings(s[1..]);
      assert s == [s[0]] + s[1..];
      (set t | t in rest :: [s[0]] + t) + (set t | t in rest :: ['.'] + t)
  }

  /** `t` is `s` with some characters, all slashes, turned to dots. */
  ghost predicate Respells(s: string, t: string) {
    |t| == |s| && forall i :: 0 <= i < |s| ==> t[i] == s[i] || t[i] == '.'
  }

  lemma {:induction false} RespelledIn(s: string, t: string)
    requires Respells(s, t)
    ensures t in Spellings(s)
  {
    if s != "" {
      assert Respells(s[1..], t[1..]) by {
        forall i | 0 <= i < |s[1..]| ensures t[1..][i] == s[1..][i] || t[1..][i] == '.' { assert t[i + 1] == s[i + 1] || t[i + 1] == '.'; }
      }
      RespelledIn(s[1..], t[1..]);
      assert t == [t[0]] + t[1..];
    }
  }

  lemma {:induction false} RespellsJoined(a: string, b: string, c: string, d: string, x: char, y: char)
    requires Respells(a, b) && Respells(c, d) && (y == x || y == '.')
    ensures Respells(a + [x] + c, b + [y] + d)
  {
  }

  lemma {:induction false} JoinRespells(parts: seq<string>)
    ensures Respells(Join(parts, '/'), Join(parts, '.'))
  {
    if |parts| > 1 {
      JoinRespells(parts[1..]);
      RespellsJoined(parts[0], parts[0], Join(parts[1..], '/'), Join(parts[1..], '.'), '/', '.');
    }
  }

  function NamesIn(path: string): set<string> {
    set i: nat, j: nat, t | i <= j <= |path| && t in Spellings(path[i..j]) :: t
  }

  /** Every name some file of the trees could bind as, and no name. */
  ghost function BindableNames(trees: map<string, Tree>): set<Name> {
    (set k, p, t | k in trees.Keys && p in trees[k].files && t in NamesIn(p) :: Some(t)) + {None}
  }

  lemma {:induction false} SpelledByPart(path: string, i: nat, j: nat, t: string)
    requires i <= j <= |path| && Respells(path[i..j], t)
    ensures t in NamesIn(path)
  {
    RespelledIn(path[i..j], t);
  }

  lemma {:induction false} NameOfPath(trees: map<string, Tree>, repository: string, path: string, t: string)
    requires repository in trees && path in trees[repository].files && t in NamesIn(path)
    ensures Some(t) in BindableNames(trees)
  {
  }

  /** A file binds under a name its own path spells. */
  lemma {:induction false} BoundNameBindable(r: Resolver, name: string, f: Resolved)
    requires ResolveName(r, name).Binds? && f in ResolveName(r, name).files
    ensures Some(f.moduleName) in BindableNames(r.trees)
  {
    var k, root := BoundFileLies(r, name, f);
    var base := Join(PartsOf(name)[..k], '/');
    var i := |PathJoin(root.directory, base)| - |base|;
    assert f.path[i..i + |base|] == base;
    JoinRespells(PartsOf(name)[..k]);
    SpelledByPart(f.path, i, i + |base|, f.moduleName);
    NameOfPath(r.trees, f.repository, f.path, f.moduleName);
  }

  lemma {:induction false} DottedRespells(s: string)
    ensures Respells(s, Dotted(s))
  {
  }

  lemma {:induction false} FileNameRespells(path: string)
    requires ModuleFromPath(path).Named?
    ensures exists j: nat :: j <= |path| && Respells(path[..j], ModuleFromPath(path).name)
  {
    var j := if EndsWith(path, PACKAGE_SUFFIX) then |path| - |PACKAGE_SUFFIX| else |path| - 3;
    DottedRespells(path[..j]);
  }

  lemma {:induction false} FoundNameBindable(r: Resolver, repository: string, path: string, i: nat)
    requires i <= |r.roots| && repository in r.trees && path in r.trees[repository].files
    ensures NameForFile(r, repository, path, i) in BindableNames(r.trees)
    decreases |r.roots| - i
  {
    if i < |r.roots| {
      var root := r.roots[i];
      var name := NameUnder(r, root, repository, path);
      if name.Some? {
        var relative := Relative(root.directory, path).value;
        var from := |path| - |relative|;
        FileNameRespells(relative);
        var j: nat :| j <= |relative| && Respells(relative[..j], name.value);
        assert path[from..from + j] == relative[..j];
        SpelledByPart(path, from, from + j, name.value);
        NameOfPath(r.trees, repository, path, name.value);
      } else {
        FoundNameBindable(r, repository, path, i + 1);
      }
    }
  }

  // -- a profile's scope

  /** `files` gives each committed node's repository and path, `ids` the node of each such file. */
  datatype RootScope = RootScope(resolver: Resolver, files: map<Node, (string, string)>, ids: map<(string, string), Node>,
                                 declaredByModule: map<string, Node>, declared: set<Node>)

  /** `reach` */
  function ReachOf(x: RootScope, n: Node): Name {
    if n in x.files then NameForFile(x.resolver, x.files[n].0, x.files[n].1, 0) else None
  }

  /** The files of `resolve_module`, and its declared module. */
  ghost predicate ImportBinds(x: RootScope, name: string, t: Node, m: Name) {
    var r := ResolveName(x.resolver, name);
    r.Binds? &&
      (|| (exists f :: f in r.files && (f.repository, f.path) in x.ids && t == x.ids[(f.repository, f.path)] && m == Some(f.moduleName))
       || (r.declaredModule.Some? && r.declaredModule.value in x.declaredByModule && t == x.declaredByModule[r.declaredModule.value] && m == None))
  }

  /** `resolve_dynamic_target`: the last file, if it binds as the whole name, else the declared module of that name, else the
      declared node of that id. */
  function DynamicTarget(x: RootScope, name: string): Option<(Node, Name)> {
    var r := ResolveName(x.resolver, name);
    if r.Binds? && r.declaredModule.None? && r.files != [] && r.files[|r.files| - 1].moduleName == name
       && (r.files[|r.files| - 1].repository, r.files[|r.files| - 1].path) in x.ids
    then Some((x.ids[(r.files[|r.files| - 1].repository, r.files[|r.files| - 1].path)], Some(name)))
    else if r.Binds? && r.declaredModule == Some(name) && name in x.declaredByModule then Some((x.declaredByModule[name], None))
    else if name in x.declared then Some((name, None))
    else None
  }

  /** Some import statement or call can bind `t` as `m`. */
  ghost predicate Imports(x: RootScope, t: Node, m: Name) {
    (exists name :: ImportBinds(x, name, t, m)) || (exists name :: DynamicTarget(x, name) == Some((t, m)))
  }

  /** Whatever statements a file holds, its targets and the names noted for them come from the scope. */
  ghost predicate Drawn(x: RootScope, a: Analysis) {
    && (forall t, m :: t in a.bound && m in a.bound[t] ==> Imports(x, t, m))
    && (forall t :: IsTarget(TargetsOf(a), t) ==> exists m :: Imports(x, t, m))
  }

  ghost predicate ScopeOf(s: Scope, x: RootScope) {
    && (forall n :: s.reach(n) == ReachOf(x, n))
    && (forall n, m :: Drawn(x, s.analyze(n, m)))
  }

  /** The scope's tables name nodes of the world and files of the trees. */
  ghost predicate Tabled(w: World, trees: map<string, Tree>, x: RootScope) {
    && x.resolver.trees == trees && x.ids.Values <= w.git && x.declaredByModule.Values <= Nodes(w) && x.declared <= Nodes(w)
    && forall n :: n in x.files ==> x.files[n].0 in trees && x.files[n].1 in trees[x.files[n].0].files
  }

  lemma {:induction false} ReachBindable(x: RootScope, n: Node)
    requires n in x.files ==> x.files[n].0 in x.resolver.trees && x.files[n].1 in x.resolver.trees[x.files[n].0].files
    ensures ReachOf(x, n) in BindableNames(x.resolver.trees)
  {
    if n in x.files { FoundNameBindable(x.resolver, x.files[n].0, x.files[n].1, 0); }
  }

  lemma {:induction false} ImportsBindable(w: World, trees: map<string, Tree>, x: RootScope, t: Node, m: Name)
    requires Tabled(w, trees, x) && Imports(x, t, m)
    ensures t in Nodes(w) && m in BindableNames(trees)
  {
    if name :| ImportBinds(x, name, t, m) {
      if m.Some? {
        var f :| f in ResolveName(x.resolver, name).files && (f.repository, f.path) in x.ids && m == Some(f.moduleName)
                 && t == x.ids[(f.repository, f.path)];
        BoundNameBindable(x.resolver, name, f);
      }
    } else {
      var name :| DynamicTarget(x, name) == Some((t, m));
      if m.Some? {
        var files := ResolveName(x.resolver, name).files;
        BoundNameBindable(x.resolver, name, files[|files| - 1]);
      }
    }
  }

  /** `resolve_node` of the several-repository form. */
  function ResolveNode(git: set<Node>, declared: set<Node>, declaredByModule: map<string, Node>, r: string): Option<Node> {
    if r in git || r in declared then Some(r)
    else if r in declaredByModule then Some(declaredByModule[r])
    else None
  }

  /** A world of several repositories: each scope a profile's import roots over the same trees. */
  ghost predicate RootWorld(w: World, trees: map<string, Tree>, scopes: map<string, RootScope>, declaredByModule: map<string, Node>) {
    && w.scopes.Keys == scopes.Keys && declaredByModule.Values <= Nodes(w)
    && (forall l :: l in scopes ==> ScopeOf(w.scopes[l], scopes[l]) && Tabled(w, trees, scopes[l]))
    && (forall r :: w.resolveNode(r) == ResolveNode(w.git, w.declared.Keys, declaredByModule, r))
  }

  lemma {:induction false} TargetKnown(w: World, trees: map<string, Tree>, x: RootScope, s: State, t: State)
    requires s.scope in w.scopes && ScopeOf(w.scopes[s.scope], x) && Tabled(w, trees, x) && ImportsTo(w, s, t)
    ensures Known(w, BindableNames(trees), t)
  {
    var a := w.scopes[s.scope].analyze(s.node, s.name);
    assert Drawn(x, a);
    var m :| Imports(x, t.node, m);
    ImportsBindable(w, trees, x, t.node, m);
    if t.node in a.bound && a.bound[t.node] != [] {
      ImportsBindable(w, trees, x, t.node, t.name);
    } else {
      ReachBindable(x, t.node);
    }
  }

  /** Trees are finite and a file binds only under names its own path spells, so the walk's states are finitely many. */
  lemma {:induction false} RootWorldBounded(w: World, trees: map<string, Tree>, scopes: map<string, RootScope>, declaredByModule: map<string, Node>)
    requires RootWorld(w, trees, scopes, declaredByModule)
    ensures Bounded(w, BindableNames(trees))
    ensures forall n :: n in Nodes(w) ==> w.resolveNode(n) == Some(n)
  {
    forall l, n | l in w.scopes && n in Nodes(w) ensures w.scopes[l].reach(n) in BindableNames(trees) {
      assert ScopeOf(w.scopes[l], scopes[l]) && Tabled(w, trees, scopes[l]);
      ReachBindable(scopes[l], n);
    }
    forall s, t | Known(w, BindableNames(trees), s) && s.node in w.git && ImportsTo(w, s, t) ensures Known(w, BindableNames(trees), t) {
      assert s.scope in scopes;
      TargetKnown(w, trees, scopes[s.scope], s, t);
    }
  }

  // -- the one scope of a single repository

  /** A node is its own module name there. */
  ghost predicate RepositoryScope(w: World, s: Scope) {
    && (forall n :: s.reach(n) == Some(n))
    && (forall n, m, t :: IsTarget(TargetsOf(s.analyze(n, m)), t) ==>
          t in Nodes(w) && forall x :: t in s.analyze(n, m).bound && x in s.analyze(n, m).bound[t] ==> x == Some(t))
  }

  lemma {:induction false} RepositoryWorldBounded(w: World)
    requires forall l :: l in w.scopes ==> RepositoryScope(w, w.scopes[l])
    requires forall r :: w.resolveNode(r).Some? ==> w.resolveNode(r).value in Nodes(w)
    ensures Bounded(w, set n | n in Nodes(w) :: Some(n))
  {
    var names := set n | n in Nodes(w) :: Some(n);
    forall s, t | Known(w, names, s) && s.node in w.git && ImportsTo(w, s, t) ensures Known(w, names, t) {
      assert RepositoryScope(w, w.scopes[s.scope]);
      assert t.name == Some(t.node);
    }
  }
}
