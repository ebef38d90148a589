/** Module resolution over ordered import roots: p3_source_closure/import_roots.py. */
module ImportRoots {
  import opened Records
  import opened Text
  import opened Sorting

  // -- trees

  datatype Entry = Entry(mode: string, objectType: string)
  datatype Tree = Tree(files: set<string>, directories: set<string>, nonRegular: map<string, Entry>)

  /** One directory of one repository: an import root, or a place a package's submodules are searched in. */
  datatype Place = Place(repository: string, directory: string)

  /** `directories` holds every proper leading part of a file's path. */
  ghost predicate IsTreeOf(tree: Tree, paths: set<string>, nonRegular: map<string, Entry>) {
    && tree.files == paths && tree.nonRegular == nonRegular
    && forall d :: d in tree.directories <==> exists p :: p in paths && StartsWith(p, d + "/")
  }

  lemma {:induction false} SplitStep(s: string, sep: char)
    requires s != ""
    ensures var rest := Split(s[1..], sep);
            Split(s, sep) == if s[0] == sep then [""] + rest else [[s[0]] + rest[0]] + rest[1..]
  {
  }

  lemma {:induction false} SplitConcat(a: string, b: string, sep: char)
    ensures Split(a + [sep] + b, sep) == Split(a, sep) + Split(b, sep)
  {
    var s := a + [sep] + b;
    SplitStep(s, sep);
    if a == "" {
      assert s[1..] == b;
    } else {
      SplitConcat(a[1..], b, sep);
      SplitStep(a, sep);
      assert s[1..] == a[1..] + [sep] + b;
      HeadTail(Split(a[1..], sep), Split(b, sep));
    }
  }

  lemma {:induction false} HeadTail(head: seq<string>, tail: seq<string>)
    requires head != []
    ensures (head + tail)[0] == head[0] && (head + tail)[1..] == head[1..] + tail
  {
  }

  lemma {:induction false} JoinConcat(a: seq<string>, b: seq<string>, sep: char)
    requires a != [] && b != []
    ensures Join(a + b, sep) == Join(a, sep) + [sep] + Join(b, sep)
  {
    if |a| == 1 {
      assert (a + b)[1..] == b;
    } else {
      JoinConcat(a[1..], b, sep);
      assert (a + b)[1..] == a[1..] + b;
    }
  }

  /** The leading parts of a path, joined, are its prefixes that end just before a slash. */
  lemma {:induction false} LeadingParts(path: string, d: string)
    ensures StartsWith(path, d + "/") <==> exists k :: 1 <= k < |Split(path, '/')| && Join(Split(path, '/')[..k], '/') == d
  {
    var parts := Split(path, '/');
    JoinSplit(path, '/');
    if StartsWith(path, d + "/") {
      var rest := path[|d| + 1..];
      assert path == d + ['/'] + rest;
      SplitConcat(d, rest, '/');
      JoinSplit(d, '/');
      var k := |Split(d, '/')|;
      assert parts[..k] == Split(d, '/');
      assert 1 <= k < |parts| && Join(parts[..k], '/') == d;
    }
    if k :| 1 <= k < |parts| && Join(parts[..k], '/') == d {
      assert parts == parts[..k] + parts[k..];
      JoinConcat(parts[..k], parts[k..], '/');
    }
  }

  ghost predicate LeadsTo(d: string, path: string, below: nat) {
    exists k :: 1 <= k < below && k < |Split(path, '/')| && Join(Split(path, '/')[..k], '/') == d
  }

  method AddLeadingParts(path: string, before: set<string>) returns (directories: set<string>)
    ensures forall d :: d in directories <==> d in before || StartsWith(path, d + "/")
  {
    var parts := Split(path, '/');
    directories := before;
    for index := 1 to |parts|
      invariant forall d :: d in directories <==> d in before || LeadsTo(d, path, index)
    {
      directories := directories + {Join(parts[..index], '/')};
    }
    forall d ensures StartsWith(path, d + "/") <==> LeadsTo(d, path, |parts|) { LeadingParts(path, d); }
  }

  /** `RepositoryTree.from_paths` */
  method FromPaths(paths: seq<string>, nonRegular: map<string, Entry>) returns (tree: Tree)
    ensures IsTreeOf(tree, (set p | p in paths), nonRegular)
  {
    var directories: set<string> := {};
    for i := 0 to |paths|
      invariant forall d :: d in directories <==> exists p :: p in paths[..i] && StartsWith(p, d + "/")
    {
      assert paths[..i + 1] == paths[..i] + [paths[i]];
      directories := AddLeadingParts(paths[i], directories);
    }
    assert paths[..|paths|] == paths;
    tree := Tree((set p | p in paths), directories, nonRegular);
  }

  // -- import roots

  function PathJoin(directory: string, name: string): string {
    if directory == "" then name else directory + "/" + name
  }

  datatype Problem = UnknownRepository(root: Place) | MalformedDirectory(root: Place) | MissingDirectory(root: Place) | DuplicateRoot(root: Place)

  predicate RootOk(root: Place, trees: map<string, Tree>) {
    && root.repository in trees
    && (root.directory != "" ==> (forall part :: part in Split(root.directory, '/') ==> part !in {"", ".", ".."})
                                 && root.directory in trees[root.repository].directories)
  }

  predicate RootsOk(roots: seq<Place>, trees: map<string, Tree>) {
    (forall root :: root in roots ==> RootOk(root, trees)) && NoDuplicates(roots)
  }

  function RootProblem(root: Place, trees: map<string, Tree>, seen: set<Place>): Option<Problem> {
    if root.repository !in trees then Some(UnknownRepository(root))
    else if root.directory != "" && exists part :: part in Split(root.directory, '/') && part in {"", ".", ".."} then
      Some(MalformedDirectory(root))
    else if root.directory != "" && root.directory !in trees[root.repository].directories then Some(MissingDirectory(root))
    else if root in seen then Some(DuplicateRoot(root))
    else None
  }

  /** `import_root_problems`: nothing to report exactly for distinct, well-formed, existing roots. */
  method ImportRootProblems(roots: seq<Place>, trees: map<string, Tree>) returns (problems: seq<Problem>)
    ensures problems == [] <==> RootsOk(roots, trees)
  {
    problems := [];
    var seen: set<Place> := {};
    for i := 0 to |roots|
      invariant problems == [] <==> RootsOk(roots[..i], trees)
      invariant problems == [] ==> seen == set r | r in roots[..i]
    {
      assert roots[..i + 1] == roots[..i] + [roots[i]];
      assert RootsOk(roots[..i + 1], trees) <==> RootsOk(roots[..i], trees) && RootOk(roots[i], trees) && roots[i] !in roots[..i] by {
        OneMoreRoot(roots, i, trees);
      }
      var problem := RootProblem(roots[i], trees, seen);
      if problem.Some? { problems := problems + [problem.value]; } else { seen := seen + {roots[i]}; }
    }
    assert roots[..|roots|] == roots;
  }

  lemma {:induction false} OneMoreRoot(roots: seq<Place>, i: nat, trees: map<string, Tree>)
    requires i < |roots|
    ensures RootsOk(roots[..i + 1], trees) <==> RootsOk(roots[..i], trees) && RootOk(roots[i], trees) && roots[i] !in roots[..i]
  {
    var more, less := roots[..i + 1], roots[..i];
    assert more == less + [roots[i]];
    if RootsOk(more, trees) {
      assert roots[i] in more;
      assert forall r :: r in less ==> r in more;
      forall j | 0 <= j < i ensures less[j] != roots[i] { assert more[j] != more[i]; }
      assert NoDuplicates(less) by { assert forall j :: 0 <= j < i ==> less[j] == more[j]; }
    }
  }

  // -- one name part: the first place that decides it

  datatype Resolved = Resolved(repository: string, path: string, moduleName: string)
  datatype Resolution =
    | Nothing
    | Unsupported(repository: string, path: string, entry: Entry)
    | Binds(files: seq<Resolved>, declaredModule: Option<string>)

  datatype Hit =
    | Irregular(repository: string, path: string, entry: Entry)
    | Package(repository: string, path: string, inside: Place)
    | Module(repository: string, path: string)
    | Portion(place: Place)
    | Absent

  function IrregularAt(tree: Tree, repository: string, base: string): Option<Hit> {
    if base in tree.nonRegular then Some(Irregular(repository, base, tree.nonRegular[base]))
    else if base + "/__init__.py" in tree.nonRegular then Some(Irregular(repository, base + "/__init__.py", tree.nonRegular[base + "/__init__.py"]))
    else if base + ".py" in tree.nonRegular then Some(Irregular(repository, base + ".py", tree.nonRegular[base + ".py"]))
    else None
  }

  /** What one place holds under one name: an irregular entry before a package, before a module, before a bare directory. */
  function HitAt(trees: map<string, Tree>, place: Place, part: string): Hit {
    if place.repository !in trees then Absent  // ruled out for the places of checked roots
    else
      var tree, base := trees[place.repository], PathJoin(place.directory, part);
      var irregular := IrregularAt(tree, place.repository, base);
      if irregular.Some? then irregular.value
      else if base + "/__init__.py" in tree.files then Hit.Package(place.repository, base + "/__init__.py", Place(place.repository, base))
      else if base + ".py" in tree.files then Module(place.repository, base + ".py")
      else if base in tree.directories then Portion(Place(place.repository, base))
      else Absent
  }

  predicate Decides(hit: Hit) {
    hit.Irregular? || hit.Package? || hit.Module?
  }

  /** The first deciding place is at `i`. */
  ghost predicate DecidedAt(trees: map<string, Tree>, search: seq<Place>, part: string, i: int) {
    && 0 <= i < |search| && Decides(HitAt(trees, search[i], part))
    && forall j :: 0 <= j < i ==> !Decides(HitAt(trees, search[j], part))
  }

  ghost predicate AnyDecides(trees: map<string, Tree>, search: seq<Place>, part: string) {
    exists i :: DecidedAt(trees, search, part, i)
  }

  function Portions(trees: map<string, Tree>, search: seq<Place>, part: string): (r: seq<Place>)
    ensures forall p :: p in r ==> exists s :: s in search && HitAt(trees, s, part) == Portion(p)
  {
    if search == [] then []
    else
      var front, last := search[..|search| - 1], search[|search| - 1];
      assert search == front + [last];
      var hit := HitAt(trees, last, part);
      Portions(trees, front, part) + (if hit.Portion? then [hit.place] else [])
  }

  datatype Search = Decided(hit: Hit) | Undecided(portions: seq<Place>)

  /** The inner loop's specification. */
  function SearchPart(trees: map<string, Tree>, search: seq<Place>, part: string): Search {
    if search == [] then Undecided([])
    else
      var before := SearchPart(trees, search[..|search| - 1], part);
      var hit := HitAt(trees, search[|search| - 1], part);
      if before.Decided? then before
      else if Decides(hit) then Decided(hit)
      else Undecided(before.portions + (if hit.Portion? then [hit.place] else []))
  }

  /** The first deciding place wins; without one, the portions of all places, in order, are searched next. */
  lemma {:induction false} SearchPartExact(trees: map<string, Tree>, search: seq<Place>, part: string)
    ensures forall i :: DecidedAt(trees, search, part, i) ==> SearchPart(trees, search, part) == Decided(HitAt(trees, search[i], part))
    ensures (forall i :: !DecidedAt(trees, search, part, i)) <==> SearchPart(trees, search, part) == Undecided(Portions(trees, search, part))
    ensures SearchPart(trees, search, part).Decided? <==> AnyDecides(trees, search, part)
  {
    if search != [] {
      var front, n := search[..|search| - 1], |search| - 1;
      SearchPartExact(trees, front, part);
      forall i ensures DecidedAt(trees, search, part, i) <==>
                         DecidedAt(trees, front, part, i) || (i == n && SearchPart(trees, front, part).Undecided? && Decides(HitAt(trees, search[n], part)))
      {
        DecidedStep(trees, search, part, i);
      }
      if SearchPart(trees, front, part).Undecided? && Decides(HitAt(trees, search[n], part)) { assert DecidedAt(trees, search, part, n); }
    }
  }

  lemma {:induction false} DecidedStep(trees: map<string, Tree>, search: seq<Place>, part: string, i: int)
    requires search != []
    requires SearchPart(trees, search[..|search| - 1], part).Decided? <==> AnyDecides(trees, search[..|search| - 1], part)
    ensures var n := |search| - 1;
            DecidedAt(trees, search, part, i) <==>
              DecidedAt(trees, search[..n], part, i) || (i == n && SearchPart(trees, search[..n], part).Undecided? && Decides(HitAt(trees, search[n], part)))
  {
    var front, n := search[..|search| - 1], |search| - 1;
    if i < n {
      assert 0 <= i ==> front[i] == search[i];
    } else if i == n && DecidedAt(trees, search, part, n) {
      forall k ensures !DecidedAt(trees, front, part, k) {
        if 0 <= k < n { assert front[k] == search[k]; }
      }
    } else if i == n && SearchPart(trees, front, part).Undecided? {
      forall j | 0 <= j < n ensures !Decides(HitAt(trees, search[j], part)) {
        if Decides(HitAt(trees, front[j], part)) { FirstDecided(trees, front, part, j); }
      }
    }
  }

  lemma {:induction false} FirstDecided(trees: map<string, Tree>, search: seq<Place>, part: string, j: nat)
    requires j < |search| && Decides(HitAt(trees, search[j], part))
    ensures AnyDecides(trees, search, part)
  {
    if i :| 0 <= i < j && Decides(HitAt(trees, search[i], part)) {
      FirstDecided(trees, search, part, i);
    } else {
      assert DecidedAt(trees, search, part, j);
    }
  }
}
