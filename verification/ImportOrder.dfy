/** The import order said on the trees themselves: what each part of a name binds, and where. */
module ImportOrder {
  import opened Records
  import opened Text
  import opened ImportRoots
  import opened ModuleResolver
  import opened ResolutionTheorems

  // -- one place and one part

  /** Where part `part` would lie at place `s`. */
  function BaseAt(s: Place, part: string): string {
    if s.directory == "" then part else s.directory + "/" + part
  }

  /** Nothing irregular at the place under any of the three spellings. */
  ghost predicate Regular(trees: map<string, Tree>, s: Place, part: string)
    requires s.repository in trees
  {
    var t, b := trees[s.repository], BaseAt(s, part);
    b !in t.nonRegular && b + "/__init__.py" !in t.nonRegular && b + ".py" !in t.nonRegular
  }

  /** `path` is the first irregular spelling: the bare path, then the package's file, then the module's. */
  ghost predicate IrregularFirst(trees: map<string, Tree>, s: Place, part: string, path: string)
    requires s.repository in trees
  {
    var t, b := trees[s.repository], BaseAt(s, part);
    && path in t.nonRegular
    && (|| path == b
        || (path == b + "/__init__.py" && b !in t.nonRegular)
        || (path == b + ".py" && b !in t.nonRegular && b + "/__init__.py" !in t.nonRegular))
  }

  /** The place holds neither an irregular entry nor a package nor a module for the part. */
  ghost predicate Passes(trees: map<string, Tree>, s: Place, part: string) {
    s.repository in trees ==>
      && Regular(trees, s, part)
      && BaseAt(s, part) + "/__init__.py" !in trees[s.repository].files && BaseAt(s, part) + ".py" !in trees[s.repository].files
  }

  /** The first place that does not pass. */
  ghost predicate StopsAt(trees: map<string, Tree>, search: seq<Place>, part: string, i: int) {
    0 <= i < |search| && !Passes(trees, search[i], part) && forall j :: 0 <= j < i ==> Passes(trees, search[j], part)
  }

  /** The directories the part names, in search order. */
  function DirectoriesAt(trees: map<string, Tree>, search: seq<Place>, part: string): seq<Place> {
    if search == [] then []
    else
      var s := search[0];
      (if s.repository in trees && BaseAt(s, part) in trees[s.repository].directories then [Place(s.repository, BaseAt(s, part))] else [])
        + DirectoriesAt(trees, search[1..], part)
  }

  // -- the rest of a name

  /** `rest` with one file bound before it. */
  ghost predicate AfterFile(file: Resolved, rest: Resolution, result: Resolution) {
    if rest.Binds? then result == Binds([file] + rest.files, rest.declaredModule) else result == rest
  }

  ghost predicate LongestName(declared: set<string>, parts: seq<string>, k: nat, end: int) {
    && k < end <= |parts| && Join(parts[..end], '.') in declared
    && forall l :: end < l <= |parts| ==> Join(parts[..l], '.') !in declared
  }

  /** What the parts from `k` on bind when looked up in `search`. */
  ghost predicate Imports(r: Resolver, parts: seq<string>, k: nat, search: seq<Place>, result: Resolution)
    requires k <= |parts|
    decreases |parts| - k, 1
  {
    if k == |parts| then result == Binds([], None)
    else if k > 0 && search == [] then result == Nothing
    else if exists i :: StopsAt(r.trees, search, parts[k], i) then
      exists i :: StopsAt(r.trees, search, parts[k], i) && ImportsAt(r, parts, k, search[i], result)
    else if exists end :: LongestName(r.declaredModules, parts, k, end) then
      exists end :: LongestName(r.declaredModules, parts, k, end) && result == Binds([], Some(Join(parts[..end], '.')))
    else if DirectoriesAt(r.trees, search, parts[k]) == [] then result == Nothing
    else Imports(r, parts, k + 1, DirectoriesAt(r.trees, search, parts[k]), result)
  }

  /** What they bind when place `s` stops the search: an irregular entry is refused; a package binds its file and is searched next;
      without one a module binds its file and nothing lies below it. */
  ghost predicate ImportsAt(r: Resolver, parts: seq<string>, k: nat, s: Place, result: Resolution)
    requires k < |parts|
    decreases |parts| - k, 0
  {
    && s.repository in r.trees
    && var t, b, name := r.trees[s.repository], BaseAt(s, parts[k]), Join(parts[..k + 1], '.');
       if !Regular(r.trees, s, parts[k]) then
         exists path :: IrregularFirst(r.trees, s, parts[k], path) && result == Unsupported(s.repository, path, t.nonRegular[path])
       else if b + "/__init__.py" in t.files then
         exists rest :: Imports(r, parts, k + 1, [Place(s.repository, b)], rest)
                        && AfterFile(Resolved(s.repository, b + "/__init__.py", name), rest, result)
       else
         && b + ".py" in t.files
         && exists rest :: Imports(r, parts, k + 1, [], rest) && AfterFile(Resolved(s.repository, b + ".py", name), rest, result)
  }

  // -- the resolver computes it

  lemma {:induction false} HitMeans(trees: map<string, Tree>, s: Place, part: string)
    ensures Decides(HitAt(trees, s, part)) <==> !Passes(trees, s, part)
    ensures s.repository in trees && Passes(trees, s, part) ==>
              (HitAt(trees, s, part) == Portion(Place(s.repository, BaseAt(s, part))) <==> BaseAt(s, part) in trees[s.repository].directories)
    ensures HitAt(trees, s, part).Portion? ==> s.repository in trees && HitAt(trees, s, part) == Portion(Place(s.repository, BaseAt(s, part)))
  {
  }

  lemma {:induction false} StopsMeans(trees: map<string, Tree>, search: seq<Place>, part: string, i: int)
    ensures DecidedAt(trees, search, part, i) <==> StopsAt(trees, search, part, i)
  {
    if 0 <= i < |search| {
      forall j | 0 <= j <= i ensures Decides(HitAt(trees, search[j], part)) <==> !Passes(trees, search[j], part) {
        HitMeans(trees, search[j], part);
      }
    }
  }

  lemma {:induction false} PortionsMean(trees: map<string, Tree>, search: seq<Place>, part: string)
    requires forall s :: s in search ==> Passes(trees, s, part)
    ensures Portions(trees, search, part) == DirectoriesAt(trees, search, part)
  {
    if search != [] {
      var front, last := search[..|search| - 1], search[|search| - 1];
      HitMeans(trees, last, part);
      PortionsMean(trees, front, part);
      DirectoriesBack(trees, search, part);
    }
  }

  lemma {:induction false} DirectoriesBack(trees: map<string, Tree>, search: seq<Place>, part: string)
    requires search != []
    ensures DirectoriesAt(trees, search, part)
         == DirectoriesAt(trees, search[..|search| - 1], part) + DirectoriesAt(trees, search[|search| - 1..], part)
  {
    if |search| > 1 {
      DirectoriesBack(trees, search[1..], part);
      assert search[1..][..|search| - 2] == search[..|search| - 1][1..];
      assert search[1..][|search| - 2..] == search[|search| - 1..];
    }
  }

  lemma {:induction false} ResolveAt(r: Resolver, parts: seq<string>, k: nat, s: Place)
    requires k < |parts| && Decides(HitAt(r.trees, s, parts[k]))
    requires var hit := HitAt(r.trees, s, parts[k]);
             hit.Package? || hit.Module? ==> Imports(r, parts, k + 1, Inside(hit), Resolve(r, parts, k + 1, Inside(hit)))
    ensures var hit := HitAt(r.trees, s, parts[k]);
            ImportsAt(r, parts, k, s, if hit.Irregular? then Unsupported(hit.repository, hit.path, hit.entry)
                                      else Prefixed([FileOf(hit, Join(parts[..k + 1], '.'))], Resolve(r, parts, k + 1, Inside(hit))))
  {
    var hit := HitAt(r.trees, s, parts[k]);
    if hit.Irregular? {
      assert IrregularFirst(r.trees, s, parts[k], hit.path);
    } else {
      var rest := Resolve(r, parts, k + 1, Inside(hit));
      assert AfterFile(FileOf(hit, Join(parts[..k + 1], '.')), rest, Prefixed([FileOf(hit, Join(parts[..k + 1], '.'))], rest));
    }
  }

  lemma {:induction false} ResolveImports(r: Resolver, parts: seq<string>, k: nat, search: seq<Place>)
    requires k <= |parts|
    ensures Imports(r, parts, k, search, Resolve(r, parts, k, search))
    decreases |parts| - k
  {
    if k < |parts| && !(k > 0 && search == []) {
      SearchPartExact(r.trees, search, parts[k]);
      forall i ensures DecidedAt(r.trees, search, parts[k], i) <==> StopsAt(r.trees, search, parts[k], i) {
        StopsMeans(r.trees, search, parts[k], i);
      }
      match SearchPart(r.trees, search, parts[k])
      case Decided(hit) => StoppedImports(r, parts, k, search);
      case Undecided(portions) => PassedImports(r, parts, k, search);
    }
  }

  lemma {:induction false} StoppedImports(r: Resolver, parts: seq<string>, k: nat, search: seq<Place>)
    requires k < |parts| && !(k > 0 && search == []) && SearchPart(r.trees, search, parts[k]).Decided?
    ensures Imports(r, parts, k, search, Resolve(r, parts, k, search))
    decreases |parts| - k, 0
  {
    SearchPartExact(r.trees, search, parts[k]);
    var i :| DecidedAt(r.trees, search, parts[k], i);
    StopsMeans(r.trees, search, parts[k], i);
    var hit := HitAt(r.trees, search[i], parts[k]);
    if !hit.Irregular? { ResolveImports(r, parts, k + 1, Inside(hit)); }
    ResolveAt(r, parts, k, search[i]);
  }

  lemma {:induction false} PassedImports(r: Resolver, parts: seq<string>, k: nat, search: seq<Place>)
    requires k < |parts| && !(k > 0 && search == []) && SearchPart(r.trees, search, parts[k]).Undecided?
    ensures Imports(r, parts, k, search, Resolve(r, parts, k, search))
    decreases |parts| - k, 0
  {
    SearchPartExact(r.trees, search, parts[k]);
    NonePasses(r.trees, search, parts[k]);
    PortionsMean(r.trees, search, parts[k]);
    LongestIsLongest(r.declaredModules, parts, k, |parts|);
    var declared := Declared(r.declaredModules, parts, k);
    if declared.Some? {
      var end :| k < end <= |parts| && Covers(r.declaredModules, parts, end) && declared.value == Join(parts[..end], '.')
                 && forall l :: end < l <= |parts| ==> !Covers(r.declaredModules, parts, l);
      assert LongestName(r.declaredModules, parts, k, end);
    } else {
      forall end ensures !LongestName(r.declaredModules, parts, k, end) {
        if k < end <= |parts| { assert !Covers(r.declaredModules, parts, end); }
      }
      if Portions(r.trees, search, parts[k]) != [] { ResolveImports(r, parts, k + 1, Portions(r.trees, search, parts[k])); }
    }
  }

  lemma {:induction false} NonePasses(trees: map<string, Tree>, search: seq<Place>, part: string)
    requires !AnyDecides(trees, search, part)
    ensures forall s :: s in search ==> Passes(trees, s, part)
    ensures forall i :: !StopsAt(trees, search, part, i)
  {
    forall s | s in search ensures Passes(trees, s, part) {
      var j :| 0 <= j < |search| && search[j] == s;
      HitMeans(trees, s, part);
      if Decides(HitAt(trees, s, part)) { FirstDecided(trees, search, part, j); }
    }
  }

  /** Resolving a name follows the import order on the trees; a name with an empty part binds nothing. */
  lemma {:induction false} NameImports(r: Resolver, name: string)
    ensures var parts := if name == "" then [] else Split(name, '.');
            if parts == [] || "" in parts then ResolveName(r, name) == Nothing
            else Imports(r, parts, 0, r.roots, ResolveName(r, name))
  {
    ResolveImports(r, PartsOf(name), 0, r.roots);
  }

  // -- the order determines the result

  lemma {:induction false} ImportsOnce(r: Resolver, parts: seq<string>, k: nat, search: seq<Place>, a: Resolution, b: Resolution)
    requires k <= |parts| && Imports(r, parts, k, search, a) && Imports(r, parts, k, search, b)
    ensures a == b
    decreases |parts| - k, 1
  {
    if k < |parts| && !(k > 0 && search == []) {
      if exists i :: StopsAt(r.trees, search, parts[k], i) {
        var i :| StopsAt(r.trees, search, parts[k], i) && ImportsAt(r, parts, k, search[i], a);
        var j :| StopsAt(r.trees, search, parts[k], j) && ImportsAt(r, parts, k, search[j], b);
        assert i == j;
        ImportsAtOnce(r, parts, k, search[i], a, b);
      } else if exists end :: LongestName(r.declaredModules, parts, k, end) {
        var e :| LongestName(r.declaredModules, parts, k, e) && a == Binds([], Some(Join(parts[..e], '.')));
        var f :| LongestName(r.declaredModules, parts, k, f) && b == Binds([], Some(Join(parts[..f], '.')));
        assert e == f;
      } else if DirectoriesAt(r.trees, search, parts[k]) != [] {
        ImportsOnce(r, parts, k + 1, DirectoriesAt(r.trees, search, parts[k]), a, b);
      }
    }
  }

  lemma {:induction false} ImportsAtOnce(r: Resolver, parts: seq<string>, k: nat, s: Place, a: Resolution, b: Resolution)
    requires k < |parts| && ImportsAt(r, parts, k, s, a) && ImportsAt(r, parts, k, s, b)
    ensures a == b
    decreases |parts| - k, 0
  {
    var t, base, name := r.trees[s.repository], BaseAt(s, parts[k]), Join(parts[..k + 1], '.');
    if !Regular(r.trees, s, parts[k]) {
    } else if base + "/__init__.py" in t.files {
      var file := Resolved(s.repository, base + "/__init__.py", name);
      var x :| Imports(r, parts, k + 1, [Place(s.repository, base)], x) && AfterFile(file, x, a);
      var y :| Imports(r, parts, k + 1, [Place(s.repository, base)], y) && AfterFile(file, y, b);
      ImportsOnce(r, parts, k + 1, [Place(s.repository, base)], x, y);
    } else {
      var file := Resolved(s.repository, base + ".py", name);
      var x :| Imports(r, parts, k + 1, [], x) && AfterFile(file, x, a);
      var y :| Imports(r, parts, k + 1, [], y) && AfterFile(file, y, b);
      ImportsOnce(r, parts, k + 1, [], x, y);
    }
  }

  // -- single files and refusals

  /** The part is looked up in `search`, and place `i` there is the first that does not pass. */
  ghost predicate StopsPart(r: Resolver, parts: seq<string>, k: nat, search: seq<Place>, i: int)
    requires k < |parts|
  {
    SearchAt(r, parts, k) == Some(search) && StopsAt(r.trees, search, parts[k], i) && search[i].repository in r.trees
  }

  /** The file a place binds for a part: the package's if there is one, else the module's; nothing irregular lies there. */
  ghost predicate BindsThere(r: Resolver, parts: seq<string>, k: nat, s: Place, f: Resolved)
    requires k < |parts| && s.repository in r.trees
  {
    var t, b := r.trees[s.repository], BaseAt(s, parts[k]);
    && Regular(r.trees, s, parts[k]) && f.repository == s.repository && f.moduleName == Join(parts[..k + 1], '.')
    && (if b + "/__init__.py" in t.files then f.path == b + "/__init__.py" else f.path == b + ".py" && b + ".py" in t.files)
  }

  /** Every bound file is the package or the module at the first place its part does not pass: no earlier place holds anything
      irregular, a package or a module for the part. */
  lemma {:induction false} BoundFileMeans(r: Resolver, name: string, f: Resolved) returns (k: nat, search: seq<Place>, i: int)
    requires ResolveName(r, name).Binds? && f in ResolveName(r, name).files
    ensures k < |PartsOf(name)| && StopsPart(r, PartsOf(name), k, search, i) && BindsThere(r, PartsOf(name), k, search[i], f)
  {
    var parts := PartsOf(name);
    FilesComeFirst(r, name, f);
    k :| 0 <= k < |parts| && BoundAt(r, parts, k, f);
    search := SearchAt(r, parts, k).value;
    i :| DecidedAt(r.trees, search, parts[k], i) && HoldsFile(r, parts, k, i, f);
    StopsMeans(r.trees, search, parts[k], i);
  }

  /** The result is the refusal of the first irregular spelling at the first place some part does not pass. */
  ghost predicate RefusedAt(r: Resolver, parts: seq<string>, k: nat, result: Resolution)
    requires k < |parts|
  {
    exists search: seq<Place>, i: int, path: string :: StopsPart(r, parts, k, search, i) && IrregularFirst(r.trees, search[i], parts[k], path)
      && result == Unsupported(search[i].repository, path, r.trees[search[i].repository].nonRegular[path])
  }

  lemma {:induction false} RefusedFrom(r: Resolver, parts: seq<string>, index: nat, search: seq<Place>)
    requires index <= |parts| && SearchAt(r, parts, index) == Some(search) && Resolve(r, parts, index, search).Unsupported?
    ensures exists k :: index <= k < |parts| && RefusedAt(r, parts, k, Resolve(r, parts, index, search))
    decreases |parts| - index
  {
    var next := Next(r, parts, index, search);
    if next.Some? {
      RefusedFrom(r, parts, index + 1, next.value);
    } else {
      SearchPartExact(r.trees, search, parts[index]);
      var i :| DecidedAt(r.trees, search, parts[index], i);
      StopsMeans(r.trees, search, parts[index], i);
      var hit := HitAt(r.trees, search[i], parts[index]);
      assert StopsPart(r, parts, index, search, i) && IrregularFirst(r.trees, search[i], parts[index], hit.path);
      assert RefusedAt(r, parts, index, Resolve(r, parts, index, search));
    }
  }

  /** What a part that is looked up comes to, if it binds nothing, is what the whole name comes to. */
  lemma {:induction false} TailDecides(r: Resolver, parts: seq<string>, k: nat)
    requires k <= |parts| && SearchAt(r, parts, k).Some? && (k == 0 || SearchAt(r, parts, k).value != [])
    requires !Resolve(r, parts, k, SearchAt(r, parts, k).value).Binds?
    ensures Resolve(r, parts, 0, r.roots) == Resolve(r, parts, k, SearchAt(r, parts, k).value)
  {
    if k > 0 { TailDecides(r, parts, k - 1); }
  }

  lemma {:induction false} IrregularStops(r: Resolver, parts: seq<string>, k: nat, search: seq<Place>, i: int, path: string)
    requires k < |parts| && StopsPart(r, parts, k, search, i) && IrregularFirst(r.trees, search[i], parts[k], path)
    ensures Resolve(r, parts, k, search) == Unsupported(search[i].repository, path, r.trees[search[i].repository].nonRegular[path])
  {
    StopsMeans(r.trees, search, parts[k], i);
    SearchPartExact(r.trees, search, parts[k]);
  }

  /** A name is refused exactly when some part, as it is looked up, meets an irregular entry first. */
  lemma {:induction false} RefusedExactly(r: Resolver, name: string, result: Resolution)
    requires result.Unsupported? && Spelled(PartsOf(name))
    ensures ResolveName(r, name) == result <==> exists k :: 0 <= k < |PartsOf(name)| && RefusedAt(r, PartsOf(name), k, result)
  {
    var parts := PartsOf(name);
    if ResolveName(r, name) == result { RefusedFrom(r, parts, 0, r.roots); }
    if k :| 0 <= k < |parts| && RefusedAt(r, parts, k, result) {
      var search: seq<Place>, i: int, path: string :| StopsPart(r, parts, k, search, i) && IrregularFirst(r.trees, search[i], parts[k], path)
        && result == Unsupported(search[i].repository, path, r.trees[search[i].repository].nonRegular[path]);
      IrregularStops(r, parts, k, search, i, path);
      TailDecides(r, parts, k);
    }
  }
}
