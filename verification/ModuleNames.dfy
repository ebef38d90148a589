/** Where bound files lie, and the names of files: module_from_path and module_name_for_file of
    p3_source_closure/import_roots.py. */
module ModuleNames {
  import opened Records
  import opened Text
  import opened ImportRoots
  import opened ModuleResolver
  import opened ResolutionTheorems

  // -- bound files lie below a root, at the place their name says

  /** The place below `root` that the first `k` parts name. */
  predicate Below(root: Place, parts: seq<string>, k: nat, place: Place)
    requires k <= |parts|
  {
    && place.repository == root.repository
    && place.directory == (if k == 0 then root.directory else PathJoin(root.directory, Join(parts[..k], '/')))
  }

  ghost predicate BelowSome(roots: seq<Place>, parts: seq<string>, k: nat, place: Place)
    requires k <= |parts|
  {
    exists root :: root in roots && Below(root, parts, k, place)
  }

  lemma {:induction false} OneDeeper(root: Place, parts: seq<string>, k: nat, place: Place)
    requires Spelled(parts) && k < |parts| && Below(root, parts, k, place)
    ensures Below(root, parts, k + 1, Place(place.repository, PathJoin(place.directory, parts[k])))
  {
    if k > 0 {
      assert parts[..k + 1] == parts[..k] + [parts[k]];
      JoinConcat(parts[..k], [parts[k]], '/');
      assert parts[..k][0] in parts;
      assert Join(parts[..k], '/') != "";
      var d, j := root.directory, Join(parts[..k], '/');
      if d != "" { assert d + "/" + (j + ['/'] + parts[k]) == (d + "/" + j) + "/" + parts[k]; }
    }
  }

  lemma {:induction false} HitPlaces(trees: map<string, Tree>, place: Place, part: string)
    ensures var hit := HitAt(trees, place, part);
            && (hit.Package? ==> hit.inside == Place(place.repository, PathJoin(place.directory, part)))
            && (hit.Portion? ==> hit.place == Place(place.repository, PathJoin(place.directory, part)))
  {
  }

  lemma {:induction false} DecidedFrom(trees: map<string, Tree>, search: seq<Place>, part: string) returns (s: Place)
    requires SearchPart(trees, search, part).Decided?
    ensures s in search && SearchPart(trees, search, part).hit == HitAt(trees, s, part)
  {
    SearchPartExact(trees, search, part);
    var i :| DecidedAt(trees, search, part, i);
    s := search[i];
  }

  /** A place searched next lies one part below a place searched now. */
  lemma {:induction false} NextFrom(r: Resolver, parts: seq<string>, k: nat, search: seq<Place>, p: Place) returns (s: Place)
    requires k < |parts| && Next(r, parts, k, search).Some? && p in Next(r, parts, k, search).value
    ensures s in search && p == Place(s.repository, PathJoin(s.directory, parts[k]))
  {
    if SearchPart(r.trees, search, parts[k]).Decided? {
      s := DecidedFrom(r.trees, search, parts[k]);
    } else {
      SearchPartExact(r.trees, search, parts[k]);
      s :| s in search && HitAt(r.trees, s, parts[k]) == Portion(p);
    }
    HitPlaces(r.trees, s, parts[k]);
  }

  lemma {:induction false} SomeDeeper(roots: seq<Place>, parts: seq<string>, k: nat, place: Place)
    requires Spelled(parts) && k < |parts| && BelowSome(roots, parts, k, place)
    ensures BelowSome(roots, parts, k + 1, Place(place.repository, PathJoin(place.directory, parts[k])))
  {
    var root :| root in roots && Below(root, parts, k, place);
    OneDeeper(root, parts, k, place);
  }

  lemma {:induction false} NextBelow(r: Resolver, parts: seq<string>, k: nat, search: seq<Place>)
    requires Spelled(parts) && k < |parts|
    requires forall p :: p in search ==> BelowSome(r.roots, parts, k, p)
    requires Next(r, parts, k, search).Some?
    ensures forall p :: p in Next(r, parts, k, search).value ==> BelowSome(r.roots, parts, k + 1, p)
  {
    forall p | p in Next(r, parts, k, search).value ensures BelowSome(r.roots, parts, k + 1, p) {
      var s := NextFrom(r, parts, k, search, p);
      SomeDeeper(r.roots, parts, k, s);
    }
  }

  lemma {:induction false} SearchedBelow(r: Resolver, parts: seq<string>, k: nat)
    requires Spelled(parts) && k <= |parts| && SearchAt(r, parts, k).Some?
    ensures forall p :: p in SearchAt(r, parts, k).value ==> BelowSome(r.roots, parts, k, p)
  {
    if k == 0 {
      forall p | p in r.roots ensures BelowSome(r.roots, parts, 0, p) { assert Below(p, parts, 0, p); }
    } else {
      SearchedBelow(r, parts, k - 1);
      NextBelow(r, parts, k - 1, SearchAt(r, parts, k - 1).value);
    }
  }

  /** The file the first `k` parts name below `root`, as a package or as a module. */
  function PackagePath(root: Place, parts: seq<string>, k: nat): string
    requires 1 <= k <= |parts|
  {
    PathJoin(root.directory, Join(parts[..k], '/')) + "/__init__.py"
  }

  function ModulePath(root: Place, parts: seq<string>, k: nat): string
    requires 1 <= k <= |parts|
  {
    PathJoin(root.directory, Join(parts[..k], '/')) + ".py"
  }

  ghost predicate LiesBelow(r: Resolver, parts: seq<string>, k: nat, root: Place, f: Resolved) {
    && 1 <= k <= |parts| && f.moduleName == Join(parts[..k], '.')
    && root in r.roots && root.repository == f.repository
    && f.repository in r.trees && f.path in r.trees[f.repository].files
    && (f.path == PackagePath(root, parts, k) || f.path == ModulePath(root, parts, k))
  }

  lemma {:induction false} HitLies(r: Resolver, parts: seq<string>, j: nat, root: Place, place: Place, hit: Hit)
    requires Spelled(parts) && j < |parts| && root in r.roots && Below(root, parts, j, place)
    requires hit == HitAt(r.trees, place, parts[j]) && (hit.Package? || hit.Module?)
    ensures LiesBelow(r, parts, j + 1, root, FileOf(hit, Join(parts[..j + 1], '.')))
  {
    OneDeeper(root, parts, j, place);
  }

  /** A bound file exists in its repository's tree and lies below a root, at the path its own name spells; so a
      file below given roots binds under finitely many names. */
  lemma {:induction false} BoundFileLies(r: Resolver, name: string, f: Resolved) returns (k: nat, root: Place)
    requires ResolveName(r, name).Binds? && f in ResolveName(r, name).files
    ensures LiesBelow(r, PartsOf(name), k, root, f)
  {
    var parts := PartsOf(name);
    FilesComeFirst(r, name, f);
    var j :| 0 <= j < |parts| && BoundAt(r, parts, j, f);
    k, root := BoundAtLies(r, parts, j, f);
  }

  lemma {:induction false} BoundAtLies(r: Resolver, parts: seq<string>, j: nat, f: Resolved) returns (k: nat, root: Place)
    requires Spelled(parts) && j < |parts| && BoundAt(r, parts, j, f)
    ensures LiesBelow(r, parts, k, root, f)
  {
    var search := SearchAt(r, parts, j).value;
    var i :| DecidedAt(r.trees, search, parts[j], i) && HoldsFile(r, parts, j, i, f);
    SearchedBelow(r, parts, j);
    assert search[i] in search;
    root :| root in r.roots && Below(root, parts, j, search[i]);
    HitLies(r, parts, j, root, search[i], HitAt(r.trees, search[i], parts[j]));
    k := j + 1;
  }

  // -- the name of a file

  function Dotted(s: string): (r: string)
    ensures |r| == |s|
  {
    seq(|s|, i requires 0 <= i < |s| => if s[i] == '/' then '.' else s[i])
  }

  const PACKAGE_FILE := "__init__.py"
  const PACKAGE_SUFFIX := "/__init__.py"

  datatype FileName = Unnamed | Named(name: string, package: string)

  /** `name.rpartition(".")[0]` */
  function Parent(name: string): string {
    var parts := Split(name, '.');
    Join(parts[..|parts| - 1], '.')
  }

  /** `module_from_path` */
  function ModuleFromPath(path: string): FileName {
    if !EndsWith(path, ".py") || path == PACKAGE_FILE then Unnamed
    else if EndsWith(path, PACKAGE_SUFFIX) then
      var name := Dotted(path[..|path| - |PACKAGE_SUFFIX|]);
      Named(name, name)
    else
      var name := Dotted(path[..|path| - 3]);
      Named(name, Parent(name))
  }

  lemma {:induction false} DottedJoin(parts: seq<string>)
    requires parts != [] && Free(parts, '/')
    ensures Dotted(Join(parts, '/')) == Join(parts, '.')
  {
    if |parts| == 1 {
      DottedPiece(parts[0]);
    } else {
      DottedJoin(parts[1..]);
      DottedPiece(parts[0]);
      var rest := Join(parts[1..], '/');
      assert Dotted(parts[0] + ['/'] + rest) == Dotted(parts[0]) + ['.'] + Dotted(rest);
    }
  }

  lemma {:induction false} DottedPiece(s: string)
    requires '/' !in s
    ensures Dotted(s) == s
  {
    assert forall i :: 0 <= i < |s| ==> s[i] in s;
  }

  /** A name read from a path holds no slash. */
  lemma {:induction false} NamesHaveNoSlash(path: string)
    ensures ModuleFromPath(path).Named? ==> '/' !in ModuleFromPath(path).name
  {
  }

  lemma {:induction false} SlashKept(parts: seq<string>)
    requires !Free(parts, '/')
    ensures '/' in Join(parts, '.')
  {
    if |parts| > 1 && '/' !in parts[0] {
      var i :| 0 <= i < |parts| && '/' in parts[i];
      assert parts[1..][i - 1] == parts[i];
      SlashKept(parts[1..]);
    }
  }

  /** A package's file is named by its directory, exactly if no part of the name holds a slash. */
  lemma {:induction false} PackageFileName(parts: seq<string>)
    requires parts != []
    ensures ModuleFromPath(Join(parts, '/') + PACKAGE_SUFFIX) == Named(Join(parts, '.'), Join(parts, '.')) <==> Free(parts, '/')
  {
    if Free(parts, '/') {
      PlainPackageName(parts);
    } else {
      SlashKept(parts);
      NamesHaveNoSlash(Join(parts, '/') + PACKAGE_SUFFIX);
    }
  }

  lemma {:induction false} PlainPackageName(parts: seq<string>)
    requires parts != [] && Free(parts, '/')
    ensures ModuleFromPath(Join(parts, '/') + PACKAGE_SUFFIX) == Named(Join(parts, '.'), Join(parts, '.'))
  {
    var base := Join(parts, '/');
    var path := base + PACKAGE_SUFFIX;
    assert path[..|path| - |PACKAGE_SUFFIX|] == base;
    assert path[|path| - |PACKAGE_SUFFIX|..] == PACKAGE_SUFFIX;
    assert PACKAGE_SUFFIX[|PACKAGE_SUFFIX| - 3..] == ".py";
    assert path[|path| - 3..] == ".py";
    assert |path| > |PACKAGE_FILE|;
    DottedJoin(parts);
  }

  const PACKAGE_STEM := "__init__"

  lemma {:induction false} PackageSpelling()
    ensures PACKAGE_FILE == PACKAGE_STEM + ".py" && PACKAGE_SUFFIX == "/" + PACKAGE_FILE && '/' !in PACKAGE_STEM
  {
  }

  lemma {:induction false} SuffixOf(base: string)
    ensures EndsWith(base + ".py", PACKAGE_SUFFIX) <==> EndsWith(base, "/" + PACKAGE_STEM)
  {
    PackageSpelling();
    var path, n := base + ".py", |base|;
    if |"/" + PACKAGE_STEM| <= n {
      var tail := base[n - 9..];
      assert path[|path| - 12..] == tail + ".py";
      assert PACKAGE_SUFFIX == ("/" + PACKAGE_STEM) + ".py";
      assert tail + ".py" == ("/" + PACKAGE_STEM) + ".py" <==> tail == "/" + PACKAGE_STEM by {
        assert (tail + ".py")[..9] == tail && (("/" + PACKAGE_STEM) + ".py")[..9] == "/" + PACKAGE_STEM;
      }
    }
  }

  lemma {:induction false} StemLast(parts: seq<string>)
    requires parts != [] && Free(parts, '/') && EndsWith(Join(parts, '/'), "/" + PACKAGE_STEM)
    ensures |parts| > 1 && parts[|parts| - 1] == PACKAGE_STEM
  {
    var base := Join(parts, '/');
    var front := base[..|base| - 9];
    assert base == front + ['/'] + PACKAGE_STEM;
    PackageSpelling();
    SplitJoin(parts, '/');
    SplitPiece(PACKAGE_STEM, '/');
    SplitConcat(front, PACKAGE_STEM, '/');
  }

  lemma {:induction false} LastStem(parts: seq<string>)
    requires |parts| > 1 && parts[|parts| - 1] == PACKAGE_STEM
    ensures EndsWith(Join(parts, '/'), "/" + PACKAGE_STEM)
  {
    var front, base := parts[..|parts| - 1], Join(parts, '/');
    assert parts == front + [PACKAGE_STEM];
    JoinConcat(front, [PACKAGE_STEM], '/');
    assert base == Join(front, '/') + ("/" + PACKAGE_STEM);
    assert base[|base| - 9..] == "/" + PACKAGE_STEM;
  }

  lemma {:induction false} OnlyStem(parts: seq<string>)
    requires parts != [] && Free(parts, '/') && Join(parts, '/') == PACKAGE_STEM
    ensures parts == [PACKAGE_STEM]
  {
    PackageSpelling();
    SplitJoin(parts, '/');
    SplitPiece(PACKAGE_STEM, '/');
  }

  /** A joined path ends in `/__init__` exactly when that is its last part of several. */
  lemma {:induction false} LastPart(parts: seq<string>)
    requires parts != [] && Free(parts, '/')
    ensures EndsWith(Join(parts, '/'), "/" + PACKAGE_STEM) <==> |parts| > 1 && parts[|parts| - 1] == PACKAGE_STEM
    ensures Join(parts, '/') == PACKAGE_STEM <==> parts == [PACKAGE_STEM]
  {
    if EndsWith(Join(parts, '/'), "/" + PACKAGE_STEM) { StemLast(parts); }
    if |parts| > 1 && parts[|parts| - 1] == PACKAGE_STEM { LastStem(parts); }
    if Join(parts, '/') == PACKAGE_STEM { OnlyStem(parts); }
  }

  lemma {:induction false} PlainModuleName(parts: seq<string>)
    requires parts != [] && Free(parts, '/')
    ensures var n := ModuleFromPath(Join(parts, '/') + ".py");
            n == Named(Join(parts, '.'), Parent(Join(parts, '.'))) <==> parts[|parts| - 1] != PACKAGE_STEM
  {
    var base := Join(parts, '/');
    var path := base + ".py";
    assert path[..|path| - 3] == base && path[|path| - 3..] == ".py";
    SuffixOf(base);
    LastPart(parts);
    DottedJoin(parts);
    PackageSpelling();
    assert path == PACKAGE_FILE <==> base == PACKAGE_STEM by { assert PACKAGE_FILE[..|PACKAGE_FILE| - 3] == PACKAGE_STEM; }
  }

  /** A module's file is named by its path, exactly if no part of the name holds a slash and its own part is not `__init__`. */
  lemma {:induction false} ModuleFileName(parts: seq<string>)
    requires parts != []
    ensures ModuleFromPath(Join(parts, '/') + ".py") == Named(Join(parts, '.'), Parent(Join(parts, '.'))) <==>
            Free(parts, '/') && parts[|parts| - 1] != PACKAGE_STEM
  {
    if Free(parts, '/') {
      PlainModuleName(parts);
    } else {
      SlashKept(parts);
      NamesHaveNoSlash(Join(parts, '/') + ".py");
    }
  }

  /** The path of a file below a root, read back as a name, is the name it binds as: for a package's file exactly when no part
      of that name holds a slash, for a module's when moreover its last part is not `__init__`. */
  lemma {:induction false} BoundFileName(r: Resolver, name: string, f: Resolved) returns (k: nat, root: Place)
    requires ResolveName(r, name).Binds? && f in ResolveName(r, name).files
    ensures LiesBelow(r, PartsOf(name), k, root, f)
    ensures f.path == PackagePath(root, PartsOf(name), k) ==>
              (ModuleFromPath(Join(PartsOf(name)[..k], '/') + PACKAGE_SUFFIX) == Named(f.moduleName, f.moduleName)
               <==> Free(PartsOf(name)[..k], '/'))
    ensures f.path == ModulePath(root, PartsOf(name), k) ==>
              (ModuleFromPath(Join(PartsOf(name)[..k], '/') + ".py") == Named(f.moduleName, Parent(f.moduleName))
               <==> Free(PartsOf(name)[..k], '/') && PartsOf(name)[k - 1] != PACKAGE_STEM)
  {
    k, root := BoundFileLies(r, name, f);
    var parts := PartsOf(name)[..k];
    assert parts != [] && parts[|parts| - 1] == PartsOf(name)[k - 1];
    PackageFileName(parts);
    ModuleFileName(parts);
  }

  // -- module_name_for_file

  /** The path below a root, if the root holds it. */
  function Relative(directory: string, path: string): Option<string> {
    if directory == "" then Some(path)
    else if StartsWith(path, directory + "/") then Some(path[|directory| + 1..])
    else None
  }

  predicate BindsLast(resolution: Resolution, repository: string, path: string) {
    && resolution.Binds? && resolution.declaredModule.None? && resolution.files != []
    && resolution.files[|resolution.files| - 1].repository == repository && resolution.files[|resolution.files| - 1].path == path
  }

  /** The name one root gives a file, if resolving that name ends at the file. */
  function NameUnder(r: Resolver, root: Place, repository: string, path: string): Option<string> {
    if root.repository != repository then None
    else
      var relative := Relative(root.directory, path);
      if relative.None? then None
      else
        var name := ModuleFromPath(relative.value);
        if name.Named? && BindsLast(ResolveName(r, name.name), repository, path) then Some(name.name) else None
  }

  /** The name the roots from `i` on give a file: the first one found. */
  function NameForFile(r: Resolver, repository: string, path: string, i: nat): (name: Option<string>)
    requires i <= |r.roots|
    decreases |r.roots| - i
  {
    if i == |r.roots| then None
    else
      var name := NameUnder(r, r.roots[i], repository, path);
      if name.Some? then name else NameForFile(r, repository, path, i + 1)
  }

  /** `module_name_for_file`: the first root's name whose resolution ends at this file; none only if no root gives one. */
  method ModuleNameForFile(r: Resolver, repository: string, path: string) returns (name: Option<string>)
    ensures name == NameForFile(r, repository, path, 0)
    ensures name.Some? ==> BindsLast(ResolveName(r, name.value), repository, path)
    ensures name.Some? ==> exists i :: 0 <= i < |r.roots| && NameUnder(r, r.roots[i], repository, path) == name
                                       && forall j :: 0 <= j < i ==> NameUnder(r, r.roots[j], repository, path).None?
    ensures name.None? ==> forall j :: 0 <= j < |r.roots| ==> NameUnder(r, r.roots[j], repository, path).None?
  {
    for i := 0 to |r.roots|
      invariant forall j :: 0 <= j < i ==> NameUnder(r, r.roots[j], repository, path).None?
      invariant NameForFile(r, repository, path, 0) == NameForFile(r, repository, path, i)
    {
      var root := r.roots[i];
      if root.repository != repository { continue; }
      var relative := Relative(root.directory, path);
      if relative.None? { continue; }
      var named := ModuleFromPath(relative.value);
      if named.Unnamed? { continue; }
      var resolution := ResolveModule(r, named.name);
      if BindsLast(resolution, repository, path) { return Some(named.name); }
    }
    return None;
  }
}
