/** The name of a file, on the letters of its path and the order of the roots. */
module FileNames {
  import opened Records
  import opened Text
  import opened ImportRoots
  import opened ModuleResolver
  import opened ModuleNames

  /** `name` is `base` with a dot for every slash. */
  ghost predicate DotsFor(base: string, name: string) {
    |name| == |base| && forall i :: 0 <= i < |base| ==> name[i] == if base[i] == '/' then '.' else base[i]
  }

  ghost predicate HasTail(path: string, base: string, tail: string) {
    path == base + tail
  }

  /** `rest`, a path below a root, is a package's or a module's file and spells `name`. */
  ghost predicate Spells(rest: string, name: string) {
    && rest != "__init__.py"
    && if exists base :: HasTail(rest, base, "/__init__.py") then exists base :: HasTail(rest, base, "/__init__.py") && DotsFor(base, name)
       else exists base :: HasTail(rest, base, ".py") && DotsFor(base, name)
  }

  ghost predicate LiesUnder(root: Place, rest: string, path: string) {
    if root.directory == "" then path == rest else path == root.directory + "/" + rest
  }

  /** Importing `name` ends at the file, by files alone. */
  ghost predicate EndsAt(r: Resolver, name: string, repository: string, path: string) {
    var resolution := ResolveName(r, name);
    && resolution.Binds? && resolution.declaredModule == None && |resolution.files| > 0
    && var last := resolution.files[|resolution.files| - 1]; last.repository == repository && last.path == path
  }

  ghost predicate GivesName(r: Resolver, root: Place, repository: string, path: string, name: string) {
    root.repository == repository && EndsAt(r, name, repository, path) && exists rest :: LiesUnder(root, rest, path) && Spells(rest, name)
  }

  lemma {:induction false} TailMeans(path: string, tail: string)
    ensures EndsWith(path, tail) <==> exists base :: HasTail(path, base, tail)
    ensures EndsWith(path, tail) ==> forall base :: HasTail(path, base, tail) <==> base == path[..|path| - |tail|]
  {
    if EndsWith(path, tail) { assert HasTail(path, path[..|path| - |tail|], tail); }
  }

  lemma {:induction false} SpellsMeans(rest: string, name: string)
    ensures Spells(rest, name) <==> ModuleFromPath(rest).Named? && ModuleFromPath(rest).name == name
  {
    TailMeans(rest, "/__init__.py");
    TailMeans(rest, ".py");
    if base :| HasTail(rest, base, "/__init__.py") { assert HasTail(rest, base + "/__init__", ".py"); }
  }

  lemma {:induction false} UnderMeans(root: Place, path: string)
    ensures Relative(root.directory, path).Some? <==> exists rest :: LiesUnder(root, rest, path)
    ensures forall rest :: LiesUnder(root, rest, path) <==> Relative(root.directory, path) == Some(rest)
  {
    forall rest ensures LiesUnder(root, rest, path) <==> Relative(root.directory, path) == Some(rest) {
      if Relative(root.directory, path) == Some(rest) && root.directory != "" { assert path == root.directory + "/" + rest; }
    }
    var rest := Relative(root.directory, path);
    if rest.Some? { assert LiesUnder(root, rest.value, path); }
  }

  /** The name one root gives a file. */
  lemma {:induction false} NameMeans(r: Resolver, root: Place, repository: string, path: string, name: string)
    ensures NameUnder(r, root, repository, path) == Some(name) <==> GivesName(r, root, repository, path, name)
  {
    UnderMeans(root, path);
    var rest := Relative(root.directory, path);
    if rest.Some? { SpellsMeans(rest.value, name); }
  }

  /** A file's name is given by the first root that gives it one, and by no root if there is none. */
  lemma {:induction false} FileNameMeans(r: Resolver, repository: string, path: string, i: nat, name: Option<string>)
    requires i <= |r.roots|
    ensures NameForFile(r, repository, path, i) == name <==>
            if name.Some? then FirstGives(r, repository, path, i, name.value)
            else forall j, other :: i <= j < |r.roots| ==> !GivesName(r, r.roots[j], repository, path, other)
    decreases |r.roots| - i
  {
    if i < |r.roots| {
      FileNameMeans(r, repository, path, i + 1, name);
      var given := NameUnder(r, r.roots[i], repository, path);
      forall other ensures given == Some(other) <==> GivesName(r, r.roots[i], repository, path, other) { NameMeans(r, r.roots[i], repository, path, other); }
      assert given.Some? ==> given == Some(given.value);
    }
  }

  ghost predicate FirstGives(r: Resolver, repository: string, path: string, i: nat, name: string) {
    exists k :: i <= k < |r.roots| && GivesName(r, r.roots[k], repository, path, name)
                && forall j, other :: i <= j < k ==> !GivesName(r, r.roots[j], repository, path, other)
  }
}
