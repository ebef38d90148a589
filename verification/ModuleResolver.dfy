/** ModuleRootResolver of p3_source_closure/import_roots.py: the loops refine a recursion over the parts of a name. */
module ModuleResolver {
  import opened Records
  import opened Text
  import opened Sorting
  import opened ImportRoots

  datatype Resolver = Resolver(roots: seq<Place>, trees: map<string, Tree>, declaredModules: set<string>)

  /** What the constructor insists on. */
  predicate Built(r: Resolver) {
    RootsOk(r.roots, r.trees) && r.roots != []
  }

  // -- declared names

  predicate Covers(declared: set<string>, parts: seq<string>, end: nat)
    requires end <= |parts|
  {
    Join(parts[..end], '.') in declared
  }

  function LongestFrom(declared: set<string>, parts: seq<string>, unbound: nat, end: nat): Option<string>
    requires end <= |parts|
  {
    if end <= unbound then None
    else if Covers(declared, parts, end) then Some(Join(parts[..end], '.'))
    else LongestFrom(declared, parts, unbound, end - 1)
  }

  function Declared(declared: set<string>, parts: seq<string>, unbound: nat): Option<string> {
    LongestFrom(declared, parts, unbound, |parts|)
  }

  /** The result is the longest declared leading name that reaches past part `unbound`. */
  lemma {:induction false} LongestIsLongest(declared: set<string>, parts: seq<string>, unbound: nat, end: nat)
    requires end <= |parts|
    ensures var d := LongestFrom(declared, parts, unbound, end);
            if d.None? then forall k :: unbound < k <= end ==> !Covers(declared, parts, k)
            else exists k :: unbound < k <= end && Covers(declared, parts, k) && d.value == Join(parts[..k], '.')
                             && forall l :: k < l <= end ==> !Covers(declared, parts, l)
  {
    if unbound < end {
      if Covers(declared, parts, end) {
        assert LongestFrom(declared, parts, unbound, end).value == Join(parts[..end], '.');
      } else {
        LongestIsLongest(declared, parts, unbound, end - 1);
      }
    }
  }

  /** `_declared_prefix` */
  method DeclaredPrefix(declared: set<string>, parts: seq<string>, unbound: nat) returns (d: Option<string>)
    ensures d == Declared(declared, parts, unbound)
  {
    var end := |parts|;
    while end > unbound
      invariant 0 <= end <= |parts|
      invariant Declared(declared, parts, unbound) == LongestFrom(declared, parts, unbound, end)
    {
      var prefix := Join(parts[..end], '.');
      if prefix in declared { return Some(prefix); }
      end := end - 1;
    }
    return None;
  }

  // -- the recursion over parts

  function Prefixed(files: seq<Resolved>, rest: Resolution): Resolution {
    if rest.Binds? then Binds(files + rest.files, rest.declaredModule) else rest
  }

  function FileOf(hit: Hit, name: string): (f: Resolved)
    requires hit.Package? || hit.Module?
  {
    Resolved(hit.repository, hit.path, name)
  }

  function Inside(hit: Hit): seq<Place>
    requires hit.Package? || hit.Module?
  {
    if hit.Package? then [hit.inside] else []
  }

  /** What the parts from `index` on bind when they are searched in `search`. */
  function Resolve(r: Resolver, parts: seq<string>, index: nat, search: seq<Place>): Resolution
    requires index <= |parts|
    decreases |parts| - index
  {
    if index == |parts| then Binds([], None)
    else if index > 0 && search == [] then Nothing
    else
      match SearchPart(r.trees, search, parts[index])
      case Decided(hit) =>
        if hit.Irregular? then Unsupported(hit.repository, hit.path, hit.entry)
        else if !(hit.Package? || hit.Module?) then Nothing  // a deciding hit is one of the three
        else Prefixed([FileOf(hit, Join(parts[..index + 1], '.'))], Resolve(r, parts, index + 1, Inside(hit)))
      case Undecided(portions) =>
        var declared := Declared(r.declaredModules, parts, index);
        if declared.Some? then Binds([], declared)
        else if portions == [] then Nothing
        else Resolve(r, parts, index + 1, portions)
  }

  function PartsOf(name: string): seq<string> {
    if name == "" then [] else Split(name, '.')
  }

  predicate Spelled(parts: seq<string>) {
    parts != [] && forall p :: p in parts ==> p != ""
  }

  function ResolveName(r: Resolver, name: string): Resolution {
    if Spelled(PartsOf(name)) then Resolve(r, PartsOf(name), 0, r.roots) else Nothing
  }

  // -- the loops

  lemma {:induction false} DecidedStays(trees: map<string, Tree>, search: seq<Place>, part: string, i: nat)
    requires i <= |search| && SearchPart(trees, search[..i], part).Decided?
    ensures SearchPart(trees, search, part) == SearchPart(trees, search[..i], part)
    decreases |search|
  {
    if i == |search| {
      assert search[..i] == search;
    } else {
      assert search[..|search| - 1][..i] == search[..i];
      DecidedStays(trees, search[..|search| - 1], part, i);
    }
  }

  lemma {:induction false} DecidedHits(trees: map<string, Tree>, search: seq<Place>, part: string)
    ensures var s := SearchPart(trees, search, part); s.Decided? ==> Decides(s.hit)
  {
    if search != [] { DecidedHits(trees, search[..|search| - 1], part); }
  }

  /** The inner loop over the search places. */
  method FindPart(trees: map<string, Tree>, search: seq<Place>, part: string) returns (found: Search)
    ensures found == SearchPart(trees, search, part)
    ensures found.Decided? ==> Decides(found.hit)
  {
    var portions: seq<Place> := [];
    for i := 0 to |search|
      invariant SearchPart(trees, search[..i], part) == Undecided(portions)
    {
      var hit := HitAt(trees, search[i], part);
      assert search[..i + 1][..i] == search[..i];
      if Decides(hit) {
        DecidedStays(trees, search, part, i + 1);
        return Decided(hit);
      }
      if hit.Portion? { portions := portions + [hit.place]; }
    }
    assert search[..|search|] == search;
    return Undecided(portions);
  }

  /** `resolve` */
  method ResolveModule(r: Resolver, name: string) returns (resolution: Resolution)
    ensures resolution == ResolveName(r, name)
  {
    var parts := PartsOf(name);
    if !Spelled(parts) { return Nothing; }
    var search, bound: seq<Resolved> := r.roots, [];
    for index := 0 to |parts|
      invariant Resolve(r, parts, 0, r.roots) == Prefixed(bound, Resolve(r, parts, index, search))
    {
      if index > 0 && search == [] { return Nothing; }
      var found := FindPart(r.trees, search, parts[index]);
      match found {
        case Decided(hit) =>
          if hit.Irregular? { return Unsupported(hit.repository, hit.path, hit.entry); }
          var file := FileOf(hit, Join(parts[..index + 1], '.'));
          PrefixedTwice(bound, [file], Resolve(r, parts, index + 1, Inside(hit)));
          bound, search := bound + [file], Inside(hit);
        case Undecided(portions) =>
          var declared := DeclaredPrefix(r.declaredModules, parts, index);
          if declared.Some? { assert bound + [] == bound; return Binds(bound, declared); }
          if portions == [] { return Nothing; }
          search := portions;
      }
    }
    assert bound + [] == bound;
    return Binds(bound, None);
  }

  lemma {:induction false} PrefixedTwice(a: seq<Resolved>, b: seq<Resolved>, rest: Resolution)
    ensures Prefixed(a, Prefixed(b, rest)) == Prefixed(a + b, rest)
  {
    if rest.Binds? { assert a + (b + rest.files) == a + b + rest.files; }
  }
}
