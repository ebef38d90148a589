/** What a resolved module name means: where each file came from, and what more roots or a shorter name change. */
module ResolutionTheorems {
  import opened Records
  import opened Text
  import opened Sorting
  import opened ImportRoots
  import opened ModuleResolver

  // -- the search places of each part

  /** Where part `k` is looked up, if resolution gets that far. */
  function SearchAt(r: Resolver, parts: seq<string>, k: nat): Option<seq<Place>>
    requires k <= |parts|
  {
    if k == 0 then Some(r.roots)
    else
      var before := SearchAt(r, parts, k - 1);
      if before.None? || (k > 1 && before.value == []) then None
      else Next(r, parts, k - 1, before.value)
  }

  function Next(r: Resolver, parts: seq<string>, k: nat, search: seq<Place>): Option<seq<Place>>
    requires k < |parts|
  {
    match SearchPart(r.trees, search, parts[k])
    case Decided(hit) => if hit.Package? || hit.Module? then Some(Inside(hit)) else None
    case Undecided(portions) => if Declared(r.declaredModules, parts, k).Some? || portions == [] then None else Some(portions)
  }

  /** File `f` is what the first deciding place of part `k` holds, under the name up to that part. */
  ghost predicate BoundAt(r: Resolver, parts: seq<string>, k: nat, f: Resolved)
    requires k < |parts|
  {
    && SearchAt(r, parts, k).Some?
    && exists i :: DecidedAt(r.trees, SearchAt(r, parts, k).value, parts[k], i) && HoldsFile(r, parts, k, i, f)
  }

  ghost predicate HoldsFile(r: Resolver, parts: seq<string>, k: nat, i: int, f: Resolved)
    requires k < |parts| && SearchAt(r, parts, k).Some?
  {
    && 0 <= i < |SearchAt(r, parts, k).value|
    && var hit := HitAt(r.trees, SearchAt(r, parts, k).value[i], parts[k]);
       (hit.Package? || hit.Module?) && f == FileOf(hit, Join(parts[..k + 1], '.'))
  }

  ghost predicate BoundFrom(r: Resolver, parts: seq<string>, index: nat, f: Resolved) {
    exists k :: index <= k < |parts| && BoundAt(r, parts, k, f)
  }

  lemma {:induction false} BoundHere(r: Resolver, parts: seq<string>, index: nat, hit: Hit)
    requires index < |parts| && SearchAt(r, parts, index).Some?
    requires SearchPart(r.trees, SearchAt(r, parts, index).value, parts[index]) == Decided(hit) && (hit.Package? || hit.Module?)
    ensures BoundAt(r, parts, index, FileOf(hit, Join(parts[..index + 1], '.')))
  {
    var search := SearchAt(r, parts, index).value;
    SearchPartExact(r.trees, search, parts[index]);
    var i :| DecidedAt(r.trees, search, parts[index], i);
    assert HoldsFile(r, parts, index, i, FileOf(hit, Join(parts[..index + 1], '.')));
  }

  lemma {:induction false} FilesBoundFrom(r: Resolver, parts: seq<string>, index: nat, search: seq<Place>)
    requires index <= |parts| && SearchAt(r, parts, index) == Some(search)
    ensures Resolve(r, parts, index, search).Binds? ==>
              forall f :: f in Resolve(r, parts, index, search).files ==> BoundFrom(r, parts, index, f)
    decreases |parts| - index
  {
    if index < |parts| && !(index > 0 && search == []) {
      match SearchPart(r.trees, search, parts[index])
      case Decided(hit) =>
        if hit.Package? || hit.Module? {
          BoundHere(r, parts, index, hit);
          FilesBoundFrom(r, parts, index + 1, Inside(hit));
        }
      case Undecided(portions) =>
        if Declared(r.declaredModules, parts, index).None? && portions != [] { FilesBoundFrom(r, parts, index + 1, portions); }
    }
  }

  /** Every bound file is held by the first place, among those searched for its part, that decides: a package before
      a module there, and nothing irregular there or earlier. */
  lemma {:induction false} FilesComeFirst(r: Resolver, name: string, f: Resolved)
    requires ResolveName(r, name).Binds? && f in ResolveName(r, name).files
    ensures exists k :: 0 <= k < |PartsOf(name)| && BoundAt(r, PartsOf(name), k, f)
  {
    FilesBoundFrom(r, PartsOf(name), 0, r.roots);
  }

  /** A part that binds no file: no place decides it, no declared name covers it, and its portions, in order, are
      where the next part is searched. */
  ghost predicate Spans(r: Resolver, parts: seq<string>, k: nat)
    requires k < |parts|
  {
    && SearchAt(r, parts, k).Some?
    && !AnyDecides(r.trees, SearchAt(r, parts, k).value, parts[k])
    && (forall end :: k < end <= |parts| ==> !Covers(r.declaredModules, parts, end))
    && SearchAt(r, parts, k + 1) == Some(Portions(r.trees, SearchAt(r, parts, k).value, parts[k]))
  }

  /** Part `k` is supplied by a declared module: no place decides it, and the longest declared name past it is used. */
  ghost predicate SuppliedAt(r: Resolver, parts: seq<string>, k: nat, d: string)
    requires k < |parts|
  {
    && SearchAt(r, parts, k).Some?
    && !AnyDecides(r.trees, SearchAt(r, parts, k).value, parts[k])
    && exists end :: k < end <= |parts| && LongestAt(r, parts, end, d)
  }

  ghost predicate LongestAt(r: Resolver, parts: seq<string>, end: nat, d: string)
    requires end <= |parts|
  {
    && Covers(r.declaredModules, parts, end) && d == Join(parts[..end], '.')
    && forall l :: end < l <= |parts| ==> !Covers(r.declaredModules, parts, l)
  }

  ghost predicate Explained(r: Resolver, parts: seq<string>, k: nat)
    requires k < |parts|
  {
    (exists f :: BoundAt(r, parts, k, f)) || Spans(r, parts, k)
  }

  lemma {:induction false} PartExplained(r: Resolver, parts: seq<string>, k: nat)
    requires k < |parts| && SearchAt(r, parts, k).Some? && Next(r, parts, k, SearchAt(r, parts, k).value).Some?
    requires k == 0 || SearchAt(r, parts, k).value != []
    ensures Explained(r, parts, k)
  {
    var search := SearchAt(r, parts, k).value;
    SearchPartExact(r.trees, search, parts[k]);
    match SearchPart(r.trees, search, parts[k])
    case Decided(hit) => BoundHere(r, parts, k, hit);
    case Undecided(portions) =>
      LongestIsLongest(r.declaredModules, parts, k, |parts|);
      assert Spans(r, parts, k);
  }

  /** Parts `index` to `n` are explained, and part `n`, if any is left, is supplied by the declared module. */
  ghost predicate ExplainedTo(r: Resolver, parts: seq<string>, index: nat, n: nat, d: Option<string>) {
    && index <= n <= |parts| && (forall k :: index <= k < n ==> Explained(r, parts, k))
    && (if d.None? then n == |parts| else n < |parts| && SuppliedAt(r, parts, n, d.value))
  }

  lemma {:induction false} DeclaredSupplies(r: Resolver, parts: seq<string>, index: nat, search: seq<Place>)
    requires index < |parts| && SearchAt(r, parts, index) == Some(search) && SearchPart(r.trees, search, parts[index]).Undecided?
    requires Declared(r.declaredModules, parts, index).Some?
    ensures SuppliedAt(r, parts, index, Declared(r.declaredModules, parts, index).value)
  {
    var d := Declared(r.declaredModules, parts, index).value;
    SearchPartExact(r.trees, search, parts[index]);
    LongestIsLongest(r.declaredModules, parts, index, |parts|);
    var end :| index < end <= |parts| && Covers(r.declaredModules, parts, end) && d == Join(parts[..end], '.')
               && forall l :: end < l <= |parts| ==> !Covers(r.declaredModules, parts, l);
    assert LongestAt(r, parts, end, d);
  }

  lemma {:induction false} PartsExplainedFrom(r: Resolver, parts: seq<string>, index: nat, search: seq<Place>) returns (n: nat)
    requires index <= |parts| && SearchAt(r, parts, index) == Some(search) && Resolve(r, parts, index, search).Binds?
    ensures ExplainedTo(r, parts, index, n, Resolve(r, parts, index, search).declaredModule)
    decreases |parts| - index
  {
    n := index;
    if index < |parts| {
      var next := Next(r, parts, index, search);
      if next.Some? {
        PartExplained(r, parts, index);
        n := PartsExplainedFrom(r, parts, index + 1, next.value);
      } else {
        DecidedHits(r.trees, search, parts[index]);
        DeclaredSupplies(r, parts, index, search);
      }
    }
  }

  /** Each part of a resolved name binds a first file or spans portions, up to the end or to the part a declared module supplies. */
  lemma {:induction false} PartsExplained(r: Resolver, name: string) returns (n: nat)
    requires ResolveName(r, name).Binds?
    ensures ExplainedTo(r, PartsOf(name), 0, n, ResolveName(r, name).declaredModule)
  {
    n := PartsExplainedFrom(r, PartsOf(name), 0, r.roots);
  }

  // -- more roots

  lemma {:induction false} MorePlaces(trees: map<string, Tree>, search: seq<Place>, more: seq<Place>, part: string)
    requires SearchPart(trees, search, part).Decided?
    ensures SearchPart(trees, search + more, part) == SearchPart(trees, search, part)
  {
    assert (search + more)[..|search|] == search;
    DecidedStays(trees, search + more, part, |search|);
  }

  /** If the first part is decided among the roots, appending roots changes nothing. */
  lemma {:induction false} AppendedRootsChangeNothing(r: Resolver, more: seq<Place>, name: string)
    requires Spelled(PartsOf(name)) && AnyDecides(r.trees, r.roots, PartsOf(name)[0])
    ensures ResolveName(r.(roots := r.roots + more), name) == ResolveName(r, name)
  {
    var parts, wider := PartsOf(name), r.(roots := r.roots + more);
    SearchPartExact(r.trees, r.roots, parts[0]);
    MorePlaces(r.trees, r.roots, more, parts[0]);
    DecidedHits(r.trees, r.roots, parts[0]);
    var hit := SearchPart(r.trees, r.roots, parts[0]).hit;
    if !hit.Irregular? { SameBelow(r, wider, parts, 1, Inside(hit)); }
  }

  /** Below the first part the roots no longer matter. */
  lemma {:induction false} SameBelow(r: Resolver, s: Resolver, parts: seq<string>, index: nat, search: seq<Place>)
    requires index <= |parts| && r.trees == s.trees && r.declaredModules == s.declaredModules
    ensures Resolve(r, parts, index, search) == Resolve(s, parts, index, search)
    decreases |parts| - index
  {
    if index < |parts| && !(index > 0 && search == []) {
      match SearchPart(r.trees, search, parts[index])
      case Decided(hit) => if hit.Package? || hit.Module? { SameBelow(r, s, parts, index + 1, Inside(hit)); }
      case Undecided(portions) => SameBelow(r, s, parts, index + 1, portions);
    }
  }

  // -- shorter names

  /** `f` binds under the first `k` parts, for some `k` above `low` and up to `high`. */
  ghost predicate NamedWithin(f: Resolved, parts: seq<string>, low: nat, high: nat) {
    exists k :: low < k <= high && k <= |parts| && f.moduleName == Join(parts[..k], '.')
  }

  /** The first `m` files are those of the first `n` parts. */
  ghost predicate FirstOf(files: seq<Resolved>, m: nat, parts: seq<string>, n: nat) {
    && m <= |files| && n <= |parts|
    && (forall i :: 0 <= i < m ==> NamedWithin(files[i], parts, 0, n))
    && (forall i :: m <= i < |files| ==> NamedWithin(files[i], parts, n, |parts|))
  }

  lemma {:induction false} FirstOfMore(file: Resolved, rest: seq<Resolved>, m: nat, parts: seq<string>, n: nat)
    requires FirstOf(rest, m, parts, n) && NamedWithin(file, parts, 0, n)
    ensures FirstOf([file] + rest, m + 1, parts, n)
  {
    var files := [file] + rest;
    forall i | 0 <= i < |files| ensures if i < m + 1 then NamedWithin(files[i], parts, 0, n) else NamedWithin(files[i], parts, n, |parts|) {
      if i > 0 { assert files[i] == rest[i - 1]; }
    }
  }

  lemma {:induction false} UndeclaredShorter(declared: set<string>, parts: seq<string>, n: nat, unbound: nat)
    requires n <= |parts| && Declared(declared, parts, unbound).None?
    ensures Declared(declared, parts[..n], unbound).None?
  {
    LongestIsLongest(declared, parts, unbound, |parts|);
    LongestIsLongest(declared, parts[..n], unbound, n);
    forall k | unbound < k <= n ensures !Covers(declared, parts[..n], k) {
      assert parts[..n][..k] == parts[..k];
      assert !Covers(declared, parts, k);
    }
  }

  lemma {:induction false} PrefixFrom(r: Resolver, parts: seq<string>, n: nat, index: nat, search: seq<Place>) returns (m: nat)
    requires index <= n <= |parts| && (index > 0 || n > 0)
    requires Resolve(r, parts, index, search).Binds? && Resolve(r, parts, index, search).declaredModule.None?
    ensures m <= |Resolve(r, parts, index, search).files|
    ensures Resolve(r, parts[..n], index, search) == Binds(Resolve(r, parts, index, search).files[..m], None)
    ensures FirstOf(Resolve(r, parts, index, search).files, m, parts, n)
    decreases |parts| - index
  {
    var files := Resolve(r, parts, index, search).files;
    if index == n {
      m := 0;
      LaterFiles(r, parts, index, search);
    } else {
      assert parts[..n][index] == parts[index] && parts[..n][..index + 1] == parts[..index + 1];
      match SearchPart(r.trees, search, parts[index])
      case Decided(hit) =>
        var rest := Resolve(r, parts, index + 1, Inside(hit)).files;
        var m' := PrefixFrom(r, parts, n, index + 1, Inside(hit));
        m := m' + 1;
        var file := FileOf(hit, Join(parts[..index + 1], '.'));
        assert files == [file] + rest;
        assert files[..m] == [file] + rest[..m'];
        assert NamedWithin(file, parts, 0, n);
        FirstOfMore(file, rest, m', parts, n);
      case Undecided(portions) =>
        UndeclaredShorter(r.declaredModules, parts, n, index);
        m := PrefixFrom(r, parts, n, index + 1, portions);
    }
  }

  lemma {:induction false} NamedLater(f: Resolved, parts: seq<string>, low: nat)
    requires NamedWithin(f, parts, low + 1, |parts|)
    ensures NamedWithin(f, parts, low, |parts|)
  {
  }

  /** Files bound from part `index` on have names of more than `index` parts. */
  lemma {:induction false} LaterFiles(r: Resolver, parts: seq<string>, index: nat, search: seq<Place>)
    requires index <= |parts| && Resolve(r, parts, index, search).Binds?
    ensures forall f :: f in Resolve(r, parts, index, search).files ==> NamedWithin(f, parts, index, |parts|)
    decreases |parts| - index
  {
    if index < |parts| && !(index > 0 && search == []) {
      var next := match SearchPart(r.trees, search, parts[index]) case Decided(hit) => (if hit.Package? || hit.Module? then Some(Inside(hit)) else None)
                  case Undecided(portions) => (if Declared(r.declaredModules, parts, index).None? && portions != [] then Some(portions) else None);
      if next.Some? {
        LaterFiles(r, parts, index + 1, next.value);
        forall f | f in Resolve(r, parts, index + 1, next.value).files ensures NamedWithin(f, parts, index, |parts|) { NamedLater(f, parts, index); }
      }
    }
  }

  lemma {:induction false} PartsOfJoin(parts: seq<string>)
    requires Spelled(parts) && Free(parts, '.')
    ensures PartsOf(Join(parts, '.')) == parts
  {
    assert parts[0] in parts;
    if |parts| > 1 { assert Join(parts, '.') != ""; }
    SplitJoin(parts, '.');
  }

  /** A name bound without a declared module binds, for each dotted prefix, exactly the files bound up to it. */
  lemma {:induction false} PrefixConsistent(r: Resolver, name: string, n: nat) returns (m: nat)
    requires 1 <= n <= |PartsOf(name)|
    requires ResolveName(r, name).Binds? && ResolveName(r, name).declaredModule.None?
    ensures m <= |ResolveName(r, name).files|
    ensures ResolveName(r, Join(PartsOf(name)[..n], '.')) == Binds(ResolveName(r, name).files[..m], None)
    ensures FirstOf(ResolveName(r, name).files, m, PartsOf(name), n)
  {
    var parts := PartsOf(name);
    m := PrefixFrom(r, parts, n, 0, r.roots);
    JoinSplit(name, '.');
    var short := parts[..n];
    assert Spelled(short) && Free(short, '.') by {
      assert forall i :: 0 <= i < n ==> short[i] == parts[i] && parts[i] in parts;
    }
    PartsOfJoin(short);
  }
}
