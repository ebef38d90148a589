/** Import targets in the one-repository form of the builder: _resolve_module_target and _resolve_declared_prefix of
    p3_source_closure/graph_builder.py. */
module SingleTreeTargets {
  import opened Records
  import opened Text
  import opened Sorting
  import opened ModuleResolver

  /** What the first `k` parts of a name bind: the repository's module, else a declared node. */
  function TargetOf(byModule: set<string>, declared: map<string, string>, parts: seq<string>, k: nat): Option<string>
    requires k <= |parts|
  {
    var prefix := Join(parts[..k], '.');
    if prefix in byModule then Some(prefix)
    else if prefix in declared then Some(declared[prefix])
    else None
  }

  /** The target is the node of the longest declared leading name, of at least one part; there is none without one. */
  ghost predicate LongestDeclared(parts: seq<string>, declared: map<string, string>, targets: Option<seq<string>>) {
    if targets.None? then forall k :: 1 <= k <= |parts| ==> Join(parts[..k], '.') !in declared
    else exists k :: 1 <= k <= |parts| && Join(parts[..k], '.') in declared && targets.value == [declared[Join(parts[..k], '.')]]
                     && forall l :: k < l <= |parts| ==> Join(parts[..l], '.') !in declared
  }

  method ResolveDeclaredPrefix(name: string, declared: map<string, string>) returns (targets: Option<seq<string>>)
    ensures LongestDeclared(Split(name, '.'), declared, targets)
  {
    var parts := Split(name, '.');
    var index := |parts|;
    while index > 0
      invariant 0 <= index <= |parts|
      invariant forall l :: index < l <= |parts| ==> Join(parts[..l], '.') !in declared
    {
      var prefix := Join(parts[..index], '.');
      if prefix in declared { return Some([declared[prefix]]); }
      index := index - 1;
    }
    return None;
  }

  /** `t` is the target of a leading name shorter than every one whose target is `u`. */
  ghost predicate Before(byModule: set<string>, declared: map<string, string>, parts: seq<string>, t: string, u: string) {
    exists k :: 1 <= k <= |parts| && TargetOf(byModule, declared, parts, k) == Some(t)
                && forall l :: 1 <= l <= k ==> TargetOf(byModule, declared, parts, l) != Some(u)
  }

  /** `found` lists the targets of the leading names `at`, from the shortest, and leaves out none up to `n` parts. */
  ghost predicate Listed(byModule: set<string>, declared: map<string, string>, parts: seq<string>, n: nat, found: seq<string>, at: seq<nat>) {
    && |found| == |at| && n <= |parts|
    && (forall a :: 0 <= a < |at| ==> 1 <= at[a] <= n && TargetOf(byModule, declared, parts, at[a]) == Some(found[a]))
    && (forall a, b :: 0 <= a < b < |at| ==> at[a] < at[b])
    && (forall k :: 1 <= k <= n && TargetOf(byModule, declared, parts, k).Some? ==> k in at)
  }

  lemma {:induction false} ListedStep(byModule: set<string>, declared: map<string, string>, parts: seq<string>, n: nat, found: seq<string>, at: seq<nat>)
    requires n < |parts| && Listed(byModule, declared, parts, n, found, at)
    ensures var t := TargetOf(byModule, declared, parts, n + 1);
            if t.Some? then Listed(byModule, declared, parts, n + 1, found + [t.value], at + [n + 1])
            else Listed(byModule, declared, parts, n + 1, found, at)
  {
  }

  /** `dict.fromkeys` keeps the order of first occurrences. */
  lemma {:induction false} DedupOrder(s: seq<string>, i: nat, j: nat)
    requires i < j < |Dedup(s)|
    ensures exists a :: 0 <= a < |s| && s[a] == Dedup(s)[i] && forall b :: 0 <= b <= a ==> s[b] != Dedup(s)[j]
  {
    var front := s[..|s| - 1];
    var r := Dedup(front);
    if j < |r| {
      DedupOrder(front, i, j);
      var a :| 0 <= a < |front| && front[a] == r[i] && forall b :: 0 <= b <= a ==> front[b] != r[j];
      assert s[a] == r[i] && forall b :: 0 <= b <= a ==> s[b] == front[b];
    } else {
      assert r[i] in r;
      var a :| 0 <= a < |front| && front[a] == r[i];
      forall b | 0 <= b <= a ensures s[b] != Dedup(s)[j] { assert front[b] in r; }
      assert s[a] == r[i];
    }
  }

  lemma {:induction false} ListedOrder(byModule: set<string>, declared: map<string, string>, parts: seq<string>, found: seq<string>, at: seq<nat>)
    requires Listed(byModule, declared, parts, |parts|, found, at)
    ensures var v := Dedup(found); forall i, j :: 0 <= i < j < |v| ==> Before(byModule, declared, parts, v[i], v[j])
  {
    var v := Dedup(found);
    forall i, j | 0 <= i < j < |v| ensures Before(byModule, declared, parts, v[i], v[j]) {
      DedupOrder(found, i, j);
      var a :| 0 <= a < |found| && found[a] == v[i] && forall b :: 0 <= b <= a ==> found[b] != v[j];
      forall l | 1 <= l <= at[a] ensures TargetOf(byModule, declared, parts, l) != Some(v[j]) {
        if TargetOf(byModule, declared, parts, l).Some? {
          var b :| 0 <= b < |at| && at[b] == l;
          assert b <= a && found[b] != v[j];
        }
      }
    }
  }

  lemma {:induction false} ListedAll(byModule: set<string>, declared: map<string, string>, parts: seq<string>, found: seq<string>, at: seq<nat>)
    requires Listed(byModule, declared, parts, |parts|, found, at)
    ensures forall t :: t in found <==> exists k :: 1 <= k <= |parts| && TargetOf(byModule, declared, parts, k) == Some(t)
  {
    forall t | t in found ensures exists k :: 1 <= k <= |parts| && TargetOf(byModule, declared, parts, k) == Some(t) {
      var a :| 0 <= a < |found| && found[a] == t;
      assert TargetOf(byModule, declared, parts, at[a]) == Some(t);
    }
    forall t, k | 1 <= k <= |parts| && TargetOf(byModule, declared, parts, k) == Some(t) ensures t in found {
      var a :| 0 <= a < |at| && at[a] == k;
      assert found[a] == t;
    }
  }

  /** Each leading name's target once, outermost first. */
  ghost predicate AllTargets(byModule: set<string>, declared: map<string, string>, parts: seq<string>, targets: seq<string>) {
    && NoDuplicates(targets)
    && (forall t :: t in targets <==> exists k :: 1 <= k <= |parts| && TargetOf(byModule, declared, parts, k) == Some(t))
    && (forall i, j :: 0 <= i < j < |targets| ==> Before(byModule, declared, parts, targets[i], targets[j]))
  }

  lemma {:induction false} ListedGives(byModule: set<string>, declared: map<string, string>, parts: seq<string>, found: seq<string>, at: seq<nat>)
    requires Listed(byModule, declared, parts, |parts|, found, at)
    ensures AllTargets(byModule, declared, parts, Dedup(found))
  {
    ListedAll(byModule, declared, parts, found, at);
    ListedOrder(byModule, declared, parts, found, at);
  }

  method LeadingTargets(byModule: set<string>, declared: map<string, string>, parts: seq<string>) returns (targets: seq<string>)
    ensures AllTargets(byModule, declared, parts, targets)
  {
    var found: seq<string> := [];
    ghost var at: seq<nat> := [];
    for n := 0 to |parts|
      invariant Listed(byModule, declared, parts, n, found, at)
    {
      ListedStep(byModule, declared, parts, n, found, at);
      var target := TargetOf(byModule, declared, parts, n + 1);
      if target.Some? { found, at := found + [target.value], at + [n + 1]; }
    }
    ListedGives(byModule, declared, parts, found, at);
    targets := Dedup(found);
  }

  /** A repository module's import reaches, once each and outermost first, the targets of all its leading names, itself among
      them; any other name is left to the declared modules. */
  method ResolveModuleTarget(name: string, byModule: set<string>, declared: map<string, string>) returns (targets: Option<seq<string>>)
    ensures name == "" ==> targets.None?
    ensures name != "" && name in byModule ==>
              targets.Some? && name in targets.value && AllTargets(byModule, declared, Split(name, '.'), targets.value)
    ensures name != "" && name !in byModule ==> LongestDeclared(Split(name, '.'), declared, targets)
  {
    if name == "" { return None; }
    var parts := Split(name, '.');
    if name in byModule {
      var all := LeadingTargets(byModule, declared, parts);
      JoinSplit(name, '.');
      assert parts[..|parts|] == parts;
      assert TargetOf(byModule, declared, parts, |parts|) == Some(name);
      return Some(all);
    }
    targets := ResolveDeclaredPrefix(name, declared);
  }
}
