/** Reachability along a step relation, the specification every worklist of the project is proved against. */
module Reachability {

  ghost predicate IsPath<T>(next: (T, T) -> bool, path: seq<T>) {
    path != [] && forall i :: 0 <= i < |path| - 1 ==> next(path[i], path[i + 1])
  }

  ghost predicate PathTo<T>(next: (T, T) -> bool, seeds: set<T>, path: seq<T>, x: T) {
    IsPath(next, path) && path[0] in seeds && path[|path| - 1] == x
  }

  ghost predicate Reachable<T(!new)>(next: (T, T) -> bool, seeds: set<T>, x: T) {
    exists path: seq<T> :: PathTo(next, seeds, path, x)
  }

  lemma {:induction false} SeedReachable<T(!new)>(next: (T, T) -> bool, seeds: set<T>, x: T)
    requires x in seeds
    ensures Reachable(next, seeds, x)
  {
    assert PathTo(next, seeds, [x], x);
  }

  lemma {:induction false} StepReachable<T(!new)>(next: (T, T) -> bool, seeds: set<T>, x: T, y: T)
    requires Reachable(next, seeds, x) && next(x, y)
    ensures Reachable(next, seeds, y)
  {
    var path :| PathTo(next, seeds, path, x);
    assert PathTo(next, seeds, path + [y], y);
  }

  /** A set that holds the seeds and is closed under steps holds everything reachable. */
  lemma {:induction false} ClosedHolds<T(!new)>(next: (T, T) -> bool, seeds: set<T>, closed: set<T>, x: T)
    requires seeds <= closed && forall y, z :: y in closed && next(y, z) ==> z in closed
    requires Reachable(next, seeds, x)
    ensures x in closed
  {
    var path :| PathTo(next, seeds, path, x);
    PathStaysIn(next, closed, path, |path| - 1);
  }

  lemma {:induction false} PathStaysIn<T(!new)>(next: (T, T) -> bool, closed: set<T>, path: seq<T>, i: nat)
    requires IsPath(next, path) && path[0] in closed && i < |path|
    requires forall y, z :: y in closed && next(y, z) ==> z in closed
    ensures path[i] in closed
  {
    if i > 0 {
      PathStaysIn(next, closed, path, i - 1);
      assert next(path[i - 1], path[i - 1 + 1]);
    }
  }

  lemma {:induction false} ReachableFromReachable<T(!new)>(next: (T, T) -> bool, seeds: set<T>, roots: set<T>, x: T)
    requires (forall y :: y in seeds ==> Reachable(next, roots, y)) && Reachable(next, seeds, x)
    ensures Reachable(next, roots, x)
  {
    var path :| PathTo(next, seeds, path, x);
    PathReachable(next, roots, path, |path| - 1);
  }

  lemma {:induction false} PathReachable<T(!new)>(next: (T, T) -> bool, roots: set<T>, path: seq<T>, i: nat)
    requires IsPath(next, path) && Reachable(next, roots, path[0]) && i < |path|
    ensures Reachable(next, roots, path[i])
  {
    if i > 0 {
      PathReachable(next, roots, path, i - 1);
      assert next(path[i - 1], path[i - 1 + 1]);
      StepReachable(next, roots, path[i - 1], path[i]);
    }
  }

  /** More steps reach more. */
  lemma {:induction false} MoreSteps<T(!new)>(next: (T, T) -> bool, more: (T, T) -> bool, seeds: set<T>, x: T)
    requires (forall y, z :: next(y, z) ==> more(y, z)) && Reachable(next, seeds, x)
    ensures Reachable(more, seeds, x)
  {
    var path :| PathTo(next, seeds, path, x);
    assert PathTo(more, seeds, path, x);
  }
}
