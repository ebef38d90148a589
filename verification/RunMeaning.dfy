/** What a clean run is, spelled out on the artifacts that the shards left. */
module RunMeaning {
  import opened Records
  import opened Sorting
  import opened ShardReports

  // -- one shard's artifact

  ghost predicate Expected(run: Run, i: nat) {
    1 <= i <= run.of && Shard(i, run.of) in run.present
  }

  ghost function Left(run: Run, i: nat): Artifact
    requires Expected(run, i)
  {
    run.present[Shard(i, run.of)]
  }

  /** Nothing is missing, everything parses, the meta file is this shard's, and the listing had no load error. */
  ghost predicate Intact(run: Run, i: nat) {
    && Expected(run, i) && Left(run, i).lacking == [] && Left(run, i).loadErrors == 0
    && Left(run, i).listing.Some? && Left(run, i).report.Some?
    && Left(run, i).meta == Some(Meta(Number(i), Number(run.of), Text(run.sha)))
  }

  /** The file is named on the shard's own list. */
  ghost predicate OnList(run: Run, i: nat, f: string) {
    Expected(run, i) && f != "" && f in Left(run, i).testList
  }

  /** The `k`-th testcase of shard `i`'s report is the test `t`. */
  ghost predicate RanAt(run: Run, i: nat, k: nat, t: Identity) {
    && Expected(run, i) && Left(run, i).report.Some? && k < |Left(run, i).report.value.cases|
    && Left(run, i).report.value.cases[k].identity == t
  }

  // -- the whole run

  ghost predicate AllIntact(run: Run) {
    && (forall i: nat :: 1 <= i <= run.of ==> Intact(run, i))
    && (forall k :: k in run.present ==> exists i: nat :: 1 <= i <= run.of && k == Shard(i, run.of))
  }

  /** Every shard listed these tests, in whatever order, each once. */
  ghost predicate AllListed(run: Run, tests: seq<Identity>) {
    && (forall a, b :: 0 <= a < b < |tests| ==> tests[a] != tests[b])
    && (forall i: nat :: Intact(run, i) ==> multiset(Left(run, i).listing.value) == multiset(tests))
  }

  /** Every listed file is on exactly one shard's list, and no other file is on any. */
  ghost predicate FilesShared(run: Run) {
    && (forall f :: f in run.files ==> exists i: nat :: OnList(run, i, f))
    && (forall i: nat, f :: OnList(run, i, f) ==> f in run.files)
    && (forall i: nat, j: nat, f :: OnList(run, i, f) && OnList(run, j, f) ==> i == j)
  }

  /** The shard's report counts itself correctly and holds only tests of the shard's files, none of which failed. */
  ghost predicate ReportRight(run: Run, i: nat)
    requires Intact(run, i)
  {
    var report := Left(run, i).report.value;
    && report.counter == Some(|report.cases|)
    && forall k :: 0 <= k < |report.cases| ==> report.cases[k].outcome != Failure && OnList(run, i, report.cases[k].identity.file)
  }

  /** Each test was run in one place and no other; nothing else was run. */
  ghost predicate RanOnce(run: Run, tests: seq<Identity>) {
    && (forall t :: t in tests ==> exists i: nat, k: nat :: RanAt(run, i, k, t))
    && (forall t, i: nat, k: nat :: RanAt(run, i, k, t) ==> t in tests)
    && (forall t, i: nat, k: nat, j: nat, l: nat :: RanAt(run, i, k, t) && RanAt(run, j, l, t) ==> i == j && k == l)
  }

  ghost predicate RunRight(run: Run, tests: seq<Identity>) {
    && AllIntact(run) && AllListed(run, tests) && (run.files != [] ==> tests != []) && FilesShared(run)
    && (forall i: nat :: Intact(run, i) ==> ReportRight(run, i)) && RanOnce(run, tests)
  }

  // -- counting

  ghost predicate CaseAt(cases: seq<Case>, k: nat, t: Identity) {
    k < |cases| && cases[k].identity == t
  }

  lemma {:induction false} CountCases(cases: seq<Case>, t: Identity)
    ensures Identities(cases)[t] > 0 <==> exists k: nat :: CaseAt(cases, k, t)
    ensures Identities(cases)[t] <= 1 <==> forall k: nat, l: nat :: CaseAt(cases, k, t) && CaseAt(cases, l, t) ==> k == l
  {
    if cases != [] {
      var n := |cases| - 1;
      CountCases(cases[..n], t);
      assert Identities(cases)[t] == Identities(cases[..n])[t] + if cases[n].identity == t then 1 else 0;
      forall k: nat ensures CaseAt(cases, k, t) <==> CaseAt(cases[..n], k, t) || (k == n && cases[n].identity == t) {}
      if cases[n].identity == t { assert CaseAt(cases, n, t); }
    }
  }

  ghost predicate RanIn(run: Run, i: nat, k: nat, t: Identity) {
    Read(run, i) && CaseAt(ReportOf(run, i).cases, k, t)
  }

  ghost predicate Somewhere(run: Run, n: nat, t: Identity) {
    exists i: nat, k: nat :: i <= n && RanIn(run, i, k, t)
  }

  ghost predicate OnePlace(run: Run, n: nat, t: Identity) {
    forall i: nat, k: nat, j: nat, l: nat :: i <= n && j <= n && RanIn(run, i, k, t) && RanIn(run, j, l, t) ==> i == j && k == l
  }

  lemma {:induction false} CountRan(run: Run, n: nat, t: Identity)
    ensures Ran(run, n)[t] > 0 <==> Somewhere(run, n, t)
    ensures Ran(run, n)[t] <= 1 <==> OnePlace(run, n, t)
  {
    if n > 0 {
      CountRan(run, n - 1, t);
      if Read(run, n) { OneMoreShard(run, n, t); } else { UnreadShard(run, n, t); }
    }
  }

  lemma {:induction false} UnreadShard(run: Run, n: nat, t: Identity)
    requires n > 0 && !Read(run, n)
    ensures Somewhere(run, n, t) <==> Somewhere(run, n - 1, t)
    ensures OnePlace(run, n, t) <==> OnePlace(run, n - 1, t)
  {
    forall i: nat, k: nat | i <= n && RanIn(run, i, k, t) ensures i <= n - 1 {}
  }

  lemma {:induction false} OneMoreShard(run: Run, n: nat, t: Identity)
    requires n > 0 && Read(run, n)
    requires Ran(run, n - 1)[t] > 0 <==> Somewhere(run, n - 1, t)
    requires Ran(run, n - 1)[t] <= 1 <==> OnePlace(run, n - 1, t)
    ensures Ran(run, n)[t] > 0 <==> Somewhere(run, n, t)
    ensures Ran(run, n)[t] <= 1 <==> OnePlace(run, n, t)
  {
    var cases := ReportOf(run, n).cases;
    CountCases(cases, t);
    forall k: nat ensures RanIn(run, n, k, t) <==> CaseAt(cases, k, t) {}
    if Ran(run, n)[t] > 1 && Ran(run, n - 1)[t] == 1 {
      var i: nat, k: nat :| i <= n - 1 && RanIn(run, i, k, t);
      var l: nat :| CaseAt(cases, l, t);
      assert RanIn(run, n, l, t);
    }
  }

  // -- the two forms agree

  lemma {:induction false} IntactIs(run: Run)
    ensures ArtifactsOk(run) <==> AllIntact(run)
  {
    forall i: nat | 1 <= i <= run.of ensures OwnArtifact(run, i) <==> Intact(run, i) {}
    if ArtifactsOk(run) {
      forall k | k in run.present ensures exists i: nat :: 1 <= i <= run.of && k == Shard(i, run.of) {
        assert k == Shard(k.i, run.of);
      }
    }
  }

  lemma {:induction false} ReadIs(run: Run, i: nat)
    requires AllIntact(run)
    ensures Read(run, i) <==> Intact(run, i)
    ensures Read(run, i) <==> Expected(run, i)
    ensures Read(run, i) ==> forall f :: f in ListOf(run, i) <==> OnList(run, i, f)
  {
  }

  lemma {:induction false} ListedIs(run: Run, tests: seq<Identity>)
    requires AllIntact(run)
    ensures OneListing(run, tests) <==> AllListed(run, tests)
  {
    forall i: nat ensures Read(run, i) <==> Intact(run, i) { ReadIs(run, i); }
  }

  lemma {:induction false} SharedIs(run: Run)
    requires AllIntact(run)
    ensures Partition(run) <==> FilesShared(run)
  {
    forall i: nat, f ensures (Read(run, i) && f in ListOf(run, i)) <==> OnList(run, i, f) { ReadIs(run, i); }
  }

  lemma {:induction false} ReportIs(run: Run, i: nat)
    requires AllIntact(run) && Read(run, i)
    ensures Intact(run, i)
    ensures ReportRight(run, i) <==>
            && (forall c :: c in ReportOf(run, i).cases ==> c.identity.file in ListOf(run, i))
            && ReportOf(run, i).counter == Some(|ReportOf(run, i).cases|)
            && (forall c :: c in ReportOf(run, i).cases ==> c.outcome != Failure)
  {
    ReadIs(run, i);
  }

  lemma {:induction false} ReportsAre(run: Run)
    requires AllIntact(run)
    ensures OwnFilesOnly(run) && CountersTrue(run) && NoneFailed(run) <==> forall i: nat :: Intact(run, i) ==> ReportRight(run, i)
  {
    forall i: nat ensures Read(run, i) <==> Intact(run, i) { ReadIs(run, i); }
    forall i: nat | Read(run, i)
      ensures ReportRight(run, i) <==>
              && (forall c :: c in ReportOf(run, i).cases ==> c.identity.file in ListOf(run, i))
              && ReportOf(run, i).counter == Some(|ReportOf(run, i).cases|)
              && (forall c :: c in ReportOf(run, i).cases ==> c.outcome != Failure)
    {
      ReportIs(run, i);
    }
  }

  ghost predicate Distinct(tests: seq<Identity>) {
    forall a, b :: 0 <= a < b < |tests| ==> tests[a] != tests[b]
  }

  lemma {:induction false} CountsOne(tests: seq<Identity>, t: Identity)
    requires Distinct(tests)
    ensures multiset(tests)[t] == if t in tests then 1 else 0
  {
    if tests != [] {
      var n := |tests| - 1;
      assert tests == tests[..n] + [tests[n]];
      CountsOne(tests[..n], t);
    }
  }

  lemma {:induction false} OnceIs(run: Run, tests: seq<Identity>)
    requires AllIntact(run) && Distinct(tests)
    ensures ExactlyOnce(run, tests) <==> RanOnce(run, tests)
  {
    forall t ensures multiset(tests)[t] == if t in tests then 1 else 0 { CountsOne(tests, t); }
    forall t, i: nat, k: nat ensures RanIn(run, i, k, t) <==> RanAt(run, i, k, t) { ReadIs(run, i); }
    forall t ensures (Ran(run, run.of)[t] > 0 <==> Somewhere(run, run.of, t)) && (Ran(run, run.of)[t] <= 1 <==> OnePlace(run, run.of, t)) {
      CountRan(run, run.of, t);
    }
    if ExactlyOnce(run, tests) { OnceHolds(run, tests); }
    if RanOnce(run, tests) {
      forall t ensures Ran(run, run.of)[t] == multiset(tests)[t] { OnceCounts(run, tests, t); }
    }
  }

  lemma {:induction false} OnceHolds(run: Run, tests: seq<Identity>)
    requires (forall t :: t in tests <==> Somewhere(run, run.of, t)) && forall t :: OnePlace(run, run.of, t)
    requires forall t, i: nat, k: nat :: RanIn(run, i, k, t) <==> RanAt(run, i, k, t)
    ensures RanOnce(run, tests)
  {
    forall t, i: nat, k: nat | RanAt(run, i, k, t) ensures i <= run.of && RanIn(run, i, k, t) {}
    forall t, i: nat, k: nat, j: nat, l: nat | RanAt(run, i, k, t) && RanAt(run, j, l, t) ensures i == j && k == l {
      assert RanIn(run, i, k, t) && RanIn(run, j, l, t) && OnePlace(run, run.of, t);
    }
  }

  lemma {:induction false} OnceCounts(run: Run, tests: seq<Identity>, t: Identity)
    requires RanOnce(run, tests)
    requires forall i: nat, k: nat :: RanIn(run, i, k, t) <==> RanAt(run, i, k, t)
    ensures (t in tests <==> Somewhere(run, run.of, t)) && OnePlace(run, run.of, t)
  {
  }

  /** A run is clean exactly when its artifacts say so in these words. */
  lemma {:induction false} CleanMeans(run: Run, tests: seq<Identity>)
    ensures Clean(run, tests) <==> RunRight(run, tests)
  {
    IntactIs(run);
    if AllIntact(run) {
      ListedIs(run, tests);
      SharedIs(run);
      ReportsAre(run);
      if Distinct(tests) { OnceIs(run, tests); }
    }
  }
}
