/** `check` of scripts/e2e_shards.py: its loops, and that they report no problem exactly for a clean run. */
module ShardCheck {
  import opened Records
  import opened Sorting
  import opened ShardReports

  datatype Problem =
    | NoNeeds | JobNotSuccess(job: string)
    | UnexpectedArtifact(key: Key) | ClaimedTwice(claim: Claim)
    | MissingArtifact(i: nat) | MissingFiles(i: nat) | MetaUnreadable(i: nat) | MetaMismatch(i: nat) | MetaCommit(i: nat)
    | ListingUnreadable(i: nat) | LoadErrors(i: nat) | ReportUnreadable(i: nat)
    | ListingDiffers(i: nat) | ListedTwice | NothingListed
    | OnSeveralLists(file: string) | OnNoList(file: string) | OffList(file: string)
    | RanOutside(i: nat) | CounterWrong(i: nat) | NeverRan | RanUnlisted | RanTwice | CountsDiffer | TestsFailed

  // -- the jobs

  method CheckJobs(run: Run) returns (problems: seq<Problem>)
    ensures problems == [] <==> JobsOk(run)
  {
    problems := if run.needs == map[] then [NoNeeds] else [];
    var rest := run.needs.Keys;
    while rest != {}
      invariant rest <= run.needs.Keys
      invariant problems == [] <==> run.needs != map[] && forall job :: job in run.needs.Keys - rest ==> run.needs[job]
      decreases |rest|
    {
      var job :| job in rest;
      ghost var left := rest;
      rest := rest - {job};
      assert run.needs.Keys - rest == run.needs.Keys - left + {job};
      if !run.needs[job] { problems := problems + [JobNotSuccess(job)]; }
    }
  }

  // -- the artifacts

  predicate IsExpected(run: Run, k: Key) {
    k.Shard? && 1 <= k.i <= run.of && k.of == run.of
  }

  method CheckUnexpected(run: Run) returns (problems: seq<Problem>)
    ensures problems == [] <==> forall k :: k in run.present ==> IsExpected(run, k)
  {
    problems := [];
    var rest := run.present.Keys;
    while rest != {}
      invariant rest <= run.present.Keys
      invariant problems == [] <==> forall k :: k in run.present.Keys - rest ==> IsExpected(run, k)
      decreases |rest|
    {
      var k :| k in rest;
      ghost var left := rest;
      rest := rest - {k};
      assert run.present.Keys - rest == run.present.Keys - left + {k};
      if !IsExpected(run, k) { problems := problems + [UnexpectedArtifact(k)]; }
    }
  }

  function ClaimOf(a: Artifact): Claim {
    if a.meta.Some? then a.meta.value.shard else NoClaim
  }

  predicate SameClaim(run: Run, j: Key, k: Key) {
    j in run.present && k in run.present && j != k && ClaimOf(run.present[j]) == ClaimOf(run.present[k]) && ClaimOf(run.present[j]) != NoClaim
  }

  ghost predicate ClaimsApart(run: Run) {
    forall j, k :: !SameClaim(run, j, k)
  }

  method CheckClaims(run: Run) returns (problems: seq<Problem>)
    ensures problems == [] <==> ClaimsApart(run)
  {
    problems := [];
    var rest := run.present.Keys;
    while rest != {}
      invariant rest <= run.present.Keys
      invariant problems == [] <==> forall j, k :: j in run.present.Keys - rest ==> !SameClaim(run, j, k)
      decreases |rest|
    {
      var j :| j in rest;
      ghost var left := rest;
      rest := rest - {j};
      assert run.present.Keys - rest == run.present.Keys - left + {j};
      if exists k :: k in run.present && SameClaim(run, j, k) { problems := problems + [ClaimedTwice(ClaimOf(run.present[j]))]; }
      assert (exists k :: SameClaim(run, j, k)) <==> exists k :: k in run.present && SameClaim(run, j, k);
    }
  }

  /** What is wrong with one shard's artifact; the first thing that keeps it from being read ends its examination. */
  function ArtifactProblems(run: Run, i: nat): seq<Problem> {
    if Shard(i, run.of) !in run.present then [MissingArtifact(i)]
    else
      var a := run.present[Shard(i, run.of)];
      if a.lacking != [] then [MissingFiles(i)]
      else if a.meta.None? then [MetaUnreadable(i)]
      else
        var meta := a.meta.value;
        (if meta.shard != Number(i) || meta.shards != Number(run.of) then [MetaMismatch(i)] else [])
        + (if meta.sha != Text(run.sha) then [MetaCommit(i)] else [])
        + (if a.listing.None? then [ListingUnreadable(i)]
           else (if a.loadErrors != 0 then [LoadErrors(i)] else []) + (if a.report.None? then [ReportUnreadable(i)] else []))
  }

  lemma {:induction false} NoArtifactProblem(run: Run, i: nat)
    requires 1 <= i <= run.of
    ensures ArtifactProblems(run, i) == [] <==> OwnArtifact(run, i)
  {
  }

  method CheckArtifacts(run: Run) returns (problems: seq<Problem>)
    ensures problems == [] <==> ArtifactsOk(run)
  {
    var unexpected := CheckUnexpected(run);
    var claims := CheckClaims(run);
    problems := unexpected + claims;
    for i := 1 to run.of + 1
      invariant problems == [] <==> (forall k :: k in run.present ==> IsExpected(run, k)) && ClaimsApart(run)
                                    && forall j :: 1 <= j < i ==> OwnArtifact(run, j)
    {
      NoArtifactProblem(run, i);
      problems := problems + ArtifactProblems(run, i);
    }
    if ArtifactsOk(run) { OwnClaims(run); }
  }

  /** Artifacts with their own meta claim different shards. */
  lemma {:induction false} OwnClaims(run: Run)
    requires ArtifactsOk(run)
    ensures ClaimsApart(run)
  {
    forall j, k ensures !SameClaim(run, j, k) {
      if j in run.present && k in run.present {
        assert OwnArtifact(run, j.i) && OwnArtifact(run, k.i);
      }
    }
  }

  // -- the listings

  /** The first shard whose artifact was read, or none. */
  function First(run: Run, i: nat): (r: Option<nat>)
    ensures r.Some? ==> i <= r.value && Read(run, r.value) && forall j :: i <= j < r.value ==> !Read(run, j)
    ensures r.None? ==> forall j :: i <= j ==> !Read(run, j)
    decreases run.of + 1 - i
  {
    if i > run.of then None else if Read(run, i) then Some(i) else First(run, i + 1)
  }

  /** The listing all others are compared with. */
  function Tests(run: Run): seq<Identity> {
    var first := First(run, 1);
    if first.Some? then ListingOf(run, first.value) else []
  }

  predicate AnyRead(run: Run) {
    First(run, 1).Some?
  }

  method CheckListings(run: Run) returns (problems: seq<Problem>)
    ensures problems == [] <==> OneListing(run, Tests(run)) && (run.files != [] && AnyRead(run) ==> Tests(run) != [])
  {
    problems := [];
    var tests := Tests(run);
    for i := 1 to run.of + 1
      invariant problems == [] <==> forall j :: 1 <= j < i && Read(run, j) ==> multiset(ListingOf(run, j)) == multiset(tests)
    {
      if Read(run, i) && multiset(ListingOf(run, i)) != multiset(tests) { problems := problems + [ListingDiffers(i)]; }
    }
    assert problems == [] <==> forall j :: Read(run, j) ==> multiset(ListingOf(run, j)) == multiset(tests);
    if !NoDuplicates(tests) { problems := problems + [ListedTwice]; }
    if run.files != [] && AnyRead(run) && tests == [] { problems := problems + [NothingListed]; }
  }

  // -- the file lists

  /** The shards, of the first `n`, whose list holds the file. */
  function Owners(run: Run, n: nat, f: string): (r: seq<nat>)
    ensures forall i :: i in r <==> 1 <= i <= n && Read(run, i) && f in ListOf(run, i)
    ensures NoDuplicates(r)
  {
    if n == 0 then []
    else Owners(run, n - 1, f) + (if Read(run, n) && f in ListOf(run, n) then [n] else [])
  }

  ghost predicate OwnedBy(owners: map<string, seq<nat>>, run: Run, n: nat) {
    && (forall f :: f in owners ==> owners[f] == Owners(run, n, f) != [])
    && (forall f :: f !in owners ==> Owners(run, n, f) == [])
  }

  /** `owners` with `i` added to the owners of each file. */
  ghost predicate AddedTo(owners: map<string, seq<nat>>, files: seq<string>, i: nat, owners': map<string, seq<nat>>) {
    && owners'.Keys == owners.Keys + (set f | f in files)
    && (forall f :: f in owners' ==> owners'[f] == (if f in owners then owners[f] else []) + (if f in files then [i] else []))
  }

  lemma {:induction false} AddOne(owners: map<string, seq<nat>>, files: seq<string>, i: nat, owners': map<string, seq<nat>>, file: string)
    requires AddedTo(owners, files, i, owners') && file !in files
    ensures AddedTo(owners, files + [file], i, owners'[file := (if file in owners' then owners'[file] else []) + [i]])
  {
    assert forall f :: f in files + [file] <==> f in files || f == file;
  }

  method AddOwner(owners: map<string, seq<nat>>, files: seq<string>, i: nat) returns (owners': map<string, seq<nat>>)
    requires NoDuplicates(files)
    ensures AddedTo(owners, files, i, owners')
  {
    owners' := owners;
    for k := 0 to |files|
      invariant AddedTo(owners, files[..k], i, owners')
    {
      var file := files[k];
      assert files[..k + 1] == files[..k] + [file];
      AddOne(owners, files[..k], i, owners', file);
      owners' := owners'[file := (if file in owners' then owners'[file] else []) + [i]];
    }
    assert files[..|files|] == files;
  }

  lemma {:induction false} OwnedByOneMore(owners: map<string, seq<nat>>, run: Run, i: nat, owners': map<string, seq<nat>>)
    requires i > 0 && OwnedBy(owners, run, i - 1)
    requires if Read(run, i) then AddedTo(owners, ListOf(run, i), i, owners') else owners' == owners
    ensures OwnedBy(owners', run, i)
  {
    forall f ensures (f in owners' ==> owners'[f] == Owners(run, i, f) != []) && (f !in owners' ==> Owners(run, i, f) == []) {
      assert Owners(run, i, f) == Owners(run, i - 1, f) + (if Read(run, i) && f in ListOf(run, i) then [i] else []);
    }
  }

  method FindOwners(run: Run) returns (owners: map<string, seq<nat>>)
    ensures OwnedBy(owners, run, run.of)
  {
    owners := map[];
    for i := 1 to run.of + 1
      invariant OwnedBy(owners, run, i - 1)
    {
      ghost var before := owners;
      if Read(run, i) { owners := AddOwner(owners, ListOf(run, i), i); }
      OwnedByOneMore(before, run, i, owners);
    }
  }

  ghost predicate ListsApart(run: Run) {
    forall f :: |Owners(run, run.of, f)| <= 1
  }

  ghost predicate OnListOnly(run: Run) {
    forall f :: Owners(run, run.of, f) != [] ==> f in run.files
  }

  ghost predicate AllOnLists(run: Run) {
    forall f :: f in run.files ==> Owners(run, run.of, f) != []
  }

  predicate AllRead(run: Run) {
    forall i :: 1 <= i <= run.of ==> Read(run, i)
  }

  method CheckOwners(run: Run, owners: map<string, seq<nat>>) returns (problems: seq<Problem>)
    requires OwnedBy(owners, run, run.of)
    ensures problems == [] <==> ListsApart(run) && OnListOnly(run)
  {
    problems := [];
    var rest := owners.Keys;
    while rest != {}
      invariant rest <= owners.Keys
      invariant problems == [] <==> forall f :: f in owners.Keys - rest ==> |owners[f]| <= 1 && f in run.files
      decreases |rest|
    {
      var f :| f in rest;
      ghost var left := rest;
      rest := rest - {f};
      assert owners.Keys - rest == owners.Keys - left + {f};
      if |owners[f]| > 1 { problems := problems + [OnSeveralLists(f)]; }
      if f !in run.files { problems := problems + [OffList(f)]; }
    }
  }

  method CheckFiles(run: Run) returns (problems: seq<Problem>)
    ensures problems == [] <==> ListsApart(run) && OnListOnly(run) && (AllRead(run) ==> AllOnLists(run))
  {
    var owners := FindOwners(run);
    problems := CheckOwners(run, owners);
    if AllRead(run) {
      var missing := FilesWithout(run, owners);
      problems := problems + missing;
    }
  }

  method FilesWithout(run: Run, owners: map<string, seq<nat>>) returns (problems: seq<Problem>)
    requires OwnedBy(owners, run, run.of)
    ensures problems == [] <==> AllOnLists(run)
  {
    problems := [];
    for k := 0 to |run.files|
      invariant problems == [] <==> forall j :: 0 <= j < k ==> run.files[j] in owners
    {
      if run.files[k] !in owners { problems := problems + [OnNoList(run.files[k])]; }
    }
  }

  // -- what ran

  predicate Outside(run: Run, i: nat)
    requires Read(run, i)
  {
    exists c :: c in ReportOf(run, i).cases && c.identity.file !in ListOf(run, i)
  }

  predicate Miscounted(run: Run, i: nat)
    requires Read(run, i)
  {
    ReportOf(run, i).counter != Some(|ReportOf(run, i).cases|)
  }

  method CountCases(cases: seq<Case>, before: multiset<Identity>) returns (ran: multiset<Identity>)
    ensures ran == before + Identities(cases)
  {
    ran := before;
    for k := 0 to |cases|
      invariant ran == before + Identities(cases[..k])
    {
      assert cases[..k + 1][..k] == cases[..k];
      ran := ran + multiset{cases[k].identity};
    }
    assert cases[..|cases|] == cases;
  }

  predicate ReportTrue(run: Run, i: nat) {
    Read(run, i) ==> !Outside(run, i) && !Miscounted(run, i)
  }

  lemma {:induction false} ReportsTrue(run: Run)
    ensures (forall i :: 1 <= i <= run.of ==> ReportTrue(run, i)) <==> OwnFilesOnly(run) && CountersTrue(run)
  {
    if forall i :: 1 <= i <= run.of ==> ReportTrue(run, i) {
      forall i | Read(run, i) ensures !Outside(run, i) && !Miscounted(run, i) { assert ReportTrue(run, i); }
    }
    if OwnFilesOnly(run) && CountersTrue(run) {
      forall i | Read(run, i) ensures !Outside(run, i) && !Miscounted(run, i) {}
    }
  }

  method CheckReport(run: Run, i: nat, before: multiset<Identity>) returns (problems: seq<Problem>, ran: multiset<Identity>)
    requires i > 0
    ensures problems == [] <==> ReportTrue(run, i)
    ensures ran == before + if Read(run, i) then Identities(ReportOf(run, i).cases) else multiset{}
  {
    problems, ran := [], before;
    if Read(run, i) {
      ran := CountCases(ReportOf(run, i).cases, ran);
      if Outside(run, i) { problems := problems + [RanOutside(i)]; }
      if Miscounted(run, i) { problems := problems + [CounterWrong(i)]; }
    }
  }

  /** The reports, one by one: files outside the shard's list, wrong counters, and everything that ran. */
  method CheckReports(run: Run) returns (problems: seq<Problem>, ran: multiset<Identity>)
    ensures problems == [] <==> OwnFilesOnly(run) && CountersTrue(run)
    ensures ran == Ran(run, run.of)
  {
    problems, ran := [], multiset{};
    for i := 1 to run.of + 1
      invariant problems == [] <==> forall j :: 1 <= j < i ==> ReportTrue(run, j)
      invariant ran == Ran(run, i - 1)
    {
      var more;
      more, ran := CheckReport(run, i, ran);
      problems := problems + more;
    }
    ReportsTrue(run);
  }

  /** What the counts of the reports come to, where every report has one. */
  function Counted(run: Run, n: nat): Option<int> {
    if n == 0 then Some(0)
    else
      var before := Counted(run, n - 1);
      if !Read(run, n) then before
      else if before.None? || ReportOf(run, n).counter.None? then None
      else Some(before.value + ReportOf(run, n).counter.value)
  }

  predicate CountsAgree(run: Run) {
    var total := Counted(run, run.of);
    AllRead(run) && AnyRead(run) && total.Some? ==> total.value == |Tests(run)|
  }

  /** Whether the listing ran, each test once: three findings and, if all reports count, a fourth. */
  method CheckRan(run: Run, ran: multiset<Identity>) returns (problems: seq<Problem>)
    requires ran == Ran(run, run.of)
    ensures problems == [] <==> OnceOk(run, ran)
  {
    problems := [];
    var tests := Tests(run);
    if AnyRead(run) {
      if exists t :: t in tests && t !in ran { problems := problems + [NeverRan]; }
      if exists t :: t in ran && t !in tests { problems := problems + [RanUnlisted]; }
    }
    if exists t :: t in ran && ran[t] > 1 { problems := problems + [RanTwice]; }
    var total := SumCounters(run);
    if AllRead(run) && AnyRead(run) && total.Some? && total.value != |tests| { problems := problems + [CountsDiffer]; }
  }

  method SumCounters(run: Run) returns (total: Option<int>)
    ensures total == Counted(run, run.of)
  {
    total := Some(0);
    for i := 1 to run.of + 1
      invariant total == Counted(run, i - 1)
    {
      if Read(run, i) {
        var counter := ReportOf(run, i).counter;
        total := if total.None? || counter.None? then None else Some(total.value + counter.value);
      }
    }
  }

  method CheckFailures(run: Run) returns (problems: seq<Problem>)
    ensures problems == [] <==> NoneFailed(run)
  {
    problems := [];
    for i := 1 to run.of + 1
      invariant problems == [] <==> forall j :: 1 <= j < i && Read(run, j) ==> forall c :: c in ReportOf(run, j).cases ==> c.outcome != Failure
    {
      if Read(run, i) && exists c :: c in ReportOf(run, i).cases && c.outcome == Failure { problems := problems + [TestsFailed]; }
    }
  }

  // -- the whole

  /** `check`: no problem exactly when the jobs succeeded and there was nothing to run, or the run is clean. */
  method Check(run: Run) returns (problems: seq<Problem>)
    ensures problems == [] <==> JobsOk(run) && ((run.files == [] && run.present == map[]) || Clean(run, Tests(run)))
  {
    problems := CheckJobs(run);
    if run.files == [] && run.present == map[] { return; }
    var parts := CheckParts(run);
    CleanExactly(run);
    problems := problems + parts;
  }

  method CheckParts(run: Run) returns (problems: seq<Problem>)
    ensures problems == [] <==> PartsOk(run)
  {
    problems := CheckArtifacts(run);
    var listings := CheckListings(run);
    var files := CheckFiles(run);
    var reports, ran := CheckReports(run);
    var once := CheckRan(run, ran);
    var failures := CheckFailures(run);
    problems := problems + listings + files + reports + once + failures;
  }

  ghost predicate OnceOk(run: Run, ran: multiset<Identity>) {
    && (AnyRead(run) ==> forall t :: t in Tests(run) <==> t in ran)
    && (forall t :: ran[t] <= 1) && CountsAgree(run)
  }

  ghost predicate PartsOk(run: Run) {
    && ArtifactsOk(run)
    && OneListing(run, Tests(run)) && (run.files != [] && AnyRead(run) ==> Tests(run) != [])
    && ListsApart(run) && OnListOnly(run) && (AllRead(run) ==> AllOnLists(run))
    && OwnFilesOnly(run) && CountersTrue(run)
    && OnceOk(run, Ran(run, run.of)) && NoneFailed(run)
  }

  lemma {:induction false} TwoOwners(owners: seq<nat>) returns (i: nat, j: nat)
    requires NoDuplicates(owners) && |owners| > 1
    ensures i in owners && j in owners && i != j
  {
    i, j := owners[0], owners[1];
  }

  lemma {:induction false} PartitionOwns(run: Run)
    requires Partition(run)
    ensures ListsApart(run) && OnListOnly(run) && AllOnLists(run)
  {
    forall f ensures |Owners(run, run.of, f)| <= 1 && (Owners(run, run.of, f) != [] <==> f in run.files) {
      var o := Owners(run, run.of, f);
      if o != [] { assert o[0] in o; }
      if f in run.files {
        var i :| Read(run, i) && f in ListOf(run, i);
        assert i in o;
      }
      if |o| > 1 { var i, j := TwoOwners(o); }
    }
  }

  lemma {:induction false} OwnersPartition(run: Run)
    requires ListsApart(run) && OnListOnly(run) && AllOnLists(run)
    ensures Partition(run)
  {
    forall i, j, f | Read(run, i) && Read(run, j) && f in ListOf(run, i) && f in ListOf(run, j) ensures i == j {
      assert i in Owners(run, run.of, f) && j in Owners(run, run.of, f);
    }
    forall f ensures f in run.files <==> exists i :: Read(run, i) && f in ListOf(run, i) {
      var o := Owners(run, run.of, f);
      if o != [] { assert o[0] in o; }
      if i :| Read(run, i) && f in ListOf(run, i) { assert i in o; }
    }
  }

  lemma {:induction false} CasesCounted(cases: seq<Case>)
    ensures |Identities(cases)| == |cases|
  {
    if cases != [] { CasesCounted(cases[..|cases| - 1]); }
  }

  lemma {:induction false} CountsAddUp(run: Run, n: nat)
    requires CountersTrue(run)
    ensures Counted(run, n) == Some(|Ran(run, n)|)
  {
    if n > 0 {
      CountsAddUp(run, n - 1);
      if Read(run, n) { OneMoreCount(run, n); }
    }
  }

  lemma {:induction false} OneMoreCount(run: Run, n: nat)
    requires n > 0 && Read(run, n) && CountersTrue(run)
    ensures ReportOf(run, n).counter == Some(|ReportOf(run, n).cases|)
    ensures |Ran(run, n)| == |Ran(run, n - 1)| + |ReportOf(run, n).cases|
  {
    var before, here := Ran(run, n - 1), Identities(ReportOf(run, n).cases);
    CasesCounted(ReportOf(run, n).cases);
    assert Ran(run, n) == before + here;
    assert |before + here| == |before| + |here|;
  }

  lemma {:induction false} OnceEach(tests: seq<Identity>, ran: multiset<Identity>)
    requires NoDuplicates(tests)
    ensures ran == multiset(tests) <==> (forall t :: t in tests <==> t in ran) && forall t :: ran[t] <= 1
  {
    DistinctCounts(tests);
    assert forall t :: t in tests <==> t in multiset(tests);
    if (forall t :: t in tests <==> t in ran) && forall t :: ran[t] <= 1 {
      forall t ensures ran[t] == multiset(tests)[t] {}
    }
  }

  /** With artifacts in place, either some shard was read or the files are on no list. */
  lemma {:induction false} SomeRead(run: Run)
    requires ArtifactsOk(run) && !(run.files == [] && run.present == map[])
    ensures AllRead(run) && (AnyRead(run) || !AllOnLists(run))
  {
    forall i | 1 <= i <= run.of ensures Read(run, i) { assert OwnArtifact(run, i); }
    if run.of == 0 {
      assert run.present == map[] by { assert forall k :: k !in run.present; }
      var f := run.files[0];
      assert f in run.files && Owners(run, 0, f) == [];
    } else {
      assert Read(run, 1);
    }
  }

  lemma {:induction false} CountsFollow(run: Run)
    requires CountersTrue(run) && Ran(run, run.of) == multiset(Tests(run))
    ensures CountsAgree(run)
  {
    CountsAddUp(run, run.of);
  }

  lemma {:induction false} PartsClean(run: Run)
    requires PartsOk(run) && !(run.files == [] && run.present == map[])
    ensures Clean(run, Tests(run))
  {
    SomeRead(run);
    OwnersPartition(run);
    OnceEach(Tests(run), Ran(run, run.of));
  }

  lemma {:induction false} CleanParts(run: Run)
    requires Clean(run, Tests(run)) && !(run.files == [] && run.present == map[])
    ensures PartsOk(run)
  {
    SomeRead(run);
    PartitionOwns(run);
    OnceEach(Tests(run), Ran(run, run.of));
    CountsFollow(run);
  }

  lemma {:induction false} CleanExactly(run: Run)
    requires !(run.files == [] && run.present == map[])
    ensures PartsOk(run) <==> Clean(run, Tests(run))
  {
    if PartsOk(run) { PartsClean(run); }
    if Clean(run, Tests(run)) { CleanParts(run); }
  }

  // -- what a clean run means, test by test and file by file

  lemma {:induction false} RanHolds(run: Run, n: nat, i: nat, c: Case)
    requires 1 <= i <= n && Read(run, i) && c in ReportOf(run, i).cases
    ensures c.identity in Ran(run, n)
  {
    if i < n { RanHolds(run, n - 1, i, c); } else { CaseCounted(ReportOf(run, i).cases, c); }
  }

  lemma {:induction false} CaseCounted(cases: seq<Case>, c: Case)
    requires c in cases
    ensures c.identity in Identities(cases)
  {
    var n := |cases| - 1;
    if c != cases[n] {
      assert cases == cases[..n] + [cases[n]];
      CaseCounted(cases[..n], c);
    }
  }

  lemma {:induction false} RanFrom(run: Run, n: nat, t: Identity) returns (i: nat)
    requires t in Ran(run, n)
    ensures 1 <= i <= n && Read(run, i) && t in Identities(ReportOf(run, i).cases)
  {
    if Read(run, n) && t in Identities(ReportOf(run, n).cases) { i := n; } else { i := RanFrom(run, n - 1, t); }
  }

  /** In a clean run every listed file is on exactly one shard's list. */
  lemma {:induction false} FileOnOneShard(run: Run, tests: seq<Identity>, f: string) returns (i: nat)
    requires Clean(run, tests) && f in run.files
    ensures Read(run, i) && f in ListOf(run, i) && forall j :: Read(run, j) && f in ListOf(run, j) ==> j == i
  {
    i :| Read(run, i) && f in ListOf(run, i);
  }

  /** In a clean run every testcase of every report is a listed test, of a file of that shard, and did not fail. */
  lemma {:induction false} CaseIsListed(run: Run, tests: seq<Identity>, i: nat, c: Case)
    requires Clean(run, tests) && Read(run, i) && c in ReportOf(run, i).cases
    ensures c.identity in tests && c.identity.file in ListOf(run, i) && c.identity.file in run.files && c.outcome != Failure
  {
    RanHolds(run, run.of, i, c);
    assert c.identity in multiset(tests);
  }

  /** In a clean run every listed test ran, in a shard whose list holds its file. */
  lemma {:induction false} TestRan(run: Run, tests: seq<Identity>, t: Identity) returns (i: nat, c: Case)
    requires Clean(run, tests) && t in tests
    ensures Read(run, i) && c in ReportOf(run, i).cases && c.identity == t && t.file in ListOf(run, i)
    ensures Ran(run, run.of)[t] == 1
  {
    DistinctCounts(tests);
    assert t in multiset(tests);
    i := RanFrom(run, run.of, t);
    c := CaseFrom(ReportOf(run, i).cases, t);
  }

  lemma {:induction false} CaseFrom(cases: seq<Case>, t: Identity) returns (c: Case)
    requires t in Identities(cases)
    ensures c in cases && c.identity == t
  {
    var n := |cases| - 1;
    if cases[n].identity == t { c := cases[n]; } else { c := CaseFrom(cases[..n], t); }
  }
}
