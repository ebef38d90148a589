/** What the shards of a run leave behind, and what it means that they ran every listed test exactly once:
    the data of `check` in scripts/e2e_shards.py. */
module ShardReports {
  import opened Records
  import opened Sorting

  /** (project, file, title path) */
  datatype Identity = Identity(project: string, file: string, title: string)
  datatype Result = Success | Failure | Skip
  datatype Case = Case(identity: Identity, outcome: Result, retried: bool, reruns: bool)
  datatype Report = Report(counter: Option<int>, cases: seq<Case>)

  /** What a meta file claims under one key, if anything. */
  datatype Claim = NoClaim | Number(n: int) | Text(text: string)
  datatype Meta = Meta(shard: Claim, shards: Claim, sha: Claim)

  /** The directory an artifact was left in. */
  datatype Key = Shard(i: nat, of: nat) | Other(name: string)
  /** One artifact: the needed files it lacks, and each of them as it parses, if it does. */
  datatype Artifact = Artifact(lacking: seq<string>, meta: Option<Meta>, listing: Option<seq<Identity>>, loadErrors: nat,
                               report: Option<Report>, testList: seq<string>)

  datatype Run = Run(of: nat, sha: string, needs: map<string, bool>, files: seq<string>, present: map<Key, Artifact>)

  /** `listed`, after comments and spaces are gone: no empty line, each file once. */
  function Listed(lines: seq<string>): (r: seq<string>)
    ensures NoDuplicates(r) && forall f :: f in r <==> f in lines && f != ""
  {
    Dedup(NonEmpty(lines))
  }

  function NonEmpty(lines: seq<string>): (r: seq<string>)
    ensures forall f :: f in r <==> f in lines && f != ""
  {
    if lines == [] then []
    else
      assert lines == [lines[0]] + lines[1..];
      (if lines[0] != "" then [lines[0]] else []) + NonEmpty(lines[1..])
  }

  // -- the artifacts whose contents are read

  predicate Whole(a: Artifact) {
    a.lacking == [] && a.meta.Some? && a.listing.Some? && a.report.Some?
  }

  predicate Read(run: Run, i: nat) {
    1 <= i <= run.of && Shard(i, run.of) in run.present && Whole(run.present[Shard(i, run.of)])
  }

  function ListOf(run: Run, i: nat): seq<string>
    requires Read(run, i)
  {
    Listed(run.present[Shard(i, run.of)].testList)
  }

  function ListingOf(run: Run, i: nat): seq<Identity>
    requires Read(run, i)
  {
    run.present[Shard(i, run.of)].listing.value
  }

  function ReportOf(run: Run, i: nat): Report
    requires Read(run, i)
  {
    run.present[Shard(i, run.of)].report.value
  }

  function Identities(cases: seq<Case>): multiset<Identity> {
    if cases == [] then multiset{} else Identities(cases[..|cases| - 1]) + multiset{cases[|cases| - 1].identity}
  }

  /** Every testcase of the first `n` shards' reports, with multiplicity. */
  function Ran(run: Run, n: nat): multiset<Identity> {
    if n == 0 then multiset{}
    else Ran(run, n - 1) + (if Read(run, n) then Identities(ReportOf(run, n).cases) else multiset{})
  }

  // -- a run that is right

  predicate JobsOk(run: Run) {
    run.needs != map[] && forall job :: job in run.needs ==> run.needs[job]
  }

  /** Exactly the expected artifacts are there, whole, each with its own meta and a listing without load errors. */
  predicate ArtifactsOk(run: Run) {
    && (forall k :: k in run.present ==> k.Shard? && 1 <= k.i <= run.of && k.of == run.of)
    && (forall i :: 1 <= i <= run.of ==> OwnArtifact(run, i))
  }

  predicate OwnArtifact(run: Run, i: nat) {
    && Read(run, i)
    && var a := run.present[Shard(i, run.of)];
       a.meta.value == Meta(Number(i), Number(run.of), Text(run.sha)) && a.loadErrors == 0
  }

  /** All shards listed the same tests, none twice. */
  ghost predicate OneListing(run: Run, tests: seq<Identity>) {
    && NoDuplicates(tests)
    && forall i :: Read(run, i) ==> multiset(ListingOf(run, i)) == multiset(tests)
  }

  /** The shard lists are disjoint and together hold exactly the listed files. */
  ghost predicate Partition(run: Run) {
    && (forall i, j, f :: Read(run, i) && Read(run, j) && f in ListOf(run, i) && f in ListOf(run, j) ==> i == j)
    && (forall f :: f in run.files <==> exists i :: Read(run, i) && f in ListOf(run, i))
  }

  ghost predicate OwnFilesOnly(run: Run) {
    forall i :: Read(run, i) ==> forall c :: c in ReportOf(run, i).cases ==> c.identity.file in ListOf(run, i)
  }

  ghost predicate CountersTrue(run: Run) {
    forall i :: Read(run, i) ==> ReportOf(run, i).counter == Some(|ReportOf(run, i).cases|)
  }

  ghost predicate NoneFailed(run: Run) {
    forall i :: Read(run, i) ==> forall c :: c in ReportOf(run, i).cases ==> c.outcome != Failure
  }

  /** The testcases of all reports are, with multiplicities, those of the listing. */
  ghost predicate ExactlyOnce(run: Run, tests: seq<Identity>) {
    Ran(run, run.of) == multiset(tests)
  }

  /** The shards succeeded and, together, ran each test of their common listing exactly once, each its own files. */
  ghost predicate Clean(run: Run, tests: seq<Identity>) {
    && ArtifactsOk(run) && OneListing(run, tests) && (run.files != [] ==> tests != []) && Partition(run)
    && OwnFilesOnly(run) && CountersTrue(run) && ExactlyOnce(run, tests) && NoneFailed(run)
  }
}
