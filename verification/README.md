# Source closure, shard scheduling and test selection, verified

This project models five connected parts of the repository and proves what they promise.

* **The source-closure builder** (`ClosureWalk`, `ProfileClosures`, `GraphBuilder`, `BuilderTheorems`, `GraphMeaning`,
  `ImportedEntry`, `RootScopes`, `ReviewedGraph`, `GraphDocument`). A worklist walks states (scope, node, bound name), keeps
  one analysis per node, reports contexts that disagree, and from the finished walk makes each profile's required and
  allowed closures. The project proves that the walk ends over import roots in finite trees, what the set of seen states is,
  under which names files are walked, when the builder refuses, exactly which edges and nodes are recorded, that a profile's
  lists are what the graph's own edges lead to, for which specifications a profile's lists stay inside that profile's own
  walk, and exactly when the final validator accepts the graph.
* **The import resolver** (`ImportRoots`, `ModuleResolver`, `ResolutionTheorems`, `ImportOrder`, `ModuleNames`, `FileNames`,
  `SingleTreeTargets`). The nested loops refine a recursion over name parts, and that is the import order on the trees' own
  paths: package before module, nothing irregular there or earlier, the longest declared name where only directories are
  left.
* **The comparator and the record codec** (`Judgement`, `Provenance`, `LoadedEnvelope`, `Comparison`, `Comparator`,
  `WholeComparison`, `CompareLoaded`, `FactMonotonicity`, `MatchSoundness`, `MatchedProcess`, `MatchTheorems`,
  `MatchWitness`, `Causes`, `CauseTheorems`, `RecordCodec`, `CodecTheorems`, `CodecMeaning`, `RecordParser`, `GraphSchema`).
  The comparator's loops compute a three-valued judgement; MATCH is characterised exactly, each reason for REFUSED and
  UNKNOWN is stated on the documents, and adding verified facts only settles what was open. The decoder accepts exactly the
  wire forms of well-typed records within its limits.
* **The shard scheduler and its check** (`ListScheduling`, `ShardPlan`, `PlanMeaning`, `ShardReports`, `ShardCheck`,
  `RunMeaning`). The plan is a partition whose slots are within 4/3 - 1/(3m) of the best possible under the recorded
  weights; the check is silent exactly for a run that executed every listed test once.
* **Test selection and the watch reader** (`DependencyGraph`, `TestsReaching`, `ReachMeaning`, `SelectionRules`,
  `SelectionTheorems`, `SelectionMeaning`, `SelectTests`, `WatchRecords`, `WatchState`, `WatchPolls`, `WatchStop`, `WatchMeaning`).
  Following the graph is exact reachability and distributes over changes; selection is monotone under an exact condition on
  rules and tree; the reader stays fail-closed over every run of polls.

`Text`, `Sorting`, `Reachability` and `Records` hold Python's string order, `split`, `join`, `sorted` and `dict.fromkeys`,
paths along a relation, and the record types the comparator and the builder share.

How it is built: code that changes things step by step is a class or a method with loops, proved equal to a specification
function; the properties are lemmas about those functions. What such a function says is stated once more on the inputs
alone, without the function's parts, and proved equivalent (`GraphMeaning`, `ImportOrder`, `Causes`, `CodecMeaning`,
`PlanMeaning`, `RunMeaning`, `ReachMeaning`, `SelectionMeaning`, `WatchMeaning`). Every lemma is proved by the body it
shows. `Times(k, x)` is k·x as a sum (`ListScheduling.TimesIsProduct`). Trees, parsed files, import targets, content
identities, the case folding of file names and everything read from outside are parameters: finite sets and maps, or
arbitrary functions. Where a property fails in general, the failing family is a lemma and the condition under which it holds
is proved both ways (`SelectionTheorems.MonotoneExactly`, `BuilderTheorems.GraphAccepted`, `ModuleNames.BoundFileName`,
`CodecTheorems.WireRoundTrip`, and `BuilderTheorems.ProfileRespectsScope` where scopes come to their artifacts' interpreters
unguarded, as they do when these are runtime nodes of the same profile).

Where the code and its documentation differ, the code is followed. `scripts/test-selection.toml` says that changing a hub,
or deleting a file it still needs, runs everything; the code looks at the hub only when its deleted file is followed through
the graph, so under rules that make the hub a graph start, deleting the file and changing the hub together runs less than
the deletion alone (`SelectionTheorems.EscapeSelectsLess`, `SelectionTheorems.HubEscapes`). The repository's own rules send
every hub to everything, which rules this out (`SelectionTheorems.FullHubsMonotone`). And a profile's required and allowed
lists can hold a node of another profile's bootstrap chain that was never walked under the profile
(`ImportedEntry.ImportedEntryEscapes`).

## Model

| member | source | states |
|---|---|---|
| `ClosureWalk.Walk.constructor` | p3_source_closure/graph_builder.py:809-835 | the walk starts with the seeds queued and the bootstrap edges recorded, in a state that keeps every invariant below |
| `ClosureWalk.Walk.Enqueue` | p3_source_closure/graph_builder.py:824-826 | only a state not yet seen joins the end of the queue |
| `ClosureWalk.Walk.RecordFirst` | p3_source_closure/graph_builder.py:878-886 | a node's first analysis gives it exactly its import and dynamic edges and adjacency |
| `ClosureWalk.Walk.EnqueueTargets` | p3_source_closure/graph_builder.py:889-891 | every target of the state's analysis is queued under each name it was bound as, in the same scope |
| `ClosureWalk.Walk.FollowRefs` | p3_source_closure/graph_builder.py:895-924 | declared references that resolve are queued and get their edge; an unresolved one is an error |
| `ClosureWalk.Walk.VisitSource` | p3_source_closure/graph_builder.py:846-891 | a source node is analysed once; a later context that disagrees is recorded as a conflict |
| `ClosureWalk.Walk.VisitDeclared` | p3_source_closure/graph_builder.py:892-930 | exactly the unseen targets of generated, cached and artifact references are queued, the interpreter's only while its reference is not a reached node; an error exactly for what does not resolve |
| `ClosureWalk.Walk.Turn` | p3_source_closure/graph_builder.py:837-844 | one turn keeps all invariants of the walk and either sees a new state or shortens the queue |
| `ClosureWalk.Walk.Run` | p3_source_closure/graph_builder.py:837-930 | the walk ends although the queue may grow and hold duplicates, with every invariant in force and the queue empty; conflicts exactly if two seen states of one file disagree |
| `RootScopes.RootWorldBounded` | p3_source_closure/graph_builder.py:418-486 | over import roots in finite trees, walk states are finitely many: a file binds, or is named, only as its own path spells |
| `RootScopes.BoundNameBindable` | p3_source_closure/import_roots.py:163-192 | whatever name is imported, each bound file's module name is among the finitely many its path spells |
| `RootScopes.RepositoryWorldBounded` | p3_source_closure/graph_builder.py:383-415 | the same for the one scope of a single repository |
| `ProfileClosures.WalkIsExact` | p3_source_closure/graph_builder.py:837-930 | every state reachable by unguarded steps is seen, every seen state is reachable from a seed, and the two coincide where each scope comes to its artifacts' interpreters anyway |
| `ProfileClosures.EdgesFitEveryState` | p3_source_closure/graph_builder.py:877-888 | with no conflict, a node's import and dynamic edges are its resolved targets in every state it was walked in |
| `ProfileClosures.TargetsWalked` | p3_source_closure/graph_builder.py:889-891 | a node's targets were walked in every scope the node was walked under |
| `ProfileClosures.NamesWalked` | p3_source_closure/graph_builder.py:846-930 | a target is walked under every name the imports of a walked file bind it as, under the scope's own name only if they bind none, and declared references under that name; every other walked state is a seed |
| `ProfileClosures.ClosureRespectsScope` | p3_source_closure/graph_builder.py:997-1024 | a closure stays within one scope's walk if and only if the bootstrap targets it meets there do |
| `ProfileClosures.Transitive` | p3_source_closure/graph_builder.py:997-1024 | the duplicate-free list of exactly the nodes reachable from the seeds, for both kinds of closure |
| `GraphBuilder.SeedStates` | p3_source_closure/graph_builder.py:834-835 | the queue starts with exactly the specification's seed nodes, each under its profile's scope and that scope's name for it |
| `GraphBuilder.BootPart` | p3_source_closure/graph_builder.py:828-832 | bootstrap edges and adjacency are exactly those of the entrypoints' chains |
| `GraphBuilder.CloseProfile` | p3_source_closure/graph_builder.py:1027-1059 | required and allowed nodes are exactly the reachability sets the profile's seeds define, without duplicates |
| `GraphBuilder.AddSpawns` | p3_source_closure/graph_builder.py:939-945 | spawn edges are exactly the pairs of parent and child profile entry nodes, added to the walk's edges |
| `GraphBuilder.EdgeRecords` | p3_source_closure/graph_builder.py:1071-1071 | one record per recorded edge, sorted by source, target and kind |
| `GraphBuilder.NodeRecords` | p3_source_closure/graph_builder.py:947-984 | one record per reached node, in id order, rendered or declared |
| `GraphBuilder.BuildCandidate` | p3_source_closure/graph_builder.py:828-1081 | refused as unresolved only if a walked state does not resolve, then as conflicting exactly if two walked states of a file disagree; otherwise everything resolved and the candidate graph is made of the finished walk |
| `BuilderTheorems.EdgesAccepted` | p3_source_closure/graph_builder.py:1071-1082 | every edge endpoint of a candidate is a node and no edge is repeated, so the validator's edge check accepts it |
| `BuilderTheorems.ProfileWithin` | p3_source_closure/graph_builder.py:1027-1059 | runtime and required nodes are within allowed, allowed within nodes, entries and their chains are allowed when entries name the profile |
| `BuilderTheorems.CandidateAccepted` | p3_source_closure/graph_builder.py:986-1082 | a candidate passes the validator's entry and profile checks if and only if its lists are duplicate-free and each profile's entrypoints name it |
| `BuilderTheorems.ProfileRespectsScope` | p3_source_closure/graph_builder.py:997-1059 | where each scope comes to its artifacts' interpreters by unguarded steps, a profile's lists stay in its own walk if and only if the specification's seeds bring every bootstrap chain that the profile's seeds load into the profile's scope; in general the two kinds of steps bound the two directions |
| `BuilderTheorems.OwnInterpretersSeeded` | p3_source_closure/graph_builder.py:776-776 | that holds where an artifact's interpreter is a seed, such as a runtime node, of each scope that comes to the artifact |
| `BuilderTheorems.SharedScopeStays` | p3_source_closure/graph_builder.py:783-785 | where all profiles share one scope, as with a single repository, the lists always stay in it |
| `BuilderTheorems.ChainsStayHome` | p3_source_closure/graph_builder.py:997-1059 | in particular if no scope but its entrypoint's can come to a node that carries a bootstrap chain |
| `BuilderTheorems.GraphAccepted` | p3_source_closure/reviewed_graph.py:21-81 | the validator's checks on the decoded graph accept a candidate exactly when ids and repositories are well formed, lists free of duplicates, entrypoints named by their own profile, and references those of known nodes |
| `GraphDocument.CandidateValidated` | p3_source_closure/reviewed_graph.py:19-81 | with decoding, exactly when moreover its record is well typed, holds no overlong tuple and one content per evidence reference |
| `GraphDocument.DocumentTells` | p3_source_closure/parsing.py:22-54 | two such graphs with one wire form are one graph |
| `BuilderTheorems.FollowedReached` | p3_source_closure/graph_builder.py:892-924 | a reference the walk follows is a node of the graph exactly if it is the id of a known node |
| `GraphMeaning.EdgesMean` | p3_source_closure/graph_builder.py:828-945 | a candidate's edges are, once each, those that the entrypoints' chains, the visited files' imports, the visited declared nodes' provenance and the profiles' children call for, under a condition the file gives and none otherwise |
| `GraphMeaning.NodesMean` | p3_source_closure/graph_builder.py:947-995 | its nodes are exactly the visited ones, once each, a file's record or the declared node itself, and its entrypoints the specified ones |
| `GraphMeaning.ListsMean` | p3_source_closure/graph_builder.py:997-1059 | a profile requires exactly what the graph's own bootstrap and import edges lead to from what it loads first, its runtime aside, and allows exactly what these and the dynamic edges lead to from its runtime, the required and its extra nodes |
| `ImportedEntry.ImportedEntryEscapes` | p3_source_closure/graph_builder.py:828-1059 | for a checked two-profile specification, every candidate makes one profile require and allow a node of the other's bootstrap chain that was never walked under it |
| `ImportedEntry.ConditionFails` | p3_source_closure/graph_builder.py:828-1059 | the exact condition applies to that specification, and fails |
| `ImportedEntry.BuildImportedEntry` | p3_source_closure/graph_builder.py:828-1082 | the builder does return such a candidate, the validator's checks accept it, and the whole validator does if it can be decoded |
| `ReviewedGraph.ByIdFinds` | p3_source_closure/parsing.py:151-153 | with distinct ids the dictionaries of the validator return each record under its own id |
| `ImportRoots.FromPaths` | p3_source_closure/import_roots.py:58-65 | a tree's directories are exactly the d for which some file's path starts with d and a slash |
| `ImportRoots.LeadingParts` | p3_source_closure/import_roots.py:61-64 | joined leading parts of a path are exactly its prefixes that end just before a slash |
| `ImportRoots.ImportRootProblems` | p3_source_closure/import_roots.py:103-126 | no problem exactly for distinct, well-formed roots that exist in known repositories |
| `ImportRoots.SearchPartExact` | p3_source_closure/import_roots.py:172-187 | the first place that holds an irregular entry, a package or a module decides; without one the portions of all places, in order, remain |
| `ModuleResolver.DeclaredPrefix` | p3_source_closure/import_roots.py:147-153 | the loop returns the specified declared prefix |
| `ModuleResolver.LongestIsLongest` | p3_source_closure/import_roots.py:147-153 | that prefix is the longest declared name reaching past the unbound part, and none exists when none is returned |
| `ModuleResolver.FindPart` | p3_source_closure/import_roots.py:169-187 | the inner loop over the search places computes the first decision or the portions |
| `ModuleResolver.ResolveModule` | p3_source_closure/import_roots.py:155-198 | the nested loops compute the recursive specification of the import order |
| `ResolutionTheorems.FilesComeFirst` | p3_source_closure/import_roots.py:166-192 | every bound file is what the first deciding place of its part holds, nothing irregular being there or earlier |
| `ResolutionTheorems.PartsExplained` | p3_source_closure/import_roots.py:189-198 | each part binds a first file, or spans portions with no declared name covering it, up to the end or to the part the longest declared name supplies |
| `ResolutionTheorems.AppendedRootsChangeNothing` | p3_source_closure/import_roots.py:163-192 | if the roots decide the first part, appending roots changes no result |
| `ResolutionTheorems.PrefixConsistent` | p3_source_closure/import_roots.py:163-198 | a name bound without a declared module binds, for each dotted prefix, exactly the files bound up to it |
| `ImportOrder.NameImports` | p3_source_closure/import_roots.py:155-198 | what a name resolves to is its import on the trees' paths: at each part the first place that holds an irregular entry, base/__init__.py or base.py, in that order, else the directories, else the longest declared name |
| `ImportOrder.ImportsOnce` | p3_source_closure/import_roots.py:155-198 | the import order determines the result |
| `ImportOrder.BoundFileMeans` | p3_source_closure/import_roots.py:173-192 | a bound file is base/__init__.py if that path is in its place's tree, else base.py; nothing irregular lies there or at an earlier place, and earlier places hold neither file |
| `ImportOrder.RefusedExactly` | p3_source_closure/import_roots.py:173-178 | an import is refused exactly at the first irregular entry met, in the order base, package, module, and names it |
| `ModuleNames.BoundFileLies` | p3_source_closure/import_roots.py:173-192 | a bound file exists in its tree, below a root, at the path its own name spells |
| `ModuleNames.PackageFileName` | p3_source_closure/import_roots.py:37-39 | a package's file is named by its directory, as module and package, if and only if no part of the name holds a slash |
| `ModuleNames.ModuleFileName` | p3_source_closure/import_roots.py:31-42 | a module's file is named by its path and its parent if and only if no part holds a slash and its last part is not `__init__` |
| `ModuleNames.BoundFileName` | p3_source_closure/import_roots.py:31-42 | the name read from a bound file's path is the name it binds as, with exactly these two exceptions |
| `ModuleNames.ModuleNameForFile` | p3_source_closure/import_roots.py:200-216 | the first root's name whose resolution ends at this very file; none only if no root has one |
| `FileNames.FileNameMeans` | p3_source_closure/import_roots.py:200-216 | the name is given by the first root below which the path, its ending cut and its slashes turned to dots, spells a name whose import ends at this file; none exactly if no root gives one |
| `SingleTreeTargets.ResolveDeclaredPrefix` | p3_source_closure/graph_builder.py:249-256 | the node of the longest declared leading name, or none when no leading name is declared |
| `SingleTreeTargets.ResolveModuleTarget` | p3_source_closure/graph_builder.py:228-246 | a repository module reaches, once each and outermost first, the targets of all its leading names, itself included; other names go to the declared modules |
| `Provenance.Findings.Refuse` | p3_source_closure/provenance.py:17-18 | adds exactly one contradiction, under its condition |
| `Provenance.Findings.Unknown` | p3_source_closure/provenance.py:20-21 | adds exactly one gap, under its condition |
| `Provenance.Findings.Origin` | p3_source_closure/provenance.py:23-28 | a reference without a verified fact is a gap, one with another claim a contradiction, one with its exact claim nothing |
| `Provenance.Findings.CheckProvenance` | p3_source_closure/provenance.py:31-67 | adds exactly what all nodes, conditional edges and load policies are judged with |
| `Comparator.CheckRepeats` | p3_source_closure/comparison.py:101-109 | the one pass with two overwritten maps adds a clash or a repeat exactly where an event meets the last one recorded |
| `Comparator.CheckKinds` | p3_source_closure/comparison.py:110-121 | adds exactly the judgement of how the history opens, ends and restarts |
| `Comparator.CheckEvents` | p3_source_closure/comparison.py:122-148 | adds exactly what the events are judged with, and gathers the loaded nodes and announced children |
| `Comparator.CheckRequired` | p3_source_closure/comparison.py:151-160 | a missing mandatory load is a gap if the observation itself has one of four gaps, else a contradiction |
| `Comparator.CheckProcess` | p3_source_closure/comparison.py:64-160 | one process's findings are exactly its specified judgement |
| `CompareLoaded.CheckCensus` | p3_source_closure/comparison.py:216-225 | adds exactly what missing, extra and doubled process instances are judged with |
| `CompareLoaded.CheckHalves` | p3_source_closure/comparison.py:226-237 | past the early phases, a gap unless host and worker halves are expected and observed |
| `CompareLoaded.CheckKey` | p3_source_closure/comparison.py:238-258 | a process is judged on findings of its own, merged only afterwards, then its place in the tree |
| `CompareLoaded.CompareLoadedSource` | p3_source_closure/comparison.py:163-262 | the whole comparison computes the specified outcome, refusing inputs whose grammar fails |
| `MatchedProcess.DuplicatesClassified` | p3_source_closure/comparison.py:101-109 | a sequence contradiction if and only if two events share a number or an id and differ; without one, a gap if and only if events repeat |
| `MatchedProcess.ProcessClear` | p3_source_closure/comparison.py:64-160 | nothing is found of a process if and only if it is the expected one, fully witnessed, numbered 0 to n-1, loading only reviewed and allowed nodes in their reviewed bytes, all mandatory ones among them |
| `MatchSoundness.GraphClear` | p3_source_closure/provenance.py:31-67 | nothing is found of the graph if and only if every node, condition and policy has its exact claim verified and its own fields agree |
| `MatchTheorems.MatchIsExact` | p3_source_closure/comparison.py:163-262 | MATCH is returned if and only if documents, roster, processes and process tree agree in every stated respect |
| `MatchWitness.OneProcessMatches` | p3_source_closure/comparison.py:163-262 | whatever the identities, one early-phase host process that loads its interpreter in one start event matches |
| `CauseTheorems.OutcomeIsExact` | p3_source_closure/comparison.py:163-262 | REFUSED if and only if some reason is contradicted by the documents, UNKNOWN if and only if none is and some is left open, and the reasons are exactly those, each spelled out on the documents and the verified facts; binding, boundary and graph are the expectation's |
| `MatchTheorems.MatchRoster` | p3_source_closure/comparison.py:216-225 | on MATCH the expected and the observed process instances coincide, one observation each, and there is one |
| `MatchTheorems.MatchLoads` | p3_source_closure/comparison.py:125-148 | on MATCH every loaded node is reviewed, allowed by the process's profile, and byte-equal to its reviewed execution content |
| `MatchTheorems.MatchLoadsRequired` | p3_source_closure/comparison.py:151-160 | on MATCH every mandatory node of the profile was loaded |
| `MatchTheorems.MatchSequences` | p3_source_closure/comparison.py:95-109 | on MATCH each history is numbered exactly 0 to n-1 up to the attested last number, with no repeat |
| `MatchTheorems.MatchTree` | p3_source_closure/comparison.py:246-258 | on MATCH parent and child frontier are inverse, a frontier is what the events announced, and a child's profile is among its parent's child profiles |
| `MatchTheorems.MatchChildren` | p3_source_closure/comparison.py:254-258 | on MATCH every announced child was observed with that parent |
| `MatchTheorems.MatchFrontier` | p3_source_closure/comparison.py:86-89 | on MATCH each observed frontier is among the returned ones |
| `MatchTheorems.OutcomeFrontiers` | p3_source_closure/comparison.py:259-262 | the returned frontiers are the expected ones ordered by instance, and none without MATCH |
| `MatchTheorems.MatchDeterminesInputs` | p3_source_closure/comparison.py:179-194 | with injective identities, one set of verified origins matches at most one graph, envelope and expectation |
| `FactMonotonicity.MissingLoadSettles` | p3_source_closure/comparison.py:156-160 | closing gaps can turn the missing-load gap into a contradiction but never the reverse |
| `FactMonotonicity.MoreFactsOnlySettle` | p3_source_closure/comparison.py:156-262 | with all else fixed, more verified facts remove gaps, add as contradictions only former gaps, keep REFUSED and keep MATCH the same match |
| `CodecTheorems.DecodeExact` | p3_source_closure/parsing.py:57-92 | the decoder returns v for w if and only if w is the wire form of v, v is well typed at every depth, and v is within the limits |
| `CodecTheorems.WireRoundTrip` | p3_source_closure/parsing.py:28-92 | the wire form of a well-typed value decodes to it if and only if nesting and tuple lengths are within the limits |
| `CodecTheorems.AcceptedReencodes` | p3_source_closure/parsing.py:28-92 | whatever the decoder accepts is well typed and re-encodes to the same wire value |
| `CodecTheorems.RecordFound` | p3_source_closure/parsing.py:61-70 | a union hands a well-typed record's wire form to that record's own class |
| `CodecTheorems.RecordPasses` | p3_source_closure/parsing.py:75-88 | neither the schema check nor the record constructor refuses the wire form of a well-typed record |
| `RecordParser.CheckRefs` | p3_source_closure/parsing.py:100-112 | the pending-stack loop finds conflicting references if and only if two references inside the record name one piece of evidence with different contents |
| `CodecMeaning.RefsMean` | p3_source_closure/parsing.py:100-112 | the check passes if and only if no two references anywhere in the record, by whatever fields and items they are reached, agree on schema, supplier and record id but not on content |
| `CodecMeaning.ListDecoded` | p3_source_closure/parsing.py:71-74 | a list is read item by item, one level deeper, exactly if it has at most 65536 items and stands no deeper than 32 |
| `CodecMeaning.LeafDecoded` | p3_source_closure/records.py:36-50 | a scalar is read as itself exactly if it fits its annotation: a non-empty text without NUL, a non-negative number, a truth value, null, or a listed literal |
| `CodecMeaning.IdentityTyped` | p3_source_closure/parsing.py:87-88 | a content identity is a digest of 64 lower-case hexadecimal digits and a non-negative length |
| `RecordParser.ParseRecord` | p3_source_closure/parsing.py:95-113 | decoding followed by the reference check |
| `RecordParser.RecordRoundTrip` | p3_source_closure/parsing.py:95-113 | a well-typed record is read back from its wire form if and only if it is within the limits and its references agree |
| `RecordParser.ParsedReencodes` | p3_source_closure/parsing.py:95-113 | an accepted document is the wire form of the record it is read as |
| `GraphSchema.GraphSchemaOk` | p3_source_closure/records.py:65-189 | the records of a reviewed graph have distinct wire names and disjoint provenance tags, as the codec needs |
| `GraphSchema.GraphRoundTrip` | p3_source_closure/parsing.py:57-113 | a reviewed graph survives its wire form if and only if no tuple exceeds the size limit and its references agree; its nesting stays far below the depth limit |
| `GraphSchema.EdgeEnds` | p3_source_closure/parsing.py:22-30 | on the wire an edge's ends stand under `from` and `to`, and the names source and target do not occur |
| `ListScheduling.GrahamBound` | scripts/e2e_shards.py:96-105 | greedy placement keeps m·load at most total + (m-1)·largest in every slot, for non-negative weights in any order |
| `ListScheduling.TwiceOptimal` | scripts/e2e_shards.py:96-105 | so no slot exceeds (2 - 1/m) times the busiest slot of any assignment |
| `ListScheduling.HeaviestFirstBound` | scripts/e2e_shards.py:96-105 | placing the heaviest first tightens this to 4/3 - 1/(3m) |
| `ShardPlan.LeastLoaded` | scripts/e2e_shards.py:103-103 | the scan finds the first slot with the least load |
| `ShardPlan.Charge` | scripts/e2e_shards.py:102-105 | one in-place placement is one greedy choice |
| `ShardPlan.Simulate` | scripts/e2e_shards.py:79-85 | the replay is the busiest worker's greedy load in Playwright's order |
| `ShardPlan.Place` | scripts/e2e_shards.py:100-105 | the loop puts each file on the shard of its greedy slot, in order |
| `ShardPlan.MakePlan` | scripts/e2e_shards.py:96-108 | shards, predicted seconds, unweighted files and largest weight are the plan that `PlanMeaning` spells out |
| `ShardPlan.PlanPartitions` | scripts/e2e_shards.py:96-108 | every distinct listed file is on exactly one shard, once, and shards are in Playwright's order |
| `ShardPlan.PlanReplayBounds` | scripts/e2e_shards.py:79-108 | each shard's predicted time lies between half its weight and half its weight plus half the largest weight |
| `ShardPlan.SlotsNearOptimal` | scripts/e2e_shards.py:96-105 | the plan's own slots are within 4/3 - 1/(3m) of any way to give the files slots |
| `ShardPlan.PlanNearOptimal` | scripts/e2e_shards.py:96-108 | each predicted time is at most 4/3 - 1/(3m) times any assignment's busiest slot, plus half the largest weight |
| `PlanMeaning.PlanMeans` | scripts/e2e_shards.py:96-108 | with each file weighing its recorded seconds or else the greatest recorded value, files go heaviest first, ties by name, to the first least-loaded slot, and each shard is replayed to its predicted seconds |
| `PlanMeaning.RestMeans` | scripts/e2e_shards.py:98-108 | the unweighted files are those without a record, in order, and `largest` is the greatest weight in use |
| `PlanMeaning.SecondsBounds` | scripts/e2e_shards.py:79-108 | twice a shard's predicted seconds lie between the sum of its files' own weights and that sum plus the largest weight in use |
| `PlanMeaning.SecondsNearOptimal` | scripts/e2e_shards.py:96-108 | each predicted time is at most 4/3 - 1/(3m) times the busiest slot of any assignment of the files under the recorded weights, plus half the largest |
| `ShardCheck.CheckArtifacts` | scripts/e2e_shards.py:220-268 | no problem exactly when the artifacts are the expected ones, whole, each with its own meta and a listing without load errors |
| `ShardCheck.CheckListings` | scripts/e2e_shards.py:270-290 | no problem exactly when all listings are permutations of one duplicate-free listing, not empty if files are listed |
| `ShardCheck.CheckFiles` | scripts/e2e_shards.py:292-304 | no problem exactly when shard lists are disjoint and hold only, and once all are read all, listed files |
| `ShardCheck.CheckReports` | scripts/e2e_shards.py:306-317 | no problem exactly when each shard ran only its own files and its counter is true; returns the multiset of all that ran |
| `ShardCheck.CheckRan` | scripts/e2e_shards.py:318-336 | no problem exactly when what ran is the listing, nothing twice, and the counts agree |
| `ShardCheck.Check` | scripts/e2e_shards.py:207-344 | no problem if and only if the jobs succeeded and there was nothing to run, or every listed test ran exactly once, in its own shard, without a failure |
| `ShardCheck.FileOnOneShard` | scripts/e2e_shards.py:292-304 | in a clean run every listed file is on exactly one shard's list |
| `ShardCheck.CaseIsListed` | scripts/e2e_shards.py:306-344 | in a clean run every testcase is a listed test of a file of its shard and did not fail |
| `ShardCheck.TestRan` | scripts/e2e_shards.py:306-331 | in a clean run every listed test has its testcase, in a shard that lists its file, exactly once over all reports |
| `RunMeaning.CleanMeans` | scripts/e2e_shards.py:207-344 | a run is clean if and only if its artifacts are the expected ones, whole and own, one listing without repeats is common to all, the files are shared out, and every test of the listing stands at exactly one place of the reports and nothing else does, none failed |
| `DependencyGraph.DirectDependents` | scripts/dependency_graph.py:379-388 | the folder loop finds exactly the dependents and, for a start, the readers of every folder holding the path |
| `DependencyGraph.HoldsUpward` | scripts/dependency_graph.py:383-386 | the folders met going up are exactly the leading directories of the path |
| `TestsReaching.TestsReaching` | scripts/dependency_graph.py:424-449 | exactly the tests reachable from the changed files, each with a genuine dependency chain from one of them; among them every test that names a changed file or reads a leading directory of one |
| `TestsReaching.ReachingDistributes` | scripts/dependency_graph.py:424-449 | what a union of changes reaches is what either reaches, although folders and collection nodes count only at starts |
| `ReachMeaning.ReachedMeans` | scripts/dependency_graph.py:379-449 | what a change reaches is what a route of recorded dependents, folder readers of changed files, package tests of engine modules and plugin collections of changed files leads to |
| `ReachMeaning.ChainLinked` | scripts/dependency_graph.py:430-449 | in a kept chain each element hears of the one before it, or is an engine module between a file it names and a test of its package, or that test |
| `ReachMeaning.TestIs` | scripts/dependency_graph.py:73-76 | a test is a path under tests/ whose last part ends in .py and begins with test_ or ends with _test.py |
| `SelectTests.Selection.RunEverything` | scripts/select_tests.py:200-203 | everything, the dashboard checks and the browser tests are selected on the ordinary route |
| `SelectTests.Selection.ApplyParts` | scripts/select_tests.py:271-283 | a rule's parts add exactly their test folders and flags |
| `SelectTests.FollowStarts` | scripts/select_tests.py:312-340 | everything if the graph cannot narrow the starts, else the tests reached from their origins are added |
| `SelectTests.Select` | scripts/select_tests.py:231-286 | the selection is exactly what the set of changes selects by the specification |
| `SelectionMeaning.EverythingMeans` | scripts/select_tests.py:231-336 | everything runs exactly for no change, an unsafe path, a boundary change that is not the boundary's alone, a path without a narrow rule, or a graph that cannot narrow |
| `SelectionMeaning.PickMeans` | scripts/select_tests.py:243-345 | otherwise exactly the tests in the folders that the rules' parts name and those a route leads to from where the graph is entered, or the boundary's own tests, with the checks a rule asks for |
| `SelectionMeaning.SafeIs` | scripts/select_tests.py:64-68 | a path is safe if and only if every name between its slashes is non-empty, not a dot or two, and plain |
| `SelectionTheorems.SelectionGrows` | scripts/select_tests.py:231-345 | for non-empty changes over one tree, a larger change selects at least the tests, dashboard checks and browser tests of a smaller one, if no hub is a graph start |
| `SelectionTheorems.EscapeSelectsLess` | scripts/select_tests.py:324-336 | if all hubs naming a deleted start can be changed with it, deleting it alone runs everything and changing them too does not |
| `SelectionTheorems.MonotoneExactly` | scripts/select_tests.py:231-345 | for deletions of files gone from the tree, selection is monotone if and only if no path is such a start |
| `SelectionTheorems.FullHubsMonotone` | scripts/test-selection.toml:34-67 | it is monotone under rules that send every hub to everything |
| `SelectionTheorems.HubEscapes` | scripts/select_tests.py:324-336 | and not under rules that only follow the graph, where a hub still names a deleted file |
| `SelectionTheorems.HubEscapesOnce` | scripts/select_tests.py:324-336 | such rules and such a tree exist |
| `WatchRecords.ContinuityProblem` | scripts/pi_watch_stop.py:307-334 | no problem if and only if the ledger answers and every overlapping box not excused by its ended receipt has a PASS; else the least such box is named |
| `WatchRecords.JudgedMeans` | scripts/pi_watch_stop.py:239-287 | a record is put off exactly if it does not parse and was not read before; else what it is taken for, on its own fields: an older record by its date, a PASS by decision and kind, a continuity record's gap by gap_from, else since, and gap_to, else its date, anything else a stop |
| `WatchRecords.JustifiedMeans` | scripts/pi_watch_stop.py:307-334 | a gap is justified if and only if the ledger answers and every box that ended after its start and began before its end, and is not excused, passed |
| `WatchState.ReadStep` | scripts/pi_watch_stop.py:239-287 | one read keeps the history sound, lets the PASS set only grow, and keeps it fail-closed unless it finds something |
| `WatchState.ReadAtMostTwice` | scripts/pi_watch_stop.py:225-252 | no name is read more than twice, a second time only if it did not parse |
| `WatchState.FinishedRecord` | scripts/pi_watch_stop.py:239-305 | in a silent run a finished name was read as an older record, a PASS, or a continuity record whose gap, from its own gap_from or since to its own gap_to or date, is still pending or was found justified by passes that still stand |
| `WatchState.ClearedBoxPassed` | scripts/pi_watch_stop.py:289-334 | every box overlapping the record's own gap and not excused has a finished PASS record of its own |
| `WatchStop.Reader.PollRecords` | scripts/pi_watch_stop.py:217-237 | the earliest of the batch's findings is returned; none only if nothing read calls for a stop and every name is finished or waits |
| `WatchPolls.BatchSound` | scripts/pi_watch_stop.py:224-233 | a whole batch keeps the history sound, finishes or puts off every name, and gathers exactly what calls for a stop |
| `WatchMeaning.PollReads` | scripts/pi_watch_stop.py:217-287 | a poll reads exactly the names that are new or due again, and each becomes a finding, waits, passes or adds a gap not yet checked, by what its file holds |
| `WatchStop.Reader.PollContinuities` | scripts/pi_watch_stop.py:289-305 | the in-place pass over pending gaps is the specified one, and its finding names the gap it stops on |
| `WatchPolls.GapsStop` | scripts/pi_watch_stop.py:289-305 | a poll stops only on a gap that is due and found unjustified a second time, and changes nothing that was read |
| `WatchMeaning.GapsMean` | scripts/pi_watch_stop.py:289-305 | after the pass a gap is kept, put off or gone by its check time, its earlier check and whether its boxes passed |
| `WatchMeaning.GapStopMeans` | scripts/pi_watch_stop.py:289-305 | the pass stops on a gap that is due, was found unjustified before and still is |
| `WatchPolls.NoneOverdue` | scripts/pi_watch_stop.py:289-305 | after a silent pass no pending gap is past its check time |
| `WatchStop.Reader.PollUnit` | scripts/pi_watch_stop.py:336-350 | a finding if and only if the unit has been seen down, without a break, for longer than the grace |
| `WatchPolls.DownSinceIsFirst` | scripts/pi_watch_stop.py:341-347 | the time kept is that of the first sighting of the last unbroken stretch of sightings of a unit that is down |
| `WatchStop.Reader.Poll` | scripts/pi_watch_stop.py:212-215 | exactly what is found: an unreadable folder, else the earliest record that calls for a stop, else a due gap unjustified a second time, else the unit down for longer than the grace, else nothing; a silent poll keeps the run fail-closed |
| `WatchPolls.StopIsFirst` | scripts/pi_watch_stop.py:289-305 | the pass over pending gaps stops if and only if one of them is due and unjustified a second time |
| `WatchStop.Watch` | scripts/pi_watch_stop.py:495-499 | over any run of polls, until the first finding, the reader stays fail-closed and its PASS and finished sets only grow |

## Left out

- Checks of a builder specification before the walk (INVALID_GRAPH_SPEC, graph_builder.py:541-779) are taken as established: `GraphBuilder.Checked` says what they leave.
- Python parsing, Git, blobs, JSON text and SHA-256: an analysis per (scope, node, name), trees of paths and an arbitrary claim identity stand for them. `RootScopes` asks of an analysis only that its targets come from the scope; a bound file without a module name (a root's own `__init__.py`) has no node there, where the code raises.
- Generated toolchain references and the cached interpreter are not followed by the walk: `BuilderTheorems.GraphAccepted` keeps them as conditions on the reached nodes.
- BuilderTheorems.ProfileRespectsScope: where a scope comes to an artifact but to its interpreter only through the guarded step, the two directions have different conditions, because the walk may skip an interpreter that another scope has reached.
- BuilderTheorems.GraphAccepted: the checks after decoding only; `GraphDocument.CandidateValidated` adds decoding, but not the 16 MiB limit on the document's bytes, which are not modelled.
- The texts of errors, conflicts, reasons and log lines.
- CompareLoaded.CompareLoadedSource: its inputs are typed records; their re-decoding before comparison is covered only by the codec's own theorems, and a grammar refusal carries no code. The constant `route` of a binding and the schema fields are not fields of the model's records.
- `GraphSchema` spells out the twelve record classes of a reviewed graph; observation and expectation records have the same shapes and are not spelled out. A string with a lone surrogate cannot be written in this model, so its refusal is not stated.
- The document size limit on raw bytes appears only as the length of a claim identity; duplicate JSON keys are ruled out by maps.
- `list.json` trees and JUnit XML are given as the listings and reports they parse to; two malformed artifacts are told apart only by which file does not parse. Retried and rerun listings, the weights file and the markdown are left out.
- Rounding of weights and clock times: reals and integers are used, and case folding is a parameter.
- Building the dependency graph from text (imports, literals, fixtures, plugins) and `files_still_naming` are given; only that a plugin's collection node is named after its source and is no source itself is assumed.
- Rule patterns and the TOML of the rules are given as a lookup of parts by path, with and without the checked tree.
- Host contract packages themselves, Slack, GitHub, Docker, PostgreSQL, systemd and HTTP plumbing, posting the cancel, and the frontend.
