/** The split of scripts/e2e_shards.py: `simulate` and `plan`, and how good a plan is. */
module ShardPlan {
  import opened Text
  import opened Sorting
  import opened ListScheduling

  /** Playwright's workers on one runner. */
  const WORKERS: nat := 2

  /** `shards * WORKERS` */
  function Slots(shards: nat): nat { 2 * shards }

  /** `slot // WORKERS` */
  function HostShard(slot: nat): nat { slot / 2 }

  type Weights = map<string, real>

  datatype Plan = Plan(
    shards: seq<seq<string>>,
    seconds: seq<real>,
    unweighted: seq<string>,
    largest: real)

  // -- orders

  /** Playwright's order: by case-folded name, then by name. `fold` stands for `str.casefold`. */
  function ByFold(fold: string -> string): (string, string) -> bool {
    (a, b) => if fold(a) == fold(b) then LexLe(a, b) else LexLe(fold(a), fold(b))
  }

  function PlaywrightOrder(files: seq<string>, fold: string -> string): seq<string> {
    Sort(files, ByFold(fold))
  }

  predicate Covers(weight: Weights, files: seq<string>) {
    forall f :: f in files ==> f in weight
  }

  function WeightIn(weight: Weights, f: string): real {
    if f in weight then weight[f] else 0.0
  }

  /** Heaviest first, ties by name. */
  function ByWeight(weight: Weights): (string, string) -> bool {
    (a, b) =>
      if WeightIn(weight, a) == WeightIn(weight, b) then LexLe(a, b) else WeightIn(weight, a) > WeightIn(weight, b)
  }

  lemma {:induction false} ByFoldOrders(fold: string -> string)
    ensures TotalPreorder(ByFold(fold))
  {
    var le := ByFold(fold);
    forall a, b ensures le(a, b) || le(b, a) {
      LexLeTotal(a, b);
      LexLeTotal(fold(a), fold(b));
    }
    forall a, b, c | le(a, b) && le(b, c) ensures le(a, c) {
      LexLeTotal(fold(a), fold(b));
      LexLeTotal(fold(b), fold(c));
      if fold(a) == fold(b) == fold(c) {
        LexLeTransitive(a, b, c);
      } else if fold(a) != fold(b) && fold(b) != fold(c) {
        LexLeTransitive(fold(a), fold(b), fold(c));
      }
    }
  }

  lemma {:induction false} ByWeightOrders(weight: Weights)
    ensures TotalPreorder(ByWeight(weight))
  {
    var le := ByWeight(weight);
    forall a, b ensures le(a, b) || le(b, a) { LexLeTotal(a, b); }
    forall a, b, c | le(a, b) && le(b, c) ensures le(a, c) {
      if WeightIn(weight, a) == WeightIn(weight, b) == WeightIn(weight, c) { LexLeTransitive(a, b, c); }
    }
  }

  // -- specification

  function WeightsOf(files: seq<string>, weight: Weights): (p: seq<real>)
    ensures |p| == |files| && forall j :: 0 <= j < |p| ==> p[j] == WeightIn(weight, files[j])
  {
    seq(|files|, j requires 0 <= j < |files| => WeightIn(weight, files[j]))
  }

  ghost function Pick<T>(s: set<T>): (x: T)
    requires s != {}
    ensures x in s
  {
    var x :| x in s; x
  }

  /** `max(values, default=default)` */
  ghost function LargestOf(values: set<real>, default: real): (r: real)
    ensures values == {} ==> r == default
    ensures values != {} ==> r in values
    ensures forall v :: v in values ==> v <= r
  {
    if values == {} then default
    else
      var x := Pick(values);
      var rest := LargestOf(values - {x}, x);
      assert forall v :: v in values ==> v == x || v in values - {x};
      if x > rest then x else rest
  }

  function MaxOf(s: seq<real>): (r: real)
    ensures s != [] ==> r in s
    ensures forall j :: 0 <= j < |s| ==> s[j] <= r
    ensures s == [] ==> r == 0.0
  {
    if s == [] then 0.0
    else if |s| == 1 then s[0]
    else
      var rest := MaxOf(s[1..]);
      assert rest in s;
      if s[0] > rest then s[0] else rest
  }

  /** When the last of the workers is done: the files in Playwright's order, each to the first free worker. */
  function Replay(files: seq<string>, weight: Weights, workers: nat, fold: string -> string): real
    requires workers > 0
  {
    var p := WeightsOf(PlaywrightOrder(files, fold), weight);
    MaxOf(Loads(p, Greedy(p, workers), workers))
  }

  /** The files on slots 2i and 2i + 1, in processing order. */
  function ShardFiles(order: seq<string>, a: seq<nat>, i: nat): seq<string>
    requires |a| == |order|
  {
    if order == [] then []
    else
      var n := |order| - 1;
      ShardFiles(order[..n], a[..n], i) + (if HostShard(a[n]) == i then [order[n]] else [])
  }

  ghost function WeightMap(files: seq<string>, weights: Weights): (weight: Weights)
    ensures weight.Keys == set f | f in files
  {
    var largest := LargestOf(weights.Values, 1.0);
    map f | f in files :: if f in weights then weights[f] else largest
  }

  ghost function HeaviestFirst(files: seq<string>, weights: Weights): seq<string> {
    Sort(Dedup(files), ByWeight(WeightMap(Dedup(files), weights)))
  }

  /** The slot, of `m`, that each file of the heaviest-first list goes to. */
  ghost function SlotsOf(files: seq<string>, weights: Weights, m: nat): (a: seq<nat>)
    requires m > 0
    ensures |a| == |HeaviestFirst(files, weights)|
  {
    Greedy(WeightsOf(HeaviestFirst(files, weights), WeightMap(Dedup(files), weights)), m)
  }

  ghost function ShardOf(files: seq<string>, weights: Weights, shards: nat, fold: string -> string, i: nat): seq<string>
    requires shards > 0
  {
    PlaywrightOrder(ShardFiles(HeaviestFirst(files, weights), SlotsOf(files, weights, Slots(shards)), i), fold)
  }

  ghost function Unweighted(files: seq<string>, weights: Weights): seq<string> {
    Sort(Without(Dedup(files), weights), LexLe)
  }

  function Without(files: seq<string>, weights: Weights): (r: seq<string>)
    ensures forall f :: f in r <==> f in files && f !in weights
  {
    if files == [] then []
    else (if files[0] in weights then [] else [files[0]]) + Without(files[1..], weights)
  }

  ghost predicate IsPlan(p: Plan, files: seq<string>, weights: Weights, shards: nat, fold: string -> string)
    requires shards > 0
  {
    var weight := WeightMap(Dedup(files), weights);
    && |p.shards| == |p.seconds| == shards
    && (forall i :: 0 <= i < shards ==>
          && p.shards[i] == ShardOf(files, weights, shards, fold, i)
          && p.seconds[i] == Replay(p.shards[i], weight, WORKERS, fold))
    && p.unweighted == Unweighted(files, weights)
    && p.largest == LargestOf(weight.Values, LargestOf(weights.Values, 1.0))
  }

  // -- the loops

  method LeastLoaded(load: array<real>) returns (k: nat)
    requires load.Length > 0
    ensures k == FirstMin(load[..])
  {
    k := 0;
    for s := 1 to load.Length
      invariant k < s
      invariant forall t :: 0 <= t < s ==> load[k] <= load[t]
      invariant forall t :: 0 <= t < k ==> load[k] < load[t]
    {
      if load[s] < load[k] { k := s; }
    }
    FirstMinIsFirst(load[..]);
  }

  /** One placement: the first slot with the least load gets the next weight. */
  method Charge(load: array<real>, ghost p: seq<real>, ghost j: nat, w: real) returns (k: nat)
    requires load.Length > 0 && j < |p| && p[j] == w
    requires load[..] == LoadsAfter(p, load.Length, j)
    modifies load
    ensures k == Greedy(p, load.Length)[j]
    ensures load[..] == LoadsAfter(p, load.Length, j + 1)
  {
    ghost var before := load[..];
    k := LeastLoaded(load);
    load[k] := load[k] + w;
    LoopChoice(p, load.Length, j);
    LoopStep(p, load.Length, j, before, load[..]);
  }

  method Simulate(files: seq<string>, weight: Weights, workers: nat, fold: string -> string) returns (seconds: real)
    requires workers > 0 && Covers(weight, files)
    ensures seconds == Replay(files, weight, workers, fold)
  {
    ByFoldOrders(fold);
    SortElements(files, ByFold(fold));
    seconds := ReplayInOrder(PlaywrightOrder(files, fold), weight, workers);
  }

  method ReplayInOrder(order: seq<string>, weight: Weights, workers: nat) returns (seconds: real)
    requires workers > 0 && Covers(weight, order)
    ensures var p := WeightsOf(order, weight); seconds == MaxOf(Loads(p, Greedy(p, workers), workers))
  {
    var free := new real[workers](_ => 0.0);
    ghost var p := WeightsOf(order, weight);
    for j := 0 to |order|
      invariant free[..] == LoadsAfter(p, workers, j)
    {
      assert order[j] in order;
      var _ := Charge(free, p, j, weight[order[j]]);
    }
    LoopIsGreedy(p, workers, |p|);
    assert p[..|p|] == p;
    seconds := MaxOf(free[..]);
  }

  method MaxValue(weights: Weights, default: real) returns (r: real)
    ensures r == LargestOf(weights.Values, default)
  {
    r := default;
    var todo := weights.Keys;
    ghost var best: string := "";
    while todo != {}
      invariant todo <= weights.Keys
      invariant todo == weights.Keys ==> r == default
      invariant todo != weights.Keys ==> best in weights && weights[best] == r
      invariant forall f :: f in weights.Keys - todo ==> weights[f] <= r
      decreases |todo|
    {
      var f :| f in todo;
      if todo == weights.Keys || weights[f] > r { r, best := weights[f], f; }
      todo := todo - {f};
    }
    LargestIs(weights, default, r);
  }

  lemma {:induction false} LargestIs(weights: Weights, default: real, r: real)
    requires weights.Keys == {} ==> r == default
    requires weights.Keys != {} ==> r in weights.Values
    requires forall f :: f in weights ==> weights[f] <= r
    ensures r == LargestOf(weights.Values, default)
  {
    var largest := LargestOf(weights.Values, default);
    if weights.Keys == {} {
      assert weights.Values == {};
    } else {
      var f :| f in weights && weights[f] == largest;
    }
  }

  /** The lists of the placing loop once `j` files are placed. */
  function ListsAfter(order: seq<string>, a: seq<nat>, shards: nat, j: nat): (lists: seq<seq<string>>)
    requires |a| == |order| && j <= |order|
    requires forall k :: 0 <= k < |a| ==> HostShard(a[k]) < shards
    ensures |lists| == shards
  {
    if j == 0 then seq(shards, _ => [])
    else
      var lists, i := ListsAfter(order, a, shards, j - 1), HostShard(a[j - 1]);
      lists[i := lists[i] + [order[j - 1]]]
  }

  lemma {:induction false} ListsAreShardFiles(order: seq<string>, a: seq<nat>, shards: nat, j: nat, i: nat)
    requires |a| == |order| && j <= |order| && i < shards
    requires forall k :: 0 <= k < |a| ==> HostShard(a[k]) < shards
    ensures ListsAfter(order, a, shards, j)[i] == ShardFiles(order[..j], a[..j], i)
  {
    if j > 0 {
      ListsAreShardFiles(order, a, shards, j - 1, i);
      ShardFilesStep(order, a, i, j - 1);
    }
  }

  /** The placing loop of `plan`: each file to the least loaded slot, `WORKERS` slots to a shard. */
  method Place(order: seq<string>, weight: Weights, shards: nat, slots: nat) returns (lists: seq<seq<string>>)
    requires Covers(weight, order) && slots == Slots(shards) > 0
    ensures |lists| == shards
    ensures forall i :: 0 <= i < shards ==>
              lists[i] == ShardFiles(order, Greedy(WeightsOf(order, weight), slots), i)
  {
    var load := new real[slots](_ => 0.0);
    lists := seq(shards, _ => []);
    ghost var w := WeightsOf(order, weight);
    ghost var a := Greedy(w, slots);
    assert forall k :: 0 <= k < |a| ==> HostShard(a[k]) < shards;
    for j := 0 to |order|
      invariant load[..] == LoadsAfter(w, slots, j)
      invariant lists == ListsAfter(order, a, shards, j)
    {
      assert order[j] in order;
      var slot := Charge(load, w, j, weight[order[j]]);
      lists := lists[HostShard(slot) := lists[HostShard(slot)] + [order[j]]];
    }
    forall i | 0 <= i < shards ensures lists[i] == ShardFiles(order, a, i) {
      ListsAreShardFiles(order, a, shards, |order|, i);
      assert a[..|order|] == a && order[..|order|] == order;
    }
  }

  method MakePlan(files: seq<string>, weights: Weights, shards: nat, fold: string -> string) returns (p: Plan)
    requires shards > 0
    ensures IsPlan(p, files, weights, shards, fold)
  {
    var names := Dedup(files);
    var largest := MaxValue(weights, 1.0);
    var weight: Weights := map f | f in names :: if f in weights then weights[f] else largest;
    assert weight == WeightMap(names, weights);
    var order := Sort(names, ByWeight(weight));
    OrderHoldsFiles(files, weights);
    var lists := Place(order, weight, shards, Slots(shards));
    ghost var a := SlotsOf(files, weights, Slots(shards));
    assert forall i :: 0 <= i < shards ==> lists[i] == ShardFiles(order, a, i);
    forall i | 0 <= i < shards ensures Covers(weight, lists[i]) {
      ShardFilesOf(order, a, i);
    }
    var ordered, seconds := Replays(lists, weight, fold);
    var top := MaxValue(weight, largest);
    p := Plan(ordered, seconds, Sort(Without(names, weights), LexLe), top);
  }

  method Replays(lists: seq<seq<string>>, weight: Weights, fold: string -> string)
    returns (ordered: seq<seq<string>>, seconds: seq<real>)
    requires forall i :: 0 <= i < |lists| ==> Covers(weight, lists[i])
    ensures |ordered| == |seconds| == |lists|
    ensures forall i :: 0 <= i < |lists| ==> ordered[i] == PlaywrightOrder(lists[i], fold)
    ensures forall i :: 0 <= i < |lists| ==> seconds[i] == Replay(ordered[i], weight, WORKERS, fold)
  {
    ordered, seconds := [], [];
    for i := 0 to |lists|
      invariant |ordered| == |seconds| == i
      invariant forall k :: 0 <= k < i ==> ordered[k] == PlaywrightOrder(lists[k], fold)
      invariant forall k :: 0 <= k < i ==> seconds[k] == Replay(ordered[k], weight, WORKERS, fold)
    {
      var shard := PlaywrightOrder(lists[i], fold);
      assert Covers(weight, shard) by {
        ByFoldOrders(fold);
        SortElements(lists[i], ByFold(fold));
      }
      var t := Simulate(shard, weight, WORKERS, fold);
      ordered, seconds := ordered + [shard], seconds + [t];
    }
  }

  lemma {:induction false} ShardFilesStep(order: seq<string>, a: seq<nat>, i: nat, j: nat)
    requires |a| == |order| && j < |order|
    ensures ShardFiles(order[..j + 1], a[..j + 1], i)
         == ShardFiles(order[..j], a[..j], i) + (if HostShard(a[j]) == i then [order[j]] else [])
  {
    assert order[..j + 1][..j] == order[..j] && a[..j + 1][..j] == a[..j];
  }

  // -- the plan is a partition

  lemma {:induction false} ShardFilesOf(order: seq<string>, a: seq<nat>, i: nat)
    requires |a| == |order|
    ensures forall f :: f in ShardFiles(order, a, i) <==> exists j :: 0 <= j < |order| && order[j] == f && HostShard(a[j]) == i
  {
    if order != [] {
      var n := |order| - 1;
      var r := ShardFiles(order[..n], a[..n], i);
      ShardFilesOf(order[..n], a[..n], i);
      forall f | f in r ensures exists j :: 0 <= j < n && order[j] == f && HostShard(a[j]) == i {
        var j :| 0 <= j < n && order[..n][j] == f && HostShard(a[..n][j]) == i;
        assert order[j] == f;
      }
      forall f | exists j :: 0 <= j < |order| && order[j] == f && HostShard(a[j]) == i
        ensures f in ShardFiles(order, a, i)
      {
        var j :| 0 <= j < |order| && order[j] == f && HostShard(a[j]) == i;
        if j < n { assert order[..n][j] == f && HostShard(a[..n][j]) == i; }
      }
    }
  }

  lemma {:induction false} ShardFilesDistinct(order: seq<string>, a: seq<nat>, i: nat)
    requires |a| == |order| && NoDuplicates(order)
    ensures NoDuplicates(ShardFiles(order, a, i))
  {
    if order != [] {
      var n := |order| - 1;
      var r := ShardFiles(order[..n], a[..n], i);
      ShardFilesDistinct(order[..n], a[..n], i);
      ShardFilesOf(order[..n], a[..n], i);
      forall k | 0 <= k < |r| ensures r[k] != order[n] {
        assert r[k] in r;
        assert r[k] in order[..n];
      }
      assert ShardFiles(order, a, i) == r || ShardFiles(order, a, i) == r + [order[n]];
    }
  }

  ghost predicate OnShard(order: seq<string>, a: seq<nat>, i: nat, f: string)
    requires |a| == |order|
  {
    exists j :: 0 <= j < |order| && order[j] == f && HostShard(a[j]) == i
  }

  lemma {:induction false} ShardMembers(files: seq<string>, weights: Weights, shards: nat, fold: string -> string, i: nat)
    requires shards > 0
    ensures var shard := ShardOf(files, weights, shards, fold, i);
            && NoDuplicates(shard) && Ordered(shard, ByFold(fold))
            && forall f :: f in shard <==> OnShard(HeaviestFirst(files, weights), SlotsOf(files, weights, Slots(shards)), i, f)
  {
    var order, a := HeaviestFirst(files, weights), SlotsOf(files, weights, Slots(shards));
    OrderHoldsFiles(files, weights);
    ByFoldOrders(fold);
    ShardFilesOf(order, a, i);
    ShardFilesDistinct(order, a, i);
    SortElements(ShardFiles(order, a, i), ByFold(fold));
    SortOrdered(ShardFiles(order, a, i), ByFold(fold));
  }

  lemma {:induction false} OrderHoldsFiles(files: seq<string>, weights: Weights)
    ensures var order := HeaviestFirst(files, weights);
            NoDuplicates(order) && forall f :: f in order <==> f in files
  {
    var weight := WeightMap(Dedup(files), weights);
    ByWeightOrders(weight);
    SortElements(Dedup(files), ByWeight(weight));
  }

  /** Every distinct listed file is on exactly one shard, once; shards are in Playwright's order. */
  lemma {:induction false} PlanPartitions(p: Plan, files: seq<string>, weights: Weights, shards: nat, fold: string -> string)
    requires shards > 0 && IsPlan(p, files, weights, shards, fold)
    ensures forall f :: f in files <==> exists i :: 0 <= i < shards && f in p.shards[i]
    ensures forall i, k, f :: 0 <= i < k < shards && f in p.shards[i] ==> f !in p.shards[k]
    ensures forall i :: 0 <= i < shards ==> NoDuplicates(p.shards[i]) && Ordered(p.shards[i], ByFold(fold))
  {
    var order, a := HeaviestFirst(files, weights), SlotsOf(files, weights, Slots(shards));
    OrderHoldsFiles(files, weights);
    forall i | 0 <= i < shards
      ensures NoDuplicates(p.shards[i]) && Ordered(p.shards[i], ByFold(fold))
      ensures forall f :: f in p.shards[i] <==> OnShard(order, a, i, f)
    {
      ShardMembers(files, weights, shards, fold, i);
      assert p.shards[i] == ShardOf(files, weights, shards, fold, i);
    }
    forall f | f in order ensures exists i :: 0 <= i < shards && f in p.shards[i] {
      var i := SomeShard(order, a, shards, f);
      assert f in p.shards[i];
    }
    forall i, k, f | 0 <= i < k < shards && f in p.shards[i] ensures f !in p.shards[k] {
      OneShard(order, a, i, k, f);
    }
  }

  lemma {:induction false} SomeShard(order: seq<string>, a: seq<nat>, shards: nat, f: string) returns (i: nat)
    requires |a| == |order| && f in order && forall j :: 0 <= j < |a| ==> a[j] < Slots(shards)
    ensures i < shards && OnShard(order, a, i, f)
  {
    var j :| 0 <= j < |order| && order[j] == f;
    i := HostShard(a[j]);
  }

  lemma {:induction false} OneShard(order: seq<string>, a: seq<nat>, i: nat, k: nat, f: string)
    requires |a| == |order| && NoDuplicates(order) && i != k
    ensures !(OnShard(order, a, i, f) && OnShard(order, a, k, f))
  {
    forall j, l | 0 <= j < |order| && 0 <= l < |order| && order[j] == order[l] ensures j == l {}
  }

  // -- weights of lists, whatever their order

  function Total(files: seq<string>, weight: Weights, keep: string -> bool): real {
    if files == [] then 0.0
    else (if keep(files[0]) then WeightIn(weight, files[0]) else 0.0) + Total(files[1..], weight, keep)
  }

  lemma {:induction false} TotalInsert(x: string, s: seq<string>, le: (string, string) -> bool, weight: Weights, keep: string -> bool)
    ensures Total(Insert(x, s, le), weight, keep) == Total([x] + s, weight, keep)
  {
    if s != [] && !le(x, s[0]) {
      TotalInsert(x, s[1..], le, weight, keep);
      assert Insert(x, s, le)[1..] == Insert(x, s[1..], le);
      assert ([x] + s)[1..] == s && ([x] + s[1..])[1..] == s[1..];
    }
  }

  lemma {:induction false} TotalSort(s: seq<string>, le: (string, string) -> bool, weight: Weights, keep: string -> bool)
    ensures Total(Sort(s, le), weight, keep) == Total(s, weight, keep)
  {
    if s != [] {
      TotalSort(s[1..], le, weight, keep);
      TotalInsert(s[0], Sort(s[1..], le), le, weight, keep);
      assert ([s[0]] + Sort(s[1..], le))[1..] == Sort(s[1..], le);
    }
  }

  lemma {:induction false} TotalIsSum(files: seq<string>, weight: Weights)
    ensures Total(files, weight, _ => true) == Sum(WeightsOf(files, weight))
  {
    if files != [] {
      TotalIsSum(files[1..], weight);
      SumFront(WeightsOf(files, weight));
      assert WeightsOf(files, weight)[1..] == WeightsOf(files[1..], weight);
    }
  }

  /** Any way to give each file a slot, as an assignment of the list. */
  function AssignBy(files: seq<string>, slotOf: string -> nat): (a: seq<nat>)
    ensures |a| == |files| && forall j :: 0 <= j < |a| ==> a[j] == slotOf(files[j])
  {
    seq(|files|, j requires 0 <= j < |files| => slotOf(files[j]))
  }

  function SlotWeight(files: seq<string>, weight: Weights, slotOf: string -> nat, s: nat): real {
    Total(files, weight, f => slotOf(f) == s)
  }

  lemma {:induction false} SlotWeightIsLoad(files: seq<string>, weight: Weights, slotOf: string -> nat, s: nat)
    ensures SlotWeight(files, weight, slotOf, s) == LoadOf(WeightsOf(files, weight), AssignBy(files, slotOf), s)
  {
    if files != [] {
      SlotWeightIsLoad(files[1..], weight, slotOf, s);
      LoadFront(WeightsOf(files, weight), AssignBy(files, slotOf), s);
      assert WeightsOf(files, weight)[1..] == WeightsOf(files[1..], weight);
      assert AssignBy(files, slotOf)[1..] == AssignBy(files[1..], slotOf);
    }
  }

  lemma {:induction false} ShardWeight(order: seq<string>, a: seq<nat>, weight: Weights, i: nat)
    requires |a| == |order|
    ensures Sum(WeightsOf(ShardFiles(order, a, i), weight))
         == LoadOf(WeightsOf(order, weight), a, 2 * i) + LoadOf(WeightsOf(order, weight), a, 2 * i + 1)
  {
    if order != [] {
      var n := |order| - 1;
      ShardWeight(order[..n], a[..n], weight, i);
      var r, p := ShardFiles(order[..n], a[..n], i), WeightsOf(order, weight);
      assert p[..n] == WeightsOf(order[..n], weight);
      assert HostShard(a[n]) == i <==> a[n] == 2 * i || a[n] == 2 * i + 1;
      if HostShard(a[n]) == i {
        assert ShardFiles(order, a, i) == r + [order[n]];
        var q := WeightsOf(r + [order[n]], weight);
        assert q[..|q| - 1] == WeightsOf(r, weight);
      } else {
        assert ShardFiles(order, a, i) == r;
      }
    }
  }

  // -- how long a shard takes

  ghost predicate NoNegativeWeight(weights: Weights) {
    forall f :: f in weights ==> weights[f] >= 0.0
  }

  lemma {:induction false} WeightMapBounds(files: seq<string>, weights: Weights)
    requires NoNegativeWeight(weights)
    ensures var weight := WeightMap(files, weights);
            var top := LargestOf(weight.Values, LargestOf(weights.Values, 1.0));
            && NoNegativeWeight(weight) && top >= 0.0
            && forall f :: WeightIn(weight, f) <= top
  {
    var largest := LargestOf(weights.Values, 1.0);
    assert largest >= 0.0 by {
      if weights.Values != {} {
        var f :| f in weights && weights[f] == largest;
      }
    }
    var weight := WeightMap(files, weights);
    var top := LargestOf(weight.Values, largest);
    forall f | f in weight ensures weight[f] <= top && top >= 0.0 { assert weight[f] in weight.Values; }
    if weight.Values != {} {
      var f :| f in weight && weight[f] == top;
    }
  }

  /** A shard's predicted time is at least half its files' weight, and over it by at most half the largest weight. */
  lemma {:induction false} ReplayBounds(files: seq<string>, weight: Weights, top: real, fold: string -> string)
    requires NoNegativeWeight(weight) && top >= 0.0 && forall f :: WeightIn(weight, f) <= top
    ensures var total := Sum(WeightsOf(files, weight));
            total <= 2.0 * Replay(files, weight, WORKERS, fold) <= total + top
  {
    var order := PlaywrightOrder(files, fold);
    var p := WeightsOf(order, weight);
    var a := Greedy(p, WORKERS);
    var busiest := MaxOf(Loads(p, a, WORKERS));
    TotalSort(files, ByFold(fold), weight, _ => true);
    TotalIsSum(files, weight);
    TotalIsSum(order, weight);
    assert Within(p, a, WORKERS, busiest) by {
      assert forall s :: 0 <= s < WORKERS ==> Loads(p, a, WORKERS)[s] <= busiest;
    }
    AverageBound(p, a, WORKERS, busiest);
    assert Loads(p, a, WORKERS) != [];
    var s :| 0 <= s < WORKERS && Loads(p, a, WORKERS)[s] == busiest;
    GrahamBound(p, WORKERS, top, s);
    TimesIsProduct(WORKERS, busiest);
    TimesIsProduct(1, top);
  }

  lemma {:induction false} PlanReplayBounds(p: Plan, files: seq<string>, weights: Weights, shards: nat, fold: string -> string, i: nat)
    requires shards > 0 && IsPlan(p, files, weights, shards, fold) && i < shards && NoNegativeWeight(weights)
    ensures var total := Sum(WeightsOf(p.shards[i], WeightMap(Dedup(files), weights)));
            total <= 2.0 * p.seconds[i] <= total + p.largest
  {
    WeightMapBounds(Dedup(files), weights);
    ReplayBounds(p.shards[i], WeightMap(Dedup(files), weights), p.largest, fold);
  }

  // -- how good the plan is

  lemma {:induction false} HeaviestFirstDescends(files: seq<string>, weights: Weights)
    requires NoNegativeWeight(weights)
    ensures var p := WeightsOf(HeaviestFirst(files, weights), WeightMap(Dedup(files), weights));
            Descending(p) && NonNegative(p)
  {
    var weight := WeightMap(Dedup(files), weights);
    WeightMapBounds(Dedup(files), weights);
    ByWeightOrders(weight);
    SortOrdered(Dedup(files), ByWeight(weight));
    var order := HeaviestFirst(files, weights);
    forall i, j | 0 <= i < j < |order| ensures WeightIn(weight, order[i]) >= WeightIn(weight, order[j]) {
      assert ByWeight(weight)(order[i], order[j]);
    }
  }

  /** Each of m worker slots carries at most 4/3 - 1/(3m) times what the busiest slot carries under any
      other way to give the files slots: 3m load <= (4m - 1) L. */
  lemma {:induction false} SlotsNearOptimal(files: seq<string>, weights: Weights, m: nat, slotOf: string -> nat, L: real, s: nat)
    requires s < m && NoNegativeWeight(weights)
    requires forall f :: f in files ==> slotOf(f) < m
    requires forall t :: 0 <= t < m ==> SlotWeight(Dedup(files), WeightMap(Dedup(files), weights), slotOf, t) <= L
    ensures var p := WeightsOf(HeaviestFirst(files, weights), WeightMap(Dedup(files), weights));
            Times(3 * m, LoadOf(p, SlotsOf(files, weights, m), s)) <= Times(4 * m - 1, L)
  {
    var names := Dedup(files);
    var weight, order := WeightMap(names, weights), HeaviestFirst(files, weights);
    var p, b := WeightsOf(order, weight), AssignBy(order, slotOf);
    HeaviestFirstDescends(files, weights);
    OrderHoldsFiles(files, weights);
    forall t | 0 <= t < m ensures LoadOf(p, b, t) <= L {
      SlotWeightIsLoad(order, weight, slotOf, t);
      TotalSort(names, ByWeight(weight), weight, f => slotOf(f) == t);
      assert SlotWeight(names, weight, slotOf, t) <= L;
    }
    assert Within(p, b, m, L) by {
      forall j | 0 <= j < |b| ensures b[j] < m { assert order[j] in order; }
    }
    HeaviestFirstBound(p, b, m, L, s);
  }

  /** Both slots of a shard together. */
  lemma {:induction false} ShardNearOptimal(files: seq<string>, weights: Weights, shards: nat, fold: string -> string,
                         slotOf: string -> nat, L: real, i: nat, m: nat)
    requires NoNegativeWeight(weights) && i < shards && m == Slots(shards)
    requires forall f :: f in files ==> slotOf(f) < m
    requires forall t :: 0 <= t < m ==> SlotWeight(Dedup(files), WeightMap(Dedup(files), weights), slotOf, t) <= L
    ensures var total := Sum(WeightsOf(ShardOf(files, weights, shards, fold, i), WeightMap(Dedup(files), weights)));
            Times(3 * m, total) <= 2.0 * Times(4 * m - 1, L)
  {
    var p, a := WeightsOf(HeaviestFirst(files, weights), WeightMap(Dedup(files), weights)), SlotsOf(files, weights, m);
    ShardOfWeight(files, weights, shards, fold, i);
    SlotsNearOptimal(files, weights, m, slotOf, L, 2 * i);
    SlotsNearOptimal(files, weights, m, slotOf, L, 2 * i + 1);
    TimesPlus(3 * m, LoadOf(p, a, 2 * i), LoadOf(p, a, 2 * i + 1));
  }

  /** The whole plan: no shard is predicted to take longer than 4/3 - 1/(3m) times the busiest slot of any
      other way to give the files slots, plus half of the largest weight. */
  lemma {:induction false} PlanNearOptimal(p: Plan, files: seq<string>, weights: Weights, shards: nat, fold: string -> string,
                        slotOf: string -> nat, L: real, i: nat)
    requires shards > 0 && IsPlan(p, files, weights, shards, fold) && NoNegativeWeight(weights) && i < shards
    requires forall f :: f in files ==> slotOf(f) < Slots(shards)
    requires forall t :: 0 <= t < Slots(shards) ==>
               SlotWeight(Dedup(files), WeightMap(Dedup(files), weights), slotOf, t) <= L
    ensures var m := Slots(shards);
            && Times(6 * m, p.seconds[i]) <= Times(8 * m - 2, L) + Times(3 * m, p.largest)
            && NearOptimal(m, p.seconds[i], L, p.largest)
  {
    var m, total := Slots(shards), Sum(WeightsOf(p.shards[i], WeightMap(Dedup(files), weights)));
    PlanReplayBounds(p, files, weights, shards, fold, i);
    ShardNearOptimal(files, weights, shards, fold, slotOf, L, i, m);
    TwiceTimes(m, p.seconds[i], total, L, p.largest);
  }

  lemma {:induction false} TwiceTimes(m: nat, seconds: real, total: real, L: real, top: real)
    requires m > 0 && 2.0 * seconds <= total + top && Times(3 * m, total) <= 2.0 * Times(4 * m - 1, L)
    ensures Times(6 * m, seconds) <= Times(8 * m - 2, L) + Times(3 * m, top)
    ensures NearOptimal(m, seconds, L, top)
  {
    SixTimes(m, seconds, total, L, top);
    PlanRatio(m, seconds, L, top);
  }

  lemma {:induction false} SixTimes(m: nat, seconds: real, total: real, L: real, top: real)
    requires m > 0 && 2.0 * seconds <= total + top && Times(3 * m, total) <= 2.0 * Times(4 * m - 1, L)
    ensures Times(6 * m, seconds) <= Times(8 * m - 2, L) + Times(3 * m, top)
  {
    TimesTriple(3 * m, seconds);
    TimesTriple(4 * m - 1, L);
    TimesPlus(3 * m, seconds, seconds);
    TimesPlus(3 * m, total, top);
    TimesMonotone(3 * m, seconds + seconds, total + top);
    assert 2 * (3 * m) == 6 * m && 2 * (4 * m - 1) == 8 * m - 2;
  }

  /** The same bound, divided out: 4/3 - 1/(3m) times `L`, and half of `top`. */
  predicate NearOptimal(m: nat, seconds: real, L: real, top: real)
    requires m > 0
  {
    seconds <= (4.0 / 3.0 - 1.0 / (3.0 * m as real)) * L + top / 2.0
  }

  lemma {:induction false} PlanRatio(m: nat, seconds: real, L: real, top: real)
    requires m > 0 && Times(6 * m, seconds) <= Times(8 * m - 2, L) + Times(3 * m, top)
    ensures NearOptimal(m, seconds, L, top)
  {
    TimesIsProduct(6 * m, seconds);
    TimesIsProduct(8 * m - 2, L);
    TimesIsProduct(3 * m, top);
    RatioArithmetic(m as real, seconds - top / 2.0, L);
  }

  lemma {:induction false} RatioArithmetic(r: real, load: real, L: real)
    requires r > 0.0 && (3.0 * r) * load <= (4.0 * r - 1.0) * L
    ensures load <= (4.0 / 3.0 - 1.0 / (3.0 * r)) * L
  {
    var k := 4.0 / 3.0 - 1.0 / (3.0 * r);
    assert (3.0 * r) * k == 4.0 * r - 1.0;
    assert (3.0 * r) * (k * L) == (4.0 * r - 1.0) * L;
    if load > k * L {
      assert (3.0 * r) * (load - k * L) > 0.0;
    }
  }

  lemma {:induction false} ShardOfWeight(files: seq<string>, weights: Weights, shards: nat, fold: string -> string, i: nat)
    requires shards > 0
    ensures var weight := WeightMap(Dedup(files), weights);
            var p, a := WeightsOf(HeaviestFirst(files, weights), weight), SlotsOf(files, weights, Slots(shards));
            Sum(WeightsOf(ShardOf(files, weights, shards, fold, i), weight)) == LoadOf(p, a, 2 * i) + LoadOf(p, a, 2 * i + 1)
  {
    var weight := WeightMap(Dedup(files), weights);
    var order, a := HeaviestFirst(files, weights), SlotsOf(files, weights, Slots(shards));
    var shard := ShardFiles(order, a, i);
    TotalSort(shard, ByFold(fold), weight, _ => true);
    TotalIsSum(shard, weight);
    TotalIsSum(ShardOf(files, weights, shards, fold, i), weight);
    ShardWeight(order, a, weight, i);
  }
}
