/** What a plan is in terms of the recorded weights alone. */
module PlanMeaning {
  import opened Text
  import opened Sorting
  import opened ListScheduling
  import opened ShardPlan

  // -- what a file weighs

  /** The greatest recorded weight, 1.0 if none is recorded. */
  ghost predicate IsGreatest(weights: Weights, top: real) {
    && (forall f :: f in weights ==> weights[f] <= top)
    && (if weights == map[] then top == 1.0 else exists f :: f in weights && weights[f] == top)
  }

  /** `weigh` gives each file its recorded weight, and a file without one the greatest. */
  ghost predicate Weighs(weights: Weights, files: seq<string>, weigh: string -> real) {
    forall f :: f in files ==> if f in weights then weigh(f) == weights[f] else IsGreatest(weights, weigh(f))
  }

  lemma {:induction false} GreatestIs(weights: Weights, top: real)
    requires IsGreatest(weights, top)
    ensures top == LargestOf(weights.Values, 1.0)
  {
    if weights != map[] {
      var f :| f in weights && weights[f] == top;
      assert weights[f] in weights.Values;
      var g :| g in weights && weights[g] == LargestOf(weights.Values, 1.0);
    } else {
      assert weights.Values == {};
    }
  }

  lemma {:induction false} GreatestExists(weights: Weights)
    ensures IsGreatest(weights, LargestOf(weights.Values, 1.0))
  {
    forall f | f in weights ensures weights[f] <= LargestOf(weights.Values, 1.0) { assert weights[f] in weights.Values; }
    if weights == map[] {
      assert weights.Values == {};
    } else {
      var f :| f in weights;
      assert weights[f] in weights.Values;
      var g :| g in weights && weights[g] == LargestOf(weights.Values, 1.0);
    }
  }

  lemma {:induction false} WeightIs(weights: Weights, files: seq<string>, weigh: string -> real, f: string)
    requires Weighs(weights, files, weigh) && f in files
    ensures f in WeightMap(Dedup(files), weights) && WeightIn(WeightMap(Dedup(files), weights), f) == weigh(f)
  {
    if f !in weights { GreatestIs(weights, weigh(f)); }
  }

  // -- sums of weights

  /** What slot `s` carries once the first `j` files are placed. */
  function LoadBefore(order: seq<string>, weigh: string -> real, a: seq<nat>, j: nat, s: nat): real
    requires |a| == |order| && j <= |order|
  {
    if j == 0 then 0.0
    else LoadBefore(order, weigh, a, j - 1, s) + if a[j - 1] == s then weigh(order[j - 1]) else 0.0
  }

  function TotalWeight(files: seq<string>, weigh: string -> real): real {
    if files == [] then 0.0 else weigh(files[0]) + TotalWeight(files[1..], weigh)
  }

  /** What slot `s` carries when `slotOf` gives the files their slots. */
  function SlotTotal(files: seq<string>, weigh: string -> real, slotOf: string -> nat, s: nat): real {
    if files == [] then 0.0
    else (if slotOf(files[0]) == s then weigh(files[0]) else 0.0) + SlotTotal(files[1..], weigh, slotOf, s)
  }

  lemma {:induction false} TotalWeightIs(weights: Weights, files: seq<string>, weigh: string -> real, some: seq<string>)
    requires Weighs(weights, files, weigh) && forall f :: f in some ==> f in files
    ensures TotalWeight(some, weigh) == Sum(WeightsOf(some, WeightMap(Dedup(files), weights)))
  {
    if some != [] {
      var weight := WeightMap(Dedup(files), weights);
      WeightIs(weights, files, weigh, some[0]);
      TotalWeightIs(weights, files, weigh, some[1..]);
      SumFront(WeightsOf(some, weight));
      assert WeightsOf(some, weight)[1..] == WeightsOf(some[1..], weight);
    }
  }

  lemma {:induction false} SlotTotalIs(weights: Weights, files: seq<string>, weigh: string -> real, some: seq<string>, slotOf: string -> nat, t: nat)
    requires Weighs(weights, files, weigh) && forall f :: f in some ==> f in files
    ensures SlotTotal(some, weigh, slotOf, t) == SlotWeight(some, WeightMap(Dedup(files), weights), slotOf, t)
  {
    if some != [] {
      WeightIs(weights, files, weigh, some[0]);
      SlotTotalIs(weights, files, weigh, some[1..], slotOf, t);
    }
  }

  lemma {:induction false} LoadIs(weights: Weights, files: seq<string>, weigh: string -> real, order: seq<string>, a: seq<nat>, j: nat, s: nat)
    requires Weighs(weights, files, weigh) && (forall f :: f in order ==> f in files) && |a| == |order| && j <= |order|
    ensures LoadBefore(order, weigh, a, j, s) == LoadOf(WeightsOf(order, WeightMap(Dedup(files), weights))[..j], a[..j], s)
  {
    if j > 0 {
      var p := WeightsOf(order, WeightMap(Dedup(files), weights));
      LoadIs(weights, files, weigh, order, a, j - 1, s);
      assert p[..j][..j - 1] == p[..j - 1] && a[..j][..j - 1] == a[..j - 1];
      assert order[j - 1] in order;
      WeightIs(weights, files, weigh, order[j - 1]);
    }
  }

  // -- list scheduling, file by file

  /** Each file goes to the first slot that carries least. */
  ghost predicate Scheduled(order: seq<string>, weigh: string -> real, m: nat, a: seq<nat>) {
    && |a| == |order|
    && forall j :: 0 <= j < |a| ==> FirstLeast(order, weigh, m, a, j)
  }

  ghost predicate FirstLeast(order: seq<string>, weigh: string -> real, m: nat, a: seq<nat>, j: nat)
    requires |a| == |order| && j < |order|
  {
    && a[j] < m
    && (forall s :: 0 <= s < m ==> LoadBefore(order, weigh, a, j, a[j]) <= LoadBefore(order, weigh, a, j, s))
    && (forall s :: 0 <= s < a[j] ==> LoadBefore(order, weigh, a, j, a[j]) < LoadBefore(order, weigh, a, j, s))
  }

  lemma {:induction false} GreedyPick(p: seq<real>, m: nat, j: nat)
    requires m > 0 && j < |p|
    ensures IsFirstMin(Loads(p[..j], Greedy(p, m)[..j], m), Greedy(p, m)[j])
  {
    GreedyPrefix(p, m, j);
    GreedyPrefix(p, m, j + 1);
    var q := p[..j + 1];
    assert q[..j] == p[..j];
    assert Greedy(q, m)[j] == Greedy(p, m)[..j + 1][j];
    FirstMinIsFirst(Loads(p[..j], Greedy(p[..j], m), m));
  }

  lemma {:induction false} GreedySchedules(weights: Weights, files: seq<string>, weigh: string -> real, order: seq<string>, m: nat)
    requires m > 0 && Weighs(weights, files, weigh) && forall f :: f in order ==> f in files
    ensures Scheduled(order, weigh, m, Greedy(WeightsOf(order, WeightMap(Dedup(files), weights)), m))
  {
    var p := WeightsOf(order, WeightMap(Dedup(files), weights));
    var a := Greedy(p, m);
    forall j | 0 <= j < |a| ensures FirstLeast(order, weigh, m, a, j) {
      GreedyPick(p, m, j);
      forall s | 0 <= s < m ensures LoadBefore(order, weigh, a, j, s) == Loads(p[..j], a[..j], m)[s] {
        LoadIs(weights, files, weigh, order, a, j, s);
      }
    }
  }

  /** The last of the workers is done at `seconds`. */
  ghost predicate DoneAt(order: seq<string>, weigh: string -> real, m: nat, a: seq<nat>, seconds: real)
    requires |a| == |order|
  {
    && (forall s :: 0 <= s < m ==> LoadBefore(order, weigh, a, |order|, s) <= seconds)
    && exists s :: 0 <= s < m && LoadBefore(order, weigh, a, |order|, s) == seconds
  }

  /** The replay hands the files in their order to the first free of two workers. */
  ghost predicate Replayed(order: seq<string>, weigh: string -> real, seconds: real) {
    exists a :: Scheduled(order, weigh, 2, a) && DoneAt(order, weigh, 2, a, seconds)
  }

  lemma {:induction false} ReplayIs(weights: Weights, files: seq<string>, weigh: string -> real, order: seq<string>, fold: string -> string)
    requires Weighs(weights, files, weigh) && (forall f :: f in order ==> f in files) && PlaywrightOrder(order, fold) == order
    ensures Replayed(order, weigh, Replay(order, WeightMap(Dedup(files), weights), WORKERS, fold))
  {
    var p := WeightsOf(order, WeightMap(Dedup(files), weights));
    var a := Greedy(p, 2);
    GreedySchedules(weights, files, weigh, order, 2);
    forall s | 0 <= s < 2 ensures LoadBefore(order, weigh, a, |order|, s) == Loads(p, a, 2)[s] {
      LoadIs(weights, files, weigh, order, a, |order|, s);
      assert p[..|order|] == p && a[..|order|] == a;
    }
    assert Loads(p, a, 2) != [];
    var busiest := MaxOf(Loads(p, a, 2));
    assert DoneAt(order, weigh, 2, a, busiest);
  }

  // -- the order of placement and Playwright's order

  /** Heavier files first, files of one weight by name. */
  ghost predicate Heavier(order: seq<string>, weigh: string -> real) {
    forall i, j :: 0 <= i < j < |order| ==>
      weigh(order[i]) > weigh(order[j]) || (weigh(order[i]) == weigh(order[j]) && LexLe(order[i], order[j]))
  }

  ghost predicate Folded(order: seq<string>, fold: string -> string) {
    forall i, j :: 0 <= i < j < |order| ==>
      if fold(order[i]) == fold(order[j]) then LexLe(order[i], order[j]) else LexLe(fold(order[i]), fold(order[j]))
  }

  lemma {:induction false} HeaviestIs(weights: Weights, files: seq<string>, weigh: string -> real)
    requires Weighs(weights, files, weigh)
    ensures var order := HeaviestFirst(files, weights);
            Heavier(order, weigh) && NoDuplicates(order) && forall f :: f in order <==> f in files
  {
    var order, weight := HeaviestFirst(files, weights), WeightMap(Dedup(files), weights);
    OrderHoldsFiles(files, weights);
    ByWeightOrders(weight);
    SortOrdered(Dedup(files), ByWeight(weight));
    forall i, j | 0 <= i < j < |order|
      ensures weigh(order[i]) > weigh(order[j]) || (weigh(order[i]) == weigh(order[j]) && LexLe(order[i], order[j]))
    {
      assert order[i] in order && order[j] in order;
      WeightIs(weights, files, weigh, order[i]);
      WeightIs(weights, files, weigh, order[j]);
      assert ByWeight(weight)(order[i], order[j]);
    }
  }

  /** A list in Playwright's order stays as it is. */
  lemma {:induction false} FoldedStays(s: seq<string>, fold: string -> string)
    requires Ordered(s, ByFold(fold))
    ensures PlaywrightOrder(s, fold) == s
  {
    if s != [] {
      FoldedStays(s[1..], fold);
      assert s == [s[0]] + s[1..];
      if |s| > 1 { assert ByFold(fold)(s[0], s[1]); }
    }
  }

  // -- the plan

  /** The shard of a file: its slot's, two slots to a shard. */
  ghost predicate OnSlots(order: seq<string>, a: seq<nat>, i: nat, f: string)
    requires |a| == |order|
  {
    exists j :: 0 <= j < |order| && order[j] == f && (a[j] == 2 * i || a[j] == 2 * i + 1)
  }

  /** One shard: exactly the files of its two slots, once each, in Playwright's order, with the replay's time. */
  ghost predicate ShardIs(p: Plan, i: nat, order: seq<string>, a: seq<nat>, weigh: string -> real, fold: string -> string)
    requires |a| == |order| && i < |p.shards| && i < |p.seconds|
  {
    && NoDuplicates(p.shards[i]) && Folded(p.shards[i], fold)
    && (forall f :: f in p.shards[i] <==> OnSlots(order, a, i, f))
    && Replayed(p.shards[i], weigh, p.seconds[i])
  }

  lemma {:induction false} ShardMeans(p: Plan, files: seq<string>, weights: Weights, shards: nat, fold: string -> string, weigh: string -> real, i: nat)
    requires shards > 0 && IsPlan(p, files, weights, shards, fold) && Weighs(weights, files, weigh) && i < shards
    ensures ShardIs(p, i, HeaviestFirst(files, weights), SlotsOf(files, weights, Slots(shards)), weigh, fold)
  {
    var order, a := HeaviestFirst(files, weights), SlotsOf(files, weights, Slots(shards));
    ShardMembers(files, weights, shards, fold, i);
    assert p.shards[i] == ShardOf(files, weights, shards, fold, i);
    OrderHoldsFiles(files, weights);
    forall f ensures f in p.shards[i] <==> OnSlots(order, a, i, f) {
      assert OnShard(order, a, i, f) <==> OnSlots(order, a, i, f);
    }
    forall f | f in p.shards[i] ensures f in files { assert OnShard(order, a, i, f); }
    forall j, k | 0 <= j < k < |p.shards[i]|
      ensures var x, y := p.shards[i][j], p.shards[i][k];
              if fold(x) == fold(y) then LexLe(x, y) else LexLe(fold(x), fold(y))
    {
      assert ByFold(fold)(p.shards[i][j], p.shards[i][k]);
    }
    FoldedStays(p.shards[i], fold);
    ReplayIs(weights, files, weigh, p.shards[i], fold);
  }

  /** The plan, said with the recorded weights alone: the distinct files, heavier first, each to the first slot that carries least;
      two slots to a shard; each shard in Playwright's order with its replayed time. */
  lemma {:induction false} PlanMeans(p: Plan, files: seq<string>, weights: Weights, shards: nat, fold: string -> string, weigh: string -> real)
    returns (order: seq<string>, a: seq<nat>)
    requires shards > 0 && IsPlan(p, files, weights, shards, fold) && Weighs(weights, files, weigh)
    ensures NoDuplicates(order) && (forall f :: f in order <==> f in files) && Heavier(order, weigh)
    ensures Scheduled(order, weigh, 2 * shards, a)
    ensures |p.shards| == |p.seconds| == shards && forall i :: 0 <= i < shards ==> ShardIs(p, i, order, a, weigh, fold)
  {
    order, a := HeaviestFirst(files, weights), SlotsOf(files, weights, Slots(shards));
    HeaviestIs(weights, files, weigh);
    GreedySchedules(weights, files, weigh, order, Slots(shards));
    forall i | 0 <= i < shards ensures ShardIs(p, i, order, a, weigh, fold) { ShardMeans(p, files, weights, shards, fold, weigh, i); }
  }

  /** `unweighted` is the sorted list of the files without a recorded weight; `largest` the greatest weight of a file, or, with no
      file, the greatest recorded. */
  lemma {:induction false} RestMeans(p: Plan, files: seq<string>, weights: Weights, shards: nat, fold: string -> string, weigh: string -> real)
    requires shards > 0 && IsPlan(p, files, weights, shards, fold) && Weighs(weights, files, weigh)
    ensures (forall f :: f in p.unweighted <==> f in files && f !in weights) && Ordered(p.unweighted, LexLe)
    ensures forall f :: f in files ==> weigh(f) <= p.largest
    ensures if files == [] then IsGreatest(weights, p.largest) else exists f :: f in files && weigh(f) == p.largest
  {
    LexOrder();
    SortOrdered(Without(Dedup(files), weights), LexLe);
    SortElements(Without(Dedup(files), weights), LexLe);
    var weight := WeightMap(Dedup(files), weights);
    forall f | f in files ensures f in weight && weight[f] == weigh(f) && weight[f] in weight.Values { WeightIs(weights, files, weigh, f); }
    if files == [] {
      assert weight.Values == {};
      GreatestExists(weights);
    } else {
      assert files[0] in files;
      var f :| f in weight && weight[f] == p.largest;
    }
  }

  // -- the bounds, over the recorded weights

  /** A predicted time lies between half of the shard's weight and half of that plus the largest weight. */
  lemma {:induction false} SecondsBounds(p: Plan, files: seq<string>, weights: Weights, shards: nat, fold: string -> string,
                                         weigh: string -> real, i: nat)
    requires shards > 0 && IsPlan(p, files, weights, shards, fold) && Weighs(weights, files, weigh) && i < shards
    requires forall f :: f in weights ==> weights[f] >= 0.0
    ensures var total := TotalWeight(p.shards[i], weigh); total <= 2.0 * p.seconds[i] <= total + p.largest
  {
    PlanReplayBounds(p, files, weights, shards, fold, i);
    forall f | f in p.shards[i] ensures f in files { PlanPartitions(p, files, weights, shards, fold); }
    TotalWeightIs(weights, files, weigh, p.shards[i]);
  }

  /** No predicted time exceeds 4/3 - 1/(3m) times what the busiest slot carries under any way to give the files m slots, plus half
      of the largest weight. */
  lemma {:induction false} SecondsNearOptimal(p: Plan, files: seq<string>, weights: Weights, shards: nat, fold: string -> string,
                                              weigh: string -> real, slotOf: string -> nat, L: real, i: nat)
    requires shards > 0 && IsPlan(p, files, weights, shards, fold) && Weighs(weights, files, weigh) && i < shards
    requires forall f :: f in weights ==> weights[f] >= 0.0
    requires forall f :: f in files ==> slotOf(f) < 2 * shards
    requires forall t :: 0 <= t < 2 * shards ==> SlotTotal(Dedup(files), weigh, slotOf, t) <= L
    ensures p.seconds[i] <= (4.0 / 3.0 - 1.0 / (3.0 * (2 * shards) as real)) * L + p.largest / 2.0
  {
    forall t | 0 <= t < Slots(shards) ensures SlotWeight(Dedup(files), WeightMap(Dedup(files), weights), slotOf, t) <= L {
      SlotTotalIs(weights, files, weigh, Dedup(files), slotOf, t);
    }
    PlanNearOptimal(p, files, weights, shards, fold, slotOf, L, i);
  }
}
