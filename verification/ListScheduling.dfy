/** Graham's list scheduling: each job, a weight, goes to the first slot with the least load. */
module ListScheduling {

  ghost predicate Assigns(p: seq<real>, a: seq<nat>, m: nat) {
    |a| == |p| && forall j :: 0 <= j < |a| ==> a[j] < m
  }

  function Sum(p: seq<real>): real {
    if p == [] then 0.0 else Sum(p[..|p| - 1]) + p[|p| - 1]
  }

  /** What slot `s` carries under assignment `a`. */
  function LoadOf(p: seq<real>, a: seq<nat>, s: nat): real
    requires |a| == |p|
  {
    if p == [] then 0.0
    else LoadOf(p[..|p| - 1], a[..|p| - 1], s) + (if a[|p| - 1] == s then p[|p| - 1] else 0.0)
  }

  function Loads(p: seq<real>, a: seq<nat>, m: nat): (r: seq<real>)
    requires |a| == |p|
    ensures |r| == m && forall s :: 0 <= s < m ==> r[s] == LoadOf(p, a, s)
  {
    seq(m, s requires 0 <= s => LoadOf(p, a, s))
  }

  /** `min(range(len(load)), key=lambda s: (load[s], s))` */
  ghost predicate IsFirstMin(load: seq<real>, k: nat) {
    && k < |load|
    && (forall s :: 0 <= s < |load| ==> load[k] <= load[s])
    && (forall s :: 0 <= s < k ==> load[k] < load[s])
  }

  function FirstMin(load: seq<real>): (k: nat)
    requires load != []
    ensures k < |load|
  {
    if |load| == 1 then 0
    else
      var k := FirstMin(load[..|load| - 1]);
      if load[|load| - 1] < load[k] then |load| - 1 else k
  }

  lemma {:induction false} FirstMinIsFirst(load: seq<real>)
    requires load != []
    ensures IsFirstMin(load, FirstMin(load))
  {
    if |load| > 1 { FirstMinIsFirst(load[..|load| - 1]); }
  }

  /** The slot of every job, decided in processing order. */
  function Greedy(p: seq<real>, m: nat): (a: seq<nat>)
    requires m > 0
    ensures Assigns(p, a, m)
  {
    if p == [] then []
    else
      var q := p[..|p| - 1];
      var a := Greedy(q, m);
      a + [FirstMin(Loads(q, a, m))]
  }

  ghost predicate NonNegative(p: seq<real>) {
    forall j :: 0 <= j < |p| ==> p[j] >= 0.0
  }

  ghost predicate Descending(p: seq<real>) {
    forall i, j :: 0 <= i < j < |p| ==> p[i] >= p[j]
  }

  /** No slot carries more than `L` under `a`. */
  ghost predicate Within(p: seq<real>, a: seq<nat>, m: nat, L: real) {
    Assigns(p, a, m) && forall s :: 0 <= s < m ==> LoadOf(p, a, s) <= L
  }

  // -- k times x, as a sum: it keeps every step below linear

  function Times(k: nat, x: real): real {
    if k == 0 then 0.0 else Times(k - 1, x) + x
  }

  lemma {:induction false} TimesIsProduct(k: nat, x: real)
    ensures Times(k, x) == k as real * x
  {
    if k > 0 {
      TimesIsProduct(k - 1, x);
      assert k as real * x == (k - 1) as real * x + x;
    }
  }

  lemma {:induction false} TimesPlus(k: nat, x: real, y: real)
    ensures Times(k, x + y) == Times(k, x) + Times(k, y)
  {
    if k > 0 { TimesPlus(k - 1, x, y); }
  }

  lemma {:induction false} TimesMonotone(k: nat, x: real, y: real)
    requires x <= y
    ensures Times(k, x) <= Times(k, y)
  {
    if k > 0 { TimesMonotone(k - 1, x, y); }
  }

  lemma {:induction false} TimesSplit(j: nat, k: nat, x: real)
    ensures Times(j + k, x) == Times(j, x) + Times(k, x)
  {
    if k > 0 {
      TimesSplit(j, k - 1, x);
      assert j + k - 1 == j + (k - 1);
    }
  }

  lemma {:induction false} TimesTriple(k: nat, x: real)
    ensures Times(3 * k, x) == 3.0 * Times(k, x)
    ensures Times(4 * k, x) == 4.0 * Times(k, x)
    ensures Times(2 * k, x) == 2.0 * Times(k, x)
  {
    TimesSplit(k, k, x);
    TimesSplit(2 * k, k, x);
    TimesSplit(3 * k, k, x);
  }

  lemma {:induction false} TimesZero(k: nat)
    ensures Times(k, 0.0) == 0.0
  {
    if k > 0 { TimesZero(k - 1); }
  }

  // -- double counting: the slots' loads add up to the jobs' weights

  function SlotSum(p: seq<real>, a: seq<nat>, m: nat): real
    requires |a| == |p|
  {
    if m == 0 then 0.0 else SlotSum(p, a, m - 1) + LoadOf(p, a, m - 1)
  }

  lemma {:induction false} SlotSumStep(p: seq<real>, a: seq<nat>, m: nat)
    requires |a| == |p| > 0
    ensures SlotSum(p, a, m) == SlotSum(p[..|p| - 1], a[..|p| - 1], m) + (if a[|p| - 1] < m then p[|p| - 1] else 0.0)
  {
    if m > 0 { SlotSumStep(p, a, m - 1); }
  }

  lemma {:induction false} SlotSumEmpty(m: nat)
    ensures SlotSum([], [], m) == 0.0
  {
    if m > 0 { SlotSumEmpty(m - 1); }
  }

  lemma {:induction false} SlotsHoldEverything(p: seq<real>, a: seq<nat>, m: nat)
    requires Assigns(p, a, m)
    ensures SlotSum(p, a, m) == Sum(p)
  {
    if p == [] {
      SlotSumEmpty(m);
    } else {
      SlotSumStep(p, a, m);
      SlotsHoldEverything(p[..|p| - 1], a[..|p| - 1], m);
    }
  }

  lemma {:induction false} SlotSumAtLeast(p: seq<real>, a: seq<nat>, m: nat, x: real)
    requires |a| == |p| && forall s :: 0 <= s < m ==> LoadOf(p, a, s) >= x
    ensures SlotSum(p, a, m) >= Times(m, x)
  {
    if m > 0 {
      SlotSumAtLeast(p, a, m - 1, x);
    }
  }

  lemma {:induction false} SlotSumAtMost(p: seq<real>, a: seq<nat>, m: nat, x: real)
    requires |a| == |p| && forall s :: 0 <= s < m ==> LoadOf(p, a, s) <= x
    ensures SlotSum(p, a, m) <= Times(m, x)
  {
    if m > 0 {
      SlotSumAtMost(p, a, m - 1, x);
    }
  }

  // -- Graham's bound for any processing order

  /** The slot the last job goes to carried at most an equal share of the earlier jobs. */
  lemma {:induction false} LastSlot(p: seq<real>, m: nat)
    requires m > 0 && p != []
    ensures var n := |p| - 1; var a := Greedy(p, m);
            Times(m, LoadOf(p[..n], a[..n], a[n])) <= Sum(p[..n])
    ensures var n := |p| - 1; Greedy(p, m)[..n] == Greedy(p[..n], m)
  {
    var q := p[..|p| - 1];
    var a := Greedy(q, m);
    var k := FirstMin(Loads(q, a, m));
    FirstMinIsFirst(Loads(q, a, m));
    assert Greedy(p, m)[..|p| - 1] == a;
    SlotSumAtLeast(q, a, m, LoadOf(q, a, k));
    SlotsHoldEverything(q, a, m);
  }

  lemma {:induction false} GrahamBound(p: seq<real>, m: nat, largest: real, s: nat)
    requires m > 0 && s < m && NonNegative(p)
    requires largest >= 0.0 && forall j :: 0 <= j < |p| ==> p[j] <= largest
    ensures Times(m, LoadOf(p, Greedy(p, m), s)) <= Sum(p) + Times(m - 1, largest)
  {
    TimesZero(m - 1);
    TimesMonotone(m - 1, 0.0, largest);
    if p == [] {
      TimesZero(m);
    } else {
      var n := |p| - 1;
      var a := Greedy(p, m);
      LastSlot(p, m);
      if a[n] == s {
        TimesPlus(m, LoadOf(p[..n], a[..n], s), p[n]);
        TimesMonotone(m - 1, p[n], largest);
      } else {
        GrahamBound(p[..n], m, largest, s);
      }
    }
  }

  // -- any assignment, seen from one of its prefixes

  lemma {:induction false} LoadNonNegative(p: seq<real>, a: seq<nat>, s: nat)
    requires |a| == |p| && NonNegative(p)
    ensures LoadOf(p, a, s) >= 0.0
  {
    if p != [] { LoadNonNegative(p[..|p| - 1], a[..|p| - 1], s); }
  }

  lemma {:induction false} WithinPrefix(p: seq<real>, a: seq<nat>, m: nat, L: real)
    requires p != [] && NonNegative(p) && Within(p, a, m, L)
    ensures Within(p[..|p| - 1], a[..|p| - 1], m, L)
    ensures p[|p| - 1] <= L
  {
    var n := |p| - 1;
    forall s | 0 <= s < m ensures LoadOf(p[..n], a[..n], s) <= L {
      assert LoadOf(p, a, s) <= L;
    }
    LoadNonNegative(p[..n], a[..n], a[n]);
    assert LoadOf(p, a, a[n]) <= L;
  }

  lemma {:induction false} AverageBound(p: seq<real>, b: seq<nat>, m: nat, L: real)
    requires Within(p, b, m, L)
    ensures Sum(p) <= Times(m, L)
  {
    SlotsHoldEverything(p, b, m);
    SlotSumAtMost(p, b, m, L);
  }

  /** No slot's load exceeds (2 - 1/m) times the largest load of any other assignment. */
  lemma {:induction false} TwiceOptimal(p: seq<real>, b: seq<nat>, m: nat, L: real, s: nat)
    requires m > 0 && s < m && NonNegative(p) && Within(p, b, m, L)
    ensures Times(m, LoadOf(p, Greedy(p, m), s)) <= Times(2 * m - 1, L)
  {
    forall j | 0 <= j < |p| ensures p[j] <= L { JobWithin(p, b, m, L, j); }
    assert L >= 0.0 by {
      LoadNonNegative(p, b, 0);
      assert LoadOf(p, b, 0) <= L;
    }
    GrahamBound(p, m, L, s);
    AverageBound(p, b, m, L);
    assert 2 * m - 1 == m + (m - 1);
    TimesSplit(m, m - 1, L);
  }

  lemma {:induction false} JobWithin(p: seq<real>, b: seq<nat>, m: nat, L: real, j: nat)
    requires NonNegative(p) && Within(p, b, m, L) && j < |p|
    ensures p[j] <= L
  {
    WithinPrefix(p, b, m, L);
    if j < |p| - 1 { JobWithin(p[..|p| - 1], b[..|p| - 1], m, L, j); }
  }

  // -- heaviest first: 4/3 - 1/(3m)

  /** The charge of each job: two when it fits on a slot with no job as light as `least`, else one. */
  function Charges(p: seq<real>, least: real, L: real): (c: seq<real>)
    ensures |c| == |p|
    ensures forall j :: 0 <= j < |p| ==> c[j] == (if p[j] + least > L then 2.0 else 1.0)
  {
    seq(|p|, j requires 0 <= j < |p| => if p[j] + least > L then 2.0 else 1.0)
  }

  lemma {:induction false} ChargesPrefix(p: seq<real>, least: real, L: real)
    requires p != []
    ensures Charges(p, least, L)[..|p| - 1] == Charges(p[..|p| - 1], least, L)
  {
  }

  /** When every job outweighs L/3, an assignment within L charges no slot more than two. */
  lemma {:induction false} ChargeAtMostTwo(p: seq<real>, b: seq<nat>, s: nat, least: real, L: real)
    requires |b| == |p| && forall j :: 0 <= j < |p| ==> p[j] >= least
    requires 3.0 * least > L && least >= 0.0
    ensures var c, load := LoadOf(Charges(p, least, L), b, s), LoadOf(p, b, s);
            || (c == 0.0 && load == 0.0)
            || (c == 1.0 && load >= least)
            || (c == 2.0 && (load >= 2.0 * least || load > L - least))
            || (c > 2.0 && load > L)
  {
    if p != [] {
      ChargesPrefix(p, least, L);
      ChargeAtMostTwo(p[..|p| - 1], b[..|p| - 1], s, least, L);
    }
  }

  /** A slot with no room for a job as light as `least` has charge at least two. */
  lemma {:induction false} ChargeAtLeastTwo(p: seq<real>, a: seq<nat>, s: nat, least: real, L: real)
    requires |a| == |p| && least <= L
    ensures var c, load := LoadOf(Charges(p, least, L), a, s), LoadOf(p, a, s);
            || (c == 0.0 && load == 0.0)
            || (c == 1.0 && load <= L - least)
            || c >= 2.0
  {
    if p != [] {
      ChargesPrefix(p, least, L);
      ChargeAtLeastTwo(p[..|p| - 1], a[..|p| - 1], s, least, L);
    }
  }

  /** An assignment within L charges at most two a slot. */
  lemma {:induction false} BestCharge(p: seq<real>, b: seq<nat>, m: nat, L: real)
    requires p != [] && NonNegative(p) && Descending(p) && Within(p, b, m, L) && 3.0 * p[|p| - 1] > L
    ensures Sum(Charges(p, p[|p| - 1], L)) <= Times(m, 2.0)
  {
    var least := p[|p| - 1];
    var c := Charges(p, least, L);
    forall s | 0 <= s < m ensures LoadOf(c, b, s) <= 2.0 {
      ChargeAtMostTwo(p, b, s, least, L);
      assert LoadOf(p, b, s) <= L;
    }
    SlotSumAtMost(c, b, m, 2.0);
    SlotsHoldEverything(c, b, m);
  }

  /** If greedy's last job fits nowhere, every slot before it is charged at least two. */
  lemma {:induction false} GreedyCharge(p: seq<real>, m: nat, L: real)
    requires m > 0 && p != [] && p[|p| - 1] <= L
    requires LoadOf(p, Greedy(p, m), Greedy(p, m)[|p| - 1]) > L
    ensures Sum(Charges(p[..|p| - 1], p[|p| - 1], L)) >= Times(m, 2.0)
  {
    var n := |p| - 1;
    var q, least, a := p[..n], p[n], Greedy(p, m);
    LastSlot(p, m);
    var before, c := a[..n], Charges(q, least, L);
    FirstMinIsFirst(Loads(q, before, m));
    forall s | 0 <= s < m ensures LoadOf(c, before, s) >= 2.0 {
      assert Loads(q, before, m)[a[n]] <= Loads(q, before, m)[s];
      ChargeAtLeastTwo(q, before, s, least, L);
    }
    SlotSumAtLeast(c, before, m, 2.0);
    SlotsHoldEverything(c, before, m);
  }

  /** Heavy jobs: if the lightest, last job outweighs L/3, greedy keeps its slot within L. */
  lemma {:induction false} HeavyJobsFit(p: seq<real>, b: seq<nat>, m: nat, L: real)
    requires m > 0 && p != [] && NonNegative(p) && Descending(p) && Within(p, b, m, L)
    requires 3.0 * p[|p| - 1] > L
    ensures LoadOf(p, Greedy(p, m), Greedy(p, m)[|p| - 1]) <= L
  {
    var n := |p| - 1;
    JobWithin(p, b, m, L, n);
    BestCharge(p, b, m, L);
    ChargesPrefix(p, p[n], L);
    ChargedMore(Charges(p, p[n], L));
    if LoadOf(p, Greedy(p, m), Greedy(p, m)[n]) > L { GreedyCharge(p, m, L); }
  }

  /** The last job's own charge is more than nothing. */
  lemma {:induction false} ChargedMore(c: seq<real>)
    requires c != [] && c[|c| - 1] >= 1.0
    ensures Sum(c) >= Sum(c[..|c| - 1]) + 1.0
  {
  }

  /** Light jobs: if the last job is at most L/3, its slot stays within the bound by averaging. */
  lemma {:induction false} LightJobFits(p: seq<real>, b: seq<nat>, m: nat, L: real)
    requires m > 0 && p != [] && NonNegative(p) && Within(p, b, m, L)
    requires 3.0 * p[|p| - 1] <= L
    ensures Times(3 * m, LoadOf(p, Greedy(p, m), Greedy(p, m)[|p| - 1])) <= Times(4 * m - 1, L)
  {
    var n := |p| - 1;
    var a := Greedy(p, m);
    LastSlot(p, m);
    AverageBound(p, b, m, L);
    var before := LoadOf(p[..n], a[..n], a[n]);
    TimesPlus(m, before, p[n]);
    TimesTriple(m, before + p[n]);
    TimesTriple(m - 1, p[n]);
    TimesMonotone(m - 1, 3.0 * p[n], L);
    TripleInside(m - 1, p[n]);
    TimesSplit(3 * m, m - 1, L);
    TimesTriple(m, L);
  }

  lemma {:induction false} TripleInside(k: nat, x: real)
    ensures Times(k, 3.0 * x) == 3.0 * Times(k, x)
  {
    TimesPlus(k, x, x);
    TimesPlus(k, x + x, x);
    assert x + x + x == 3.0 * x;
  }

  lemma {:induction false} FitArithmetic(m: nat, load: real, L: real)
    requires m > 0 && load <= L && L >= 0.0
    ensures Times(3 * m, load) <= Times(4 * m - 1, L)
  {
    TimesMonotone(3 * m, load, L);
    TimesSplit(3 * m, m - 1, L);
    TimesZero(m - 1);
    TimesMonotone(m - 1, 0.0, L);
  }

  /** Heaviest first: no slot's load exceeds 4/3 - 1/(3m) times the largest load of any assignment. */
  lemma {:induction false} HeaviestFirstBound(p: seq<real>, b: seq<nat>, m: nat, L: real, s: nat)
    requires m > 0 && s < m && NonNegative(p) && Descending(p) && Within(p, b, m, L)
    ensures Times(3 * m, LoadOf(p, Greedy(p, m), s)) <= Times(4 * m - 1, L)
  {
    LoadNonNegative(p, b, 0);
    assert LoadOf(p, b, 0) <= L;
    if p == [] {
      FitArithmetic(m, 0.0, L);
    } else {
      var n := |p| - 1;
      var a := Greedy(p, m);
      LastSlot(p, m);
      WithinPrefix(p, b, m, L);
      if a[n] != s {
        HeaviestFirstBound(p[..n], b[..n], m, L, s);
      } else if 3.0 * p[n] > L {
        HeavyJobsFit(p, b, m, L);
        FitArithmetic(m, LoadOf(p, a, s), L);
      } else {
        LightJobFits(p, b, m, L);
      }
    }
  }

  // -- the scheduling loop's array, and the assignment it stands for

  function LoadsAfter(p: seq<real>, m: nat, j: nat): (r: seq<real>)
    requires m > 0 && j <= |p|
    ensures |r| == m
  {
    if j == 0 then seq(m, _ => 0.0)
    else
      var load := LoadsAfter(p, m, j - 1);
      var k := FirstMin(load);
      load[k := load[k] + p[j - 1]]
  }

  lemma {:induction false} LoopStep(p: seq<real>, m: nat, j: nat, before: seq<real>, after: seq<real>)
    requires m > 0 && j < |p| && before == LoadsAfter(p, m, j)
    requires after == before[FirstMin(before) := before[FirstMin(before)] + p[j]]
    ensures after == LoadsAfter(p, m, j + 1)
  {
  }

  lemma {:induction false} LoopIsGreedy(p: seq<real>, m: nat, j: nat)
    requires m > 0 && j <= |p|
    ensures LoadsAfter(p, m, j) == Loads(p[..j], Greedy(p[..j], m), m)
  {
    if j > 0 {
      LoopIsGreedy(p, m, j - 1);
      var q := p[..j];
      assert q[..j - 1] == p[..j - 1];
      var a := Greedy(p[..j - 1], m);
      var k := FirstMin(Loads(p[..j - 1], a, m));
      assert Greedy(q, m) == a + [k];
      assert (a + [k])[..j - 1] == a;
    }
  }

  lemma {:induction false} GreedyPrefix(p: seq<real>, m: nat, j: nat)
    requires m > 0 && j <= |p|
    ensures Greedy(p, m)[..j] == Greedy(p[..j], m)
  {
    if j == |p| {
      assert p[..j] == p;
    } else {
      GreedyPrefix(p[..|p| - 1], m, j);
      LastSlot(p, m);
      assert p[..|p| - 1][..j] == p[..j];
      assert Greedy(p, m)[..j] == Greedy(p, m)[..|p| - 1][..j];
    }
  }

  lemma {:induction false} LoopChoice(p: seq<real>, m: nat, j: nat)
    requires m > 0 && j < |p|
    ensures FirstMin(LoadsAfter(p, m, j)) == Greedy(p, m)[j]
  {
    LoopIsGreedy(p, m, j);
    GreedyPrefix(p, m, j + 1);
    var q := p[..j + 1];
    assert q[..j] == p[..j];
    assert Greedy(p, m)[j] == Greedy(p, m)[..j + 1][j];
  }

  lemma {:induction false} SumFront(p: seq<real>)
    requires p != []
    ensures Sum(p) == p[0] + Sum(p[1..])
  {
    if |p| > 1 {
      SumFront(p[..|p| - 1]);
      assert p[..|p| - 1][1..] == p[1..][..|p| - 2];
    }
  }

  lemma {:induction false} LoadFront(p: seq<real>, a: seq<nat>, s: nat)
    requires |a| == |p| > 0
    ensures LoadOf(p, a, s) == (if a[0] == s then p[0] else 0.0) + LoadOf(p[1..], a[1..], s)
  {
    if |p| > 1 {
      LoadFront(p[..|p| - 1], a[..|p| - 1], s);
      assert p[..|p| - 1][1..] == p[1..][..|p| - 2];
      assert a[..|p| - 1][1..] == a[1..][..|p| - 2];
    }
  }

  lemma {:induction false} SumNonNegative(p: seq<real>)
    requires NonNegative(p)
    ensures Sum(p) >= 0.0
  {
    if p != [] { SumNonNegative(p[..|p| - 1]); }
  }
}
