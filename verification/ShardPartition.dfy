/** `partition` of scripts/ci-go-test-shards.py: tests sorted by descending cost, each placed
    on the least loaded shard. */
module ShardPartition {
  import opened Ordering
  import opened Outcomes
  import opened ShardBound

  /** What a manifest records of the partition. */
  datatype Plan = Plan(
    discovered: seq<string>,
    shards: seq<seq<string>>,
    weights: map<string, nat>,
    totals: seq<nat>,
    unknown: seq<string>,
    obsolete: seq<string>)

  /** The cost in milliseconds; a test that was never measured counts as one second. */
  function Cost(measured: map<string, int>, name: string): (c: nat)
    requires PositiveWeights(measured)
    ensures c > 0
  {
    if name in measured then measured[name] else 1000
  }

  predicate Acceptable(names: seq<string>, total: int, measured: map<string, int>, isTestName: string -> bool) {
    && total >= 1
    && |names| >= total
    && NoDuplicates(names)
    && (forall n :: n in names ==> isTestName(n) && n != "TestMain")
    && PositiveWeights(measured)
  }

  predicate PositiveWeights(measured: map<string, int>) {
    forall k :: k in measured ==> measured[k] > 0
  }

  /** Longest first, ties by name: `key=lambda n: (-costs[n], n)`. */
  function Before(measured: map<string, int>): (string, string) -> bool
    requires PositiveWeights(measured)
  {
    (a: string, b: string) =>
      Cost(measured, a) > Cost(measured, b) || (Cost(measured, a) == Cost(measured, b) && LessEq(a, b))
  }

  function Order(names: seq<string>, measured: map<string, int>): seq<string>
    requires PositiveWeights(measured)
  {
    SortBy(names, Before(measured))
  }

  function Costs(order: seq<string>, measured: map<string, int>): (c: seq<nat>)
    requires PositiveWeights(measured)
    ensures |c| == |order| && forall j :: 0 <= j < |c| ==> c[j] == Cost(measured, order[j])
  {
    seq(|order|, j requires 0 <= j < |order| => Cost(measured, order[j]))
  }

  /** The tests that assignment `a` puts on shard `i`, in placement order. */
  function Bucket(order: seq<string>, a: seq<nat>, i: nat): seq<string>
    requires |order| == |a|
  {
    if order == [] then []
    else
      var n := |order| - 1;
      Bucket(order[..n], a[..n], i) + if a[n] == i then [order[n]] else []
  }

  function Buckets(order: seq<string>, a: seq<nat>, m: nat): (r: seq<seq<string>>)
    requires |order| == |a|
    ensures |r| == m && forall i :: 0 <= i < m ==> r[i] == Bucket(order, a, i)
  {
    seq(m, i requires 0 <= i => Bucket(order, a, i))
  }

  function Flatten(bins: seq<seq<string>>): seq<string> {
    if bins == [] then [] else Flatten(bins[..|bins| - 1]) + bins[|bins| - 1]
  }

  function SortEach(bins: seq<seq<string>>): (r: seq<seq<string>>)
    ensures |r| == |bins| && forall i :: 0 <= i < |r| ==> r[i] == Sort(bins[i])
  {
    seq(|bins|, i requires 0 <= i < |bins| => Sort(bins[i]))
  }

  function TotalCost(bucket: seq<string>, measured: map<string, int>): nat
    requires PositiveWeights(measured)
  {
    if bucket == [] then 0 else Cost(measured, bucket[0]) + TotalCost(bucket[1..], measured)
  }

  function LargestCost(bins: seq<seq<string>>, measured: map<string, int>): nat
    requires PositiveWeights(measured) && bins != []
  {
    Max(ShardCosts(bins, measured))
  }

  function ShardCosts(bins: seq<seq<string>>, measured: map<string, int>): (r: seq<nat>)
    requires PositiveWeights(measured)
    ensures |r| == |bins| && forall i :: 0 <= i < |r| ==> r[i] == TotalCost(bins[i], measured)
  {
    seq(|bins|, i requires 0 <= i < |bins| => TotalCost(bins[i], measured))
  }

  /** The partition as a function of its inputs. */
  function PlanOf(names: seq<string>, total: nat, measured: map<string, int>): Plan
    requires total >= 1 && PositiveWeights(measured)
  {
    var order := Order(names, measured);
    var c := Costs(order, measured);
    var a := Greedy(c, total);
    Plan(Sort(names),
         SortEach(Buckets(order, a, total)),
         map n | n in names :: Cost(measured, n),
         Loads(c, a, total),
         SortedKeys((set n | n in names) - measured.Keys),
         SortedKeys(measured.Keys - (set n | n in names)))
  }

  // The placement order.

  lemma {:induction false} BeforeIsTotalOrder(measured: map<string, int>)
    requires PositiveWeights(measured)
    ensures TotalOrder(Before(measured))
  {
    LessEqIsTotalOrder();
  }

  lemma {:induction false} OrderLongestFirst(names: seq<string>, measured: map<string, int>)
    requires PositiveWeights(measured)
    ensures multiset(Order(names, measured)) == multiset(names)
    ensures Descending(Costs(Order(names, measured), measured))
    ensures |Order(names, measured)| == |names|
  {
    BeforeIsTotalOrder(measured);
    SortByCorrect(names, Before(measured));
  }

  // Every test lands in exactly one shard.

  /** One for each occurrence of `x`: counting occurrences is adding up these costs. */
  function Indicator(order: seq<string>, x: string): (c: seq<nat>)
    ensures |c| == |order| && forall j :: 0 <= j < |c| ==> c[j] == if order[j] == x then 1 else 0
  {
    seq(|order|, j requires 0 <= j < |order| => if order[j] == x then 1 else 0)
  }

  lemma {:induction false} IndicatorSum(order: seq<string>, x: string)
    ensures Sum(Indicator(order, x)) == multiset(order)[x]
  {
    if order != [] {
      var n := |order| - 1;
      IndicatorSum(order[..n], x);
      assert Indicator(order, x)[..n] == Indicator(order[..n], x);
      assert order == order[..n] + [order[n]];
    }
  }

  lemma {:induction false} IndicatorLoad(order: seq<string>, a: seq<nat>, i: nat, x: string)
    requires |order| == |a|
    ensures Load(Indicator(order, x), a, i) == multiset(Bucket(order, a, i))[x]
  {
    if order != [] {
      var n := |order| - 1;
      IndicatorLoad(order[..n], a[..n], i, x);
      assert Indicator(order, x)[..n] == Indicator(order[..n], x);
    }
  }

  lemma {:induction false} IndicatorFlatten(order: seq<string>, a: seq<nat>, m: nat, x: string)
    requires |order| == |a|
    ensures multiset(Flatten(Buckets(order, a, m)))[x] == SumLoads(Indicator(order, x), a, m)
  {
    if m > 0 {
      IndicatorFlatten(order, a, m - 1, x);
      IndicatorLoad(order, a, m - 1, x);
      assert Buckets(order, a, m)[..m - 1] == Buckets(order, a, m - 1);
    }
  }

  lemma {:induction false} BucketsCover(order: seq<string>, a: seq<nat>, m: nat)
    requires IsAssignment(a, |order|, m)
    ensures multiset(Flatten(Buckets(order, a, m))) == multiset(order)
  {
    forall x ensures multiset(Flatten(Buckets(order, a, m)))[x] == multiset(order)[x] {
      IndicatorFlatten(order, a, m, x);
      LoadsConserveCost(Indicator(order, x), a, m);
      IndicatorSum(order, x);
    }
  }

  lemma {:induction false} FlattenSorted(bins: seq<seq<string>>)
    ensures multiset(Flatten(SortEach(bins))) == multiset(Flatten(bins))
  {
    if bins != [] {
      var n := |bins| - 1;
      FlattenSorted(bins[..n]);
      assert SortEach(bins)[..n] == SortEach(bins[..n]);
      SortKeepsMembers(bins[n]);
    }
  }

  // With at least as many tests as shards, no shard stays empty.

  lemma {:induction false} GreedyPrefix(c: seq<nat>, m: nat, k: nat)
    requires m >= 1 && k <= |c|
    ensures Greedy(c, m)[..k] == Greedy(c[..k], m)
  {
    if k < |c| {
      GreedyPrefix(c[..|c| - 1], m, k);
      assert c[..|c| - 1][..k] == c[..k];
      assert Greedy(c, m)[..k] == Greedy(c[..|c| - 1], m)[..k];
    } else {
      assert c[..k] == c;
    }
  }

  /** The first `m` tests open the `m` shards in turn. */
  lemma {:induction false} FirstPlacements(c: seq<nat>, m: nat)
    requires m >= 1 && |c| <= m && forall j :: 0 <= j < |c| ==> c[j] > 0
    ensures forall j :: 0 <= j < |c| ==> Greedy(c, m)[j] == j
    ensures forall i :: 0 <= i < m ==> (Load(c, Greedy(c, m), i) > 0 <==> i < |c|)
  {
    if c != [] {
      var n := |c| - 1;
      FirstPlacements(c[..n], m);
      var g := Greedy(c, m);
      assert g[..n] == Greedy(c[..n], m);
      var loads := Loads(c[..n], g[..n], m);
      assert loads[n] == 0;
    }
  }

  lemma {:induction false} BucketHolds(order: seq<string>, a: seq<nat>, j: nat)
    requires |order| == |a| && j < |order|
    ensures order[j] in Bucket(order, a, a[j])
  {
    if j < |order| - 1 {
      BucketHolds(order[..|order| - 1], a[..|order| - 1], j);
    }
  }

  lemma {:induction false} NoEmptyShard(order: seq<string>, c: seq<nat>, m: nat, i: nat)
    requires m >= 1 && |order| == |c| >= m > i && forall j :: 0 <= j < |c| ==> c[j] > 0
    ensures Bucket(order, Greedy(c, m), i) != []
  {
    GreedyPrefix(c, m, m);
    FirstPlacements(c[..m], m);
    assert Greedy(c, m)[i] == Greedy(c, m)[..m][i] == i;
    BucketHolds(order, Greedy(c, m), i);
  }

  // Costs of shards.

  lemma {:induction false} TotalCostAppend(s: seq<string>, t: seq<string>, measured: map<string, int>)
    requires PositiveWeights(measured)
    ensures TotalCost(s + t, measured) == TotalCost(s, measured) + TotalCost(t, measured)
  {
    if s == [] {
      assert s + t == t;
    } else {
      TotalCostAppend(s[1..], t, measured);
      assert (s + t)[1..] == s[1..] + t;
    }
  }

  lemma {:induction false} TotalCostInsert(x: string, s: seq<string>, measured: map<string, int>)
    requires PositiveWeights(measured)
    ensures TotalCost(InsertBy(x, s, LessEq), measured) == Cost(measured, x) + TotalCost(s, measured)
  {
    if s != [] {
      if LessEq(x, s[0]) {
        assert ([x] + s)[1..] == s;
      } else {
        TotalCostInsert(x, s[1..], measured);
        assert ([s[0]] + InsertBy(x, s[1..], LessEq))[1..] == InsertBy(x, s[1..], LessEq);
      }
    }
  }

  lemma {:induction false} TotalCostSorted(s: seq<string>, measured: map<string, int>)
    requires PositiveWeights(measured)
    ensures TotalCost(Sort(s), measured) == TotalCost(s, measured)
  {
    if s != [] {
      TotalCostSorted(s[1..], measured);
      TotalCostInsert(s[0], Sort(s[1..]), measured);
    }
  }

  lemma {:induction false} TotalCostOfPermutation(s: seq<string>, t: seq<string>, measured: map<string, int>)
    requires PositiveWeights(measured) && multiset(s) == multiset(t)
    ensures TotalCost(s, measured) == TotalCost(t, measured)
  {
    LessEqIsTotalOrder();
    SortOfPermutation(s, t, LessEq);
    TotalCostSorted(s, measured);
    TotalCostSorted(t, measured);
  }

  lemma {:induction false} BucketCost(order: seq<string>, a: seq<nat>, i: nat, measured: map<string, int>)
    requires PositiveWeights(measured) && |order| == |a|
    ensures TotalCost(Bucket(order, a, i), measured) == Load(Costs(order, measured), a, i)
  {
    if order != [] {
      var n := |order| - 1;
      BucketCost(order[..n], a[..n], i, measured);
      assert Costs(order, measured)[..n] == Costs(order[..n], measured);
      var last := if a[n] == i then [order[n]] else [];
      TotalCostAppend(Bucket(order[..n], a[..n], i), last, measured);
      assert TotalCost(last, measured) == if a[n] == i then Cost(measured, order[n]) else 0;
    }
  }

  // Any other way to split the tests, read as an assignment in placement order.

  function ShardIndex(bins: seq<seq<string>>, name: string): (k: nat)
    ensures k < |bins| ==> name in bins[k]
    ensures k >= |bins| ==> forall i :: 0 <= i < |bins| ==> name !in bins[i]
  {
    if bins == [] then 0
    else
      var n := |bins| - 1;
      var k := ShardIndex(bins[..n], name);
      if k < n then k else if name in bins[n] then n else n + 1
  }

  function AssignmentOf(order: seq<string>, bins: seq<seq<string>>): (a: seq<nat>)
    ensures |a| == |order| && forall j :: 0 <= j < |a| ==> a[j] == ShardIndex(bins, order[j])
  {
    seq(|order|, j requires 0 <= j < |order| => ShardIndex(bins, order[j]))
  }

  lemma {:induction false} FlattenMembers(bins: seq<seq<string>>, k: nat)
    requires k < |bins|
    ensures multiset(bins[k]) <= multiset(Flatten(bins))
  {
    var n := |bins| - 1;
    if k < n { FlattenMembers(bins[..n], k); }
  }

  lemma {:induction false} SharedTwice(bins: seq<seq<string>>, i: nat, k: nat, x: string)
    requires i < k < |bins| && x in bins[i] && x in bins[k]
    ensures multiset(Flatten(bins))[x] >= 2
  {
    var n := |bins| - 1;
    assert multiset(Flatten(bins)) == multiset(Flatten(bins[..n])) + multiset(bins[n]);
    if k < n {
      SharedTwice(bins[..n], i, k, x);
    } else {
      FlattenMembers(bins[..n], i);
      assert x in multiset(bins[i]) && x in multiset(bins[n]);
    }
  }

  lemma {:induction false} FlattenContains(bins: seq<seq<string>>, x: string)
    requires x in Flatten(bins)
    ensures exists k :: 0 <= k < |bins| && x in bins[k]
  {
    var n := |bins| - 1;
    if x !in bins[n] {
      FlattenContains(bins[..n], x);
      var k :| 0 <= k < |bins[..n]| && x in bins[..n][k];
      assert x in bins[k];
    }
  }

  lemma {:induction false} BucketCount(order: seq<string>, a: seq<nat>, i: nat, x: string, owner: nat)
    requires |order| == |a|
    requires forall j :: 0 <= j < |order| && order[j] == x ==> a[j] == owner
    ensures multiset(Bucket(order, a, i))[x] == if owner == i then multiset(order)[x] else 0
  {
    if order != [] {
      var n := |order| - 1;
      BucketCount(order[..n], a[..n], i, x, owner);
      assert order == order[..n] + [order[n]];
    }
  }

  /** Reading `bins` as an assignment gives back its shards, up to the order inside a shard. */
  lemma {:induction false} AssignmentGivesBins(order: seq<string>, bins: seq<seq<string>>, i: nat)
    requires multiset(Flatten(bins)) == multiset(order) && NoDuplicates(order) && i < |bins|
    ensures IsAssignment(AssignmentOf(order, bins), |order|, |bins|)
    ensures multiset(Bucket(order, AssignmentOf(order, bins), i)) == multiset(bins[i])
  {
    var a := AssignmentOf(order, bins);
    NoDuplicatesByCount(order);
    forall j | 0 <= j < |order| ensures a[j] < |bins| {
      assert order[j] in multiset(order);
      FlattenContains(bins, order[j]);
    }
    FlattenMembers(bins, i);
    forall x ensures multiset(Bucket(order, a, i))[x] == multiset(bins[i])[x] {
      var owner := ShardIndex(bins, x);
      BucketCount(order, a, i, x, owner);
      assert multiset(bins[i])[x] <= multiset(order)[x] <= 1;
      assert x in bins[i] <==> x in multiset(bins[i]);
      if x in bins[i] && owner != i {
        if owner < i { SharedTwice(bins, owner, i, x); } else { SharedTwice(bins, i, owner, x); }
      }
    }
  }

  lemma {:induction false} LargestCostOf(order: seq<string>, bins: seq<seq<string>>, measured: map<string, int>)
    requires PositiveWeights(measured) && bins != []
    requires multiset(Flatten(bins)) == multiset(order) && NoDuplicates(order)
    ensures IsAssignment(AssignmentOf(order, bins), |order|, |bins|)
    ensures LargestCost(bins, measured) == Max(Loads(Costs(order, measured), AssignmentOf(order, bins), |bins|))
  {
    var a := AssignmentOf(order, bins);
    AssignmentGivesBins(order, bins, 0);
    var costs := ShardCosts(bins, measured);
    forall i | 0 <= i < |bins| ensures costs[i] == Load(Costs(order, measured), a, i) {
      AssignmentGivesBins(order, bins, i);
      TotalCostOfPermutation(Bucket(order, a, i), bins[i], measured);
      BucketCost(order, a, i, measured);
    }
    assert costs == Loads(Costs(order, measured), a, |bins|);
  }

  // What `partition` promises, told with the measured times.

  /** Every name's time in milliseconds: as measured, or one second. */
  ghost predicate Times(measured: map<string, int>, names: seq<string>, w: map<string, nat>) {
    && (forall n :: n in w <==> n in names)
    && (forall n :: n in names && n in measured ==> w[n] == measured[n])
    && (forall n :: n in names && n !in measured ==> w[n] == 1000)
  }

  /** The time of a shard. */
  function TimeOf(shard: seq<string>, w: map<string, nat>): nat
    requires forall n :: n in shard ==> n in w
  {
    if shard == [] then 0 else w[shard[0]] + TimeOf(shard[1..], w)
  }

  /** The time of the slowest shard. */
  ghost predicate Slowest(bins: seq<seq<string>>, w: map<string, nat>, time: nat)
    requires forall i, n :: 0 <= i < |bins| && n in bins[i] ==> n in w
  {
    && (forall i :: 0 <= i < |bins| ==> TimeOf(bins[i], w) <= time)
    && (exists i :: 0 <= i < |bins| && TimeOf(bins[i], w) == time)
  }

  lemma {:induction false} SameTime(shard: seq<string>, names: seq<string>, measured: map<string, int>, w: map<string, nat>)
    requires PositiveWeights(measured) && Times(measured, names, w) && forall n :: n in shard ==> n in names
    ensures TimeOf(shard, w) == TotalCost(shard, measured)
  {
    if shard != [] { SameTime(shard[1..], names, measured, w); }
  }

  lemma {:induction false} PlanTimes(names: seq<string>, total: nat, measured: map<string, int>)
    requires total >= 1 && PositiveWeights(measured)
    ensures Times(measured, names, PlanOf(names, total, measured).weights)
  {
  }

  lemma {:induction false} FlattenMember(bins: seq<seq<string>>, i: nat, n: string)
    requires i < |bins| && n in bins[i]
    ensures n in Flatten(bins)
  {
    if i < |bins| - 1 { FlattenMember(bins[..|bins| - 1], i, n); }
  }

  /** Bins of the same names have times. */
  lemma {:induction false} BinsTimed(names: seq<string>, bins: seq<seq<string>>, measured: map<string, int>, w: map<string, nat>)
    requires PositiveWeights(measured) && Times(measured, names, w) && multiset(Flatten(bins)) == multiset(names)
    ensures forall i, n :: 0 <= i < |bins| && n in bins[i] ==> n in w
    ensures forall i :: 0 <= i < |bins| ==> TimeOf(bins[i], w) == TotalCost(bins[i], measured)
  {
    forall i, n | 0 <= i < |bins| && n in bins[i] ensures n in names && n in w {
      FlattenMember(bins, i, n);
      assert n in multiset(Flatten(bins));
    }
    forall i | 0 <= i < |bins| ensures TimeOf(bins[i], w) == TotalCost(bins[i], measured) { SameTime(bins[i], names, measured, w); }
  }

  lemma {:induction false} SlowestIs(names: seq<string>, bins: seq<seq<string>>, measured: map<string, int>, w: map<string, nat>, time: nat)
    requires PositiveWeights(measured) && Times(measured, names, w) && multiset(Flatten(bins)) == multiset(names) && bins != []
    requires forall i, n :: 0 <= i < |bins| && n in bins[i] ==> n in w
    ensures Slowest(bins, w, time) <==> time == LargestCost(bins, measured)
  {
    BinsTimed(names, bins, measured, w);
    var costs := ShardCosts(bins, measured);
    assert forall i :: 0 <= i < |bins| ==> costs[i] == TimeOf(bins[i], w);
    var k :| 0 <= k < |costs| && costs[k] == Max(costs);
    assert TimeOf(bins[k], w) == Max(costs);
  }

  lemma {:induction false} SamePermutation(names: seq<string>, flat: seq<string>)
    requires multiset(flat) == multiset(names) && NoDuplicates(names)
    ensures NoDuplicates(flat) && Sort(flat) == Sort(names)
  {
    NoDuplicatesOfPermutation(names, flat);
    LessEqIsTotalOrder();
    SortOfPermutation(flat, names, LessEq);
  }

  lemma {:induction false} PlanSize(names: seq<string>, total: nat, measured: map<string, int>, isTestName: string -> bool)
    requires Acceptable(names, total, measured, isTestName)
    ensures |PlanOf(names, total, measured).shards| == total
  {
  }

  lemma {:induction false} ShardsCover(names: seq<string>, total: nat, measured: map<string, int>, isTestName: string -> bool)
    requires Acceptable(names, total, measured, isTestName)
    ensures var p := PlanOf(names, total, measured);
            && |p.shards| == total
            && multiset(Flatten(p.shards)) == multiset(names) == multiset(p.discovered)
            && NoDuplicates(Flatten(p.shards))
            && Sort(Flatten(p.shards)) == Sort(names)
            && (forall i :: 0 <= i < total ==>
                 p.shards[i] != [] && SortedBy(p.shards[i], LessEq) && p.totals[i] == TotalCost(p.shards[i], measured))
  {
    var order := Order(names, measured);
    var c := Costs(order, measured);
    var a := Greedy(c, total);
    OrderLongestFirst(names, measured);
    BucketsCover(order, a, total);
    FlattenSorted(Buckets(order, a, total));
    SamePermutation(names, Flatten(PlanOf(names, total, measured).shards));
    SortKeepsMembers(names);
    forall i | 0 <= i < total
      ensures Sort(Bucket(order, a, i)) != [] && SortedBy(Sort(Bucket(order, a, i)), LessEq)
      ensures Load(c, a, i) == TotalCost(Sort(Bucket(order, a, i)), measured)
    {
      ShardHolds(names, total, measured, isTestName, i);
    }
  }

  /** Every test is in exactly one shard, no shard is empty, the recorded weights are the measured times, or one second, and the
      recorded totals add them up; the tests without a measured time and the measured names without a test are listed. */
  lemma {:induction false} PlanCovers(names: seq<string>, total: nat, measured: map<string, int>, isTestName: string -> bool)
    requires Acceptable(names, total, measured, isTestName)
    ensures var p := PlanOf(names, total, measured);
            && |p.shards| == |p.totals| == total
            && multiset(Flatten(p.shards)) == multiset(names) == multiset(p.discovered)
            && NoDuplicates(Flatten(p.shards))
            && Sort(Flatten(p.shards)) == Sort(names)
            && SortedBy(p.discovered, LessEq) && SortedBy(p.unknown, LessEq) && SortedBy(p.obsolete, LessEq)
            && (forall i :: 0 <= i < total ==> p.shards[i] != [] && SortedBy(p.shards[i], LessEq))
            && Times(measured, names, p.weights)
            && (forall i, n :: 0 <= i < total && n in p.shards[i] ==> n in p.weights)
            && (forall i :: 0 <= i < total ==> p.totals[i] == TimeOf(p.shards[i], p.weights))
            && NoDuplicates(p.unknown) && (forall n :: n in p.unknown <==> n in names && n !in measured)
            && NoDuplicates(p.obsolete) && (forall n :: n in p.obsolete <==> n in measured && n !in names)
  {
    var p := PlanOf(names, total, measured);
    ShardsCover(names, total, measured, isTestName);
    PlanTimes(names, total, measured);
    BinsTimed(names, p.shards, measured, p.weights);
    LessEqIsTotalOrder();
    SortByCorrect(names, LessEq);
  }

  lemma {:induction false} ShardHolds(names: seq<string>, total: nat, measured: map<string, int>, isTestName: string -> bool, i: nat)
    requires Acceptable(names, total, measured, isTestName) && i < total
    ensures var order := Order(names, measured); var c := Costs(order, measured); var a := Greedy(c, total);
      && |order| == |names| && IsAssignment(a, |order|, total)
      && Sort(Bucket(order, a, i)) != [] && SortedBy(Sort(Bucket(order, a, i)), LessEq)
      && Load(c, a, i) == TotalCost(Sort(Bucket(order, a, i)), measured)
  {
    var order := Order(names, measured);
    var c := Costs(order, measured);
    var a := Greedy(c, total);
    OrderLongestFirst(names, measured);
    NoEmptyShard(order, c, total, i);
    SortKeepsMembers(Bucket(order, a, i));
    BucketCost(order, a, i, measured);
    TotalCostSorted(Bucket(order, a, i), measured);
  }

  lemma {:induction false} LargestShard(names: seq<string>, total: nat, measured: map<string, int>, isTestName: string -> bool)
    requires Acceptable(names, total, measured, isTestName)
    ensures var p := PlanOf(names, total, measured);
            p.shards != [] && LargestCost(p.shards, measured) == Max(p.totals)
  {
    ShardsCover(names, total, measured, isTestName);
    var p := PlanOf(names, total, measured);
    assert ShardCosts(p.shards, measured) == p.totals;
  }

  lemma {:induction false} CostNearOptimal(names: seq<string>, total: nat, measured: map<string, int>, isTestName: string -> bool, bins: seq<seq<string>>)
    requires Acceptable(names, total, measured, isTestName)
    requires |bins| == total && multiset(Flatten(bins)) == multiset(names)
    ensures PlanOf(names, total, measured).shards != []
    ensures WithinTwice(total, LargestCost(PlanOf(names, total, measured).shards, measured), LargestCost(bins, measured))
    ensures WithinFourThirds(total, LargestCost(PlanOf(names, total, measured).shards, measured), LargestCost(bins, measured))
  {
    var order := Order(names, measured);
    OrderLongestFirst(names, measured);
    NoDuplicatesOfPermutation(names, order);
    LargestShard(names, total, measured, isTestName);
    LargestCostOf(order, bins, measured);
    GreedyBound(Costs(order, measured), total, AssignmentOf(order, bins));
  }

  /** Against every other split of the same tests into as many shards, in the measured times, with one second for a test that has
      none: the slowest shard takes at most (4/3 - 1/(3m)) times, hence also (2 - 1/m) times, as long. */
  lemma {:induction false} PlanNearOptimal(names: seq<string>, total: nat, measured: map<string, int>, isTestName: string -> bool,
                                           bins: seq<seq<string>>, w: map<string, nat>, ours: nat, theirs: nat)
    requires Acceptable(names, total, measured, isTestName) && Times(measured, names, w)
    requires |bins| == total && multiset(Flatten(bins)) == multiset(names)
    ensures var p := PlanOf(names, total, measured);
      && (forall i, n :: 0 <= i < |p.shards| && n in p.shards[i] ==> n in w)
      && (forall i, n :: 0 <= i < |bins| && n in bins[i] ==> n in w)
      && (Slowest(p.shards, w, ours) && Slowest(bins, w, theirs) ==> WithinTwice(total, ours, theirs) && WithinFourThirds(total, ours, theirs))
  {
    var p := PlanOf(names, total, measured);
    ShardsCover(names, total, measured, isTestName);
    CostNearOptimal(names, total, measured, isTestName, bins);
    BinsTimed(names, p.shards, measured, w);
    BinsTimed(names, bins, measured, w);
    SlowestIs(names, p.shards, measured, w, ours);
    SlowestIs(names, bins, measured, w, theirs);
  }

  /** How the plan came about: longest first, ties by name, each test on the lowest numbered of the least loaded shards. */
  ghost predicate ListScheduled(p: Plan, order: seq<string>, a: seq<nat>, w: map<string, nat>)
    requires forall n :: n in order ==> n in w
  {
    && |a| == |order| && |p.shards| > 0
    && (forall i, j :: 0 <= i < j < |order| ==> w[order[i]] > w[order[j]] || (w[order[i]] == w[order[j]] && LessEq(order[i], order[j])))
    && (forall k :: 0 <= k < |order| ==>
          a[k] < |p.shards| && order[k] in p.shards[a[k]] && OnLeast(TimesIn(order, w)[..k], a[..k], |p.shards|, a[k]))
  }

  function TimesIn(order: seq<string>, w: map<string, nat>): (c: seq<nat>)
    requires forall n :: n in order ==> n in w
    ensures |c| == |order| && forall k :: 0 <= k < |c| ==> c[k] == w[order[k]]
  {
    seq(|order|, k requires 0 <= k < |order| => assert order[k] in order; w[order[k]])
  }

  ghost predicate OnLeast(c: seq<nat>, a: seq<nat>, m: nat, shard: nat)
    requires |c| == |a|
  {
    forall i :: 0 <= i < m ==> Load(c, a, shard) <= Load(c, a, i) && (i < shard ==> Load(c, a, shard) < Load(c, a, i))
  }

  lemma {:induction false} LeastIsLeast(c: seq<nat>, a: seq<nat>, m: nat)
    requires m >= 1 && |c| == |a|
    ensures OnLeast(c, a, m, LeastLoaded(Loads(c, a, m)))
  {
    var loads := Loads(c, a, m);
    var k := LeastLoaded(loads);
    forall i | 0 <= i < m ensures Load(c, a, k) <= Load(c, a, i) && (i < k ==> Load(c, a, k) < Load(c, a, i)) {
      assert loads[k] == Load(c, a, k) && loads[i] == Load(c, a, i);
    }
  }

  lemma {:induction false} GreedyOnLeast(c: seq<nat>, m: nat, k: nat)
    requires m >= 1 && k < |c|
    ensures var a := Greedy(c, m); |a| == |c| && a[k] < m && OnLeast(c[..k], a[..k], m, a[k])
  {
    var n, a := |c| - 1, Greedy(c, m);
    if k == n {
      assert a[..n] == Greedy(c[..n], m);
      LeastIsLeast(c[..n], a[..n], m);
    } else {
      GreedyOnLeast(c[..n], m, k);
      assert c[..n][..k] == c[..k] && a[..n] == Greedy(c[..n], m) && a[..n][..k] == a[..k];
    }
  }

  lemma {:induction false} InItsBucket(order: seq<string>, a: seq<nat>, k: nat)
    requires |order| == |a| && k < |order|
    ensures order[k] in Bucket(order, a, a[k])
  {
    var n := |order| - 1;
    if k < n { InItsBucket(order[..n], a[..n], k); }
  }

  lemma {:induction false} OrderTimed(names: seq<string>, order: seq<string>, measured: map<string, int>, w: map<string, nat>)
    requires PositiveWeights(measured) && Times(measured, names, w) && multiset(order) == multiset(names)
    ensures forall n :: n in order ==> n in w
    ensures TimesIn(order, w) == Costs(order, measured)
  {
    forall n | n in order ensures n in names && n in w { assert n in multiset(order); }
  }

  lemma {:induction false} OrderedByTime(names: seq<string>, measured: map<string, int>, w: map<string, nat>)
    requires PositiveWeights(measured) && Times(measured, names, w)
    ensures var order := Order(names, measured);
      && multiset(order) == multiset(names) && (forall n :: n in order ==> n in w)
      && forall i, j :: 0 <= i < j < |order| ==> w[order[i]] > w[order[j]] || (w[order[i]] == w[order[j]] && LessEq(order[i], order[j]))
  {
    var order := Order(names, measured);
    BeforeIsTotalOrder(measured);
    SortByCorrect(names, Before(measured));
    OrderTimed(names, order, measured, w);
    forall i, j | 0 <= i < j < |order| ensures w[order[i]] > w[order[j]] || (w[order[i]] == w[order[j]] && LessEq(order[i], order[j])) {
      assert Before(measured)(order[i], order[j]);
      assert TimesIn(order, w)[i] == w[order[i]] && TimesIn(order, w)[j] == w[order[j]];
    }
  }

  /** The plan is the list schedule of the names in that order. */
  lemma {:induction false} PlanIsListSchedule(names: seq<string>, total: nat, measured: map<string, int>, isTestName: string -> bool)
    returns (order: seq<string>, a: seq<nat>)
    requires Acceptable(names, total, measured, isTestName)
    ensures multiset(order) == multiset(names)
    ensures var p := PlanOf(names, total, measured); (forall n :: n in order ==> n in p.weights) && ListScheduled(p, order, a, p.weights)
  {
    var p := PlanOf(names, total, measured);
    order := Order(names, measured);
    a := Greedy(Costs(order, measured), total);
    PlanTimes(names, total, measured);
    OrderedByTime(names, measured, p.weights);
    OrderTimed(names, order, measured, p.weights);
    forall k | 0 <= k < |order|
      ensures a[k] < total && order[k] in p.shards[a[k]] && OnLeast(TimesIn(order, p.weights)[..k], a[..k], total, a[k])
    {
      PlacedAt(order, measured, total, k);
    }
  }

  lemma {:induction false} PlacedAt(order: seq<string>, measured: map<string, int>, total: nat, k: nat)
    requires PositiveWeights(measured) && total >= 1 && k < |order|
    ensures var c := Costs(order, measured);
            var a := Greedy(c, total);
            a[k] < total && order[k] in Sort(Bucket(order, a, a[k])) && OnLeast(c[..k], a[..k], total, a[k])
  {
    var c := Costs(order, measured);
    var a := Greedy(c, total);
    GreedyOnLeast(c, total, k);
    InItsBucket(order, a, k);
    SortKeepsMembers(Bucket(order, a, a[k]));
  }

  /** The partition depends on the set of names, not on their order. */
  lemma {:induction false} PlanOfPermutation(names: seq<string>, other: seq<string>, total: nat, measured: map<string, int>)
    requires total >= 1 && PositiveWeights(measured) && multiset(names) == multiset(other)
    ensures PlanOf(names, total, measured) == PlanOf(other, total, measured)
  {
    LessEqIsTotalOrder();
    BeforeIsTotalOrder(measured);
    SortOfPermutation(names, other, LessEq);
    SortOfPermutation(names, other, Before(measured));
    assert forall n :: n in names <==> n in multiset(names);
    assert forall n :: n in other <==> n in multiset(other);
    assert (set n | n in names) == (set n | n in other);
  }

  /** The shards and totals after the first `k` placements, made by assignment `a`. */
  ghost predicate Placed(order: seq<string>, c: seq<nat>, total: nat, k: nat, a: seq<nat>, bins: seq<seq<string>>, totals: seq<nat>)
    requires |c| == |order| && k <= |order| && |a| == k
  {
    bins == Buckets(order[..k], a, total) && totals == Loads(c[..k], a, total)
  }

  /** Placing the next test extends both the shards and their totals. */
  lemma {:induction false} PlaceNext(order: seq<string>, c: seq<nat>, total: nat, k: nat, a: seq<nat>, index: nat, bins: seq<seq<string>>, totals: seq<nat>)
    requires |c| == |order| && k < |order| && |a| == k && index < total && Placed(order, c, total, k, a, bins, totals)
    ensures |bins| == |totals| == total
    ensures Placed(order, c, total, k + 1, a + [index], bins[index := bins[index] + [order[k]]], totals[index := totals[index] + c[k]])
  {
    PlaceNextName(order, a, total, k, index);
    PlaceNextLoad(c, a, total, k, index);
  }

  /** The assignment of one more job puts it on the least loaded shard. */
  lemma {:induction false} GreedyNext(c: seq<nat>, total: nat, k: nat)
    requires total >= 1 && k < |c|
    ensures var a := Greedy(c[..k], total); Greedy(c[..k + 1], total) == a + [LeastLoaded(Loads(c[..k], a, total))]
  {
    assert c[..k + 1][..k] == c[..k];
  }

  lemma {:induction false} PlaceNextName(order: seq<string>, a: seq<nat>, total: nat, k: nat, index: nat)
    requires k < |order| && |a| == k && index < total
    ensures var bins := Buckets(order[..k], a, total);
            Buckets(order[..k + 1], a + [index], total) == bins[index := bins[index] + [order[k]]]
  {
    assert order[..k + 1][..k] == order[..k] && (a + [index])[..k] == a;
    forall i | 0 <= i < total
      ensures Bucket(order[..k + 1], a + [index], i)
           == if i == index then Bucket(order[..k], a, i) + [order[k]] else Bucket(order[..k], a, i)
    {
      assert Bucket(order[..k], a, i) + [] == Bucket(order[..k], a, i);
    }
  }

  lemma {:induction false} PlaceNextLoad(c: seq<nat>, a: seq<nat>, total: nat, k: nat, index: nat)
    requires k < |c| && |a| == k && index < total
    ensures var totals := Loads(c[..k], a, total);
            Loads(c[..k + 1], a + [index], total) == totals[index := totals[index] + c[k]]
  {
    assert c[..k + 1][..k] == c[..k] && (a + [index])[..k] == a;
  }

  /** The placement loop, over the mutable shards and totals. */
  method PlaceAll(order: seq<string>, total: nat, measured: map<string, int>)
    returns (bins: seq<seq<string>>, totals: seq<nat>)
    requires total >= 1 && PositiveWeights(measured)
    ensures var c := Costs(order, measured);
            bins == Buckets(order, Greedy(c, total), total) && totals == Loads(c, Greedy(c, total), total)
  {
    bins, totals := PlaceEach(order, Costs(order, measured), total);
  }

  method PlaceEach(order: seq<string>, c: seq<nat>, total: nat) returns (bins: seq<seq<string>>, totals: seq<nat>)
    requires total >= 1 && |c| == |order|
    ensures bins == Buckets(order, Greedy(c, total), total) && totals == Loads(c, Greedy(c, total), total)
  {
    bins := seq(total, _ => []);
    totals := seq(total, _ => 0);
    var k := 0;
    ghost var a: seq<nat> := [];
    NothingPlaced(order, c, total);
    while k < |order|
      invariant 0 <= k <= |order| && |bins| == |totals| == total && |a| == k
      invariant a == Greedy(c[..k], total)
      invariant Placed(order, c, total, k, a, bins, totals)
    {
      var index := LeastLoaded(totals);
      GreedyNext(c, total, k);
      PlaceNext(order, c, total, k, a, index, bins, totals);
      bins := bins[index := bins[index] + [order[k]]];
      totals := totals[index := totals[index] + c[k]];
      k, a := k + 1, a + [index];
    }
    assert c[..k] == c;
    AllPlaced(order, c, total, a, bins, totals);
  }

  lemma {:induction false} AllPlaced(order: seq<string>, c: seq<nat>, total: nat, a: seq<nat>, bins: seq<seq<string>>, totals: seq<nat>)
    requires |c| == |order| == |a| && Placed(order, c, total, |order|, a, bins, totals)
    ensures bins == Buckets(order, a, total) && totals == Loads(c, a, total)
  {
    assert order[..|order|] == order && c[..|order|] == c;
  }

  lemma {:induction false} NothingPlaced(order: seq<string>, c: seq<nat>, total: nat)
    requires total >= 1 && |c| == |order|
    ensures Greedy(c[..0], total) == []
    ensures Placed(order, c, total, 0, [], seq(total, _ => []), seq(total, _ => 0))
  {
    assert order[..0] == [] && c[..0] == [];
  }

  lemma {:induction false} AcceptableMeans(names: seq<string>, total: int, measured: map<string, int>, isTestName: string -> bool)
    ensures Acceptable(names, total, measured, isTestName) <==>
      && 1 <= total <= |names| && (forall i, j :: 0 <= i < j < |names| ==> names[i] != names[j])
      && (forall i :: 0 <= i < |names| ==> isTestName(names[i]) && names[i] != "TestMain")
      && (forall n :: n in measured ==> measured[n] > 0)
  {
    assert (forall n :: n in names ==> isTestName(n) && n != "TestMain") <==> forall i :: 0 <= i < |names| ==> isTestName(names[i]) && names[i] != "TestMain";
  }

  /** `partition`. Its own final check, kept here, never fires. */
  method Partition(names: seq<string>, total: int, measured: map<string, int>, isTestName: string -> bool)
    returns (r: Result<Plan>)
    ensures r.Ok? <==>
      && 1 <= total <= |names| && (forall i, j :: 0 <= i < j < |names| ==> names[i] != names[j])
      && (forall i :: 0 <= i < |names| ==> isTestName(names[i]) && names[i] != "TestMain")
      && (forall n :: n in measured ==> measured[n] > 0)
    ensures r.Ok? ==> r.value == PlanOf(names, total, measured)
  {
    AcceptableMeans(names, total, measured, isTestName);
    if !Acceptable(names, total, measured, isTestName) {
      return Rejected;
    }
    var bins, totals := PlaceAll(Order(names, measured), total, measured);
    var shards := SortEach(bins);
    var plan := Plan(Sort(names), shards, map n | n in names :: Cost(measured, n), totals,
                     SortedKeys((set n | n in names) - measured.Keys),
                     SortedKeys(measured.Keys - (set n | n in names)));
    assert plan == PlanOf(names, total, measured);
    PlanCovers(names, total, measured, isTestName);
    var flat := Flatten(shards);
    var covered := (forall i :: 0 <= i < |shards| ==> shards[i] != []) && Sort(flat) == Sort(names) && NoDuplicates(flat);
    r := if covered then Ok(plan) else Rejected;
  }
}
