/** Load bounds of the greedy longest-first placement in
    `partition` (scripts/ci-go-test-shards.py). Jobs are the tests in the order in
    which they are placed; an assignment gives each job its shard. */
module ShardBound {

  /** The cost that assignment `a` puts on shard `i`. */
  function Load(c: seq<nat>, a: seq<nat>, i: nat): nat
    requires |c| == |a|
  {
    if c == [] then 0
    else
      var n := |c| - 1;
      Load(c[..n], a[..n], i) + if a[n] == i then c[n] else 0
  }

  function Loads(c: seq<nat>, a: seq<nat>, m: nat): (r: seq<nat>)
    requires |c| == |a|
    ensures |r| == m && forall i :: 0 <= i < m ==> r[i] == Load(c, a, i)
  {
    seq(m, i requires 0 <= i => Load(c, a, i))
  }

  function Sum(c: seq<nat>): nat {
    if c == [] then 0 else Sum(c[..|c| - 1]) + c[|c| - 1]
  }

  function Max(s: seq<nat>): (r: nat)
    requires s != []
    ensures r in s && forall i :: 0 <= i < |s| ==> s[i] <= r
  {
    if |s| == 1 then s[0]
    else
      var r := Max(s[..|s| - 1]);
      if s[|s| - 1] > r then s[|s| - 1] else r
  }

  /** The first of the least loaded shards: `min(range(total), key=lambda i: (totals[i], i))`. */
  function LeastLoaded(loads: seq<nat>): (k: nat)
    requires loads != []
    ensures k < |loads|
    ensures forall i :: 0 <= i < |loads| ==> loads[k] <= loads[i]
    ensures forall i :: 0 <= i < k ==> loads[k] < loads[i]
  {
    if |loads| == 1 then 0
    else
      var k := LeastLoaded(loads[..|loads| - 1]);
      if loads[|loads| - 1] < loads[k] then |loads| - 1 else k
  }

  /** Each job goes to the least loaded shard at its turn. */
  function Greedy(c: seq<nat>, m: nat): (a: seq<nat>)
    requires m >= 1
    ensures |a| == |c| && forall j :: 0 <= j < |a| ==> a[j] < m
  {
    if c == [] then []
    else
      var n := |c| - 1;
      var a := Greedy(c[..n], m);
      a + [LeastLoaded(Loads(c[..n], a, m))]
  }

  ghost predicate IsAssignment(a: seq<nat>, jobs: nat, m: nat) {
    |a| == jobs && forall j :: 0 <= j < |a| ==> a[j] < m
  }

  ghost predicate Descending(c: seq<nat>) {
    forall i, j :: 0 <= i < j < |c| ==> c[i] >= c[j]
  }

  // Sums of loads over the first `m` shards.

  function SumLoads(c: seq<nat>, a: seq<nat>, m: nat): nat
    requires |c| == |a|
  {
    if m == 0 then 0 else SumLoads(c, a, m - 1) + Load(c, a, m - 1)
  }

  lemma {:induction false} SumLoadsStep(c: seq<nat>, a: seq<nat>, m: nat)
    requires |c| == |a| > 0
    ensures var n := |c| - 1;
            SumLoads(c, a, m) == SumLoads(c[..n], a[..n], m) + if a[n] < m then c[n] else 0
  {
    if m > 0 { SumLoadsStep(c, a, m - 1); }
  }

  /** No cost is lost or counted twice: the shard loads add up to the total cost. */
  lemma {:induction false} LoadsConserveCost(c: seq<nat>, a: seq<nat>, m: nat)
    requires IsAssignment(a, |c|, m)
    ensures SumLoads(c, a, m) == Sum(c)
  {
    if c == [] {
      NoJobsNoLoad(a, m);
    } else {
      var n := |c| - 1;
      SumLoadsStep(c, a, m);
      LoadsConserveCost(c[..n], a[..n], m);
    }
  }

  lemma {:induction false} NoJobsNoLoad(a: seq<nat>, m: nat)
    requires a == []
    ensures SumLoads([], a, m) == 0
  {
    if m > 0 { NoJobsNoLoad(a, m - 1); }
  }

  lemma {:induction false} SumLoadsAtMost(c: seq<nat>, a: seq<nat>, m: nat, bound: nat)
    requires |c| == |a|
    requires forall i :: 0 <= i < m ==> Load(c, a, i) <= bound
    ensures SumLoads(c, a, m) <= m * bound
  {
    if m > 0 {
      SumLoadsAtMost(c, a, m - 1, bound);
      assert m * bound == (m - 1) * bound + bound;
    }
  }

  lemma {:induction false} SumLoadsAtLeast(c: seq<nat>, a: seq<nat>, m: nat, bound: nat)
    requires |c| == |a|
    requires forall i :: 0 <= i < m ==> Load(c, a, i) >= bound
    ensures SumLoads(c, a, m) >= m * bound
  {
    if m > 0 {
      SumLoadsAtLeast(c, a, m - 1, bound);
      assert m * bound == (m - 1) * bound + bound;
    }
  }

  lemma {:induction false} LoadOfPrefix(c: seq<nat>, a: seq<nat>, i: nat, n: nat)
    requires |c| == |a| && n <= |c|
    ensures Load(c[..n], a[..n], i) <= Load(c, a, i)
  {
    if n < |c| {
      var k := |c| - 1;
      LoadOfPrefix(c[..k], a[..k], i, n);
      assert c[..k][..n] == c[..n] && a[..k][..n] == a[..n];
    } else {
      assert c[..n] == c && a[..n] == a;
    }
  }

  lemma {:induction false} JobWithinItsLoad(c: seq<nat>, a: seq<nat>, j: nat)
    requires |c| == |a| && j < |c|
    ensures c[j] <= Load(c, a, a[j])
  {
    LoadOfPrefix(c, a, a[j], j + 1);
    assert c[..j + 1][..j] == c[..j];
  }

  // The case in which the last job is more than a third of the other makespan.

  /** A job is big when it does not fit beside the last (smallest) one under `t`. */
  function Weight(x: nat, p: nat, t: nat): nat {
    if x + p > t then 2 else 1
  }

  function Weights(c: seq<nat>, p: nat, t: nat): (w: seq<nat>)
    ensures |w| == |c| && forall j :: 0 <= j < |c| ==> w[j] == Weight(c[j], p, t)
  {
    seq(|c|, j requires 0 <= j < |c| => Weight(c[j], p, t))
  }

  /** Under makespan `t`, with every job above `t/3`, a shard holds at most two jobs, and a big job is alone. */
  lemma {:induction false} WeightUnderMakespan(c: seq<nat>, a: seq<nat>, i: nat, p: nat, t: nat)
    requires |c| == |a| && 3 * p > t
    requires forall j :: 0 <= j < |c| ==> c[j] >= p
    ensures var l, w := Load(c, a, i), Load(Weights(c, p, t), a, i);
            (w >= 1 ==> l >= p) && (w >= 2 ==> l >= 2 * p || l + p > t) && (w >= 3 ==> l > t)
  {
    if c != [] {
      var n := |c| - 1;
      WeightUnderMakespan(c[..n], a[..n], i, p, t);
      assert Weights(c, p, t)[..n] == Weights(c[..n], p, t);
    }
  }

  /** A shard that cannot take `p` more under `t` holds two jobs or a big one. */
  lemma {:induction false} WeightWhenFull(c: seq<nat>, a: seq<nat>, i: nat, p: nat, t: nat)
    requires |c| == |a| && p <= t
    ensures var l, w := Load(c, a, i), Load(Weights(c, p, t), a, i);
            (w == 0 ==> l == 0) && (w <= 1 ==> l + p <= t)
  {
    if c != [] {
      var n := |c| - 1;
      WeightWhenFull(c[..n], a[..n], i, p, t);
      assert Weights(c, p, t)[..n] == Weights(c[..n], p, t);
    }
  }

  lemma {:induction false} LargeLastJobFits(front: seq<nat>, p: nat, m: nat, other: seq<nat>, t: nat, g: seq<nat>, low: nat)
    requires m >= 1 && IsAssignment(other, |front| + 1, m) && IsAssignment(g, |front|, m)
    requires forall j :: 0 <= j < |front| ==> front[j] >= p
    requires forall k :: 0 <= k < m ==> Load(front + [p], other, k) <= t
    requires 3 * p > t
    requires forall k :: 0 <= k < m ==> low <= Load(front, g, k)
    ensures low + p <= t
  {
    var c, n := front + [p], |front|;
    var w := Weights(c, p, t);
    JobWithinItsLoad(c, other, n);
    if low + p > t {
      forall k | 0 <= k < m ensures Load(w, other, k) <= 2 {
        WeightUnderMakespan(c, other, k, p, t);
      }
      SumLoadsAtMost(w, other, m, 2);
      LoadsConserveCost(w, other, m);
      assert w[..n] == Weights(front, p, t);
      forall k | 0 <= k < m ensures Load(w[..n], g, k) >= 2 {
        WeightWhenFull(front, g, k, p, t);
      }
      SumLoadsAtLeast(w[..n], g, m, 2);
      LoadsConserveCost(w[..n], g, m);
      assert false;
    }
  }

  /** `load` is at most (2 - 1/m) times `t`. */
  ghost predicate WithinTwice(m: nat, load: nat, t: nat) {
    m * load <= (2 * m - 1) * t
  }

  /** `load` is at most (4/3 - 1/(3m)) times `t`. */
  ghost predicate WithinFourThirds(m: nat, load: nat, t: nat) {
    3 * m * load <= (4 * m - 1) * t
  }

  // The bounds at the moment a job is placed.

  lemma {:induction false} AverageBound(front: seq<nat>, p: nat, m: nat, other: seq<nat>, t: nat, g: seq<nat>, low: nat)
    requires m >= 1 && IsAssignment(other, |front| + 1, m) && IsAssignment(g, |front|, m)
    requires forall i :: 0 <= i < m ==> Load(front + [p], other, i) <= t
    requires forall i :: 0 <= i < m ==> low <= Load(front, g, i)
    ensures m * low + p <= m * t
  {
    SumLoadsAtLeast(front, g, m, low);
    LoadsConserveCost(front, g, m);
    SumLoadsAtMost(front + [p], other, m, t);
    LoadsConserveCost(front + [p], other, m);
    assert (front + [p])[..|front|] == front;
  }

  lemma {:induction false} ScaleAverage(m: nat, low: nat, p: nat, t: nat)
    requires m >= 1 && m * low + p <= m * t && p <= t
    ensures WithinTwice(m, low + p, t)
    ensures 3 * p <= t ==> WithinFourThirds(m, low + p, t)
  {
    Spread(m, low, p);
    ScaleTwice(m, t);
    MulMonotone(m - 1, p, t);
    if 3 * p <= t { ScaleFourThirds(m, low + p, p, t); }
  }

  lemma {:induction false} Spread(m: nat, low: nat, p: nat)
    requires m >= 1
    ensures m * (low + p) == m * low + p + (m - 1) * p
  {
    assert m * (low + p) == m * low + m * p;
  }

  lemma {:induction false} ScaleTwice(m: nat, t: nat)
    requires m >= 1
    ensures (2 * m - 1) * t == m * t + (m - 1) * t
  {
  }

  lemma {:induction false} ScaleFourThirds(m: nat, load: nat, p: nat, t: nat)
    requires m >= 1 && 3 * p <= t && m * load <= m * t + (m - 1) * p
    ensures WithinFourThirds(m, load, t)
  {
    var r := m - 1;
    MulMonotone(r, 3 * p, t);
    assert r * (3 * p) == 3 * (r * p);
    assert (4 * m - 1) * t == 3 * (m * t) + r * t;
    assert 3 * m * load == 3 * (m * load);
  }

  lemma {:induction false} MulMonotone(r: nat, x: nat, y: nat)
    requires x <= y
    ensures r * x <= r * y
  {
    assert r * y == r * x + r * (y - x);
  }

  /** The load a job makes when placed on a shard of least load `low`. */
  lemma {:induction false} PlacementBound(front: seq<nat>, p: nat, m: nat, other: seq<nat>, t: nat, g: seq<nat>, low: nat)
    requires m >= 1 && IsAssignment(other, |front| + 1, m) && IsAssignment(g, |front|, m)
    requires forall i :: 0 <= i < m ==> Load(front + [p], other, i) <= t
    requires forall i :: 0 <= i < m ==> low <= Load(front, g, i)
    ensures WithinTwice(m, low + p, t)
    ensures (forall j :: 0 <= j < |front| ==> front[j] >= p) ==> WithinFourThirds(m, low + p, t)
  {
    AverageBound(front, p, m, other, t, g, low);
    JobWithinItsLoad(front + [p], other, |front|);
    ScaleAverage(m, low, p, t);
    if (forall j :: 0 <= j < |front| ==> front[j] >= p) && 3 * p > t {
      LargeLastJobFits(front, p, m, other, t, g, low);
      ScaleFit(m, low + p, t);
    }
  }

  lemma {:induction false} ScaleFit(m: nat, load: nat, t: nat)
    requires m >= 1 && load <= t
    ensures WithinFourThirds(m, load, t)
  {
    MulMonotone(3 * m, load, t);
    assert (4 * m - 1) * t == 3 * m * t + (m - 1) * t;
    MulMonotone(m - 1, 0, t);
  }

  lemma {:induction false} ShardBoundHolds(c: seq<nat>, m: nat, other: seq<nat>, t: nat, i: nat)
    requires m >= 1 && IsAssignment(other, |c|, m) && i < m
    requires forall k :: 0 <= k < m ==> Load(c, other, k) <= t
    ensures WithinTwice(m, Load(c, Greedy(c, m), i), t)
    ensures Descending(c) ==> WithinFourThirds(m, Load(c, Greedy(c, m), i), t)
  {
    if c == [] {
      MulMonotone(2 * m - 1, 0, t);
      MulMonotone(4 * m - 1, 0, t);
    } else {
      var n := |c| - 1;
      var g := Greedy(c, m);
      assert g[..n] == Greedy(c[..n], m);
      if g[n] == i {
        LastPlacedBound(c, m, other, t);
      } else {
        forall k | 0 <= k < m ensures Load(c[..n], other[..n], k) <= t {
          LoadOfPrefix(c, other, k, n);
        }
        ShardBoundHolds(c[..n], m, other[..n], t, i);
        assert Load(c, g, i) == Load(c[..n], g[..n], i);
      }
    }
  }

  lemma {:induction false} LastPlacedBound(c: seq<nat>, m: nat, other: seq<nat>, t: nat)
    requires m >= 1 && IsAssignment(other, |c|, m) && c != []
    requires forall k :: 0 <= k < m ==> Load(c, other, k) <= t
    ensures var load := Load(c, Greedy(c, m), Greedy(c, m)[|c| - 1]);
            WithinTwice(m, load, t) && (Descending(c) ==> WithinFourThirds(m, load, t))
  {
    var n := |c| - 1;
    var front, g := c[..n], Greedy(c[..n], m);
    var loads := Loads(front, g, m);
    var i := LeastLoaded(loads);
    assert Greedy(c, m) == g + [i];
    assert Load(c, g + [i], i) == loads[i] + c[n] by { assert (g + [i])[..n] == g; }
    assert c == front + [c[n]];
    forall k | 0 <= k < m ensures loads[i] <= Load(front, g, k) { assert loads[i] <= loads[k]; }
    PlacementBound(front, c[n], m, other, t, g, loads[i]);
  }

  /** The largest shard is at most (2 - 1/m) times, and for jobs placed longest first at most
      (4/3 - 1/(3m)) times, the largest shard of any assignment of the same jobs. */
  lemma {:induction false} GreedyBound(c: seq<nat>, m: nat, other: seq<nat>)
    requires m >= 1 && IsAssignment(other, |c|, m)
    ensures var greedy, best := Max(Loads(c, Greedy(c, m), m)), Max(Loads(c, other, m));
            WithinTwice(m, greedy, best) && (Descending(c) ==> WithinFourThirds(m, greedy, best))
  {
    var loads := Loads(c, Greedy(c, m), m);
    var others := Loads(c, other, m);
    var i :| 0 <= i < m && loads[i] == Max(loads);
    forall k | 0 <= k < m ensures Load(c, other, k) <= Max(others) { assert others[k] <= Max(others); }
    ShardBoundHolds(c, m, other, Max(others), i);
  }
}
