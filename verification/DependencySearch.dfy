/** The three-colour depth-first search of internal/decommission/dependency.go
    (`resolveTeardownOrder`) and internal/contract/lint.go (`validateDependencyCycles`). */
module DependencySearch {
  import opened Ordering

  /** The components taking part, each with its dependencies in the order they are visited.
      A dependency that is not a key of the graph is no edge. */
  type Graph = map<string, seq<string>>

  datatype Colour = Gray | Black

  /** White nodes are those without a colour. */
  datatype Search = Search(colour: map<string, Colour>, order: seq<string>)

  datatype Outcome = Done(search: Search) | CycleAt(id: string)

  predicate Edge(g: Graph, a: string, b: string) {
    a in g && b in g && b in g[a]
  }

  // The search as a function.

  function Explore(g: Graph, s: Search, id: string): (r: Outcome)
    requires id in g
    ensures r.Done? ==> s.colour.Keys <= r.search.colour.Keys
    decreases g.Keys - s.colour.Keys, 0
  {
    if id in s.colour then
      if s.colour[id] == Gray then CycleAt(id) else Done(s)
    else
      assert g.Keys - (s.colour.Keys + {id}) < g.Keys - s.colour.Keys by { assert id in g.Keys - s.colour.Keys; }
      var inside := ExploreAll(g, s.(colour := s.colour[id := Gray]), g[id]);
      if inside.CycleAt? then inside
      else Done(Search(inside.search.colour[id := Black], inside.search.order + [id]))
  }

  function ExploreAll(g: Graph, s: Search, ids: seq<string>): (r: Outcome)
    ensures r.Done? ==> s.colour.Keys <= r.search.colour.Keys
    decreases g.Keys - s.colour.Keys, 1, |ids|
  {
    if ids == [] then Done(s)
    else if ids[0] !in g then ExploreAll(g, s, ids[1..])
    else
      var first := Explore(g, s, ids[0]);
      if first.CycleAt? then first
      else
        assert g.Keys - first.search.colour.Keys <= g.Keys - s.colour.Keys;
        ExploreAll(g, first.search, ids[1..])
  }

  // Paths and cycles.

  ghost predicate IsPath(g: Graph, p: seq<string>) {
    && (forall i :: 0 <= i < |p| ==> p[i] in g)
    && (forall i, j :: 0 <= i && j == i + 1 && j < |p| ==> Edge(g, p[i], p[j]))
  }

  ghost predicate IsCycle(g: Graph, p: seq<string>) {
    |p| >= 2 && IsPath(g, p) && p[0] == p[|p| - 1]
  }

  ghost predicate HasCycle(g: Graph) {
    exists p :: IsCycle(g, p)
  }

  ghost predicate OnCycle(g: Graph, id: string) {
    exists p :: IsCycle(g, p) && p[0] == id
  }

  /** Every dependency of the node at position `i` was finished before it. */
  ghost predicate ProvidersFirst(g: Graph, order: seq<string>) {
    forall i, d :: 0 <= i < |order| && Edge(g, order[i], d) ==> d in order[..i]
  }

  /** Between visits: the gray nodes are the path `stack` from a root to the current node, the
      black ones are those in `order`, and every finished node comes after its dependencies. */
  ghost predicate Inv(g: Graph, s: Search, stack: seq<string>) {
    && s.colour.Keys <= g.Keys
    && NoDuplicates(s.order)
    && (forall n :: n in s.order <==> n in s.colour && s.colour[n] == Black)
    && (forall n :: n in stack <==> n in s.colour && s.colour[n] == Gray)
    && IsPath(g, stack)
    && ProvidersFirst(g, s.order)
  }

  ghost predicate Extends(s: Search, r: Search) {
    s.order <= r.order && s.colour.Keys <= r.colour.Keys
  }

  lemma {:induction false} ClosesCycle(g: Graph, stack: seq<string>, id: string)
    requires IsPath(g, stack) && id in stack && Edge(g, stack[|stack| - 1], id)
    ensures OnCycle(g, id)
  {
    var k :| 0 <= k < |stack| && stack[k] == id;
    var p := stack[k..] + [id];
    assert IsCycle(g, p) && p[0] == id;
  }

  lemma {:induction false} ExploreKeepsInv(g: Graph, s: Search, id: string, stack: seq<string>)
    requires id in g && Inv(g, s, stack)
    requires stack != [] ==> Edge(g, stack[|stack| - 1], id)
    ensures match Explore(g, s, id)
            case CycleAt(at) => OnCycle(g, at)
            case Done(r) => Inv(g, r, stack) && id in r.order && Extends(s, r)
    decreases g.Keys - s.colour.Keys, 0
  {
    if id in s.colour {
      if s.colour[id] == Gray {
        ClosesCycle(g, stack, id);
      }
    } else {
      assert g.Keys - (s.colour.Keys + {id}) < g.Keys - s.colour.Keys by { assert id in g.Keys - s.colour.Keys; }
      var entered := s.(colour := s.colour[id := Gray]);
      var deeper := stack + [id];
      assert Inv(g, entered, deeper);
      ExploreAllKeepsInv(g, entered, g[id], deeper, id);
      var inside := ExploreAll(g, entered, g[id]);
      if inside.Done? {
        FinishKeepsInv(g, inside.search, stack, id);
      }
    }
  }

  lemma {:induction false} FinishKeepsOrder(g: Graph, order: seq<string>, id: string)
    requires NoDuplicates(order) && ProvidersFirst(g, order) && id !in order && forall d :: Edge(g, id, d) ==> d in order
    ensures NoDuplicates(order + [id]) && ProvidersFirst(g, order + [id])
  {
    var next := order + [id];
    forall i, d | 0 <= i < |next| && Edge(g, next[i], d) ensures d in next[..i] {
      if i < |order| {
        assert d in order[..i];
        assert next[..i] == order[..i];
      } else {
        assert next[..i] == order;
      }
    }
  }

  /** Blackening a node whose dependencies are all finished. */
  lemma {:induction false} FinishKeepsInv(g: Graph, s: Search, stack: seq<string>, id: string)
    requires id in g && id !in stack && Inv(g, s, stack + [id])
    requires forall d :: Edge(g, id, d) ==> d in s.order
    ensures Inv(g, Search(s.colour[id := Black], s.order + [id]), stack)
  {
    var colour := s.colour[id := Black];
    assert id in stack + [id];
    FinishKeepsOrder(g, s.order, id);
    assert forall i :: 0 <= i < |stack| ==> stack[i] == (stack + [id])[i];
    forall n ensures n in stack <==> n in colour && colour[n] == Gray {
      assert n in stack + [id] <==> n in stack || n == id;
    }
  }

  lemma {:induction false} ExploreAllKeepsInv(g: Graph, s: Search, ids: seq<string>, stack: seq<string>, at: string)
    requires Inv(g, s, stack)
    requires stack != [] ==> at == stack[|stack| - 1] && forall d :: d in ids && d in g ==> Edge(g, at, d)
    ensures match ExploreAll(g, s, ids)
            case CycleAt(found) => OnCycle(g, found)
            case Done(r) => Inv(g, r, stack) && Extends(s, r) && forall d :: d in ids && d in g ==> d in r.order
    decreases g.Keys - s.colour.Keys, 1, |ids|
  {
    if ids != [] {
      assert ids == [ids[0]] + ids[1..];
      if ids[0] !in g {
        ExploreAllKeepsInv(g, s, ids[1..], stack, at);
      } else {
        ExploreKeepsInv(g, s, ids[0], stack);
        var first := Explore(g, s, ids[0]);
        if first.Done? {
          assert g.Keys - first.search.colour.Keys <= g.Keys - s.colour.Keys;
          ExploreAllKeepsInv(g, first.search, ids[1..], stack, at);
        }
      }
    }
  }

  // A finished order leaves no room for a cycle.

  function IndexOf(order: seq<string>, n: string): (i: nat)
    requires n in order
    ensures i < |order| && order[i] == n
  {
    if order[0] == n then 0 else 1 + IndexOf(order[1..], n)
  }

  lemma {:induction false} OrderDecreasesAlongPath(g: Graph, order: seq<string>, p: seq<string>)
    requires NoDuplicates(order) && ProvidersFirst(g, order) && IsPath(g, p) && |p| >= 2
    requires forall n :: n in g ==> n in order
    ensures IndexOf(order, p[|p| - 1]) < IndexOf(order, p[0])
  {
    var i := IndexOf(order, p[0]);
    assert Edge(g, p[0], p[1]);
    assert p[1] in order[..i];
    var j :| 0 <= j < i && order[j] == p[1];
    assert IndexOf(order, p[1]) == j;
    if |p| > 2 {
      OrderDecreasesAlongPath(g, order, p[1..]);
    }
  }

  lemma {:induction false} OrderExcludesCycle(g: Graph, order: seq<string>)
    requires NoDuplicates(order) && ProvidersFirst(g, order)
    requires forall n :: n in g ==> n in order
    ensures !HasCycle(g)
  {
    forall p | IsCycle(g, p) ensures false {
      OrderDecreasesAlongPath(g, order, p);
    }
  }

  const Fresh: Search := Search(map[], [])

  /** Visiting every node, in whatever order and however often, decides whether there is a cycle,
      names a node on one, and otherwise lists every node once, providers first. */
  lemma {:induction false} SearchExact(g: Graph, ids: seq<string>)
    requires forall n :: n in g <==> n in ids
    ensures var r := ExploreAll(g, Fresh, ids);
            && (r.CycleAt? <==> HasCycle(g)) && (r.CycleAt? ==> OnCycle(g, r.id))
            && (r.Done? ==> NoDuplicates(r.search.order)
                            && (forall n :: n in r.search.order <==> n in g)
                            && ProvidersFirst(g, r.search.order))
  {
    var r := ExploreAll(g, Fresh, ids);
    ExploreAllKeepsInv(g, Fresh, ids, [], "");
    if r.Done? {
      OrderExcludesCycle(g, r.search.order);
    }
  }

  // The result does not depend on the order or the multiplicity of the input.

  function Dedup(t: seq<string>): seq<string> {
    if t == [] then []
    else if |t| >= 2 && t[0] == t[1] then Dedup(t[1..])
    else [t[0]] + Dedup(t[1..])
  }

  lemma {:induction false} HeadIsLeast(t: seq<string>, n: string)
    requires SortedBy(t, LessEq) && t != [] && n in t[1..]
    ensures LessEq(t[0], n) && |t| >= 2 && (t[0] != t[1] ==> n != t[0])
  {
    var j :| 0 <= j < |t[1..]| && t[1..][j] == n;
    assert t[j + 1] == n && LessEq(t[0], t[1]) && (j > 0 ==> LessEq(t[1], n));
    if n == t[0] { LessEqAntisymmetric(t[0], t[1]); }
  }

  lemma {:induction false} LeastInFront(head: string, t: seq<string>)
    requires SortedBy(t, LessEq) && NoDuplicates(t) && forall n :: n in t ==> LessEq(head, n) && n != head
    ensures SortedBy([head] + t, LessEq) && NoDuplicates([head] + t)
  {
  }

  lemma {:induction false} DedupOfSorted(t: seq<string>)
    requires SortedBy(t, LessEq)
    ensures SortedBy(Dedup(t), LessEq) && NoDuplicates(Dedup(t)) && forall n :: n in Dedup(t) <==> n in t
  {
    if t != [] {
      DedupOfSorted(t[1..]);
      assert t == [t[0]] + t[1..];
      if !(|t| >= 2 && t[0] == t[1]) {
        forall n | n in Dedup(t[1..]) ensures n != t[0] && LessEq(t[0], n) { HeadIsLeast(t, n); }
        LeastInFront(t[0], Dedup(t[1..]));
      }
    }
  }

  lemma {:induction false} ExploreAllDedup(g: Graph, s: Search, t: seq<string>)
    ensures ExploreAll(g, s, t) == ExploreAll(g, s, Dedup(t))
    decreases |t|
  {
    if |t| >= 2 && t[0] == t[1] {
      ExploreAllDedup(g, s, t[1..]);
      if t[0] in g {
        var first := Explore(g, s, t[0]);
        if first.Done? {
          assert Explore(g, first.search, t[0]) == first;
        }
      }
    } else if t != [] {
      assert Dedup(t)[1..] == Dedup(t[1..]);
      if t[0] !in g {
        ExploreAllDedup(g, s, t[1..]);
      } else {
        var first := Explore(g, s, t[0]);
        if first.Done? {
          ExploreAllDedup(g, first.search, t[1..]);
        }
      }
    }
  }

  lemma {:induction false} SortedMembersUnique(a: seq<string>, b: seq<string>)
    requires SortedBy(a, LessEq) && SortedBy(b, LessEq) && NoDuplicates(a) && NoDuplicates(b)
    requires forall n :: n in a <==> n in b
    ensures a == b
  {
    NoDuplicatesByCount(a);
    NoDuplicatesByCount(b);
    forall n ensures multiset(a)[n] == multiset(b)[n] {
      assert n in a <==> n in multiset(a);
      assert n in b <==> n in multiset(b);
    }
    LessEqIsTotalOrder();
    OneAscendingOrder(a, b, LessEq);
  }

  lemma {:induction false} SameSetSameSearch(g: Graph, ids: seq<string>, others: seq<string>)
    requires forall n :: n in ids <==> n in others
    ensures ExploreAll(g, Fresh, Sort(ids)) == ExploreAll(g, Fresh, Sort(others))
  {
    SortKeepsMembers(ids);
    SortKeepsMembers(others);
    DedupOfSorted(Sort(ids));
    DedupOfSorted(Sort(others));
    SortedMembersUnique(Dedup(Sort(ids)), Dedup(Sort(others)));
    ExploreAllDedup(g, Fresh, Sort(ids));
    ExploreAllDedup(g, Fresh, Sort(others));
  }

  // The teardown order of one host's selected components.

  /** The contract of each component names its dependencies. */
  type Catalog = map<string, seq<string>>

  datatype DependencyResult = DependencyResult(teardownOrder: seq<string>, cycle: bool, cycleDetail: string)

  function SelectedGraph(ids: seq<string>, catalog: Catalog): Graph {
    map id | id in ids :: if id in catalog then Sort(catalog[id]) else []
  }

  function Reversed(s: seq<string>): (r: seq<string>)
    ensures |r| == |s| && forall i :: 0 <= i < |s| ==> r[i] == s[|s| - 1 - i]
  {
    seq(|s|, i requires 0 <= i < |s| => s[|s| - 1 - i])
  }

  function TeardownOf(ids: seq<string>, catalog: Catalog): DependencyResult {
    match ExploreAll(SelectedGraph(ids, catalog), Fresh, Sort(ids))
    case CycleAt(id) => DependencyResult([], true, id)
    case Done(s) => DependencyResult(Reversed(s.order), false, "")
  }

  /** `a` depends on `b`, both selected for this host. */
  predicate Consumes(ids: seq<string>, catalog: Catalog, a: string, b: string) {
    a in ids && b in ids && a in catalog && b in catalog[a]
  }

  lemma {:induction false} SelectedEdges(ids: seq<string>, catalog: Catalog, a: string, b: string)
    ensures Edge(SelectedGraph(ids, catalog), a, b) <==> Consumes(ids, catalog, a, b)
  {
    if a in catalog { SortKeepsMembers(catalog[a]); }
  }

  /** Consumers come before the providers they depend on. */
  ghost predicate ConsumersFirst(ids: seq<string>, catalog: Catalog, order: seq<string>) {
    forall i, j :: 0 <= i < |order| && 0 <= j < |order| && Consumes(ids, catalog, order[i], order[j]) ==> i < j
  }

  lemma {:induction false} ReversedOrder(ids: seq<string>, catalog: Catalog, order: seq<string>)
    requires NoDuplicates(order) && ProvidersFirst(SelectedGraph(ids, catalog), order)
    ensures NoDuplicates(Reversed(order)) && ConsumersFirst(ids, catalog, Reversed(order))
    ensures forall n :: n in Reversed(order) <==> n in order
  {
    var r, k := Reversed(order), |order| - 1;
    forall i, j | 0 <= i < |r| && 0 <= j < |r| && Consumes(ids, catalog, r[i], r[j]) ensures i < j {
      SelectedEdges(ids, catalog, r[i], r[j]);
      assert order[k - i] == r[i] && order[k - j] == r[j];
      assert r[j] in order[..k - i];
    }
    forall n ensures n in r <==> n in order {
      if n in order {
        var i :| 0 <= i < |order| && order[i] == n;
        assert r[k - i] == n;
      }
    }
  }

  /** The teardown order: a cycle is reported exactly when there is one, by a component on it; otherwise every distinct
      selected component is listed once and every consumer before its selected providers. */
  lemma {:induction false} TeardownExact(ids: seq<string>, catalog: Catalog)
    ensures var r := TeardownOf(ids, catalog);
            && (r.cycle <==> HasCycle(SelectedGraph(ids, catalog)))
            && (r.cycle ==> r.teardownOrder == [] && OnCycle(SelectedGraph(ids, catalog), r.cycleDetail))
            && (!r.cycle ==> NoDuplicates(r.teardownOrder)
                             && (forall n :: n in r.teardownOrder <==> n in ids)
                             && ConsumersFirst(ids, catalog, r.teardownOrder))
  {
    var g := SelectedGraph(ids, catalog);
    SortKeepsMembers(ids);
    SearchExact(g, Sort(ids));
    var r := ExploreAll(g, Fresh, Sort(ids));
    if r.Done? {
      ReversedOrder(ids, catalog, r.search.order);
    }
  }

  /** The order in which the components are given, and repeating one, does not matter. */
  lemma {:induction false} TeardownIgnoresInputOrder(ids: seq<string>, others: seq<string>, catalog: Catalog)
    requires forall n :: n in ids <==> n in others
    ensures TeardownOf(ids, catalog) == TeardownOf(others, catalog)
  {
    assert SelectedGraph(ids, catalog) == SelectedGraph(others, catalog);
    SameSetSameSearch(SelectedGraph(ids, catalog), ids, others);
  }

  /** Nor does the order in which a contract lists its dependencies. */
  lemma {:induction false} TeardownIgnoresListing(ids: seq<string>, catalog: Catalog, other: Catalog)
    requires forall id :: id in ids ==> (id in catalog <==> id in other)
    requires forall id :: id in ids && id in catalog ==> multiset(catalog[id]) == multiset(other[id])
    ensures TeardownOf(ids, catalog) == TeardownOf(ids, other)
  {
    LessEqIsTotalOrder();
    forall id | id in ids && id in catalog ensures Sort(catalog[id]) == Sort(other[id]) { SortOfPermutation(catalog[id], other[id], LessEq); }
    assert SelectedGraph(ids, catalog) == SelectedGraph(ids, other);
  }

  // The search with its mutable colour map, build order and cycle detail.

  class Visitor {
    var state: map<string, Colour>
    var buildOrder: seq<string>
    var cycleDetail: string

    constructor ()
      ensures Now() == Fresh && cycleDetail == ""
    {
      state, buildOrder, cycleDetail := map[], [], "";
    }

    function Now(): Search
      reads this
    {
      Search(state, buildOrder)
    }

    method Visit(g: Graph, id: string) returns (ok: bool)
      requires id in g
      modifies this
      ensures match Explore(g, old(Now()), id)
              case Done(s) => ok && Now() == s && cycleDetail == old(cycleDetail)
              case CycleAt(at) => !ok && cycleDetail == at
      decreases g.Keys - state.Keys
    {
      if id in state {
        if state[id] == Gray {
          cycleDetail := id;
          return false;
        }
        return true;
      }
      ghost var before := g.Keys - state.Keys;
      assert id in before;
      state := state[id := Gray];
      ghost var entered := Now();
      var deps := g[id];
      assert deps[0..] == deps;
      for i := 0 to |deps|
        invariant entered.colour.Keys <= state.Keys
        invariant cycleDetail == old(cycleDetail)
        invariant ExploreAll(g, entered, deps) == ExploreAll(g, Now(), deps[i..])
      {
        assert deps[i..][1..] == deps[i + 1..];
        if deps[i] in g {
          assert id !in g.Keys - state.Keys;
          var fine := Visit(g, deps[i]);
          if !fine {
            return false;
          }
        }
      }
      state := state[id := Black];
      buildOrder := buildOrder + [id];
      return true;
    }
  }

  method ReverseBuildOrder(order: seq<string>) returns (r: seq<string>)
    ensures r == Reversed(order)
  {
    var teardown := new string[|order|](_ => "");
    for i := 0 to |order|
      invariant forall j :: 0 <= j < i ==> teardown[|order| - 1 - j] == order[j]
    {
      teardown[|order| - 1 - i] := order[i];
    }
    return teardown[..];
  }

  /** `resolveTeardownOrder`. */
  method ResolveTeardownOrder(componentIDs: seq<string>, catalog: Catalog) returns (r: DependencyResult)
    ensures r == TeardownOf(componentIDs, catalog)
  {
    var g := SelectedGraph(componentIDs, catalog);
    var sortedIDs := Sort(componentIDs);
    SortKeepsMembers(componentIDs);
    var visitor := new Visitor();
    assert sortedIDs[0..] == sortedIDs;
    for i := 0 to |sortedIDs|
      invariant fresh(visitor)
      invariant ExploreAll(g, Fresh, sortedIDs) == ExploreAll(g, visitor.Now(), sortedIDs[i..])
    {
      assert sortedIDs[i..][1..] == sortedIDs[i + 1..];
      assert sortedIDs[i] in sortedIDs;
      var fine := visitor.Visit(g, sortedIDs[i]);
      if !fine {
        return DependencyResult([], true, visitor.cycleDetail);
      }
    }
    assert sortedIDs[|sortedIDs|..] == [];
    var teardown := ReverseBuildOrder(visitor.buildOrder);
    r := DependencyResult(teardown, false, "");
  }

  /** `validateDependencyCycles`: no cycle among the contracts of a catalog, whatever order the
      map is walked in. */
  method ValidateDependencyCycles(components: Graph) returns (ok: bool)
    ensures ok <==> !HasCycle(components)
  {
    var visitor := new Visitor();
    var pending := components.Keys;
    ghost var walked: seq<string> := [];
    while pending != {}
      invariant fresh(visitor)
      invariant pending <= components.Keys
      invariant forall n :: n in walked <==> n in components && n !in pending
      invariant ExploreAll(components, Fresh, walked) == Done(visitor.Now())
    {
      var id :| id in pending;
      var fine := visitor.Visit(components, id);
      ExploreAllSnoc(components, Fresh, walked, id);
      if !fine {
        ghost var rest := SortedKeys(pending);
        ExploreAllPrefix(components, Fresh, walked + [id], rest);
        SearchExact(components, walked + [id] + rest);
        return false;
      }
      walked := walked + [id];
      pending := pending - {id};
    }
    SearchExact(components, walked);
    return true;
  }

  lemma {:induction false} ExploreAllPrefix(g: Graph, s: Search, ids: seq<string>, more: seq<string>)
    ensures ExploreAll(g, s, ids + more)
         == match ExploreAll(g, s, ids) case CycleAt(at) => CycleAt(at) case Done(r) => ExploreAll(g, r, more)
    decreases |ids|
  {
    if ids == [] {
      assert ids + more == more;
    } else {
      assert (ids + more)[1..] == ids[1..] + more;
      if ids[0] !in g {
        ExploreAllPrefix(g, s, ids[1..], more);
      } else if Explore(g, s, ids[0]).Done? {
        ExploreAllPrefix(g, Explore(g, s, ids[0]).search, ids[1..], more);
      }
    }
  }

  lemma {:induction false} ExploreAllSnoc(g: Graph, s: Search, ids: seq<string>, id: string)
    requires id in g
    ensures ExploreAll(g, s, ids + [id])
         == match ExploreAll(g, s, ids) case CycleAt(at) => CycleAt(at) case Done(r) => Explore(g, r, id)
  {
    ExploreAllPrefix(g, s, ids, [id]);
    if ExploreAll(g, s, ids).Done? {
      var r := ExploreAll(g, s, ids).search;
      assert [id][1..] == [];
      assert ExploreAll(g, r, [id]) == Explore(g, r, id);
    }
  }
}
