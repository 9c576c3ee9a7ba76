/** String order and sorting, as Go's `sort` and Python's `sorted` use them. */
module Ordering {

  /** Lexicographic order by code point. */
  predicate LessEq(a: string, b: string) {
    a == [] || (b != [] && (a[0] < b[0] || (a[0] == b[0] && LessEq(a[1..], b[1..]))))
  }

  /** `a` is a beginning of `b`, or has the smaller character where they first differ. */
  ghost predicate Lexicographic(a: string, b: string) {
    a <= b || exists i :: SmallerAt(a, b, i)
  }

  predicate SmallerAt(a: string, b: string, i: int) {
    0 <= i < |a| && i < |b| && a[..i] == b[..i] && a[i] < b[i]
  }

  lemma {:induction false} SmallerLater(a: string, b: string, i: int)
    requires a != [] && b != [] && a[0] == b[0]
    ensures i >= 0 ==> (SmallerAt(a[1..], b[1..], i) <==> SmallerAt(a, b, i + 1))
    ensures !SmallerAt(a, b, 0)
  {
    if 0 <= i < |a| - 1 && i < |b| - 1 {
      assert a[..i + 1] == [a[0]] + a[1..][..i] && b[..i + 1] == [b[0]] + b[1..][..i];
      if a[..i + 1] == b[..i + 1] { assert a[1..][..i] == a[..i + 1][1..] && b[1..][..i] == b[..i + 1][1..]; }
    }
  }

  lemma {:induction false} PrefixLater(a: string, b: string)
    requires a != [] && b != [] && a[0] == b[0]
    ensures a <= b <==> a[1..] <= b[1..]
  {
    assert a == [a[0]] + a[1..] && b == [b[0]] + b[1..];
  }

  lemma {:induction false} LexicographicLater(a: string, b: string)
    requires a != [] && b != [] && a[0] == b[0]
    ensures Lexicographic(a, b) <==> Lexicographic(a[1..], b[1..])
  {
    PrefixLater(a, b);
    if i :| SmallerAt(a, b, i) {
      SmallerLater(a, b, i - 1);
      SmallerLater(a, b, 0);
    }
    if i :| SmallerAt(a[1..], b[1..], i) { SmallerLater(a, b, i); }
  }

  lemma {:induction false} OnlyAtFirst(a: string, b: string, i: int)
    requires a != [] && b != [] && a[0] != b[0]
    ensures SmallerAt(a, b, i) ==> i == 0
  {
    assert 0 < i <= |a| && i <= |b| ==> a[..i][0] == a[0] && b[..i][0] == b[0];
  }

  lemma {:induction false} LessEqLexicographic(a: string, b: string)
    ensures LessEq(a, b) <==> Lexicographic(a, b)
  {
    if a != [] && b != [] {
      if a[0] == b[0] {
        LexicographicLater(a, b);
        LessEqLexicographic(a[1..], b[1..]);
      } else {
        assert a[..0] == b[..0] && (a[0] < b[0] ==> SmallerAt(a, b, 0));
        forall i ensures SmallerAt(a, b, i) ==> i == 0 { OnlyAtFirst(a, b, i); }
      }
    }
  }

  /** An order up to ties. */
  ghost predicate Ranks<T(!new)>(leq: (T, T) -> bool) {
    && (forall a, b :: leq(a, b) || leq(b, a))
    && (forall a, b, c :: leq(a, b) && leq(b, c) ==> leq(a, c))
  }

  ghost predicate TotalOrder<T(!new)>(leq: (T, T) -> bool) {
    Ranks(leq) && forall a, b :: leq(a, b) && leq(b, a) ==> a == b
  }

  predicate SortedBy<T>(s: seq<T>, leq: (T, T) -> bool) {
    forall i, j :: 0 <= i < j < |s| ==> leq(s[i], s[j])
  }

  predicate NoDuplicates<T(==)>(s: seq<T>) {
    forall i, j :: 0 <= i < j < |s| ==> s[i] != s[j]
  }

  function InsertBy<T>(x: T, s: seq<T>, leq: (T, T) -> bool): seq<T> {
    if s == [] then [x]
    else if leq(x, s[0]) then [x] + s
    else [s[0]] + InsertBy(x, s[1..], leq)
  }

  function SortBy<T>(s: seq<T>, leq: (T, T) -> bool): seq<T> {
    if s == [] then [] else InsertBy(s[0], SortBy(s[1..], leq), leq)
  }

  function Sort(s: seq<string>): seq<string> {
    SortBy(s, LessEq)
  }

  lemma {:induction false} LessEqTotal(a: string, b: string)
    ensures LessEq(a, b) || LessEq(b, a)
  {
    if a != [] && b != [] && a[0] == b[0] { LessEqTotal(a[1..], b[1..]); }
  }

  lemma {:induction false} LessEqAntisymmetric(a: string, b: string)
    requires LessEq(a, b) && LessEq(b, a)
    ensures a == b
  {
    if a != [] && b != [] {
      LessEqAntisymmetric(a[1..], b[1..]);
      assert a == [a[0]] + a[1..] && b == [b[0]] + b[1..];
    }
  }

  lemma {:induction false} LessEqTransitive(a: string, b: string, c: string)
    requires LessEq(a, b) && LessEq(b, c)
    ensures LessEq(a, c)
  {
    if a != [] && a[0] == b[0] == c[0] { LessEqTransitive(a[1..], b[1..], c[1..]); }
  }

  lemma {:induction false} LessEqIsTotalOrder()
    ensures TotalOrder(LessEq)
  {
    forall a, b ensures LessEq(a, b) || LessEq(b, a) { LessEqTotal(a, b); }
    forall a, b | LessEq(a, b) && LessEq(b, a) ensures a == b { LessEqAntisymmetric(a, b); }
    forall a, b, c | LessEq(a, b) && LessEq(b, c) ensures LessEq(a, c) { LessEqTransitive(a, b, c); }
  }

  lemma {:induction false} InsertByKeepsElements<T>(x: T, s: seq<T>, leq: (T, T) -> bool)
    ensures multiset(InsertBy(x, s, leq)) == multiset(s) + multiset{x}
  {
    if s != [] && !leq(x, s[0]) {
      InsertByKeepsElements(x, s[1..], leq);
      assert s == [s[0]] + s[1..];
    }
  }

  lemma {:induction false} InsertBySorted<T(!new)>(x: T, s: seq<T>, leq: (T, T) -> bool)
    requires Ranks(leq) && SortedBy(s, leq)
    ensures SortedBy(InsertBy(x, s, leq), leq)
  {
    if s != [] && !leq(x, s[0]) {
      InsertBySorted(x, s[1..], leq);
      InsertByKeepsElements(x, s[1..], leq);
      var r := InsertBy(x, s[1..], leq);
      forall j | 0 <= j < |r| ensures leq(s[0], r[j]) {
        assert r[j] in multiset(r);
        assert r[j] == x || r[j] in s[1..];
      }
    }
  }

  /** Sorting returns the same elements in order. */
  lemma {:induction false} SortByCorrect<T(!new)>(s: seq<T>, leq: (T, T) -> bool)
    requires Ranks(leq)
    ensures SortedBy(SortBy(s, leq), leq) && multiset(SortBy(s, leq)) == multiset(s)
    ensures |SortBy(s, leq)| == |s|
  {
    if s != [] {
      SortByCorrect(s[1..], leq);
      InsertBySorted(s[0], SortBy(s[1..], leq), leq);
      InsertByKeepsElements(s[0], SortBy(s[1..], leq), leq);
      assert s == [s[0]] + s[1..];
    }
    assert |multiset(SortBy(s, leq))| == |multiset(s)|;
  }

  lemma {:induction false} HeadIsLeast<T(!new)>(s: seq<T>, x: T, leq: (T, T) -> bool)
    requires TotalOrder(leq) && SortedBy(s, leq) && x in s
    ensures leq(s[0], x)
  {
    var i :| 0 <= i < |s| && s[i] == x;
    if i == 0 { assert leq(x, x); }
  }

  lemma {:induction false} WithoutHead<T>(s: seq<T>)
    requires s != []
    ensures multiset(s[1..]) == multiset(s) - multiset{s[0]}
  {
    assert s == [s[0]] + s[1..];
  }

  lemma {:induction false} HeadsAgree<T(!new)>(s: seq<T>, t: seq<T>, leq: (T, T) -> bool)
    requires TotalOrder(leq) && SortedBy(s, leq) && SortedBy(t, leq)
    requires multiset(s) == multiset(t) && s != [] && t != []
    ensures s[0] == t[0]
  {
    assert s[0] in multiset(t) && t[0] in multiset(s);
    HeadIsLeast(s, t[0], leq);
    HeadIsLeast(t, s[0], leq);
  }

  /** There is one ascending way to list given elements. */
  lemma {:induction false} OneAscendingOrder<T(!new)>(s: seq<T>, t: seq<T>, leq: (T, T) -> bool)
    requires TotalOrder(leq) && SortedBy(s, leq) && SortedBy(t, leq)
    requires multiset(s) == multiset(t)
    ensures s == t
  {
    if s == [] {
      assert |multiset(t)| == 0;
    } else {
      assert s[0] in multiset(t);
      HeadsAgree(s, t, leq);
      WithoutHead(s);
      WithoutHead(t);
      OneAscendingOrder(s[1..], t[1..], leq);
      assert s == [s[0]] + s[1..] && t == [t[0]] + t[1..];
    }
  }

  /** Sorting forgets the order of its input. */
  lemma {:induction false} SortOfPermutation<T(!new)>(s: seq<T>, t: seq<T>, leq: (T, T) -> bool)
    requires TotalOrder(leq) && multiset(s) == multiset(t)
    ensures SortBy(s, leq) == SortBy(t, leq)
  {
    SortByCorrect(s, leq);
    SortByCorrect(t, leq);
    OneAscendingOrder(SortBy(s, leq), SortBy(t, leq), leq);
  }

  lemma {:induction false} SortKeepsMembers(s: seq<string>)
    ensures multiset(Sort(s)) == multiset(s) && |Sort(s)| == |s|
    ensures forall x :: x in Sort(s) <==> x in s
    ensures SortedBy(Sort(s), LessEq)
  {
    LessEqIsTotalOrder();
    SortByCorrect(s, LessEq);
    forall x ensures x in Sort(s) <==> x in s {
      assert x in Sort(s) <==> x in multiset(Sort(s));
      assert x in s <==> x in multiset(s);
    }
  }

  lemma {:induction false} NoDuplicatesByCount<T>(s: seq<T>)
    ensures NoDuplicates(s) <==> forall x :: x in multiset(s) ==> multiset(s)[x] == 1
  {
    if s != [] {
      var r := s[1..];
      NoDuplicatesByCount(r);
      assert s == [s[0]] + r;
      assert multiset(s) == multiset(r) + multiset{s[0]};
      if NoDuplicates(s) {
        assert forall i, j :: 0 <= i < j < |r| ==> r[i] == s[i + 1] && r[j] == s[j + 1];
        assert s[0] !in r;
        assert s[0] !in multiset(r);
      } else if NoDuplicates(r) {
        var i, j :| 0 <= i < j < |s| && s[i] == s[j];
        assert i == 0;
        assert r[j - 1] in multiset(r);
        assert multiset(s)[s[0]] >= 2;
      } else {
        var x :| x in multiset(r) && multiset(r)[x] != 1;
        assert multiset(s)[x] != 1;
      }
    }
  }

  /** Having no repeated element depends only on the elements. */
  lemma {:induction false} NoDuplicatesOfPermutation<T>(s: seq<T>, t: seq<T>)
    requires multiset(s) == multiset(t) && NoDuplicates(s)
    ensures NoDuplicates(t)
  {
    NoDuplicatesByCount(s);
    NoDuplicatesByCount(t);
  }

  predicate Least<T(==)>(k: T, keys: set<T>, leq: (T, T) -> bool) {
    k in keys && forall x :: x in keys ==> leq(k, x)
  }

  lemma {:induction false} LeastOf<T(!new)>(y: T, k: T, rest: set<T>, leq: (T, T) -> bool)
    requires TotalOrder(leq) && forall x :: x in rest ==> leq(k, x)
    ensures var least := if leq(y, k) then y else k; leq(least, y) && forall x :: x in rest ==> leq(least, x)
  {
    assert leq(y, k) || leq(k, y);
    assert leq(y, y);
  }

  lemma {:induction false} LeastExists<T(!new)>(keys: set<T>, leq: (T, T) -> bool)
    requires TotalOrder(leq) && keys != {}
    ensures exists k :: k in keys && forall x :: x in keys ==> leq(k, x)
  {
    var y :| y in keys;
    var rest := keys - {y};
    if rest == {} {
      LeastOf(y, y, rest, leq);
      assert Least(y, keys, leq);
    } else {
      LeastExists(rest, leq);
      var k :| k in rest && forall x :: x in rest ==> leq(k, x);
      LeastOf(y, k, rest, leq);
      assert Least(if leq(y, k) then y else k, keys, leq);
    }
  }

  /** The members of a set in ascending order. */
  function SortedSet<T(!new, ==)>(keys: set<T>, leq: (T, T) -> bool): (r: seq<T>)
    requires TotalOrder(leq)
    ensures forall x :: x in r <==> x in keys
    ensures SortedBy(r, leq) && NoDuplicates(r)
  {
    if keys == {} then []
    else
      LeastExists(keys, leq);
      var k :| k in keys && forall x :: x in keys ==> leq(k, x);
      [k] + SortedSet(keys - {k}, leq)
  }

  /** `sortedKeys` in Go, `sorted(set)` in Python. */
  function SortedKeys(keys: set<string>): (r: seq<string>)
    ensures forall x :: x in r <==> x in keys
    ensures SortedBy(r, LessEq) && NoDuplicates(r)
  {
    LessEqIsTotalOrder();
    SortedSet(keys, LessEq)
  }

  // A part of a list, in its order.

  /** `part` is exactly the elements of `whole` that are to be kept, in the same order. */
  ghost predicate Picks<T(!new)>(part: seq<T>, whole: seq<T>, keep: T -> bool) {
    exists at :: PicksAt(part, whole, keep, at)
  }

  ghost predicate PicksAt<T(!new)>(part: seq<T>, whole: seq<T>, keep: T -> bool, at: seq<int>) {
    && |at| == |part|
    && (forall k :: 0 <= k < |at| ==> 0 <= at[k] < |whole| && part[k] == whole[at[k]])
    && (forall j, k :: 0 <= j < k < |at| ==> at[j] < at[k])
    && (forall i :: 0 <= i < |whole| ==> (keep(whole[i]) <==> i in at))
  }

  lemma {:induction false} PicksNothing<T(!new)>(keep: T -> bool)
    ensures Picks([], [], keep)
  {
    assert PicksAt([], [], keep, []);
  }

  lemma {:induction false} PicksAtKeep<T(!new)>(part: seq<T>, whole: seq<T>, keep: T -> bool, at: seq<int>, x: T)
    requires PicksAt(part, whole, keep, at) && keep(x)
    ensures PicksAt(part + [x], whole + [x], keep, at + [|whole|])
  {
    var all, more := whole + [x], at + [|whole|];
    forall k | 0 <= k < |more| ensures 0 <= more[k] < |all| && (part + [x])[k] == all[more[k]] {
      if k < |at| { assert more[k] == at[k]; }
    }
    forall i | 0 <= i < |all| ensures keep(all[i]) <==> i in more {
      if i < |whole| { assert all[i] == whole[i]; }
      assert i in more <==> i in at || i == |whole|;
    }
  }

  lemma {:induction false} PicksAtSkip<T(!new)>(part: seq<T>, whole: seq<T>, keep: T -> bool, at: seq<int>, x: T)
    requires PicksAt(part, whole, keep, at) && !keep(x)
    ensures PicksAt(part, whole + [x], keep, at)
  {
    var all := whole + [x];
    forall k | 0 <= k < |at| ensures 0 <= at[k] < |all| && part[k] == all[at[k]] { assert all[at[k]] == whole[at[k]]; }
    forall i | 0 <= i < |all| ensures keep(all[i]) <==> i in at { if i < |whole| { assert all[i] == whole[i]; } }
  }

  lemma {:induction false} PicksNext<T(!new)>(part: seq<T>, whole: seq<T>, keep: T -> bool, x: T)
    requires Picks(part, whole, keep)
    ensures Picks(if keep(x) then part + [x] else part, whole + [x], keep)
  {
    var at :| PicksAt(part, whole, keep, at);
    if keep(x) { PicksAtKeep(part, whole, keep, at, x); } else { PicksAtSkip(part, whole, keep, at, x); }
  }

  lemma {:induction false} PicksSame<T(!new)>(part: seq<T>, whole: seq<T>, keep: T -> bool, other: T -> bool)
    requires Picks(part, whole, keep) && forall i :: 0 <= i < |whole| ==> (keep(whole[i]) <==> other(whole[i]))
    ensures Picks(part, whole, other)
  {
    var at :| PicksAt(part, whole, keep, at);
    assert PicksAt(part, whole, other, at);
  }

  /** Pairs in Python's tuple order. */
  predicate PairLessEq(a: (string, string), b: (string, string)) {
    if a.0 == b.0 then LessEq(a.1, b.1) else LessEq(a.0, b.0)
  }

  lemma {:induction false} PairLessEqIsTotalOrder()
    ensures TotalOrder(PairLessEq)
  {
    LessEqIsTotalOrder();
  }
}
