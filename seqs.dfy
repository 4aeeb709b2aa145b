/** Generic list operations that the views and handlers use: JavaScript's
    filter, find, map-replace, stable sort and the grouping reduce. */
module Seqs {

  datatype Option<+T> = None | Some(value: T)

  /** Array.prototype.filter: keeps, in order, the elements satisfying p. */
  function Filter<T(!new)>(s: seq<T>, p: T -> bool): (r: seq<T>)
    ensures |r| <= |s|
  {
    if s == [] then [] else (if p(s[0]) then [s[0]] else []) + Filter(s[1..], p)
  }

  /** The filter keeps exactly the elements that satisfy p. */
  lemma {:induction false} FilterMembers<T(!new)>(s: seq<T>, p: T -> bool)
    ensures forall x :: x in Filter(s, p) <==> x in s && p(x)
  {
    if s != [] {
      FilterMembers(s[1..], p);
      assert s == [s[0]] + s[1..];
    }
  }

  /** The number of elements satisfying p. */
  function Count<T(!new)>(s: seq<T>, p: T -> bool): (n: nat)
    ensures n <= |s|
  {
    |Filter(s, p)|
  }

  lemma {:induction false} FilterAppend<T(!new)>(a: seq<T>, b: seq<T>, p: T -> bool)
    ensures Filter(a + b, p) == Filter(a, p) + Filter(b, p)
  {
    if a == [] {
      assert a + b == b;
    } else {
      assert (a + b)[0] == a[0];
      assert (a + b)[1..] == a[1..] + b;
      FilterAppend(a[1..], b, p);
      var h := if p(a[0]) then [a[0]] else [];
      assert Filter(a + b, p) == h + Filter(a[1..] + b, p);
      assert Filter(a, p) == h + Filter(a[1..], p);
    }
  }

  lemma FilterCons<T(!new)>(x: T, s: seq<T>, p: T -> bool)
    ensures Filter([x] + s, p) == (if p(x) then [x] else []) + Filter(s, p)
  {
    assert ([x] + s)[0] == x;
    assert ([x] + s)[1..] == s;
  }

  /** Filtering by p and then by q is filtering by both. */
  lemma {:induction false} FilterFilter<T(!new)>(s: seq<T>, p: T -> bool, q: T -> bool)
    ensures Filter(Filter(s, p), q) == Filter(s, x => p(x) && q(x))
  {
    if s != [] {
      FilterFilter(s[1..], p, q);
      assert s == [s[0]] + s[1..];
      FilterCons(s[0], s[1..], p);
      FilterCons(s[0], s[1..], x => p(x) && q(x));
      var a := if p(s[0]) then [s[0]] else [];
      FilterAppend(a, Filter(s[1..], p), q);
      if p(s[0]) {
        FilterCons(s[0], [], q);
      }
    }
  }

  /** Filters whose predicates agree on the list keep the same elements. */
  lemma {:induction false} FilterExt<T(!new)>(s: seq<T>, p: T -> bool, q: T -> bool)
    requires forall x :: x in s ==> p(x) == q(x)
    ensures Filter(s, p) == Filter(s, q)
  {
    if s != [] {
      FilterExt(s[1..], p, q);
      assert s[0] in s;
    }
  }

  /** A filter whose predicate holds of every element changes nothing. */
  lemma {:induction false} FilterAll<T(!new)>(s: seq<T>, p: T -> bool)
    requires forall x :: x in s ==> p(x)
    ensures Filter(s, p) == s
  {
    if s != [] {
      FilterAll(s[1..], p);
    }
  }

  /** A filter whose predicate holds of no element keeps nothing. */
  lemma {:induction false} FilterNone<T(!new)>(s: seq<T>, p: T -> bool)
    requires forall x :: x in s ==> !p(x)
    ensures Filter(s, p) == []
  {
    if s != [] {
      FilterNone(s[1..], p);
    }
  }

  /** Counting p-elements and non-p-elements splits the whole list. */
  lemma {:induction false} CountSplit<T(!new)>(s: seq<T>, p: T -> bool)
    ensures Count(s, p) + Count(s, x => !p(x)) == |s|
  {
    if s != [] {
      CountSplit(s[1..], p);
    }
  }

  /** When every element satisfies exactly one of three predicates, their
      counts add up to the length of the list. */
  lemma {:induction false} CountThreeWays<T(!new)>(s: seq<T>, p: T -> bool, q: T -> bool, r: T -> bool)
    requires forall x :: x in s ==> (p(x) || q(x) || r(x)) && !(p(x) && q(x)) && !(p(x) && r(x)) && !(q(x) && r(x))
    ensures Count(s, p) + Count(s, q) + Count(s, r) == |s|
  {
    if s != [] {
      CountThreeWays(s[1..], p, q, r);
      assert s[0] in s;
    }
  }

  /** A predicate that implies another is counted no more often. */
  lemma {:induction false} CountMono<T(!new)>(s: seq<T>, p: T -> bool, q: T -> bool)
    requires forall x :: p(x) ==> q(x)
    ensures Count(s, p) <= Count(s, q)
  {
    if s != [] {
      CountMono(s[1..], p, q);
    }
  }

  /** A filter keeps every copy of an element that satisfies p and no copy
      of one that does not. */
  lemma {:induction false} FilterMultiset<T(!new)>(s: seq<T>, p: T -> bool)
    ensures forall x :: multiset(Filter(s, p))[x] == if p(x) then multiset(s)[x] else 0
  {
    if s != [] {
      FilterMultiset(s[1..], p);
      assert s == [s[0]] + s[1..];
    }
  }

  /** Rearranging a list changes no count. */
  lemma CountPermutation<T(!new)>(a: seq<T>, b: seq<T>, p: T -> bool)
    requires multiset(a) == multiset(b)
    ensures Count(a, p) == Count(b, p)
  {
    FilterMultiset(a, p);
    FilterMultiset(b, p);
    assert multiset(Filter(a, p)) == multiset(Filter(b, p));
    assert |multiset(Filter(a, p))| == |Filter(a, p)|;
    assert |multiset(Filter(b, p))| == |Filter(b, p)|;
  }

  /** Counting q among the p-elements is counting the elements satisfying both. */
  lemma CountOfFilter<T(!new)>(s: seq<T>, p: T -> bool, q: T -> bool, pq: T -> bool)
    requires forall x :: pq(x) == (p(x) && q(x))
    ensures Count(Filter(s, p), q) == Count(s, pq)
  {
    FilterFilter(s, p, q);
    FilterExt(s, x => p(x) && q(x), pq);
  }

  /** Counting q among the elements that pass a weaker filter counts no fewer. */
  lemma CountFilteredMono<T(!new)>(s: seq<T>, p1: T -> bool, p2: T -> bool, q: T -> bool)
    requires forall x :: p1(x) ==> p2(x)
    ensures Count(Filter(s, p1), q) <= Count(Filter(s, p2), q)
  {
    FilterFilter(s, p1, q);
    FilterFilter(s, p2, q);
    CountMono(s, x => p1(x) && q(x), x => p2(x) && q(x));
  }

  /** Array.prototype.findIndex, with None for -1. */
  function FindIndex<T>(s: seq<T>, p: T -> bool): (r: Option<nat>)
    ensures r.Some? ==> r.value < |s| && p(s[r.value]) && forall j :: 0 <= j < r.value ==> !p(s[j])
    ensures r.None? <==> forall j :: 0 <= j < |s| ==> !p(s[j])
  {
    if s == [] then None
    else if p(s[0]) then Some(0)
    else match FindIndex(s[1..], p)
      case None => None
      case Some(i) => Some(i + 1)
  }

  /** The position of the first occurrence of x. */
  function IndexOf<T(==)>(s: seq<T>, x: T): (i: nat)
    requires x in s
    ensures i < |s| && s[i] == x
  {
    if s[0] == x then 0 else 1 + IndexOf(s[1..], x)
  }

  /** Array.prototype.find: the first element satisfying p. */
  function Find<T>(s: seq<T>, p: T -> bool): (r: Option<T>)
    ensures r.Some? ==> r.value in s && p(r.value)
    ensures r.Some? ==> exists k :: 0 <= k < |s| && s[k] == r.value && forall j :: 0 <= j < k ==> !p(s[j])
    ensures r.None? <==> forall x :: x in s ==> !p(x)
  {
    match FindIndex(s, p)
    case None => None
    case Some(i) => Some(s[i])
  }

  /** Mapping a list so that every p-element is replaced by v and the others are kept. */
  function ReplaceWhere<T>(s: seq<T>, p: T -> bool, v: T): (r: seq<T>)
    ensures |r| == |s|
    ensures forall i :: 0 <= i < |s| ==> r[i] == (if p(s[i]) then v else s[i])
  {
    seq(|s|, i requires 0 <= i < |s| => if p(s[i]) then v else s[i])
  }

  /** Replacing where nothing matches leaves the list as it was. */
  lemma ReplaceNowhere<T>(s: seq<T>, p: T -> bool, v: T)
    requires forall x :: x in s ==> !p(x)
    ensures ReplaceWhere(s, p, v) == s
  {
    var r := ReplaceWhere(s, p, v);
    forall i | 0 <= i < |s| ensures r[i] == s[i] {
      assert s[i] in s;
    }
  }

  /** Applying f to every element, in order. */
  function Map<T, U>(s: seq<T>, f: T -> U): (r: seq<U>)
    ensures |r| == |s|
    ensures forall i :: 0 <= i < |s| ==> r[i] == f(s[i])
  {
    seq(|s|, i requires 0 <= i < |s| => f(s[i]))
  }

  ghost predicate NoDup<T>(s: seq<T>) {
    forall i, j :: 0 <= i < j < |s| ==> s[i] != s[j]
  }

  /** The distinct elements of s, in order of first occurrence (the order in
      which a reduce inserts keys into a fresh object). */
  function Distinct<T(==,!new)>(s: seq<T>): (r: seq<T>)
    ensures NoDup(r)
    ensures forall x :: x in r <==> x in s
  {
    if s == [] then []
    else
      var d := Distinct(s[..|s| - 1]);
      assert forall x :: x in s <==> x in s[..|s| - 1] || x == s[|s| - 1];
      if s[|s| - 1] in d then d else d + [s[|s| - 1]]
  }

  // ---------------------------------------------------------------------
  // Stable sort

  /** le is a total preorder: the comparator of a well-behaved sort. */
  ghost predicate TotalPreorder<T(!new)>(le: (T, T) -> bool) {
    && (forall a, b :: le(a, b) || le(b, a))
    && (forall a, b, c :: le(a, b) && le(b, c) ==> le(a, c))
  }

  ghost predicate SortedBy<T>(s: seq<T>, le: (T, T) -> bool) {
    forall i, j :: 0 <= i < j < |s| ==> le(s[i], s[j])
  }

  /** Inserts x in front of the first element it is not greater than. */
  function InsertBy<T>(x: T, s: seq<T>, le: (T, T) -> bool): (r: seq<T>)
    ensures |r| == |s| + 1
    ensures multiset(r) == multiset(s) + multiset{x}
  {
    if s == [] || le(x, s[0]) then [x] + s
    else
      assert s == [s[0]] + s[1..];
      [s[0]] + InsertBy(x, s[1..], le)
  }

  /** Array.prototype.sort with comparator le, which is stable: insertion sort
      inserting each element in front of its equals. */
  function SortBy<T>(s: seq<T>, le: (T, T) -> bool): (r: seq<T>)
    ensures |r| == |s|
    ensures multiset(r) == multiset(s)
  {
    if s == [] then []
    else
      assert s == [s[0]] + s[1..];
      InsertBy(s[0], SortBy(s[1..], le), le)
  }

  lemma {:induction false} InsertBySorted<T(!new)>(x: T, s: seq<T>, le: (T, T) -> bool)
    requires TotalPreorder(le)
    requires SortedBy(s, le)
    ensures SortedBy(InsertBy(x, s, le), le)
  {
    if s == [] || le(x, s[0]) {
    } else {
      var t := InsertBy(x, s[1..], le);
      InsertBySorted(x, s[1..], le);
      assert le(s[0], x);
      forall y | y in t ensures le(s[0], y) {
        assert y in multiset(t);
        if y != x {
          assert y in multiset(s[1..]);
          assert y in s[1..];
        }
      }
      var r := [s[0]] + t;
      forall i, j | 0 <= i < j < |r| ensures le(r[i], r[j]) {
        if i == 0 {
          assert r[j] == t[j - 1] && t[j - 1] in t;
        } else {
          assert r[i] == t[i - 1] && r[j] == t[j - 1];
        }
      }
    }
  }

  /** The sort's result is ordered by le and is a permutation of its input. */
  lemma {:induction false} SortBySorted<T(!new)>(s: seq<T>, le: (T, T) -> bool)
    requires TotalPreorder(le)
    ensures SortedBy(SortBy(s, le), le)
    ensures multiset(SortBy(s, le)) == multiset(s)
  {
    if s != [] {
      SortBySorted(s[1..], le);
      InsertBySorted(s[0], SortBy(s[1..], le), le);
    }
  }

  lemma {:induction false} InsertByStable<T(!new)>(x: T, s: seq<T>, le: (T, T) -> bool, p: T -> bool)
    requires forall a, b :: p(a) && p(b) ==> le(a, b)
    ensures Filter(InsertBy(x, s, le), p) == (if p(x) then [x] else []) + Filter(s, p)
  {
    if s == [] || le(x, s[0]) {
      assert InsertBy(x, s, le) == [x] + s;
      FilterCons(x, s, p);
    } else {
      var t := InsertBy(x, s[1..], le);
      assert InsertBy(x, s, le) == [s[0]] + t;
      InsertByStable(x, s[1..], le, p);
      SwapPast(x, s[0], t, s[1..], p);
      assert s == [s[0]] + s[1..];
      FilterCons(s[0], s[1..], p);
    }
  }

  /** x may move past y under a filter when the filter cannot keep both. */
  lemma SwapPast<T(!new)>(x: T, y: T, t: seq<T>, u: seq<T>, p: T -> bool)
    requires !(p(x) && p(y))
    requires Filter(t, p) == (if p(x) then [x] else []) + Filter(u, p)
    ensures Filter([y] + t, p) == (if p(x) then [x] else []) + ((if p(y) then [y] else []) + Filter(u, p))
  {
    FilterCons(y, t, p);
  }

  /** Stability: the elements of any class of mutually equal elements come
      out of the sort in the order they went in. */
  lemma {:induction false} SortByStable<T(!new)>(s: seq<T>, le: (T, T) -> bool, p: T -> bool)
    requires forall a, b :: p(a) && p(b) ==> le(a, b)
    ensures Filter(SortBy(s, le), p) == Filter(s, p)
  {
    if s != [] {
      SortByStable(s[1..], le, p);
      InsertByStable(s[0], SortBy(s[1..], le), le, p);
      assert s == [s[0]] + s[1..];
      FilterCons(s[0], s[1..], p);
    }
  }

  /** What a filter keeps of a sorted list is sorted. */
  lemma {:induction false} FilterSorted<T(!new)>(s: seq<T>, le: (T, T) -> bool, p: T -> bool)
    requires SortedBy(s, le)
    ensures SortedBy(Filter(s, p), le)
  {
    if s != [] {
      assert SortedBy(s[1..], le) by {
        forall i, j | 0 <= i < j < |s[1..]| ensures le(s[1..][i], s[1..][j]) {
          assert s[1..][i] == s[i + 1] && s[1..][j] == s[j + 1];
        }
      }
      FilterSorted(s[1..], le, p);
      var t := Filter(s[1..], p);
      FilterMembers(s[1..], p);
      if p(s[0]) {
        var r := [s[0]] + t;
        forall i, j | 0 <= i < j < |r| ensures le(r[i], r[j]) {
          if i == 0 {
            assert r[j] == t[j - 1] && t[j - 1] in t;
            var k :| 0 <= k < |s[1..]| && s[1..][k] == t[j - 1];
            assert s[k + 1] == r[j];
          } else {
            assert r[i] == t[i - 1] && r[j] == t[j - 1];
          }
        }
      }
    }
  }

  /** Sorting a list without repetitions gives a list without repetitions. */
  lemma {:induction false} SortByNoDup<T>(s: seq<T>, le: (T, T) -> bool)
    requires NoDup(s)
    ensures NoDup(SortBy(s, le))
  {
    var r := SortBy(s, le);
    forall i, j | 0 <= i < j < |r| ensures r[i] != r[j] {
      if r[i] == r[j] {
        assert multiset(r)[r[i]] >= 2 by {
          assert r == r[..j] + r[j..];
          assert r[i] in multiset(r[..j]);
          assert r[j] in multiset(r[j..]);
        }
        NoDupMultiplicity(s, r[i]);
        assert false;
      }
    }
  }

  lemma {:induction false} NoDupMultiplicity<T>(s: seq<T>, x: T)
    requires NoDup(s)
    ensures multiset(s)[x] <= 1
  {
    if s != [] {
      assert s == [s[0]] + s[1..];
      assert NoDup(s[1..]);
      NoDupMultiplicity(s[1..], x);
      if x == s[0] {
        assert x !in s[1..];
      }
    }
  }

  // ---------------------------------------------------------------------
  // Grouping

  /** The elements of s whose key is k, in order. */
  function FilterKey<T(!new), K(==)>(s: seq<T>, key: T -> K, k: K): (r: seq<T>)
    ensures forall x :: x in r <==> x in s && key(x) == k
  {
    FilterMembers(s, x => key(x) == k);
    Filter(s, x => key(x) == k)
  }

  function KeySet<T(==), K>(s: seq<T>, key: T -> K): set<K> {
    set x | x in s :: key(x)
  }

  lemma {:induction false} FilterKeyAbsent<T(!new), K>(s: seq<T>, key: T -> K, k: K)
    requires k !in KeySet(s, key)
    ensures Filter(s, x => key(x) == k) == []
  {
    if s != [] {
      assert s[0] in s;
      assert KeySet(s[1..], key) <= KeySet(s, key);
      FilterKeyAbsent(s[1..], key, k);
    }
  }

  lemma FilterKeyAppend<T(!new), K>(s: seq<T>, x: T, key: T -> K, k: K)
    ensures FilterKey(s + [x], key, k) == FilterKey(s, key, k) + (if key(x) == k then [x] else [])
  {
    FilterAppend(s, [x], y => key(y) == k);
  }

  /** The distinct keys of s are exactly the keys its elements carry. */
  lemma MapKeySet<T, K(!new)>(s: seq<T>, key: T -> K)
    ensures forall k :: k in Distinct(Map(s, key)) <==> k in KeySet(s, key)
  {
    forall k ensures k in Map(s, key) <==> k in KeySet(s, key) {
      if k in Map(s, key) {
        var i :| 0 <= i < |s| && Map(s, key)[i] == k;
        assert s[i] in s;
      }
      if k in KeySet(s, key) {
        var x :| x in s && key(x) == k;
        assert Map(s, key)[IndexOf(s, x)] == k;
      }
    }
  }

  /** A group of a sorted list is sorted. */
  lemma FilterKeySorted<T(!new), K>(s: seq<T>, le: (T, T) -> bool, key: T -> K, k: K)
    requires SortedBy(s, le)
    ensures SortedBy(FilterKey(s, key, k), le)
  {
    FilterSorted(s, le, x => key(x) == k);
  }

  /** Sorting before grouping keeps, inside each group, the order of the
      elements the comparator cannot tell apart. */
  lemma FilterKeyStable<T(!new), K>(s: seq<T>, le: (T, T) -> bool, key: T -> K, k: K, q: T -> bool)
    requires forall a, b :: q(a) && q(b) ==> le(a, b)
    ensures Filter(FilterKey(SortBy(s, le), key, k), q) == Filter(FilterKey(s, key, k), q)
  {
    var p := x => key(x) == k;
    FilterFilter(SortBy(s, le), p, q);
    FilterFilter(s, p, q);
    SortByStable(s, le, x => p(x) && q(x));
  }

  /** Counting inside a group does not depend on the order of the list. */
  lemma FilterKeyCountPermutation<T(!new), K>(a: seq<T>, b: seq<T>, key: T -> K, k: K, q: T -> bool)
    requires multiset(a) == multiset(b)
    ensures Count(FilterKey(a, key, k), q) == Count(FilterKey(b, key, k), q)
  {
    var p := x => key(x) == k;
    FilterFilter(a, p, q);
    FilterFilter(b, p, q);
    CountPermutation(a, b, x => p(x) && q(x));
  }

  /** Dropping the elements that fail q first does not change the q-count of
      a group. */
  lemma FilterKeyCountPrefiltered<T(!new), K>(s: seq<T>, key: T -> K, k: K, q: T -> bool)
    ensures Count(FilterKey(Filter(s, q), key, k), q) == Count(FilterKey(s, key, k), q)
  {
    var p := x => key(x) == k;
    var pq := x => p(x) && q(x);
    FilterFilter(Filter(s, q), p, q);
    FilterFilter(s, q, pq);
    FilterExt(s, x => q(x) && pq(x), pq);
    FilterFilter(s, p, q);
  }

  /** The grouping reduce: each element is pushed onto the list kept under its
      key, a new list being started the first time a key is met. The result
      maps each key present to its elements in order, and Object.keys lists
      the keys in the order they were first met. */
  method GroupBy<T(==,!new), K(==,!new)>(s: seq<T>, key: T -> K) returns (groups: map<K, seq<T>>, order: seq<K>)
    ensures groups.Keys == KeySet(s, key)
    ensures forall k :: k in groups ==> groups[k] == FilterKey(s, key, k)
    ensures order == Distinct(Map(s, key))
  {
    groups := map[];
    order := [];
    for i := 0 to |s|
      invariant groups.Keys == KeySet(s[..i], key)
      invariant forall k :: k in groups ==> groups[k] == FilterKey(s[..i], key, k)
      invariant order == Distinct(Map(s[..i], key))
    {
      var x := s[i];
      var k := key(x);
      assert s[..i + 1] == s[..i] + [x];
      GroupStep(s[..i], x, key, groups);
      OrderStep(s[..i], x, key, order, k in groups);
      if k !in groups {
        order := order + [k];
      }
      groups := groups[k := if k in groups then groups[k] + [x] else [x]];
    }
    assert s[..|s|] == s;
  }

  /** One step of the reduce: pushing x into its key's bucket. */
  lemma GroupStep<T(!new), K>(prefix: seq<T>, x: T, key: T -> K, groups: map<K, seq<T>>)
    requires groups.Keys == KeySet(prefix, key)
    requires forall k :: k in groups ==> groups[k] == FilterKey(prefix, key, k)
    ensures var g := groups[key(x) := if key(x) in groups then groups[key(x)] + [x] else [x]];
            && g.Keys == KeySet(prefix + [x], key)
            && forall k :: k in g ==> g[k] == FilterKey(prefix + [x], key, k)
  {
    var k := key(x);
    if k !in groups {
      FilterKeyAbsent(prefix, key, k);
    }
    var g := groups[k := if k in groups then groups[k] + [x] else [x]];
    assert KeySet(prefix + [x], key) == KeySet(prefix, key) + {k};
    forall k' | k' in g ensures g[k'] == FilterKey(prefix + [x], key, k') {
      FilterKeyAppend(prefix, x, key, k');
    }
  }

  /** One step of Object.keys: a key met for the first time joins the end. */
  lemma OrderStep<T, K(!new)>(prefix: seq<T>, x: T, key: T -> K, order: seq<K>, seen: bool)
    requires order == Distinct(Map(prefix, key))
    requires seen <==> key(x) in KeySet(prefix, key)
    ensures (if seen then order else order + [key(x)]) == Distinct(Map(prefix + [x], key))
  {
    var m := Map(prefix + [x], key);
    assert m[..|prefix|] == Map(prefix, key);
    assert m[|m| - 1] == key(x);
    MapKeySet(prefix, key);
  }

  /** The groups for the keys ks, one after another. */
  function Concat<T(!new), K(==)>(s: seq<T>, key: T -> K, ks: seq<K>): seq<T> {
    if ks == [] then [] else FilterKey(s, key, ks[0]) + Concat(s, key, ks[1..])
  }

  lemma {:induction false} ConcatCons<T(!new), K>(x: T, s: seq<T>, key: T -> K, ks: seq<K>)
    requires NoDup(ks)
    ensures multiset(Concat([x] + s, key, ks))
         == multiset(Concat(s, key, ks)) + (if key(x) in ks then multiset{x} else multiset{})
  {
    if ks != [] {
      assert NoDup(ks[1..]);
      ConcatCons(x, s, key, ks[1..]);
      FilterAppend([x], s, y => key(y) == ks[0]);
      if key(x) == ks[0] {
        assert key(x) !in ks[1..];
      }
    }
  }

  /** Showing the groups of a list of distinct keys that covers every element's
      key shows every element exactly as often as the list holds it. */
  lemma {:induction false} ConcatPermutation<T(!new), K>(s: seq<T>, key: T -> K, ks: seq<K>)
    requires NoDup(ks)
    requires forall x :: x in s ==> key(x) in ks
    ensures multiset(Concat(s, key, ks)) == multiset(s)
  {
    if s == [] {
      ConcatEmpty(key, ks);
    } else {
      ConcatPermutation(s[1..], key, ks);
      assert s == [s[0]] + s[1..];
      ConcatCons(s[0], s[1..], key, ks);
    }
  }

  lemma {:induction false} ConcatEmpty<T(!new), K>(key: T -> K, ks: seq<K>)
    ensures Concat([], key, ks) == []
  {
    if ks != [] {
      ConcatEmpty(key, ks[1..]);
    }
  }
}
