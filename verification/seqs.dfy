/** Generic list transforms the dashboard's views are built from: the
    `Array.prototype.filter`, stable `sort`, `slice(0, n)` and
    group-by-key `reduce` idioms, each with what it promises. */
module Seqs {

  /** `a` can be obtained from `b` by deleting elements: order kept, nothing added. */
  ghost predicate IsSubsequence<T>(a: seq<T>, b: seq<T>)
    decreases |b|
  {
    if |a| == 0 then true
    else if |b| == 0 then false
    else (a[0] == b[0] && IsSubsequence(a[1..], b[1..])) || IsSubsequence(a, b[1..])
  }

  /** `s.filter(p)`: the elements satisfying `p`, in their original order. */
  function Filter<T(!new)>(p: T -> bool, s: seq<T>): (r: seq<T>)
    ensures |r| <= |s|
    ensures forall i :: 0 <= i < |r| ==> p(r[i])
  {
    if |s| == 0 then []
    else if p(s[0]) then [s[0]] + Filter(p, s[1..])
    else Filter(p, s[1..])
  }

  /** What filtering keeps: order is preserved, nothing is added, and every
      element satisfying `p` is kept as many times as it occurs. */
  lemma {:induction false} FilterSpec<T(!new)>(p: T -> bool, s: seq<T>)
    ensures IsSubsequence(Filter(p, s), s)
    ensures forall x :: multiset(Filter(p, s))[x] == if p(x) then multiset(s)[x] else 0
    ensures forall x :: x in Filter(p, s) <==> x in s && p(x)
  {
    if |s| > 0 {
      var rest := Filter(p, s[1..]);
      FilterSpec(p, s[1..]);
      assert s == [s[0]] + s[1..];
      if p(s[0]) {
        assert ([s[0]] + rest)[1..] == rest;
      }
    }
  }

  /** The predicate "the key of an element is `k`". */
  function KeyIs<T, K(==)>(key: T -> K, k: K): T -> bool {
    x => key(x) == k
  }

  /** A filter that rejects nothing returns its input. */
  lemma {:induction false} FilterKeepsAll<T(!new)>(p: T -> bool, s: seq<T>)
    requires forall i :: 0 <= i < |s| ==> p(s[i])
    ensures Filter(p, s) == s
  {
    if |s| > 0 {
      FilterKeepsAll(p, s[1..]);
    }
  }

  /** A filter that accepts nothing returns the empty list. */
  lemma {:induction false} FilterDropsAll<T(!new)>(p: T -> bool, s: seq<T>)
    requires forall i :: 0 <= i < |s| ==> !p(s[i])
    ensures Filter(p, s) == []
  {
    if |s| > 0 {
      FilterDropsAll(p, s[1..]);
    }
  }

  /** The positions of `s` whose element satisfies `p`. */
  function Positions<T>(p: T -> bool, s: seq<T>): set<int> {
    set i | 0 <= i < |s| && p(s[i])
  }

  /** Filtering keeps as many elements as there are positions satisfying `p`. */
  lemma {:induction false} FilterSize<T(!new)>(p: T -> bool, s: seq<T>)
    ensures |Filter(p, s)| == |Positions(p, s)|
    decreases |s|
  {
    var all := Positions(p, s);
    if |s| == 0 {
      assert all == {};
    } else {
      var n := |s| - 1;
      var init := s[..n];
      FilterSize(p, init);
      assert s == init + [s[n]];
      FilterSnoc(p, init, s[n]);
      var before := Positions(p, init);
      if p(s[n]) {
        assert all == before + {n};
      } else {
        assert all == before;
      }
    }
  }

  /** Filtering twice with the same predicate is filtering once. */
  lemma FilterIdempotent<T(!new)>(p: T -> bool, s: seq<T>)
    ensures Filter(p, Filter(p, s)) == Filter(p, s)
  {
    FilterKeepsAll(p, Filter(p, s));
  }

  /** Filtering distributes over concatenation. */
  lemma {:induction false} FilterAppend<T(!new)>(p: T -> bool, a: seq<T>, b: seq<T>)
    ensures Filter(p, a + b) == Filter(p, a) + Filter(p, b)
  {
    if |a| == 0 {
      assert a + b == b;
    } else {
      assert (a + b)[1..] == a[1..] + b;
      FilterAppend(p, a[1..], b);
    }
  }

  /** Filtering a list extended by one element. */
  lemma FilterSnoc<T(!new)>(p: T -> bool, s: seq<T>, x: T)
    ensures Filter(p, s + [x]) == Filter(p, s) + (if p(x) then [x] else [])
  {
    FilterAppend(p, s, [x]);
    assert [x][1..] == [];
  }

  /** `s.slice(0, n)`: the first `n` elements, or all of them when there are fewer. */
  function Take<T>(s: seq<T>, n: nat): (r: seq<T>)
    ensures |r| == if |s| <= n then |s| else n
    ensures r <= s
  {
    if |s| <= n then s else s[..n]
  }

  /** Non-increasing order of `key`. */
  ghost predicate SortedDesc<T>(key: T -> int, s: seq<T>) {
    forall i, j :: 0 <= i < j < |s| ==> key(s[i]) >= key(s[j])
  }

  /** Keeping a prefix of a sorted list keeps it sorted, and keeps only
      elements of the list. */
  lemma TakeSorted<T>(key: T -> int, s: seq<T>, n: nat)
    requires SortedDesc(key, s)
    ensures SortedDesc(key, Take(s, n))
    ensures multiset(Take(s, n)) <= multiset(s)
  {
    var t := Take(s, n);
    assert s == t + s[|t|..];
    assert multiset(s) == multiset(t) + multiset(s[|t|..]);
  }

  /** Places `x` in front of the first element whose key does not exceed its own. */
  function Insert<T>(key: T -> int, x: T, s: seq<T>): (r: seq<T>)
    requires SortedDesc(key, s)
    ensures SortedDesc(key, r)
    ensures multiset(r) == multiset(s) + multiset{x}
    ensures |r| == |s| + 1
    ensures r[0] == x || (|s| > 0 && r[0] == s[0])
  {
    if |s| == 0 || key(x) >= key(s[0]) then
      ConsSorted(key, x, s);
      [x] + s
    else
      var rest := Insert(key, x, s[1..]);
      assert s == [s[0]] + s[1..];
      ConsSorted(key, s[0], rest);
      [s[0]] + rest
  }

  /** An element no smaller than the head of a sorted list can go in front. */
  lemma ConsSorted<T>(key: T -> int, a: T, t: seq<T>)
    requires SortedDesc(key, t)
    requires |t| > 0 ==> key(a) >= key(t[0])
    ensures SortedDesc(key, [a] + t)
  {
    var r := [a] + t;
    forall i, j | 0 <= i < j < |r| ensures key(r[i]) >= key(r[j]) {
      if i == 0 {
        assert r[j] == t[j - 1];
      } else {
        assert r[i] == t[i - 1] && r[j] == t[j - 1];
      }
    }
  }

  /** The engine's stable `sort((a, b) => key(b) - key(a))`: largest key first,
      elements with equal keys in their input order. */
  function SortDesc<T>(key: T -> int, s: seq<T>): (r: seq<T>)
    ensures SortedDesc(key, r)
    ensures multiset(r) == multiset(s)
    ensures |r| == |s|
  {
    if |s| == 0 then []
    else
      assert s == [s[0]] + s[1..];
      Insert(key, s[0], SortDesc(key, s[1..]))
  }

  /** Inserting keeps `x` in front of every element with the same key. */
  lemma {:induction false} InsertStable<T(!new)>(key: T -> int, x: T, s: seq<T>, c: int)
    requires SortedDesc(key, s)
    ensures Filter(KeyIs(key, c), Insert(key, x, s)) == Filter(KeyIs(key, c), [x] + s)
  {
    var p := KeyIs(key, c);
    if |s| == 0 || key(x) >= key(s[0]) {
    } else {
      var rest := Insert(key, x, s[1..]);
      InsertStable(key, x, s[1..], c);
      assert Insert(key, x, s) == [s[0]] + rest;
      assert ([s[0]] + rest)[1..] == rest;
      assert ([x] + s[1..])[1..] == s[1..];
      assert ([x] + s)[1..] == s;
      calc {
        Filter(p, [s[0]] + rest);
        (if p(s[0]) then [s[0]] else []) + Filter(p, rest);
        (if p(s[0]) then [s[0]] else []) + Filter(p, [x] + s[1..]);
        (if p(s[0]) then [s[0]] else []) + ((if p(x) then [x] else []) + Filter(p, s[1..]));
        { assert !(p(s[0]) && p(x)); }
        (if p(x) then [x] else []) + ((if p(s[0]) then [s[0]] else []) + Filter(p, s[1..]));
        (if p(x) then [x] else []) + Filter(p, s);
        Filter(p, [x] + s);
      }
    }
  }

  /** Stability: for every key value, the elements carrying it appear in the
      sorted list exactly as, and in the order, they appear in the input. */
  lemma {:induction false} SortDescStable<T(!new)>(key: T -> int, s: seq<T>, c: int)
    ensures Filter(KeyIs(key, c), SortDesc(key, s)) == Filter(KeyIs(key, c), s)
  {
    if |s| > 0 {
      var p := KeyIs(key, c);
      var rest := SortDesc(key, s[1..]);
      SortDescStable(key, s[1..], c);
      InsertStable(key, s[0], rest, c);
      assert ([s[0]] + rest)[1..] == rest;
      assert s == [s[0]] + s[1..];
    }
  }

  /** Two filters can be applied in either order. */
  lemma {:induction false} FilterCommute<T(!new)>(p: T -> bool, q: T -> bool, s: seq<T>)
    ensures Filter(p, Filter(q, s)) == Filter(q, Filter(p, s))
  {
    if |s| > 0 {
      FilterCommute(p, q, s[1..]);
      var t := Filter(p, s[1..]);
      var u := Filter(q, s[1..]);
      assert ([s[0]] + t)[1..] == t;
      assert ([s[0]] + u)[1..] == u;
    }
  }

  /** Filtering a sorted list leaves it sorted. */
  lemma {:induction false} FilterSorted<T(!new)>(key: T -> int, p: T -> bool, s: seq<T>)
    requires SortedDesc(key, s)
    ensures SortedDesc(key, Filter(p, s))
  {
    if |s| > 0 {
      var g := Filter(p, s[1..]);
      FilterSorted(key, p, s[1..]);
      if p(s[0]) && |g| > 0 {
        FilterSpec(p, s[1..]);
        var k :| 0 <= k < |s[1..]| && s[1..][k] == g[0];
        assert s[k + 1] == g[0];
      }
      if p(s[0]) {
        ConsSorted(key, s[0], g);
      }
    }
  }

  /** Strictly increasing `key`. */
  ghost predicate Ascending<T>(key: T -> int, s: seq<T>) {
    forall i, j :: 0 <= i < j < |s| ==> key(s[i]) < key(s[j])
  }

  /** Filtering a strictly increasing list leaves it strictly increasing. */
  lemma {:induction false} FilterAscending<T(!new)>(key: T -> int, p: T -> bool, s: seq<T>)
    requires Ascending(key, s)
    ensures Ascending(key, Filter(p, s))
  {
    if |s| > 0 {
      var g := Filter(p, s[1..]);
      FilterAscending(key, p, s[1..]);
      if p(s[0]) {
        FilterSpec(p, s[1..]);
        ConsAscending(key, s[0], g, s[1..]);
      }
    }
  }

  /** An element below every element of `t` can go in front of it. */
  lemma ConsAscending<T>(key: T -> int, a: T, g: seq<T>, t: seq<T>)
    requires Ascending(key, g)
    requires forall x :: x in g ==> x in t
    requires forall i :: 0 <= i < |t| ==> key(a) < key(t[i])
    ensures Ascending(key, [a] + g)
  {
    var r := [a] + g;
    forall i, j | 0 <= i < j < |r| ensures key(r[i]) < key(r[j]) {
      assert r[j] == g[j - 1];
      if i == 0 {
        assert g[j - 1] in t;
      } else {
        assert r[i] == g[i - 1];
      }
    }
  }

  /** Keeping a prefix and then filtering keeps a prefix of the filtered list. */
  lemma FilterTakePrefix<T(!new)>(p: T -> bool, s: seq<T>, n: nat)
    ensures Filter(p, Take(s, n)) <= Filter(p, s)
  {
    var t := Take(s, n);
    assert s == t + s[|t|..];
    FilterAppend(p, t, s[|t|..]);
  }

  /** Filtering commutes with inserting into a sorted list. */
  lemma {:induction false} FilterInsert<T(!new)>(key: T -> int, p: T -> bool, x: T, s: seq<T>)
    requires SortedDesc(key, s)
    ensures SortedDesc(key, Filter(p, s))
    ensures Filter(p, Insert(key, x, s)) == if p(x) then Insert(key, x, Filter(p, s)) else Filter(p, s)
  {
    FilterSorted(key, p, s);
    if |s| == 0 || key(x) >= key(s[0]) {
      FilterInsertFront(key, p, x, s);
    } else {
      FilterInsert(key, p, x, s[1..]);
      FilterInsertBehind(key, p, x, s);
    }
  }

  /** Inserting in front, before and after filtering. */
  lemma FilterInsertFront<T(!new)>(key: T -> int, p: T -> bool, x: T, s: seq<T>)
    requires SortedDesc(key, s) && SortedDesc(key, Filter(p, s))
    requires |s| == 0 || key(x) >= key(s[0])
    ensures Filter(p, Insert(key, x, s)) == if p(x) then Insert(key, x, Filter(p, s)) else Filter(p, s)
  {
    var f := Filter(p, s);
    InsertAtFront(key, x, s);
    FilterCons(p, x, s);
    if p(x) {
      if |f| > 0 {
        FilterSpec(p, s);
        HeadIsLargest(key, s, f[0]);
      }
      InsertAtFront(key, x, f);
    }
  }

  /** Inserting behind the head, before and after filtering, given the
      statement for the tail. */
  lemma FilterInsertBehind<T(!new)>(key: T -> int, p: T -> bool, x: T, s: seq<T>)
    requires SortedDesc(key, s) && |s| > 0 && key(x) < key(s[0])
    requires SortedDesc(key, Filter(p, s[1..]))
    requires Filter(p, Insert(key, x, s[1..])) == if p(x) then Insert(key, x, Filter(p, s[1..])) else Filter(p, s[1..])
    requires SortedDesc(key, Filter(p, s))
    ensures Filter(p, Insert(key, x, s)) == if p(x) then Insert(key, x, Filter(p, s)) else Filter(p, s)
  {
    var rest := Insert(key, x, s[1..]);
    var g := Filter(p, s[1..]);
    FilterBehindHead(key, p, x, s);
    FilterOfCons(p, s);
    if p(s[0]) && p(x) {
      InsertKeptBehindHead(key, x, s[0], g);
    }
  }

  /** Filtering after inserting behind the head. */
  lemma FilterBehindHead<T(!new)>(key: T -> int, p: T -> bool, x: T, s: seq<T>)
    requires SortedDesc(key, s) && |s| > 0 && key(x) < key(s[0])
    ensures SortedDesc(key, s[1..])
    ensures var rest := Insert(key, x, s[1..]);
            Filter(p, Insert(key, x, s)) == if p(s[0]) then [s[0]] + Filter(p, rest) else Filter(p, rest)
  {
    InsertBehindHead(key, x, s);
    FilterCons(p, s[0], Insert(key, x, s[1..]));
  }

  /** Filtering a non-empty list, split at its head. */
  lemma FilterOfCons<T(!new)>(p: T -> bool, s: seq<T>)
    requires |s| > 0
    ensures Filter(p, s) == if p(s[0]) then [s[0]] + Filter(p, s[1..]) else Filter(p, s[1..])
  {
  }

  /** Inserting behind a larger head of a sorted list. */
  lemma InsertKeptBehindHead<T>(key: T -> int, x: T, a: T, g: seq<T>)
    requires SortedDesc(key, [a] + g)
    requires key(x) < key(a)
    ensures SortedDesc(key, g)
    ensures Insert(key, x, [a] + g) == [a] + Insert(key, x, g)
  {
    InsertBehindHead(key, x, [a] + g);
    assert ([a] + g)[1..] == g;
  }

  /** The head of a sorted list has the largest key. */
  lemma HeadIsLargest<T>(key: T -> int, s: seq<T>, y: T)
    requires SortedDesc(key, s)
    requires y in s
    ensures key(y) <= key(s[0])
  {
    var k :| 0 <= k < |s| && s[k] == y;
    if k > 0 {
      assert key(s[0]) >= key(s[k]);
    }
  }

  /** `Insert` puts an element no smaller than the head in front. */
  lemma InsertAtFront<T>(key: T -> int, x: T, s: seq<T>)
    requires SortedDesc(key, s)
    requires |s| == 0 || key(x) >= key(s[0])
    ensures Insert(key, x, s) == [x] + s
  {
  }

  /** `Insert` passes over a head with a larger key. */
  lemma InsertBehindHead<T>(key: T -> int, x: T, s: seq<T>)
    requires SortedDesc(key, s)
    requires |s| > 0 && key(x) < key(s[0])
    ensures SortedDesc(key, s[1..])
    ensures Insert(key, x, s) == [s[0]] + Insert(key, x, s[1..])
  {
  }

  /** Filtering a list with a given head. */
  lemma FilterCons<T(!new)>(p: T -> bool, a: T, t: seq<T>)
    ensures Filter(p, [a] + t) == if p(a) then [a] + Filter(p, t) else Filter(p, t)
  {
    assert ([a] + t)[1..] == t;
  }

  /** Filtering commutes with the stable sort: sorting the kept elements is
      keeping the elements of the sorted list. */
  lemma {:induction false} FilterSortDesc<T(!new)>(key: T -> int, p: T -> bool, s: seq<T>)
    ensures Filter(p, SortDesc(key, s)) == SortDesc(key, Filter(p, s))
  {
    if |s| > 0 {
      var rest := SortDesc(key, s[1..]);
      FilterSortDesc(key, p, s[1..]);
      FilterInsert(key, p, s[0], rest);
      if p(s[0]) {
        var g := Filter(p, s[1..]);
        assert ([s[0]] + g)[0] == s[0];
        assert ([s[0]] + g)[1..] == g;
      }
    }
  }

  /** Two sequences with the same multiset have the same members. */
  lemma SameMembers<T>(a: seq<T>, b: seq<T>)
    requires multiset(a) == multiset(b)
    ensures forall x :: x in a <==> x in b
  {
    forall x ensures x in a <==> x in b {
      assert x in a <==> x in multiset(a);
      assert x in b <==> x in multiset(b);
    }
  }

  /** A sequence holding only `v` holds it as many times as it is long. */
  lemma {:induction false} AllCopies<T>(s: seq<T>, v: T)
    requires forall i :: 0 <= i < |s| ==> s[i] == v
    ensures multiset(s)[v] == |s|
  {
    if |s| > 0 {
      AllCopies(s[1..], v);
      assert s == [s[0]] + s[1..];
    }
  }

  /** An element found at two positions occurs at least twice. */
  lemma TwiceMeansTwo<T>(s: seq<T>, i: nat, j: nat)
    requires i < j < |s| && s[i] == s[j]
    ensures multiset(s)[s[i]] >= 2
  {
    assert s == s[..j] + [s[j]] + s[j + 1..];
    assert s[..j][i] == s[i];
    assert multiset(s[..j])[s[i]] >= 1;
  }

  /** Elements of a sequence without repeats occur once each. */
  lemma {:induction false} DistinctOnce<T>(s: seq<T>, x: T)
    requires forall i, j :: 0 <= i < j < |s| ==> s[i] != s[j]
    ensures multiset(s)[x] <= 1
  {
    if |s| > 0 {
      DistinctOnce(s[1..], x);
      assert s == [s[0]] + s[1..];
      if s[0] == x {
        assert forall j :: 0 <= j < |s[1..]| ==> s[1..][j] != x by {
          forall j | 0 <= j < |s[1..]| ensures s[1..][j] != x {
            assert s[0] != s[j + 1];
          }
        }
        assert multiset(s[1..])[x] == 0;
      }
    }
  }

  /** After sorting and keeping the first `n`, every occurrence that was cut
      off has a key no larger than any kept element's. */
  lemma TopKeepsLargest<T>(key: T -> int, s: seq<T>, n: nat, y: T)
    requires SortedDesc(key, s)
    requires multiset(Take(s, n))[y] < multiset(s)[y]
    ensures forall i :: 0 <= i < |Take(s, n)| ==> key(y) <= key(Take(s, n)[i])
  {
    var t := Take(s, n);
    assert s == t + s[|t|..];
    assert multiset(s) == multiset(t) + multiset(s[|t|..]);
    assert y in s[|t|..];
    var j :| 0 <= j < |s[|t|..]| && s[|t|..][j] == y;
    assert s[|t| + j] == y;
  }

  /** Keys of a list of groups are pairwise different. */
  ghost predicate DistinctKeys<K, T>(g: seq<(K, seq<T>)>) {
    forall i, j :: 0 <= i < j < |g| ==> g[i].0 != g[j].0
  }

  /** One step of the `reduce` that builds `{ [key]: items }`: append `x` to the
      group for `k`, opening a new group at the end when there is none. */
  function AddToGroup<K(==), T>(g: seq<(K, seq<T>)>, k: K, x: T): (r: seq<(K, seq<T>)>)
    requires DistinctKeys(g)
    ensures DistinctKeys(r)
    ensures |r| == |g| || |r| == |g| + 1
    ensures forall i :: 0 <= i < |g| ==> r[i] == if g[i].0 == k then (k, g[i].1 + [x]) else g[i]
    ensures |r| == |g| + 1 <==> (forall i :: 0 <= i < |g| ==> g[i].0 != k)
    ensures |r| == |g| + 1 ==> r[|g|] == (k, [x])
  {
    if |g| == 0 then [(k, [x])]
    else if g[0].0 == k then [(k, g[0].1 + [x])] + g[1..]
    else [g[0]] + AddToGroup(g[1..], k, x)
  }

  /** `s.reduce((acc, x) => { (acc[key(x)] ||= []).push(x); return acc }, {})`,
      as a list of (key, group) pairs in the order the keys were first seen. */
  function GroupBy<T, K(==)>(key: T -> K, s: seq<T>): (r: seq<(K, seq<T>)>)
    ensures DistinctKeys(r)
    decreases |s|
  {
    if |s| == 0 then []
    else
      var x := s[|s| - 1];
      AddToGroup(GroupBy(key, s[..|s| - 1]), key(x), x)
  }

  /** `g` groups `s` by `key`: one group per key occurring in `s`, and each
      group is exactly the elements with that key, in input order. */
  ghost predicate IsGrouping<T(!new), K>(key: T -> K, s: seq<T>, g: seq<(K, seq<T>)>) {
    && DistinctKeys(g)
    && (forall i :: 0 <= i < |g| ==> g[i].1 == Filter(KeyIs(key, g[i].0), s))
    && (forall i :: 0 <= i < |g| ==> |g[i].1| > 0)
    && (forall x :: x in s ==> exists i :: 0 <= i < |g| && g[i].0 == key(x))
  }

  /** Each group after one `reduce` step is the filter of the extended input. */
  lemma AddToGroupFilter<T(!new), K>(key: T -> K, s: seq<T>, g: seq<(K, seq<T>)>, x: T, i: nat)
    requires IsGrouping(key, s, g)
    requires i < |AddToGroup(g, key(x), x)|
    ensures AddToGroup(g, key(x), x)[i].1 == Filter(KeyIs(key, AddToGroup(g, key(x), x)[i].0), s + [x])
  {
    var r := AddToGroup(g, key(x), x);
    FilterSnoc(KeyIs(key, r[i].0), s, x);
    if i == |g| {
      forall j | 0 <= j < |s|
        ensures !KeyIs(key, key(x))(s[j])
      {
        assert s[j] in s;
        var m :| 0 <= m < |g| && g[m].0 == key(s[j]);
      }
      FilterDropsAll(KeyIs(key, key(x)), s);
    }
  }

  /** Every element of the extended input has a group after one `reduce` step. */
  lemma AddToGroupCovers<T(!new), K>(key: T -> K, s: seq<T>, g: seq<(K, seq<T>)>, x: T, y: T)
    requires IsGrouping(key, s, g)
    requires y in s + [x]
    ensures exists i :: 0 <= i < |AddToGroup(g, key(x), x)| && AddToGroup(g, key(x), x)[i].0 == key(y)
  {
    var r := AddToGroup(g, key(x), x);
    if y in s {
      var i :| 0 <= i < |g| && g[i].0 == key(y);
      assert r[i].0 == key(y);
    } else if forall i :: 0 <= i < |g| ==> g[i].0 != key(x) {
      assert r[|g|].0 == key(y);
    } else {
      var i :| 0 <= i < |g| && g[i].0 == key(x);
      assert r[i].0 == key(y);
    }
  }

  /** One `reduce` step turns a grouping of `s` into a grouping of `s + [x]`. */
  lemma AddToGroupIsGrouping<T(!new), K>(key: T -> K, s: seq<T>, g: seq<(K, seq<T>)>, x: T)
    requires IsGrouping(key, s, g)
    ensures IsGrouping(key, s + [x], AddToGroup(g, key(x), x))
  {
    var r := AddToGroup(g, key(x), x);
    forall i | 0 <= i < |r|
      ensures r[i].1 == Filter(KeyIs(key, r[i].0), s + [x])
      ensures |r[i].1| > 0
    {
      AddToGroupFilter(key, s, g, x, i);
      if i < |g| {
        assert |g[i].1| > 0;
      }
    }
    forall y | y in s + [x]
      ensures exists i :: 0 <= i < |r| && r[i].0 == key(y)
    {
      AddToGroupCovers(key, s, g, x, y);
    }
  }

  /** The group-by `reduce` partitions its input by key. */
  lemma {:induction false} GroupByIsGrouping<T(!new), K>(key: T -> K, s: seq<T>)
    ensures IsGrouping(key, s, GroupBy(key, s))
    decreases |s|
  {
    if |s| > 0 {
      var s' := s[..|s| - 1];
      var x := s[|s| - 1];
      assert s == s' + [x];
      GroupByIsGrouping(key, s');
      AddToGroupIsGrouping(key, s', GroupBy(key, s'), x);
    }
  }

  /** The position where key `k` first occurs in `s`, or `|s|` when it does not occur. */
  function FirstSeen<T, K(==)>(key: T -> K, s: seq<T>, k: K): (r: nat)
    ensures r <= |s|
    ensures r < |s| ==> key(s[r]) == k
    ensures forall q :: 0 <= q < r ==> key(s[q]) != k
  {
    if |s| == 0 then 0
    else if key(s[0]) == k then 0
    else 1 + FirstSeen(key, s[1..], k)
  }

  /** The groups' keys occur in `s`, in the order of their first occurrences. */
  ghost predicate KeysInFirstSeenOrder<T, K>(key: T -> K, s: seq<T>, g: seq<(K, seq<T>)>) {
    && (forall i :: 0 <= i < |g| ==> FirstSeen(key, s, g[i].0) < |s|)
    && (forall i, j :: 0 <= i < j < |g| ==> FirstSeen(key, s, g[i].0) < FirstSeen(key, s, g[j].0))
  }

  /** Appending an element moves no first occurrence; a key first seen in the
      new element is first seen at the old length. */
  lemma FirstSeenSnoc<T, K>(key: T -> K, s: seq<T>, x: T, k: K)
    ensures FirstSeen(key, s, k) < |s| ==> FirstSeen(key, s + [x], k) == FirstSeen(key, s, k)
    ensures FirstSeen(key, s, k) == |s| && key(x) == k ==> FirstSeen(key, s + [x], k) == |s|
  {
    var a := FirstSeen(key, s, k);
    if a < |s| {
      assert (s + [x])[a] == s[a];
    } else if key(x) == k {
      assert (s + [x])[|s|] == x;
    }
  }

  /** Every element's key has a group. */
  ghost predicate KeysCover<T, K>(key: T -> K, s: seq<T>, g: seq<(K, seq<T>)>) {
    forall y :: y in s ==> exists i :: 0 <= i < |g| && g[i].0 == key(y)
  }

  /** A key without a group does not occur in the grouped input. */
  lemma UngroupedUnseen<T, K>(key: T -> K, s: seq<T>, g: seq<(K, seq<T>)>, k: K)
    requires KeysCover(key, s, g)
    requires forall i :: 0 <= i < |g| ==> g[i].0 != k
    ensures FirstSeen(key, s, k) == |s|
  {
  }

  /** One `reduce` step keeps the groups in first-seen order of their keys. */
  lemma AddToGroupFirstSeen<T, K>(key: T -> K, s: seq<T>, g: seq<(K, seq<T>)>, x: T)
    requires DistinctKeys(g)
    requires KeysCover(key, s, g)
    requires KeysInFirstSeenOrder(key, s, g)
    ensures KeysInFirstSeenOrder(key, s + [x], AddToGroup(g, key(x), x))
  {
    var r := AddToGroup(g, key(x), x);
    var t := s + [x];
    forall i | 0 <= i < |g|
      ensures r[i].0 == g[i].0
      ensures FirstSeen(key, t, r[i].0) == FirstSeen(key, s, g[i].0)
    {
      FirstSeenSnoc(key, s, x, g[i].0);
    }
    if |r| == |g| + 1 {
      NewGroupFirstSeen(key, s, g, x);
    }
  }

  /** A group opened by one `reduce` step has its key first seen at the end. */
  lemma NewGroupFirstSeen<T, K>(key: T -> K, s: seq<T>, g: seq<(K, seq<T>)>, x: T)
    requires DistinctKeys(g)
    requires KeysCover(key, s, g)
    requires |AddToGroup(g, key(x), x)| == |g| + 1
    ensures AddToGroup(g, key(x), x)[|g|].0 == key(x)
    ensures FirstSeen(key, s + [x], key(x)) == |s|
  {
    UngroupedUnseen(key, s, g, key(x));
    FirstSeenSnoc(key, s, x, key(x));
  }

  /** The group-by `reduce` lists the groups in the order their keys were
      first seen. */
  lemma {:induction false} GroupByFirstSeen<T(!new), K>(key: T -> K, s: seq<T>)
    ensures KeysInFirstSeenOrder(key, s, GroupBy(key, s))
    decreases |s|
  {
    if |s| > 0 {
      var s' := s[..|s| - 1];
      var x := s[|s| - 1];
      assert s == s' + [x];
      GroupByFirstSeen(key, s');
      GroupByIsGrouping(key, s');
      AddToGroupFirstSeen(key, s', GroupBy(key, s'), x);
    }
  }

  /** Total number of elements across all groups. */
  function TotalSize<K, T>(g: seq<(K, seq<T>)>): nat {
    if |g| == 0 then 0 else |g[0].1| + TotalSize(g[1..])
  }

  /** Adding one element to a grouping adds one to its total size. */
  lemma {:induction false} AddToGroupSize<K, T>(g: seq<(K, seq<T>)>, k: K, x: T)
    requires DistinctKeys(g)
    ensures TotalSize(AddToGroup(g, k, x)) == TotalSize(g) + 1
  {
    if |g| == 0 {
    } else if g[0].0 == k {
      assert ([(k, g[0].1 + [x])] + g[1..])[1..] == g[1..];
    } else {
      AddToGroupSize(g[1..], k, x);
      assert ([g[0]] + AddToGroup(g[1..], k, x))[1..] == AddToGroup(g[1..], k, x);
    }
  }

  /** Grouping loses and invents nothing: the group sizes add up to the input length. */
  lemma {:induction false} GroupBySize<T, K>(key: T -> K, s: seq<T>)
    ensures TotalSize(GroupBy(key, s)) == |s|
    decreases |s|
  {
    if |s| > 0 {
      GroupBySize(key, s[..|s| - 1]);
      AddToGroupSize(GroupBy(key, s[..|s| - 1]), key(s[|s| - 1]), s[|s| - 1]);
    }
  }
}
