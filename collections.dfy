/**
 * Sequence and map helpers that mirror the JavaScript collection operations the
 * booking store and the client pages are written with: `Array.prototype.filter`,
 * `find`, `some`, `reduce` (sum), `sort` with a numeric comparator (stable),
 * `slice(0, n)` and the iteration order of a `Map` whose keys come from a counter.
 */
module Collections {

  datatype Option<+T> = None | Some(value: T)

  function Min(a: int, b: int): int { if a <= b then a else b }

  function Max(a: int, b: int): int { if a <= b then b else a }

  /** `Math.ceil(n / d)` for a positive divisor: the least `q` with `n <= q * d`. */
  function CeilDiv(n: int, d: int): (q: int)
    requires d > 0
    ensures (q - 1) * d < n <= q * d
  {
    var f := (-n) / d;
    assert d * f <= -n < d * f + d;
    -f
  }

  /** `Math.ceil(n / d)` does not decrease as `n` grows. */
  lemma CeilDivMonotone(m: int, n: int, d: int)
    requires d > 0 && m <= n
    ensures CeilDiv(m, d) <= CeilDiv(n, d)
  {
    var p, q := CeilDiv(m, d), CeilDiv(n, d);
    assert (p - 1) * d < q * d;
  }

  // ---------------------------------------------------------------------------
  // filter

  /** `s.filter(p)`: the elements of `s` that satisfy `p`, in their original order. */
  function Filter<T(!new)>(s: seq<T>, p: T -> bool): (r: seq<T>)
    ensures |r| <= |s|
    ensures forall x :: x in r <==> x in s && p(x)
    decreases |s|
  {
    if s == [] then []
    else
      var init, last := s[..|s| - 1], s[|s| - 1];
      assert s == init + [last];
      Filter(init, p) + (if p(last) then [last] else [])
  }

  lemma FilterSnoc<T(!new)>(s: seq<T>, x: T, p: T -> bool)
    ensures Filter(s + [x], p) == Filter(s, p) + (if p(x) then [x] else [])
  {
    assert (s + [x])[..|s|] == s;
  }

  lemma {:induction false} FilterAppend<T(!new)>(u: seq<T>, v: seq<T>, p: T -> bool)
    ensures Filter(u + v, p) == Filter(u, p) + Filter(v, p)
    decreases |v|
  {
    if v == [] {
      assert u + v == u;
    } else {
      var init, last := v[..|v| - 1], v[|v| - 1];
      var tail := if p(last) then [last] else [];
      assert v == init + [last];
      assert u + v == (u + init) + [last];
      calc {
        Filter(u + v, p);
        Filter((u + init) + [last], p);
        { FilterSnoc(u + init, last, p); }
        Filter(u + init, p) + tail;
        { FilterAppend(u, init, p); }
        Filter(u, p) + Filter(init, p) + tail;
        { FilterSnoc(init, last, p); }
        Filter(u, p) + Filter(v, p);
      }
    }
  }

  /** How often `x` occurs in `Filter(s, p)`: as often as in `s` when it passes, never otherwise. */
  lemma {:induction false} FilterMultiplicity<T(!new)>(s: seq<T>, p: T -> bool, x: T)
    ensures multiset(Filter(s, p))[x] == if p(x) then multiset(s)[x] else 0
    decreases |s|
  {
    if s != [] {
      var init, last := s[..|s| - 1], s[|s| - 1];
      assert s == init + [last];
      FilterMultiplicity(init, p, x);
      FilterSnoc(init, last, p);
    }
  }

  /** Filtering two permutations of each other gives permutations of each other. */
  lemma FilterPermutation<T(!new)>(a: seq<T>, b: seq<T>, p: T -> bool)
    requires multiset(a) == multiset(b)
    ensures multiset(Filter(a, p)) == multiset(Filter(b, p))
    ensures |Filter(a, p)| == |Filter(b, p)|
  {
    forall x
      ensures multiset(Filter(a, p))[x] == multiset(Filter(b, p))[x]
    {
      FilterMultiplicity(a, p, x);
      FilterMultiplicity(b, p, x);
    }
    assert multiset(Filter(a, p)) == multiset(Filter(b, p));
    assert |multiset(Filter(a, p))| == |Filter(a, p)|;
    assert |multiset(Filter(b, p))| == |Filter(b, p)|;
  }

  /** Two predicates that agree everywhere filter alike. */
  lemma {:induction false} FilterEquiv<T(!new)>(s: seq<T>, p: T -> bool, q: T -> bool)
    requires forall x :: p(x) == q(x)
    ensures Filter(s, p) == Filter(s, q)
    decreases |s|
  {
    if s != [] {
      FilterEquiv(s[..|s| - 1], p, q);
    }
  }

  /** Filtering twice is filtering once by the conjunction. */
  lemma {:induction false} FilterFilter<T(!new)>(s: seq<T>, p: T -> bool, q: T -> bool, both: T -> bool)
    requires forall x :: both(x) == (p(x) && q(x))
    ensures Filter(Filter(s, p), q) == Filter(s, both)
    decreases |s|
  {
    if s != [] {
      var init, last := s[..|s| - 1], s[|s| - 1];
      assert s == init + [last];
      FilterFilter(init, p, q, both);
      FilterSnoc(init, last, p);
      FilterSnoc(init, last, both);
      if p(last) {
        FilterSnoc(Filter(init, p), last, q);
      } else {
        assert Filter(s, p) == Filter(init, p);
      }
    }
  }

  /** A filter that every element passes keeps the whole sequence. */
  lemma {:induction false} FilterKeepsAll<T(!new)>(s: seq<T>, p: T -> bool)
    requires forall x :: x in s ==> p(x)
    ensures Filter(s, p) == s
    decreases |s|
  {
    if s != [] {
      var init, last := s[..|s| - 1], s[|s| - 1];
      assert s == init + [last];
      FilterKeepsAll(init, p);
    }
  }

  /** `a` is an order-preserving subsequence of `b`: `a` is `b` with some elements dropped. */
  ghost predicate IsSubsequence<T>(a: seq<T>, b: seq<T>)
    decreases |b|
  {
    if b == [] then a == []
    else
      (a != [] && a[|a| - 1] == b[|b| - 1] && IsSubsequence(a[..|a| - 1], b[..|b| - 1]))
      || IsSubsequence(a, b[..|b| - 1])
  }

  lemma {:induction false} FilterIsSubsequence<T(!new)>(s: seq<T>, p: T -> bool)
    ensures IsSubsequence(Filter(s, p), s)
    decreases |s|
  {
    if s != [] {
      var init, last := s[..|s| - 1], s[|s| - 1];
      assert s == init + [last];
      FilterIsSubsequence(init, p);
      FilterSnoc(init, last, p);
      var r := Filter(s, p);
      if p(last) {
        assert r == Filter(init, p) + [last];
        assert r[..|r| - 1] == Filter(init, p);
        assert r[|r| - 1] == last;
      } else {
        assert r == Filter(init, p);
      }
    }
  }

  // ---------------------------------------------------------------------------
  // find, some

  /** `s.find(p)`: the first element of `s` that satisfies `p`, if any. */
  function Find<T(!new)>(s: seq<T>, p: T -> bool): (r: Option<T>)
    ensures r.Some? ==> r.value in s && p(r.value)
    ensures r.None? <==> forall x :: x in s ==> !p(x)
    decreases |s|
  {
    if s == [] then None
    else if p(s[0]) then Some(s[0])
    else
      assert forall x :: x in s ==> x == s[0] || x in s[1..];
      Find(s[1..], p)
  }

  /** `s.some(p)`. */
  function Any<T(!new)>(s: seq<T>, p: T -> bool): (r: bool)
    ensures r <==> exists x :: x in s && p(x)
    decreases |s|
  {
    if s == [] then false
    else
      assert forall x :: x in s ==> x == s[0] || x in s[1..];
      p(s[0]) || Any(s[1..], p)
  }

  // ---------------------------------------------------------------------------
  // reduce((sum, x) => sum + f(x), 0)

  function Sum<T>(s: seq<T>, f: T -> int): int
    decreases |s|
  {
    if s == [] then 0 else Sum(s[..|s| - 1], f) + f(s[|s| - 1])
  }

  lemma {:induction false} SumAppend<T>(u: seq<T>, v: seq<T>, f: T -> int)
    ensures Sum(u + v, f) == Sum(u, f) + Sum(v, f)
    decreases |v|
  {
    if v == [] {
      assert u + v == u;
    } else {
      var init, last := v[..|v| - 1], v[|v| - 1];
      assert v == init + [last];
      assert (u + v)[..|u + v| - 1] == u + init;
      assert (u + v)[|u + v| - 1] == last;
      calc {
        Sum(u + v, f);
        Sum(u + init, f) + f(last);
        { SumAppend(u, init, f); }
        Sum(u, f) + Sum(init, f) + f(last);
        Sum(u, f) + Sum(v, f);
      }
    }
  }

  /** Taking the `k`-th term out of a sequence takes `f` of it out of the sum. */
  lemma SumRemove<T>(b: seq<T>, k: nat, f: T -> int)
    requires k < |b|
    ensures Sum(b, f) == Sum(b[..k] + b[k + 1..], f) + f(b[k])
  {
    var u, x, v := b[..k], b[k], b[k + 1..];
    calc {
      Sum(b, f);
      { assert b == (u + [x]) + v; }
      Sum((u + [x]) + v, f);
      { SumAppend(u + [x], v, f); }
      Sum(u + [x], f) + Sum(v, f);
      { assert (u + [x])[..|u|] == u; }
      Sum(u, f) + f(x) + Sum(v, f);
      { SumAppend(u, v, f); }
      Sum(u + v, f) + f(x);
    }
  }

  /** Taking the `k`-th element out of a sequence takes one copy of it out of its multiset. */
  lemma MultisetRemove<T>(b: seq<T>, k: nat)
    requires k < |b|
    ensures multiset(b[..k] + b[k + 1..]) == multiset(b) - multiset{b[k]}
  {
    assert b == b[..k] + [b[k]] + b[k + 1..];
  }

  /** A sum does not depend on the order of its terms. */
  lemma {:induction false} SumPermutation<T>(a: seq<T>, b: seq<T>, f: T -> int)
    requires multiset(a) == multiset(b)
    ensures Sum(a, f) == Sum(b, f)
    decreases |a|
  {
    if a == [] {
      assert |multiset(b)| == 0;
    } else {
      var init, last := a[..|a| - 1], a[|a| - 1];
      assert a == init + [last];
      assert last in multiset(b);
      var k :| 0 <= k < |b| && b[k] == last;
      var rest := b[..k] + b[k + 1..];
      calc {
        Sum(a, f);
        Sum(init, f) + f(last);
        { MultisetRemove(b, k);
          assert multiset(init) == multiset(rest);
          SumPermutation(init, rest, f); }
        Sum(rest, f) + f(last);
        { SumRemove(b, k, f); }
        Sum(b, f);
      }
    }
  }

  /** `s.map(f)`. */
  function MapSeq<T, U>(s: seq<T>, f: T -> U): (r: seq<U>)
    ensures |r| == |s|
    decreases |s|
  {
    if s == [] then [] else MapSeq(s[..|s| - 1], f) + [f(s[|s| - 1])]
  }

  /** The `k`-th element of the mapped sequence is `f` of the `k`-th element. */
  lemma {:induction false} MapSeqEach<T, U>(s: seq<T>, f: T -> U)
    ensures forall k :: 0 <= k < |s| ==> MapSeq(s, f)[k] == f(s[k])
    decreases |s|
  {
    if s != [] {
      MapSeqEach(s[..|s| - 1], f);
    }
  }

  /** `p` after `f`. */
  function AfterMap<T, U>(f: T -> U, p: U -> bool): T -> bool
  {
    (x: T) => p(f(x))
  }

  /** Filtering the mapped sequence keeps as many elements as filtering by `p` after `f`. */
  lemma {:induction false} FilterMapSeqCount<T(!new), U(!new)>(s: seq<T>, f: T -> U, p: U -> bool)
    ensures |Filter(MapSeq(s, f), p)| == |Filter(s, AfterMap(f, p))|
    decreases |s|
  {
    if s != [] {
      var init, last := s[..|s| - 1], s[|s| - 1];
      assert s == init + [last];
      FilterMapSeqCount(init, f, p);
      assert MapSeq(s, f) == MapSeq(init, f) + [f(last)];
      FilterSnoc(MapSeq(init, f), f(last), p);
      FilterSnoc(init, last, AfterMap(f, p));
    }
  }

  // ---------------------------------------------------------------------------
  // sort((a, b) => key(a) - key(b)): stable, ascending by an integer key

  ghost predicate SortedBy<T>(s: seq<T>, key: T -> int)
  {
    forall i, j :: 0 <= i < j < |s| ==> key(s[i]) <= key(s[j])
  }

  /** Inserts `x` before the first element whose key is not smaller (so `x` precedes equal keys). */
  function InsertBy<T>(x: T, s: seq<T>, key: T -> int): (r: seq<T>)
    ensures |r| == |s| + 1
    decreases |s|
  {
    if s == [] || key(x) <= key(s[0]) then [x] + s
    else
      assert s == [s[0]] + s[1..];
      [s[0]] + InsertBy(x, s[1..], key)
  }

  /** Inserting adds one copy of `x` and keeps every other element. */
  lemma {:induction false} InsertByElements<T>(x: T, s: seq<T>, key: T -> int)
    ensures multiset(InsertBy(x, s, key)) == multiset(s) + multiset{x}
    decreases |s|
  {
    if s != [] && key(x) > key(s[0]) {
      assert s == [s[0]] + s[1..];
      InsertByElements(x, s[1..], key);
    }
  }

  /** Dropping the head of a sorted sequence leaves it sorted. */
  lemma SortedTail<T>(s: seq<T>, key: T -> int)
    requires SortedBy(s, key) && s != []
    ensures SortedBy(s[1..], key)
  {
    forall i, j | 0 <= i < j < |s| - 1 ensures key(s[1..][i]) <= key(s[1..][j]) {
      assert s[1..][i] == s[i + 1] && s[1..][j] == s[j + 1];
    }
  }

  /** A sorted sequence stays sorted behind a head whose key is no larger than any of its elements. */
  lemma SortedCons<T>(h: T, t: seq<T>, key: T -> int)
    requires SortedBy(t, key)
    requires forall y :: y in t ==> key(h) <= key(y)
    ensures SortedBy([h] + t, key)
  {
    var r := [h] + t;
    forall i, j | 0 <= i < j < |r| ensures key(r[i]) <= key(r[j]) {
      assert r[j] == t[j - 1];
      if i > 0 {
        assert r[i] == t[i - 1];
      }
    }
  }

  /** Inserting `x` into the tail of `s` keeps every element at or above the head's key when `x` is. */
  lemma InsertByBound<T>(x: T, s: seq<T>, key: T -> int)
    requires SortedBy(s, key) && s != [] && key(x) > key(s[0])
    ensures forall y :: y in InsertBy(x, s[1..], key) ==> key(s[0]) <= key(y)
  {
    var tail := InsertBy(x, s[1..], key);
    InsertByElements(x, s[1..], key);
    SortedHeadIsLeast(s, key);
    forall y | y in tail ensures key(s[0]) <= key(y) {
      assert y in multiset(tail);
      if y != x {
        assert y in multiset(s[1..]);
        assert y in s;
      }
    }
  }

  /** Inserting into a sorted sequence keeps it sorted. */
  lemma {:induction false} InsertBySorted<T>(x: T, s: seq<T>, key: T -> int)
    requires SortedBy(s, key)
    ensures SortedBy(InsertBy(x, s, key), key)
    decreases |s|
  {
    if s != [] && key(x) > key(s[0]) {
      SortedTail(s, key);
      InsertBySorted(x, s[1..], key);
      InsertByBound(x, s, key);
      SortedCons(s[0], InsertBy(x, s[1..], key), key);
    } else {
      SortedHeadIsLeast(s, key);
      SortedCons(x, s, key);
    }
  }

  /** `[...s].sort((a, b) => key(a) - key(b))`; insertion sort, which is stable like `Array.prototype.sort`. */
  function SortBy<T>(s: seq<T>, key: T -> int): (r: seq<T>)
    ensures |r| == |s|
    decreases |s|
  {
    if s == [] then [] else InsertBy(s[0], SortBy(s[1..], key), key)
  }

  /** A sorted copy is a permutation of the input, in ascending key order. */
  lemma {:induction false} SortBySpec<T>(s: seq<T>, key: T -> int)
    ensures multiset(SortBy(s, key)) == multiset(s)
    ensures SortedBy(SortBy(s, key), key)
    decreases |s|
  {
    if s != [] {
      assert s == [s[0]] + s[1..];
      SortBySpec(s[1..], key);
      InsertByElements(s[0], SortBy(s[1..], key), key);
      InsertBySorted(s[0], SortBy(s[1..], key), key);
    }
  }

  /** Sequences that are permutations of each other hold the same elements. */
  lemma PermutationMembers<T>(a: seq<T>, b: seq<T>)
    requires multiset(a) == multiset(b)
    ensures forall x :: x in a <==> x in b
  {
    forall x ensures x in a <==> x in b {
      assert x in a <==> x in multiset(a);
      assert x in b <==> x in multiset(b);
    }
  }

  /** The head of a sorted sequence has the least key. */
  lemma SortedHeadIsLeast<T>(s: seq<T>, key: T -> int)
    requires SortedBy(s, key)
    ensures |s| > 0 ==> forall x :: x in s ==> key(s[0]) <= key(x)
  {
    forall x | x in s ensures key(s[0]) <= key(x) {
      var j :| 0 <= j < |s| && s[j] == x;
      if j > 0 {
        assert key(s[0]) <= key(s[j]);
      }
    }
  }

  /** Every element a sorted sequence keeps in its first `k` positions has a key no larger than one it leaves out. */
  lemma SortedPrefixIsLeast<T>(s: seq<T>, key: T -> int, k: nat)
    requires SortedBy(s, key) && k <= |s|
    ensures forall a, x :: a in s && a !in s[..k] && x in s[..k] ==> key(x) <= key(a)
  {
    forall a, x | a in s && a !in s[..k] && x in s[..k] ensures key(x) <= key(a) {
      var j :| 0 <= j < |s| && s[j] == a;
      var i :| 0 <= i < k && s[..k][i] == x;
      assert s[i] == x;
    }
  }

  // ---------------------------------------------------------------------------
  // slice(0, end)

  /** `s.slice(0, end)`: a prefix; a negative `end` counts back from the end. */
  function SliceTo<T>(s: seq<T>, end: int): (r: seq<T>)
    ensures |r| == if end >= 0 then Min(end, |s|) else Max(0, |s| + end)
    ensures r == s[..|r|]
  {
    var k := if end >= 0 then Min(end, |s|) else Max(0, |s| + end);
    s[..k]
  }

  /** A prefix holds no element more often than the whole sequence. */
  lemma PrefixSubMultiset<T>(s: seq<T>, k: nat)
    requires k <= |s|
    ensures multiset(s[..k]) <= multiset(s)
  {
    assert s == s[..k] + s[k..];
  }

  // ---------------------------------------------------------------------------
  // Map iteration order

  /**
   * `Array.from(m.values())` for a map whose keys were all inserted in increasing order and below
   * `bound`: the values in ascending key order.
   */
  /** In a sequence sorted by `key`, the first element satisfying `p` has the least key of all that do. */
  lemma {:induction false} FindLeast<T(!new)>(s: seq<T>, p: T -> bool, key: T -> int)
    requires SortedBy(s, key)
    ensures Find(s, p).Some? ==> forall y :: y in s && p(y) ==> key(Find(s, p).value) <= key(y)
    decreases |s|
  {
    if s != [] {
      if p(s[0]) {
        SortedHeadIsLeast(s, key);
      } else {
        SortedTail(s, key);
        FindLeast(s[1..], p, key);
        forall y | y in s && p(y) ensures y in s[1..] {
          var j :| 0 <= j < |s| && s[j] == y;
          assert j != 0 && s[1..][j - 1] == y;
        }
      }
    }
  }

  function InIdOrder<T(!new)>(m: map<int, T>, bound: nat): (r: seq<T>)
    ensures forall x :: x in r <==> exists id :: id in m && 0 <= id < bound && m[id] == x
    decreases bound
  {
    if bound == 0 then []
    else
      var prev := InIdOrder(m, bound - 1);
      var r := prev + (if bound - 1 in m then [m[bound - 1]] else []);
      assert forall x :: x in r <==> x in prev || (bound - 1 in m && x == m[bound - 1]);
      r
  }

  ghost predicate KeysBelow<T>(m: map<int, T>, bound: nat)
  {
    forall id :: id in m ==> 0 <= id < bound
  }

  /** With every key below `bound`, the ordered values are exactly the map's values. */
  lemma InIdOrderValues<T(!new)>(m: map<int, T>, bound: nat)
    requires KeysBelow(m, bound)
    ensures forall x :: x in InIdOrder(m, bound) <==> x in m.Values
  {
    forall id | id in m ensures m[id] in InIdOrder(m, bound) {
    }
  }

  ghost function IdsWhere<T>(m: map<int, T>, bound: nat, p: T -> bool): set<int>
  {
    set id | id in m && 0 <= id < bound && p(m[id])
  }

  lemma IdsWhereStep<T>(m: map<int, T>, bound: nat, p: T -> bool)
    ensures |IdsWhere(m, bound + 1, p)| == |IdsWhere(m, bound, p)| + (if bound in m && p(m[bound]) then 1 else 0)
  {
    var prev, next := IdsWhere(m, bound, p), IdsWhere(m, bound + 1, p);
    if bound in m && p(m[bound]) {
      assert bound !in prev;
      assert next == prev + {bound};
    } else {
      assert next == prev;
    }
  }

  lemma InIdOrderStep<T(!new)>(m: map<int, T>, bound: nat, p: T -> bool)
    ensures |Filter(InIdOrder(m, bound + 1), p)| == |Filter(InIdOrder(m, bound), p)| + (if bound in m && p(m[bound]) then 1 else 0)
  {
    if bound in m {
      assert InIdOrder(m, bound + 1) == InIdOrder(m, bound) + [m[bound]];
      FilterSnoc(InIdOrder(m, bound), m[bound], p);
    } else {
      assert InIdOrder(m, bound + 1) == InIdOrder(m, bound);
    }
  }

  /** Counting the ordered values that satisfy `p` counts the keys whose value satisfies `p`. */
  lemma {:induction false} InIdOrderCount<T(!new)>(m: map<int, T>, bound: nat, p: T -> bool)
    ensures |Filter(InIdOrder(m, bound), p)| == |IdsWhere(m, bound, p)|
    decreases bound
  {
    if bound == 0 {
      assert InIdOrder(m, 0) == [];
      assert IdsWhere(m, 0, p) == {};
    } else {
      var b: nat := bound - 1;
      var step := if b in m && p(m[b]) then 1 else 0;
      calc {
        |Filter(InIdOrder(m, bound), p)|;
        { InIdOrderStep(m, b, p); }
        |Filter(InIdOrder(m, b), p)| + step;
        { InIdOrderCount(m, b, p); }
        |IdsWhere(m, b, p)| + step;
        { IdsWhereStep(m, b, p); }
        |IdsWhere(m, bound, p)|;
      }
    }
  }

  /** With every key below `bound`, the bound in `IdsWhere` changes nothing. */
  lemma IdsWhereAll<T>(m: map<int, T>, bound: nat, p: T -> bool)
    requires KeysBelow(m, bound)
    ensures IdsWhere(m, bound, p) == set id | id in m && p(m[id])
  {
  }

  /** Counting the ordered values that pass `p` is counting the keys whose value passes `p`. */
  lemma InIdOrderFilterCount<T(!new)>(m: map<int, T>, bound: nat, p: T -> bool, ids: set<int>)
    requires KeysBelow(m, bound)
    requires forall id :: id in ids <==> id in m && p(m[id])
    ensures |Filter(InIdOrder(m, bound), p)| == |ids|
  {
    InIdOrderCount(m, bound, p);
    forall id ensures id in ids <==> id in IdsWhere(m, bound, p) {
      if id in m {
        assert 0 <= id < bound;
      }
    }
    assert ids == IdsWhere(m, bound, p);
  }

  /** The ordered values list every key once. */
  lemma InIdOrderLength<T(!new)>(m: map<int, T>, bound: nat)
    requires KeysBelow(m, bound)
    ensures |InIdOrder(m, bound)| == |m|
  {
    var all := (x: T) => true;
    InIdOrderCount(m, bound, all);
    FilterKeepsAll(InIdOrder(m, bound), all);
    assert IdsWhere(m, bound, all) == m.Keys;
  }

  /** Values stored under their own key come out in ascending key order. */
  lemma {:induction false} InIdOrderSorted<T(!new)>(m: map<int, T>, bound: nat, key: T -> int)
    requires forall id :: id in m ==> key(m[id]) == id
    ensures SortedBy(InIdOrder(m, bound), key)
    decreases bound
  {
    if bound > 0 {
      var b := bound - 1;
      var prev := InIdOrder(m, b);
      InIdOrderSorted(m, b, key);
      if b in m {
        var r := InIdOrder(m, bound);
        assert r == prev + [m[b]];
        forall i, j | 0 <= i < j < |r| ensures key(r[i]) <= key(r[j]) {
          if j < |prev| {
            assert r[i] == prev[i] && r[j] == prev[j];
          } else {
            assert r[i] == prev[i] && prev[i] in prev;
          }
        }
      } else {
        assert InIdOrder(m, bound) == prev;
      }
    }
  }
}
