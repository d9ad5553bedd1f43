/** A stable sort by a numeric key, ascending, as `Array.prototype.sort` performs it with a
    comparator `(a, b) => key(a) - key(b)` (the sort is stable since ECMAScript 2019).
    Written as insertion sort on sequences; the matcher, the roadmap generator and the stats
    grid all sort through it. */
module StableSort {

  /** Every element's key is at most that of every later element. */
  predicate SortedBy<T>(s: seq<T>, key: T -> real) {
    forall i, j :: 0 <= i < j < |s| ==> key(s[i]) <= key(s[j])
  }

  /** The elements of `s` whose key is `k`, in their order in `s`. */
  function KeyFilter<T>(s: seq<T>, key: T -> real, k: real): (r: seq<T>)
    ensures |r| <= |s|
  {
    if s == [] then []
    else (if key(s[0]) == k then [s[0]] else []) + KeyFilter(s[1..], key, k)
  }

  /** Filtering by key distributes over concatenation. */
  lemma {:induction false} KeyFilterAppend<T>(a: seq<T>, b: seq<T>, key: T -> real, k: real)
    ensures KeyFilter(a + b, key, k) == KeyFilter(a, key, k) + KeyFilter(b, key, k)
  {
    if a != [] {
      assert a + b == [a[0]] + (a[1..] + b) && a == [a[0]] + a[1..];
      KeyFilterCons(a[0], a[1..] + b, key, k);
      KeyFilterCons(a[0], a[1..], key, k);
      KeyFilterAppend(a[1..], b, key, k);
    } else {
      assert a + b == b;
    }
  }

  /** A sorted sequence stays sorted when an element whose key bounds all of it from below is
      put in front. */
  lemma SortedCons<T>(h: T, t: seq<T>, key: T -> real)
    requires SortedBy(t, key)
    requires forall j :: 0 <= j < |t| ==> key(h) <= key(t[j])
    ensures SortedBy([h] + t, key)
  {
    var r := [h] + t;
    forall i, j | 0 <= i < j < |r| ensures key(r[i]) <= key(r[j]) {
      if i > 0 {
        assert r[i] == t[i - 1] && r[j] == t[j - 1];
      } else {
        assert r[j] == t[j - 1];
      }
    }
  }

  /** The head of a sorted sequence bounds from below any rearrangement of its tail with an
      element of larger key added. */
  lemma HeadBoundsPermutation<T>(s: seq<T>, x: T, rest: seq<T>, key: T -> real)
    requires |s| > 0 && SortedBy(s, key) && key(s[0]) < key(x)
    requires multiset(rest) == multiset(s[1..]) + multiset{x}
    ensures forall j :: 0 <= j < |rest| ==> key(s[0]) <= key(rest[j])
  {
    forall j | 0 <= j < |rest| ensures key(s[0]) <= key(rest[j]) {
      assert rest[j] in multiset(rest);
      if rest[j] != x {
        assert rest[j] in multiset(s[1..]);
        var m :| 0 <= m < |s[1..]| && s[1..][m] == rest[j];
        assert s[m + 1] == rest[j];
      }
    }
  }

  /** Places `x` in front of the first element whose key is not below its own. */
  function Insert<T>(x: T, s: seq<T>, key: T -> real): (r: seq<T>)
    requires SortedBy(s, key)
    ensures SortedBy(r, key)
    ensures multiset(r) == multiset(s) + multiset{x}
    ensures |r| == |s| + 1
  {
    if s == [] || key(x) <= key(s[0]) then
      SortedCons(x, s, key);
      [x] + s
    else
      var rest := Insert(x, s[1..], key);
      assert s == [s[0]] + s[1..];
      HeadBoundsPermutation(s, x, rest, key);
      SortedCons(s[0], rest, key);
      [s[0]] + rest
  }

  /** Inserting `x` adds it to the front of the elements sharing its key and leaves the
      elements of every other key as they were. */
  lemma {:induction false} InsertKeyFilter<T>(x: T, s: seq<T>, key: T -> real, k: real)
    requires SortedBy(s, key)
    ensures KeyFilter(Insert(x, s, key), key, k)
            == if key(x) == k then [x] + KeyFilter(s, key, k) else KeyFilter(s, key, k)
  {
    if s == [] || key(x) <= key(s[0]) {
      KeyFilterCons(x, s, key, k);
    } else {
      var rest := Insert(x, s[1..], key);
      assert Insert(x, s, key) == [s[0]] + rest;
      InsertKeyFilter(x, s[1..], key, k);
      KeyFilterCons(s[0], rest, key, k);
      KeyFilterCons(s[0], s[1..], key, k);
      assert s == [s[0]] + s[1..];
    }
  }

  /** Filtering a sequence with a head element: the head if it has the key, then the filtered
      tail. */
  lemma KeyFilterCons<T>(h: T, t: seq<T>, key: T -> real, k: real)
    ensures KeyFilter([h] + t, key, k) == (if key(h) == k then [h] else []) + KeyFilter(t, key, k)
  {
    assert ([h] + t)[0] == h && ([h] + t)[1..] == t;
  }

  /** Insertion sort by key: the result is ordered by key and is a permutation of the input. */
  function Sort<T>(s: seq<T>, key: T -> real): (r: seq<T>)
    ensures SortedBy(r, key)
    ensures multiset(r) == multiset(s)
    ensures |r| == |s|
  {
    if s == [] then []
    else
      assert s == [s[0]] + s[1..];
      Insert(s[0], Sort(s[1..], key), key)
  }

  /** The sort is stable: for every key, the elements carrying it appear in the result in
      exactly their input order. */
  lemma {:induction false} SortStable<T>(s: seq<T>, key: T -> real, k: real)
    ensures KeyFilter(Sort(s, key), key, k) == KeyFilter(s, key, k)
  {
    if s != [] {
      var t := Sort(s[1..], key);
      assert Sort(s, key) == Insert(s[0], t, key);
      SortStable(s[1..], key, k);
      InsertKeyFilter(s[0], t, key, k);
      assert KeyFilter(s, key, k)
             == (if key(s[0]) == k then [s[0]] else []) + KeyFilter(s[1..], key, k);
    }
  }

  /** Among elements of equal key, `rank` strictly increases along `s`. */
  predicate TiesOrderedBy<T>(s: seq<T>, key: T -> real, rank: T -> int) {
    forall i, j :: 0 <= i < j < |s| && key(s[i]) == key(s[j]) ==> rank(s[i]) < rank(s[j])
  }

  /** Putting in front an element that ranks below every later element of equal key keeps
      ties ordered. */
  lemma ConsKeepsTieOrder<T>(h: T, t: seq<T>, key: T -> real, rank: T -> int)
    requires TiesOrderedBy(t, key, rank)
    requires forall y :: y in t && key(y) == key(h) ==> rank(h) < rank(y)
    ensures TiesOrderedBy([h] + t, key, rank)
  {
    var r := [h] + t;
    forall i, j | 0 <= i < j < |r| && key(r[i]) == key(r[j])
      ensures rank(r[i]) < rank(r[j])
    {
      assert r[j] == t[j - 1];
      if i == 0 {
        assert r[j] in t;
      } else {
        assert r[i] == t[i - 1];
      }
    }
  }

  /** Dropping the first element keeps ties ordered. */
  lemma TailKeepsTieOrder<T>(s: seq<T>, key: T -> real, rank: T -> int)
    requires |s| > 0 && TiesOrderedBy(s, key, rank)
    ensures TiesOrderedBy(s[1..], key, rank)
    ensures forall y :: y in s[1..] && key(y) == key(s[0]) ==> rank(s[0]) < rank(y)
  {
    var t := s[1..];
    forall i, j | 0 <= i < j < |t| && key(t[i]) == key(t[j])
      ensures rank(t[i]) < rank(t[j])
    {
      assert t[i] == s[i + 1] && t[j] == s[j + 1];
    }
    forall y | y in t && key(y) == key(s[0]) ensures rank(s[0]) < rank(y) {
      var k :| 0 <= k < |t| && t[k] == y;
      assert s[k + 1] == y;
    }
  }

  /** If ties in the input are ordered by `rank`, they still are after inserting an element
      that ranks below every element of equal key. */
  lemma {:induction false} InsertKeepsTieOrder<T>(x: T, s: seq<T>, key: T -> real, rank: T -> int)
    requires SortedBy(s, key)
    requires TiesOrderedBy(s, key, rank)
    requires forall y :: y in s && key(y) == key(x) ==> rank(x) < rank(y)
    ensures TiesOrderedBy(Insert(x, s, key), key, rank)
  {
    if s == [] || key(x) <= key(s[0]) {
      ConsKeepsTieOrder(x, s, key, rank);
    } else {
      var rest := Insert(x, s[1..], key);
      assert forall y :: y in s[1..] ==> y in s;
      TailKeepsTieOrder(s, key, rank);
      InsertKeepsTieOrder(x, s[1..], key, rank);
      forall y | y in rest && key(y) == key(s[0]) ensures rank(s[0]) < rank(y) {
        assert y in multiset(rest);
        assert y in multiset(s[1..]);
      }
      ConsKeepsTieOrder(s[0], rest, key, rank);
    }
  }

  /** Sorting keeps any order that the input already respects among equal keys. */
  lemma {:induction false} SortKeepsTieOrder<T>(s: seq<T>, key: T -> real, rank: T -> int)
    requires TiesOrderedBy(s, key, rank)
    ensures TiesOrderedBy(Sort(s, key), key, rank)
  {
    if s != [] {
      var tail := s[1..];
      forall i, j | 0 <= i < j < |tail| && key(tail[i]) == key(tail[j])
        ensures rank(tail[i]) < rank(tail[j])
      {
        assert tail[i] == s[i + 1] && tail[j] == s[j + 1];
      }
      SortKeepsTieOrder(tail, key, rank);
      var sorted := Sort(tail, key);
      forall y | y in sorted && key(y) == key(s[0])
        ensures rank(s[0]) < rank(y)
      {
        assert y in multiset(tail);
        var k :| 0 <= k < |tail| && tail[k] == y;
        assert s[k + 1] == y;
      }
      InsertKeepsTieOrder(s[0], sorted, key, rank);
    }
  }

  /** The first element carrying key `k` is the earliest one: every element before it has a
      different key. */
  lemma {:induction false} KeyFilterFirst<T>(s: seq<T>, key: T -> real, k: real) returns (i: int)
    requires |KeyFilter(s, key, k)| > 0
    ensures 0 <= i < |s| && s[i] == KeyFilter(s, key, k)[0] && key(s[i]) == k
    ensures forall j :: 0 <= j < i ==> key(s[j]) != k
  {
    if key(s[0]) == k {
      i := 0;
    } else {
      assert KeyFilter(s, key, k) == KeyFilter(s[1..], key, k);
      var i' := KeyFilterFirst(s[1..], key, k);
      i := i' + 1;
      forall j | 0 <= j < i ensures key(s[j]) != k {
        if j > 0 {
          assert s[j] == s[1..][j - 1];
        }
      }
    }
  }

  /** The first element of a non-empty sorted result carries the least key of the input, and
      it is the earliest input element with that key. */
  lemma SortHead<T>(s: seq<T>, key: T -> real)
    requires |s| > 0
    ensures var h := Sort(s, key)[0];
      h in s
      && (forall x :: x in s ==> key(h) <= key(x))
      && |KeyFilter(s, key, key(h))| > 0
      && KeyFilter(s, key, key(h))[0] == h
  {
    var r := Sort(s, key);
    var h := r[0];
    assert h in multiset(s);
    forall x | x in s ensures key(h) <= key(x) {
      assert x in multiset(r);
      var i :| 0 <= i < |r| && r[i] == x;
      if i > 0 {
        assert key(r[0]) <= key(r[i]);
      }
    }
    assert r == [h] + r[1..];
    assert KeyFilter(r, key, key(h))[0] == h;
    SortStable(s, key, key(h));
  }
}
