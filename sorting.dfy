/**
 * Python's `sorted(xs, key=f)`: a stable sort. Keys are compared
 * lexicographically as sequences of integers, which covers every key the
 * router sorts by: an integer, a string (by code points, a proper prefix
 * first), a tuple of those, or a number that may be `float('inf')`.
 *
 * The sort is an insertion sort; what the handlers rely on is stated as
 * lemmas: the result is a permutation, ordered by key, stable, and its head
 * is the first element of least key.
 */
module Sorting {

  /** `a <= b` on integer sequences, Python's order on tuples and strings. */
  predicate LexLe(a: seq<int>, b: seq<int>)
  {
    a == [] || (b != [] && (a[0] < b[0] || (a[0] == b[0] && LexLe(a[1..], b[1..]))))
  }

  lemma {:induction false} LexLeRefl(a: seq<int>)
    ensures LexLe(a, a)
  {
    if a != [] { LexLeRefl(a[1..]); }
  }

  lemma {:induction false} LexLeTotal(a: seq<int>, b: seq<int>)
    ensures LexLe(a, b) || LexLe(b, a)
  {
    if a != [] && b != [] && a[0] == b[0] { LexLeTotal(a[1..], b[1..]); }
  }

  lemma {:induction false} LexLeAntisym(a: seq<int>, b: seq<int>)
    requires LexLe(a, b) && LexLe(b, a)
    ensures a == b
  {
    if a != [] && b != [] {
      LexLeAntisym(a[1..], b[1..]);
      assert a == [a[0]] + a[1..] && b == [b[0]] + b[1..];
    }
  }

  lemma {:induction false} LexLeTrans(a: seq<int>, b: seq<int>, c: seq<int>)
    requires LexLe(a, b) && LexLe(b, c)
    ensures LexLe(a, c)
  {
    if a != [] && b != [] && c != [] && a[0] == b[0] && b[0] == c[0] {
      LexLeTrans(a[1..], b[1..], c[1..]);
    }
  }

  /** `s` is in non-decreasing key order. */
  predicate SortedBy<T>(s: seq<T>, key: T -> seq<int>)
  {
    forall i, j :: 0 <= i < j < |s| ==> LexLe(key(s[i]), key(s[j]))
  }

  /** The elements of `s` whose key is `v`, in their order in `s`. */
  function WithKey<T>(s: seq<T>, key: T -> seq<int>, v: seq<int>): seq<T>
  {
    if s == [] then []
    else (if key(s[0]) == v then [s[0]] else []) + WithKey(s[1..], key, v)
  }

  /** Insert `x` before the first element whose key is at least `x`'s. */
  function Insert<T>(x: T, t: seq<T>, key: T -> seq<int>): seq<T>
  {
    if t == [] then [x]
    else if LexLe(key(x), key(t[0])) then [x] + t
    else [t[0]] + Insert(x, t[1..], key)
  }

  /** `sorted(s, key=key)` */
  function SortBy<T>(s: seq<T>, key: T -> seq<int>): seq<T>
  {
    if s == [] then [] else Insert(s[0], SortBy(s[1..], key), key)
  }

  lemma {:induction false} InsertPermutes<T>(x: T, t: seq<T>, key: T -> seq<int>)
    ensures multiset(Insert(x, t, key)) == multiset([x] + t)
  {
    if t != [] && !LexLe(key(x), key(t[0])) {
      InsertPermutes(x, t[1..], key);
      assert t == [t[0]] + t[1..];
    }
  }

  lemma {:induction false} InsertSorted<T>(x: T, t: seq<T>, key: T -> seq<int>)
    requires SortedBy(t, key)
    ensures SortedBy(Insert(x, t, key), key)
  {
    if t == [] {
    } else if LexLe(key(x), key(t[0])) {
      var r := [x] + t;
      forall i, j | 0 <= i < j < |r| ensures LexLe(key(r[i]), key(r[j])) {
        if i == 0 && j > 1 { LexLeTrans(key(x), key(t[0]), key(t[j - 1])); }
      }
    } else {
      InsertSorted(x, t[1..], key);
      InsertPermutes(x, t[1..], key);
      var tail := Insert(x, t[1..], key);
      var r := [t[0]] + tail;
      LexLeTotal(key(x), key(t[0]));
      forall i, j | 0 <= i < j < |r| ensures LexLe(key(r[i]), key(r[j])) {
        if i == 0 {
          assert r[j] in multiset([x] + t[1..]) by { assert r[j] == tail[j - 1]; }
          var e := r[j];
          if e != x {
            assert e in t[1..];
            var k :| 0 <= k < |t[1..]| && t[1..][k] == e;
            assert t[1 + k] == e;
          }
        }
      }
    }
  }

  lemma {:induction false} SortByPermutes<T>(s: seq<T>, key: T -> seq<int>)
    ensures multiset(SortBy(s, key)) == multiset(s)
  {
    if s != [] {
      SortByPermutes(s[1..], key);
      InsertPermutes(s[0], SortBy(s[1..], key), key);
      assert s == [s[0]] + s[1..];
    }
  }

  lemma {:induction false} SortBySorted<T>(s: seq<T>, key: T -> seq<int>)
    ensures SortedBy(SortBy(s, key), key)
  {
    if s != [] {
      SortBySorted(s[1..], key);
      InsertSorted(s[0], SortBy(s[1..], key), key);
    }
  }

  lemma {:induction false} WithKeyAppend<T>(a: seq<T>, b: seq<T>, key: T -> seq<int>, v: seq<int>)
    ensures WithKey(a + b, key, v) == WithKey(a, key, v) + WithKey(b, key, v)
  {
    if a != [] {
      WithKeyAppend(a[1..], b, key, v);
      assert (a + b)[0] == a[0] && (a + b)[1..] == a[1..] + b;
    } else {
      assert a + b == b;
    }
  }

  /** Inserting `x` keeps the order among elements of each key: `x` only
      moves past elements of smaller key. */
  lemma {:induction false} InsertStable<T>(x: T, t: seq<T>, key: T -> seq<int>, v: seq<int>)
    ensures WithKey(Insert(x, t, key), key, v) == WithKey([x] + t, key, v)
  {
    if t != [] && !LexLe(key(x), key(t[0])) {
      InsertStable(x, t[1..], key, v);
      var r := Insert(x, t[1..], key);
      assert ([t[0]] + r)[0] == t[0] && ([t[0]] + r)[1..] == r;
      assert ([x] + t[1..])[0] == x && ([x] + t[1..])[1..] == t[1..];
      assert ([x] + t)[0] == x && ([x] + t)[1..] == t;
      if key(t[0]) == v {
        // x passed t[0], so its key is not t[0]'s
        LexLeRefl(key(t[0]));
      }
    }
  }

  /** `sorted` is stable: for every key, the elements with that key keep
      their original order. */
  lemma {:induction false} SortByStable<T>(s: seq<T>, key: T -> seq<int>, v: seq<int>)
    ensures WithKey(SortBy(s, key), key, v) == WithKey(s, key, v)
  {
    if s != [] {
      SortByStable(s[1..], key, v);
      InsertStable(s[0], SortBy(s[1..], key), key, v);
      assert ([s[0]] + SortBy(s[1..], key))[1..] == SortBy(s[1..], key);
    }
  }

  /** Index of the first element of least key. */
  function FirstLeast<T>(s: seq<T>, key: T -> seq<int>): (i: nat)
    requires |s| > 0
    ensures i < |s|
    ensures forall k :: 0 <= k < |s| ==> LexLe(key(s[i]), key(s[k]))
    ensures forall k :: 0 <= k < i ==> !LexLe(key(s[k]), key(s[i]))
  {
    if |s| == 1 then LexLeRefl(key(s[0])); 0
    else
      var j := FirstLeast(s[1..], key);
      LexLeTotal(key(s[0]), key(s[1 + j]));
      if LexLe(key(s[0]), key(s[1 + j])) then
        assert forall k :: 1 <= k < |s| ==> LexLe(key(s[0]), key(s[k])) by {
          forall k | 1 <= k < |s| ensures LexLe(key(s[0]), key(s[k])) {
            assert s[k] == s[1..][k - 1];
            LexLeTrans(key(s[0]), key(s[1 + j]), key(s[k]));
          }
        }
        LexLeRefl(key(s[0]));
        0
      else
        assert s[1 + j] == s[1..][j];
        assert forall k :: 1 <= k < |s| ==> s[k] == s[1..][k - 1];
        1 + j
  }

  lemma {:induction false} InsertHead<T>(x: T, t: seq<T>, key: T -> seq<int>)
    ensures Insert(x, t, key)[0] == (if t == [] || LexLe(key(x), key(t[0])) then x else t[0])
  {
  }

  /** The head of the sorted sequence is the first element of least key. */
  lemma {:induction false} SortByHead<T>(s: seq<T>, key: T -> seq<int>)
    requires |s| > 0
    ensures SortBy(s, key)[0] == s[FirstLeast(s, key)]
  {
    if |s| > 1 {
      SortByHead(s[1..], key);
      var t := SortBy(s[1..], key);
      SortByPermutes(s[1..], key);
      assert t != [] by { assert |multiset(t)| == |multiset(s[1..])|; }
      InsertHead(s[0], t, key);
    }
  }
  predicate DistinctKeys<T>(s: seq<T>, key: T -> seq<int>)
  {
    forall i, j :: 0 <= i < |s| && 0 <= j < |s| && i != j ==> key(s[i]) != key(s[j])
  }

  /** Two orderings of the same elements, both in key order, are the same
      when no two elements share a key: the sorted order is then unique. */
  lemma {:induction false} SortedUnique<T>(r: seq<T>, s: seq<T>, key: T -> seq<int>)
    requires multiset(r) == multiset(s) && SortedBy(r, key) && SortedBy(s, key) && DistinctKeys(r, key)
    ensures r == s
    decreases |r|
  {
    assert |r| == |multiset(r)| == |s|;
    if |r| > 0 {
      SameHead(r, s, key);
      DropHead(r, s);
      forall a, b | 0 <= a < |r[1..]| && 0 <= b < |r[1..]| && a != b
        ensures key(r[1..][a]) != key(r[1..][b])
      {
        assert r[1..][a] == r[a + 1] && r[1..][b] == r[b + 1];
      }
      SortedUnique(r[1..], s[1..], key);
      assert r == [r[0]] + r[1..] && s == [s[0]] + s[1..];
    }
  }

  lemma SameHead<T>(r: seq<T>, s: seq<T>, key: T -> seq<int>)
    requires |r| > 0 && |s| > 0 && multiset(r) == multiset(s)
    requires SortedBy(r, key) && SortedBy(s, key) && DistinctKeys(r, key)
    ensures r[0] == s[0]
  {
    assert r[0] in multiset(s) && s[0] in multiset(r);
    var i :| 0 <= i < |s| && s[i] == r[0];
    var j :| 0 <= j < |r| && r[j] == s[0];
    if j != 0 {
      LexLeRefl(key(s[0]));
      assert LexLe(key(r[0]), key(r[j]));
      assert LexLe(key(s[0]), key(s[i]));
      LexLeAntisym(key(r[0]), key(r[j]));
      assert false;
    }
  }

  lemma DropHead<T>(r: seq<T>, s: seq<T>)
    requires |r| > 0 && |s| > 0 && r[0] == s[0] && multiset(r) == multiset(s)
    ensures multiset(r[1..]) == multiset(s[1..])
  {
    assert r == [r[0]] + r[1..] && s == [s[0]] + s[1..];
    assert multiset(r[1..]) == multiset(r) - multiset{r[0]};
    assert multiset(s[1..]) == multiset(s) - multiset{r[0]};
  }
}
