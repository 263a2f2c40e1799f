/**
 * The Excel handler: `=SUM(TAKE(SORTBY({data}, {order}), 1, 6))` simulated
 * by pairing each value with its index, sorting the pairs stably by
 * `order[index]` (an index past the end of `order` sorts as +infinity),
 * and summing the first row's first six columns, which is one value.
 */
module Excel {
  import opened Text
  import opened Sorting
  import opened Formula

  datatype Outcome =
    | Answer(result: int)
    | Failure(message: string)
      /** An exception caught by the handler's `except`: an item of one
          of the arrays that `int()` rejects. */
    | Raised

  const NO_FORMULA := "No Excel formula found in the question"
  const NO_ARRAYS := "Unable to extract arrays from the formula"
  const TAKE_ROWS: nat := 1
  const TAKE_COLS: nat := 6

  // ---------------------------------------------------------------------------
  // re.findall(r'\{([^}]+)\}', formula)

  /** A brace group starts at `p`: `{`, at least one character that is not
      `}`, then a `}`. */
  predicate BraceAt(s: string, p: nat)
  {
    p + 1 < |s| && s[p] == '{' && s[p + 1] != '}' && IndexOf(s[p + 1..], '}') < |s| - (p + 1)
  }

  /** The matches found scanning from `p`, each resuming after the previous
      one's `}`. */
  function BraceGroupsFrom(s: string, p: nat): seq<string>
    requires p <= |s|
    decreases |s| - p
  {
    if p == |s| then []
    else if BraceAt(s, p) then
      var q := p + 1 + IndexOf(s[p + 1..], '}');
      [s[p + 1..q]] + BraceGroupsFrom(s, q + 1)
    else BraceGroupsFrom(s, p + 1)
  }

  function BraceGroups(s: string): seq<string> { BraceGroupsFrom(s, 0) }

  /** Each group is non-empty and holds no `}`. */
  predicate Shaped(groups: seq<string>)
  {
    forall k :: 0 <= k < |groups| ==> |groups[k]| > 0 && '}' !in groups[k]
  }

  /** Every group found is non-empty and holds no `}`. */
  lemma {:induction false} BraceGroupsShape(s: string, p: nat)
    requires p <= |s|
    ensures Shaped(BraceGroupsFrom(s, p))
    decreases |s| - p
  {
    if p < |s| {
      if BraceAt(s, p) {
        var i := IndexOf(s[p + 1..], '}');
        var q := p + 1 + i;
        BraceGroupsShape(s, q + 1);
        var g, rest := s[p + 1..q], BraceGroupsFrom(s, q + 1);
        assert s[p + 1..][0] == s[p + 1];
        assert '}' !in g by {
          forall k | 0 <= k < |g| ensures g[k] != '}' {
            assert g[k] == s[p + 1..][k];
          }
        }
        var groups := [g] + rest;
        assert BraceGroupsFrom(s, p) == groups;
        forall k | 0 <= k < |groups| ensures |groups[k]| > 0 && '}' !in groups[k] {
          if k > 0 {
            assert groups[k] == rest[k - 1];
          }
        }
      } else {
        BraceGroupsShape(s, p + 1);
      }
    }
  }

  /** Text without a `{` holds no group. */
  lemma {:induction false} NoBraceNoGroups(s: string, p: nat)
    requires p <= |s| && forall k :: p <= k < |s| ==> s[k] != '{'
    ensures BraceGroupsFrom(s, p) == []
    decreases |s| - p
  {
    if p < |s| { NoBraceNoGroups(s, p + 1); }
  }

  /** A group written out in full is found, and the scan resumes after it:
      scanning `pre + "{" + g + "}" + post` yields `g` and then the groups
      of `post`, when `pre` holds no `{`. */
  lemma {:induction false} BraceGroupsOf(pre: string, g: string, post: string)
    requires '{' !in pre && |g| > 0 && '}' !in g
    ensures BraceGroups(pre + "{" + g + "}" + post) == [g] + BraceGroups(post)
  {
    var s := pre + "{" + g + "}" + post;
    var p := |pre|;
    var q := p + 1 + |g|;
    GroupAt(pre, g, post);
    forall k | 0 <= k < p ensures s[k] != '{' {
      assert s[k] == pre[k];
    }
    SkipNoBrace(s, 0, p);
    assert BraceGroupsFrom(s, p) == [g] + BraceGroupsFrom(s, q + 1);
    ShiftGroups(s, q + 1, post);
  }

  /** The pieces of `pre + "{" + g + "}" + post` around the group. */
  lemma GroupAt(pre: string, g: string, post: string)
    requires |g| > 0 && '}' !in g
    ensures var s, p := pre + "{" + g + "}" + post, |pre|;
      BraceAt(s, p) && p + 1 + IndexOf(s[p + 1..], '}') == p + 1 + |g| &&
      s[p + 1..p + 1 + |g|] == g && s[p + 2 + |g|..] == post
  {
    var s := pre + "{" + g + "}" + post;
    var p := |pre|;
    assert s[p] == '{' && s[p + 1..] == g + ("}" + post);
    IndexOfPrefix(g, '}', "}" + post);
    assert s[p + 1] == g[0] != '}';
    var q := p + 1 + |g|;
    assert s[p + 1..q] == g;
    assert s[q + 1..] == post;
  }

  lemma {:induction false} SkipNoBrace(s: string, p: nat, q: nat)
    requires p <= q < |s| && forall k :: p <= k < q ==> s[k] != '{'
    ensures BraceGroupsFrom(s, p) == BraceGroupsFrom(s, q)
    decreases q - p
  {
    if p < q { SkipNoBrace(s, p + 1, q); }
  }

  /** Scanning a suffix of `s` from `q` is scanning that suffix from 0. */
  lemma {:induction false} ShiftGroups(s: string, q: nat, post: string)
    requires q <= |s| && s[q..] == post
    ensures BraceGroupsFrom(s, q) == BraceGroupsFrom(post, 0)
    decreases |s| - q
  {
    ShiftGroupsFrom(s, q, post, 0);
  }

  lemma {:induction false} ShiftGroupsFrom(s: string, q: nat, post: string, p: nat)
    requires q <= |s| && s[q..] == post && p <= |post|
    ensures BraceGroupsFrom(s, q + p) == BraceGroupsFrom(post, p)
    decreases |post| - p
  {
    if p < |post| {
      if BraceAt(post, p) {
        var r := p + 1 + IndexOf(post[p + 1..], '}');
        ShiftGroupsFrom(s, q, post, r + 1);
        ShiftTake(s, q, post, p, r);
      } else {
        ShiftGroupsFrom(s, q, post, p + 1);
        ShiftOne(s, q, post, p);
      }
    }
  }

  /** A group found in the suffix is found at the same place in `s`. */
  lemma ShiftTake(s: string, q: nat, post: string, p: nat, r: nat)
    requires q <= |s| && s[q..] == post && p < |post| && BraceAt(post, p)
    requires r == p + 1 + IndexOf(post[p + 1..], '}')
    requires BraceGroupsFrom(s, q + (r + 1)) == BraceGroupsFrom(post, r + 1)
    ensures BraceGroupsFrom(s, q + p) == BraceGroupsFrom(post, p)
  {
    ShiftOne(s, q, post, p);
    assert IndexOf(s[q + p + 1..], '}') == IndexOf(post[p + 1..], '}');
    GroupStep(post, p, r);
    GroupStep(s, q + p, q + r);
    SliceShift(s, q, post, p + 1, r);
  }

  /** A scan that starts at a group takes it and resumes after its `}`,
      at `e`. */
  lemma GroupStep(s: string, p: nat, e: nat)
    requires BraceAt(s, p) && e == p + 1 + IndexOf(s[p + 1..], '}')
    ensures e < |s| && BraceGroupsFrom(s, p) == [s[p + 1..e]] + BraceGroupsFrom(s, e + 1)
  {
  }

  lemma SliceShift(s: string, q: nat, post: string, i: nat, j: nat)
    requires q <= |s| && s[q..] == post && i <= j <= |post|
    ensures s[q + i..q + j] == post[i..j]
  {
    assert s[q..][i..j] == s[q + i..q + j];
  }

  /** One scanning step reads the same in `s` from `q` and in its suffix. */
  lemma ShiftOne(s: string, q: nat, post: string, p: nat)
    requires q <= |s| && s[q..] == post && p < |post|
    ensures s[q + p] == post[p] && s[q + p + 1..] == post[p + 1..]
    ensures q + p + 1 < |s| ==> s[q + p + 1] == post[p + 1]
    ensures BraceAt(s, q + p) == BraceAt(post, p)
  {
    assert s[q + p] == s[q..][p];
    assert s[q + p + 1..] == s[q..][p + 1..];
    if q + p + 1 < |s| {
      assert s[q + p + 1] == s[q..][p + 1];
    }
  }

  // ---------------------------------------------------------------------------
  // [int(x.strip()) for x in group.split(',')]

  /** The integers of a comma-separated group, or None when `int()` raises on
      an item. */
  function ParseInts(items: seq<string>): (r: Option<seq<int>>)
    ensures r.Some? ==> |r.value| == |items|
    ensures r.Some? <==> forall k :: 0 <= k < |items| ==> ParseInt(items[k]).Some?
    ensures r.Some? ==> forall k :: 0 <= k < |items| ==> r.value[k] == ParseInt(items[k]).value
  {
    if items == [] then Some([])
    else match (ParseInt(items[0]), ParseInts(items[1..]))
      case (Some(x), Some(xs)) => Some([x] + xs)
      case _ => None
  }

  function ParseArray(group: string): Option<seq<int>> { ParseInts(Split(group, ',')) }

  // ---------------------------------------------------------------------------
  // excel_take(array, sort_order, take_rows, take_cols)

  /** The sort key of index `i`: `sort_order[i]`, or +infinity past its end
      (encoded so that every finite key sorts before it). */
  function OrderKey(order: seq<int>, i: int): seq<int>
  {
    if 0 <= i < |order| then [0, order[i]] else [1]
  }

  function Indexed(data: seq<int>): (pairs: seq<(int, int)>)
    ensures |pairs| == |data| && forall i :: 0 <= i < |data| ==> pairs[i] == (i, data[i])
  {
    seq(|data|, i requires 0 <= i < |data| => (i, data[i]))
  }

  /** `sorted(enumerate(array), key=...)` */
  function SortedPairs(data: seq<int>, order: seq<int>): seq<(int, int)>
  {
    SortBy(Indexed(data), (x: (int, int)) => OrderKey(order, x.0))
  }

  function Take<T>(s: seq<T>, n: nat): (r: seq<T>)
    ensures |r| == if n <= |s| then n else |s|
    ensures r == s[..|r|]
  {
    if n <= |s| then s[..n] else s
  }

  function Values(pairs: seq<(int, int)>): (v: seq<int>)
    ensures |v| == |pairs| && forall k :: 0 <= k < |pairs| ==> v[k] == pairs[k].1
  {
    seq(|pairs|, k requires 0 <= k < |pairs| => pairs[k].1)
  }

  function ExcelTake(data: seq<int>, order: seq<int>, rows: nat, cols: nat): seq<int>
  {
    Take(Values(Take(SortedPairs(data, order), rows)), cols)
  }

  function Sum(s: seq<int>): int
  {
    if s == [] then 0 else s[0] + Sum(s[1..])
  }

  /** The pairs come out as a permutation, in non-decreasing key order, with
      the pairs of each key in their original (index) order; an index past
      the end of `order` comes after every index within it. */
  lemma SortedPairsSpec(data: seq<int>, order: seq<int>)
    ensures var key := (x: (int, int)) => OrderKey(order, x.0);
      var sorted := SortedPairs(data, order);
      multiset(sorted) == multiset(Indexed(data)) &&
      SortedBy(sorted, key) &&
      (forall v :: WithKey(sorted, key, v) == WithKey(Indexed(data), key, v)) &&
      (forall a, b :: 0 <= a < b < |sorted| && sorted[a].0 >= |order| ==> sorted[b].0 >= |order|)
  {
    var key := (x: (int, int)) => OrderKey(order, x.0);
    var sorted := SortedPairs(data, order);
    SortByPermutes(Indexed(data), key);
    SortBySorted(Indexed(data), key);
    forall v ensures WithKey(sorted, key, v) == WithKey(Indexed(data), key, v) {
      SortByStable(Indexed(data), key, v);
    }
    forall a, b | 0 <= a < b < |sorted| && sorted[a].0 >= |order| ensures sorted[b].0 >= |order| {
      assert LexLe(key(sorted[a]), key(sorted[b]));
      assert key(sorted[a]) == [1];
      assert sorted[b] in multiset(Indexed(data));
      var i :| 0 <= i < |data| && Indexed(data)[i] == sorted[b];
    }
  }

  /** The index TAKE(SORTBY(...), 1, 6) picks: the first one of least key. */
  function Chosen(data: seq<int>, order: seq<int>): (i: nat)
    requires |data| > 0
    ensures i < |data|
    ensures forall k :: 0 <= k < |data| ==> LexLe(OrderKey(order, i), OrderKey(order, k))
    ensures forall k :: 0 <= k < i ==> !LexLe(OrderKey(order, k), OrderKey(order, i))
  {
    var key := (x: (int, int)) => OrderKey(order, x.0);
    var pairs := Indexed(data);
    var j := FirstLeast(pairs, key);
    assert forall k :: 0 <= k < |data| ==> key(pairs[k]) == OrderKey(order, k);
    j
  }

  /** Taking one row and then six columns leaves exactly the value at the
      first index of least key (nothing for empty data). */
  lemma TakeOneRow(data: seq<int>, order: seq<int>)
    ensures |data| == 0 ==> ExcelTake(data, order, TAKE_ROWS, TAKE_COLS) == []
    ensures |data| > 0 ==> ExcelTake(data, order, TAKE_ROWS, TAKE_COLS) == [data[Chosen(data, order)]]
  {
    var key := (x: (int, int)) => OrderKey(order, x.0);
    var sorted := SortedPairs(data, order);
    SortByPermutes(Indexed(data), key);
    assert |sorted| == |data| by {
      assert |multiset(sorted)| == |multiset(Indexed(data))|;
    }
    if |data| > 0 {
      SortByHead(Indexed(data), key);
      var j := FirstLeast(Indexed(data), key);
      assert sorted[0] == (j, data[j]);
      assert forall k :: 0 <= k < |data| ==> key(Indexed(data)[k]) == OrderKey(order, k);
      assert Chosen(data, order) == j;
    }
  }

  // ---------------------------------------------------------------------------
  // the handler

  /** `_process_excel_formula` */
  function ExcelFormula(question: string): Outcome
  {
    match FormulaBody(question)
    case None => Failure(NO_FORMULA)
    case Some(formula) =>
      var groups := BraceGroups(formula);
      if |groups| < 2 then Failure(NO_ARRAYS)
      else
        match (ParseArray(groups[0]), ParseArray(groups[1]))
        case (Some(data), Some(order)) => Answer(Sum(ExcelTake(data, order, TAKE_ROWS, TAKE_COLS)))
        case _ => Raised
  }

  /** The handler's outcome in full: the two error messages, the exception
      when an item is not an integer, and otherwise the value at the first
      index of least key. */
  lemma ExcelFormulaOutcome(question: string)
    ensures FormulaBody(question).None? ==> ExcelFormula(question) == Failure(NO_FORMULA)
    ensures FormulaBody(question).Some? ==>
      var groups := BraceGroups(FormulaBody(question).value);
      (|groups| < 2 ==> ExcelFormula(question) == Failure(NO_ARRAYS)) &&
      (|groups| >= 2 ==>
        match (ParseArray(groups[0]), ParseArray(groups[1]))
        case (Some(data), Some(order)) =>
          |data| > 0 && ExcelFormula(question) == Answer(data[Chosen(data, order)])
        case _ => ExcelFormula(question) == Raised)
  {
    match FormulaBody(question)
    case None =>
    case Some(formula) =>
      var groups := BraceGroups(formula);
      if |groups| >= 2 {
        match (ParseArray(groups[0]), ParseArray(groups[1]))
        case (Some(data), Some(order)) =>
          assert |data| == |Split(groups[0], ',')| >= 1;
          ChosenSum(data, order);
        case _ =>
      }
  }

  /** The answer is the chosen value itself. */
  lemma ChosenSum(data: seq<int>, order: seq<int>)
    requires |data| > 0
    ensures Sum(ExcelTake(data, order, TAKE_ROWS, TAKE_COLS)) == data[Chosen(data, order)]
  {
    TakeOneRow(data, order);
    var x := data[Chosen(data, order)];
    assert Sum([x]) == x + Sum([]);
  }
}
