/**
 * The file-comparison handler: of the archive's `.txt` and `.csv` members
 * the first two are read as lists of lines, and the answer is the number
 * of positions, up to the shorter list's length, where their lines differ
 * (`sum(1 for a, b in zip(x, y) if a != b)`).
 */
module Compare {
  import opened Text
  import opened Archive

  const NOT_ENOUGH := "Not enough files to compare"
  const LINE_METHOD := "line differences"
  const DEFAULT_METHOD := "default line differences"

  predicate Comparable(name: string)
  {
    HasExtension(name, ".txt") || HasExtension(name, ".csv")
  }

  /** `[f for f in names if f.lower().endswith(('.txt', '.csv'))]` */
  function ComparedNames(names: seq<string>): (r: seq<string>)
    ensures |r| <= |names|
    ensures forall k :: 0 <= k < |r| ==> Comparable(r[k])
  {
    if names == [] then []
    else (if Comparable(names[0]) then [names[0]] else []) + ComparedNames(names[1..])
  }

  /** The filter keeps the comparable names, in their archive order (it
      distributes over concatenation, one name at a time). */
  lemma {:induction false} ComparedNamesAppend(a: seq<string>, b: seq<string>)
    ensures ComparedNames(a + b) == ComparedNames(a) + ComparedNames(b)
    decreases |a|
  {
    if a == [] {
      assert a + b == b;
    } else {
      assert (a + b)[1..] == a[1..] + b;
      ComparedNamesAppend(a[1..], b);
    }
  }

  lemma ComparedNamesOne(name: string)
    ensures ComparedNames([name]) == (if Comparable(name) then [name] else [])
  {
    assert [name][1..] == [];
  }

  function Min(a: nat, b: nat): nat { if a <= b then a else b }

  /** Differing positions among the first `m`. */
  function DiffsBelow(x: seq<string>, y: seq<string>, m: nat): nat
    requires m <= |x| && m <= |y|
  {
    if m == 0 then 0 else DiffsBelow(x, y, m - 1) + (if x[m - 1] != y[m - 1] then 1 else 0)
  }

  /** `sum(1 for a, b in zip(x, y) if a != b)` */
  function DiffCount(x: seq<string>, y: seq<string>): nat
  {
    DiffsBelow(x, y, Min(|x|, |y|))
  }

  /** The differing positions below the shorter length. */
  function DiffPositions(x: seq<string>, y: seq<string>): set<nat>
  {
    set i: nat | i < |x| && i < |y| && x[i] != y[i]
  }

  lemma {:induction false} DiffsBelowCounts(x: seq<string>, y: seq<string>, m: nat)
    requires m <= |x| && m <= |y|
    ensures DiffsBelow(x, y, m) == |set i: nat | i < m && x[i] != y[i]|
  {
    if m > 0 {
      DiffsBelowCounts(x, y, m - 1);
      var below := set i: nat | i < m - 1 && x[i] != y[i];
      var all := set i: nat | i < m && x[i] != y[i];
      if x[m - 1] != y[m - 1] {
        assert all == below + {m - 1};
      } else {
        assert all == below;
      }
    }
  }

  /** The count is the number of differing positions below the shorter
      length. */
  lemma DiffCountCounts(x: seq<string>, y: seq<string>)
    ensures DiffCount(x, y) == |DiffPositions(x, y)|
    ensures DiffCount(x, y) <= Min(|x|, |y|)
  {
    var m := Min(|x|, |y|);
    DiffsBelowCounts(x, y, m);
    assert (set i: nat | i < m && x[i] != y[i]) == DiffPositions(x, y);
    DiffsBelowBound(x, y, m);
  }

  lemma {:induction false} DiffsBelowBound(x: seq<string>, y: seq<string>, m: nat)
    requires m <= |x| && m <= |y|
    ensures DiffsBelow(x, y, m) <= m
  {
    if m > 0 { DiffsBelowBound(x, y, m - 1); }
  }

  lemma {:induction false} DiffsBelowSymmetric(x: seq<string>, y: seq<string>, m: nat)
    requires m <= |x| && m <= |y|
    ensures DiffsBelow(x, y, m) == DiffsBelow(y, x, m)
  {
    if m > 0 { DiffsBelowSymmetric(x, y, m - 1); }
  }

  lemma DiffCountSymmetric(x: seq<string>, y: seq<string>)
    ensures DiffCount(x, y) == DiffCount(y, x)
  {
    DiffsBelowSymmetric(x, y, Min(|x|, |y|));
  }

  /** Identical files have no differences. */
  lemma DiffCountSame(x: seq<string>)
    ensures DiffCount(x, x) == 0
  {
    DiffCountCounts(x, x);
    assert DiffPositions(x, x) == {};
  }

  lemma {:induction false} DiffsBelowPrefix(x: seq<string>, y: seq<string>, x': seq<string>, y': seq<string>, m: nat)
    requires m <= |x| && m <= |y| && m <= |x'| && m <= |y'|
    requires x[..m] == x'[..m] && y[..m] == y'[..m]
    ensures DiffsBelow(x, y, m) == DiffsBelow(x', y', m)
  {
    if m > 0 {
      assert x[m - 1] == x[..m][m - 1] && x'[m - 1] == x'[..m][m - 1];
      assert y[m - 1] == y[..m][m - 1] && y'[m - 1] == y'[..m][m - 1];
      assert x[..m - 1] == x[..m][..m - 1] && x'[..m - 1] == x'[..m][..m - 1];
      assert y[..m - 1] == y[..m][..m - 1] && y'[..m - 1] == y'[..m][..m - 1];
      DiffsBelowPrefix(x, y, x', y', m - 1);
    }
  }

  /** Lines past the end of the shorter file do not count. */
  lemma DiffCountTrailing(x: seq<string>, y: seq<string>, extra: seq<string>)
    requires |y| <= |x|
    ensures DiffCount(x + extra, y) == DiffCount(x, y)
    ensures DiffCount(y, x + extra) == DiffCount(y, x)
  {
    var m := |y|;
    assert (x + extra)[..m] == x[..m];
    DiffsBelowPrefix(x + extra, y, x, y, m);
    DiffCountSymmetric(x + extra, y);
    DiffCountSymmetric(x, y);
  }

  datatype Outcome = Compared(answer: string, strategy: string, files: seq<string>) | Failure(message: string)

  /** `_process_file_comparison`: `reply` is the language model's strategy
      and `lines(f)` the lines `readlines()` gives for member `f`. */
  function FileComparison(path: Option<string>, names: seq<string>, reply: string,
                          lines: string -> seq<string>): Outcome
  {
    if !IsZipPath(path) then Failure(INVALID_ZIP)
    else
      var files := ComparedNames(names);
      if |files| < 2 then Failure(NOT_ENOUGH)
      else
        var count := DiffCount(lines(files[0]), lines(files[1]));
        var strategy := if Contains(Lower(Strip(reply)), "line") then LINE_METHOD else DEFAULT_METHOD;
        Compared(NatToString(count), strategy, files[..2])
  }

  /** The errors are exactly a bad path and fewer than two comparable
      names; otherwise the answer is the decimal difference count of the
      first two, whatever the reply was. */
  lemma FileComparisonOutcome(path: Option<string>, names: seq<string>, reply: string,
                              lines: string -> seq<string>)
    ensures var r := FileComparison(path, names, reply, lines);
      (r == Failure(INVALID_ZIP) <==> !IsZipPath(path)) &&
      (r == Failure(NOT_ENOUGH) <==> IsZipPath(path) && |ComparedNames(names)| < 2) &&
      (r.Compared? ==>
        var files := ComparedNames(names);
        r.files == files[..2] && Comparable(r.files[0]) && Comparable(r.files[1]) &&
        AllDigits(r.answer) &&
        Decimal(r.answer) == |DiffPositions(lines(files[0]), lines(files[1]))|)
  {
    assert INVALID_ZIP[0] != NOT_ENOUGH[0];
    var files := ComparedNames(names);
    if IsZipPath(path) && |files| >= 2 {
      var x, y := lines(files[0]), lines(files[1]);
      DecimalOfNatToString(DiffCount(x, y));
      DiffCountCounts(x, y);
    }
  }

  /** The reply only names the method; the count is the same. */
  lemma ReplyOnlyNamesMethod(path: Option<string>, names: seq<string>, r1: string, r2: string,
                             lines: string -> seq<string>)
    ensures FileComparison(path, names, r1, lines).Compared? ==
            FileComparison(path, names, r2, lines).Compared?
    ensures FileComparison(path, names, r1, lines).Compared? ==>
      FileComparison(path, names, r1, lines).answer == FileComparison(path, names, r2, lines).answer
  {
  }
}
