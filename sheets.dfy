/**
 * The Google Sheets handler: it finds the formula in the question, takes
 * the first four numbers in it as the SEQUENCE parameters, and sums the
 * first row's first ten cells of `SEQUENCE(rows, cols, start, step)`.
 *
 * SEQUENCE is simulated as the handler writes it, with cell (r, c) equal
 * to start + r*step + c*step; ARRAY_CONSTRAIN keeps a fixed 1 x 10 corner.
 */
module Sheets {
  import opened Text
  import opened Formula

  datatype Outcome =
    | Answer(value: int)
    | Failure(message: string)
      /** `int()` refused a parameter of more than 4300 digits; the
          handler's `except` reports the ValueError. */
    | Raised

  const NO_FORMULA := "Unable to extract Google Sheets formula"
  const FEW_PARAMETERS := "Insufficient parameters for SEQUENCE function"
  const CONSTRAIN_ROWS: nat := 1
  const CONSTRAIN_COLS: nat := 10

  // ---------------------------------------------------------------------------
  // SEQUENCE, ARRAY_CONSTRAIN and SUM

  /** One row of SEQUENCE: `cols` cells from `first` in steps of `step`. */
  function Row(cols: nat, first: int, step: int): seq<int>
  {
    seq(cols, c requires 0 <= c < cols => first + c * step)
  }

  /** `google_sheets_sequence(rows, cols, start, step)`: row r starts at
      start + r*step. */
  function Sequence(rows: nat, cols: nat, start: int, step: int): (a: seq<seq<int>>)
    ensures |a| == rows && forall r :: 0 <= r < rows ==> |a[r]| == cols
    ensures forall r, c :: 0 <= r < rows && 0 <= c < cols ==> a[r][c] == start + r * step + c * step
  {
    seq(rows, r requires 0 <= r < rows => Row(cols, start + r * step, step))
  }

  function Min(a: nat, b: nat): nat { if a <= b then a else b }

  /** `[row[:cols] for row in array[:rows]]` */
  function ArrayConstrain(a: seq<seq<int>>, rows: nat, cols: nat): (b: seq<seq<int>>)
    ensures |b| == Min(|a|, rows)
    ensures forall r :: 0 <= r < |b| ==> |b[r]| == Min(|a[r]|, cols) && b[r] == a[r][..|b[r]|]
  {
    seq(Min(|a|, rows), r requires 0 <= r < Min(|a|, rows) => a[r][..Min(|a[r]|, cols)])
  }

  function RowSum(row: seq<int>): int
  {
    if row == [] then 0 else RowSum(row[..|row| - 1]) + row[|row| - 1]
  }

  /** `sum(sum(row) for row in array)` */
  function SumAll(a: seq<seq<int>>): int
  {
    if a == [] then 0 else SumAll(a[..|a| - 1]) + RowSum(a[|a| - 1])
  }

  /** 0 + 1 + ... + (n - 1) */
  function Triangle(n: nat): nat
  {
    if n == 0 then 0 else Triangle(n - 1) + (n - 1)
  }

  lemma {:induction false} TriangleClosed(n: nat)
    ensures 2 * Triangle(n) == n * (n - 1)
  {
    if n > 0 { TriangleClosed(n - 1); }
  }

  /** Constraining a SEQUENCE is the SEQUENCE of the smaller size. */
  lemma ConstrainSequence(rows: nat, cols: nat, start: int, step: int, r: nat, c: nat)
    ensures ArrayConstrain(Sequence(rows, cols, start, step), r, c)
         == Sequence(Min(rows, r), Min(cols, c), start, step)
  {
    var a := ArrayConstrain(Sequence(rows, cols, start, step), r, c);
    var b := Sequence(Min(rows, r), Min(cols, c), start, step);
    assert |a| == |b|;
    forall i | 0 <= i < |a| ensures a[i] == b[i] {
      assert |a[i]| == |b[i]|;
    }
  }

  lemma {:induction false} RowSumClosed(cols: nat, first: int, step: int)
    ensures RowSum(Row(cols, first, step)) == cols * first + step * Triangle(cols)
  {
    if cols > 0 {
      var row := Row(cols, first, step);
      assert row[..cols - 1] == Row(cols - 1, first, step);
      RowSumClosed(cols - 1, first, step);
      assert row[cols - 1] == first + (cols - 1) * step;
      RowStep(cols, first, step, Triangle(cols - 1));
    }
  }

  lemma RowStep(c: int, first: int, step: int, t: int)
    ensures (c - 1) * first + step * t + (first + (c - 1) * step) == c * first + step * (t + (c - 1))
  {
    assert (c - 1) * first + first == c * first;
    assert step * t + (c - 1) * step == step * (t + (c - 1));
  }

  /** The sum of every cell of SEQUENCE(rows, cols, start, step). */
  lemma {:induction false} SumSequence(rows: nat, cols: nat, start: int, step: int)
    ensures SumAll(Sequence(rows, cols, start, step))
         == rows * cols * start + step * (cols * Triangle(rows) + rows * Triangle(cols))
  {
    if rows > 0 {
      var a := Sequence(rows, cols, start, step);
      assert a[..rows - 1] == Sequence(rows - 1, cols, start, step);
      SumSequence(rows - 1, cols, start, step);
      assert a[rows - 1] == Row(cols, start + (rows - 1) * step, step);
      RowSumClosed(cols, start + (rows - 1) * step, step);
      SumStep(rows, cols, start, step, Triangle(rows - 1), Triangle(cols));
    }
  }

  lemma SumStep(rows: int, cols: int, start: int, step: int, tr: int, t: int)
    ensures (rows - 1) * cols * start + step * (cols * tr + (rows - 1) * t)
              + (cols * (start + (rows - 1) * step) + step * t)
         == rows * cols * start + step * (cols * (tr + (rows - 1)) + rows * t)
  {
    assert cols * (start + (rows - 1) * step) == cols * start + step * (cols * (rows - 1));
    assert (rows - 1) * cols * start + cols * start == rows * cols * start;
    assert cols * tr + cols * (rows - 1) == cols * (tr + (rows - 1));
    assert (rows - 1) * t + t == rows * t;
  }

  // ---------------------------------------------------------------------------
  // the handler

  /** `_process_google_sheets_formula`: its `status`/`answer` or
      `status`/`message`. */
  function GoogleSheets(question: string): Outcome
  {
    match FormulaMatch(question)
    case None => Failure(NO_FORMULA)
    case Some(formula) =>
      var p := DigitRuns(formula);
      if |p| < 4 then Failure(FEW_PARAMETERS) else FromParameters(p)
  }

  /** The handler once it has four or more `\d+` runs: `int()` of the
      first four, then the constrained sum. */
  function FromParameters(p: seq<string>): Outcome
    requires |p| >= 4 && forall k :: 0 <= k < |p| ==> AllDigits(p[k])
  {
    if !(|p[0]| <= MAX_STR_DIGITS && |p[1]| <= MAX_STR_DIGITS &&
         |p[2]| <= MAX_STR_DIGITS && |p[3]| <= MAX_STR_DIGITS) then Raised
    else
      var grid := Sequence(Decimal(p[0]), Decimal(p[1]), Decimal(p[2]), Decimal(p[3]));
      Answer(SumAll(ArrayConstrain(grid, CONSTRAIN_ROWS, CONSTRAIN_COLS)))
  }

  /** The answer in closed form: with R = min(rows, 1) and C = min(cols, 10),
      R*C*start + step*R*(0 + 1 + ... + (C - 1)); the error cases are exactly
      a missing formula, fewer than four numbers in it, and one of the four
      that `int()` refuses. */
  lemma GoogleSheetsAnswer(question: string)
    ensures FormulaMatch(question) == None <==> GoogleSheets(question) == Failure(NO_FORMULA)
    ensures FormulaMatch(question).Some? ==>
      var p := DigitRuns(FormulaMatch(question).value);
      (|p| < 4 <==> GoogleSheets(question) == Failure(FEW_PARAMETERS)) &&
      (|p| >= 4 ==> GoogleSheets(question) == FromParameters(p))
  {
    assert |NO_FORMULA| != |FEW_PARAMETERS|;
  }

  /** With four digit runs: ValueError exactly when `int()` refuses one of
      them, otherwise the closed-form sum of their values. */
  lemma ParametersAnswer(p: seq<string>)
    requires |p| >= 4 && forall k :: 0 <= k < |p| ==> |p[k]| > 0 && AllDigits(p[k])
    ensures FromParameters(p) == Raised <==>
      ParseInt(p[0]).None? || ParseInt(p[1]).None? || ParseInt(p[2]).None? || ParseInt(p[3]).None?
    ensures forall k :: 0 <= k < 4 && ParseInt(p[k]).Some? ==> ParseInt(p[k]).value >= 0
    ensures ParseInt(p[0]).Some? && ParseInt(p[1]).Some? && ParseInt(p[2]).Some? && ParseInt(p[3]).Some? ==>
      FromParameters(p)
        == Answer(Corner(ParseInt(p[0]).value, ParseInt(p[1]).value, ParseInt(p[2]).value, ParseInt(p[3]).value))
  {
    RunsParsed(p);
    if |p[0]| <= MAX_STR_DIGITS && |p[1]| <= MAX_STR_DIGITS &&
       |p[2]| <= MAX_STR_DIGITS && |p[3]| <= MAX_STR_DIGITS {
      assert ParseInt(p[0]) == Some(Decimal(p[0])) && ParseInt(p[1]) == Some(Decimal(p[1]));
      assert ParseInt(p[2]) == Some(Decimal(p[2])) && ParseInt(p[3]) == Some(Decimal(p[3]));
      ParametersClosedForm(p);
    } else {
      assert FromParameters(p) == Raised;
    }
  }

  /** `int()` of each of the first four runs, as `Text.ParseDigitRun` gives it. */
  lemma RunsParsed(p: seq<string>)
    requires |p| >= 4 && forall k :: 0 <= k < |p| ==> |p[k]| > 0 && AllDigits(p[k])
    ensures forall k :: 0 <= k < 4 ==>
      ParseInt(p[k]) == if |p[k]| <= MAX_STR_DIGITS then Some(Decimal(p[k])) else None
  {
    forall k | 0 <= k < 4
      ensures ParseInt(p[k]) == if |p[k]| <= MAX_STR_DIGITS then Some(Decimal(p[k])) else None
    {
      ParseDigitRun(p[k]);
    }
  }

  /** The handler's sum in closed form once all four runs convert. */
  lemma ParametersClosedForm(p: seq<string>)
    requires |p| >= 4 && forall k :: 0 <= k < |p| ==> |p[k]| > 0 && AllDigits(p[k])
    requires |p[0]| <= MAX_STR_DIGITS && |p[1]| <= MAX_STR_DIGITS
    requires |p[2]| <= MAX_STR_DIGITS && |p[3]| <= MAX_STR_DIGITS
    ensures FromParameters(p) == Answer(Corner(Decimal(p[0]), Decimal(p[1]), Decimal(p[2]), Decimal(p[3])))
  {
    CornerSum(Decimal(p[0]), Decimal(p[1]), Decimal(p[2]), Decimal(p[3]));
  }

  /** The constrained sum in closed form: with R = min(rows, 1) and
      C = min(cols, 10), R*C*start + step*R*(0 + 1 + ... + (C - 1)). */
  function Corner(rows: nat, cols: nat, start: int, step: int): int
  {
    var r, c := Min(rows, CONSTRAIN_ROWS), Min(cols, CONSTRAIN_COLS);
    r * c * start + step * r * Triangle(c)
  }

  lemma CornerSum(rows: nat, cols: nat, start: int, step: int)
    ensures SumAll(ArrayConstrain(Sequence(rows, cols, start, step), CONSTRAIN_ROWS, CONSTRAIN_COLS))
         == Corner(rows, cols, start, step)
  {
    ConstrainSequence(rows, cols, start, step, CONSTRAIN_ROWS, CONSTRAIN_COLS);
    var r, c := Min(rows, CONSTRAIN_ROWS), Min(cols, CONSTRAIN_COLS);
    SumSequence(r, c, start, step);
    assert Triangle(r) == 0;
    CornerArith(r, c, start, step, Triangle(c));
  }

  lemma CornerArith(r: int, c: int, start: int, step: int, t: int)
    ensures r * c * start + step * (c * 0 + r * t) == r * c * start + step * r * t
  {
    assert step * (r * t) == step * r * t;
  }

  /** With at least one row and ten columns the answer is
      10*start + 45*step. */
  lemma FullCornerAnswer(rows: nat, cols: nat, start: int, step: int)
    requires rows >= 1 && cols >= 10
    ensures SumAll(ArrayConstrain(Sequence(rows, cols, start, step), CONSTRAIN_ROWS, CONSTRAIN_COLS))
         == 10 * start + 45 * step
  {
    ConstrainSequence(rows, cols, start, step, CONSTRAIN_ROWS, CONSTRAIN_COLS);
    SumSequence(1, 10, start, step);
    assert Triangle(10) == 45;
  }

  /** The question's own example, SEQUENCE(100, 100, 15, 7). */
  lemma ExampleAnswer()
    ensures SumAll(ArrayConstrain(Sequence(100, 100, 15, 7), CONSTRAIN_ROWS, CONSTRAIN_COLS)) == 465
  {
    FullCornerAnswer(100, 100, 15, 7);
  }
}
