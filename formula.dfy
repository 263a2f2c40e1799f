/**
 * The formula the spreadsheet handlers look for in a question:
 * `re.search(r'=([^)]+\))', question)` in the Google Sheets handler and
 * `re.search(r'=([^)]+)\)', question)` in the Excel one. Both match at the
 * same place; the first group keeps the closing parenthesis, the second
 * drops it.
 */
module Formula {
  import opened Text

  /** The pattern matches at `i`: an `=`, at least one character that is not
      `)`, and a `)` somewhere after it. */
  predicate FormulaAt(s: string, i: nat)
  {
    i + 1 < |s| && s[i] == '=' && s[i + 1] != ')' && IndexOf(s[i + 1..], ')') < |s| - (i + 1)
  }

  /** Group 1 of the match at `i`: everything after the `=` up to and
      including the first `)`. */
  function GroupAt(s: string, i: nat): (g: string)
    requires FormulaAt(s, i)
    ensures |g| >= 2 && i + 1 + |g| <= |s| && g == s[i + 1..i + 1 + |g|]
    ensures g[|g| - 1] == ')' && forall k :: 0 <= k < |g| - 1 ==> g[k] != ')'
  {
    s[i + 1..i + 2 + IndexOf(s[i + 1..], ')')]
  }

  /** The leftmost position at or after `i` where the pattern matches, or
      `|s|`. */
  function FirstFormula(s: string, i: nat): (j: nat)
    requires i <= |s|
    ensures i <= j <= |s|
    ensures j < |s| ==> FormulaAt(s, j)
    ensures forall k :: i <= k < j ==> !FormulaAt(s, k)
    decreases |s| - i
  {
    if i == |s| then i else if FormulaAt(s, i) then i else FirstFormula(s, i + 1)
  }

  function FormulaMatch(s: string): (r: Option<string>)
    ensures r.None? <==> forall i :: 0 <= i < |s| ==> !FormulaAt(s, i)
    ensures r.Some? ==> r.value == GroupAt(s, FirstFormula(s, 0))
  {
    var j := FirstFormula(s, 0);
    if j < |s| then Some(GroupAt(s, j)) else None
  }

  /** `[^)]+\)` read from `i + 1` can only stop at the first `)`: any match of
      the pattern at `i` is the one GroupAt picks. */
  lemma MatchIsGroup(s: string, i: nat, n: nat)
    requires n >= 2 && i + 1 + n <= |s| && s[i] == '='
    requires s[i + n] == ')' && forall k :: i + 1 <= k < i + n ==> s[k] != ')'
    ensures FormulaAt(s, i) && GroupAt(s, i) == s[i + 1..i + 1 + n]
  {
    var t := s[i + 1..];
    assert t[n - 1] == ')';
    assert forall k :: 0 <= k < n - 1 ==> t[k] != ')' by {
      forall k | 0 <= k < n - 1 ensures t[k] != ')' { assert t[k] == s[i + 1 + k]; }
    }
  }

  /** Group 1 of `=([^)]+)\)`: the same match without its `)`. */
  function FormulaBody(s: string): (r: Option<string>)
    ensures r.Some? <==> FormulaMatch(s).Some?
    ensures r.Some? ==> |r.value| >= 1 && r.value + ")" == FormulaMatch(s).value
  {
    match FormulaMatch(s)
    case None => None
    case Some(g) => Some(g[..|g| - 1])
  }
}
