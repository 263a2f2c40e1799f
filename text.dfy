/**
 * Character classes and string operations the router's handlers rely on
 * (Python's `str.upper`, `str.lower`, `str.strip`, `in`, `split`, `join`,
 * `int`, `str` and the regular-expression classes `\d` and `\s`).
 *
 * All character classes are the ASCII subset of Python's Unicode-aware ones.
 */
module Text {

  datatype Option<T> = None | Some(value: T)

  /** `\d` restricted to ASCII. */
  predicate IsDigit(c: char) { '0' <= c <= '9' }

  /** `str.isspace()` (which is also what `\s` matches) restricted to ASCII:
      space, tab, line feed, vertical tab, form feed, carriage return and the
      four separators U+001C..U+001F. */
  predicate IsSpace(c: char) { c == ' ' || '\t' <= c <= '\r' || '\U{1C}' <= c <= '\U{1F}' }

  predicate AllDigits(s: string) { forall k :: 0 <= k < |s| ==> IsDigit(s[k]) }

  predicate NoDigits(s: string) { forall k :: 0 <= k < |s| ==> !IsDigit(s[k]) }

  function ToUpper(c: char): char { if 'a' <= c <= 'z' then (c as int - 32) as char else c }

  function ToLower(c: char): char { if 'A' <= c <= 'Z' then (c as int + 32) as char else c }

  /** `s.upper()` */
  function Upper(s: string): string { seq(|s|, k requires 0 <= k < |s| => ToUpper(s[k])) }

  /** `s.lower()` */
  function Lower(s: string): string { seq(|s|, k requires 0 <= k < |s| => ToLower(s[k])) }

  lemma {:induction false} UpperNoLowercase(s: string)
    requires forall k :: 0 <= k < |s| ==> !('a' <= s[k] <= 'z')
    ensures Upper(s) == s
  {
  }

  // ---------------------------------------------------------------------------
  // strip

  /** Number of whitespace characters at the start of `s`. */
  function LeadingSpaces(s: string): (n: nat)
    ensures n <= |s|
    ensures forall k :: 0 <= k < n ==> IsSpace(s[k])
    ensures n < |s| ==> !IsSpace(s[n])
  {
    if |s| > 0 && IsSpace(s[0]) then 1 + LeadingSpaces(s[1..]) else 0
  }

  /** Number of whitespace characters at the end of `s`. */
  function TrailingSpaces(s: string): (n: nat)
    ensures n <= |s|
    ensures forall k :: |s| - n <= k < |s| ==> IsSpace(s[k])
    ensures n < |s| ==> !IsSpace(s[|s| - n - 1])
  {
    if |s| > 0 && IsSpace(s[|s| - 1]) then 1 + TrailingSpaces(s[..|s| - 1]) else 0
  }

  /** `s.strip()`: the slice `s[lo..hi]` left after removing the whitespace at
      both ends. */
  function StripStart(s: string): nat { LeadingSpaces(s) }

  function StripEnd(s: string): nat { if LeadingSpaces(s) == |s| then |s| else |s| - TrailingSpaces(s) }

  function Strip(s: string): (r: string)
    ensures StripStart(s) <= StripEnd(s) <= |s| && r == s[StripStart(s)..StripEnd(s)]
    ensures forall k :: 0 <= k < StripStart(s) ==> IsSpace(s[k])
    ensures forall k :: StripEnd(s) <= k < |s| ==> IsSpace(s[k])
    ensures r == [] || (!IsSpace(r[0]) && !IsSpace(r[|r| - 1]))
  {
    s[StripStart(s)..StripEnd(s)]
  }

  lemma {:induction false} StripNoEdgeSpace(s: string)
    requires s == [] || (!IsSpace(s[0]) && !IsSpace(s[|s| - 1]))
    ensures Strip(s) == s
  {
  }

  // ---------------------------------------------------------------------------
  // substring tests

  predicate MatchesAt(s: string, p: string, i: nat)
  {
    i + |p| <= |s| && s[i..i + |p|] == p
  }

  /** `s.startswith(p)` */
  predicate StartsWith(s: string, p: string) { |p| <= |s| && s[..|p|] == p }

  /** `s.endswith(p)` */
  predicate EndsWith(s: string, p: string) { |p| <= |s| && s[|s| - |p|..] == p }

  /** Python's `p in s`. */
  predicate Contains(s: string, p: string)
    decreases |s|
  {
    if |p| > |s| then false else StartsWith(s, p) || Contains(s[1..], p)
  }

  /** `p in s` holds exactly when `p` occurs at some position of `s`. */
  lemma {:induction false} ContainsIffMatch(s: string, p: string)
    ensures Contains(s, p) <==> exists i :: 0 <= i <= |s| - |p| && MatchesAt(s, p, i)
    decreases |s|
  {
    if |p| > |s| {
    } else if StartsWith(s, p) {
      assert MatchesAt(s, p, 0);
    } else {
      ContainsIffMatch(s[1..], p);
      if Contains(s[1..], p) {
        var i :| 0 <= i <= |s| - 1 - |p| && MatchesAt(s[1..], p, i);
        assert s[1..][i..i + |p|] == s[i + 1..i + 1 + |p|];
        assert MatchesAt(s, p, i + 1);
      }
      if i :| 0 <= i <= |s| - |p| && MatchesAt(s, p, i) {
        assert i != 0;
        assert s[1..][i - 1..i - 1 + |p|] == s[i..i + |p|];
        assert MatchesAt(s[1..], p, i - 1);
      }
    }
  }

  lemma {:induction false} ContainsWithin(a: string, p: string, b: string)
    ensures Contains(a + p + b, p)
  {
    assert (a + p + b)[|a|..|a| + |p|] == p;
    assert MatchesAt(a + p + b, p, |a|);
    ContainsIffMatch(a + p + b, p);
  }

  /** A cheap refutation of `p in s`: at every position one of the first six
      characters of `p` differs. */
  lemma {:induction false} NotContainsBySixChars(s: string, p: string)
    requires |p| >= 6
    requires forall i :: 0 <= i <= |s| - |p| ==> !MatchesSixAt(s, p, i)
    ensures !Contains(s, p)
  {
    forall i | 0 <= i <= |s| - |p| ensures !MatchesAt(s, p, i) {
      var w := s[i..i + |p|];
      assert !MatchesSixAt(s, p, i);
      assert w[..6] == s[i..i + 6];
      assert w[..6] != p[..6];
    }
    ContainsIffMatch(s, p);
  }

  /** The first six characters of `p` occur in `s` at `i`. */
  predicate MatchesSixAt(s: string, p: string, i: nat)
    requires |p| >= 6 && i + |p| <= |s|
  {
    s[i] == p[0] && s[i + 1] == p[1] && s[i + 2] == p[2] &&
    s[i + 3] == p[3] && s[i + 4] == p[4] && s[i + 5] == p[5]
  }

  // ---------------------------------------------------------------------------
  // split and join

  /** Index of the first `c` in `s`, or `|s|` when there is none. */
  function IndexOf(s: string, c: char): (i: nat)
    ensures i <= |s|
    ensures forall k :: 0 <= k < i ==> s[k] != c
    ensures i < |s| ==> s[i] == c
  {
    if |s| == 0 then 0 else if s[0] == c then 0 else 1 + IndexOf(s[1..], c)
  }

  /** `s.split(c)` with a one-character separator. */
  function Split(s: string, c: char): (parts: seq<string>)
    ensures |parts| >= 1
    ensures forall k :: 0 <= k < |parts| ==> c !in parts[k]
    decreases |s|
  {
    var i := IndexOf(s, c);
    if i == |s| then [s] else [s[..i]] + Split(s[i + 1..], c)
  }

  /** `sep.join(parts)` */
  function Join(parts: seq<string>, sep: string): string
  {
    if |parts| == 0 then "" else if |parts| == 1 then parts[0] else parts[0] + sep + Join(parts[1..], sep)
  }

  lemma JoinCons(p: string, rest: seq<string>, sep: string)
    requires |rest| >= 1
    ensures Join([p] + rest, sep) == p + sep + Join(rest, sep)
  {
    assert ([p] + rest)[1..] == rest;
  }

  /** Joining one more part appends the separator and that part. */
  lemma {:induction false} JoinSnoc(parts: seq<string>, x: string, sep: string)
    ensures Join(parts + [x], sep) == if parts == [] then x else Join(parts, sep) + sep + x
    decreases |parts|
  {
    if |parts| == 1 {
      assert parts + [x] == [parts[0]] + [x];
      JoinCons(parts[0], [x], sep);
    } else if |parts| > 1 {
      assert parts + [x] == [parts[0]] + (parts[1..] + [x]);
      JoinCons(parts[0], parts[1..] + [x], sep);
      JoinSnoc(parts[1..], x, sep);
      JoinCons(parts[0], parts[1..], sep);
      assert [parts[0]] + parts[1..] == parts;
    }
  }

  /** `''.join` is plain concatenation: each part appended in turn. */
  lemma JoinUnseparated(parts: seq<string>, x: string)
    ensures Join(parts + [x], "") == Join(parts, "") + x
  {
    JoinSnoc(parts, x, "");
  }

  /** `s.split(c)` cuts at the first `c`. */
  lemma SplitAtFirst(s: string, c: char)
    requires IndexOf(s, c) < |s|
    ensures Split(s, c) == [s[..IndexOf(s, c)]] + Split(s[IndexOf(s, c) + 1..], c)
    ensures s == s[..IndexOf(s, c)] + [c] + s[IndexOf(s, c) + 1..]
  {
    var i := IndexOf(s, c);
    assert s[..i + 1] == s[..i] + [c];
    assert s == s[..i + 1] + s[i + 1..];
  }

  lemma {:induction false} JoinSplit(s: string, c: char)
    ensures Join(Split(s, c), [c]) == s
    decreases |s|
  {
    var i := IndexOf(s, c);
    if i < |s| {
      var rest := s[i + 1..];
      JoinSplit(rest, c);
      SplitAtFirst(s, c);
      JoinCons(s[..i], Split(rest, c), [c]);
    }
  }

  lemma {:induction false} SplitJoin(parts: seq<string>, c: char)
    requires |parts| >= 1
    requires forall k :: 0 <= k < |parts| ==> c !in parts[k]
    ensures Split(Join(parts, [c]), c) == parts
    decreases |parts|
  {
    if |parts| == 1 {
      assert IndexOf(parts[0], c) == |parts[0]|;
    } else {
      var p, tail := parts[0], Join(parts[1..], [c]);
      var s := Join(parts, [c]);
      assert parts == [p] + parts[1..];
      JoinCons(p, parts[1..], [c]);
      assert s == p + ([c] + tail);
      IndexOfPrefix(p, c, [c] + tail);
      SplitAtFirst(s, c);
      assert s[..|p|] == p && s[|p| + 1..] == tail;
      SplitJoin(parts[1..], c);
    }
  }

  lemma {:induction false} IndexOfPrefix(p: string, c: char, rest: string)
    requires c !in p && |rest| > 0 && rest[0] == c
    ensures IndexOf(p + rest, c) == |p|
    decreases |p|
  {
    if |p| > 0 {
      assert (p + rest)[1..] == p[1..] + rest;
      IndexOfPrefix(p[1..], c, rest);
    } else {
      assert p + rest == rest;
    }
  }

  // ---------------------------------------------------------------------------
  // digit runs (`re.findall(r'\d+', s)`) and decimal numbers

  /** Length of the run of digits at the start of `s`. */
  function LeadingDigits(s: string): (n: nat)
    ensures n <= |s|
    ensures AllDigits(s[..n])
    ensures n < |s| ==> !IsDigit(s[n])
  {
    if |s| > 0 && IsDigit(s[0]) then 1 + LeadingDigits(s[1..]) else 0
  }

  /** `re.findall(r'\d+', s)`: every maximal run of digits, left to right. */
  function DigitRuns(s: string): (runs: seq<string>)
    ensures forall k :: 0 <= k < |runs| ==> |runs[k]| > 0 && AllDigits(runs[k])
    decreases |s|
  {
    if |s| == 0 then []
    else if IsDigit(s[0]) then
      var n := LeadingDigits(s);
      [s[..n]] + DigitRuns(s[n..])
    else DigitRuns(s[1..])
  }

  lemma {:induction false} DigitRunsOfNoDigits(s: string)
    requires NoDigits(s)
    ensures DigitRuns(s) == []
    decreases |s|
  {
    if |s| > 0 { DigitRunsOfNoDigits(s[1..]); }
  }

  lemma {:induction false} DigitRunsOfRun(d: string)
    requires |d| > 0 && AllDigits(d)
    ensures DigitRuns(d) == [d]
  {
    assert LeadingDigits(d) == |d| by { LeadingDigitsAll(d); }
    assert d[..|d|] == d && d[|d|..] == [];
  }

  lemma {:induction false} LeadingDigitsAll(d: string)
    requires AllDigits(d)
    ensures LeadingDigits(d) == |d|
    decreases |d|
  {
    if |d| > 0 { LeadingDigitsAll(d[1..]); }
  }

  /** Splitting at a non-digit splits the list of runs: together with the two
      lemmas above this determines DigitRuns on every string. */
  lemma {:induction false} DigitRunsSplit(a: string, c: char, b: string)
    requires !IsDigit(c)
    ensures DigitRuns(a + [c] + b) == DigitRuns(a) + DigitRuns(b)
    decreases |a|
  {
    var s := a + [c] + b;
    if |a| == 0 {
      assert s[1..] == b;
    } else if !IsDigit(a[0]) {
      assert s[1..] == a[1..] + [c] + b;
      DigitRunsSplit(a[1..], c, b);
    } else {
      var n := LeadingDigits(a);
      LeadingDigitsSplit(a, c, b);
      assert s[..n] == a[..n];
      if n == |a| {
        assert s[n..] == [c] + b;
        assert ([c] + b)[1..] == b;
        assert a[n..] == [];
      } else {
        assert s[n..] == a[n..] + [c] + b;
        assert a[n..] == [a[n]] + a[n + 1..];
        assert s[n..] == [a[n]] + (a[n + 1..] + [c] + b);
        assert (a[n..])[1..] == a[n + 1..];
        DigitRunsSplit(a[n..], c, b);
      }
    }
  }

  lemma {:induction false} LeadingDigitsSplit(a: string, c: char, b: string)
    requires !IsDigit(c)
    ensures LeadingDigits(a + [c] + b) == LeadingDigits(a)
    decreases |a|
  {
    var s := a + [c] + b;
    if |a| > 0 {
      assert s[1..] == a[1..] + [c] + b;
      LeadingDigitsSplit(a[1..], c, b);
    }
  }

  function DigitValue(c: char): nat
    requires IsDigit(c)
  {
    c as int - '0' as int
  }

  /** The value of a decimal numeral (`int(d)` for a string of digits). */
  function Decimal(d: string): nat
    requires AllDigits(d)
  {
    if |d| == 0 then 0 else 10 * Decimal(d[..|d| - 1]) + DigitValue(d[|d| - 1])
  }

  /** `str(n)` for a natural number. */
  function NatToString(n: nat): (s: string)
    ensures |s| > 0 && AllDigits(s)
  {
    if n < 10 then [('0' as int + n) as char] else NatToString(n / 10) + [('0' as int + n % 10) as char]
  }

  lemma {:induction false} DecimalOfNatToString(n: nat)
    ensures Decimal(NatToString(n)) == n
  {
    var s := NatToString(n);
    if n >= 10 {
      DecimalOfNatToString(n / 10);
      assert s[..|s| - 1] == NatToString(n / 10);
    }
  }

  lemma NatToStringInjective(m: nat, n: nat)
    requires NatToString(m) == NatToString(n)
    ensures m == n
  {
    DecimalOfNatToString(m);
    DecimalOfNatToString(n);
  }
  // ---------------------------------------------------------------------------
  // int(t) on a string

  /** A numeral `int()` accepts in base 10: digits, single underscores
      allowed between two digits. */
  predicate Numeral(u: string)
  {
    |u| > 0 && IsDigit(u[0]) && IsDigit(u[|u| - 1]) &&
    (forall k :: 0 <= k < |u| ==> IsDigit(u[k]) || u[k] == '_') &&
    (forall k :: 0 <= k < |u| - 1 ==> !DoubleUnderscoreAt(u, k))
  }

  predicate DoubleUnderscoreAt(u: string, k: nat)
    requires k + 1 < |u|
  {
    u[k] == '_' && u[k + 1] == '_'
  }

  /** The digits of `u` with the underscores dropped. */
  function DropUnderscores(u: string): (d: string)
    requires forall k :: 0 <= k < |u| ==> IsDigit(u[k]) || u[k] == '_'
    ensures AllDigits(d) && |d| <= |u|
  {
    if u == [] then [] else (if u[0] == '_' then [] else [u[0]]) + DropUnderscores(u[1..])
  }

  /** CPython's default `sys.get_int_max_str_digits()`: `int()` of a
      decimal string with more digits raises ValueError. */
  const MAX_STR_DIGITS: nat := 4300

  /** A numeral within the digit limit; underscores do not count. */
  predicate Convertible(u: string)
  {
    Numeral(u) && |DropUnderscores(u)| <= MAX_STR_DIGITS
  }

  /** `int(t)`: an optional sign and a numeral, after surrounding whitespace;
      `None` where Python raises ValueError. */
  function ParseInt(t: string): (r: Option<int>)
    ensures r.Some? ==> |Strip(t)| > 0
  {
    ParseStripped(Strip(t))
  }

  /** `int` on a string without surrounding whitespace. */
  function ParseStripped(u: string): (r: Option<int>)
    ensures r.Some? ==> |u| > 0
  {
    if |u| > 0 && (u[0] == '+' || u[0] == '-') then
      if Convertible(u[1..]) then
        var n: int := Decimal(DropUnderscores(u[1..]));
        Some(if u[0] == '-' then -n else n)
      else None
    else if Convertible(u) then Some(Decimal(DropUnderscores(u)))
    else None
  }

  /** `str(i)` for any integer. */
  function IntToString(i: int): (s: string)
    ensures |s| > 0
  {
    if i < 0 then "-" + NatToString(-i) else NatToString(i)
  }

  lemma {:induction false} DropUnderscoresOfDigits(d: string)
    requires AllDigits(d)
    ensures DropUnderscores(d) == d
  {
    if d != [] {
      DropUnderscoresOfDigits(d[1..]);
      assert d == [d[0]] + d[1..];
    }
  }

  /** `int(str(i)) == i` whenever `str(i)` has at most 4300 digits (past
      that, `str(i)` raises ValueError as well); longer numerals are
      refused. */
  lemma ParseIntToString(i: int)
    ensures var digits := if i < 0 then -i else i;
      ParseInt(IntToString(i)) == if |NatToString(digits)| <= MAX_STR_DIGITS then Some(i) else None
  {
    if i < 0 {
      var n: nat := -i;
      assert IntToString(i) == "-" + NatToString(n);
      ParseNegative(n);
    } else {
      assert IntToString(i) == NatToString(i);
      ParseDigits(i);
    }
  }

  lemma ParseDigits(n: nat)
    ensures ParseInt(NatToString(n)) == if |NatToString(n)| <= MAX_STR_DIGITS then Some(n) else None
  {
    var d := NatToString(n);
    assert IsDigit(d[0]) && IsDigit(d[|d| - 1]);
    StripNoEdgeSpace(d);
    ParseUnsigned(d);
    DecimalOfNatToString(n);
  }

  lemma ParseNegative(n: nat)
    ensures ParseInt("-" + NatToString(n))
         == if |NatToString(n)| <= MAX_STR_DIGITS then Some(-(n as int)) else None
  {
    var d := NatToString(n);
    NegativeStrip(d);
    ParseMinus(d);
    DecimalOfNatToString(n);
    assert ParseInt("-" + d) == ParseStripped("-" + d);
  }

  /** `int(d)` for a string of digits `d`: its decimal value, or ValueError
      past 4300 digits. */
  lemma ParseUnsigned(d: string)
    requires |d| > 0 && AllDigits(d)
    ensures ParseStripped(d) == if |d| <= MAX_STR_DIGITS then Some(Decimal(d)) else None
  {
    assert IsDigit(d[0]);
    DigitsNumeral(d);
    DropUnderscoresOfDigits(d);
  }

  /** `int('-' + d)` for a string of digits `d`. */
  lemma ParseMinus(d: string)
    requires |d| > 0 && AllDigits(d)
    ensures ParseStripped("-" + d) == if |d| <= MAX_STR_DIGITS then Some(-(Decimal(d) as int)) else None
  {
    var u := "-" + d;
    assert u[1..] == d;
    ParseNegated(u, d);
  }

  /** `int(u)` for a minus sign followed by digits. */
  lemma ParseNegated(u: string, d: string)
    requires |d| > 0 && AllDigits(d) && |u| > 0 && u[0] == '-' && u[1..] == d
    ensures ParseStripped(u) == if |d| <= MAX_STR_DIGITS then Some(-(Decimal(d) as int)) else None
  {
    assert ParseStripped(u) == if Convertible(d) then Some(-(Decimal(DropUnderscores(d)) as int)) else None;
    DigitsConvertible(d);
  }

  lemma DigitsConvertible(d: string)
    requires |d| > 0 && AllDigits(d)
    ensures DropUnderscores(d) == d
    ensures Convertible(d) <==> |d| <= MAX_STR_DIGITS
  {
    DigitsNumeral(d);
    DropUnderscoresOfDigits(d);
  }

  /** `int()` of a digit string, as the Sheets handler calls it on each
      `\d+` run. */
  lemma ParseDigitRun(d: string)
    requires |d| > 0 && AllDigits(d)
    ensures ParseInt(d) == if |d| <= MAX_STR_DIGITS then Some(Decimal(d)) else None
  {
    assert IsDigit(d[0]) && IsDigit(d[|d| - 1]);
    StripNoEdgeSpace(d);
    ParseUnsigned(d);
  }

  lemma NegativeStrip(d: string)
    requires |d| > 0 && AllDigits(d)
    ensures Strip("-" + d) == "-" + d
  {
    var s := "-" + d;
    assert s[|s| - 1] == d[|d| - 1];
    StripNoEdgeSpace(s);
  }

  lemma DigitsNumeral(d: string)
    requires |d| > 0 && AllDigits(d)
    ensures Numeral(d)
  {
  }

  // ---------------------------------------------------------------------------
  // code points

  /** A string as the sequence of its code points: Python orders strings by
      these, a proper prefix first. */
  function Codes(s: string): seq<int>
  {
    seq(|s|, k requires 0 <= k < |s| => s[k] as int)
  }

  lemma {:induction false} CodesInjective(s: string, t: string)
    requires Codes(s) == Codes(t)
    ensures s == t
  {
    assert |s| == |Codes(s)| == |t|;
    forall k | 0 <= k < |s| ensures s[k] == t[k] {
      assert Codes(s)[k] == Codes(t)[k];
    }
  }
}
