/**
 * The multi-cursor handler: every `key=value` line of the file becomes an
 * entry of a JSON object, built up in a Python dict line by line.
 *
 * A dict keeps its keys in first-insertion order; assigning to a key that is
 * already there replaces the value and keeps the position.
 */
module MultiCursor {
  import opened Text

  /** A Python dict from strings to strings: its keys in insertion order and
      the value of each. */
  datatype Dict = Dict(keys: seq<string>, values: map<string, string>)

  predicate WellFormed(d: Dict)
  {
    (forall i, j :: 0 <= i < j < |d.keys| ==> d.keys[i] != d.keys[j]) &&
    d.values.Keys == set k | k in d.keys
  }

  const EMPTY := Dict([], map[])
  const NO_FILE := "No file provided"

  /** `d[k] = v` */
  function Put(d: Dict, k: string, v: string): Dict
  {
    Dict(if k in d.values then d.keys else d.keys + [k], d.values[k := v])
  }

  /** One line: stripped, skipped without an `=`, otherwise split at its
      first `=` into a stripped key and a stripped value. */
  function ParseLine(line: string): (r: Option<(string, string)>)
    ensures r.Some? <==> '=' in Strip(line)
    ensures r.Some? ==> '=' !in r.value.0
    ensures r.Some? ==> var t := Strip(line); var i := IndexOf(t, '=');
      i < |t| && t[i] == '=' && '=' !in t[..i] && r.value == (Strip(t[..i]), Strip(t[i + 1..]))
  {
    var t := Strip(line);
    if '=' in t then
      var i := IndexOf(t, '=');
      assert i < |t| && '=' !in t[..i];
      Some((Strip(t[..i]), Strip(t[i + 1..])))
    else None
  }

  /** What each line contributes: nothing, or a key and its value. */
  function Parsed(lines: seq<string>): (es: seq<Option<(string, string)>>)
    ensures |es| == |lines| && forall j :: 0 <= j < |lines| ==> es[j] == ParseLine(lines[j])
  {
    seq(|lines|, j requires 0 <= j < |lines| => ParseLine(lines[j]))
  }

  predicate HasKey(e: Option<(string, string)>, k: string) { e.Some? && e.value.0 == k }

  function Apply(d: Dict, e: Option<(string, string)>): Dict
  {
    match e
    case None => d
    case Some((k, v)) => Put(d, k, v)
  }

  /** The dict after the entries, in order. */
  function Fill(es: seq<Option<(string, string)>>): Dict
  {
    if es == [] then EMPTY else Apply(Fill(es[..|es| - 1]), es[|es| - 1])
  }

  /** The dict the file's lines build. */
  function Build(lines: seq<string>): Dict { Fill(Parsed(lines)) }

  /** The loop `for line in lines: ...` filling `json_obj`. */
  method MultiCursorJson(lines: seq<string>) returns (d: Dict)
    ensures d == Build(lines)
  {
    var keys: seq<string> := [];
    var values: map<string, string> := map[];
    var n := 0;
    while n < |lines|
      invariant n <= |lines|
      invariant Dict(keys, values) == Fill(Parsed(lines)[..n])
    {
      FillStep(lines, n);
      ghost var before := Dict(keys, values);
      var line := Strip(lines[n]);
      if '=' in line {
        var i := IndexOf(line, '=');
        var key := Strip(line[..i]);
        var value := Strip(line[i + 1..]);
        if key !in values {
          keys := keys + [key];
        }
        values := values[key := value];
        assert ParseLine(lines[n]) == Some((key, value));
        assert Dict(keys, values) == Put(before, key, value);
      } else {
        assert ParseLine(lines[n]) == None;
      }
      n := n + 1;
    }
    assert Parsed(lines)[..n] == Parsed(lines);
    return Dict(keys, values);
  }

  lemma FillStep(lines: seq<string>, n: nat)
    requires n < |lines|
    ensures Fill(Parsed(lines)[..n + 1]) == Apply(Fill(Parsed(lines)[..n]), ParseLine(lines[n]))
  {
    assert Parsed(lines)[..n + 1][..n] == Parsed(lines)[..n];
  }

  /** `_process_multi_cursor_json` without its file reading: None is a
      missing file path. */
  method MultiCursorHandler(file: Option<seq<string>>) returns (r: Result)
    ensures file.None? ==> r == Error(NO_FILE)
    ensures file.Some? ==> r == Success(Build(file.value))
  {
    if file.None? {
      return Error(NO_FILE);
    }
    var d := MultiCursorJson(file.value);
    return Success(d);
  }

  datatype Result = Success(answer: Dict) | Error(message: string)

  // ---------------------------------------------------------------------------
  // what the dict holds

  lemma {:induction false} FillWellFormed(es: seq<Option<(string, string)>>)
    ensures WellFormed(Fill(es))
    decreases |es|
  {
    if es != [] { FillWellFormed(es[..|es| - 1]); }
  }

  /** One entry adds its own key to the dict and no other. */
  lemma ApplyKeys(d: Dict, e: Option<(string, string)>, k: string)
    ensures k in Apply(d, e).values <==> k in d.values || HasKey(e, k)
  {
  }

  /** A key is in the dict exactly when some entry carries it. */
  lemma {:induction false} FillKeys(es: seq<Option<(string, string)>>, k: string)
    ensures k in Fill(es).values <==> exists j :: 0 <= j < |es| && HasKey(es[j], k)
    decreases |es|
  {
    if es != [] {
      var init := es[..|es| - 1];
      FillKeys(init, k);
      ApplyKeys(Fill(init), es[|es| - 1], k);
      if j :| 0 <= j < |es| && HasKey(es[j], k) {
        if j < |init| {
          assert init[j] == es[j];
        }
      }
      if k in Fill(init).values {
        var j :| 0 <= j < |init| && HasKey(init[j], k);
        assert init[j] == es[j];
      }
    }
  }

  /** The value of a key is the one of the last entry that carries it. */
  lemma {:induction false} FillValue(es: seq<Option<(string, string)>>, j: nat)
    requires j < |es| && es[j].Some?
    requires forall m :: j < m < |es| ==> !HasKey(es[m], es[j].value.0)
    ensures es[j].value.0 in Fill(es).values && Fill(es).values[es[j].value.0] == es[j].value.1
    decreases |es|
  {
    var init := es[..|es| - 1];
    if j < |es| - 1 {
      assert init[j] == es[j];
      forall m | j < m < |init| ensures !HasKey(init[m], init[j].value.0) {
        assert init[m] == es[m];
      }
      FillValue(init, j);
      assert !HasKey(es[|es| - 1], es[j].value.0);
    }
  }

  /** Entry `ja` comes before every entry carrying `k`. */
  predicate Precedes(es: seq<Option<(string, string)>>, ja: nat, k: string)
  {
    forall jb :: 0 <= jb < |es| && HasKey(es[jb], k) ==> ja < jb
  }

  /** Keys keep the order of their first entries: the first entry carrying
      an earlier key comes before every entry carrying a later one. */
  lemma {:induction false} FillOrder(es: seq<Option<(string, string)>>, a: nat, b: nat)
    requires a < b < |Fill(es).keys|
    ensures exists ja :: 0 <= ja < |es| && HasKey(es[ja], Fill(es).keys[a]) && Precedes(es, ja, Fill(es).keys[b])
    decreases |es|
  {
    var init := es[..|es| - 1];
    var d := Fill(init);
    var last := es[|es| - 1];
    assert forall j :: 0 <= j < |init| ==> init[j] == es[j];
    FillWellFormed(init);
    var ka, kb := Fill(es).keys[a], Fill(es).keys[b];
    if b < |d.keys| {
      assert Fill(es).keys[..|d.keys|] == d.keys;
      FillOrder(init, a, b);
      var ja :| 0 <= ja < |init| && HasKey(init[ja], ka) && Precedes(init, ja, kb);
      assert HasKey(es[ja], ka);
      forall jb | 0 <= jb < |es| && HasKey(es[jb], kb) ensures ja < jb {
        if jb == |es| - 1 {
          FillKeys(init, kb);
          var j :| 0 <= j < |init| && HasKey(init[j], kb);
          assert ja < j;
        } else {
          assert HasKey(init[jb], kb);
        }
      }
    } else {
      // kb is new: no earlier entry carries it, and ka was already present
      assert kb !in d.values && HasKey(last, kb);
      assert ka in d.keys by { assert Fill(es).keys[a] == d.keys[a]; }
      FillKeys(init, ka);
      FillKeys(init, kb);
      var ja :| 0 <= ja < |init| && HasKey(init[ja], ka);
      assert HasKey(es[ja], ka);
      forall jb | 0 <= jb < |es| && HasKey(es[jb], kb) ensures ja < jb {
        if jb < |es| - 1 { assert false; }
      }
    }
  }

  /** The value is everything after the first `=`, so it may hold `=`. */
  lemma ValueKeepsEquals()
    ensures ParseLine(" a = b=c ") == Some(("a", "b=c"))
  {
    var u := "a = b=c";
    StripLine();
    StripKey();
    StripValue();
    assert IndexOf(u, '=') == 2;
    assert u[..2] == "a " && u[3..] == " b=c";
  }

  lemma StripLine()
    ensures Strip(" a = b=c ") == "a = b=c"
  {
    var t := " a = b=c ";
    assert LeadingSpaces(t) == 1;
    assert TrailingSpaces(t) == 1;
    assert t[1..8] == "a = b=c";
  }

  lemma StripKey()
    ensures Strip("a ") == "a"
  {
    assert LeadingSpaces("a ") == 0 && TrailingSpaces("a ") == 1;
    assert "a "[0..1] == "a";
  }

  lemma StripValue()
    ensures Strip(" b=c") == "b=c"
  {
    assert LeadingSpaces(" b=c") == 1 && TrailingSpaces(" b=c") == 0;
    assert " b=c"[1..4] == "b=c";
  }
}
