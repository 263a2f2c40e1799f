/**
 * The file-replacement handler: every extracted file has each match of
 * `[Ii][Ii][Tt][Mm]` replaced by `IIT Madras`, and the hash is taken over
 * the rewritten contents concatenated in file-name order (the handler's
 * version of `cat * | sha256sum`).
 */
module Rewrite {
  import opened Text
  import opened Sorting
  import opened Archive

  const IIT_MADRAS := "IIT Madras"

  /** `[Ii][Ii][Tt][Mm]` matches at position `i`. */
  predicate IitmAt(s: string, i: nat)
  {
    i + 4 <= |s| && (s[i] == 'I' || s[i] == 'i') && (s[i + 1] == 'I' || s[i + 1] == 'i') &&
    (s[i + 2] == 'T' || s[i + 2] == 't') && (s[i + 3] == 'M' || s[i + 3] == 'm')
  }

  predicate NoIitm(s: string) { forall i :: 0 <= i < |s| ==> !IitmAt(s, i) }

  /** `replace_iitm`, i.e. `re.sub(r'[Ii][Ii][Tt][Mm]', 'IIT Madras', s)`:
      scanning from the left, a match is replaced and scanning resumes after
      it; any other character is kept. */
  function ReplaceIitm(s: string): string
    decreases |s|
  {
    if s == [] then []
    else if IitmAt(s, 0) then IIT_MADRAS + ReplaceIitm(s[4..])
    else [s[0]] + ReplaceIitm(s[1..])
  }

  /** A rewritten text never starts with a match: a replacement starts
      `IIT ` and a kept prefix is the original's, which did not match. */
  lemma StartNoIitm(s: string)
    ensures !IitmAt(ReplaceIitm(s), 0)
  {
    var r := ReplaceIitm(s);
    if s != [] && IitmAt(s, 0) {
      assert r[3] == IIT_MADRAS[3] == ' ';
    } else if s != [] {
      var t1 := s[1..];
      var r1 := ReplaceIitm(t1);
      assert r == [s[0]] + r1;
      if t1 != [] && IitmAt(t1, 0) {
        assert r[3] == r1[2] == IIT_MADRAS[2] == 'T';
      } else if t1 != [] {
        var t2 := t1[1..];
        var r2 := ReplaceIitm(t2);
        assert r1 == [t1[0]] + r2;
        if t2 != [] && IitmAt(t2, 0) {
          assert r[2] == r2[0] == 'I';
        } else if t2 != [] {
          var t3 := t2[1..];
          var r3 := ReplaceIitm(t3);
          assert r2 == [t2[0]] + r3;
          if t3 != [] && IitmAt(t3, 0) {
            assert r[3] == r3[0] == 'I';
          } else if t3 != [] {
            assert r3 == [t3[0]] + ReplaceIitm(t3[1..]);
            assert r[..4] == s[..4];
          }
        }
      }
    }
  }

  /** Every match is replaced: the result contains none. */
  lemma {:induction false} ReplaceLeavesNoIitm(s: string)
    ensures NoIitm(ReplaceIitm(s))
    decreases |s|
  {
    var r := ReplaceIitm(s);
    if s != [] && IitmAt(s, 0) {
      var rest := ReplaceIitm(s[4..]);
      ReplaceLeavesNoIitm(s[4..]);
      assert r == IIT_MADRAS + rest;
      forall i | 0 <= i < |r| ensures !IitmAt(r, i) {
        if i >= 10 {
          assert !IitmAt(rest, i - 10);
        } else if i == 0 {
          StartNoIitm(s);
        } else if i == 1 {
          assert r[3] == IIT_MADRAS[3] == ' ';
        } else {
          assert r[i] == IIT_MADRAS[i];
          assert IIT_MADRAS[i] != 'I' && IIT_MADRAS[i] != 'i';
        }
      }
    } else if s != [] {
      var rest := ReplaceIitm(s[1..]);
      ReplaceLeavesNoIitm(s[1..]);
      assert r == [s[0]] + rest;
      forall i | 0 <= i < |r| ensures !IitmAt(r, i) {
        if i == 0 {
          StartNoIitm(s);
        } else {
          assert !IitmAt(rest, i - 1);
        }
      }
    }
  }

  /** Nothing else changes: a text without a match is left as it is. */
  lemma {:induction false} ReplaceWithoutIitm(s: string)
    requires NoIitm(s)
    ensures ReplaceIitm(s) == s
    decreases |s|
  {
    if s != [] {
      assert !IitmAt(s, 0);
      forall i | 0 <= i < |s| - 1 ensures !IitmAt(s[1..], i) {
        assert !IitmAt(s, i + 1);
      }
      ReplaceWithoutIitm(s[1..]);
    }
  }

  /** Rewriting twice is rewriting once. */
  lemma ReplaceIdempotent(s: string)
    ensures ReplaceIitm(ReplaceIitm(s)) == ReplaceIitm(s)
  {
    ReplaceLeavesNoIitm(s);
    ReplaceWithoutIitm(ReplaceIitm(s));
  }

  /** The match ignores case. */
  lemma MixedCase()
    ensures ReplaceIitm("iItM!") == "IIT Madras!"
  {
    var s := "iItM!";
    assert IitmAt(s, 0);
    assert s[4..] == "!";
    assert !IitmAt("!", 0);
    assert ReplaceIitm("!") == "!" + ReplaceIitm([]);
  }

  // ---------------------------------------------------------------------------
  // the hashed text

  /** The rewritten contents, file by file. */
  function Rewritten(files: seq<File>): (parts: seq<string>)
    ensures |parts| == |files| && forall i :: 0 <= i < |files| ==> parts[i] == ReplaceIitm(files[i].content)
  {
    seq(|files|, i requires 0 <= i < |files| => ReplaceIitm(files[i].content))
  }

  /** The loop collecting `all_content` and its `''.join`. */
  method HashedText(files: seq<File>) returns (text: string)
    ensures text == Join(Rewritten(ByName(files)), "")
  {
    var sorted := ByName(files);
    var parts := Rewritten(sorted);
    text := "";
    var i := 0;
    while i < |sorted|
      invariant i <= |sorted|
      invariant text == Join(parts[..i], "")
    {
      text := text + ReplaceIitm(sorted[i].content);
      assert parts[..i + 1] == parts[..i] + [parts[i]];
      JoinUnseparated(parts[..i], parts[i]);
      i := i + 1;
    }
    assert parts[..i] == parts;
  }

  /** The hashed files are the archive's files in name order, each with no
      match left in its part. */
  lemma HashedTextParts(files: seq<File>)
    ensures multiset(ByName(files)) == multiset(files)
    ensures SortedBy(ByName(files), (f: File) => Codes(f.name))
    ensures forall i :: 0 <= i < |files| ==> NoIitm(Rewritten(ByName(files))[i])
  {
    SortByPermutes(files, (f: File) => Codes(f.name));
    SortBySorted(files, (f: File) => Codes(f.name));
    var sorted := ByName(files);
    assert |sorted| == |files| by { assert |multiset(sorted)| == |multiset(files)|; }
    forall i | 0 <= i < |files| ensures NoIitm(Rewritten(sorted)[i]) {
      ReplaceLeavesNoIitm(sorted[i].content);
    }
  }

  datatype Outcome = Sha256Of(text: string) | Failure(message: string)

  /** `_process_file_replacement_sha256` up to the digest: the text it
      hashes, or its error. */
  method FileReplacement(path: Option<string>, files: seq<File>) returns (r: Outcome)
    ensures !IsZipPath(path) ==> r == Failure(INVALID_ZIP)
    ensures IsZipPath(path) ==> r == Sha256Of(Join(Rewritten(ByName(files)), ""))
  {
    if !IsZipPath(path) {
      return Failure(INVALID_ZIP);
    }
    var text := HashedText(files);
    return Sha256Of(text);
  }
}
