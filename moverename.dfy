/**
 * The move-and-rename handler: every extracted file is moved into one
 * directory under a name no earlier file took (`base_1.ext`, `base_2.ext`,
 * ... on a clash), each digit of every name is replaced by the next one
 * (9 by 0), and the hash is taken over the `name:content` lines of the
 * non-blank files, sorted case-insensitively and joined by newlines.
 */
module MoveRename {
  import opened Text
  import opened Sorting
  import opened Archive

  // ---------------------------------------------------------------------------
  // os.path.splitext

  /** Index of the last `.` of `s`, or `|s|` when there is none. */
  function LastDot(s: string): (i: nat)
    ensures i <= |s|
    ensures i < |s| ==> s[i] == '.' && forall k :: i < k < |s| ==> s[k] != '.'
    ensures i == |s| ==> forall k :: 0 <= k < |s| ==> s[k] != '.'
  {
    if s == [] then 0
    else if s[|s| - 1] == '.' then |s| - 1
    else
      var j := LastDot(s[..|s| - 1]);
      if j == |s| - 1 then |s| else j
  }

  predicate HasNonDot(s: string) { exists k :: 0 <= k < |s| && s[k] != '.' }

  /** `os.path.splitext(name)` for a bare file name: the extension runs from
      the last `.`, unless only dots come before it (`.bashrc` has none). */
  function SplitExt(name: string): (r: (string, string))
    ensures r.0 + r.1 == name
    ensures r.1 == [] || (r.1[0] == '.' && '.' !in r.1[1..] && HasNonDot(r.0))
    ensures r.1 == [] ==> forall i :: 0 <= i < |name| && name[i] == '.' ==> !HasNonDot(name[..i])
  {
    var i := LastDot(name);
    if i < |name| && HasNonDot(name[..i]) then (name[..i], name[i..])
    else
      assert forall j :: 0 <= j < |name| && name[j] == '.' ==> !HasNonDot(name[..j]) by {
        if i < |name| {
          forall j | 0 <= j < |name| && name[j] == '.' ensures !HasNonDot(name[..j]) {
            forall k | 0 <= k < j ensures name[..j][k] == '.' {
              assert name[..i][k] == name[k];
            }
          }
        }
      }
      (name, "")
  }

  // ---------------------------------------------------------------------------
  // unique destination names

  /** The `counter`-th alternative name, `f"{base}_{counter}{ext}"`. */
  function Candidate(base: string, ext: string, k: nat): string
  {
    base + "_" + NatToString(k) + ext
  }

  lemma CandidateInjective(base: string, ext: string, a: nat, b: nat)
    ensures Candidate(base, ext, a) == Candidate(base, ext, b) ==> a == b
  {
    var x, y := Candidate(base, ext, a), Candidate(base, ext, b);
    if x == y {
      var p := |base| + 1;
      assert |NatToString(a)| == |NatToString(b)|;
      assert x[p..p + |NatToString(a)|] == NatToString(a);
      assert y[p..p + |NatToString(b)|] == NatToString(b);
      NatToStringInjective(a, b);
    }
  }

  function Candidates(base: string, ext: string, n: nat): set<string>
  {
    set k | 1 <= k <= n :: Candidate(base, ext, k)
  }

  lemma {:induction false} CandidatesSize(base: string, ext: string, n: nat)
    ensures |Candidates(base, ext, n)| == n
  {
    if n > 0 {
      CandidatesSize(base, ext, n - 1);
      forall k | 1 <= k < n ensures Candidate(base, ext, k) != Candidate(base, ext, n) {
        CandidateInjective(base, ext, k, n);
      }
      assert Candidates(base, ext, n) == Candidates(base, ext, n - 1) + {Candidate(base, ext, n)};
    }
  }

  /** No more alternatives than names can be taken. */
  lemma CandidatesBound(taken: set<string>, base: string, ext: string, n: nat)
    requires forall k :: 1 <= k <= n ==> Candidate(base, ext, k) in taken
    ensures n <= |taken|
  {
    var s := Candidates(base, ext, n);
    CandidatesSize(base, ext, n);
    assert taken == s + (taken - s);
  }

  /** Alternatives `lo` up to `m - 1` are all taken. */
  predicate FirstFree(taken: set<string>, base: string, ext: string, lo: nat, m: nat)
  {
    lo <= m && forall j :: lo <= j < m ==> Candidate(base, ext, j) in taken
  }

  /** The first alternative from the `k`-th on that is not taken. */
  function FreeFrom(taken: set<string>, base: string, ext: string, k: nat): (r: string)
    requires k >= 1 && forall j :: 1 <= j < k ==> Candidate(base, ext, j) in taken
    ensures r !in taken
    ensures exists m :: FirstFree(taken, base, ext, k, m) && r == Candidate(base, ext, m)
    decreases |taken| + 1 - k
  {
    if Candidate(base, ext, k) !in taken then Candidate(base, ext, k)
    else
      CandidatesBound(taken, base, ext, k);
      FreeFrom(taken, base, ext, k + 1)
  }

  /** The name a file gets in a directory already holding `taken`: its own
      when free, else the first free `base_k.ext` with k = 1, 2, ... */
  function FreeName(taken: set<string>, filename: string): (r: string)
    ensures r !in taken
    ensures filename !in taken ==> r == filename
    ensures filename in taken ==> exists m ::
      FirstFree(taken, SplitExt(filename).0, SplitExt(filename).1, 1, m) &&
      r == Candidate(SplitExt(filename).0, SplitExt(filename).1, m)
  {
    if filename !in taken then filename
    else FreeFrom(taken, SplitExt(filename).0, SplitExt(filename).1, 1)
  }

  /** The `while os.path.exists(dest_path)` loop. */
  method UniqueName(taken: set<string>, filename: string) returns (name: string)
    ensures name == FreeName(taken, filename)
  {
    var (base, ext) := SplitExt(filename);
    name := filename;
    var counter: nat := 1;
    while name in taken
      invariant counter >= 1
      invariant counter == 1 ==> name == filename
      invariant counter > 1 ==> filename in taken && name == Candidate(base, ext, counter - 1)
      invariant counter > 1 ==> forall j :: 1 <= j < counter - 1 ==> Candidate(base, ext, j) in taken
      invariant counter > 1 ==> FreeName(taken, filename) == FreeFrom(taken, base, ext, counter - 1)
      decreases |taken| + 1 - counter
    {
      if counter > 1 {
        CandidatesBound(taken, base, ext, counter - 1);
      }
      name := Candidate(base, ext, counter);
      counter := counter + 1;
    }
  }

  function Elements(s: seq<string>): set<string> { set k | 0 <= k < |s| :: s[k] }

  /** The destination names of the files moved in walk order. */
  function Moved(names: seq<string>): (r: seq<string>)
    ensures |r| == |names|
  {
    if names == [] then []
    else
      var m := Moved(names[..|names| - 1]);
      m + [FreeName(Elements(m), names[|names| - 1])]
  }

  /** `move_files_from_subdirs`, on the names of the walked files: the
      destination directory starts empty. */
  method MoveAll(names: seq<string>) returns (moved: seq<string>)
    ensures moved == Moved(names)
  {
    var taken: set<string> := {};
    moved := [];
    var i := 0;
    while i < |names|
      invariant i <= |names|
      invariant moved == Moved(names[..i]) && taken == Elements(moved)
    {
      var name := UniqueName(taken, names[i]);
      assert names[..i + 1][..i] == names[..i];
      assert Elements(moved + [name]) == Elements(moved) + {name} by {
        forall x | x in Elements(moved) ensures x in Elements(moved + [name]) {
          var k :| 0 <= k < |moved| && moved[k] == x;
          assert (moved + [name])[k] == x;
        }
        assert (moved + [name])[|moved|] == name;
      }
      moved := moved + [name];
      taken := taken + {name};
      i := i + 1;
    }
    assert names[..i] == names;
  }

  /** No two moved files share a name. */
  lemma {:induction false} MovedDistinct(names: seq<string>)
    ensures forall i, j :: 0 <= i < j < |names| ==> Moved(names)[i] != Moved(names)[j]
    decreases |names|
  {
    if names != [] {
      var init := names[..|names| - 1];
      var m := Moved(init);
      MovedDistinct(init);
      var x := FreeName(Elements(m), names[|names| - 1]);
      assert Moved(names) == m + [x];
      forall i, j | 0 <= i < j < |names| ensures Moved(names)[i] != Moved(names)[j] {
        if j == |names| - 1 {
          assert Moved(names)[i] == m[i];
          assert m[i] in Elements(m);
        }
      }
    }
  }

  /** Moving file `i` only looks at the files moved before it. */
  lemma {:induction false} MovedPrefix(names: seq<string>, i: nat)
    requires i <= |names|
    ensures Moved(names[..i]) == Moved(names)[..i]
    decreases |names|
  {
    if i < |names| {
      var init := names[..|names| - 1];
      MovedPrefix(init, i);
      assert init[..i] == names[..i];
      assert Moved(names)[..i] == Moved(init)[..i];
    } else {
      assert names[..i] == names;
    }
  }

  /** Each file gets the name `FreeName` picks against the names of the
      files before it: its own when still free. */
  lemma MovedEach(names: seq<string>, i: nat)
    requires i < |names|
    ensures Moved(names)[i] == FreeName(Elements(Moved(names)[..i]), names[i])
    ensures names[i] !in Elements(Moved(names)[..i]) ==> Moved(names)[i] == names[i]
  {
    MovedPrefix(names, i + 1);
    MovedPrefix(names, i);
    var p := names[..i + 1];
    assert p[..|p| - 1] == names[..i];
    assert Moved(p) == Moved(names[..i]) + [FreeName(Elements(Moved(names[..i])), names[i])];
    assert Moved(names)[i] == Moved(names)[..i + 1][i];
  }

  // ---------------------------------------------------------------------------
  // digit increment

  /** `increment_digit` on one character: a digit d becomes (d + 1) % 10. */
  function IncrementDigit(c: char): char
  {
    if IsDigit(c) then ('0' as int + (c as int - '0' as int + 1) % 10) as char else c
  }

  /** `re.sub(r'\d', increment_digit, name)` */
  function IncrementDigits(s: string): (r: string)
    ensures |r| == |s| && forall k :: 0 <= k < |s| ==> r[k] == IncrementDigit(s[k])
  {
    seq(|s|, k requires 0 <= k < |s| => IncrementDigit(s[k]))
  }

  /** The digit `n` places after `c`, cyclically; other characters stay. */
  function ShiftDigit(c: char, n: nat): char
  {
    if IsDigit(c) then ('0' as int + (c as int - '0' as int + n) % 10) as char else c
  }

  function Iterate(n: nat, s: string): string
  {
    if n == 0 then s else IncrementDigits(Iterate(n - 1, s))
  }

  lemma {:induction false} IterateShifts(n: nat, s: string)
    ensures |Iterate(n, s)| == |s| && forall k :: 0 <= k < |s| ==> Iterate(n, s)[k] == ShiftDigit(s[k], n)
  {
    if n > 0 {
      IterateShifts(n - 1, s);
      forall k | 0 <= k < |s| ensures Iterate(n, s)[k] == ShiftDigit(s[k], n) {
        ShiftDigitStep(s[k], n - 1);
      }
    }
  }

  /** One more increment shifts a digit one place further. */
  lemma ShiftDigitStep(c: char, n: nat)
    ensures IncrementDigit(ShiftDigit(c, n)) == ShiftDigit(c, n + 1)
  {
    if IsDigit(c) {
      var d := c as int - '0' as int;
      assert ShiftDigit(c, n) as int - '0' as int == (d + n) % 10;
      assert ((d + n) % 10 + 1) % 10 == (d + n + 1) % 10;
    }
  }

  /** Shifting the incremented digit is shifting the digit one place more. */
  lemma ShiftOfIncrement(c: char, n: nat)
    ensures ShiftDigit(IncrementDigit(c), n) == ShiftDigit(c, n + 1)
  {
    if IsDigit(c) {
      var d := c as int - '0' as int;
      assert IncrementDigit(c) as int - '0' as int == (d + 1) % 10;
      assert ((d + 1) % 10 + n) % 10 == (d + n + 1) % 10;
    }
  }

  /** The rename keeps the length and every non-digit, and ten renames give
      the name back. */
  lemma TenIncrementsIdentity(s: string)
    ensures Iterate(10, s) == s
    ensures forall k :: 0 <= k < |s| && !IsDigit(s[k]) ==> IncrementDigits(s)[k] == s[k]
  {
    IterateShifts(10, s);
    forall k | 0 <= k < |s| ensures Iterate(10, s)[k] == s[k] {
      var c := s[k];
      if IsDigit(c) {
        assert (c as int - '0' as int + 10) % 10 == c as int - '0' as int;
      }
    }
  }

  /** Distinct names stay distinct: nine more increments undo one. */
  lemma IncrementDigitsInjective(s: string, t: string)
    ensures IncrementDigits(s) == IncrementDigits(t) ==> s == t
  {
    if IncrementDigits(s) == IncrementDigits(t) {
      NinthIterate(s);
      NinthIterate(t);
      IterateEqual(9, IncrementDigits(s), IncrementDigits(t));
      TenIncrementsIdentity(s);
      TenIncrementsIdentity(t);
    }
  }

  lemma {:induction false} NinthIterate(s: string)
    ensures Iterate(9, IncrementDigits(s)) == Iterate(10, s)
  {
    IterateShifts(9, IncrementDigits(s));
    IterateShifts(10, s);
    forall k | 0 <= k < |s| ensures Iterate(9, IncrementDigits(s))[k] == Iterate(10, s)[k] {
      ShiftOfIncrement(s[k], 9);
    }
  }

  lemma IterateEqual(n: nat, s: string, t: string)
    requires s == t
    ensures Iterate(n, s) == Iterate(n, t)
  {
  }

  // ---------------------------------------------------------------------------
  // renaming in place, as written

  /** `rename_files_with_digit_increment` as written: `os.rename` one file
      after another in listing order, each overwriting whatever already
      carries its new name (the POSIX behaviour). */
  function RenameInOrder(dir: map<string, string>, order: seq<string>): map<string, string>
    decreases |order|
  {
    if order == [] then dir
    else
      var f := order[0];
      var next := if f in dir then (dir - {f})[IncrementDigits(f) := dir[f]] else dir;
      RenameInOrder(next, order[1..])
  }

  /** Two files `a1` and `a2`, listed in that order: `a1` is renamed onto
      `a2`, then that file on to `a3`, and the text of the original `a2` is
      gone. */
  lemma RenameInOrderLosesFile()
    ensures RenameInOrder(map["a1" := "x", "a2" := "y"], ["a1", "a2"]) == map["a3" := "x"]
  {
    assert IncrementDigits("a1") == "a2" by {
      assert IncrementDigit('1') == '2';
    }
    assert IncrementDigits("a2") == "a3" by {
      assert IncrementDigit('2') == '3';
    }
    var dir := map["a1" := "x", "a2" := "y"];
    var d1 := (dir - {"a1"})["a2" := "x"];
    assert d1 == map["a2" := "x"];
    var d2 := (d1 - {"a2"})["a3" := "x"];
    assert d2 == map["a3" := "x"];
    assert ["a1", "a2"][1..] == ["a2"];
    assert ["a2"][1..] == [];
  }

  // ---------------------------------------------------------------------------
  // renaming, corrected: every file keeps its text under its new name

  /** The rename the handler evidently intends: each file under its digits-
      incremented name, as if moved into a fresh directory. */
  method RenameAll(files: seq<File>) returns (renamed: seq<File>, pairs: seq<(string, string)>)
    ensures |renamed| == |files| && |pairs| == |files|
    ensures forall i :: 0 <= i < |files| ==>
      renamed[i] == File(IncrementDigits(files[i].name), files[i].content) &&
      pairs[i] == (files[i].name, IncrementDigits(files[i].name))
  {
    renamed, pairs := [], [];
    var i := 0;
    while i < |files|
      invariant i <= |files| && |renamed| == i && |pairs| == i
      invariant forall k :: 0 <= k < i ==>
        renamed[k] == File(IncrementDigits(files[k].name), files[k].content) &&
        pairs[k] == (files[k].name, IncrementDigits(files[k].name))
    {
      var name := IncrementDigits(files[i].name);
      renamed := renamed + [File(name, files[i].content)];
      pairs := pairs + [(files[i].name, name)];
      i := i + 1;
    }
  }

  function Names(files: seq<File>): (r: seq<string>)
    ensures |r| == |files| && forall i :: 0 <= i < |files| ==> r[i] == files[i].name
  {
    seq(|files|, i requires 0 <= i < |files| => files[i].name)
  }

  predicate DistinctNames(files: seq<File>)
  {
    forall i, j :: 0 <= i < j < |files| ==> files[i].name != files[j].name
  }

  /** Renaming this way loses no file: distinct names stay distinct. */
  lemma RenamedDistinct(files: seq<File>, renamed: seq<File>)
    requires DistinctNames(files) && |renamed| == |files|
    requires forall i :: 0 <= i < |files| ==> renamed[i] == File(IncrementDigits(files[i].name), files[i].content)
    ensures DistinctNames(renamed)
  {
    forall i, j | 0 <= i < j < |files| ensures renamed[i].name != renamed[j].name {
      IncrementDigitsInjective(files[i].name, files[j].name);
    }
  }

  // ---------------------------------------------------------------------------
  // the hashed text

  /** Reading in universal-newline mode, as `open(path, 'r')` does: each
      `\r\n` and each lone `\r` is read as `\n`. */
  function Universal(s: string): (r: string)
    ensures |r| <= |s|
    decreases |s|
  {
    if s == [] then []
    else if s[0] == '\r' then "\n" + Universal(if |s| > 1 && s[1] == '\n' then s[2..] else s[1..])
    else [s[0]] + Universal(s[1..])
  }

  /** No carriage return survives the translation. */
  lemma {:induction false} UniversalNoReturn(s: string)
    ensures '\r' !in Universal(s)
    decreases |s|
  {
    if s != [] {
      if s[0] == '\r' {
        UniversalNoReturn(if |s| > 1 && s[1] == '\n' then s[2..] else s[1..]);
      } else {
        UniversalNoReturn(s[1..]);
      }
    }
  }

  /** Text without a carriage return is read unchanged. */
  lemma {:induction false} UniversalWithoutReturn(s: string)
    requires '\r' !in s
    ensures Universal(s) == s
    decreases |s|
  {
    if s != [] {
      assert s[0] != '\r';
      UniversalWithoutReturn(s[1..]);
    }
  }

  /** Reading the text back is the identity on what was read once. */
  lemma UniversalIdempotent(s: string)
    ensures Universal(Universal(s)) == Universal(s)
  {
    UniversalNoReturn(s);
    UniversalWithoutReturn(Universal(s));
  }

  /** A Windows and an old Mac line end both read as `\n`. */
  lemma UniversalLineEnds()
    ensures Universal("a\r\nb\rc") == "a\nb\nc"
  {
    assert Universal("c") == "c";
    assert Universal("\rc") == "\nc" by { assert "\rc"[1..] == "c"; }
    assert Universal("b\rc") == "b\nc" by { assert "b\rc"[1..] == "\rc"; }
    assert Universal("\r\nb\rc") == "\nb\nc" by { assert "\r\nb\rc"[2..] == "b\rc"; }
    assert "a\r\nb\rc"[1..] == "\r\nb\rc";
  }

  /** `f.read().strip()` of a file opened with `errors='ignore'`: its
      decoded text, newline-translated and stripped. */
  function ReadText(f: File): string { Strip(Universal(f.content)) }

  /** `f"{filename}:{content}"` with the content read and stripped. */
  function Entry(f: File): string { f.name + ":" + ReadText(f) }

  /** The entries of the files whose stripped content is not empty. */
  function Entries(files: seq<File>): seq<string>
  {
    if files == [] then []
    else
      var last := files[|files| - 1];
      Entries(files[..|files| - 1]) + (if ReadText(last) != [] then [Entry(last)] else [])
  }

  function LowerKey(e: string): seq<int> { Codes(Lower(e)) }

  /** What `process_files_for_hash` returns. */
  function HashInput(files: seq<File>): string
  {
    Join(SortBy(Entries(ByName(files)), LowerKey), "\n")
  }

  /** `process_files_for_hash`: the `file_contents` loop over the sorted
      listing, the sort by lower-cased entry and the join. */
  method ProcessFilesForHash(files: seq<File>) returns (text: string)
    ensures text == HashInput(files)
  {
    var sorted := ByName(files);
    var contents: seq<string> := [];
    var i := 0;
    while i < |sorted|
      invariant i <= |sorted|
      invariant contents == Entries(sorted[..i])
    {
      var content := ReadText(sorted[i]);
      if content != [] {
        contents := contents + [sorted[i].name + ":" + content];
      }
      assert sorted[..i + 1][..i] == sorted[..i];
      i := i + 1;
    }
    assert sorted[..i] == sorted;
    text := Join(SortBy(contents, LowerKey), "\n");
  }

  /** An entry exists exactly for each file with non-blank content. */
  lemma EntriesOf(files: seq<File>)
    ensures forall e :: e in Entries(files) <==> exists i :: 0 <= i < |files| && ReadText(files[i]) != [] && e == Entry(files[i])
  {
    forall e ensures e in Entries(files) <==> exists i :: 0 <= i < |files| && ReadText(files[i]) != [] && e == Entry(files[i]) {
      if e in Entries(files) {
        var i := EntrySource(files, e);
      }
      if exists i :: 0 <= i < |files| && ReadText(files[i]) != [] && e == Entry(files[i]) {
        var i :| 0 <= i < |files| && ReadText(files[i]) != [] && e == Entry(files[i]);
        EntryIn(files, i);
      }
    }
  }

  lemma {:induction false} EntryIn(files: seq<File>, i: nat)
    requires i < |files| && ReadText(files[i]) != []
    ensures Entry(files[i]) in Entries(files)
    decreases |files|
  {
    var init := files[..|files| - 1];
    if i < |init| {
      EntryIn(init, i);
      assert init[i] == files[i];
    }
  }

  /** The file an entry comes from. */
  lemma {:induction false} EntrySource(files: seq<File>, e: string) returns (i: nat)
    requires e in Entries(files)
    ensures i < |files| && ReadText(files[i]) != [] && e == Entry(files[i])
    decreases |files|
  {
    var init := files[..|files| - 1];
    if e in Entries(init) {
      i := EntrySource(init, e);
      assert init[i] == files[i];
    } else {
      i := |files| - 1;
    }
  }

  /** The hashed lines are the entries of the non-blank files, sorted by
      their lower-cased text, entries equal when lower-cased keeping their
      name order. */
  lemma HashLines(files: seq<File>)
    ensures var r := SortBy(Entries(ByName(files)), LowerKey);
      HashInput(files) == Join(r, "\n") &&
      multiset(r) == multiset(Entries(ByName(files))) && SortedBy(r, LowerKey) &&
      (forall v :: WithKey(r, LowerKey, v) == WithKey(Entries(ByName(files)), LowerKey, v))
    ensures forall f :: f in files && ReadText(f) != [] ==> Entry(f) in Entries(ByName(files))
    ensures forall e :: e in Entries(ByName(files)) ==> exists f :: f in files && ReadText(f) != [] && e == Entry(f)
  {
    var es := Entries(ByName(files));
    SortByPermutes(es, LowerKey);
    SortBySorted(es, LowerKey);
    forall v ensures WithKey(SortBy(es, LowerKey), LowerKey, v) == WithKey(es, LowerKey, v) {
      SortByStable(es, LowerKey, v);
    }
    var sorted := ByName(files);
    SortByPermutes(files, (f: File) => Codes(f.name));
    assert forall f :: f in files <==> f in sorted by {
      forall f ensures f in files <==> f in sorted {
        assert f in files <==> f in multiset(files);
        assert f in sorted <==> f in multiset(sorted);
      }
    }
    EntriesOf(sorted);
    forall f | f in files && ReadText(f) != [] ensures Entry(f) in es {
      var i :| 0 <= i < |sorted| && sorted[i] == f;
    }
  }

  // ---------------------------------------------------------------------------
  // the handler

  datatype Outcome =
    | Sha256Of(text: string, moved: seq<string>, renamed: seq<(string, string)>)
    | Failure(message: string)

  /** `_process_file_move_rename_hash` up to the digest, with the rename
      corrected: `walk` is the extracted files in walk order. */
  method MoveRenameHash(path: Option<string>, walk: seq<File>) returns (r: Outcome)
    ensures !IsZipPath(path) ==> r == Failure(INVALID_ZIP)
    ensures IsZipPath(path) ==> r.Sha256Of? && r.moved == Moved(Names(walk)) && |r.renamed| == |walk|
    ensures IsZipPath(path) ==> forall i :: 0 <= i < |walk| ==>
      r.renamed[i] == (r.moved[i], IncrementDigits(r.moved[i]))
    ensures IsZipPath(path) ==>
      r.text == HashInput(seq(|walk|, i requires 0 <= i < |walk| => File(IncrementDigits(r.moved[i]), walk[i].content)))
  {
    if !IsZipPath(path) {
      return Failure(INVALID_ZIP);
    }
    var moved := MoveAll(Names(walk));
    var placed := seq(|walk|, i requires 0 <= i < |walk| => File(moved[i], walk[i].content));
    var renamed, pairs := RenameAll(placed);
    assert renamed == seq(|walk|, i requires 0 <= i < |walk| => File(IncrementDigits(moved[i]), walk[i].content));
    var text := ProcessFilesForHash(renamed);
    return Sha256Of(text, moved, pairs);
  }

  /** The files hashed have distinct names, so none is lost on the way. */
  lemma HashedFilesDistinct(walk: seq<File>)
    ensures var moved := Moved(Names(walk));
      DistinctNames(seq(|walk|, i requires 0 <= i < |walk| => File(IncrementDigits(moved[i]), walk[i].content)))
  {
    var moved := Moved(Names(walk));
    MovedDistinct(Names(walk));
    var placed := seq(|walk|, i requires 0 <= i < |walk| => File(moved[i], walk[i].content));
    RenamedDistinct(placed, seq(|walk|, i requires 0 <= i < |walk| => File(IncrementDigits(moved[i]), walk[i].content)));
  }
}
