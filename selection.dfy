/**
 * Two selection rules and a filtered sum:
 *
 *  - the image handler keeps the first compression strategy whose output
 *    is between 1 and 1499 bytes, and otherwise the first smallest one;
 *  - the encoding handler picks how each archive member is read from its
 *    name, and sums the `value` column over the rows whose `symbol` is one
 *    of three target symbols, file by file.
 */
module Selection {
  import opened Text
  import opened Archive

  // ---------------------------------------------------------------------------
  // image compression

  datatype Strategy = Strategy(name: string, size: nat)

  const DITHERED := "Dithered 2-Color Palette"
  const BLACK_AND_WHITE := "Black and White"
  const MINIMAL_PNG := "Minimal PNG"
  const TINY_RESIZE := "Tiny Resize"
  const SIZE_LIMIT := 1500

  /** The `compression_strategies` list, in the order the handler tries them. */
  function Strategies(dithered: nat, blackAndWhite: nat, minimal: nat, tiny: nat): seq<Strategy>
  {
    [Strategy(DITHERED, dithered), Strategy(BLACK_AND_WHITE, blackAndWhite),
     Strategy(MINIMAL_PNG, minimal), Strategy(TINY_RESIZE, tiny)]
  }

  predicate Small(s: Strategy) { 0 < s.size < SIZE_LIMIT }

  /** `valid_compressions` */
  function SmallOnes(s: seq<Strategy>): (r: seq<Strategy>)
    ensures forall k :: 0 <= k < |r| ==> Small(r[k]) && r[k] in s
    ensures (r == []) <==> forall k :: 0 <= k < |s| ==> !Small(s[k])
  {
    if s == [] then []
    else if Small(s[0]) then [s[0]] + SmallOnes(s[1..])
    else
      var r := SmallOnes(s[1..]);
      assert forall k :: 0 <= k < |r| ==> r[k] in s[1..];
      r
  }

  /** The first small one heads the list. */
  lemma {:induction false} SmallOnesHead(s: seq<Strategy>)
    ensures SmallOnes(s) != [] ==> exists i :: 0 <= i < |s| && SmallOnes(s)[0] == s[i] && forall j :: 0 <= j < i ==> !Small(s[j])
  {
    if s != [] && !Small(s[0]) && SmallOnes(s) != [] {
      SmallOnesHead(s[1..]);
      var i :| 0 <= i < |s| - 1 && SmallOnes(s[1..])[0] == s[1..][i] && forall j :: 0 <= j < i ==> !Small(s[1..][j]);
      assert SmallOnes(s)[0] == s[i + 1];
      assert forall j :: 1 <= j < i + 1 ==> !Small(s[j]) by {
        forall j | 1 <= j < i + 1 ensures !Small(s[j]) { assert s[j] == s[1..][j - 1]; }
      }
    } else if s != [] && Small(s[0]) {
      assert SmallOnes(s)[0] == s[0];
    }
  }

  /** `min(strategies, key=size)`: the first entry of least size. */
  function Smallest(s: seq<Strategy>): (i: nat)
    requires |s| > 0
    ensures i < |s| && forall k :: 0 <= k < |s| ==> s[i].size <= s[k].size
    ensures forall k :: 0 <= k < i ==> s[k].size > s[i].size
  {
    if |s| == 1 then 0
    else
      var j := Smallest(s[..|s| - 1]);
      if s[|s| - 1].size < s[j].size then |s| - 1 else j
  }

  /** `best_compression` */
  function Best(s: seq<Strategy>): Strategy
    requires |s| > 0
  {
    var valid := SmallOnes(s);
    if valid == [] then s[Smallest(s)] else valid[0]
  }

  /** Entry `i` is the first small one when there is one, else the first
      of least size. */
  predicate RightChoice(s: seq<Strategy>, i: nat)
    requires i < |s|
  {
    if exists k :: 0 <= k < |s| && Small(s[k])
    then Small(s[i]) && forall j :: 0 <= j < i ==> !Small(s[j])
    else (forall k :: 0 <= k < |s| ==> s[i].size <= s[k].size) && forall j :: 0 <= j < i ==> s[j].size > s[i].size
  }

  /** The choice is always one of the strategies: the first small one when
      there is one, else the first of least size. */
  lemma BestChoice(s: seq<Strategy>)
    requires |s| > 0
    ensures exists i :: 0 <= i < |s| && Best(s) == s[i] && RightChoice(s, i)
  {
    var valid := SmallOnes(s);
    SmallOnesHead(s);
    if valid != [] {
      var i :| 0 <= i < |s| && valid[0] == s[i] && forall j :: 0 <= j < i ==> !Small(s[j]);
      assert Best(s) == s[i] && Small(s[i]);
    } else {
      var i := Smallest(s);
      assert Best(s) == s[i];
    }
  }

  /** Two sets of four strategies. When all four come out at 1500 bytes or
      more, the smallest wins, the earlier one on a tie. When some are
      smaller, the first of those wins, even over a smaller later one. */
  lemma NoSmallStrategy()
    ensures Best(Strategies(2000, 1600, 1600, 1700)).name == BLACK_AND_WHITE
    ensures Best(Strategies(2000, 100, 0, 50)).name == BLACK_AND_WHITE
  {
    var s := Strategies(2000, 1600, 1600, 1700);
    assert SmallOnes(s) == [];
    var t := Strategies(2000, 100, 0, 50);
    assert SmallOnes(t)[0] == t[1];
  }

  datatype Compression = Compressed(name: string, size: nat) | NoImage(message: string)

  const NO_IMAGE := "Invalid or missing image file"

  /** `_process_image_compression` given whether the image file exists and
      the sizes the four strategies produce. */
  function ImageCompression(fileExists: bool, dithered: nat, blackAndWhite: nat, minimal: nat, tiny: nat): (r: Compression)
    ensures !fileExists <==> r == NoImage(NO_IMAGE)
    ensures r.Compressed? ==> (0 < r.size < SIZE_LIMIT <==>
      (0 < dithered < SIZE_LIMIT || 0 < blackAndWhite < SIZE_LIMIT || 0 < minimal < SIZE_LIMIT || 0 < tiny < SIZE_LIMIT))
    ensures r.Compressed? ==> r.name in [DITHERED, BLACK_AND_WHITE, MINIMAL_PNG, TINY_RESIZE]
    ensures r.Compressed? ==>
      var s := Strategies(dithered, blackAndWhite, minimal, tiny);
      exists i :: 0 <= i < |s| && RightChoice(s, i) && r == Compressed(s[i].name, s[i].size)
  {
    if !fileExists then NoImage(NO_IMAGE)
    else
      var s := Strategies(dithered, blackAndWhite, minimal, tiny);
      BestChoice(s);
      assert s[0].size == dithered && s[1].size == blackAndWhite && s[2].size == minimal && s[3].size == tiny;
      assert (exists k :: 0 <= k < |s| && Small(s[k])) <==> Small(s[0]) || Small(s[1]) || Small(s[2]) || Small(s[3]);
      var b := Best(s);
      Compressed(b.name, b.size)
  }

  // ---------------------------------------------------------------------------
  // encodings and the symbol sum

  datatype Encoding = Cp1252 | Utf8 | Utf16

  /** How a member is read: `.csv` (case-sensitive) as comma-separated,
      CP-1252 when its name contains `data1.csv`, else UTF-8; `.txt` as
      tab-separated UTF-16; anything else is skipped. */
  function ReadAs(filename: string): (r: Option<(Encoding, char)>)
    ensures r.None? <==> !EndsWith(filename, ".csv") && !EndsWith(filename, ".txt")
    ensures r == Some((Cp1252, ',')) <==> EndsWith(filename, ".csv") && Contains(filename, "data1.csv")
    ensures r == Some((Utf8, ',')) <==> EndsWith(filename, ".csv") && !Contains(filename, "data1.csv")
    ensures r == Some((Utf16, '\t')) <==> !EndsWith(filename, ".csv") && EndsWith(filename, ".txt")
  {
    if EndsWith(filename, ".csv") then Some((if Contains(filename, "data1.csv") then Cp1252 else Utf8, ','))
    else if EndsWith(filename, ".txt") then Some((Utf16, '\t'))
    else None
  }

  /** '†', 'Š' and '…' */
  const TARGETS: seq<string> := ["\U{2020}", "\U{0160}", "\U{2026}"]

  datatype Row = Row(symbol: string, value: int)

  /** A member as it is opened and as pandas would parse it: its table, the
      error reading it raised, or the error `zip_ref.open` raised before its
      name was looked at. */
  datatype Table =
    | Table(columns: seq<string>, rows: seq<Row>)
    | Unreadable(error: string)
    | Unopenable(error: string)

  datatype Member = Member(filename: string, table: Table)

  datatype Detail = Summed(filename: string, total: int, matched: nat) | Errored(filename: string, error: string)

  /** `filtered_df['value'].sum()` and `len(filtered_df)` */
  function MatchedSum(rows: seq<Row>): int
  {
    if rows == [] then 0
    else MatchedSum(rows[..|rows| - 1]) + (if rows[|rows| - 1].symbol in TARGETS then rows[|rows| - 1].value else 0)
  }

  function MatchedCount(rows: seq<Row>): nat
  {
    if rows == [] then 0
    else MatchedCount(rows[..|rows| - 1]) + (if rows[|rows| - 1].symbol in TARGETS then 1 else 0)
  }

  /** What one member adds to the total and to `details`. */
  function Contribution(m: Member): (int, seq<Detail>)
  {
    if m.table.Unopenable? then (0, [Errored(m.filename, m.table.error)])
    else if ReadAs(m.filename).None? then (0, [])
    else match m.table
      case Unreadable(e) => (0, [Errored(m.filename, e)])
      case Table(columns, rows) =>
        if "symbol" !in columns || "value" !in columns then (0, [])
        else (MatchedSum(rows), [Summed(m.filename, MatchedSum(rows), MatchedCount(rows))])
  }

  function Total(members: seq<Member>): int
  {
    if members == [] then 0 else Total(members[..|members| - 1]) + Contribution(members[|members| - 1]).0
  }

  function Details(members: seq<Member>): seq<Detail>
  {
    if members == [] then [] else Details(members[..|members| - 1]) + Contribution(members[|members| - 1]).1
  }

  /** The loop over `zip_ref.namelist()` accumulating `total_sum` and
      `details`; a member that fails is recorded and the loop goes on. */
  method SymbolSum(members: seq<Member>) returns (total: int, details: seq<Detail>)
    ensures total == Total(members) && details == Details(members)
  {
    total, details := 0, [];
    var i := 0;
    while i < |members|
      invariant i <= |members|
      invariant total == Total(members[..i]) && details == Details(members[..i])
    {
      var m := members[i];
      assert members[..i + 1][..i] == members[..i];
      if m.table.Unopenable? {
        details := details + [Errored(m.filename, m.table.error)];
      } else if ReadAs(m.filename).Some? {
        match m.table {
          case Unreadable(e) =>
            details := details + [Errored(m.filename, e)];
          case Table(columns, rows) =>
            if "symbol" in columns && "value" in columns {
              var fileTotal := MatchedSum(rows);
              total := total + fileTotal;
              details := details + [Summed(m.filename, fileTotal, MatchedCount(rows))];
            }
        }
      }
      i := i + 1;
    }
    assert members[..i] == members;
  }

  /** Rows with other symbols add nothing. */
  lemma {:induction false} MatchedSumOnlyTargets(rows: seq<Row>, other: seq<Row>)
    requires forall k :: 0 <= k < |other| ==> other[k].symbol !in TARGETS
    ensures MatchedSum(rows + other) == MatchedSum(rows)
    ensures MatchedCount(rows + other) == MatchedCount(rows)
    decreases |other|
  {
    if other == [] {
      assert rows + other == rows;
    } else {
      assert (rows + other)[..|rows + other| - 1] == rows + other[..|other| - 1];
      MatchedSumOnlyTargets(rows, other[..|other| - 1]);
    }
  }

  /** The total is the sum of the members' totals: it splits over any split
      of the archive, and a member that is skipped, unreadable or missing a
      column adds nothing. */
  lemma {:induction false} TotalAppend(a: seq<Member>, b: seq<Member>)
    ensures Total(a + b) == Total(a) + Total(b)
    ensures Details(a + b) == Details(a) + Details(b)
    decreases |b|
  {
    if b == [] {
      assert a + b == a;
    } else {
      assert (a + b)[..|a + b| - 1] == a + b[..|b| - 1];
      TotalAppend(a, b[..|b| - 1]);
    }
  }

  lemma SkippedAddNothing(m: Member)
    requires ReadAs(m.filename).None? || m.table.Unreadable? || m.table.Unopenable? ||
      (m.table.Table? && ("symbol" !in m.table.columns || "value" !in m.table.columns))
    ensures Total([m]) == 0
  {
    assert [m][..0] == [];
  }

  /** A member that cannot be opened is recorded with its error whatever
      its name, since `zip_ref.open` runs before the extension test; a member
      that opens and is neither `.csv` nor `.txt` leaves no trace. */
  lemma MemberRecorded(m: Member)
    ensures m.table.Unopenable? ==> Details([m]) == [Errored(m.filename, m.table.error)]
    ensures !m.table.Unopenable? && ReadAs(m.filename).None? ==> Details([m]) == []
    ensures m.table.Unreadable? && ReadAs(m.filename).Some? ==> Details([m]) == [Errored(m.filename, m.table.error)]
  {
    assert [m][..0] == [];
  }

  datatype Outcome = Answer(answer: string) | Failure(message: string)

  /** `_process_unicode_data` on the archive's members. */
  method UnicodeData(path: Option<string>, members: seq<Member>) returns (r: Outcome)
    ensures !IsZipPath(path) ==> r == Failure(INVALID_ZIP)
    ensures IsZipPath(path) ==> r == Answer(IntToString(Total(members)))
  {
    if !IsZipPath(path) {
      return Failure(INVALID_ZIP);
    }
    var total, details := SymbolSum(members);
    return Answer(IntToString(total));
  }
}
