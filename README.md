# Intelligent assignment router: a verified model of its deterministic core

`IntelligentAssignmentRouter` takes a question and often an uploaded file.
It asks a language model to classify the question with one of eighteen
labels and then dispatches it to a handler for that label. Each handler
surrounds a small deterministic kernel with calls to outside services: the
language model, HTTP, subprocesses, the file system, pandas, SQLite and
PIL. The kernel is string, sequence, integer or date logic. This project
models the dispatch and those kernels in Dafny and proves what they compute.

The language model's replies, the archives' member names and contents, the
directory listings and the sizes PIL produces are all inputs to the model.

Modules, one per concern:

- `Text`: Python string operations on `seq<char>`: `strip`, `upper`/`lower`,
  `in`, `split`/`join`, `\d+` runs, `int()` and `str()` on integers.
- `Sorting`: one stable insertion sort by a key in `seq<int>`, compared
  lexicographically. It stands for Python's `sorted(..., key=...)` and is
  proved to be a permutation, sorted and stable.
- `Router`: `route_question`'s classification and its ordered `if`/`elif`
  chain of substring tests.
- `Formula`, `Sheets`, `Excel`: the spreadsheet simulators. Two formula
  regexes, `SEQUENCE`/`ARRAY_CONSTRAIN`/`SUM`, and `SORTBY`/`TAKE` over the
  brace arrays.
- `Dates`: the Wednesday counter. It has a proleptic-Gregorian day ordinal,
  `strptime('%Y-%m-%d')` validation and the day-by-day loop, which is proved
  equal to a closed form.
- `MultiCursor`: the `key=value` lines gathered into an insertion-ordered
  Python dict.
- `Compare`: the positional line-difference count.
- `Rewrite`: the `IITM` to `IIT Madras` rewrite and the text that is hashed.
- `MoveRename`: the `base_counter.ext` unique-name loop, the digit increment,
  the rename pass and the `name:content` lines that are hashed.
- `Attributes`: the file-attribute filter and its size sum.
- `Selection`: the image-compression choice, each archive member's encoding
  choice, and the sum over the target symbols.
- `Archive`: the `.zip` path check, the first `.csv` member, and the archive
  members.
- `Extract`: the regex extractors of the Docker, httpie and CLI handlers.

Assumptions of the model:

- `upper`, `lower`, `strip`, `isspace` and the regex classes `\d` and `\s`
  are modelled on ASCII. Python's versions are Unicode-aware.
  - The whitespace set is ASCII's `str.isspace` set: space, `\t`, `\n`,
    `\v`, `\f`, `\r` and U+001C..U+001F.
  - Upper- and lower-casing change only `a`-`z` and `A`-`Z`.
- Strings are compared by code point. This matches Python's `str` order.
- Integers are unbounded, as Python's are. CPython's one limit on them that a
  handler meets is modelled: `int()` of a decimal string with more than 4300
  digits raises `ValueError` (`Text.MAX_STR_DIGITS`).
- A `sha256` digest is opaque. The model produces the text the source hashes
  (`Sha256Of(text)`), built from each file's decoded text as that handler
  reads it. The replacement handler keeps line ends as they are
  (`newline=''`). The move/rename handler reads in universal-newline mode,
  so `\r\n` and `\r` become `\n` (`MoveRename.ReadText`).

## Model

| member | source | states |
|---|---|---|
| Text.Strip | intelligent_assignment_router.py:80 | `strip()` removes exactly the leading and the trailing whitespace run. The result is a slice of the input that neither starts nor ends with whitespace. |
| Text.StripNoEdgeSpace | intelligent_assignment_router.py:477 | A string with no whitespace at either end is left unchanged by `strip()`. |
| Text.ContainsIffMatch | intelligent_assignment_router.py:83 | Python's `p in s` holds exactly when `p` occurs at some position of `s`. |
| Text.IndexOf | intelligent_assignment_router.py:808 | Returns the first position of the character, or the length when it is absent. |
| Text.Split | intelligent_assignment_router.py:639-640 | `s.split(c)` has at least one part, and no part contains `c`. |
| Text.SplitAtFirst | intelligent_assignment_router.py:639-640 | Splitting at a present separator gives the part before its first occurrence, followed by the split of the remainder. |
| Text.JoinSplit | intelligent_assignment_router.py:639-640 | Joining the parts of `s.split(c)` with `c` gives `s` back. |
| Text.SplitJoin | intelligent_assignment_router.py:639-640 | Splitting a join of `c`-free parts gives the parts back. |
| Text.DigitRuns | intelligent_assignment_router.py:370 | In `re.findall(r'\d+', s)`, every run is a non-empty string of digits. |
| Text.DigitRunsSplit | intelligent_assignment_router.py:370 | A non-digit between two texts separates their runs: the runs of the whole are the runs of each part, concatenated. |
| Text.NatToString | intelligent_assignment_router.py:950 | `str(n)` of a natural number is a non-empty digit string. |
| Text.DecimalOfNatToString | intelligent_assignment_router.py:950 | Reading `str(n)` back as a decimal gives `n`. |
| Text.NatToStringInjective | intelligent_assignment_router.py:950 | Distinct numbers print differently. |
| Text.ParseInt | intelligent_assignment_router.py:639-640 | `int(x.strip())` accepts a text that is non-empty once stripped: an optional sign, then digits with single underscores between them, and at most 4300 digits. Otherwise it is the `ValueError`. |
| Text.ParseIntToString | intelligent_assignment_router.py:639-640 | `int(str(i)) == i` for every integer of at most 4300 digits, negative ones included. A longer numeral is refused. |
| Text.ParseUnsigned | intelligent_assignment_router.py:639-640 | `int()` of a digit string is its decimal value, or the `ValueError` past 4300 digits. |
| Text.ParseMinus | intelligent_assignment_router.py:639-640 | `int()` of `-` followed by a digit string is the negated decimal value, or the `ValueError` past 4300 digits. |
| Text.ParseDigitRun | intelligent_assignment_router.py:382-385 | `int()` of a `\d+` run is its decimal value when it has at most 4300 digits, and the `ValueError` otherwise. |
| Text.Upper | intelligent_assignment_router.py:80 | Defined per character: `upper()` on ASCII. Used by `Router.Classification`; `Archive.LowerOfUpper` relates it to `Lower`. |
| Text.Lower | intelligent_assignment_router.py:756 | Defined per character: `lower()` on ASCII. Its properties used by the case-insensitive tests are `Archive.ZipPathIgnoresCase` and `Archive.LowerOfUpper`. |
| Text.Join | intelligent_assignment_router.py:1021 | `sep.join(parts)`. `Text.JoinSplit` and `Text.SplitJoin` prove it inverse to `split`. |
| Text.JoinSnoc | intelligent_assignment_router.py:1158 | Joining one more part appends the separator and the part. |
| Text.JoinUnseparated | intelligent_assignment_router.py:1021 | `''.join` appends each part in turn. |
| Text.IntToString | intelligent_assignment_router.py:878 | `str(i)` for an integer: a `-` for a negative one, then the digits. `Text.ParseIntToString` proves `int()` reads it back. |
| Text.Contains | intelligent_assignment_router.py:83 | Python's `p in s`. `Text.ContainsIffMatch` proves it true exactly when `p` occurs at some position. |
| Text.EndsWith | intelligent_assignment_router.py:836 | `s.endswith(p)`: the last \|p\| characters are `p`. `Archive.ZipPathIgnoresCase` and `Selection.ReadAs` build on it. |
| Text.CodesInjective | intelligent_assignment_router.py:765 | Strings with equal code-point keys are equal, so sorting by name orders strings exactly. |
| Sorting.LexLeTotal | intelligent_assignment_router.py:655 | The key order is total. |
| Sorting.LexLeAntisym | intelligent_assignment_router.py:655 | The key order is antisymmetric. |
| Sorting.LexLeTrans | intelligent_assignment_router.py:655 | The key order is transitive. |
| Sorting.SortByPermutes | intelligent_assignment_router.py:655 | `sorted` returns a permutation of its input. |
| Sorting.SortBy | intelligent_assignment_router.py:655 | `sorted(s, key=...)` as a stable insertion sort on key sequences. `Sorting.SortByPermutes`, `Sorting.SortBySorted` and `Sorting.SortByStable` prove it a stable, sorted permutation. |
| Sorting.SortBySorted | intelligent_assignment_router.py:655 | `sorted` returns a list that is non-decreasing in the key. |
| Sorting.SortByStable | intelligent_assignment_router.py:655 | `sorted` is stable: the elements with any one key value keep their input order. |
| Sorting.FirstLeast | intelligent_assignment_router.py:655-658 | Returns the first position whose key is least. |
| Sorting.SortByHead | intelligent_assignment_router.py:655-658 | The head of the sorted list is the first element of least key. |
| Sorting.SortedUnique | intelligent_assignment_router.py:761 | With distinct keys, only one permutation is sorted. |
| Router.RouteFirstMatch | intelligent_assignment_router.py:80-118 | When branch `k` is the first branch whose label (or one of its two labels) is in the stripped, upper-cased reply, the question goes to branch `k`'s handler. |
| Router.Classification | intelligent_assignment_router.py:80 | `classification_response.text.strip().upper()`. `Router.RouteFirstMatch` states what the chain does with it. |
| Router.Chain | intelligent_assignment_router.py:83-126 | The `if`/`elif` chain on the classification. `Router.RouteFirstMatch` and `Router.RouteUnrecognized` state its first-match and fall-through behaviour. |
| Router.BranchLabels | intelligent_assignment_router.py:83-118 | The labels each branch of the chain tests, in branch order, two for the `GENERAL_PROCESSING`/`UNKNOWN` branch. `Router.RouteFirstMatch` uses them. |
| Router.BranchHandler | intelligent_assignment_router.py:83-118 | The handler each branch calls. `Router.RouteFirstMatch` states that the first branch whose label occurs decides. |
| Router.Route | intelligent_assignment_router.py:79-126 | `route_question` after the classification call: the chain applied to the stripped, upper-cased reply. Its properties are the `Router.Route*` lemmas and the per-label lemmas below. |
| Router.FirstHolding | intelligent_assignment_router.py:83-118 | When any branch holds, there is a first one that holds. |
| Router.RouteUnrecognized | intelligent_assignment_router.py:121-126 | The error envelope is returned exactly when no label occurs in the classification, and it echoes the classification. |
| Router.NoBranchHolds | intelligent_assignment_router.py:121-126 | With no label present, the result is the "Unable to determine processing method" envelope carrying the classification. |
| Router.ZipLabelWins | intelligent_assignment_router.py:83-84 | A reply containing `ZIP_CSV_EXTRACT` goes to the ZIP handler, whatever else it contains. |
| Router.UnknownBeatsLaterLabels | intelligent_assignment_router.py:101-118 | With no earlier branch holding, `UNKNOWN` sends the question to general processing, ahead of `DATE_RANGE_CALCULATION` and every later label. |
| Router.LabelRoutesToItsBranch | intelligent_assignment_router.py:83-118 | A reply that is exactly one of the chain's labels goes to that label's handler, because no earlier label occurs in it. |
| Router.ZipCsvExtractRoutes | intelligent_assignment_router.py:83-84 | `ZIP_CSV_EXTRACT` is routed to the ZIP/CSV handler. |
| Router.HttpieRequestRoutes | intelligent_assignment_router.py:85-86 | `HTTPIE_REQUEST` is routed to the httpie handler. |
| Router.NpxPrettierSha256Routes | intelligent_assignment_router.py:87-88 | `NPX_PRETTIER_SHA256` is routed to the prettier handler. |
| Router.GoogleSheetsFormulaRoutes | intelligent_assignment_router.py:89-90 | `GOOGLE_SHEETS_FORMULA` is routed to the Google Sheets handler. |
| Router.JsonSortRoutes | intelligent_assignment_router.py:91-92 | `JSON_SORT` is routed to the JSON-sort handler. |
| Router.MultiCursorJsonRoutes | intelligent_assignment_router.py:93-94 | `MULTI_CURSOR_JSON` is routed to the multi-cursor handler. |
| Router.UnicodeDataProcessingRoutes | intelligent_assignment_router.py:95-96 | `UNICODE_DATA_PROCESSING` is routed to the encoding handler. |
| Router.FileComparisonRoutes | intelligent_assignment_router.py:97-98 | `FILE_COMPARISON` is routed to the comparison handler. |
| Router.ExcelFormulaProcessingRoutes | intelligent_assignment_router.py:99-100 | `EXCEL_FORMULA_PROCESSING` is routed to the Excel handler. |
| Router.GeneralProcessingRoutes | intelligent_assignment_router.py:101-102 | `GENERAL_PROCESSING` is routed to general processing. |
| Router.UnknownRoutes | intelligent_assignment_router.py:101-102 | `UNKNOWN` shares the general-processing branch. |
| Router.DateRangeCalculationRoutes | intelligent_assignment_router.py:103-104 | `DATE_RANGE_CALCULATION` is routed to the date handler. |
| Router.CliCommandSimulationRoutes | intelligent_assignment_router.py:105-106 | `CLI_COMMAND_SIMULATION` is routed to the CLI handler. |
| Router.FileReplacementSha256Routes | intelligent_assignment_router.py:107-108 | `FILE_REPLACEMENT_SHA256` is routed to the replacement handler. |
| Router.FileAttributesListingRoutes | intelligent_assignment_router.py:109-110 | `FILE_ATTRIBUTES_LISTING` is routed to the attributes handler. |
| Router.SqlSalesCalculationRoutes | intelligent_assignment_router.py:111-112 | `SQL_SALES_CALCULATION` is routed to the SQL handler. |
| Router.MarkdownDocumentationRoutes | intelligent_assignment_router.py:113-114 | `MARKDOWN_DOCUMENTATION` is routed to the markdown handler. |
| Router.ImageCompressionRoutes | intelligent_assignment_router.py:115-116 | `IMAGE_COMPRESSION` is routed to the image handler. |
| Router.DockerImagePushRoutes | intelligent_assignment_router.py:117-118 | `DOCKER_IMAGE_PUSH` is routed to the Docker handler. |
| Router.MoveRenameLabelUnrouted | intelligent_assignment_router.py:119-126 | The branch for `FILE_MOVE_RENAME_HASH` is commented out, so that label gets the error envelope. |
| Formula.FirstFormula | intelligent_assignment_router.py:331 | `re.search` scans from the left: the result is the first position where `=([^)]+\))` matches, or the end. |
| Formula.GroupAt | intelligent_assignment_router.py:331 | The group of a match is at least two characters long. It ends at the first `)` after the `=` and holds no other `)`. |
| Formula.FormulaMatch | intelligent_assignment_router.py:331-336 | There is no match exactly when no position matches. Otherwise the result is the group of the leftmost match. |
| Formula.MatchIsGroup | intelligent_assignment_router.py:331 | A `=` followed by a `)`-free text and a `)` matches there, with exactly that text as its group. |
| Formula.FormulaBody | intelligent_assignment_router.py:619-621 | `=([^)]+)\)` matches exactly when the Sheets pattern does. Its group is that match without its closing `)`. |
| Sheets.Sequence | intelligent_assignment_router.py:341-355 | `SEQUENCE` has `rows` rows of `cols` cells each, and cell (r, c) is `start + r*step + c*step`. |
| Sheets.ArrayConstrain | intelligent_assignment_router.py:357-366 | `ARRAY_CONSTRAIN` keeps min(|a|, rows) rows, each cut to min(its length, cols) cells that equal the original cells. |
| Sheets.ConstrainSequence | intelligent_assignment_router.py:351-366 | Constraining a sequence gives the sequence of the constrained size. |
| Sheets.TriangleClosed | intelligent_assignment_router.py:402 | 2·(0 + 1 + ... + (n-1)) = n·(n-1). |
| Sheets.RowSumClosed | intelligent_assignment_router.py:402 | A row sums to `cols*first + step*T(cols)`. |
| Sheets.SumSequence | intelligent_assignment_router.py:402 | The whole sequence sums to `rows*cols*start + step*(cols*T(rows) + rows*T(cols))`. |
| Sheets.CornerSum | intelligent_assignment_router.py:388-402 | The hard-coded 1×10 corner sums to `Sheets.Corner`: `r*c*start + step*r*T(c)`, with r = min(rows, 1) and c = min(cols, 10). |
| Sheets.FullCornerAnswer | intelligent_assignment_router.py:388-402 | With rows ≥ 1 and cols ≥ 10, the answer is `10*start + 45*step`. |
| Sheets.ExampleAnswer | intelligent_assignment_router.py:369-402 | `SEQUENCE(100, 100, 15, 7)` constrained to 1×10 sums to 465. |
| Sheets.GoogleSheetsAnswer | intelligent_assignment_router.py:331-385 | No formula gives the formula error, and fewer than four digit runs give the parameter error. Otherwise the outcome is that of the first four runs (`Sheets.ParametersAnswer`). |
| Sheets.ParametersAnswer | intelligent_assignment_router.py:370-402 | With four digit runs, the caught `ValueError` comes exactly when `int()` refuses one of the first four. Otherwise the answer is the corner sum with their values as (rows, cols, start, step). |
| Sheets.GoogleSheets | intelligent_assignment_router.py:329-454 | The handler as a function of the question. `Sheets.GoogleSheetsAnswer` and `Sheets.ParametersAnswer` state its cases. |
| Sheets.FromParameters | intelligent_assignment_router.py:381-402 | The handler once four runs are found: `int()` of each, then the constrained sum. `Sheets.ParametersAnswer` gives it in closed form. |
| Sheets.SumAll | intelligent_assignment_router.py:402 | `sum(sum(row) for row in a)`. `Sheets.SumSequence` and `Sheets.CornerSum` give it in closed form. |
| Excel.BraceGroupsShape | intelligent_assignment_router.py:626 | Every group `re.findall(r'\{([^}]+)\}', f)` returns is non-empty and holds no `}`. |
| Excel.NoBraceNoGroups | intelligent_assignment_router.py:626 | A text with no `{` has no groups. |
| Excel.BraceGroupsOf | intelligent_assignment_router.py:626 | Take a `{`-free prefix, then `{g}` with a non-empty `}`-free `g`, then a rest. Its groups are `g` followed by the rest's groups. |
| Excel.ParseInts | intelligent_assignment_router.py:639-640 | The list comprehension succeeds exactly when every item parses with `int()`, the 4300-digit limit included. The result is the items' values, in order. |
| Excel.Indexed | intelligent_assignment_router.py:654 | `enumerate(array)` pairs each index with its value. |
| Excel.Take | intelligent_assignment_router.py:658-661 | `s[:n]` is the first min(n, |s|) elements. |
| Excel.Values | intelligent_assignment_router.py:659 | `[item[1] for item in ...]` keeps each pair's value, in order. |
| Excel.SortedPairsSpec | intelligent_assignment_router.py:654-655 | `sorted_array` is a permutation of the indexed array and non-decreasing in `sort_order[i]` (+inf past its end). It is stable, and indices past `len(sort_order)` come last. |
| Excel.Chosen | intelligent_assignment_router.py:655-658 | Returns the first index whose key is least. |
| Excel.TakeOneRow | intelligent_assignment_router.py:643-664 | `excel_take(data, order, 1, 6)` is empty for empty data. Otherwise it is exactly `[data[i]]`, for the first index `i` of least key. |
| Excel.ChosenSum | intelligent_assignment_router.py:664 | The sum of the one value taken is that value. |
| Excel.ExcelFormulaOutcome | intelligent_assignment_router.py:619-688 | No formula and fewer than two brace groups are the two named errors. An unparsable array is the caught `ValueError`. Otherwise the answer is `data[i]` for the first index of least key. |
| Excel.BraceGroupsFrom | intelligent_assignment_router.py:626 | `re.findall(r'\{([^}]+)\}', f)` scanned from a position. `Excel.BraceGroupsShape` and `Excel.BraceGroupsOf` characterize it. |
| Excel.OrderKey | intelligent_assignment_router.py:655 | The sort key: `sort_order[i]` below `len(sort_order)`, else `float('inf')`, as key sequences in which every finite key precedes +inf. |
| Excel.SortedPairs | intelligent_assignment_router.py:654-655 | `sorted(indexed_array, key=...)`. `Excel.SortedPairsSpec` proves it a stable, sorted permutation. |
| Excel.ExcelFormula | intelligent_assignment_router.py:617-688 | The handler as a function of the question. `Excel.ExcelFormulaOutcome` states its cases. |
| Excel.ExcelTake | intelligent_assignment_router.py:643-661 | `excel_take`: sort the indexed array, take `take_rows` pairs, keep their values, take `take_cols`. `Excel.TakeOneRow` states its result for one row. |
| Excel.Sum | intelligent_assignment_router.py:664 | `sum()` of a list. `Excel.ChosenSum` states it for the one value taken. |
| Dates.YearLength | intelligent_assignment_router.py:571 | Stepping a day at a time crosses a year in exactly its twelve months' days. |
| Dates.MonthTable | intelligent_assignment_router.py:571 | The twelve months total 337 days plus February. |
| Dates.OrdinalOrder | intelligent_assignment_router.py:568 | `datetime` comparison is ordinal comparison, and equal ordinals mean equal dates. |
| Dates.OrdinalBounds | intelligent_assignment_router.py:557-558 | Every valid date's ordinal lies between 1 and that of 9999-12-31. |
| Dates.WednesdaysClosedForm | intelligent_assignment_router.py:562-571 | The Wednesdays (`weekday() == 2`) in the ordinals a..b number `(b+4)/7 - (a+3)/7`. |
| Dates.CountWednesdays | intelligent_assignment_router.py:565-571 | The day-by-day loop gives the reference count of Wednesdays between the ordinals. Stepping past 9999-12-31 is the `OverflowError`. |
| Dates.WalkCases | intelligent_assignment_router.py:565-571 | The count is 0 when start > end. It follows the closed form when the end is before the last date, and raises when it is the last date. |
| Dates.DateMatchesFrom | intelligent_assignment_router.py:547 | Every match of `\d{4}-\d{2}-\d{2}` is ten characters shaped `YYYY-MM-DD`. `Dates.DateMatchesOf`, `Dates.DateMatchesRest` and `Dates.NoDateNoMatches` state which matches `findall` returns. |
| Dates.DateMatches | intelligent_assignment_router.py:547 | `re.findall(r'\d{4}-\d{2}-\d{2}', question)`. `Dates.DateMatchesOf`, `Dates.DateMatchesRest`, `Dates.NoDateNoMatches` and `Dates.TwoDates` state which matches it returns. |
| Dates.Weekday | intelligent_assignment_router.py:568 | `weekday()` from the ordinal, Monday 0, as `(ordinal + 6) % 7`. `Dates.January2022` checks it on a known month. |
| Dates.Wednesdays | intelligent_assignment_router.py:562-571 | The reference count of days with `weekday() == 2` between two ordinals. `Dates.WednesdaysClosedForm` gives it in closed form. |
| Dates.ParseDate | intelligent_assignment_router.py:557-558 | `strptime(t, '%Y-%m-%d')` accepts a `YYYY-MM-DD` exactly when the date it spells out exists: year ≥ 1, month 1-12, day within the month. It then returns that date. |
| Dates.DateMatchesSkip | intelligent_assignment_router.py:547 | The scan passes over positions where no `YYYY-MM-DD` starts. |
| Dates.DateMatchesOf | intelligent_assignment_router.py:547 | A text with no match before its first `YYYY-MM-DD` `d` has `d` as its first match, followed by the matches from just after `d`: leftmost and non-overlapping. |
| Dates.DateMatchesRest | intelligent_assignment_router.py:547 | The matches after a date are those of the text that follows it. |
| Dates.NoDateNoMatches | intelligent_assignment_router.py:547 | A text in which no `YYYY-MM-DD` starts has no matches. |
| Dates.TwoDates | intelligent_assignment_router.py:547-558 | Two dates in text in which no other date starts give exactly those two matches, in order. |
| Dates.ParseDateExamples | intelligent_assignment_router.py:557-558 | `2022-01-05` parses to that date, and `2023-02-29` is refused. |
| Dates.Valid | intelligent_assignment_router.py:557-558 | The dates `strptime` and `datetime` accept. `Dates.ParseDate` states that exactly these are accepted. |
| Dates.Ordinal | intelligent_assignment_router.py:557-571 | `date.toordinal()`. `Dates.OrdinalOrder`, `Dates.OrdinalBounds` and `Dates.MaxOrdinalValue` state its order and range. |
| Dates.Walk | intelligent_assignment_router.py:562-571 | The reference outcome of the day-by-day loop. `Dates.WalkCases` states its three cases and `Dates.CountWednesdays` the loop's agreement with it. |
| Dates.DateRange | intelligent_assignment_router.py:547-605 | The handler as a function of the question. `Dates.NotTwoDates`, `Dates.InvalidDate` and `Dates.DateRangeAnswer` state its cases. |
| Dates.DateRangeCalculation | intelligent_assignment_router.py:547-605 | The handler gives the reference outcome for the question. |
| Dates.InvalidDate | intelligent_assignment_router.py:557-605 | Two matches of which either is not an existing date: `strptime` raises and the handler returns the caught-exception envelope. |
| Dates.NotTwoDates | intelligent_assignment_router.py:549-556 | Not exactly two matches gives the "Unable to extract two dates" error. |
| Dates.DateRangeAnswer | intelligent_assignment_router.py:547-605 | With two valid dates, the answer is 0 when start > end and the closed-form Wednesday count otherwise. An end of 9999-12-31 gives the caught overflow. |
| Dates.WalkAnswer | intelligent_assignment_router.py:565-571 | The same three cases, stated on dates. |
| Dates.LastOrdinal | intelligent_assignment_router.py:571 | Only 9999-12-31 has the last ordinal, so only it overflows on the next step. |
| Dates.January2022 | intelligent_assignment_router.py:565-571 | 2022-01-01..2022-01-31 has 4 Wednesdays. |
| Dates.January2022Ordinals | intelligent_assignment_router.py:557-558 | The ordinals of 2022-01-01 and 2022-01-31 are 738156 and 738186, as `date.toordinal()` gives them. |
| Dates.MaxOrdinalValue | intelligent_assignment_router.py:571 | 9999-12-31 has ordinal 3652059. |
| MultiCursor.ParseLine | intelligent_assignment_router.py:806-809 | A line contributes exactly when its stripped text contains `=`. The key and value are then the stripped halves on either side of the first `=`, so the key holds no `=`. |
| MultiCursor.Parsed | intelligent_assignment_router.py:805-809 | Each line's contribution is parsed on its own. |
| MultiCursor.MultiCursorJson | intelligent_assignment_router.py:804-809 | The loop filling `json_obj` builds the reference dict of the lines. |
| MultiCursor.MultiCursorHandler | intelligent_assignment_router.py:777-815 | No file is the "No file provided" error. Otherwise the result is the dict of its lines. |
| MultiCursor.FillWellFormed | intelligent_assignment_router.py:804-809 | The dict's keys are distinct and are exactly its map's domain. |
| MultiCursor.FillKeys | intelligent_assignment_router.py:804-809 | A key is in the dict exactly when some line carries it. |
| MultiCursor.FillValue | intelligent_assignment_router.py:809 | A key's value is the one from the last line that carries it. |
| MultiCursor.FillOrder | intelligent_assignment_router.py:809 | Keys keep the order of their first occurrence. A later duplicate overwrites the value and keeps the position. |
| MultiCursor.ValueKeepsEquals | intelligent_assignment_router.py:808-809 | ` a = b=c ` gives key `a` and value `b=c`: the value may contain `=`. |
| MultiCursor.Put | intelligent_assignment_router.py:809 | `json_obj[key] = value` on an insertion-ordered dict. `MultiCursor.FillOrder` and `MultiCursor.FillValue` state its effect over a run of lines. |
| MultiCursor.Fill | intelligent_assignment_router.py:804-809 | The dict the parsed lines build, one assignment per `=` line. `MultiCursor.FillKeys`, `MultiCursor.FillValue` and `MultiCursor.FillOrder` characterize it. |
| MultiCursor.Build | intelligent_assignment_router.py:804-809 | The reference dict of the lines, which `MultiCursor.MultiCursorJson` computes. |
| Compare.ComparedNames | intelligent_assignment_router.py:899 | Every kept name ends in `.txt` or `.csv`, ignoring case. |
| Compare.ComparedNamesAppend | intelligent_assignment_router.py:899 | The filter keeps the comparable names in archive order: it distributes over concatenation. |
| Compare.ComparedNamesOne | intelligent_assignment_router.py:899 | A single name is kept exactly when it is comparable. |
| Compare.DiffCountCounts | intelligent_assignment_router.py:930-933 | The count is the number of positions below the shorter length where the lines differ, so it is at most that length. |
| Compare.DiffCountSymmetric | intelligent_assignment_router.py:930-933 | The count is symmetric. |
| Compare.DiffCountSame | intelligent_assignment_router.py:930-933 | Identical files differ nowhere. |
| Compare.DiffCountTrailing | intelligent_assignment_router.py:930-933 | Lines past the shorter file's end do not count. |
| Compare.FileComparisonOutcome | intelligent_assignment_router.py:893-953 | The errors are exactly a bad path and fewer than two comparable names. Otherwise the answer is the decimal count for the first two comparable files. |
| Compare.ReplyOnlyNamesMethod | intelligent_assignment_router.py:929-953 | The strategy reply changes only the method name, never the count. |
| Compare.DiffCount | intelligent_assignment_router.py:930-933 | `sum(1 for a, b in zip(x, y) if a != b)`. `Compare.DiffCountCounts` states it as the number of differing positions. |
| Compare.DiffsBelow | intelligent_assignment_router.py:930-933 | The differing positions below `m`, counted one by one. `Compare.DiffCountCounts` states it as the size of the set of differing positions. |
| Compare.FileComparison | intelligent_assignment_router.py:893-953 | The handler as a function of its inputs. `Compare.FileComparisonOutcome` states its cases. |
| Rewrite.StartNoIitm | intelligent_assignment_router.py:989-990 | A rewritten text never starts with a match. |
| Rewrite.ReplaceLeavesNoIitm | intelligent_assignment_router.py:989-990 | After `re.sub(r'[Ii][Ii][Tt][Mm]', 'IIT Madras', s)`, no match is left. |
| Rewrite.ReplaceWithoutIitm | intelligent_assignment_router.py:989-990 | A text without a match is unchanged. |
| Rewrite.ReplaceIdempotent | intelligent_assignment_router.py:989-990 | Rewriting twice is rewriting once. |
| Rewrite.MixedCase | intelligent_assignment_router.py:989-990 | The match ignores case: `iItM!` becomes `IIT Madras!`. |
| Rewrite.ReplaceIitm | intelligent_assignment_router.py:989-990 | `re.sub(r'[Ii][Ii][Tt][Mm]', 'IIT Madras', text)`, left to right. `Rewrite.ReplaceLeavesNoIitm`, `Rewrite.ReplaceWithoutIitm` and `Rewrite.ReplaceIdempotent` state its properties. |
| Rewrite.Rewritten | intelligent_assignment_router.py:1003 | Each file's part is its content, rewritten. |
| Rewrite.HashedText | intelligent_assignment_router.py:1013-1021 | The loop concatenates the rewritten contents in file-name order. |
| Rewrite.HashedTextParts | intelligent_assignment_router.py:1013-1021 | The hashed files are a permutation of the archive's files, sorted by name, and no part holds a match. |
| Rewrite.FileReplacement | intelligent_assignment_router.py:970-1045 | A bad path is the ZIP error. Otherwise the digest is taken of the rewritten contents in name order. |
| Archive.ZipPathIgnoresCase | intelligent_assignment_router.py:691 | The `.zip` check ignores case, and a path passing it has at least four characters. |
| Archive.LowerOfUpper | intelligent_assignment_router.py:691 | Lower-casing forgets any upper-casing. |
| Archive.IsZipPath | intelligent_assignment_router.py:691 | `file_path` is given and ends in `.zip`, ignoring case. `Archive.ZipPathIgnoresCase` states the case-insensitivity. |
| Archive.ByName | intelligent_assignment_router.py:1015 | `sorted(files)` by name in code-point order. `Rewrite.HashedTextParts` states it is a sorted permutation. |
| Archive.FirstCsv | intelligent_assignment_router.py:697 | `next(...)` gives the first member ending `.csv`, ignoring case, or none when no member does. |
| Archive.ZipCsvTarget | intelligent_assignment_router.py:691-727 | A bad path is exactly the ZIP error. "No CSV file found in ZIP" comes exactly when no member is a `.csv`. Otherwise the member read is the first `.csv`. |
| MoveRename.LastDot | intelligent_assignment_router.py:1097 | Returns the position of the last `.`, or the length when there is none. |
| MoveRename.SplitExt | intelligent_assignment_router.py:1097 | `os.path.splitext` splits a name into base + ext. The ext is empty or starts at the last `.`, and leading dots do not start an ext. |
| MoveRename.CandidateInjective | intelligent_assignment_router.py:1100 | Different counters give different `base_counter.ext` names. |
| MoveRename.CandidatesSize | intelligent_assignment_router.py:1098-1101 | There are n distinct candidates for counters 1..n. |
| MoveRename.CandidatesBound | intelligent_assignment_router.py:1099-1101 | The `while os.path.exists` loop terminates: only as many candidates as there are taken names can be taken. |
| MoveRename.FreeFrom | intelligent_assignment_router.py:1098-1101 | Returns the first free candidate from a counter on. |
| MoveRename.FreeName | intelligent_assignment_router.py:1094-1101 | The destination is free. It is the name itself when that is free, and otherwise `base_m.ext` for the least free counter m ≥ 1. |
| MoveRename.UniqueName | intelligent_assignment_router.py:1094-1101 | The counter loop computes that name. |
| MoveRename.Moved | intelligent_assignment_router.py:1090-1105 | Every walked file gets one destination. |
| MoveRename.MoveAll | intelligent_assignment_router.py:1090-1105 | The loop over the walk builds `moved_files`. |
| MoveRename.MovedDistinct | intelligent_assignment_router.py:1090-1105 | No two moved files collide. |
| MoveRename.MovedPrefix | intelligent_assignment_router.py:1090-1105 | Moving a prefix of the walk gives a prefix of the destinations. |
| MoveRename.MovedEach | intelligent_assignment_router.py:1094-1104 | Each destination is the free name given the earlier destinations, and a fresh name is kept as it is. |
| MoveRename.IncrementDigits | intelligent_assignment_router.py:1118-1122 | `re.sub(r'\d', ...)` keeps the length and replaces each digit d by (d+1) mod 10. |
| MoveRename.IncrementDigit | intelligent_assignment_router.py:1119-1120 | `increment_digit`: a digit d becomes (d + 1) mod 10. `MoveRename.TenIncrementsIdentity` and `MoveRename.IncrementDigitsInjective` state its properties over a name. |
| MoveRename.TenIncrementsIdentity | intelligent_assignment_router.py:1118-1122 | Ten increments are the identity, and non-digits are never changed. |
| MoveRename.IncrementDigitsInjective | intelligent_assignment_router.py:1118-1122 | Distinct names stay distinct. |
| MoveRename.RenameInOrderLosesFile | intelligent_assignment_router.py:1108-1129 | The sequential `os.rename` loses the file `a2` when both `a1` and `a2` are present. |
| MoveRename.RenameInOrder | intelligent_assignment_router.py:1108-1129 | The as-written rename pass: each listed file renamed in turn with POSIX `os.rename`, which replaces an existing target. `MoveRename.RenameInOrderLosesFile` gives the input on which a file is lost. |
| MoveRename.RenameAll | intelligent_assignment_router.py:1108-1129 | The intended rename: each file gets its incremented name and keeps its content, and `renamed_files` pairs old and new names. |
| MoveRename.RenamedDistinct | intelligent_assignment_router.py:1108-1129 | Distinct names before the rename stay distinct after it. |
| MoveRename.ProcessFilesForHash | intelligent_assignment_router.py:1138-1158 | The listing loop yields the reference hash input. |
| MoveRename.EntriesOf | intelligent_assignment_router.py:1148-1152 | A `name:content` line exists exactly for each file whose content, read in universal-newline mode and stripped, is non-empty. |
| MoveRename.HashLines | intelligent_assignment_router.py:1138-1158 | The hashed text is the join, with `\n`, of those lines stably sorted by their lower-cased text. It has a line for each file with content and only for those. |
| MoveRename.Universal | intelligent_assignment_router.py:1149 | Universal-newline reading: `\r\n` and a lone `\r` read as `\n`. |
| MoveRename.UniversalNoReturn | intelligent_assignment_router.py:1149 | No `\r` is left in text read this way. |
| MoveRename.UniversalWithoutReturn | intelligent_assignment_router.py:1149 | Text without `\r` is read unchanged. |
| MoveRename.UniversalIdempotent | intelligent_assignment_router.py:1149 | Reading translated text again changes nothing. |
| MoveRename.UniversalLineEnds | intelligent_assignment_router.py:1149 | `a\r\nb\rc` reads as `a\nb\nc`. |
| MoveRename.Entries | intelligent_assignment_router.py:1141-1152 | The `name:content` lines of the files whose read, stripped content is non-empty, in listing order. `MoveRename.EntriesOf` characterizes it. |
| MoveRename.ReadText | intelligent_assignment_router.py:1149-1150 | `f.read().strip()`: the text read in universal-newline mode, stripped. `MoveRename.UniversalNoReturn` and `MoveRename.EntriesOf` build on it. |
| MoveRename.Entry | intelligent_assignment_router.py:1152 | `f"{filename}:{content}"` with the read, stripped content. `MoveRename.EntriesOf` states when a file has one. |
| MoveRename.HashInput | intelligent_assignment_router.py:1138-1158 | What `process_files_for_hash` returns. `MoveRename.HashLines` and `MoveRename.ProcessFilesForHash` state it. |
| MoveRename.MoveRenameHash | intelligent_assignment_router.py:1071-1187 | A bad path is the ZIP error. Otherwise the result has the moved names, the rename pairs, and the hash input of the renamed files. |
| MoveRename.HashedFilesDistinct | intelligent_assignment_router.py:1132-1161 | With the intended rename, the directory hashed has distinct names. |
| Attributes.Format | intelligent_assignment_router.py:1246 | `%I` gives an hour from 1 to 12. |
| Attributes.Parse | intelligent_assignment_router.py:1265-1268 | `strptime` with `%a, %d %b %Y, %I:%M %p`: the hour from %I and %p, seconds 0. `Attributes.FormatParse` states the round trip. |
| Attributes.Passes | intelligent_assignment_router.py:1271-1272 | `size >= 9552 and mod_time >= reference_date`. `Attributes.FilteredMembers` states which files pass. |
| Attributes.NotBefore | intelligent_assignment_router.py:1272 | `mod_time >= reference_date` on year, month, day, hour, minute and second. `Attributes.ReferenceIgnoresSeconds` and `Attributes.ReferenceMinute` state it at the reference. |
| Attributes.SizeSum | intelligent_assignment_router.py:1273 | `total_size` over the kept files. `Attributes.SizeSumAppend` states it is additive. |
| Attributes.FormatParse | intelligent_assignment_router.py:1246-1268 | The `strftime`/`strptime` round trip keeps everything but the seconds. |
| Attributes.ReferenceIgnoresSeconds | intelligent_assignment_router.py:1257-1272 | Dropping the seconds never changes the comparison with 2000-11-10 02:33:00. |
| Attributes.Filtered | intelligent_assignment_router.py:1263-1274 | Every kept file passes the filter. |
| Attributes.Listing | intelligent_assignment_router.py:1260-1274 | The loop yields the filtered files and the sum of their sizes. |
| Attributes.FilteredMembers | intelligent_assignment_router.py:1271-1274 | A file is kept exactly when its size is ≥ 9552 and its time is not before the reference, to the second. |
| Attributes.FilteredAppend | intelligent_assignment_router.py:1263-1274 | The filter and the size sum distribute over a split of the listing. |
| Attributes.SizeSumAppend | intelligent_assignment_router.py:1273 | The size sum is additive. |
| Attributes.FileAttributes | intelligent_assignment_router.py:1210-1299 | A bad path is the ZIP error. Otherwise the answer is the decimal size sum of the filtered files, which are returned. |
| Attributes.ReferenceMinute | intelligent_assignment_router.py:1257-1272 | A 9552-byte file from 02:33:59 passes, and one from 02:32:59 does not. |
| JsonSort.CriterionOf | intelligent_assignment_router.py:757-767 | The criterion depends on which of `age` and `name` occur in the stripped, lower-cased reply. Both picks (age, name), `age` alone picks age, `name` alone picks name; neither leaves the list unsorted. |
| JsonSort.Arrange | intelligent_assignment_router.py:757-767 | The `sorted(json_data, key=...)` chosen by the criterion, or the list unchanged. `JsonSort.ArrangeSpec` proves each a stable, sorted permutation. |
| JsonSort.JsonSort | intelligent_assignment_router.py:731-770 | The handler given the reply. `JsonSort.CriterionOf` and `JsonSort.ArrangeSpec` state its result. |
| JsonSort.Key | intelligent_assignment_router.py:761-765 | The sort key of each criterion: `(age, name)`, `age`, `name`. `JsonSort.AgeThenNameOrder` states the tuple order. |
| JsonSort.PeopleNamesDistinct | intelligent_assignment_router.py:734-741 | The sixteen fixed records of `json_data` have distinct names. |
| JsonSort.ArrangeSpec | intelligent_assignment_router.py:760-767 | Every criterion gives a permutation of the records that is sorted by its key and stable. |
| JsonSort.AgeThenNameOrder | intelligent_assignment_router.py:761 | Comparing (age, name) keys compares ages first, then names. |
| JsonSort.AgeThenNameInjective | intelligent_assignment_router.py:761 | Records with equal (age, name) keys are equal. |
| JsonSort.AgeThenNameUnique | intelligent_assignment_router.py:761 | With distinct (age, name) pairs, the sorted result is the only ordering sorted that way. |
| Selection.SmallOnes | intelligent_assignment_router.py:1562-1565 | `valid_compressions` holds only strategies of size in (0, 1500), and it is empty exactly when none has one. |
| Selection.SmallOnesHead | intelligent_assignment_router.py:1562-1574 | Its head is the first strategy small enough. |
| Selection.Smallest | intelligent_assignment_router.py:1570 | `min(..., key=size)` returns the first entry of least size. |
| Selection.BestChoice | intelligent_assignment_router.py:1562-1574 | The choice is one of the strategies: the first small one when there is one, otherwise the first of least size. |
| Selection.Best | intelligent_assignment_router.py:1562-1574 | `best_compression`. `Selection.BestChoice` states which strategy it picks. |
| Selection.NoSmallStrategy | intelligent_assignment_router.py:1567-1574 | With no strategy small enough, the earlier of two equally small ones wins. Otherwise the first small one wins over a later, smaller one, and size 0 does not count as small. |
| Selection.ImageCompression | intelligent_assignment_router.py:1500-1590 | A missing image is exactly the image error. Otherwise the result is the first strategy whose size is in (0, 1500), or, when there is none, the first of least size. The chosen size is in (0, 1500) exactly when some strategy's is, and the method is one of the four names. |
| Selection.ReadAs | intelligent_assignment_router.py:836-844 | `.csv` (case-sensitive) is read as CP-1252 when the name contains `data1.csv`, otherwise as UTF-8. Otherwise `.txt` is read as tab-separated UTF-16, and anything else is skipped. |
| Selection.SymbolSum | intelligent_assignment_router.py:825-874 | The loop over the members accumulates the reference total and details. A member whose opening or reading fails is recorded with its error, and the loop goes on. |
| Selection.MatchedSumOnlyTargets | intelligent_assignment_router.py:852-855 | Rows with symbols other than †, Š and … add nothing to the sum or the count. |
| Selection.TotalAppend | intelligent_assignment_router.py:832-874 | The total and the details split over any split of the archive. |
| Selection.Contribution | intelligent_assignment_router.py:833-874 | One member's addition to `total_sum` and its detail. A failed `zip_ref.open` is recorded before the extension test. `Selection.MemberRecorded`, `Selection.SkippedAddNothing` and `Selection.MatchedSumOnlyTargets` state its cases. |
| Selection.Total | intelligent_assignment_router.py:832-874 | `total_sum` over the members. `Selection.TotalAppend` and `Selection.SymbolSum` state it. |
| Selection.SkippedAddNothing | intelligent_assignment_router.py:843-874 | A skipped member, one that cannot be opened or read, or one missing a column adds 0. |
| Selection.MemberRecorded | intelligent_assignment_router.py:833-874 | A member that cannot be opened is recorded with its error, whatever its name. One that opens and is neither `.csv` nor `.txt` leaves no detail. A `.csv` or `.txt` member pandas cannot read is recorded with its error. |
| Selection.MatchedSum | intelligent_assignment_router.py:852-855 | `filtered_df['value'].sum()`: the sum of the values of the rows whose symbol is a target. `Selection.MatchedSumOnlyTargets` states that other rows add nothing. |
| Selection.MatchedCount | intelligent_assignment_router.py:866 | `len(filtered_df)`: the number of rows whose symbol is a target. `Selection.MatchedSumOnlyTargets` states that other rows add nothing. |
| Selection.Details | intelligent_assignment_router.py:862-874 | `details` over the members, in order. `Selection.TotalAppend` splits it and `Selection.SymbolSum` computes it. |
| Selection.UnicodeData | intelligent_assignment_router.py:821-880 | A bad path is the ZIP error. Otherwise the answer is the decimal total. |
| Extract.Leftmost | intelligent_assignment_router.py:1608 | Returns the first position that holds, as `re.search` finds it. |
| Extract.TagNamedAt | intelligent_assignment_router.py:1608 | A `tag\s+named\s+(\d+)` match starts at a case-insensitive `tag`, and its group is a non-empty digit string. |
| Extract.SearchTagNamed | intelligent_assignment_router.py:1608 | Returns the leftmost match position, or none when no position matches. |
| Extract.FirstDigitRun | intelligent_assignment_router.py:1610 | `(\d+)` finds nothing exactly when there is no digit, and otherwise finds a non-empty digit run. |
| Extract.FirstDigitRunIsFirstOfAll | intelligent_assignment_router.py:1610 | That run is the first of the maximal digit runs. |
| Extract.StudentId | intelligent_assignment_router.py:1608-1613 | The student ID is never empty. |
| Extract.StudentIdCases | intelligent_assignment_router.py:1608-1613 | The ID is the `tag named` digits when that matches, otherwise the first digit run, otherwise `22f3002248`. |
| Extract.TagNamedHasDigit | intelligent_assignment_router.py:1608-1613 | A `tag named` match implies the question has a digit. |
| Extract.NoDigitsDefault | intelligent_assignment_router.py:1613 | A question without digits gets the default ID. |
| Extract.DockerImagePush | intelligent_assignment_router.py:1629-1694 | The tag is the student ID, and the repository is `user/tds-assignment-ID`. The URL and the push command are built from them. |
| Extract.RepositoryEndsWithTag | intelligent_assignment_router.py:1629 | The repository name ends with the tag, after the fixed `user/tds-assignment-` prefix. |
| Extract.LeadingNonSpaces | intelligent_assignment_router.py:146 | `\S+` takes the maximal run of non-whitespace. |
| Extract.EmailAt | intelligent_assignment_router.py:146 | A matched email is non-empty and free of whitespace. |
| Extract.SearchEmail | intelligent_assignment_router.py:146 | Returns the leftmost `email set to (\S+)` match. |
| Extract.Email | intelligent_assignment_router.py:146-148 | `email_match.group(1)` when there is a match. `Extract.SearchEmail` and `Extract.EmailAt` state which text it is. |
| Extract.HttpieRequest | intelligent_assignment_router.py:146-185 | The error comes exactly when there is no email or no httpbin URL. Otherwise `full_url` is `https://httpbin.org/get?email=` + email, and the command is `uv run --with httpie -- ` + that URL. |
| Extract.HttpieEmailRoundTrip | intelligent_assignment_router.py:155-158 | The email can be read back from `full_url`, and it is the matched one. |
| Extract.Ands | intelligent_assignment_router.py:469 | Marks each position where `\s+and` (case-insensitive) can follow. |
| Extract.LazyGroup | intelligent_assignment_router.py:469 | The lazy `(.+?)` ends at a position followed by `\s+and`. |
| Extract.LazyGroupShortest | intelligent_assignment_router.py:469 | The group is the shortest one: newline-free, with no earlier `\s+and` end. |
| Extract.TryWidths | intelligent_assignment_router.py:469 | A group found after some `\s+` width is non-empty. |
| Extract.CommandAt | intelligent_assignment_router.py:469 | A match starts at a case-insensitive `type`, and its command is non-empty. |
| Extract.SearchCommand | intelligent_assignment_router.py:469 | Returns the leftmost match position of `type\s+(.+?)\s+and`. |
| Extract.CommandAtStart | intelligent_assignment_router.py:469 | A match at position 0 is the one found. |
| Extract.TypeLsAnd | intelligent_assignment_router.py:469 | `Type ls and` yields the command `ls`. |
| Extract.Command | intelligent_assignment_router.py:469-477 | `command_match.group(1)` when there is a match. `Extract.SearchCommand` and `Extract.CommandAt` state which text it is. |
| Extract.Reply | intelligent_assignment_router.py:480-502 | A command containing `code -s` (ignoring case) gets the sync output. Any other gets "Unrecognized command: " + the command. |
| Extract.ReplyIsNotNoCommand | intelligent_assignment_router.py:471-502 | A found command never gets the no-command error. |
| Extract.CliSimulation | intelligent_assignment_router.py:469-521 | The intended handler: "Unable to extract CLI command" exactly when nothing matches. Success exactly for a `code -s` command; otherwise the unrecognized-command message. |
| Extract.AsWrittenHidesUnrecognized | intelligent_assignment_router.py:497-533 | As written, a command without `code -s` gives `Error processing CLI command simulation: 'output'`, not the unrecognized-command message. |
| Extract.ReplyAsWritten | intelligent_assignment_router.py:480-502 | The as-written lookup: the sync output for a `code -s` command, and the `KeyError` on `'output'` for any other. |
| Extract.CliSimulationAsWritten | intelligent_assignment_router.py:469-533 | The as-written handler. `Extract.AsWrittenHidesUnrecognized` and `Extract.AsWrittenAgreesOtherwise` compare it with the intended one. |
| Extract.AsWrittenAgreesOtherwise | intelligent_assignment_router.py:469-533 | As written and intended agree when there is no command or the command contains `code -s`. |

## Left out

- The language model's calls (`generate_content`): every reply is an input string. The prompts are not modelled.
- The `try`/`except Exception` envelopes around whole handlers. Only the exceptions the kernels raise themselves are modelled: `int()`'s and `strptime`'s `ValueError`, the date overflow, and the CLI `KeyError`.
- `main.py` (the web endpoint and temporary upload files) and `check_models.py` are not part of this model.
- `_process_npx_prettier_sha256`: only its routing is modelled. Its work is the `subprocess` calls to `npx prettier` and a `sha256`.
- `_process_sql_sales_calculation`: only its routing is modelled. Its query runs in SQLite and sums `units * price` in floating point.
- `_process_markdown_documentation`: only its routing is modelled. It is a language-model call whose validation results are discarded.
- `_general_processing`: only its routing is modelled. It is a language-model call.
- The ZIP/CSV handler's reading of the first `.csv` with pandas, and its choice of a column: `Archive.ZipCsvTarget` stops at the member chosen.
- `hashlib.sha256`: the digest is opaque. The model produces the exact text that is hashed.
- `requests.get` in the httpie handler: `Extract.HttpieRequest` gives the URL and command of a successful request. The HTTP error envelope and the response JSON are left out.
- The `docker login`/`build`/`push` subprocesses and their error envelope. The Docker user name is a parameter (the `DOCKER_USERNAME` environment variable). The Dockerfile and the password are left out.
- Zip extraction, `os.walk`, `os.listdir`, `shutil.move` and `os.rename` are file-system operations, and their order depends on the platform.
  - The model takes the listing as a sequence in the order the loop visits it.
  - The replacement handler's tree is taken as flat: `os.walk`'s per-directory `sorted(files)` becomes one sort by name over all files (`Rewrite.HashedText`).
  - The move/rename walk keeps its directories implicit. It may list the same name more than once, as files in different subdirectories do, and the unique-name loop resolves such clashes (`MoveRename.MoveAll`).
  - `moved_files` holds destination names, not full paths.
- `MoveRename.RenameInOrder`: the POSIX `os.rename` overwrite is modelled on a map from names to contents. Windows, where the rename raises instead, is left out.
- `MoveRename.MoveRenameHash` is stated for the intended rename (`MoveRename.RenameAll`), not the as-written one. See Findings.
- Decoding an archive member's bytes, with `errors='ignore'` in the move/rename handler and the locale encoding in the replacement handler: `File.content` is the decoded text.
- pandas decoding of CP-1252, UTF-8 and UTF-16 files: a member's table is an input (symbol and integer value rows, the error reading it raised, or the error `zip_ref.open` raised). A column's `sum()` is taken exactly, without modelling pandas' 64-bit integer arithmetic. `Selection.UnicodeData`'s per-file `details` are computed but not returned, as in the source.
- PIL's image conversions: the four strategies' output sizes are inputs. Whether the image file exists (`os.path.exists`) is a boolean input, and the base64 image data is left out.
- `Attributes.FileAttributes`: the `mktime`/`fromtimestamp` round trip through local time is left out. The modification time is the zip entry's `date_time`, taken as local time. `%a` (the weekday name) is not kept in `Stamp`, because `strptime` only checks it.
- `Dates.DateRangeCalculation`: the `strftime('%Y-%m-%d')` of the returned start and end dates is left out. The dates are returned as values.
- `Dates.DateRange`: the error message of a caught `strptime` or overflow exception is not modelled (`Raised`).
- `Excel.ExcelFormula`: the message of a caught `int()` failure is not modelled (`Raised`).
- `json.dumps` escaping and formatting of the JSON sort, multi-cursor and httpie results: the records, the dict and the URL are returned as values.
- `Sheets.GoogleSheets`: the message of the caught `int()` failure is not modelled (`Raised`).
- `Text.IntToString`: `str()` of an integer of more than 4300 digits raises `ValueError` too. The handlers only call `str()` on line counts, byte sizes and sums of table values, which do not get that large. `json.dumps` of a huge answer happens outside the handlers.
- `Sheets.GoogleSheets` computes the constrained sum from its closed form. The source builds the whole `rows × cols` array first, so the source's memory use on huge parameters is left out.
- `Extract.CommandAt`: in the regex `type\s+(.+?)\s+and`, the model tries the whitespace run after `type` from its longest width to its shortest, and stops at the first width that gives a group, as a backtracking regex engine does. The lazy group is newline-free, because `.` excludes `\n`.

## Findings

| source | as written | input that shows it | evidently intended | confidence | as-written member | corrected member |
|---|---|---|---|---|---|---|
| intelligent_assignment_router.py:1108-1129 | Files are renamed one at a time, in listing order, with `os.rename`. A file whose new name is an existing file's name overwrites that file before that file is renamed. | Files `a1` (content `x`) and `a2` (content `y`), listed in that order. `a1` becomes `a2` and overwrites `y`, then `a2` becomes `a3`. Only `a3` with `x` is left. | Every file gets its incremented name and keeps its content. Since the increment is injective, distinct names stay distinct. | not executed | MoveRename.RenameInOrderLosesFile | MoveRename.RenamedDistinct |
| intelligent_assignment_router.py:497-502, 521, 525-533 | For a command without `code -s`, the fallback dict has no `'output'` key. `simulated_output['output']` raises `KeyError`, and the generic envelope replies `Error processing CLI command simulation: 'output'`. | The question `Type ls and`, which gives the command `ls`. | The reply is `Unrecognized command: ls`, which the fallback dict carries. | not executed | Extract.AsWrittenHidesUnrecognized | Extract.CliSimulation |
