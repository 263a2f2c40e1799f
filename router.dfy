/**
 * Dispatch of a question to a handler, from the classification label the
 * language model replied with (`route_question`).
 *
 * The reply is stripped and upper-cased; an ordered chain of substring tests
 * then picks the handler, the first test that holds winning.  The model's
 * call itself is outside the model: its reply is an input.
 */
module Router {
  import opened Text

  /** The handlers `route_question` can dispatch to. */
  datatype Handler =
    | ZipCsvExtract
    | HttpieRequest
    | NpxPrettierSha256
    | GoogleSheetsFormula
    | JsonSort
    | MultiCursorJson
    | UnicodeDataProcessing
    | FileComparison
    | ExcelFormulaProcessing
    | GeneralProcessing
    | DateRangeCalculation
    | CliCommandSimulation
    | FileReplacementSha256
    | FileAttributesListing
    | SqlSalesCalculation
    | MarkdownDocumentation
    | ImageCompression
    | DockerImagePush

  /** What the dispatch decides: a handler, or the error envelope
      `{"status": "error", "message": UNRECOGNIZED, "classification": c}`. */
  datatype Routing = Dispatch(handler: Handler) | Unrecognized(classification: string)

  const UNRECOGNIZED := "Unable to determine processing method"

  /** The labels the chain looks for, in the chain's order. */
  const ZIP_CSV_EXTRACT := "ZIP_CSV_EXTRACT"
  const HTTPIE_REQUEST := "HTTPIE_REQUEST"
  const NPX_PRETTIER_SHA256 := "NPX_PRETTIER_SHA256"
  const GOOGLE_SHEETS_FORMULA := "GOOGLE_SHEETS_FORMULA"
  const JSON_SORT := "JSON_SORT"
  const MULTI_CURSOR_JSON := "MULTI_CURSOR_JSON"
  const UNICODE_DATA_PROCESSING := "UNICODE_DATA_PROCESSING"
  const FILE_COMPARISON := "FILE_COMPARISON"
  const EXCEL_FORMULA_PROCESSING := "EXCEL_FORMULA_PROCESSING"
  const GENERAL_PROCESSING := "GENERAL_PROCESSING"
  const UNKNOWN := "UNKNOWN"
  const DATE_RANGE_CALCULATION := "DATE_RANGE_CALCULATION"
  const CLI_COMMAND_SIMULATION := "CLI_COMMAND_SIMULATION"
  const FILE_REPLACEMENT_SHA256 := "FILE_REPLACEMENT_SHA256"
  const FILE_ATTRIBUTES_LISTING := "FILE_ATTRIBUTES_LISTING"
  const SQL_SALES_CALCULATION := "SQL_SALES_CALCULATION"
  const MARKDOWN_DOCUMENTATION := "MARKDOWN_DOCUMENTATION"
  const IMAGE_COMPRESSION := "IMAGE_COMPRESSION"
  const DOCKER_IMAGE_PUSH := "DOCKER_IMAGE_PUSH"

  /** The label of the commented-out branch for `_process_file_move_rename_hash`. */
  const FILE_MOVE_RENAME_HASH := "FILE_MOVE_RENAME_HASH"

  /** `classification_response.text.strip().upper()` */
  function Classification(reply: string): string { Upper(Strip(reply)) }

  /** The `if`/`elif` chain of `route_question`, branch by branch.  The branch
      for `FILE_MOVE_RENAME_HASH` is commented out in the source, so that label
      is never looked for. */
  function Route(reply: string): Routing
  {
    Chain(Classification(reply))
  }

  /** The chain itself, on the classification `c`. */
  function Chain(c: string): Routing
  {
    if Contains(c, ZIP_CSV_EXTRACT) then Dispatch(ZipCsvExtract)
    else if Contains(c, HTTPIE_REQUEST) then Dispatch(HttpieRequest)
    else if Contains(c, NPX_PRETTIER_SHA256) then Dispatch(NpxPrettierSha256)
    else if Contains(c, GOOGLE_SHEETS_FORMULA) then Dispatch(GoogleSheetsFormula)
    else if Contains(c, JSON_SORT) then Dispatch(JsonSort)
    else if Contains(c, MULTI_CURSOR_JSON) then Dispatch(MultiCursorJson)
    else if Contains(c, UNICODE_DATA_PROCESSING) then Dispatch(UnicodeDataProcessing)
    else if Contains(c, FILE_COMPARISON) then Dispatch(FileComparison)
    else if Contains(c, EXCEL_FORMULA_PROCESSING) then Dispatch(ExcelFormulaProcessing)
    else if Contains(c, GENERAL_PROCESSING) || Contains(c, UNKNOWN) then Dispatch(GeneralProcessing)
    else if Contains(c, DATE_RANGE_CALCULATION) then Dispatch(DateRangeCalculation)
    else if Contains(c, CLI_COMMAND_SIMULATION) then Dispatch(CliCommandSimulation)
    else if Contains(c, FILE_REPLACEMENT_SHA256) then Dispatch(FileReplacementSha256)
    else if Contains(c, FILE_ATTRIBUTES_LISTING) then Dispatch(FileAttributesListing)
    else if Contains(c, SQL_SALES_CALCULATION) then Dispatch(SqlSalesCalculation)
    else if Contains(c, MARKDOWN_DOCUMENTATION) then Dispatch(MarkdownDocumentation)
    else if Contains(c, IMAGE_COMPRESSION) then Dispatch(ImageCompression)
    else if Contains(c, DOCKER_IMAGE_PUSH) then Dispatch(DockerImagePush)
    else Unrecognized(c)
  }

  // ---------------------------------------------------------------------------
  // The same chain as a table, and the first-match rule stated over it.

  /** Number of branches in the chain (the final `else` excluded). */
  const BRANCHES := 18

  /** The labels branch `k` of the chain tests. */
  function BranchLabels(k: nat): seq<string>
  {
    match k
    case 0 => [ZIP_CSV_EXTRACT]
    case 1 => [HTTPIE_REQUEST]
    case 2 => [NPX_PRETTIER_SHA256]
    case 3 => [GOOGLE_SHEETS_FORMULA]
    case 4 => [JSON_SORT]
    case 5 => [MULTI_CURSOR_JSON]
    case 6 => [UNICODE_DATA_PROCESSING]
    case 7 => [FILE_COMPARISON]
    case 8 => [EXCEL_FORMULA_PROCESSING]
    case 9 => [GENERAL_PROCESSING, UNKNOWN]
    case 10 => [DATE_RANGE_CALCULATION]
    case 11 => [CLI_COMMAND_SIMULATION]
    case 12 => [FILE_REPLACEMENT_SHA256]
    case 13 => [FILE_ATTRIBUTES_LISTING]
    case 14 => [SQL_SALES_CALCULATION]
    case 15 => [MARKDOWN_DOCUMENTATION]
    case 16 => [IMAGE_COMPRESSION]
    case 17 => [DOCKER_IMAGE_PUSH]
    case _ => []
  }

  /** The handler branch `k` of the chain calls. */
  function BranchHandler(k: nat): Handler
  {
    match k
    case 0 => ZipCsvExtract
    case 1 => HttpieRequest
    case 2 => NpxPrettierSha256
    case 3 => GoogleSheetsFormula
    case 4 => JsonSort
    case 5 => MultiCursorJson
    case 6 => UnicodeDataProcessing
    case 7 => FileComparison
    case 8 => ExcelFormulaProcessing
    case 9 => GeneralProcessing
    case 10 => DateRangeCalculation
    case 11 => CliCommandSimulation
    case 12 => FileReplacementSha256
    case 13 => FileAttributesListing
    case 14 => SqlSalesCalculation
    case 15 => MarkdownDocumentation
    case 16 => ImageCompression
    case _ => DockerImagePush
  }

  /** Branch `k` of the chain tests true on classification `c`. */
  predicate BranchHolds(c: string, k: nat)
  {
    exists m :: 0 <= m < |BranchLabels(k)| && Contains(c, BranchLabels(k)[m])
  }

  /** Some label of the chain occurs in `c`. */
  predicate SomeLabelIn(c: string)
  {
    exists k :: 0 <= k < BRANCHES && BranchHolds(c, k)
  }

  /** First match: when branch `k` holds and no earlier branch does, the reply
      goes to branch `k`'s handler. */
  lemma RouteFirstMatch(reply: string, k: nat)
    requires k < BRANCHES
    requires BranchHolds(Classification(reply), k)
    requires forall j :: 0 <= j < k ==> !BranchHolds(Classification(reply), j)
    ensures Route(reply) == Dispatch(BranchHandler(k))
  {
    ChainFirstMatch(Classification(reply), k);
  }

  lemma ChainFirstMatch(c: string, k: nat)
    requires k < BRANCHES
    requires BranchHolds(c, k)
    requires forall j :: 0 <= j < k ==> !BranchHolds(c, j)
    ensures Chain(c) == Dispatch(BranchHandler(k))
  {
    var m :| 0 <= m < |BranchLabels(k)| && Contains(c, BranchLabels(k)[m]);
    EarlierBranchesFail(c, k);
    if k == 9 {
      assert Contains(c, GENERAL_PROCESSING) || Contains(c, UNKNOWN);
    } else {
      assert m == 0;
      ChainAt(c, k);
    }
  }

  /** Branch `k` (other than the two-label one) taken, once every earlier
      test failed. */
  lemma ChainAt(c: string, k: nat)
    requires k < BRANCHES && k != 9 && Contains(c, BranchLabels(k)[0])
    requires k > 0 ==> !Contains(c, ZIP_CSV_EXTRACT)
    requires k > 1 ==> !Contains(c, HTTPIE_REQUEST)
    requires k > 2 ==> !Contains(c, NPX_PRETTIER_SHA256)
    requires k > 3 ==> !Contains(c, GOOGLE_SHEETS_FORMULA)
    requires k > 4 ==> !Contains(c, JSON_SORT)
    requires k > 5 ==> !Contains(c, MULTI_CURSOR_JSON)
    requires k > 6 ==> !Contains(c, UNICODE_DATA_PROCESSING)
    requires k > 7 ==> !Contains(c, FILE_COMPARISON)
    requires k > 8 ==> !Contains(c, EXCEL_FORMULA_PROCESSING)
    requires k > 9 ==> !Contains(c, GENERAL_PROCESSING) && !Contains(c, UNKNOWN)
    requires k > 10 ==> !Contains(c, DATE_RANGE_CALCULATION)
    requires k > 11 ==> !Contains(c, CLI_COMMAND_SIMULATION)
    requires k > 12 ==> !Contains(c, FILE_REPLACEMENT_SHA256)
    requires k > 13 ==> !Contains(c, FILE_ATTRIBUTES_LISTING)
    requires k > 14 ==> !Contains(c, SQL_SALES_CALCULATION)
    requires k > 15 ==> !Contains(c, MARKDOWN_DOCUMENTATION)
    requires k > 16 ==> !Contains(c, IMAGE_COMPRESSION)
    ensures Chain(c) == Dispatch(BranchHandler(k))
  {
    // one case per branch, so that the chain is unfolded up to `k` only
    if k == 0 { assert Contains(c, ZIP_CSV_EXTRACT); }
    else if k == 1 { assert Contains(c, HTTPIE_REQUEST); }
    else if k == 2 { assert Contains(c, NPX_PRETTIER_SHA256); }
    else if k == 3 { assert Contains(c, GOOGLE_SHEETS_FORMULA); }
    else if k == 4 { assert Contains(c, JSON_SORT); }
    else if k == 5 { assert Contains(c, MULTI_CURSOR_JSON); }
    else if k == 6 { assert Contains(c, UNICODE_DATA_PROCESSING); }
    else if k == 7 { assert Contains(c, FILE_COMPARISON); }
    else if k == 8 { assert Contains(c, EXCEL_FORMULA_PROCESSING); }
    else if k == 10 { assert Contains(c, DATE_RANGE_CALCULATION); }
    else if k == 11 { assert Contains(c, CLI_COMMAND_SIMULATION); }
    else if k == 12 { assert Contains(c, FILE_REPLACEMENT_SHA256); }
    else if k == 13 { assert Contains(c, FILE_ATTRIBUTES_LISTING); }
    else if k == 14 { assert Contains(c, SQL_SALES_CALCULATION); }
    else if k == 15 { assert Contains(c, MARKDOWN_DOCUMENTATION); }
    else if k == 16 { assert Contains(c, IMAGE_COMPRESSION); }
    else { assert Contains(c, DOCKER_IMAGE_PUSH); }
  }

  /** Spelled-out form of "no branch before `k` holds". */
  lemma EarlierBranchesFail(c: string, k: nat)
    requires k < BRANCHES
    requires forall j :: 0 <= j < k ==> !BranchHolds(c, j)
    ensures k > 0 ==> !Contains(c, ZIP_CSV_EXTRACT)
    ensures k > 1 ==> !Contains(c, HTTPIE_REQUEST)
    ensures k > 2 ==> !Contains(c, NPX_PRETTIER_SHA256)
    ensures k > 3 ==> !Contains(c, GOOGLE_SHEETS_FORMULA)
    ensures k > 4 ==> !Contains(c, JSON_SORT)
    ensures k > 5 ==> !Contains(c, MULTI_CURSOR_JSON)
    ensures k > 6 ==> !Contains(c, UNICODE_DATA_PROCESSING)
    ensures k > 7 ==> !Contains(c, FILE_COMPARISON)
    ensures k > 8 ==> !Contains(c, EXCEL_FORMULA_PROCESSING)
    ensures k > 9 ==> !Contains(c, GENERAL_PROCESSING) && !Contains(c, UNKNOWN)
    ensures k > 10 ==> !Contains(c, DATE_RANGE_CALCULATION)
    ensures k > 11 ==> !Contains(c, CLI_COMMAND_SIMULATION)
    ensures k > 12 ==> !Contains(c, FILE_REPLACEMENT_SHA256)
    ensures k > 13 ==> !Contains(c, FILE_ATTRIBUTES_LISTING)
    ensures k > 14 ==> !Contains(c, SQL_SALES_CALCULATION)
    ensures k > 15 ==> !Contains(c, MARKDOWN_DOCUMENTATION)
    ensures k > 16 ==> !Contains(c, IMAGE_COMPRESSION)
  {
    if k > 0 { BranchFails(c, 0, 0); }
    if k > 1 { BranchFails(c, 1, 0); }
    if k > 2 { BranchFails(c, 2, 0); }
    if k > 3 { BranchFails(c, 3, 0); }
    if k > 4 { BranchFails(c, 4, 0); }
    if k > 5 { BranchFails(c, 5, 0); }
    if k > 6 { BranchFails(c, 6, 0); }
    if k > 7 { BranchFails(c, 7, 0); }
    if k > 8 { BranchFails(c, 8, 0); }
    if k > 9 { BranchFails(c, 9, 0); BranchFails(c, 9, 1); }
    if k > 10 { BranchFails(c, 10, 0); }
    if k > 11 { BranchFails(c, 11, 0); }
    if k > 12 { BranchFails(c, 12, 0); }
    if k > 13 { BranchFails(c, 13, 0); }
    if k > 14 { BranchFails(c, 14, 0); }
    if k > 15 { BranchFails(c, 15, 0); }
    if k > 16 { BranchFails(c, 16, 0); }
  }

  lemma BranchFails(c: string, j: nat, m: nat)
    requires j < BRANCHES && m < |BranchLabels(j)| && !BranchHolds(c, j)
    ensures !Contains(c, BranchLabels(j)[m])
  {
  }

  /** The error envelope comes back exactly when no label of the chain occurs
      in the classification, and it echoes the classification. */
  lemma RouteUnrecognized(reply: string)
    ensures Route(reply).Unrecognized? <==> !SomeLabelIn(Classification(reply))
    ensures Route(reply).Unrecognized? ==> Route(reply).classification == Classification(reply)
  {
    var c := Classification(reply);
    if SomeLabelIn(c) {
      var k :| 0 <= k < BRANCHES && BranchHolds(c, k);
      var j := FirstHolding(c, k);
      RouteFirstMatch(reply, j);
    } else {
      NoBranchHolds(reply);
    }
  }

  /** The first branch, at or before `k`, that holds. */
  lemma {:induction false} FirstHolding(c: string, k: nat) returns (j: nat)
    requires BranchHolds(c, k)
    ensures j <= k && BranchHolds(c, j)
    ensures forall i :: 0 <= i < j ==> !BranchHolds(c, i)
  {
    if exists i :: 0 <= i < k && BranchHolds(c, i) {
      var i :| 0 <= i < k && BranchHolds(c, i);
      j := FirstHolding(c, i);
    } else {
      j := k;
    }
  }

  lemma NoBranchHolds(reply: string)
    requires !SomeLabelIn(Classification(reply))
    ensures Route(reply) == Unrecognized(Classification(reply))
  {
    var c := Classification(reply);
    LabelAbsent(c, 0, 0); LabelAbsent(c, 1, 0); LabelAbsent(c, 2, 0); LabelAbsent(c, 3, 0);
    LabelAbsent(c, 4, 0); LabelAbsent(c, 5, 0); LabelAbsent(c, 6, 0); LabelAbsent(c, 7, 0);
    LabelAbsent(c, 8, 0); LabelAbsent(c, 9, 0); LabelAbsent(c, 9, 1); LabelAbsent(c, 10, 0);
    LabelAbsent(c, 11, 0); LabelAbsent(c, 12, 0); LabelAbsent(c, 13, 0); LabelAbsent(c, 14, 0);
    LabelAbsent(c, 15, 0); LabelAbsent(c, 16, 0); LabelAbsent(c, 17, 0);
    ChainNone(c);
  }

  lemma LabelAbsent(c: string, k: nat, m: nat)
    requires k < BRANCHES && m < |BranchLabels(k)| && !SomeLabelIn(c)
    ensures !Contains(c, BranchLabels(k)[m])
  {
    assert !BranchHolds(c, k);
  }

  lemma ChainNone(c: string)
    requires !Contains(c, ZIP_CSV_EXTRACT) && !Contains(c, HTTPIE_REQUEST)
    requires !Contains(c, NPX_PRETTIER_SHA256) && !Contains(c, GOOGLE_SHEETS_FORMULA)
    requires !Contains(c, JSON_SORT) && !Contains(c, MULTI_CURSOR_JSON)
    requires !Contains(c, UNICODE_DATA_PROCESSING) && !Contains(c, FILE_COMPARISON)
    requires !Contains(c, EXCEL_FORMULA_PROCESSING)
    requires !Contains(c, GENERAL_PROCESSING) && !Contains(c, UNKNOWN)
    requires !Contains(c, DATE_RANGE_CALCULATION) && !Contains(c, CLI_COMMAND_SIMULATION)
    requires !Contains(c, FILE_REPLACEMENT_SHA256) && !Contains(c, FILE_ATTRIBUTES_LISTING)
    requires !Contains(c, SQL_SALES_CALCULATION) && !Contains(c, MARKDOWN_DOCUMENTATION)
    requires !Contains(c, IMAGE_COMPRESSION) && !Contains(c, DOCKER_IMAGE_PUSH)
    ensures Chain(c) == Unrecognized(c)
  {
  }

  /** A reply mentioning ZIP_CSV_EXTRACT goes to the ZIP handler whatever
      else it mentions. */
  lemma ZipLabelWins(reply: string)
    requires Contains(Classification(reply), ZIP_CSV_EXTRACT)
    ensures Route(reply) == Dispatch(ZipCsvExtract)
  {
  }

  /** `UNKNOWN` shares the general branch, which comes before
      DATE_RANGE_CALCULATION and every later label. */
  lemma UnknownBeatsLaterLabels(reply: string)
    requires Contains(Classification(reply), UNKNOWN)
    requires forall j :: 0 <= j < 9 ==> !BranchHolds(Classification(reply), j)
    ensures Route(reply) == Dispatch(GeneralProcessing)
  {
    var c := Classification(reply);
    assert Contains(c, BranchLabels(9)[1]);
    RouteFirstMatch(reply, 9);
  }

  /** A reply that is exactly one label of the chain (any case, any
      surrounding whitespace aside) reaches that label's handler: no label
      looked for earlier occurs inside a later one. */
  lemma LabelRoutesToItsBranch(k: nat, m: nat)
    requires k < BRANCHES && m < |BranchLabels(k)|
    ensures Route(BranchLabels(k)[m]) == Dispatch(BranchHandler(k))
  {
    if k == 0 {
      ZipCsvExtractRoutes();
    } else if k == 1 {
      HttpieRequestRoutes();
    } else if k == 2 {
      NpxPrettierSha256Routes();
    } else if k == 3 {
      GoogleSheetsFormulaRoutes();
    } else if k == 4 {
      JsonSortRoutes();
    } else if k == 5 {
      MultiCursorJsonRoutes();
    } else if k == 6 {
      UnicodeDataProcessingRoutes();
    } else if k == 7 {
      FileComparisonRoutes();
    } else if k == 8 {
      ExcelFormulaProcessingRoutes();
    } else if k == 9 && m == 0 {
      GeneralProcessingRoutes();
    } else if k == 9 && m == 1 {
      UnknownRoutes();
    } else if k == 10 {
      DateRangeCalculationRoutes();
    } else if k == 11 {
      CliCommandSimulationRoutes();
    } else if k == 12 {
      FileReplacementSha256Routes();
    } else if k == 13 {
      FileAttributesListingRoutes();
    } else if k == 14 {
      SqlSalesCalculationRoutes();
    } else if k == 15 {
      MarkdownDocumentationRoutes();
    } else if k == 16 {
      ImageCompressionRoutes();
    } else {
      DockerImagePushRoutes();
    }
  }

  lemma ZipCsvExtractRoutes()
    ensures Route(ZIP_CSV_EXTRACT) == Dispatch(ZipCsvExtract)
  {
    ContainsWithin([], ZIP_CSV_EXTRACT, []);
    assert [] + ZIP_CSV_EXTRACT + [] == ZIP_CSV_EXTRACT;
    ClassifiesAsZipCsvExtract();
  }

  lemma HttpieRequestRoutes()
    ensures Route(HTTPIE_REQUEST) == Dispatch(HttpieRequest)
  {
    ContainsWithin([], HTTPIE_REQUEST, []);
    assert [] + HTTPIE_REQUEST + [] == HTTPIE_REQUEST;
    ClassifiesAsHttpieRequest();
  }

  lemma NpxPrettierSha256Routes()
    ensures Route(NPX_PRETTIER_SHA256) == Dispatch(NpxPrettierSha256)
  {
    ContainsWithin([], NPX_PRETTIER_SHA256, []);
    assert [] + NPX_PRETTIER_SHA256 + [] == NPX_PRETTIER_SHA256;
    ClassifiesAsNpxPrettierSha256();
    ZipCsvExtractNotInNpxPrettierSha256();
    HttpieRequestNotInNpxPrettierSha256();
  }

  lemma GoogleSheetsFormulaRoutes()
    ensures Route(GOOGLE_SHEETS_FORMULA) == Dispatch(GoogleSheetsFormula)
  {
    ContainsWithin([], GOOGLE_SHEETS_FORMULA, []);
    assert [] + GOOGLE_SHEETS_FORMULA + [] == GOOGLE_SHEETS_FORMULA;
    ClassifiesAsGoogleSheetsFormula();
    ZipCsvExtractNotInGoogleSheetsFormula();
    HttpieRequestNotInGoogleSheetsFormula();
    NpxPrettierSha256NotInGoogleSheetsFormula();
  }

  lemma JsonSortRoutes()
    ensures Route(JSON_SORT) == Dispatch(JsonSort)
  {
    ContainsWithin([], JSON_SORT, []);
    assert [] + JSON_SORT + [] == JSON_SORT;
    ClassifiesAsJsonSort();
  }

  lemma MultiCursorJsonRoutes()
    ensures Route(MULTI_CURSOR_JSON) == Dispatch(MultiCursorJson)
  {
    ContainsWithin([], MULTI_CURSOR_JSON, []);
    assert [] + MULTI_CURSOR_JSON + [] == MULTI_CURSOR_JSON;
    ClassifiesAsMultiCursorJson();
    ZipCsvExtractNotInMultiCursorJson();
    HttpieRequestNotInMultiCursorJson();
    JsonSortNotInMultiCursorJson();
  }

  lemma UnicodeDataProcessingRoutes()
    ensures Route(UNICODE_DATA_PROCESSING) == Dispatch(UnicodeDataProcessing)
  {
    ContainsWithin([], UNICODE_DATA_PROCESSING, []);
    assert [] + UNICODE_DATA_PROCESSING + [] == UNICODE_DATA_PROCESSING;
    ClassifiesAsUnicodeDataProcessing();
    ZipCsvExtractNotInUnicodeDataProcessing();
    HttpieRequestNotInUnicodeDataProcessing();
    NpxPrettierSha256NotInUnicodeDataProcessing();
    GoogleSheetsFormulaNotInUnicodeDataProcessing();
    JsonSortNotInUnicodeDataProcessing();
    MultiCursorJsonNotInUnicodeDataProcessing();
  }

  lemma FileComparisonRoutes()
    ensures Route(FILE_COMPARISON) == Dispatch(FileComparison)
  {
    ContainsWithin([], FILE_COMPARISON, []);
    assert [] + FILE_COMPARISON + [] == FILE_COMPARISON;
    ClassifiesAsFileComparison();
    ZipCsvExtractNotInFileComparison();
    HttpieRequestNotInFileComparison();
    JsonSortNotInFileComparison();
  }

  lemma ExcelFormulaProcessingRoutes()
    ensures Route(EXCEL_FORMULA_PROCESSING) == Dispatch(ExcelFormulaProcessing)
  {
    ContainsWithin([], EXCEL_FORMULA_PROCESSING, []);
    assert [] + EXCEL_FORMULA_PROCESSING + [] == EXCEL_FORMULA_PROCESSING;
    ClassifiesAsExcelFormulaProcessing();
    ZipCsvExtractNotInExcelFormulaProcessing();
    HttpieRequestNotInExcelFormulaProcessing();
    NpxPrettierSha256NotInExcelFormulaProcessing();
    GoogleSheetsFormulaNotInExcelFormulaProcessing();
    JsonSortNotInExcelFormulaProcessing();
    MultiCursorJsonNotInExcelFormulaProcessing();
    UnicodeDataProcessingNotInExcelFormulaProcessing();
    FileComparisonNotInExcelFormulaProcessing();
  }

  lemma GeneralProcessingRoutes()
    ensures Route(GENERAL_PROCESSING) == Dispatch(GeneralProcessing)
  {
    ContainsWithin([], GENERAL_PROCESSING, []);
    assert [] + GENERAL_PROCESSING + [] == GENERAL_PROCESSING;
    ClassifiesAsGeneralProcessing();
    ZipCsvExtractNotInGeneralProcessing();
    HttpieRequestNotInGeneralProcessing();
    JsonSortNotInGeneralProcessing();
    MultiCursorJsonNotInGeneralProcessing();
    FileComparisonNotInGeneralProcessing();
  }

  lemma UnknownRoutes()
    ensures Route(UNKNOWN) == Dispatch(GeneralProcessing)
  {
    ContainsWithin([], UNKNOWN, []);
    assert [] + UNKNOWN + [] == UNKNOWN;
    ClassifiesAsUnknown();
  }

  lemma DateRangeCalculationRoutes()
    ensures Route(DATE_RANGE_CALCULATION) == Dispatch(DateRangeCalculation)
  {
    ContainsWithin([], DATE_RANGE_CALCULATION, []);
    assert [] + DATE_RANGE_CALCULATION + [] == DATE_RANGE_CALCULATION;
    ClassifiesAsDateRangeCalculation();
    ZipCsvExtractNotInDateRangeCalculation();
    HttpieRequestNotInDateRangeCalculation();
    NpxPrettierSha256NotInDateRangeCalculation();
    GoogleSheetsFormulaNotInDateRangeCalculation();
    JsonSortNotInDateRangeCalculation();
    MultiCursorJsonNotInDateRangeCalculation();
    FileComparisonNotInDateRangeCalculation();
    GeneralProcessingNotInDateRangeCalculation();
    UnknownNotInDateRangeCalculation();
  }

  lemma CliCommandSimulationRoutes()
    ensures Route(CLI_COMMAND_SIMULATION) == Dispatch(CliCommandSimulation)
  {
    ContainsWithin([], CLI_COMMAND_SIMULATION, []);
    assert [] + CLI_COMMAND_SIMULATION + [] == CLI_COMMAND_SIMULATION;
    ClassifiesAsCliCommandSimulation();
    ZipCsvExtractNotInCliCommandSimulation();
    HttpieRequestNotInCliCommandSimulation();
    NpxPrettierSha256NotInCliCommandSimulation();
    GoogleSheetsFormulaNotInCliCommandSimulation();
    JsonSortNotInCliCommandSimulation();
    MultiCursorJsonNotInCliCommandSimulation();
    FileComparisonNotInCliCommandSimulation();
    GeneralProcessingNotInCliCommandSimulation();
    UnknownNotInCliCommandSimulation();
    DateRangeCalculationNotInCliCommandSimulation();
  }

  lemma FileReplacementSha256Routes()
    ensures Route(FILE_REPLACEMENT_SHA256) == Dispatch(FileReplacementSha256)
  {
    ContainsWithin([], FILE_REPLACEMENT_SHA256, []);
    assert [] + FILE_REPLACEMENT_SHA256 + [] == FILE_REPLACEMENT_SHA256;
    ClassifiesAsFileReplacementSha256();
    ZipCsvExtractNotInFileReplacementSha256();
    HttpieRequestNotInFileReplacementSha256();
    NpxPrettierSha256NotInFileReplacementSha256();
    GoogleSheetsFormulaNotInFileReplacementSha256();
    JsonSortNotInFileReplacementSha256();
    MultiCursorJsonNotInFileReplacementSha256();
    UnicodeDataProcessingNotInFileReplacementSha256();
    FileComparisonNotInFileReplacementSha256();
    GeneralProcessingNotInFileReplacementSha256();
    UnknownNotInFileReplacementSha256();
    DateRangeCalculationNotInFileReplacementSha256();
    CliCommandSimulationNotInFileReplacementSha256();
  }

  lemma FileAttributesListingRoutes()
    ensures Route(FILE_ATTRIBUTES_LISTING) == Dispatch(FileAttributesListing)
  {
    ContainsWithin([], FILE_ATTRIBUTES_LISTING, []);
    assert [] + FILE_ATTRIBUTES_LISTING + [] == FILE_ATTRIBUTES_LISTING;
    ClassifiesAsFileAttributesListing();
    ZipCsvExtractNotInFileAttributesListing();
    HttpieRequestNotInFileAttributesListing();
    NpxPrettierSha256NotInFileAttributesListing();
    GoogleSheetsFormulaNotInFileAttributesListing();
    JsonSortNotInFileAttributesListing();
    MultiCursorJsonNotInFileAttributesListing();
    UnicodeDataProcessingNotInFileAttributesListing();
    FileComparisonNotInFileAttributesListing();
    GeneralProcessingNotInFileAttributesListing();
    UnknownNotInFileAttributesListing();
    DateRangeCalculationNotInFileAttributesListing();
    CliCommandSimulationNotInFileAttributesListing();
    FileReplacementSha256NotInFileAttributesListing();
  }

  lemma SqlSalesCalculationRoutes()
    ensures Route(SQL_SALES_CALCULATION) == Dispatch(SqlSalesCalculation)
  {
    ContainsWithin([], SQL_SALES_CALCULATION, []);
    assert [] + SQL_SALES_CALCULATION + [] == SQL_SALES_CALCULATION;
    ClassifiesAsSqlSalesCalculation();
    ZipCsvExtractNotInSqlSalesCalculation();
    HttpieRequestNotInSqlSalesCalculation();
    NpxPrettierSha256NotInSqlSalesCalculation();
    GoogleSheetsFormulaNotInSqlSalesCalculation();
    JsonSortNotInSqlSalesCalculation();
    MultiCursorJsonNotInSqlSalesCalculation();
    FileComparisonNotInSqlSalesCalculation();
    GeneralProcessingNotInSqlSalesCalculation();
    UnknownNotInSqlSalesCalculation();
  }

  lemma MarkdownDocumentationRoutes()
    ensures Route(MARKDOWN_DOCUMENTATION) == Dispatch(MarkdownDocumentation)
  {
    ContainsWithin([], MARKDOWN_DOCUMENTATION, []);
    assert [] + MARKDOWN_DOCUMENTATION + [] == MARKDOWN_DOCUMENTATION;
    ClassifiesAsMarkdownDocumentation();
    ZipCsvExtractNotInMarkdownDocumentation();
    HttpieRequestNotInMarkdownDocumentation();
    NpxPrettierSha256NotInMarkdownDocumentation();
    GoogleSheetsFormulaNotInMarkdownDocumentation();
    JsonSortNotInMarkdownDocumentation();
    MultiCursorJsonNotInMarkdownDocumentation();
    FileComparisonNotInMarkdownDocumentation();
    GeneralProcessingNotInMarkdownDocumentation();
    UnknownNotInMarkdownDocumentation();
    DateRangeCalculationNotInMarkdownDocumentation();
    CliCommandSimulationNotInMarkdownDocumentation();
    SqlSalesCalculationNotInMarkdownDocumentation();
  }

  lemma ImageCompressionRoutes()
    ensures Route(IMAGE_COMPRESSION) == Dispatch(ImageCompression)
  {
    ContainsWithin([], IMAGE_COMPRESSION, []);
    assert [] + IMAGE_COMPRESSION + [] == IMAGE_COMPRESSION;
    ClassifiesAsImageCompression();
    ZipCsvExtractNotInImageCompression();
    HttpieRequestNotInImageCompression();
    JsonSortNotInImageCompression();
    MultiCursorJsonNotInImageCompression();
    FileComparisonNotInImageCompression();
    UnknownNotInImageCompression();
    // the remaining labels are longer than this one
    var c := IMAGE_COMPRESSION;
    assert !Contains(c, NPX_PRETTIER_SHA256) && !Contains(c, GOOGLE_SHEETS_FORMULA);
    assert !Contains(c, UNICODE_DATA_PROCESSING) && !Contains(c, EXCEL_FORMULA_PROCESSING);
    assert !Contains(c, GENERAL_PROCESSING) && !Contains(c, DATE_RANGE_CALCULATION);
    assert !Contains(c, CLI_COMMAND_SIMULATION) && !Contains(c, FILE_REPLACEMENT_SHA256);
    assert !Contains(c, FILE_ATTRIBUTES_LISTING) && !Contains(c, SQL_SALES_CALCULATION);
    assert !Contains(c, MARKDOWN_DOCUMENTATION);
  }

  lemma DockerImagePushRoutes()
    ensures Route(DOCKER_IMAGE_PUSH) == Dispatch(DockerImagePush)
  {
    var c := DOCKER_IMAGE_PUSH;
    ContainsWithin([], c, []);
    assert [] + c + [] == c;
    ClassifiesAsDockerImagePush();
    ZipCsvExtractNotInDockerImagePush();
    HttpieRequestNotInDockerImagePush();
    JsonSortNotInDockerImagePush();
    MultiCursorJsonNotInDockerImagePush();
    FileComparisonNotInDockerImagePush();
    UnknownNotInDockerImagePush();
    ImageCompressionNotInDockerImagePush();
    // the remaining labels are longer than this one
    assert !Contains(c, NPX_PRETTIER_SHA256) && !Contains(c, GOOGLE_SHEETS_FORMULA);
    assert !Contains(c, UNICODE_DATA_PROCESSING) && !Contains(c, EXCEL_FORMULA_PROCESSING);
    assert !Contains(c, GENERAL_PROCESSING) && !Contains(c, DATE_RANGE_CALCULATION);
    assert !Contains(c, CLI_COMMAND_SIMULATION) && !Contains(c, FILE_REPLACEMENT_SHA256);
    assert !Contains(c, FILE_ATTRIBUTES_LISTING) && !Contains(c, SQL_SALES_CALCULATION);
    assert !Contains(c, MARKDOWN_DOCUMENTATION);
  }

  /** The branch for FILE_MOVE_RENAME_HASH is commented out: that reply gets
      the error envelope. */
  lemma MoveRenameLabelUnrouted()
    ensures Route(FILE_MOVE_RENAME_HASH) == Unrecognized(FILE_MOVE_RENAME_HASH)
  {
    ClassifiesAsFileMoveRenameHash();
    ZipCsvExtractNotInFileMoveRenameHash();
    HttpieRequestNotInFileMoveRenameHash();
    NpxPrettierSha256NotInFileMoveRenameHash();
    GoogleSheetsFormulaNotInFileMoveRenameHash();
    JsonSortNotInFileMoveRenameHash();
    MultiCursorJsonNotInFileMoveRenameHash();
    FileComparisonNotInFileMoveRenameHash();
    GeneralProcessingNotInFileMoveRenameHash();
    UnknownNotInFileMoveRenameHash();
    SqlSalesCalculationNotInFileMoveRenameHash();
    ImageCompressionNotInFileMoveRenameHash();
    DockerImagePushNotInFileMoveRenameHash();
  }

  // Pairwise non-containment of the label constants, one per proof
  // obligation: each is decided by comparing six characters per position.

  lemma ZipCsvExtractNotInNpxPrettierSha256()
    ensures !Contains(NPX_PRETTIER_SHA256, ZIP_CSV_EXTRACT)
  {
    NotContainsBySixChars(NPX_PRETTIER_SHA256, ZIP_CSV_EXTRACT);
  }

  lemma HttpieRequestNotInNpxPrettierSha256()
    ensures !Contains(NPX_PRETTIER_SHA256, HTTPIE_REQUEST)
  {
    NotContainsBySixChars(NPX_PRETTIER_SHA256, HTTPIE_REQUEST);
  }

  lemma ZipCsvExtractNotInGoogleSheetsFormula()
    ensures !Contains(GOOGLE_SHEETS_FORMULA, ZIP_CSV_EXTRACT)
  {
    NotContainsBySixChars(GOOGLE_SHEETS_FORMULA, ZIP_CSV_EXTRACT);
  }

  lemma HttpieRequestNotInGoogleSheetsFormula()
    ensures !Contains(GOOGLE_SHEETS_FORMULA, HTTPIE_REQUEST)
  {
    NotContainsBySixChars(GOOGLE_SHEETS_FORMULA, HTTPIE_REQUEST);
  }

  lemma NpxPrettierSha256NotInGoogleSheetsFormula()
    ensures !Contains(GOOGLE_SHEETS_FORMULA, NPX_PRETTIER_SHA256)
  {
    NotContainsBySixChars(GOOGLE_SHEETS_FORMULA, NPX_PRETTIER_SHA256);
  }

  lemma ZipCsvExtractNotInMultiCursorJson()
    ensures !Contains(MULTI_CURSOR_JSON, ZIP_CSV_EXTRACT)
  {
    NotContainsBySixChars(MULTI_CURSOR_JSON, ZIP_CSV_EXTRACT);
  }

  lemma HttpieRequestNotInMultiCursorJson()
    ensures !Contains(MULTI_CURSOR_JSON, HTTPIE_REQUEST)
  {
    NotContainsBySixChars(MULTI_CURSOR_JSON, HTTPIE_REQUEST);
  }

  lemma JsonSortNotInMultiCursorJson()
    ensures !Contains(MULTI_CURSOR_JSON, JSON_SORT)
  {
    NotContainsBySixChars(MULTI_CURSOR_JSON, JSON_SORT);
  }

  lemma ZipCsvExtractNotInUnicodeDataProcessing()
    ensures !Contains(UNICODE_DATA_PROCESSING, ZIP_CSV_EXTRACT)
  {
    NotContainsBySixChars(UNICODE_DATA_PROCESSING, ZIP_CSV_EXTRACT);
  }

  lemma HttpieRequestNotInUnicodeDataProcessing()
    ensures !Contains(UNICODE_DATA_PROCESSING, HTTPIE_REQUEST)
  {
    NotContainsBySixChars(UNICODE_DATA_PROCESSING, HTTPIE_REQUEST);
  }

  lemma NpxPrettierSha256NotInUnicodeDataProcessing()
    ensures !Contains(UNICODE_DATA_PROCESSING, NPX_PRETTIER_SHA256)
  {
    NotContainsBySixChars(UNICODE_DATA_PROCESSING, NPX_PRETTIER_SHA256);
  }

  lemma GoogleSheetsFormulaNotInUnicodeDataProcessing()
    ensures !Contains(UNICODE_DATA_PROCESSING, GOOGLE_SHEETS_FORMULA)
  {
    NotContainsBySixChars(UNICODE_DATA_PROCESSING, GOOGLE_SHEETS_FORMULA);
  }

  lemma JsonSortNotInUnicodeDataProcessing()
    ensures !Contains(UNICODE_DATA_PROCESSING, JSON_SORT)
  {
    NotContainsBySixChars(UNICODE_DATA_PROCESSING, JSON_SORT);
  }

  lemma MultiCursorJsonNotInUnicodeDataProcessing()
    ensures !Contains(UNICODE_DATA_PROCESSING, MULTI_CURSOR_JSON)
  {
    NotContainsBySixChars(UNICODE_DATA_PROCESSING, MULTI_CURSOR_JSON);
  }

  lemma ZipCsvExtractNotInFileComparison()
    ensures !Contains(FILE_COMPARISON, ZIP_CSV_EXTRACT)
  {
    NotContainsBySixChars(FILE_COMPARISON, ZIP_CSV_EXTRACT);
  }

  lemma HttpieRequestNotInFileComparison()
    ensures !Contains(FILE_COMPARISON, HTTPIE_REQUEST)
  {
    NotContainsBySixChars(FILE_COMPARISON, HTTPIE_REQUEST);
  }

  lemma JsonSortNotInFileComparison()
    ensures !Contains(FILE_COMPARISON, JSON_SORT)
  {
    NotContainsBySixChars(FILE_COMPARISON, JSON_SORT);
  }

  lemma ZipCsvExtractNotInExcelFormulaProcessing()
    ensures !Contains(EXCEL_FORMULA_PROCESSING, ZIP_CSV_EXTRACT)
  {
    NotContainsBySixChars(EXCEL_FORMULA_PROCESSING, ZIP_CSV_EXTRACT);
  }

  lemma HttpieRequestNotInExcelFormulaProcessing()
    ensures !Contains(EXCEL_FORMULA_PROCESSING, HTTPIE_REQUEST)
  {
    NotContainsBySixChars(EXCEL_FORMULA_PROCESSING, HTTPIE_REQUEST);
  }

  lemma NpxPrettierSha256NotInExcelFormulaProcessing()
    ensures !Contains(EXCEL_FORMULA_PROCESSING, NPX_PRETTIER_SHA256)
  {
    NotContainsBySixChars(EXCEL_FORMULA_PROCESSING, NPX_PRETTIER_SHA256);
  }

  lemma GoogleSheetsFormulaNotInExcelFormulaProcessing()
    ensures !Contains(EXCEL_FORMULA_PROCESSING, GOOGLE_SHEETS_FORMULA)
  {
    NotContainsBySixChars(EXCEL_FORMULA_PROCESSING, GOOGLE_SHEETS_FORMULA);
  }

  lemma JsonSortNotInExcelFormulaProcessing()
    ensures !Contains(EXCEL_FORMULA_PROCESSING, JSON_SORT)
  {
    NotContainsBySixChars(EXCEL_FORMULA_PROCESSING, JSON_SORT);
  }

  lemma MultiCursorJsonNotInExcelFormulaProcessing()
    ensures !Contains(EXCEL_FORMULA_PROCESSING, MULTI_CURSOR_JSON)
  {
    NotContainsBySixChars(EXCEL_FORMULA_PROCESSING, MULTI_CURSOR_JSON);
  }

  lemma UnicodeDataProcessingNotInExcelFormulaProcessing()
    ensures !Contains(EXCEL_FORMULA_PROCESSING, UNICODE_DATA_PROCESSING)
  {
    NotContainsBySixChars(EXCEL_FORMULA_PROCESSING, UNICODE_DATA_PROCESSING);
  }

  lemma FileComparisonNotInExcelFormulaProcessing()
    ensures !Contains(EXCEL_FORMULA_PROCESSING, FILE_COMPARISON)
  {
    NotContainsBySixChars(EXCEL_FORMULA_PROCESSING, FILE_COMPARISON);
  }

  lemma ZipCsvExtractNotInGeneralProcessing()
    ensures !Contains(GENERAL_PROCESSING, ZIP_CSV_EXTRACT)
  {
    NotContainsBySixChars(GENERAL_PROCESSING, ZIP_CSV_EXTRACT);
  }

  lemma HttpieRequestNotInGeneralProcessing()
    ensures !Contains(GENERAL_PROCESSING, HTTPIE_REQUEST)
  {
    NotContainsBySixChars(GENERAL_PROCESSING, HTTPIE_REQUEST);
  }

  lemma JsonSortNotInGeneralProcessing()
    ensures !Contains(GENERAL_PROCESSING, JSON_SORT)
  {
    NotContainsBySixChars(GENERAL_PROCESSING, JSON_SORT);
  }

  lemma MultiCursorJsonNotInGeneralProcessing()
    ensures !Contains(GENERAL_PROCESSING, MULTI_CURSOR_JSON)
  {
    NotContainsBySixChars(GENERAL_PROCESSING, MULTI_CURSOR_JSON);
  }

  lemma FileComparisonNotInGeneralProcessing()
    ensures !Contains(GENERAL_PROCESSING, FILE_COMPARISON)
  {
    NotContainsBySixChars(GENERAL_PROCESSING, FILE_COMPARISON);
  }

  lemma ZipCsvExtractNotInDateRangeCalculation()
    ensures !Contains(DATE_RANGE_CALCULATION, ZIP_CSV_EXTRACT)
  {
    NotContainsBySixChars(DATE_RANGE_CALCULATION, ZIP_CSV_EXTRACT);
  }

  lemma HttpieRequestNotInDateRangeCalculation()
    ensures !Contains(DATE_RANGE_CALCULATION, HTTPIE_REQUEST)
  {
    NotContainsBySixChars(DATE_RANGE_CALCULATION, HTTPIE_REQUEST);
  }

  lemma NpxPrettierSha256NotInDateRangeCalculation()
    ensures !Contains(DATE_RANGE_CALCULATION, NPX_PRETTIER_SHA256)
  {
    NotContainsBySixChars(DATE_RANGE_CALCULATION, NPX_PRETTIER_SHA256);
  }

  lemma GoogleSheetsFormulaNotInDateRangeCalculation()
    ensures !Contains(DATE_RANGE_CALCULATION, GOOGLE_SHEETS_FORMULA)
  {
    NotContainsBySixChars(DATE_RANGE_CALCULATION, GOOGLE_SHEETS_FORMULA);
  }

  lemma JsonSortNotInDateRangeCalculation()
    ensures !Contains(DATE_RANGE_CALCULATION, JSON_SORT)
  {
    NotContainsBySixChars(DATE_RANGE_CALCULATION, JSON_SORT);
  }

  lemma MultiCursorJsonNotInDateRangeCalculation()
    ensures !Contains(DATE_RANGE_CALCULATION, MULTI_CURSOR_JSON)
  {
    NotContainsBySixChars(DATE_RANGE_CALCULATION, MULTI_CURSOR_JSON);
  }

  lemma FileComparisonNotInDateRangeCalculation()
    ensures !Contains(DATE_RANGE_CALCULATION, FILE_COMPARISON)
  {
    NotContainsBySixChars(DATE_RANGE_CALCULATION, FILE_COMPARISON);
  }

  lemma GeneralProcessingNotInDateRangeCalculation()
    ensures !Contains(DATE_RANGE_CALCULATION, GENERAL_PROCESSING)
  {
    NotContainsBySixChars(DATE_RANGE_CALCULATION, GENERAL_PROCESSING);
  }

  lemma UnknownNotInDateRangeCalculation()
    ensures !Contains(DATE_RANGE_CALCULATION, UNKNOWN)
  {
    NotContainsBySixChars(DATE_RANGE_CALCULATION, UNKNOWN);
  }

  lemma ZipCsvExtractNotInCliCommandSimulation()
    ensures !Contains(CLI_COMMAND_SIMULATION, ZIP_CSV_EXTRACT)
  {
    NotContainsBySixChars(CLI_COMMAND_SIMULATION, ZIP_CSV_EXTRACT);
  }

  lemma HttpieRequestNotInCliCommandSimulation()
    ensures !Contains(CLI_COMMAND_SIMULATION, HTTPIE_REQUEST)
  {
    NotContainsBySixChars(CLI_COMMAND_SIMULATION, HTTPIE_REQUEST);
  }

  lemma NpxPrettierSha256NotInCliCommandSimulation()
    ensures !Contains(CLI_COMMAND_SIMULATION, NPX_PRETTIER_SHA256)
  {
    NotContainsBySixChars(CLI_COMMAND_SIMULATION, NPX_PRETTIER_SHA256);
  }

  lemma GoogleSheetsFormulaNotInCliCommandSimulation()
    ensures !Contains(CLI_COMMAND_SIMULATION, GOOGLE_SHEETS_FORMULA)
  {
    NotContainsBySixChars(CLI_COMMAND_SIMULATION, GOOGLE_SHEETS_FORMULA);
  }

  lemma JsonSortNotInCliCommandSimulation()
    ensures !Contains(CLI_COMMAND_SIMULATION, JSON_SORT)
  {
    NotContainsBySixChars(CLI_COMMAND_SIMULATION, JSON_SORT);
  }

  lemma MultiCursorJsonNotInCliCommandSimulation()
    ensures !Contains(CLI_COMMAND_SIMULATION, MULTI_CURSOR_JSON)
  {
    NotContainsBySixChars(CLI_COMMAND_SIMULATION, MULTI_CURSOR_JSON);
  }

  lemma FileComparisonNotInCliCommandSimulation()
    ensures !Contains(CLI_COMMAND_SIMULATION, FILE_COMPARISON)
  {
    NotContainsBySixChars(CLI_COMMAND_SIMULATION, FILE_COMPARISON);
  }

  lemma GeneralProcessingNotInCliCommandSimulation()
    ensures !Contains(CLI_COMMAND_SIMULATION, GENERAL_PROCESSING)
  {
    NotContainsBySixChars(CLI_COMMAND_SIMULATION, GENERAL_PROCESSING);
  }

  lemma UnknownNotInCliCommandSimulation()
    ensures !Contains(CLI_COMMAND_SIMULATION, UNKNOWN)
  {
    NotContainsBySixChars(CLI_COMMAND_SIMULATION, UNKNOWN);
  }

  lemma DateRangeCalculationNotInCliCommandSimulation()
    ensures !Contains(CLI_COMMAND_SIMULATION, DATE_RANGE_CALCULATION)
  {
    NotContainsBySixChars(CLI_COMMAND_SIMULATION, DATE_RANGE_CALCULATION);
  }

  lemma ZipCsvExtractNotInFileReplacementSha256()
    ensures !Contains(FILE_REPLACEMENT_SHA256, ZIP_CSV_EXTRACT)
  {
    NotContainsBySixChars(FILE_REPLACEMENT_SHA256, ZIP_CSV_EXTRACT);
  }

  lemma HttpieRequestNotInFileReplacementSha256()
    ensures !Contains(FILE_REPLACEMENT_SHA256, HTTPIE_REQUEST)
  {
    NotContainsBySixChars(FILE_REPLACEMENT_SHA256, HTTPIE_REQUEST);
  }

  lemma NpxPrettierSha256NotInFileReplacementSha256()
    ensures !Contains(FILE_REPLACEMENT_SHA256, NPX_PRETTIER_SHA256)
  {
    NotContainsBySixChars(FILE_REPLACEMENT_SHA256, NPX_PRETTIER_SHA256);
  }

  lemma GoogleSheetsFormulaNotInFileReplacementSha256()
    ensures !Contains(FILE_REPLACEMENT_SHA256, GOOGLE_SHEETS_FORMULA)
  {
    NotContainsBySixChars(FILE_REPLACEMENT_SHA256, GOOGLE_SHEETS_FORMULA);
  }

  lemma JsonSortNotInFileReplacementSha256()
    ensures !Contains(FILE_REPLACEMENT_SHA256, JSON_SORT)
  {
    NotContainsBySixChars(FILE_REPLACEMENT_SHA256, JSON_SORT);
  }

  lemma MultiCursorJsonNotInFileReplacementSha256()
    ensures !Contains(FILE_REPLACEMENT_SHA256, MULTI_CURSOR_JSON)
  {
    NotContainsBySixChars(FILE_REPLACEMENT_SHA256, MULTI_CURSOR_JSON);
  }

  lemma UnicodeDataProcessingNotInFileReplacementSha256()
    ensures !Contains(FILE_REPLACEMENT_SHA256, UNICODE_DATA_PROCESSING)
  {
    NotContainsBySixChars(FILE_REPLACEMENT_SHA256, UNICODE_DATA_PROCESSING);
  }

  lemma FileComparisonNotInFileReplacementSha256()
    ensures !Contains(FILE_REPLACEMENT_SHA256, FILE_COMPARISON)
  {
    NotContainsBySixChars(FILE_REPLACEMENT_SHA256, FILE_COMPARISON);
  }

  lemma GeneralProcessingNotInFileReplacementSha256()
    ensures !Contains(FILE_REPLACEMENT_SHA256, GENERAL_PROCESSING)
  {
    NotContainsBySixChars(FILE_REPLACEMENT_SHA256, GENERAL_PROCESSING);
  }

  lemma UnknownNotInFileReplacementSha256()
    ensures !Contains(FILE_REPLACEMENT_SHA256, UNKNOWN)
  {
    NotContainsBySixChars(FILE_REPLACEMENT_SHA256, UNKNOWN);
  }

  lemma DateRangeCalculationNotInFileReplacementSha256()
    ensures !Contains(FILE_REPLACEMENT_SHA256, DATE_RANGE_CALCULATION)
  {
    NotContainsBySixChars(FILE_REPLACEMENT_SHA256, DATE_RANGE_CALCULATION);
  }

  lemma CliCommandSimulationNotInFileReplacementSha256()
    ensures !Contains(FILE_REPLACEMENT_SHA256, CLI_COMMAND_SIMULATION)
  {
    NotContainsBySixChars(FILE_REPLACEMENT_SHA256, CLI_COMMAND_SIMULATION);
  }

  lemma ZipCsvExtractNotInFileAttributesListing()
    ensures !Contains(FILE_ATTRIBUTES_LISTING, ZIP_CSV_EXTRACT)
  {
    NotContainsBySixChars(FILE_ATTRIBUTES_LISTING, ZIP_CSV_EXTRACT);
  }

  lemma HttpieRequestNotInFileAttributesListing()
    ensures !Contains(FILE_ATTRIBUTES_LISTING, HTTPIE_REQUEST)
  {
    NotContainsBySixChars(FILE_ATTRIBUTES_LISTING, HTTPIE_REQUEST);
  }

  lemma NpxPrettierSha256NotInFileAttributesListing()
    ensures !Contains(FILE_ATTRIBUTES_LISTING, NPX_PRETTIER_SHA256)
  {
    NotContainsBySixChars(FILE_ATTRIBUTES_LISTING, NPX_PRETTIER_SHA256);
  }

  lemma GoogleSheetsFormulaNotInFileAttributesListing()
    ensures !Contains(FILE_ATTRIBUTES_LISTING, GOOGLE_SHEETS_FORMULA)
  {
    NotContainsBySixChars(FILE_ATTRIBUTES_LISTING, GOOGLE_SHEETS_FORMULA);
  }

  lemma JsonSortNotInFileAttributesListing()
    ensures !Contains(FILE_ATTRIBUTES_LISTING, JSON_SORT)
  {
    NotContainsBySixChars(FILE_ATTRIBUTES_LISTING, JSON_SORT);
  }

  lemma MultiCursorJsonNotInFileAttributesListing()
    ensures !Contains(FILE_ATTRIBUTES_LISTING, MULTI_CURSOR_JSON)
  {
    NotContainsBySixChars(FILE_ATTRIBUTES_LISTING, MULTI_CURSOR_JSON);
  }

  lemma UnicodeDataProcessingNotInFileAttributesListing()
    ensures !Contains(FILE_ATTRIBUTES_LISTING, UNICODE_DATA_PROCESSING)
  {
    NotContainsBySixChars(FILE_ATTRIBUTES_LISTING, UNICODE_DATA_PROCESSING);
  }

  lemma FileComparisonNotInFileAttributesListing()
    ensures !Contains(FILE_ATTRIBUTES_LISTING, FILE_COMPARISON)
  {
    NotContainsBySixChars(FILE_ATTRIBUTES_LISTING, FILE_COMPARISON);
  }

  lemma GeneralProcessingNotInFileAttributesListing()
    ensures !Contains(FILE_ATTRIBUTES_LISTING, GENERAL_PROCESSING)
  {
    NotContainsBySixChars(FILE_ATTRIBUTES_LISTING, GENERAL_PROCESSING);
  }

  lemma UnknownNotInFileAttributesListing()
    ensures !Contains(FILE_ATTRIBUTES_LISTING, UNKNOWN)
  {
    NotContainsBySixChars(FILE_ATTRIBUTES_LISTING, UNKNOWN);
  }

  lemma DateRangeCalculationNotInFileAttributesListing()
    ensures !Contains(FILE_ATTRIBUTES_LISTING, DATE_RANGE_CALCULATION)
  {
    NotContainsBySixChars(FILE_ATTRIBUTES_LISTING, DATE_RANGE_CALCULATION);
  }

  lemma CliCommandSimulationNotInFileAttributesListing()
    ensures !Contains(FILE_ATTRIBUTES_LISTING, CLI_COMMAND_SIMULATION)
  {
    NotContainsBySixChars(FILE_ATTRIBUTES_LISTING, CLI_COMMAND_SIMULATION);
  }

  lemma FileReplacementSha256NotInFileAttributesListing()
    ensures !Contains(FILE_ATTRIBUTES_LISTING, FILE_REPLACEMENT_SHA256)
  {
    NotContainsBySixChars(FILE_ATTRIBUTES_LISTING, FILE_REPLACEMENT_SHA256);
  }

  lemma ZipCsvExtractNotInSqlSalesCalculation()
    ensures !Contains(SQL_SALES_CALCULATION, ZIP_CSV_EXTRACT)
  {
    NotContainsBySixChars(SQL_SALES_CALCULATION, ZIP_CSV_EXTRACT);
  }

  lemma HttpieRequestNotInSqlSalesCalculation()
    ensures !Contains(SQL_SALES_CALCULATION, HTTPIE_REQUEST)
  {
    NotContainsBySixChars(SQL_SALES_CALCULATION, HTTPIE_REQUEST);
  }

  lemma NpxPrettierSha256NotInSqlSalesCalculation()
    ensures !Contains(SQL_SALES_CALCULATION, NPX_PRETTIER_SHA256)
  {
    NotContainsBySixChars(SQL_SALES_CALCULATION, NPX_PRETTIER_SHA256);
  }

  lemma GoogleSheetsFormulaNotInSqlSalesCalculation()
    ensures !Contains(SQL_SALES_CALCULATION, GOOGLE_SHEETS_FORMULA)
  {
    NotContainsBySixChars(SQL_SALES_CALCULATION, GOOGLE_SHEETS_FORMULA);
  }

  lemma JsonSortNotInSqlSalesCalculation()
    ensures !Contains(SQL_SALES_CALCULATION, JSON_SORT)
  {
    NotContainsBySixChars(SQL_SALES_CALCULATION, JSON_SORT);
  }

  lemma MultiCursorJsonNotInSqlSalesCalculation()
    ensures !Contains(SQL_SALES_CALCULATION, MULTI_CURSOR_JSON)
  {
    NotContainsBySixChars(SQL_SALES_CALCULATION, MULTI_CURSOR_JSON);
  }

  lemma FileComparisonNotInSqlSalesCalculation()
    ensures !Contains(SQL_SALES_CALCULATION, FILE_COMPARISON)
  {
    NotContainsBySixChars(SQL_SALES_CALCULATION, FILE_COMPARISON);
  }

  lemma GeneralProcessingNotInSqlSalesCalculation()
    ensures !Contains(SQL_SALES_CALCULATION, GENERAL_PROCESSING)
  {
    NotContainsBySixChars(SQL_SALES_CALCULATION, GENERAL_PROCESSING);
  }

  lemma UnknownNotInSqlSalesCalculation()
    ensures !Contains(SQL_SALES_CALCULATION, UNKNOWN)
  {
    NotContainsBySixChars(SQL_SALES_CALCULATION, UNKNOWN);
  }

  lemma ZipCsvExtractNotInMarkdownDocumentation()
    ensures !Contains(MARKDOWN_DOCUMENTATION, ZIP_CSV_EXTRACT)
  {
    NotContainsBySixChars(MARKDOWN_DOCUMENTATION, ZIP_CSV_EXTRACT);
  }

  lemma HttpieRequestNotInMarkdownDocumentation()
    ensures !Contains(MARKDOWN_DOCUMENTATION, HTTPIE_REQUEST)
  {
    NotContainsBySixChars(MARKDOWN_DOCUMENTATION, HTTPIE_REQUEST);
  }

  lemma NpxPrettierSha256NotInMarkdownDocumentation()
    ensures !Contains(MARKDOWN_DOCUMENTATION, NPX_PRETTIER_SHA256)
  {
    NotContainsBySixChars(MARKDOWN_DOCUMENTATION, NPX_PRETTIER_SHA256);
  }

  lemma GoogleSheetsFormulaNotInMarkdownDocumentation()
    ensures !Contains(MARKDOWN_DOCUMENTATION, GOOGLE_SHEETS_FORMULA)
  {
    NotContainsBySixChars(MARKDOWN_DOCUMENTATION, GOOGLE_SHEETS_FORMULA);
  }

  lemma JsonSortNotInMarkdownDocumentation()
    ensures !Contains(MARKDOWN_DOCUMENTATION, JSON_SORT)
  {
    NotContainsBySixChars(MARKDOWN_DOCUMENTATION, JSON_SORT);
  }

  lemma MultiCursorJsonNotInMarkdownDocumentation()
    ensures !Contains(MARKDOWN_DOCUMENTATION, MULTI_CURSOR_JSON)
  {
    NotContainsBySixChars(MARKDOWN_DOCUMENTATION, MULTI_CURSOR_JSON);
  }

  lemma FileComparisonNotInMarkdownDocumentation()
    ensures !Contains(MARKDOWN_DOCUMENTATION, FILE_COMPARISON)
  {
    NotContainsBySixChars(MARKDOWN_DOCUMENTATION, FILE_COMPARISON);
  }

  lemma GeneralProcessingNotInMarkdownDocumentation()
    ensures !Contains(MARKDOWN_DOCUMENTATION, GENERAL_PROCESSING)
  {
    NotContainsBySixChars(MARKDOWN_DOCUMENTATION, GENERAL_PROCESSING);
  }

  lemma UnknownNotInMarkdownDocumentation()
    ensures !Contains(MARKDOWN_DOCUMENTATION, UNKNOWN)
  {
    NotContainsBySixChars(MARKDOWN_DOCUMENTATION, UNKNOWN);
  }

  lemma DateRangeCalculationNotInMarkdownDocumentation()
    ensures !Contains(MARKDOWN_DOCUMENTATION, DATE_RANGE_CALCULATION)
  {
    NotContainsBySixChars(MARKDOWN_DOCUMENTATION, DATE_RANGE_CALCULATION);
  }

  lemma CliCommandSimulationNotInMarkdownDocumentation()
    ensures !Contains(MARKDOWN_DOCUMENTATION, CLI_COMMAND_SIMULATION)
  {
    NotContainsBySixChars(MARKDOWN_DOCUMENTATION, CLI_COMMAND_SIMULATION);
  }

  lemma SqlSalesCalculationNotInMarkdownDocumentation()
    ensures !Contains(MARKDOWN_DOCUMENTATION, SQL_SALES_CALCULATION)
  {
    NotContainsBySixChars(MARKDOWN_DOCUMENTATION, SQL_SALES_CALCULATION);
  }

  lemma ZipCsvExtractNotInImageCompression()
    ensures !Contains(IMAGE_COMPRESSION, ZIP_CSV_EXTRACT)
  {
    NotContainsBySixChars(IMAGE_COMPRESSION, ZIP_CSV_EXTRACT);
  }

  lemma HttpieRequestNotInImageCompression()
    ensures !Contains(IMAGE_COMPRESSION, HTTPIE_REQUEST)
  {
    NotContainsBySixChars(IMAGE_COMPRESSION, HTTPIE_REQUEST);
  }

  lemma JsonSortNotInImageCompression()
    ensures !Contains(IMAGE_COMPRESSION, JSON_SORT)
  {
    NotContainsBySixChars(IMAGE_COMPRESSION, JSON_SORT);
  }

  lemma MultiCursorJsonNotInImageCompression()
    ensures !Contains(IMAGE_COMPRESSION, MULTI_CURSOR_JSON)
  {
    NotContainsBySixChars(IMAGE_COMPRESSION, MULTI_CURSOR_JSON);
  }

  lemma FileComparisonNotInImageCompression()
    ensures !Contains(IMAGE_COMPRESSION, FILE_COMPARISON)
  {
    NotContainsBySixChars(IMAGE_COMPRESSION, FILE_COMPARISON);
  }

  lemma UnknownNotInImageCompression()
    ensures !Contains(IMAGE_COMPRESSION, UNKNOWN)
  {
    NotContainsBySixChars(IMAGE_COMPRESSION, UNKNOWN);
  }

  lemma ZipCsvExtractNotInDockerImagePush()
    ensures !Contains(DOCKER_IMAGE_PUSH, ZIP_CSV_EXTRACT)
  {
    NotContainsBySixChars(DOCKER_IMAGE_PUSH, ZIP_CSV_EXTRACT);
  }

  lemma HttpieRequestNotInDockerImagePush()
    ensures !Contains(DOCKER_IMAGE_PUSH, HTTPIE_REQUEST)
  {
    NotContainsBySixChars(DOCKER_IMAGE_PUSH, HTTPIE_REQUEST);
  }

  lemma JsonSortNotInDockerImagePush()
    ensures !Contains(DOCKER_IMAGE_PUSH, JSON_SORT)
  {
    NotContainsBySixChars(DOCKER_IMAGE_PUSH, JSON_SORT);
  }

  lemma MultiCursorJsonNotInDockerImagePush()
    ensures !Contains(DOCKER_IMAGE_PUSH, MULTI_CURSOR_JSON)
  {
    NotContainsBySixChars(DOCKER_IMAGE_PUSH, MULTI_CURSOR_JSON);
  }

  lemma FileComparisonNotInDockerImagePush()
    ensures !Contains(DOCKER_IMAGE_PUSH, FILE_COMPARISON)
  {
    NotContainsBySixChars(DOCKER_IMAGE_PUSH, FILE_COMPARISON);
  }

  lemma UnknownNotInDockerImagePush()
    ensures !Contains(DOCKER_IMAGE_PUSH, UNKNOWN)
  {
    NotContainsBySixChars(DOCKER_IMAGE_PUSH, UNKNOWN);
  }

  lemma ImageCompressionNotInDockerImagePush()
    ensures !Contains(DOCKER_IMAGE_PUSH, IMAGE_COMPRESSION)
  {
    NotContainsBySixChars(DOCKER_IMAGE_PUSH, IMAGE_COMPRESSION);
  }

  lemma ZipCsvExtractNotInFileMoveRenameHash()
    ensures !Contains(FILE_MOVE_RENAME_HASH, ZIP_CSV_EXTRACT)
  {
    NotContainsBySixChars(FILE_MOVE_RENAME_HASH, ZIP_CSV_EXTRACT);
  }

  lemma HttpieRequestNotInFileMoveRenameHash()
    ensures !Contains(FILE_MOVE_RENAME_HASH, HTTPIE_REQUEST)
  {
    NotContainsBySixChars(FILE_MOVE_RENAME_HASH, HTTPIE_REQUEST);
  }

  lemma NpxPrettierSha256NotInFileMoveRenameHash()
    ensures !Contains(FILE_MOVE_RENAME_HASH, NPX_PRETTIER_SHA256)
  {
    NotContainsBySixChars(FILE_MOVE_RENAME_HASH, NPX_PRETTIER_SHA256);
  }

  lemma GoogleSheetsFormulaNotInFileMoveRenameHash()
    ensures !Contains(FILE_MOVE_RENAME_HASH, GOOGLE_SHEETS_FORMULA)
  {
    NotContainsBySixChars(FILE_MOVE_RENAME_HASH, GOOGLE_SHEETS_FORMULA);
  }

  lemma JsonSortNotInFileMoveRenameHash()
    ensures !Contains(FILE_MOVE_RENAME_HASH, JSON_SORT)
  {
    NotContainsBySixChars(FILE_MOVE_RENAME_HASH, JSON_SORT);
  }

  lemma MultiCursorJsonNotInFileMoveRenameHash()
    ensures !Contains(FILE_MOVE_RENAME_HASH, MULTI_CURSOR_JSON)
  {
    NotContainsBySixChars(FILE_MOVE_RENAME_HASH, MULTI_CURSOR_JSON);
  }

  lemma FileComparisonNotInFileMoveRenameHash()
    ensures !Contains(FILE_MOVE_RENAME_HASH, FILE_COMPARISON)
  {
    NotContainsBySixChars(FILE_MOVE_RENAME_HASH, FILE_COMPARISON);
  }

  lemma GeneralProcessingNotInFileMoveRenameHash()
    ensures !Contains(FILE_MOVE_RENAME_HASH, GENERAL_PROCESSING)
  {
    NotContainsBySixChars(FILE_MOVE_RENAME_HASH, GENERAL_PROCESSING);
  }

  lemma UnknownNotInFileMoveRenameHash()
    ensures !Contains(FILE_MOVE_RENAME_HASH, UNKNOWN)
  {
    NotContainsBySixChars(FILE_MOVE_RENAME_HASH, UNKNOWN);
  }

  lemma SqlSalesCalculationNotInFileMoveRenameHash()
    ensures !Contains(FILE_MOVE_RENAME_HASH, SQL_SALES_CALCULATION)
  {
    NotContainsBySixChars(FILE_MOVE_RENAME_HASH, SQL_SALES_CALCULATION);
  }

  lemma ImageCompressionNotInFileMoveRenameHash()
    ensures !Contains(FILE_MOVE_RENAME_HASH, IMAGE_COMPRESSION)
  {
    NotContainsBySixChars(FILE_MOVE_RENAME_HASH, IMAGE_COMPRESSION);
  }

  lemma DockerImagePushNotInFileMoveRenameHash()
    ensures !Contains(FILE_MOVE_RENAME_HASH, DOCKER_IMAGE_PUSH)
  {
    NotContainsBySixChars(FILE_MOVE_RENAME_HASH, DOCKER_IMAGE_PUSH);
  }

  // Each label is its own classification: upper case, no surrounding space.

  lemma ClassifiesAsZipCsvExtract()
    ensures Classification(ZIP_CSV_EXTRACT) == ZIP_CSV_EXTRACT
  {
    UpperNoLowercase(ZIP_CSV_EXTRACT);
    StripNoEdgeSpace(ZIP_CSV_EXTRACT);
  }

  lemma ClassifiesAsHttpieRequest()
    ensures Classification(HTTPIE_REQUEST) == HTTPIE_REQUEST
  {
    UpperNoLowercase(HTTPIE_REQUEST);
    StripNoEdgeSpace(HTTPIE_REQUEST);
  }

  lemma ClassifiesAsNpxPrettierSha256()
    ensures Classification(NPX_PRETTIER_SHA256) == NPX_PRETTIER_SHA256
  {
    UpperNoLowercase(NPX_PRETTIER_SHA256);
    StripNoEdgeSpace(NPX_PRETTIER_SHA256);
  }

  lemma ClassifiesAsGoogleSheetsFormula()
    ensures Classification(GOOGLE_SHEETS_FORMULA) == GOOGLE_SHEETS_FORMULA
  {
    UpperNoLowercase(GOOGLE_SHEETS_FORMULA);
    StripNoEdgeSpace(GOOGLE_SHEETS_FORMULA);
  }

  lemma ClassifiesAsJsonSort()
    ensures Classification(JSON_SORT) == JSON_SORT
  {
    UpperNoLowercase(JSON_SORT);
    StripNoEdgeSpace(JSON_SORT);
  }

  lemma ClassifiesAsMultiCursorJson()
    ensures Classification(MULTI_CURSOR_JSON) == MULTI_CURSOR_JSON
  {
    UpperNoLowercase(MULTI_CURSOR_JSON);
    StripNoEdgeSpace(MULTI_CURSOR_JSON);
  }

  lemma ClassifiesAsUnicodeDataProcessing()
    ensures Classification(UNICODE_DATA_PROCESSING) == UNICODE_DATA_PROCESSING
  {
    UpperNoLowercase(UNICODE_DATA_PROCESSING);
    StripNoEdgeSpace(UNICODE_DATA_PROCESSING);
  }

  lemma ClassifiesAsFileComparison()
    ensures Classification(FILE_COMPARISON) == FILE_COMPARISON
  {
    UpperNoLowercase(FILE_COMPARISON);
    StripNoEdgeSpace(FILE_COMPARISON);
  }

  lemma ClassifiesAsExcelFormulaProcessing()
    ensures Classification(EXCEL_FORMULA_PROCESSING) == EXCEL_FORMULA_PROCESSING
  {
    UpperNoLowercase(EXCEL_FORMULA_PROCESSING);
    StripNoEdgeSpace(EXCEL_FORMULA_PROCESSING);
  }

  lemma ClassifiesAsGeneralProcessing()
    ensures Classification(GENERAL_PROCESSING) == GENERAL_PROCESSING
  {
    UpperNoLowercase(GENERAL_PROCESSING);
    StripNoEdgeSpace(GENERAL_PROCESSING);
  }

  lemma ClassifiesAsUnknown()
    ensures Classification(UNKNOWN) == UNKNOWN
  {
    UpperNoLowercase(UNKNOWN);
    StripNoEdgeSpace(UNKNOWN);
  }

  lemma ClassifiesAsDateRangeCalculation()
    ensures Classification(DATE_RANGE_CALCULATION) == DATE_RANGE_CALCULATION
  {
    UpperNoLowercase(DATE_RANGE_CALCULATION);
    StripNoEdgeSpace(DATE_RANGE_CALCULATION);
  }

  lemma ClassifiesAsCliCommandSimulation()
    ensures Classification(CLI_COMMAND_SIMULATION) == CLI_COMMAND_SIMULATION
  {
    UpperNoLowercase(CLI_COMMAND_SIMULATION);
    StripNoEdgeSpace(CLI_COMMAND_SIMULATION);
  }

  lemma ClassifiesAsFileReplacementSha256()
    ensures Classification(FILE_REPLACEMENT_SHA256) == FILE_REPLACEMENT_SHA256
  {
    UpperNoLowercase(FILE_REPLACEMENT_SHA256);
    StripNoEdgeSpace(FILE_REPLACEMENT_SHA256);
  }

  lemma ClassifiesAsFileAttributesListing()
    ensures Classification(FILE_ATTRIBUTES_LISTING) == FILE_ATTRIBUTES_LISTING
  {
    UpperNoLowercase(FILE_ATTRIBUTES_LISTING);
    StripNoEdgeSpace(FILE_ATTRIBUTES_LISTING);
  }

  lemma ClassifiesAsSqlSalesCalculation()
    ensures Classification(SQL_SALES_CALCULATION) == SQL_SALES_CALCULATION
  {
    UpperNoLowercase(SQL_SALES_CALCULATION);
    StripNoEdgeSpace(SQL_SALES_CALCULATION);
  }

  lemma ClassifiesAsMarkdownDocumentation()
    ensures Classification(MARKDOWN_DOCUMENTATION) == MARKDOWN_DOCUMENTATION
  {
    UpperNoLowercase(MARKDOWN_DOCUMENTATION);
    StripNoEdgeSpace(MARKDOWN_DOCUMENTATION);
  }

  lemma ClassifiesAsImageCompression()
    ensures Classification(IMAGE_COMPRESSION) == IMAGE_COMPRESSION
  {
    UpperNoLowercase(IMAGE_COMPRESSION);
    StripNoEdgeSpace(IMAGE_COMPRESSION);
  }

  lemma ClassifiesAsDockerImagePush()
    ensures Classification(DOCKER_IMAGE_PUSH) == DOCKER_IMAGE_PUSH
  {
    UpperNoLowercase(DOCKER_IMAGE_PUSH);
    StripNoEdgeSpace(DOCKER_IMAGE_PUSH);
  }

  lemma ClassifiesAsFileMoveRenameHash()
    ensures Classification(FILE_MOVE_RENAME_HASH) == FILE_MOVE_RENAME_HASH
  {
    UpperNoLowercase(FILE_MOVE_RENAME_HASH);
    StripNoEdgeSpace(FILE_MOVE_RENAME_HASH);
  }
}
