/**
 * The checks every ZIP-based handler starts with, and the ZIP/CSV handler's
 * choice of the member to read.
 *
 * A ZIP archive is modelled by the list of its member names
 * (`zip_ref.namelist()`, in archive order); reading a member is left to the
 * handler that needs its contents.
 */
module Archive {
  import opened Text
  import opened Sorting

  const INVALID_ZIP := "Invalid or missing ZIP file"
  const NO_CSV := "No CSV file found in ZIP"

  /** The guard `not file_path or not file_path.lower().endswith('.zip')`
      lets the call through: a path was supplied and names a `.zip`. */
  predicate IsZipPath(path: Option<string>)
  {
    path.Some? && EndsWith(Lower(path.value), ".zip")
  }

  /** `name.lower().endswith(ext)` */
  predicate HasExtension(name: string, ext: string)
  {
    EndsWith(Lower(name), ext)
  }

  lemma LowerOfUpper(s: string)
    ensures Lower(Upper(s)) == Lower(s)
  {
    assert forall k :: 0 <= k < |s| ==> ToLower(ToUpper(s[k])) == ToLower(s[k]);
  }

  /** The extension test ignores case, and an accepted path is never empty
      (so the `not file_path` half of the guard is subsumed). */
  lemma ZipPathIgnoresCase(p: string)
    ensures IsZipPath(Some(p)) <==> IsZipPath(Some(Upper(p)))
    ensures IsZipPath(Some(p)) ==> |p| >= 4
  {
    LowerOfUpper(p);
  }

  /** `next((f for f in names if f.lower().endswith('.csv')), None)` */
  function FirstCsv(names: seq<string>): (r: Option<nat>)
    ensures r.None? <==> forall i :: 0 <= i < |names| ==> !HasExtension(names[i], ".csv")
    ensures r.Some? ==> r.value < |names| && HasExtension(names[r.value], ".csv")
    ensures r.Some? ==> forall i :: 0 <= i < r.value ==> !HasExtension(names[i], ".csv")
  {
    if names == [] then None
    else if HasExtension(names[0], ".csv") then Some(0)
    else match FirstCsv(names[1..])
      case None => None
      case Some(i) => Some(i + 1)
  }

  /** `names[i]` is the first `.csv` name. */
  predicate FirstCsvAt(names: seq<string>, i: nat)
  {
    i < |names| && HasExtension(names[i], ".csv") && forall j :: 0 <= j < i ==> !HasExtension(names[j], ".csv")
  }

  datatype Target = Member(name: string) | Refused(message: string)

  /** Which member `_process_zip_csv_extract` reads, or its error. */
  function ZipCsvTarget(path: Option<string>, names: seq<string>): (t: Target)
    ensures !IsZipPath(path) <==> t == Refused(INVALID_ZIP)
    ensures IsZipPath(path) ==>
      (t == Refused(NO_CSV) <==> forall i :: 0 <= i < |names| ==> !HasExtension(names[i], ".csv"))
    ensures t.Member? ==> exists i: nat :: FirstCsvAt(names, i) && names[i] == t.name
  {
    assert |INVALID_ZIP| != |NO_CSV|;
    if !IsZipPath(path) then Refused(INVALID_ZIP)
    else match FirstCsv(names)
      case None => Refused(NO_CSV)
      case Some(i) => Member(names[i])
  }

  // ---------------------------------------------------------------------------
  // extracted files

  /** An extracted member: its base name and its content as decoded text
      (the decoding itself is not modelled). Each handler reads the text its
      own way: the replacement handler with `newline=''`, so `\r\n` is kept
      as it is, and the move/rename handler in universal-newline mode
      (`MoveRename.ReadText`). */
  datatype File = File(name: string, content: string)

  /** `sorted(files)`: by name, in code-point order. */
  function ByName(files: seq<File>): seq<File>
  {
    SortBy(files, (f: File) => Codes(f.name))
  }
}
