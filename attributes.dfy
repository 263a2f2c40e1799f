/**
 * The file-attributes handler: the sizes of the extracted files that are at
 * least 9552 bytes long and were modified at or after 2000-11-10 02:33 are
 * summed.
 *
 * The modification time is written with `%a, %d %b %Y, %I:%M %p` and read
 * back with the same format before it is compared, so its seconds are
 * dropped and its hour goes through the 12-hour clock.
 */
module Attributes {
  import opened Text
  import opened Archive

  datatype DateTime = DateTime(year: int, month: int, day: int, hour: int, minute: int, second: int)

  /** What `datetime` allows for the time of day. */
  predicate ValidTime(t: DateTime)
  {
    0 <= t.hour < 24 && 0 <= t.minute < 60 && 0 <= t.second < 60
  }

  const REFERENCE := DateTime(2000, 11, 10, 2, 33, 0)
  const MIN_SIZE := 9552

  /** `a >= b` on datetimes: field by field, the year first. */
  predicate NotBefore(a: DateTime, b: DateTime)
  {
    a.year > b.year || (a.year == b.year &&
    (a.month > b.month || (a.month == b.month &&
    (a.day > b.day || (a.day == b.day &&
    (a.hour > b.hour || (a.hour == b.hour &&
    (a.minute > b.minute || (a.minute == b.minute && a.second >= b.second)))))))))
  }

  /** The fields `strftime('%a, %d %b %Y, %I:%M %p')` prints (the weekday
      name, which `strptime` only checks, is not kept). */
  datatype Stamp = Stamp(day: int, month: int, year: int, hour12: int, minute: int, pm: bool)

  /** `%I` is the hour on the 12-hour clock (12 for midnight and noon) and
      `%p` says which half of the day. */
  function Format(t: DateTime): (s: Stamp)
    ensures ValidTime(t) ==> 1 <= s.hour12 <= 12
  {
    Stamp(t.day, t.month, t.year, if t.hour % 12 == 0 then 12 else t.hour % 12, t.minute, t.hour >= 12)
  }

  /** `strptime` with the same format: seconds become 0. */
  function Parse(s: Stamp): DateTime
  {
    DateTime(s.year, s.month, s.day, s.hour12 % 12 + (if s.pm then 12 else 0), s.minute, 0)
  }

  /** The round trip keeps everything but the seconds. */
  lemma FormatParse(t: DateTime)
    requires ValidTime(t)
    ensures Parse(Format(t)) == t.(second := 0)
  {
  }

  /** Because the reference time has no seconds, dropping them never changes
      the comparison with it. */
  lemma ReferenceIgnoresSeconds(t: DateTime)
    requires ValidTime(t)
    ensures NotBefore(Parse(Format(t)), REFERENCE) <==> NotBefore(t, REFERENCE)
  {
    FormatParse(t);
  }

  datatype FileInfo = FileInfo(filename: string, size: nat, modified: DateTime)

  /** The filter condition of the listing loop. */
  predicate Passes(f: FileInfo)
  {
    f.size >= MIN_SIZE && NotBefore(Parse(Format(f.modified)), REFERENCE)
  }

  /** `filtered_files`: the passing files, in extraction order. */
  function Filtered(files: seq<FileInfo>): (r: seq<FileInfo>)
    ensures |r| <= |files|
    ensures forall k :: 0 <= k < |r| ==> Passes(r[k])
  {
    if files == [] then []
    else
      var last := files[|files| - 1];
      Filtered(files[..|files| - 1]) + (if Passes(last) then [last] else [])
  }

  function SizeSum(files: seq<FileInfo>): nat
  {
    if files == [] then 0 else SizeSum(files[..|files| - 1]) + files[|files| - 1].size
  }

  /** The loop accumulating `total_size` and `filtered_files`. */
  method Listing(files: seq<FileInfo>) returns (total: nat, filtered: seq<FileInfo>)
    ensures filtered == Filtered(files)
    ensures total == SizeSum(filtered)
  {
    total, filtered := 0, [];
    var i := 0;
    while i < |files|
      invariant i <= |files|
      invariant filtered == Filtered(files[..i]) && total == SizeSum(filtered)
    {
      var f := files[i];
      FilteredStep(files, i);
      if Passes(f) {
        SizeSumStep(filtered, f);
        total := total + f.size;
        filtered := filtered + [f];
      }
      i := i + 1;
    }
    assert files[..i] == files;
  }

  lemma FilteredStep(files: seq<FileInfo>, i: nat)
    requires i < |files|
    ensures Filtered(files[..i + 1]) == Filtered(files[..i]) + (if Passes(files[i]) then [files[i]] else [])
  {
    assert files[..i + 1][..i] == files[..i];
  }

  lemma SizeSumStep(a: seq<FileInfo>, f: FileInfo)
    ensures SizeSum(a + [f]) == SizeSum(a) + f.size
  {
    assert (a + [f])[..|a|] == a;
  }

  /** A file is kept exactly when it is large enough and not older than the
      reference time, to the second. */
  lemma {:induction false} FilteredMembers(files: seq<FileInfo>)
    requires forall k :: 0 <= k < |files| ==> ValidTime(files[k].modified)
    ensures forall f :: f in Filtered(files) <==>
      f in files && f.size >= MIN_SIZE && NotBefore(f.modified, REFERENCE)
    decreases |files|
  {
    if files != [] {
      var init := files[..|files| - 1];
      FilteredMembers(init);
      ReferenceIgnoresSeconds(files[|files| - 1].modified);
      assert files == init + [files[|files| - 1]];
    }
  }

  /** The filter and the sum distribute over a split of the listing. */
  lemma {:induction false} FilteredAppend(a: seq<FileInfo>, b: seq<FileInfo>)
    ensures Filtered(a + b) == Filtered(a) + Filtered(b)
    ensures SizeSum(Filtered(a + b)) == SizeSum(Filtered(a)) + SizeSum(Filtered(b))
    decreases |b|
  {
    if b == [] {
      assert a + b == a;
    } else {
      var b' := b[..|b| - 1];
      assert (a + b)[..|a + b| - 1] == a + b';
      FilteredAppend(a, b');
      SizeSumAppend(Filtered(a), Filtered(b));
    }
  }

  lemma {:induction false} SizeSumAppend(a: seq<FileInfo>, b: seq<FileInfo>)
    ensures SizeSum(a + b) == SizeSum(a) + SizeSum(b)
    decreases |b|
  {
    if b == [] {
      assert a + b == a;
    } else {
      assert (a + b)[..|a + b| - 1] == a + b[..|b| - 1];
      SizeSumAppend(a, b[..|b| - 1]);
    }
  }

  datatype Outcome = Listed(answer: string, filtered: seq<FileInfo>) | Failure(message: string)

  /** `_process_file_attributes_listing` on the extracted files' details. */
  method FileAttributes(path: Option<string>, files: seq<FileInfo>) returns (r: Outcome)
    ensures !IsZipPath(path) ==> r == Failure(INVALID_ZIP)
    ensures IsZipPath(path) ==> r == Listed(NatToString(SizeSum(Filtered(files))), Filtered(files))
  {
    if !IsZipPath(path) {
      return Failure(INVALID_ZIP);
    }
    var total, filtered := Listing(files);
    return Listed(NatToString(total), filtered);
  }

  /** A file from 02:33:59 on the reference day passes, one from 02:32:59
      does not. */
  lemma ReferenceMinute()
    ensures Passes(FileInfo("a", 9552, DateTime(2000, 11, 10, 2, 33, 59)))
    ensures !Passes(FileInfo("b", 10000, DateTime(2000, 11, 10, 2, 32, 59)))
  {
  }
}
