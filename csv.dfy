/** The CSV artifact of a capture. DtfDailyCsvWriter recreates the file and writes one line
    `yyyy-MM-dd,<value>` per observation; DtfDailyCsvReader reads a file line by line,
    skipping blank lines and raising FormatException on a malformed one. A file is modelled
    as the sequence of its lines. */
module Csv {
  import opened Wrappers
  import opened Text
  import opened Calendar
  import opened Decimals
  import opened Linq
  import opened Series

  /** The files the artifacts are written to and read from, each as its lines. */
  class FileStore {
    var files: map<string, seq<string>>

    constructor (initial: map<string, seq<string>>)
      ensures files == initial
    {
      files := initial;
    }
  }

  // ---------------------------------------------------------------- writer

  /** string.Join(',', the date as yyyy-MM-dd, the value in the invariant culture). */
  function FormatLine(o: SeriesData): string
  {
    FormatIsoDate(o.date) + "," + Decimals.Format(o.value)
  }

  /** The lines WriteAsync writes for a sequence of observations. */
  function CsvLines(observations: seq<SeriesData>): (lines: seq<string>)
    ensures |lines| == |observations|
  {
    Map(observations, FormatLine)
  }

  /** WriteAsync: FileMode.Create truncates the file, then each observation appends its
      line, in order. */
  method WriteCsv(fs: FileStore, observations: seq<SeriesData>, path: string)
    modifies fs
    ensures fs.files == old(fs.files)[path := CsvLines(observations)]
  {
    WriteLines(fs, observations, path, FormatLine);
  }

  /** The await foreach loop of WriteAsync for any line format. */
  method WriteLines<T>(fs: FileStore, items: seq<T>, path: string, format: T -> string)
    modifies fs
    ensures fs.files == old(fs.files)[path := Map(items, format)]
  {
    fs.files := fs.files[path := []];
    for i := 0 to |items|
      invariant fs.files == old(fs.files)[path := Map(items[..i], format)]
    {
      var line := format(items[i]);
      fs.files := fs.files[path := fs.files[path] + [line]];
      MapSnoc(items, i, format);
    }
    assert items[..|items|] == items;
  }

  // ---------------------------------------------------------------- reader

  /** One line of ReadAsync: Ok(None) for a skipped blank line. The line is split at its
      first comma into two trimmed parts; the first must be exact yyyy-MM-dd and the
      second a number in NumberStyles.Number, else FormatException. */
  function ReadLine(line: string): (r: Result<Option<SeriesData>, Exn>)
    ensures r == Ok(None) <==> IsBlank(line)
    ensures r.Err? ==> r.error == Exn.Format
    ensures !IsBlank(line) && IndexOfChar(line, ',').None? ==> r == Err(Exn.Format)
  {
    if IsBlank(line) then Ok(None)
    else match IndexOfChar(line, ',')
      case None => Err(Exn.Format)
      case Some(i) =>
        match ParseIsoDate(Trim(line[..i]))
        case None => Err(Exn.Format)
        case Some(date) =>
          match ParseDecimal(Trim(line[i + 1..]), NumberStyleNumber)
          case None => Err(Exn.Format)
          case Some(value) => Ok(Some(SeriesData(date, value)))
  }

  /** The records of a file: one per non-blank line, or the first line's FormatException. */
  function ReadLines(lines: seq<string>): (r: Result<seq<SeriesData>, Exn>)
    ensures r.Ok? ==> |r.value| <= |lines|
  {
    SelectKept(lines, ReadLine)
  }

  /** ReadAsync: a missing file raises FileNotFoundException; otherwise the lines are read
      in order. */
  method ReadCsv(fs: FileStore, path: string) returns (r: Result<seq<SeriesData>, Exn>)
    ensures path !in fs.files ==> r == Err(FileNotFound)
    ensures path in fs.files ==> r == ReadLines(fs.files[path])
  {
    if path !in fs.files {
      return Err(FileNotFound);
    }
    r := ReadRecords(fs.files[path], ReadLine);
  }

  /** The while(true) loop of ReadAsync for any line reader: a skipped line continues, a
      failing line ends the enumeration with its exception, a record is yielded. */
  method ReadRecords<T>(lines: seq<string>, read: string -> Result<Option<T>, Exn>) returns (r: Result<seq<T>, Exn>)
    ensures r == SelectKept(lines, read)
  {
    var records: seq<T> := [];
    var i := 0;
    assert lines[i..] == lines;
    PrefixedNothing(SelectKept(lines, read));
    while i < |lines|
      invariant 0 <= i <= |lines|
      invariant SelectKept(lines, read) == Prefixed(records, SelectKept(lines[i..], read))
    {
      var line := lines[i];
      SelectKeptStep(lines[i..], read);
      assert lines[i..][0] == line && lines[i..][1..] == lines[i + 1..];
      i := i + 1;
      match read(line)
      case Err(e) =>
        return Err(e);
      case Ok(None) =>
        PrefixedNothing(SelectKept(lines[i..], read));
        continue;
      case Ok(Some(record)) =>
        PrefixedTwice(records, record, SelectKept(lines[i..], read));
        records := records + [record];
    }
    assert lines[i..] == [];
    assert records + [] == records;
    return Ok(records);
  }

  /** One step of the enumeration: the first line's outcome in front of the rest. */
  lemma SelectKeptStep<T>(lines: seq<string>, read: string -> Result<Option<T>, Exn>)
    requires lines != []
    ensures SelectKept(lines, read) ==
      match read(lines[0])
      case Err(e) => Err(e)
      case Ok(x) => Prefixed(if x.Some? then [x.value] else [], SelectKept(lines[1..], read))
  {
  }

  /** The records read so far in front of what the rest of the file gives. */
  function Prefixed<T>(records: seq<T>, rest: Result<seq<T>, Exn>): Result<seq<T>, Exn>
  {
    match rest
    case Err(e) => Err(e)
    case Ok(tail) => Ok(records + tail)
  }

  lemma PrefixedNothing<T>(rest: Result<seq<T>, Exn>)
    ensures Prefixed([], rest) == rest
  {
    if rest.Ok? {
      assert [] + rest.value == rest.value;
    }
  }

  lemma PrefixedTwice<T>(records: seq<T>, x: T, rest: Result<seq<T>, Exn>)
    ensures Prefixed(records, Prefixed([x], rest)) == Prefixed(records + [x], rest)
  {
    if rest.Ok? {
      assert records + ([x] + rest.value) == records + [x] + rest.value;
    }
  }

  // ---------------------------------------------------------------- properties

  /** An exact yyyy-MM-dd text is ten digits and hyphens. */
  lemma IsoTextChars(iso: string)
    requires ParseIsoDate(iso).Some?
    ensures |iso| == 10 && forall j | 0 <= j < 10 :: IsDigit(iso[j]) || iso[j] == '-'
  {
    assert forall j | 0 <= j < 4 :: iso[j] == iso[..4][j];
    assert forall j | 5 <= j < 7 :: iso[j] == iso[5..7][j - 5];
    assert forall j | 8 <= j < 10 :: iso[j] == iso[8..][j - 8];
  }

  /** A line made of an exact yyyy-MM-dd date, a comma and a value text is read as that
      date and the value text parsed with NumberStyles.Number: only the first comma splits,
      so the value keeps any other comma. */
  lemma ReadIsoLine(iso: string, value: string)
    requires ParseIsoDate(iso).Some?
    ensures ReadLine(iso + "," + value) ==
      match ParseDecimal(Trim(value), NumberStyleNumber)
      case None => Err(Exn.Format)
      case Some(v) => Ok(Some(SeriesData(ParseIsoDate(iso).value, v)))
  {
    var line := iso + "," + value;
    IsoTextChars(iso);
    IndexOfCharAfter(iso, ',', value);
    assert !IsBlank(line) by {
      assert !IsWhiteSpace(line[0]);
    }
    assert line[..10] == iso && line[11..] == value;
    TrimUnpadded(iso);
  }

  /** A line of a date text and a value text that read as an observation's date and
      value is read as that observation. */
  lemma ReadBackLine(iso: string, value: string, o: SeriesData)
    requires ParseIsoDate(iso) == Some(o.date)
    requires ParseDecimal(Trim(value), NumberStyleNumber) == Some(o.value)
    ensures ReadLine(iso + "," + value) == Ok(Some(o))
  {
    ReadIsoLine(iso, value);
  }

  /** The invariant text of a decimal is read back by NumberStyles.Number. */
  lemma ReadBackValue(d: Decimal)
    ensures ParseDecimal(Trim(Decimals.Format(d)), NumberStyleNumber) == Some(d)
  {
    var v := Decimals.Format(d);
    FormatChars(d);
    FormatCharNotWhite(v[0]);
    FormatCharNotWhite(v[|v| - 1]);
    TrimUnpadded(v);
    ParseFormat(d, NumberStyleNumber);
  }

  /** The line written for an observation is read back as that observation. */
  lemma ReadFormatLine(o: SeriesData)
    ensures ReadLine(FormatLine(o)) == Ok(Some(o))
  {
    ParseFormatIsoDate(o.date);
    ReadBackValue(o.value);
    ReadBackLine(FormatIsoDate(o.date), Decimals.Format(o.value), o);
  }

  /** The writer's line has exactly one comma, right after the ten characters of the date. */
  lemma FormatLineOneComma(o: SeriesData)
    ensures IndexOfChar(FormatLine(o), ',') == Some(10)
    ensures forall i | 0 <= i < |FormatLine(o)| && i != 10 :: FormatLine(o)[i] != ','
  {
    ParseFormatIsoDate(o.date);
    FormatChars(o.value);
    OneCommaLine(FormatIsoDate(o.date), Decimals.Format(o.value));
  }

  lemma OneCommaLine(iso: string, v: string)
    requires ParseIsoDate(iso).Some?
    requires forall i | 0 <= i < |v| :: IsFormatChar(v[i])
    ensures IndexOfChar(iso + "," + v, ',') == Some(10)
    ensures forall i | 0 <= i < |iso + "," + v| && i != 10 :: (iso + "," + v)[i] != ','
  {
    IsoTextChars(iso);
    IndexOfCharAfter(iso, ',', v);
    var line := iso + "," + v;
    assert forall i | 11 <= i < |line| :: line[i] == v[i - 11];
  }

  /** Reading what the writer wrote gives back the observations, in order. */
  lemma CsvRoundTrip(observations: seq<SeriesData>)
    ensures ReadLines(CsvLines(observations)) == Ok(observations)
  {
    forall o | o in observations
      ensures ReadLine(FormatLine(o)) == Ok(Some(o))
    {
      ReadFormatLine(o);
    }
    SelectKeptOfMap(observations, FormatLine, ReadLine);
  }

  /** "yyyy-MM-dd,1,000.5": the thousands separator of the value survives the split. */
  lemma GroupedValueRead(iso: string, value: string)
    requires ParseIsoDate(iso).Some? && value == "1,000.5"
    ensures ReadLine(iso + "," + value) == Ok(Some(SeriesData(ParseIsoDate(iso).value, Decimal(10005, 1))))
  {
    GroupedValue(value);
    ReadBackLine(iso, value, SeriesData(ParseIsoDate(iso).value, Decimal(10005, 1)));
  }

  lemma GroupedValue(value: string)
    requires value == "1,000.5"
    ensures ParseDecimal(Trim(value), NumberStyleNumber) == Some(Decimal(10005, 1))
  {
    TrimUnpadded(value);
    NumberStyleReadsGroups();
  }

  predicate NotBlank(line: string) {
    !IsBlank(line)
  }

  /** Blank lines are skipped, and every other line gives one record, in file order. */
  lemma OneRecordPerLine(lines: seq<string>)
    ensures ReadLines(lines) == ReadLines(Where(lines, NotBlank))
    ensures ReadLines(lines).Ok? ==>
      && |ReadLines(lines).value| == |Where(lines, NotBlank)|
      && forall k | 0 <= k < |Where(lines, NotBlank)| ::
           ReadLine(Where(lines, NotBlank)[k]) == Ok(Some(ReadLines(lines).value[k]))
  {
    SelectKeptWhere(lines, ReadLine, NotBlank);
  }

  /** A non-blank line without a comma stops the read with FormatException. */
  lemma LineWithoutCommaRefused(before: seq<string>, line: string, after: seq<string>)
    requires ReadLines(before).Ok?
    requires !IsBlank(line) && forall i | 0 <= i < |line| :: line[i] != ','
    ensures ReadLines(before + [line] + after) == Err(Exn.Format)
  {
    assert IndexOfChar(line, ',').None?;
    SelectKeptAt(before, line, after, ReadLine);
  }
}
