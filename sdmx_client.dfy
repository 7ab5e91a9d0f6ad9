/** BanRepSdmxClient: the observations of an SDMX-ML generic data message (SDMX 2.1)
    turned into the daily series, the query URL of the daily flow, and the way one
    answer of the statistics service is classified, retried and aggregated by week.
    The XML document is given as its Obs elements in document order, each with the
    `value` attributes of its ObsDimension and ObsValue children (None when absent). */
module SdmxClient {
  import opened Wrappers
  import opened Text
  import opened Calendar
  import opened Decimals
  import opened Linq
  import opened Series
  import Http
  import Retry

  datatype Obs = Obs(dimension: Option<string>, value: Option<string>)

  // ---------------------------------------------------------------- date and value

  /** TryParseSdmxDate. An 8-character text that int.TryParse accepts is cut into
      yyyy, MM and dd, each read by int.Parse, and given to new DateOnly, whose
      exceptions escape; any other text must be exact yyyy-MM-dd. Ok(None) is `false`. */
  function ParseSdmxDate(raw: string): (r: Result<Option<DateOnly>, Exn>)
    ensures r.Err? ==> |raw| == 8 && ParseInt32(raw).Ok? && r.error in {Exn.Format, ArgumentOutOfRange}
    ensures !(|raw| == 8 && ParseInt32(raw).Ok?) ==> r == Ok(ParseIsoDate(raw))
  {
    if |raw| == 8 && ParseInt32(raw).Ok? then CompactDate(raw) else Ok(ParseIsoDate(raw))
  }

  /** The yyyyMMdd branch: int.Parse(raw[..4]), int.Parse(raw.Substring(4, 2)),
      int.Parse(raw.Substring(6, 2)), then new DateOnly(y, m, d). */
  function CompactDate(raw: string): (r: Result<Option<DateOnly>, Exn>)
    requires |raw| == 8
    ensures r.Err? ==> r.error in {Exn.Format, ArgumentOutOfRange}
    ensures r.Ok? ==> r.value.Some?
  {
    ShortInt32NoOverflow(raw[..4]);
    ShortInt32NoOverflow(raw[4..6]);
    ShortInt32NoOverflow(raw[6..8]);
    match ParseInt32(raw[..4])
    case Err(e) => Err(e)
    case Ok(y) =>
      match ParseInt32(raw[4..6])
      case Err(e) => Err(e)
      case Ok(m) =>
        match ParseInt32(raw[6..8])
        case Err(e) => Err(e)
        case Ok(d) =>
          match MakeDate(y, m, d)
          case Err(e) => Err(e)
          case Ok(date) => Ok(Some(date))
  }

  /** TryParseDecimalInvariant: Trim, then decimal.TryParse with AllowDecimalPoint |
      AllowLeadingSign in the invariant culture. */
  function ParseDecimalInvariant(raw: string): Option<Decimal>
  {
    ParseDecimal(Trim(raw), PointAndSignStyle)
  }

  /** The Select of ParseSdmxGenericData for one Obs: Ok(None) is a dropped observation. */
  function ParseObs(o: Obs): (r: Result<Option<SeriesData>, Exn>)
    ensures IsNullOrWhiteSpace(o.dimension) || IsNullOrWhiteSpace(o.value) ==> r == Ok(None)
    ensures r.Ok? && r.value.Some? ==>
      && o.dimension.Some? && o.value.Some?
      && ParseSdmxDate(o.dimension.value) == Ok(Some(r.value.value.date))
      && ParseDecimalInvariant(o.value.value) == Some(r.value.value.value)
    ensures r.Err? ==> r.error in {Exn.Format, ArgumentOutOfRange}
    ensures !IsNullOrWhiteSpace(o.dimension) && !IsNullOrWhiteSpace(o.value) && ParseSdmxDate(o.dimension.value).Err?
      ==> r == Err(ParseSdmxDate(o.dimension.value).error)
  {
    if IsNullOrWhiteSpace(o.dimension) || IsNullOrWhiteSpace(o.value) then Ok(None)
    else match ParseSdmxDate(o.dimension.value)
      case Err(e) => Err(e)
      case Ok(None) => Ok(None)
      case Ok(Some(date)) =>
        match ParseDecimalInvariant(o.value.value)
        case None => Ok(None)
        case Some(v) => Ok(Some(SeriesData(date, v)))
  }

  /** The pipeline of ParseSdmxGenericData before its OrderBy. */
  function ParseAll(obs: seq<Obs>): (r: Result<seq<SeriesData>, Exn>)
    ensures r.Ok? ==> |r.value| <= |obs|
    ensures r.Err? ==> r.error in {Exn.Format, ArgumentOutOfRange}
  {
    SelectKeptSpec(obs, ParseObs);
    SelectKept(obs, ParseObs)
  }

  /** ParseSdmxGenericData: the records kept, ordered by date (stable OrderBy). */
  function ParseSdmxGenericData(obs: seq<Obs>): (r: Result<seq<SeriesData>, Exn>)
    ensures r.Ok? <==> ParseAll(obs).Ok?
    ensures r.Ok? ==> r.value == SortByDate(ParseAll(obs).value)
  {
    match ParseAll(obs)
    case Err(e) => Err(e)
    case Ok(kept) => Ok(SortByDate(kept))
  }

  // ---------------------------------------------------------------- URL and answers

  /** The reference date of BuildDtfUrl: end, else start, else today (DateTime.UtcNow). */
  function ReferenceDate(start: Option<DateOnly>, end: Option<DateOnly>, today: DateOnly): (d: DateOnly)
    ensures end.Some? ==> d == end.value
    ensures end.None? && start.Some? ==> d == start.value
    ensures end.None? && start.None? ==> d == today
  {
    if end.Some? then end.value else if start.Some? then start.value else today
  }

  const DtfFlowPath := "ESTAT,DF_DTF_DAILY_HIST,1.0/all/ALL/?"

  /** BuildDtfUrl: the years before and after the reference year, "0000"-padded, then
      the fixed observation dimension and detail. */
  function BuildDtfUrl(start: Option<DateOnly>, end: Option<DateOnly>, today: DateOnly): (url: string)
  {
    DtfUrlOfYear(ReferenceDate(start, end, today).year)
  }

  /** The URL of BuildDtfUrl for a reference year. */
  function DtfUrlOfYear(year: nat): (url: string)
    requires year >= 1
  {
    DtfFlowPath + JoinWith(
      ["startPeriod=" + ZeroPadded(year - 1, 4),
       "endPeriod=" + ZeroPadded(year + 1, 4),
       "dimensionAtObservation=TIME_PERIOD",
       "detail=full"], "&")
  }

  /** The URL is the flow path, then the year before the reference year in exactly four
      digits as startPeriod, the year after it as endPeriod, and the fixed parameters. */
  lemma BuildDtfUrlPeriods(start: Option<DateOnly>, end: Option<DateOnly>, today: DateOnly)
    ensures var year := ReferenceDate(start, end, today).year;
      exists sp, ep :: |sp| == 4 && AllDigits(sp) && ValueOf(sp) == year - 1
        && AllDigits(ep) && ValueOf(ep) == year + 1 && (year < 9999 ==> |ep| == 4)
        && BuildDtfUrl(start, end, today) == DtfFlowPath + (("startPeriod=" + sp) + "&" + ("endPeriod=" + ep)
             + "&" + "dimensionAtObservation=TIME_PERIOD" + "&" + "detail=full")
  {
    var year := ReferenceDate(start, end, today).year;
    var sp, ep := ZeroPadded(year - 1, 4), ZeroPadded(year + 1, 4);
    DtfUrlShape(year);
  }

  lemma DtfUrlShape(year: nat)
    requires 1 <= year <= 9999
    ensures var sp, ep := ZeroPadded(year - 1, 4), ZeroPadded(year + 1, 4);
      && |sp| == 4 && (year < 9999 ==> |ep| == 4)
      && DtfUrlOfYear(year) == DtfFlowPath + (("startPeriod=" + sp) + "&" + ("endPeriod=" + ep)
           + "&" + "dimensionAtObservation=TIME_PERIOD" + "&" + "detail=full")
  {
    var sp, ep := ZeroPadded(year - 1, 4), ZeroPadded(year + 1, 4);
    Pow10Values();
    JoinFour("startPeriod=" + sp, "endPeriod=" + ep, "dimensionAtObservation=TIME_PERIOD", "detail=full", "&");
  }

  /** Two reference dates of the same year give the same URL. */
  lemma BuildDtfUrlUsesYearOnly(a: DateOnly, b: DateOnly, today: DateOnly)
    requires a.year == b.year
    ensures BuildDtfUrl(None, Some(a), today) == BuildDtfUrl(Some(b), None, today)
    ensures BuildDtfUrl(Some(b), Some(a), today) == BuildDtfUrl(None, None, a)
  {
  }

  /** One answer of the statistics service: the status, the Content-Type media type
      (None when the header is missing) and the document, when it is one. */
  datatype SdmxAnswer = SdmxAnswer(status: int, mediaType: Option<string>, document: seq<Obs>)

  predicate IsXmlMediaType(mediaType: Option<string>) {
    mediaType.Some? && ContainsIgnoreCase(mediaType.value, "xml")
  }

  /** One attempt of GetDtfDailyAsync after the request was answered: a non-XML answer is
      a BanRepSdmxException whatever its status; an XML 404 is an empty series; another
      failure is transient or fatal by its status; a success is parsed. */
  function DailyAttempt(a: SdmxAnswer): (r: Result<seq<SeriesData>, Exn>)
    ensures !IsXmlMediaType(a.mediaType) ==> r == Err(SdmxFailure)
    ensures r == Err(TransientFailure) <==> IsXmlMediaType(a.mediaType) && Http.IsTransientStatusCode(a.status)
    ensures IsXmlMediaType(a.mediaType) && a.status == 404 ==> r == Ok([])
    ensures r.Ok? && a.status != 404 ==> Http.IsSuccessStatusCode(a.status) && r == ParseSdmxGenericData(a.document)
  {
    Http.TransientIsFailure(a.status);
    if !IsXmlMediaType(a.mediaType) then Err(SdmxFailure)
    else if a.status == 404 then Ok([])
    else if !Http.IsSuccessStatusCode(a.status) then
      (if Http.IsTransientStatusCode(a.status) then Err(TransientFailure) else Err(SdmxFailure))
    else ParseSdmxGenericData(a.document)
  }

  /** GetDtfDailyAsync: the attempts run under the SdmxHttp retry policy; attempt k is
      answered by answers(k), or fails with the exception transport(k) raised. */
  function GetDtfDaily(transport: nat -> Option<Exn>, answers: nat -> SdmxAnswer, cancelAt: Option<nat>)
    : Retry.Outcome<seq<SeriesData>>
  {
    Retry.Run(Retry.PolicyFor(Retry.SdmxHttp), Retry.SdmxHttp, AttemptOf(transport, answers), cancelAt, 0)
  }

  function AttemptOf(transport: nat -> Option<Exn>, answers: nat -> SdmxAnswer): nat -> Result<seq<SeriesData>, Exn> {
    (k: nat) => if transport(k).Some? then Err(transport(k).value) else DailyAttempt(answers(k))
  }

  /** GetDtfWeeklyAsync: the daily series aggregated by ISO week. */
  function GetDtfWeekly(transport: nat -> Option<Exn>, answers: nat -> SdmxAnswer, cancelAt: Option<nat>)
    : (r: Result<seq<SeriesData>, Exn>)
    ensures r.Ok? <==> GetDtfDaily(transport, answers, cancelAt).result.Ok?
    ensures r.Ok? ==> r.value == AggregateWeekly(GetDtfDaily(transport, answers, cancelAt).result.value)
  {
    match GetDtfDaily(transport, answers, cancelAt).result
    case Err(e) => Err(e)
    case Ok(daily) => Ok(AggregateWeekly(daily))
  }

  // ---------------------------------------------------------------- properties

  /** An observation's record is kept exactly when it parses; the parse raises exactly
      when some observation raises, with the exception of the first one. */
  lemma ParseAllSpec(obs: seq<Obs>)
    ensures ParseAll(obs).Ok? <==> forall i | 0 <= i < |obs| :: ParseObs(obs[i]).Ok?
    ensures ParseAll(obs).Err? ==> exists i | 0 <= i < |obs| ::
      ParseObs(obs[i]) == Err(ParseAll(obs).error) && forall j | 0 <= j < i :: ParseObs(obs[j]).Ok?
    ensures ParseAll(obs).Ok? ==> forall x :: x in ParseAll(obs).value <==>
      exists i | 0 <= i < |obs| :: ParseObs(obs[i]) == Ok(Some(x))
  {
    SelectKeptSpec(obs, ParseObs);
  }

  /** The output is sorted by date, is a permutation of the records kept, and keeps
      the document order of records of the same date. */
  lemma ParseSortedStable(obs: seq<Obs>)
    requires ParseAll(obs).Ok?
    ensures var r, kept := ParseSdmxGenericData(obs).value, ParseAll(obs).value;
      && (forall i, j | 0 <= i < j < |r| :: Key(r[i]) <= Key(r[j]))
      && multiset(r) == multiset(kept)
      && forall n :: WithKey(r, Key, n) == WithKey(kept, Key, n)
  {
    SortByDateSorts(ParseAll(obs).value);
  }

  /** Eight ASCII digits are read as year, month and day, and raise the exception of
      new DateOnly when they name no day. */
  lemma CompactDigits(raw: string)
    requires |raw| == 8 && AllDigits(raw)
    ensures var y, m, d := ValueOf(raw[..4]), ValueOf(raw[4..6]), ValueOf(raw[6..]);
      ParseSdmxDate(raw) == if IsValidDate(Date(y, m, d)) then Ok(Some(Date(y, m, d))) else Err(ArgumentOutOfRange)
  {
    ParseDigits(raw);
    ParseDigits(raw[..4]);
    ParseDigits(raw[4..6]);
    ParseDigits(raw[6..]);
    SliceToEnd(raw, 6);
    assert ParseSdmxDate(raw) == CompactDate(raw);
  }

  lemma SliceToEnd(s: string, i: nat)
    requires i <= |s|
    ensures s[i..|s|] == s[i..]
  {
  }

  /** yyyyMMdd texts of real days are read as those days. */
  lemma CompactDateRoundTrip(d: DateOnly)
    ensures ParseSdmxDate(FormatCompactDate(d)) == Ok(Some(d))
  {
    var s := FormatCompactDate(d);
    Pow10Values();
    var y, m, dd := ZeroPadded(d.year, 4), ZeroPadded(d.month, 2), ZeroPadded(d.day, 2);
    assert s == y + m + dd;
    assert s[..4] == y && s[4..6] == m && s[6..] == dd;
    CompactDigits(s);
  }

  /** yyyy-MM-dd texts of real days are read as those days. */
  lemma IsoDateRoundTrip(d: DateOnly)
    ensures ParseSdmxDate(FormatIsoDate(d)) == Ok(Some(d))
  {
    ParseFormatIsoDate(d);
  }

  /** int.Parse of up to eight ASCII digits is their value. */
  lemma ParseDigits(s: string)
    requires AllDigits(s) && 1 <= |s| <= 8
    ensures ParseInt32(s) == Ok(ValueOf(s))
  {
    ValueBelowPow10(s);
    Pow10Monotone(|s|, 8);
    assert Pow10(8) == 100000000;
    assert ValueOf(s) <= Int32Max;
    assert s + "" == s;
    assert Canonical(false, s, "") == s;
    ParseCanonical(false, s, "", IntegerStyle);
    assert ParseDecimal(s, IntegerStyle) == Some(Decimal(ValueOf(s), 0));
  }

  /** Eight digits naming no day abort the whole parse: the observation is not dropped,
      new DateOnly raises ArgumentOutOfRangeException. */
  lemma NonDayCompactDateRaises(raw: string, value: string)
    requires |raw| == 8 && AllDigits(raw) && !IsBlank(value)
    requires !IsValidDate(Date(ValueOf(raw[..4]), ValueOf(raw[4..6]), ValueOf(raw[6..])))
    ensures ParseSdmxDate(raw) == Err(ArgumentOutOfRange)
    ensures ParseObs(Obs(Some(raw), Some(value))) == Err(ArgumentOutOfRange)
  {
    CompactDigits(raw);
    DigitsNotBlank(raw);
  }

  /** The invariant text of a decimal is read back as the same decimal. */
  lemma DecimalInvariantRoundTrip(d: Decimal)
    ensures ParseDecimalInvariant(Decimals.Format(d)) == Some(d)
  {
    var s := Decimals.Format(d);
    FormatChars(d);
    FormatCharNotWhite(s[0]);
    FormatCharNotWhite(s[|s| - 1]);
    TrimUnpadded(s);
    ParseFormat(d, PointAndSignStyle);
  }

  /** Thousands separators are refused by the value parser. */
  lemma GroupedValueRefused()
    ensures ParseDecimalInvariant("1,000.5") == None
  {
    TrimUnpadded("1,000.5");
    GroupsRefused();
  }

  /** An answer that is not XML is not retried, whatever its status: a 503 answered as
      HTML, like any other, makes the first attempt raise BanRepSdmxException. */
  lemma NonXmlAnswerIsFatal(transport: nat -> Option<Exn>, answers: nat -> SdmxAnswer)
    requires transport(1).None? && !IsXmlMediaType(answers(1).mediaType)
    ensures GetDtfDaily(transport, answers, None) == Retry.Outcome(Err(SdmxFailure), 1, [])
    ensures !IsXmlMediaType(Some("text/html"))
  {
    var t := "text/html";
    forall i | 0 <= i <= |t| - 3
      ensures !MatchesIgnoreCaseAt(t, "xml", i)
    {
      assert UpperAsciiString(t[i..i + 3])[0] == UpperAscii(t[i]);
      assert UpperAsciiString("xml")[0] == 'X';
    }
    Retry.NonRetryablePropagates(Retry.PolicyFor(Retry.SdmxHttp), Retry.SdmxHttp, AttemptOf(transport, answers), 0, 1);
  }

  /** An XML 503 is retried: three such answers make three attempts, waiting 500 ms and
      then 1 s, and end in a TransientFailureException. */
  lemma XmlServiceUnavailableRetried(answers: nat -> SdmxAnswer)
    requires forall k | 1 <= k <= 3 :: answers(k).status == 503 && IsXmlMediaType(answers(k).mediaType)
    ensures GetDtfDaily(k => None, answers, None) == Retry.Outcome(Err(TransientFailure), 3, [500, 1000])
  {
    Retry.HttpExhaustion(Retry.SdmxHttp, AttemptOf(k => None, answers));
  }
}
