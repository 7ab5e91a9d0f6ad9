/** DtfDailyPricePayload: the record a capture persists and forwards downstream for one
    observation, and the two conversions every workflow applies to it: building it from an
    observation, and recovering the price date from its "Data" text with
    DateOnly.ParseExact(Data, "yyyy-MM-dd"). */
module Payloads {
  import opened Wrappers
  import opened Calendar
  import opened Decimals
  import opened Linq
  import opened Series

  /** The payload record, field for field. */
  datatype PricePayload = PricePayload(
    codAtivo: int,
    data: string,
    codPraca: string,
    codFeeder: int,
    codCampo: int,
    preco: Decimal,
    fatorAjuste: Decimal,
    previsao: bool,
    isRebook: bool)

  /** The decimal literal 1.0m: mantissa 10, one decimal place. */
  const OnePointZero: Decimal := Decimal(10, 1)

  /** DateOnly.ParseExact(data, "yyyy-MM-dd"): FormatException unless the text is exactly a
      date in that form. */
  function ParseDataPrice(p: PricePayload): (r: Result<DateOnly, Exn>)
    ensures r.Err? <==> ParseIsoDate(p.data).None?
    ensures r.Err? ==> r.error == Format
    ensures r.Ok? ==> FormatIsoDate(r.value) == p.data
  {
    match ParseIsoDate(p.data)
    case None => Err(Format)
    case Some(d) =>
      FormatParseIsoDate(p.data);
      Ok(d)
  }

  /** CreatePayload (and the Select lambdas of the earlier workflows): the fixed asset,
      venue, feeder and field codes, factor 1.0, not a forecast, not a rebook; the
      observation's value as the price and its date as "yyyy-MM-dd", which the batch step
      parses back to the same date. */
  function CreatePayload(item: SeriesData): (p: PricePayload)
    ensures p.codAtivo == 123456 && p.codPraca == "RBLG" && p.codFeeder == 8 && p.codCampo == 7
    ensures p.fatorAjuste == OnePointZero && !p.previsao && !p.isRebook
    ensures p.preco == item.value
    ensures ParseDataPrice(p) == Ok(item.date)
  {
    ParseFormatIsoDate(item.date);
    PricePayload(123456, FormatIsoDate(item.date), "RBLG", 8, 7, item.value, OnePointZero, false, false)
  }

  /** The payload list of a sequence of observations, one per observation, in order
      (CreatePayloadAt gives its elements). */
  function CreatePayloads(items: seq<SeriesData>): (ps: seq<PricePayload>)
    ensures |ps| == |items|
  {
    Map(items, CreatePayload)
  }

  /** Element i of the list is the payload of observation i. */
  lemma CreatePayloadAt(items: seq<SeriesData>, i: nat)
    requires i < |items|
    ensures CreatePayloads(items)[i] == CreatePayload(items[i])
  {
  }

  // ---------------------------------------------------------------- properties

  /** Two observations give the same payload only when they have the same date and value:
      the payload loses nothing of the observation. */
  lemma CreatePayloadInjective(a: SeriesData, b: SeriesData)
    requires CreatePayload(a) == CreatePayload(b)
    ensures a == b
  {
    assert ParseDataPrice(CreatePayload(a)) == Ok(a.date);
    assert ParseDataPrice(CreatePayload(b)) == Ok(b.date);
  }
}
