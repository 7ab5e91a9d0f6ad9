/** Flow identifiers: the 128-bit GUID of a capture flow, its two text forms, and
    FlowIdProvider, which reads a flow id from a message header or message id. Guid.TryParse
    is not part of this model: it is a parameter, any function from text to an optional GUID. */
module FlowIds {
  import opened Wrappers
  import opened Text

  datatype GuidBits = GuidBits(bits: nat)

  /** A GUID, written as the 128-bit number its 32 hexadecimal digits spell. */
  type Guid = g: GuidBits | g.bits < 0x1_0000_0000_0000_0000_0000_0000_0000_0000 witness GuidBits(0)

  /** Guid.Empty. */
  const EmptyGuid: Guid := GuidBits(0)

  /** Guid.ToString("N"): 32 lower-case hexadecimal digits. */
  function FormatN(g: Guid): (s: string)
    ensures |s| == 32 && forall i | 0 <= i < 32 :: IsHexChar(s[i])
  {
    HexDigits(g.bits, 32)
  }

  /** Guid.ToString() ("D"): the same digits in groups of 8, 4, 4, 4 and 12, joined by '-'. */
  function FormatD(g: Guid): (s: string)
  {
    var n := FormatN(g);
    n[..8] + "-" + n[8..12] + "-" + n[12..16] + "-" + n[16..20] + "-" + n[20..]
  }

  /** Guid.TryParse, given as a parameter. */
  type GuidParser = string -> Option<Guid>

  /** FlowIdProvider.TryParse: null or white space is no GUID; other text is what
      Guid.TryParse makes of it. */
  function TryParseFlowId(raw: Option<string>, parse: GuidParser): (r: Option<Guid>)
    ensures IsNullOrWhiteSpace(raw) ==> r.None?
    ensures !IsNullOrWhiteSpace(raw) ==> r == parse(raw.value)
  {
    if IsNullOrWhiteSpace(raw) then None else parse(raw.value)
  }

  /** CreateFromHeader and CreateFromMessageId, which have the same body: the parsed GUID,
      or Guid.Empty. */
  function CreateFlowId(raw: Option<string>, parse: GuidParser): (g: Guid)
    ensures IsNullOrWhiteSpace(raw) ==> g == EmptyGuid
    ensures !IsNullOrWhiteSpace(raw) && parse(raw.value).None? ==> g == EmptyGuid
    ensures !IsNullOrWhiteSpace(raw) && parse(raw.value).Some? ==> g == parse(raw.value).value
  {
    match TryParseFlowId(raw, parse)
    case Some(g) => g
    case None => EmptyGuid
  }

  // ---------------------------------------------------------------- properties

  /** The provider never mints an id: the result is Guid.Empty or the parse of the text. */
  lemma NeverMints(raw: Option<string>, parse: GuidParser)
    ensures CreateFlowId(raw, parse) == EmptyGuid
         || (raw.Some? && parse(raw.value) == Some(CreateFlowId(raw, parse)))
  {
  }

  /** The "N" text of a GUID spells its number, so distinct GUIDs have distinct texts. */
  lemma FormatNRoundTrip(g: Guid)
    ensures HexNumber(FormatN(g)) == g.bits
  {
    assert Pow16(32) == 0x1_0000_0000_0000_0000_0000_0000_0000_0000 by {
      Pow16Value32();
    }
    HexDigitsRoundTrip(g.bits, 32);
  }

  lemma FormatNInjective(g: Guid, h: Guid)
    requires FormatN(g) == FormatN(h)
    ensures g == h
  {
    FormatNRoundTrip(g);
    FormatNRoundTrip(h);
  }

  lemma Pow16Value32()
    ensures Pow16(32) == 0x1_0000_0000_0000_0000_0000_0000_0000_0000
  {
    assert Pow16(8) == 0x1_0000_0000 by {
      assert Pow16(4) == 0x1_0000;
    }
    Pow16Add(8, 8);
    Pow16Add(16, 16);
  }

  lemma {:induction false} Pow16Add(a: nat, b: nat)
    ensures Pow16(a + b) == Pow16(a) * Pow16(b)
    decreases b
  {
    if b > 0 {
      Pow16Add(a, b - 1);
    }
  }

  /** The "D" text is 36 characters, hyphens at 8, 13, 18 and 23, and without the hyphens
      it is the "N" text. */
  lemma FormatDShape(g: Guid)
    ensures var d, n := FormatD(g), FormatN(g);
      && |d| == 36 && d[8] == '-' && d[13] == '-' && d[18] == '-' && d[23] == '-'
      && d[..8] + d[9..13] + d[14..18] + d[19..23] + d[24..] == n
  {
    var n := FormatN(g);
    var d := FormatD(g);
    assert d[..8] == n[..8];
    assert d[9..13] == n[8..12];
    assert d[14..18] == n[12..16];
    assert d[19..23] == n[16..20];
    assert d[24..] == n[20..];
    assert n == n[..8] + n[8..12] + n[12..16] + n[16..20] + n[20..];
  }
}
