/** The string primitives of .NET that the core relies on: white space as
    Char.IsWhiteSpace and NumberStyles see it, Trim, decimal and hexadecimal
    digits, zero padding, ordinal case folding, and String.Split on a separator. */
module Text {
  import opened Wrappers

  /** Char.IsWhiteSpace: the Unicode white-space characters. */
  predicate IsWhiteSpace(c: char) {
    c == ' ' || ('\t' <= c <= '\r') || c == '\U{85}' || c == '\U{A0}' || c == '\U{1680}'
    || ('\U{2000}' <= c <= '\U{200A}') || c == '\U{2028}' || c == '\U{2029}'
    || c == '\U{202F}' || c == '\U{205F}' || c == '\U{3000}'
  }

  /** The narrower white space that NumberStyles.AllowLeadingWhite / AllowTrailingWhite
      accept: U+0009 to U+000D and U+0020. */
  predicate IsNumberWhite(c: char) {
    c == ' ' || ('\t' <= c <= '\r')
  }

  /** string.IsNullOrWhiteSpace on a non-null string. */
  predicate IsBlank(s: string) {
    forall i | 0 <= i < |s| :: IsWhiteSpace(s[i])
  }

  /** string.IsNullOrWhiteSpace, with None standing for null. */
  predicate IsNullOrWhiteSpace(s: Option<string>) {
    s.None? || IsBlank(s.value)
  }

  /** Where the text left after TrimStart() begins: the first position, from i on, that
      is not white space. */
  function TrimStartIndex(s: string, i: nat): (n: nat)
    requires i <= |s|
    ensures i <= n <= |s| && (n < |s| ==> !IsWhiteSpace(s[n]))
    ensures forall j | i <= j < n :: IsWhiteSpace(s[j])
    decreases |s| - i
  {
    if i < |s| && IsWhiteSpace(s[i]) then TrimStartIndex(s, i + 1) else i
  }

  /** Where the text left after TrimEnd() ends, looking down from position j to lo: the
      last position whose character before it is not white space. */
  function TrimEndIndex(s: string, lo: nat, j: nat): (n: nat)
    requires lo <= j <= |s|
    ensures lo <= n <= j && (n > lo ==> !IsWhiteSpace(s[n - 1]))
    ensures forall k | n <= k < j :: IsWhiteSpace(s[k])
    decreases j
  {
    if j > lo && IsWhiteSpace(s[j - 1]) then TrimEndIndex(s, lo, j - 1) else j
  }

  /** r is the slice of s starting at i, and everything of s around it is white space. */
  predicate TrimmedAt(s: string, r: string, i: int) {
    0 <= i && i + |r| <= |s| && r == s[i..i + |r|]
    && (forall j | 0 <= j < i :: IsWhiteSpace(s[j]))
    && (forall j | i + |r| <= j < |s| :: IsWhiteSpace(s[j]))
  }

  /** String.Trim(): the slice of s between its leading and trailing white space. */
  function Trim(s: string): (r: string)
    ensures r == [] || (!IsWhiteSpace(r[0]) && !IsWhiteSpace(r[|r| - 1]))
    ensures r == [] <==> IsBlank(s)
  {
    var start := TrimStartIndex(s, 0);
    var end := TrimEndIndex(s, start, |s|);
    assert end > start ==> !IsBlank(s);
    s[start..end]
  }

  /** Trim keeps a slice of the text: everything around it is white space. */
  lemma TrimIsSlice(s: string)
    ensures exists i :: TrimmedAt(s, Trim(s), i)
  {
    var start := TrimStartIndex(s, 0);
    assert TrimmedAt(s, Trim(s), start);
  }

  /** Two strings built as a + m + b around the same infix m, with suffixes of equal
      length, have equal prefixes and equal suffixes. */
  lemma SplitAroundInfix(a: string, m: string, b: string, a': string, b': string)
    requires |b| == |b'| && a + m + b == a' + m + b'
    ensures a == a' && b == b'
  {
    var k := a + m + b;
    assert |a| == |a'|;
    assert a == k[..|a|] == a';
    assert b == k[|a| + |m|..] == b';
  }

  /** String.TrimEnd(c): drops every trailing occurrence of c. */
  function TrimEndChar(s: string, c: char): (r: string)
    ensures |r| <= |s| && r == s[..|r|]
    ensures r == [] || r[|r| - 1] != c
    ensures forall i | |r| <= i < |s| :: s[i] == c
  {
    if s != [] && s[|s| - 1] == c then TrimEndChar(s[..|s| - 1], c) else s
  }

  // ---------------------------------------------------------------- digits

  predicate IsDigit(c: char) {
    '0' <= c <= '9'
  }

  predicate AllDigits(s: string) {
    forall i | 0 <= i < |s| :: IsDigit(s[i])
  }

  function DigitValue(c: char): nat
    requires IsDigit(c)
  {
    (c as int) - ('0' as int)
  }

  function DigitChar(d: nat): (c: char)
    requires d < 10
    ensures IsDigit(c) && DigitValue(c) == d
  {
    ('0' as int + d) as char
  }

  function Pow10(n: nat): (p: nat)
    ensures p >= 1
  {
    if n == 0 then 1 else 10 * Pow10(n - 1)
  }

  /** The number a string of decimal digits denotes, most significant digit first. */
  function ValueOf(s: string): nat
    requires AllDigits(s)
  {
    if s == [] then 0 else ValueOf(s[..|s| - 1]) * 10 + DigitValue(s[|s| - 1])
  }

  /** A digit string is below 10 to the power of its length. */
  lemma {:induction false} ValueBelowPow10(s: string)
    requires AllDigits(s)
    ensures ValueOf(s) < Pow10(|s|)
  {
    if s != [] {
      ValueBelowPow10(s[..|s| - 1]);
    }
  }

  lemma {:induction false} Pow10Monotone(a: nat, b: nat)
    requires a <= b
    ensures Pow10(a) <= Pow10(b)
    decreases b - a
  {
    if a < b {
      Pow10Monotone(a, b - 1);
    }
  }

  /** Trim leaves a text alone when its ends are not white space. */
  lemma TrimUnpadded(s: string)
    requires s != [] && !IsWhiteSpace(s[0]) && !IsWhiteSpace(s[|s| - 1])
    ensures Trim(s) == s
  {
    assert TrimStartIndex(s, 0) == 0;
    assert TrimEndIndex(s, 0, |s|) == |s|;
  }

  /** The first occurrence of c in a text that has none before it. */
  lemma {:induction false} IndexOfCharAfter(a: string, c: char, b: string)
    requires forall j | 0 <= j < |a| :: a[j] != c
    ensures IndexOfChar(a + [c] + b, c) == Some(|a|)
    decreases |a|
  {
    if a != [] {
      assert (a + [c] + b)[1..] == a[1..] + [c] + b;
      IndexOfCharAfter(a[1..], c, b);
    }
  }

  /** A text of digits is not blank. */
  lemma DigitsNotBlank(s: string)
    requires |s| >= 1 && AllDigits(s)
    ensures !IsBlank(s)
  {
    assert !IsWhiteSpace(s[0]);
  }

  /** A number's shortest decimal digits ("0" for zero), as Int32.ToString() writes them. */
  function Digits(n: nat): (s: string)
    ensures |s| >= 1 && AllDigits(s) && ValueOf(s) == n
    ensures n < 10 <==> |s| == 1
  {
    if n < 10 then [DigitChar(n)]
    else
      var s := Digits(n / 10) + [DigitChar(n % 10)];
      assert s[..|s| - 1] == Digits(n / 10);
      s
  }

  function Repeat(c: char, n: nat): (r: string)
    ensures |r| == n && forall i | 0 <= i < n :: r[i] == c
  {
    if n == 0 then [] else [c] + Repeat(c, n - 1)
  }

  /** String.PadLeft(width, c). */
  function PadLeft(s: string, width: nat, c: char): (r: string)
    ensures |r| == if |s| >= width then |s| else width
    ensures r == Repeat(c, |r| - |s|) + s
  {
    if |s| >= width then
      assert Repeat(c, 0) == [];
      s
    else Repeat(c, width - |s|) + s
  }

  /** The value of a concatenation of digit strings. */
  lemma {:induction false} ValueOfConcat(a: string, b: string)
    requires AllDigits(a) && AllDigits(b)
    ensures AllDigits(a + b)
    ensures ValueOf(a + b) == ValueOf(a) * Pow10(|b|) + ValueOf(b)
  {
    var ab := a + b;
    if b == [] {
      assert ab == a;
    } else {
      var b' := b[..|b| - 1];
      assert ab[..|ab| - 1] == a + b';
      ValueOfConcat(a, b');
      var x, p, v, d := ValueOf(a), Pow10(|b'|), ValueOf(b'), DigitValue(b[|b| - 1]);
      assert ab[|ab| - 1] == b[|b| - 1];
      assert ValueOf(ab) == ValueOf(a + b') * 10 + d;
      assert ValueOf(b) == v * 10 + d;
      assert Pow10(|b|) == p * 10;
      ShiftDigit(x, p, v, d);
    }
  }

  lemma ShiftDigit(x: int, p: int, v: int, d: int)
    ensures (x * p + v) * 10 + d == x * (p * 10) + (v * 10 + d)
  {}

  /** Leading zeros do not change the value of a digit string. */
  lemma LeadingZerosValue(n: nat, s: string)
    requires AllDigits(s)
    ensures AllDigits(Repeat('0', n) + s)
    ensures ValueOf(Repeat('0', n) + s) == ValueOf(s)
  {
    var z := Repeat('0', n);
    ZerosValue(n);
    ValueOfConcat(z, s);
  }

  lemma {:induction false} ZerosValue(n: nat)
    ensures AllDigits(Repeat('0', n)) && ValueOf(Repeat('0', n)) == 0
  {
    if n > 0 {
      var z := Repeat('0', n);
      assert z == Repeat('0', n - 1) + ['0'] by {
        assert forall i | 0 <= i < n :: z[i] == (Repeat('0', n - 1) + ['0'])[i];
      }
      assert z[..n - 1] == Repeat('0', n - 1);
      ZerosValue(n - 1);
    }
  }

  /** A number written with at least `width` digits, zero padded on the left:
      the custom numeric format "0000" for width 4, "D2" for width 2. */
  function ZeroPadded(n: nat, width: nat): (s: string)
    ensures |s| >= width && AllDigits(s) && ValueOf(s) == n
    ensures width >= 1 && n < Pow10(width) ==> |s| == width
  {
    var d := Digits(n);
    var s := PadLeft(d, width, '0');
    LeadingZerosValue(|s| - |d|, d);
    assert width >= 1 && n < Pow10(width) ==> |s| == width by {
      if width >= 1 && n < Pow10(width) { DigitsLength(n, width); }
    }
    s
  }

  /** A number below 10^w has at most w digits. */
  lemma {:induction false} DigitsLength(n: nat, w: nat)
    requires n < Pow10(w)
    ensures |Digits(n)| <= w || (n == 0 && w == 0)
  {
    if n >= 10 {
      assert w >= 1;
      DigitsLength(n / 10, w - 1);
    }
  }

  // ---------------------------------------------------------------- hexadecimal

  function HexChar(d: nat): (c: char)
    requires d < 16
  {
    if d < 10 then ('0' as int + d) as char else ('a' as int + d - 10) as char
  }

  predicate IsHexChar(c: char) {
    '0' <= c <= '9' || 'a' <= c <= 'f'
  }

  function HexValue(c: char): nat
    requires IsHexChar(c)
  {
    if c <= '9' then (c as int) - ('0' as int) else (c as int) - ('a' as int) + 10
  }

  function Pow16(n: nat): (p: nat)
    ensures p >= 1
  {
    if n == 0 then 1 else 16 * Pow16(n - 1)
  }

  /** The last `width` lower-case hexadecimal digits of n, most significant first. */
  function HexDigits(n: nat, width: nat): (s: string)
    ensures |s| == width
    ensures forall i | 0 <= i < width :: IsHexChar(s[i])
  {
    if width == 0 then [] else HexDigits(n / 16, width - 1) + [HexChar(n % 16)]
  }

  /** The number a string of hexadecimal digits denotes. */
  function HexNumber(s: string): nat
    requires forall i | 0 <= i < |s| :: IsHexChar(s[i])
  {
    if s == [] then 0 else HexNumber(s[..|s| - 1]) * 16 + HexValue(s[|s| - 1])
  }

  /** Writing n with `width` hex digits loses nothing when n fits. */
  lemma {:induction false} HexDigitsRoundTrip(n: nat, width: nat)
    requires n < Pow16(width)
    ensures HexNumber(HexDigits(n, width)) == n
  {
    if width > 0 {
      var s := HexDigits(n, width);
      assert s[..|s| - 1] == HexDigits(n / 16, width - 1);
      HexDigitsRoundTrip(n / 16, width - 1);
    }
  }

  // ---------------------------------------------------------------- case folding and search

  /** ASCII upper-casing. On text whose letters are all ASCII, such as HTTP header names
      (tokens) and the fixed media-type texts searched for, it is what OrdinalIgnoreCase
      compares under; the query dictionary, whose names may hold any letter, takes the
      runtime's full mapping instead (SqlQueries.IsInvariantUpper). */
  function UpperAscii(c: char): char {
    if 'a' <= c <= 'z' then (c as int - 32) as char else c
  }

  function UpperAsciiString(s: string): (r: string)
    ensures |r| == |s| && forall i | 0 <= i < |s| :: r[i] == UpperAscii(s[i])
  {
    if s == [] then [] else [UpperAscii(s[0])] + UpperAsciiString(s[1..])
  }

  predicate EqualsIgnoreCase(a: string, b: string) {
    UpperAsciiString(a) == UpperAsciiString(b)
  }

  /** String.Contains(sub, StringComparison.OrdinalIgnoreCase). */
  predicate ContainsIgnoreCase(s: string, sub: string) {
    exists i | 0 <= i <= |s| - |sub| :: MatchesIgnoreCaseAt(s, sub, i)
  }

  predicate MatchesIgnoreCaseAt(s: string, sub: string, i: int) {
    0 <= i && i + |sub| <= |s| && EqualsIgnoreCase(s[i..i + |sub|], sub)
  }

  /** String.IndexOf(c): the first position of c. */
  function IndexOfChar(s: string, c: char): (r: Option<nat>)
    ensures r.Some? ==> r.value < |s| && s[r.value] == c && forall j | 0 <= j < r.value :: s[j] != c
    ensures r.None? ==> forall j | 0 <= j < |s| :: s[j] != c
  {
    if s == [] then None
    else if s[0] == c then Some(0)
    else match IndexOfChar(s[1..], c)
      case None => None
      case Some(k) => Some(k + 1)
  }

  predicate OccursAt(s: string, sep: string, i: int) {
    0 <= i && i + |sep| <= |s| && s[i..i + |sep|] == sep
  }

  /** The first position at which sep occurs in s (ordinal comparison). */
  function IndexOfString(s: string, sep: string): (r: Option<nat>)
    requires |sep| > 0
    ensures r.Some? ==> OccursAt(s, sep, r.value) && forall j | 0 <= j < r.value :: !OccursAt(s, sep, j)
    ensures r.None? ==> forall j | 0 <= j <= |s| - |sep| :: !OccursAt(s, sep, j)
    decreases |s|
  {
    if |s| < |sep| then None
    else if s[..|sep|] == sep then Some(0)
    else match IndexOfString(s[1..], sep)
      case None =>
        assert forall j | 1 <= j <= |s| - |sep| :: !OccursAt(s, sep, j) by {
          forall j | 1 <= j <= |s| - |sep| ensures !OccursAt(s, sep, j) {
            SliceOfTail(s, j, |sep|);
            assert !OccursAt(s[1..], sep, j - 1);
          }
        }
        None
      case Some(k) =>
        assert forall j | 1 <= j <= k :: !OccursAt(s, sep, j) by {
          forall j | 1 <= j <= k ensures !OccursAt(s, sep, j) {
            assert !OccursAt(s[1..], sep, j - 1);
            if j + |sep| <= |s| {
              SliceOfTail(s, j, |sep|);
            }
          }
        }
        SliceOfTail(s, k + 1, |sep|);
        Some(k + 1)
  }

  lemma SliceOfTail(s: string, j: int, n: nat)
    requires 1 <= j && j + n <= |s|
    ensures s[j..j + n] == s[1..][j - 1..j - 1 + n]
  {
    var t := s[1..];
    assert forall m | j <= m < j + n :: s[m] == t[m - 1];
  }

  /** String.Split(sep) without options: the pieces between the occurrences of sep,
      scanned left to right, empty pieces included. */
  function SplitOn(s: string, sep: string): (pieces: seq<string>)
    requires |sep| > 0
    ensures |pieces| >= 1
    decreases |s|
  {
    match IndexOfString(s, sep)
    case None => [s]
    case Some(i) => [s[..i]] + SplitOn(s[i + |sep|..], sep)
  }

  /** The pieces joined with sep again: String.Join(sep, pieces). */
  function JoinWith(pieces: seq<string>, sep: string): string
  {
    if pieces == [] then [] else if |pieces| == 1 then pieces[0] else pieces[0] + sep + JoinWith(pieces[1..], sep)
  }

  /** Four pieces joined: each separated from the next by the separator. */
  lemma JoinFour(a: string, b: string, c: string, d: string, sep: string)
    ensures JoinWith([a, b, c, d], sep) == a + sep + b + sep + c + sep + d
  {
    assert [a, b, c, d][1..] == [b, c, d];
    assert [b, c, d][1..] == [c, d];
    assert [c, d][1..] == [d];
    assert JoinWith([c, d], sep) == c + sep + d;
    assert JoinWith([b, c, d], sep) == b + sep + (c + sep + d);
  }

  /** Splitting loses nothing: joining the pieces with the separator gives the text back. */
  lemma {:induction false} SplitOnJoin(s: string, sep: string)
    requires |sep| > 0
    ensures JoinWith(SplitOn(s, sep), sep) == s
    decreases |s|
  {
    var p := SplitOn(s, sep);
    match IndexOfString(s, sep)
    case None =>
      assert p == [s];
    case Some(i) =>
      var rest := s[i + |sep|..];
      SplitOnJoin(rest, sep);
      JoinAround(s, sep, i, SplitOn(rest, sep));
  }

  /** The text before an occurrence of sep, joined with pieces that give the text after it,
      is the whole text. */
  lemma JoinAround(s: string, sep: string, i: int, pieces: seq<string>)
    requires OccursAt(s, sep, i) && pieces != []
    requires JoinWith(pieces, sep) == s[i + |sep|..]
    ensures JoinWith([s[..i]] + pieces, sep) == s
  {
    assert ([s[..i]] + pieces)[1..] == pieces;
    assert s == s[..i] + s[i..i + |sep|] + s[i + |sep|..];
  }

  /** No piece contains the separator. */
  lemma {:induction false} SplitOnPiecesClean(s: string, sep: string)
    requires |sep| > 0
    ensures forall k | 0 <= k < |SplitOn(s, sep)| :: IndexOfString(SplitOn(s, sep)[k], sep).None?
    decreases |s|
  {
    var p := SplitOn(s, sep);
    match IndexOfString(s, sep)
    case None =>
      assert p == [s];
    case Some(i) =>
      var rest := s[i + |sep|..];
      SplitOnPiecesClean(rest, sep);
      assert p == [s[..i]] + SplitOn(rest, sep);
      NoOccurrenceInPrefix(s, sep, i);
      forall k | 0 <= k < |p|
        ensures IndexOfString(p[k], sep).None?
      {
        if k > 0 {
          assert p[k] == SplitOn(rest, sep)[k - 1];
        }
      }
  }

  lemma NoOccurrenceInPrefix(s: string, sep: string, i: nat)
    requires |sep| > 0 && i <= |s|
    requires forall j | 0 <= j < i :: !OccursAt(s, sep, j)
    ensures IndexOfString(s[..i], sep).None?
  {
    var p := s[..i];
    if IndexOfString(p, sep).Some? {
      var j := IndexOfString(p, sep).value;
      assert p[j..j + |sep|] == s[j..j + |sep|];
      assert OccursAt(s, sep, j);
    }
  }

  /** StringSplitOptions.RemoveEmptyEntries. */
  function NonEmpty(pieces: seq<string>): (r: seq<string>)
    ensures |r| <= |pieces|
    ensures forall k | 0 <= k < |r| :: r[k] != [] && r[k] in pieces
  {
    if pieces == [] then []
    else if pieces[0] == [] then NonEmpty(pieces[1..])
    else [pieces[0]] + NonEmpty(pieces[1..])
  }
}
