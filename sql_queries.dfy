/** SqlQueries: the named SQL statements of the embedded queries.sql, split on the
    "-- name:" marker into a dictionary whose names compare case-insensitively. Reading the
    embedded resource is not part of this model: the parser takes its text. */
module SqlQueries {
  import opened Wrappers
  import opened Text

  const Marker: string := "-- name:"

  /** StringComparer.OrdinalIgnoreCase compares two names character by character under
      the runtime's invariant upper-case mapping (char.ToUpperInvariant), which folds
      non-ASCII case pairs such as 'é' and 'É' as well. The Unicode tables behind it are a
      parameter `upper`; what is known of it is that it upper-cases the ASCII letters and
      that upper-casing twice is upper-casing once. */
  predicate IsInvariantUpper(upper: char -> char) {
    && (forall c :: upper(upper(c)) == upper(c))
    && (forall c | 'a' <= c <= 'z' :: upper(c) == UpperAscii(c))
  }

  /** The key of a name in a dictionary built with StringComparer.OrdinalIgnoreCase. */
  function Fold(upper: char -> char, name: string): (key: string)
    ensures |key| == |name| && forall i | 0 <= i < |name| :: key[i] == upper(name[i])
  {
    seq(|name|, i requires 0 <= i < |name| => upper(name[i]))
  }

  /** The queries by folded name. */
  type Queries = map<string, string>

  datatype Query = Query(name: string, sql: string)

  /** SQL as the parser stores it: not empty, no white space at either end. */
  predicate IsStoredSql(sql: string) {
    sql != [] && !IsWhiteSpace(sql[0]) && !IsWhiteSpace(sql[|sql| - 1])
  }

  /** content.Split("-- name:", StringSplitOptions.RemoveEmptyEntries). */
  function Sections(content: string): (sections: seq<string>)
    ensures forall i | 0 <= i < |sections| :: sections[i] != []
  {
    NonEmpty(SplitOn(content, Marker))
  }

  /** One section after trimming: the name is the trimmed text before its first '\n' and
      the SQL the trimmed text after it; a section without '\n', or with a blank name or
      blank SQL, gives no query. */
  function SectionQuery(section: string): (r: Option<Query>)
    ensures r.Some? ==> IsStoredSql(r.value.sql) && !IsBlank(r.value.name)
  {
    QueryOfTrimmed(Trim(section))
  }

  function QueryOfTrimmed(t: string): (r: Option<Query>)
    ensures r.Some? ==> IsStoredSql(r.value.sql) && !IsBlank(r.value.name)
  {
    if t == [] then None
    else match IndexOfChar(t, '\n')
      case None => None
      case Some(i) => QueryAt(t, i)
  }

  /** The query of a text whose first '\n' is at i. */
  function QueryAt(t: string, i: nat): (r: Option<Query>)
    requires i < |t|
    ensures r.Some? ==> IsStoredSql(r.value.sql) && !IsBlank(r.value.name)
  {
    NamedQuery(Trim(t[..i]), Trim(t[i + 1..]))
  }

  function NamedQuery(name: string, sql: string): (r: Option<Query>)
    requires sql == [] || (!IsWhiteSpace(sql[0]) && !IsWhiteSpace(sql[|sql| - 1]))
    ensures r.Some? ==> IsStoredSql(r.value.sql) && !IsBlank(r.value.name)
  {
    if IsBlank(name) || IsBlank(sql) then None else Some(Query(name, sql))
  }

  /** queries[name] = sql for the query, if there is one. */
  function Store(q: Queries, entry: Option<Query>, upper: char -> char): Queries {
    match entry
    case None => q
    case Some(query) => q[Fold(upper, query.name) := query.sql]
  }

  /** The dictionary after the foreach has stored the queries that extract finds in the
      given sections, in order. */
  function StoreAll(sections: seq<string>, extract: string -> Option<Query>, upper: char -> char): Queries
  {
    if sections == [] then map[]
    else Store(StoreAll(sections[..|sections| - 1], extract, upper), extract(sections[|sections| - 1]), upper)
  }

  lemma StoreAllSnoc(sections: seq<string>, i: nat, extract: string -> Option<Query>, upper: char -> char)
    requires i < |sections|
    ensures StoreAll(sections[..i + 1], extract, upper) == Store(StoreAll(sections[..i], extract, upper), extract(sections[i]), upper)
  {
    assert sections[..i + 1][..i] == sections[..i];
  }

  /** ParseQueries, under the runtime's upper-case mapping. */
  method ParseQueries(content: string, upper: char -> char) returns (queries: Queries)
    ensures queries == StoreAll(Sections(content), SectionQuery, upper)
  {
    queries := map[];
    var sections := Sections(content);
    for i := 0 to |sections|
      invariant queries == StoreAll(sections[..i], SectionQuery, upper)
    {
      StoreAllSnoc(sections, i, SectionQuery, upper);
      var section := sections[i];
      var trimmedSection := Trim(section);
      if trimmedSection == [] {
        assert SectionQuery(section).None?;
        continue;
      }
      var newlineIndex := IndexOfChar(trimmedSection, '\n');
      if newlineIndex.None? {
        assert SectionQuery(section).None?;
        continue;
      }
      var name := Trim(trimmedSection[..newlineIndex.value]);
      var sql := Trim(trimmedSection[newlineIndex.value + 1..]);
      if IsBlank(name) || IsBlank(sql) {
        assert SectionQuery(section).None?;
        continue;
      }
      assert SectionQuery(section) == Some(Query(name, sql));
      queries := queries[Fold(upper, name) := sql];
    }
    assert sections[..|sections|] == sections;
  }

  /** Queries.TryGetValue(name): a case-insensitive lookup. */
  function Lookup(q: Queries, name: string, upper: char -> char): Option<string> {
    if Fold(upper, name) in q then Some(q[Fold(upper, name)]) else None
  }

  /** GetQuery: InvalidOperationException for a name that is not there. */
  function GetQuery(q: Queries, name: string, upper: char -> char): (r: Result<string, Exn>)
    ensures r.Err? <==> Lookup(q, name, upper).None?
    ensures r.Err? ==> r.error == InvalidOperation
    ensures r.Ok? ==> Some(r.value) == Lookup(q, name, upper)
  {
    match Lookup(q, name, upper)
    case None => Err(InvalidOperation)
    case Some(sql) => Ok(sql)
  }

  // ---------------------------------------------------------------- properties

  /** A section whose query has the given name, case-insensitively. */
  predicate Names(extract: string -> Option<Query>, section: string, name: string, upper: char -> char) {
    extract(section).Some? && Fold(upper, extract(section).value.name) == Fold(upper, name)
  }

  /** A name is found exactly when some section defines it, and what is found is the SQL
      of the last section that does: a later section overwrites an earlier one. */
  lemma {:induction false} LastSectionWins(sections: seq<string>, extract: string -> Option<Query>, name: string, upper: char -> char)
    ensures Lookup(StoreAll(sections, extract, upper), name, upper).None?
      <==> forall i | 0 <= i < |sections| :: !Names(extract, sections[i], name, upper)
    ensures forall i | 0 <= i < |sections| && Names(extract, sections[i], name, upper)
        && (forall j | i < j < |sections| :: !Names(extract, sections[j], name, upper))
      :: Lookup(StoreAll(sections, extract, upper), name, upper) == Some(extract(sections[i]).value.sql)
    ensures Lookup(StoreAll(sections, extract, upper), name, upper).Some? ==> exists i | 0 <= i < |sections| ::
      Names(extract, sections[i], name, upper) && Lookup(StoreAll(sections, extract, upper), name, upper) == Some(extract(sections[i]).value.sql)
    decreases |sections|
  {
    if sections != [] {
      var n := |sections| - 1;
      var front, last := sections[..n], sections[n];
      LastSectionWins(front, extract, name, upper);
      assert forall i | 0 <= i < n :: front[i] == sections[i];
      var q := StoreAll(front, extract, upper);
      assert StoreAll(sections, extract, upper) == Store(q, extract(last), upper);
      if Names(extract, last, name, upper) {
        assert Lookup(Store(q, extract(last), upper), name, upper) == Some(extract(last).value.sql);
        assert Names(extract, sections[n], name, upper)
          && Lookup(StoreAll(sections, extract, upper), name, upper) == Some(extract(sections[n]).value.sql);
      } else {
        assert Lookup(Store(q, extract(last), upper), name, upper) == Lookup(q, name, upper);
        if Lookup(q, name, upper).Some? {
          var i :| 0 <= i < n && Names(extract, front[i], name, upper) && Lookup(q, name, upper) == Some(extract(front[i]).value.sql);
          assert Names(extract, sections[i], name, upper)
            && Lookup(StoreAll(sections, extract, upper), name, upper) == Some(extract(sections[i]).value.sql);
        }
      }
    }
  }

  predicate FirstNewline(t: string, i: int) {
    0 <= i < |t| && t[i] == '\n' && forall j | 0 <= j < i :: t[j] != '\n'
  }

  /** A section's query is split at the first '\n' of the trimmed section: there is a
      query exactly when the text before it and the text after it are both not blank, and
      the query's name and SQL are those two texts, trimmed. */
  lemma SectionSplitsAtFirstNewline(section: string, i: int)
    requires FirstNewline(Trim(section), i)
    ensures var t, r := Trim(section), SectionQuery(section);
      && (r.Some? <==> !IsBlank(t[..i]) && !IsBlank(t[i + 1..]))
      && (r.Some? ==> r.value == Query(Trim(t[..i]), Trim(t[i + 1..])))
  {
    QueryAtFirstNewline(Trim(section), i);
  }

  /** A section with no '\n' gives no query. */
  lemma SectionWithoutNewline(section: string)
    requires forall j | 0 <= j < |Trim(section)| :: Trim(section)[j] != '\n'
    ensures SectionQuery(section).None?
  {
    var t := Trim(section);
    assert IndexOfChar(t, '\n').None?;
  }

  lemma QueryAtFirstNewline(t: string, i: int)
    requires FirstNewline(t, i)
    ensures QueryOfTrimmed(t).Some? <==> !IsBlank(t[..i]) && !IsBlank(t[i + 1..])
    ensures QueryOfTrimmed(t).Some? ==> QueryOfTrimmed(t).value == Query(Trim(t[..i]), Trim(t[i + 1..]))
  {
    var k := IndexOfChar(t, '\n').value;
    assert k == i;
    var name, sql := Trim(t[..i]), Trim(t[i + 1..]);
    assert QueryOfTrimmed(t) == NamedQuery(name, sql);
    BlankTrim(t[..i], name);
    BlankTrim(t[i + 1..], sql);
  }

  /** Trimming leaves blank text blank and other text not blank. */
  lemma BlankTrim(s: string, r: string)
    requires r == Trim(s)
    ensures IsBlank(r) <==> IsBlank(s)
  {
  }

  /** Every stored SQL text is non-empty and trimmed, whatever the content. */
  lemma StoredSqlIsTrimmed(content: string, name: string, upper: char -> char)
    ensures var found := Lookup(StoreAll(Sections(content), SectionQuery, upper), name, upper);
      found.Some? ==> IsStoredSql(found.value)
  {
    LastSectionWins(Sections(content), SectionQuery, name, upper);
  }

  /** The text before the first marker is a section like any other: a preamble whose first
      line is a name and whose remainder is SQL becomes a query of that name. */
  lemma PreambleBecomesQuery(preamble: string, rest: string, name: string, sql: string, upper: char -> char)
    requires preamble != [] && forall j | 0 <= j < |preamble| :: preamble[j] != '-'
    requires SectionQuery(preamble) == Some(Query(name, sql))
    requires var s := Sections(preamble + Marker + rest);
      forall i | 1 <= i < |s| :: !Names(SectionQuery, s[i], name, upper)
    ensures Lookup(StoreAll(Sections(preamble + Marker + rest), SectionQuery, upper), name, upper) == Some(sql)
  {
    var s := Sections(preamble + Marker + rest);
    PreambleIsFirstSection(preamble, rest);
    assert Names(SectionQuery, s[0], name, upper);
    LastSectionWins(s, SectionQuery, name, upper);
  }

  lemma PreambleIsFirstSection(preamble: string, rest: string)
    requires preamble != [] && forall j | 0 <= j < |preamble| :: preamble[j] != '-'
    ensures Sections(preamble + Marker + rest) != [] && Sections(preamble + Marker + rest)[0] == preamble
  {
    var content := preamble + Marker + rest;
    FirstMarkerAfter(preamble, rest);
    var pieces := SplitOn(content, Marker);
    assert content[..|preamble|] == preamble;
    assert pieces[0] == preamble;
    NonEmptyKeepsHead(pieces);
  }

  lemma FirstMarkerAfter(preamble: string, rest: string)
    requires forall j | 0 <= j < |preamble| :: preamble[j] != '-'
    ensures IndexOfString(preamble + Marker + rest, Marker) == Some(|preamble|)
  {
    var content := preamble + Marker + rest;
    assert OccursAt(content, Marker, |preamble|) by {
      assert content[|preamble|..|preamble| + |Marker|] == Marker;
    }
    forall j | 0 <= j < |preamble|
      ensures !OccursAt(content, Marker, j)
    {
      assert content[j] == preamble[j];
    }
  }

  lemma NonEmptyKeepsHead(pieces: seq<string>)
    requires pieces != [] && pieces[0] != []
    ensures NonEmpty(pieces) != [] && NonEmpty(pieces)[0] == pieces[0]
  {
  }

  /** The lookup ignores case: a name finds the same query as its invariant upper-case
      form, and as its ASCII upper-case form; and names that differ only in characters the
      mapping folds together, ASCII or not, find the same query. */
  lemma LookupIgnoresCase(q: Queries, name: string, other: string, upper: char -> char)
    requires IsInvariantUpper(upper)
    requires |other| == |name| && forall i | 0 <= i < |name| :: upper(other[i]) == upper(name[i])
    ensures Lookup(q, name, upper) == Lookup(q, Fold(upper, name), upper)
    ensures Lookup(q, name, upper) == Lookup(q, UpperAsciiString(name), upper)
    ensures Lookup(q, name, upper) == Lookup(q, other, upper)
  {
    FoldTwice(name, upper);
    FoldAsciiUpper(name, upper);
    assert Fold(upper, other) == Fold(upper, name);
  }

  lemma FoldTwice(s: string, upper: char -> char)
    requires IsInvariantUpper(upper)
    ensures Fold(upper, Fold(upper, s)) == Fold(upper, s)
  {
    var u := Fold(upper, s);
    assert forall i | 0 <= i < |s| :: upper(u[i]) == u[i];
  }

  /** Upper-casing the ASCII letters first changes nothing under the mapping. */
  lemma FoldAsciiUpper(s: string, upper: char -> char)
    requires IsInvariantUpper(upper)
    ensures Fold(upper, UpperAsciiString(s)) == Fold(upper, s)
  {
    var a := UpperAsciiString(s);
    forall i | 0 <= i < |s|
      ensures upper(a[i]) == upper(s[i])
    {
      if 'a' <= s[i] <= 'z' {
        assert upper(s[i]) == UpperAscii(s[i]);
      }
    }
  }
}
