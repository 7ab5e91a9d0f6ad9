/** DtfDailyPriceRepository of the weekly proof of concept, in both of its copies (the
    Infrastructure/Repositories one and the Services one): the table name is validated and
    the insert statement built when the repository is constructed, and every insert adds a
    row only when the table has no row with the same flow id and price date.
    The database is a set of rows; the statement's meaning is the conditional insert it
    performs. The payload is stored as the record itself: its JSON text is not part of this
    model. */
module PocPriceRepository {
  import opened Wrappers
  import opened Text
  import opened Calendar
  import opened FlowIds
  import opened Payloads

  // ---------------------------------------------------------------- table name

  predicate IsIdentifierStart(c: char) {
    ('a' <= c <= 'z') || ('A' <= c <= 'Z') || c == '_'
  }

  predicate IsIdentifierChar(c: char) {
    IsIdentifierStart(c) || ('0' <= c <= '9')
  }

  /** [a-zA-Z_][a-zA-Z0-9_]*, the whole text. */
  predicate IsIdentifier(s: string) {
    s != [] && IsIdentifierStart(s[0]) && forall i | 1 <= i < |s| :: IsIdentifierChar(s[i])
  }

  /** TableNameRegex.IsMatch with the pattern ^[a-zA-Z_][a-zA-Z0-9_]*$ and no options: in
      .NET, '$' matches at the very end and also just before a final '\n', so an
      identifier followed by one line feed matches too. */
  predicate MatchesTableNameRegex(s: string) {
    IsIdentifier(s) || (s != [] && s[|s| - 1] == '\n' && IsIdentifier(s[..|s| - 1]))
  }

  /** The statement for a validated table name: the name, in double quotes, is both the
      insert target and the table of the not-exists subquery. */
  function InsertStatement(t: string): string {
    "insert into " + Quoted(t) + StatementColumns + "from " + Quoted(t) + StatementTail
  }

  /** A quoted identifier. */
  function Quoted(t: string): (q: string)
    ensures |q| == |t| + 2
  {
    "\"" + t + "\""
  }

  const StatementColumns: string := " (flow_id, data_capture, data_price, payload)\nselect @FlowId, @DataCapture, @DataPrice, @Payload::jsonb\nwhere not exists (\n    select 1\n    "

  const StatementTail: string := "\n    where flow_id = @FlowId\n      and data_price = @DataPrice\n);"

  /** BuildInsertSql (None stands for a null name): ArgumentException for a null or blank
      name and for a name the pattern rejects, otherwise the statement. */
  function BuildInsertSql(tableName: Option<string>): (r: Result<string, Exn>)
    ensures r.Err? <==> tableName.None? || !MatchesTableNameRegex(tableName.value)
    ensures r.Err? ==> r.error == Argument
    ensures r.Ok? ==> r.value == InsertStatement(tableName.value)
  {
    if IsNullOrWhiteSpace(tableName) then Err(Argument)
    else if !MatchesTableNameRegex(tableName.value) then Err(Argument)
    else Ok(InsertStatement(tableName.value))
  }

  // ---------------------------------------------------------------- rows

  /** A row of the price table: flow_id, data_capture, data_price and payload. */
  datatype PriceRow = PriceRow(flowId: Guid, dataCapture: DateTime, dataPrice: DateTime, payload: PricePayload)

  /** The two rows agree on the columns the not-exists subquery compares. */
  predicate SameKey(a: PriceRow, b: PriceRow) {
    a.flowId == b.flowId && a.dataPrice == b.dataPrice
  }

  /** What the statement does to the table: the row is added unless a row with its key is
      already there. */
  function InsertIfAbsent(rows: set<PriceRow>, row: PriceRow): (r: set<PriceRow>)
    ensures rows <= r && r - rows <= {row}
    ensures exists x | x in r :: SameKey(x, row)
    ensures (exists x | x in rows :: SameKey(x, row)) <==> r == rows
  {
    if exists x | x in rows :: SameKey(x, row) then rows else rows + {row}
  }

  /** At most one row per (flow_id, data_price). */
  predicate KeysUnique(rows: set<PriceRow>) {
    forall a, b | a in rows && b in rows && SameKey(a, b) :: a == b
  }

  /** The table the statements run against. */
  class PriceTable {
    var rows: set<PriceRow>

    constructor ()
      ensures rows == {}
    {
      rows := {};
    }
  }

  /** A constructed repository: its statement, built from a validated name, and the table it
      writes. */
  class PriceRepository {
    const tableName: string
    const insertSql: string
    const table: PriceTable

    constructor (tableName: string, table: PriceTable)
      requires MatchesTableNameRegex(tableName)
      ensures this.tableName == tableName && this.table == table
      ensures insertSql == InsertStatement(tableName)
    {
      this.tableName := tableName;
      this.table := table;
      this.insertSql := InsertStatement(tableName);
    }

    /** InsertAsync: the price date is bound as the midnight of that day (the Services copy
        converts it with ToDateTime(TimeOnly.MinValue); the other binds the DateOnly, which
        the database compares as the same day), and the statement inserts the row unless its
        key is taken. */
    method InsertAsync(flowId: Guid, dataCapture: DateTime, dataPrice: DateOnly, payload: PricePayload)
      modifies table
      ensures table.rows == InsertIfAbsent(old(table.rows), PriceRow(flowId, dataCapture, Midnight(dataPrice), payload))
    {
      var row := PriceRow(flowId, dataCapture, Midnight(dataPrice), payload);
      if !exists x | x in table.rows :: SameKey(x, row) {
        table.rows := table.rows + {row};
      }
    }
  }

  /** Constructing a repository: the field initializer (or the constructor body) builds the
      statement, so a bad name raises ArgumentException at construction. */
  method CreateRepository(tableName: Option<string>, table: PriceTable) returns (r: Result<PriceRepository, Exn>)
    ensures r.Err? <==> BuildInsertSql(tableName).Err?
    ensures r.Err? ==> r.error == Argument
    ensures r.Ok? ==>
      && fresh(r.value) && r.value.table == table
      && r.value.tableName == tableName.value && r.value.insertSql == BuildInsertSql(tableName).value
  {
    var sql := BuildInsertSql(tableName);
    if sql.Err? {
      return Err(sql.error);
    }
    var repository := new PriceRepository(tableName.value, table);
    return Ok(repository);
  }

  // ---------------------------------------------------------------- properties

  /** A blank name never matches the pattern, so the blank check only chooses the message. */
  lemma BlankNeverMatches(s: string)
    requires IsBlank(s)
    ensures !MatchesTableNameRegex(s)
  {
    if s != [] {
      assert IsWhiteSpace(s[0]);
      if |s| > 1 {
        assert s[..|s| - 1][0] == s[0];
      }
    }
  }

  /** The trailing line feed passes: every identifier followed by one line feed is
      accepted, and quoted with its line feed, though it is no identifier; two line feeds
      are refused. */
  lemma TrailingLineFeedAccepted(name: string)
    requires IsIdentifier(name)
    ensures !IsIdentifier(name + "\n")
    ensures BuildInsertSql(Some(name + "\n")) == Ok(InsertStatement(name + "\n"))
    ensures BuildInsertSql(Some(name + "\n\n")) == Err(Argument)
  {
    var one, two := name + "\n", name + "\n\n";
    assert one[..|one| - 1] == name;
    assert !IsIdentifierChar(one[|one| - 1]);
    assert !IsIdentifierChar(two[|two| - 1]);
    assert two[..|two| - 1][|two| - 2] == '\n';
  }

  /** The statement names the table twice, quoted: as the insert target at its start and in
      the subquery's from clause. */
  lemma StatementQuotesTable(t: string)
    ensures var s, k := InsertStatement(t), 159 + |t|;
      && s[..12] == "insert into " && s[12..14 + |t|] == Quoted(t)
      && s[k - 5..k] == "from " && s[k..k + 2 + |t|] == Quoted(t)
  {
    var head, q, cols, from, tail := "insert into ", Quoted(t), StatementColumns, "from ", StatementTail;
    assert |head| == 12 && |cols| == 140 && |from| == 5;
    var s := InsertStatement(t);
    assert s == head + q + cols + from + q + tail;
    SixParts(head, q, cols, from, q, tail, 12, 14 + |t|, 154 + |t|, 159 + |t|);
  }

  lemma SixParts(a: string, b: string, c: string, d: string, e: string, f: string, i: int, j: int, k: int, l: int)
    requires i == |a| && j == i + |b| && k == j + |c| && l == k + |d|
    ensures var s := a + b + c + d + e + f;
      && s[..i] == a && s[i..j] == b && s[k..l] == d && s[l..l + |e|] == e
  {
  }

  /** Different table names give different statements. */
  lemma StatementInjective(t: string, u: string)
    requires InsertStatement(t) == InsertStatement(u)
    ensures t == u
  {
    assert |InsertStatement(t)| == 12 + |StatementColumns| + 5 + |StatementTail| + 2 * |t| + 4;
    assert |InsertStatement(u)| == 12 + |StatementColumns| + 5 + |StatementTail| + 2 * |u| + 4;
    StatementQuotesTable(t);
    StatementQuotesTable(u);
    assert Quoted(t)[1..1 + |t|] == t;
    assert Quoted(u)[1..1 + |u|] == u;
  }

  /** Inserting a row whose key is already present, whatever its capture time and payload,
      changes nothing: the same (flow id, price date) twice leaves one row. */
  lemma InsertIdempotent(rows: set<PriceRow>, row: PriceRow, again: PriceRow)
    requires SameKey(row, again)
    ensures InsertIfAbsent(InsertIfAbsent(rows, row), again) == InsertIfAbsent(rows, row)
  {
    var once := InsertIfAbsent(rows, row);
    var x :| x in once && SameKey(x, row);
    assert SameKey(x, again);
  }

  /** Rows of other keys are neither added nor removed. */
  lemma InsertOtherKeysUnchanged(rows: set<PriceRow>, row: PriceRow, other: PriceRow)
    requires !SameKey(other, row)
    ensures other in InsertIfAbsent(rows, row) <==> other in rows
  {
  }

  /** The insert keeps the table at one row per key, and after it the key has exactly one
      row. */
  lemma InsertKeepsKeysUnique(rows: set<PriceRow>, row: PriceRow)
    requires KeysUnique(rows)
    ensures KeysUnique(InsertIfAbsent(rows, row))
    ensures forall a, b | a in InsertIfAbsent(rows, row) && b in InsertIfAbsent(rows, row)
      && SameKey(a, row) && SameKey(b, row) :: a == b
  {
    var r := InsertIfAbsent(rows, row);
    forall a, b | a in r && b in r && SameKey(a, b)
      ensures a == b
    {
      if a !in rows || b !in rows {
        assert a == row || b == row;
        assert !exists x | x in rows :: SameKey(x, row);
      }
    }
  }

  /** The price date is compared per calendar day: two dates bind the same value only when
      they are the same day. */
  lemma MidnightInjective(d: DateOnly, e: DateOnly)
    requires Midnight(d) == Midnight(e)
    ensures d == e
  {
  }
}
