/** The capture workflow of the weekly proof of concept, in both of its copies
    (Application/Workflows, which takes the flow id from the flow context, and Services,
    which takes it as an argument): fetch the daily series, map every observation to a
    payload, insert the payloads one by one with one capture time, then hand the whole list
    to the sender once. There is no status tracking: a failure propagates unchanged.
    The statistics client, the database connection and the sender are not part of this
    model: the fetch is its result, attempt i of the insert either reaches the statement or
    raises insertFailure(i), and the sender either returns or raises sendFailure. */
module PocWorkflows {
  import opened Wrappers
  import opened Calendar
  import opened FlowIds
  import opened Series
  import opened Payloads
  import opened PocPriceRepository

  /** The row the statement is given for an observation. */
  function RowOf(flowId: Guid, captureTime: DateTime, item: SeriesData): (row: PriceRow)
    ensures row.flowId == flowId && row.dataCapture == captureTime && row.dataPrice == Midnight(item.date)
    ensures row.payload == CreatePayload(item)
  {
    PriceRow(flowId, captureTime, Midnight(item.date), CreatePayload(item))
  }

  /** The rows of one run: one flow id and one capture time for every observation. */
  function RowsOf(flowId: Guid, captureTime: DateTime): SeriesData -> PriceRow {
    (item: SeriesData) => RowOf(flowId, captureTime, item)
  }

  /** The table after the statements for the rows of the given items have run, in order. */
  function InsertAll<T>(rows: set<PriceRow>, items: seq<T>, rowOf: T -> PriceRow): set<PriceRow>
  {
    if items == [] then rows
    else InsertIfAbsent(InsertAll(rows, items[..|items| - 1], rowOf), rowOf(items[|items| - 1]))
  }

  lemma InsertAllSnoc<T>(rows: set<PriceRow>, items: seq<T>, i: nat, rowOf: T -> PriceRow)
    requires i < |items|
    ensures InsertAll(rows, items[..i + 1], rowOf) == InsertIfAbsent(InsertAll(rows, items[..i], rowOf), rowOf(items[i]))
  {
    assert items[..i + 1][..i] == items[..i];
  }

  /** The number of inserts that succeed before the first one that raises. */
  function InsertedBeforeFailure(insertFailure: nat -> Option<Exn>, n: nat): (k: nat)
    ensures k <= n
    ensures forall i | 0 <= i < k :: insertFailure(i).None?
    ensures k < n ==> insertFailure(k).Some?
  {
    if n == 0 then 0
    else
      var k := InsertedBeforeFailure(insertFailure, n - 1);
      if k < n - 1 then k
      else if insertFailure(n - 1).Some? then n - 1
      else n
  }

  lemma FirstFailureAt(insertFailure: nat -> Option<Exn>, n: nat, i: nat)
    requires i <= n && forall j | 0 <= j < i :: insertFailure(j).None?
    requires i < n ==> insertFailure(i).Some?
    ensures InsertedBeforeFailure(insertFailure, n) == i
  {
  }

  /** The failures of the insert loop: attempt i first parses the payload's "Data" with
      DateOnly.ParseExact, which raises FormatException for a text that is not a
      "yyyy-MM-dd" date, and only then runs the statement. */
  function LoopFailure(payloads: seq<PricePayload>, parse: PricePayload -> Result<DateOnly, Exn>,
                       insertFailure: nat -> Option<Exn>): nat -> Option<Exn> {
    (i: nat) => if i < |payloads| && parse(payloads[i]).Err? then Some(parse(payloads[i]).error) else insertFailure(i)
  }

  /** The price date bound for a payload; only consulted for payloads whose "Data" parsed. */
  function PriceDate(parse: PricePayload -> Result<DateOnly, Exn>, p: PricePayload): DateOnly {
    match parse(p)
    case Ok(d) => d
    case Err(_) => Date(1, 1, 1)
  }

  /** The row the statement is given for a payload. */
  function PayloadRows(flowId: Guid, captureTime: DateTime, parse: PricePayload -> Result<DateOnly, Exn>): PricePayload -> PriceRow {
    (p: PricePayload) => PriceRow(flowId, captureTime, Midnight(PriceDate(parse, p)), p)
  }

  class PocCaptureWorkflow {
    const repository: PriceRepository
    /** The payload lists handed to the sender, in order. */
    var sent: seq<seq<PricePayload>>

    constructor (repository: PriceRepository)
      ensures this.repository == repository && sent == []
    {
      this.repository := repository;
      sent := [];
    }

    /** ProcessAsync: the fetch result, the observations mapped to payloads, every payload
        inserted with the one capture time until an insert raises, and then the whole list
        sent once. */
    method ProcessAsync(flowId: Guid, fetched: Result<seq<SeriesData>, Exn>, captureTime: DateTime,
                        insertFailure: nat -> Option<Exn>, sendFailure: Option<Exn>)
      returns (r: Result<(), Exn>)
      modifies this, repository.table
      ensures fetched.Err? ==> r == Err(fetched.error) && sent == old(sent) && repository.table.rows == old(repository.table.rows)
      ensures fetched.Ok? ==>
        var items, k := fetched.value, InsertedBeforeFailure(insertFailure, |fetched.value|);
        && repository.table.rows == InsertAll(old(repository.table.rows), items[..k], RowsOf(flowId, captureTime))
        && (k < |items| ==> r == Err(insertFailure(k).value) && sent == old(sent))
        && (k == |items| ==> sent == old(sent) + [CreatePayloads(items)])
        && (k == |items| ==> r == if sendFailure.Some? then Err(sendFailure.value) else Ok(()))
    {
      if fetched.Err? {
        return Err(fetched.error);
      }
      var items := fetched.value;
      var payload := CreatePayloads(items);
      ghost var before := repository.table.rows;
      var persisted := InsertPayloads(flowId, captureTime, payload, ParseDataPrice, insertFailure);
      CreatedPayloadsPersist(before, flowId, captureTime, items, insertFailure);
      if persisted.Err? {
        return persisted;
      }
      sent := sent + [payload];
      if sendFailure.Some? {
        return Err(sendFailure.value);
      }
      return Ok(());
    }

    /** The foreach over the payloads: parse the date (with parse, which ProcessAsync gives
        as ParseDataPrice), run the statement; the first failure ends the loop and
        propagates. */
    method InsertPayloads(flowId: Guid, captureTime: DateTime, payloads: seq<PricePayload>,
                          parse: PricePayload -> Result<DateOnly, Exn>, insertFailure: nat -> Option<Exn>)
      returns (r: Result<(), Exn>)
      modifies repository.table
      ensures var f := LoopFailure(payloads, parse, insertFailure);
        var k := InsertedBeforeFailure(f, |payloads|);
        && repository.table.rows == InsertAll(old(repository.table.rows), payloads[..k], PayloadRows(flowId, captureTime, parse))
        && (k < |payloads| ==> r == Err(f(k).value))
        && (k == |payloads| ==> r == Ok(()))
    {
      ghost var f := LoopFailure(payloads, parse, insertFailure);
      ghost var k := InsertedBeforeFailure(f, |payloads|);
      var rowOf := PayloadRows(flowId, captureTime, parse);
      ghost var before := repository.table.rows;
      for i := 0 to |payloads|
        invariant i <= k
        invariant repository.table.rows == InsertAll(before, payloads[..i], rowOf)
      {
        var dataPrice := parse(payloads[i]);
        if dataPrice.Err? {
          assert f(i) == Some(dataPrice.error);
          FirstFailureAt(f, |payloads|, i);
          return Err(dataPrice.error);
        }
        if insertFailure(i).Some? {
          assert f(i) == insertFailure(i);
          FirstFailureAt(f, |payloads|, i);
          return Err(insertFailure(i).value);
        }
        assert f(i).None?;
        repository.InsertAsync(flowId, captureTime, dataPrice.value, payloads[i]);
        InsertAllSnoc(before, payloads, i, rowOf);
      }
      assert payloads[..|payloads|] == payloads;
      return Ok(());
    }
  }

  /** For payloads built from observations no date fails to parse, so the loop fails exactly
      where an insert does, and the rows it inserts are the observations' rows. */
  lemma CreatedPayloadsPersist(rows: set<PriceRow>, flowId: Guid, captureTime: DateTime, items: seq<SeriesData>,
                               insertFailure: nat -> Option<Exn>)
    ensures var payloads := CreatePayloads(items);
      var k := InsertedBeforeFailure(insertFailure, |items|);
      && InsertedBeforeFailure(LoopFailure(payloads, ParseDataPrice, insertFailure), |items|) == k
      && LoopFailure(payloads, ParseDataPrice, insertFailure)(k) == insertFailure(k)
      && InsertAll(rows, payloads[..k], PayloadRows(flowId, captureTime, ParseDataPrice))
         == InsertAll(rows, items[..k], RowsOf(flowId, captureTime))
  {
    CreatedPayloadsFailAtInsert(items, insertFailure);
    CreatedPayloadsRows(rows, flowId, captureTime, items, InsertedBeforeFailure(insertFailure, |items|));
  }

  /** Parsing never fails for created payloads: the loop's failures are the inserts'. */
  lemma CreatedPayloadsFailAtInsert(items: seq<SeriesData>, insertFailure: nat -> Option<Exn>)
    ensures var f, k := LoopFailure(CreatePayloads(items), ParseDataPrice, insertFailure), InsertedBeforeFailure(insertFailure, |items|);
      InsertedBeforeFailure(f, |items|) == k && f(k) == insertFailure(k)
  {
    var payloads := CreatePayloads(items);
    forall i | 0 <= i < |payloads|
      ensures ParseDataPrice(payloads[i]).Ok?
    {
      CreatedPayloadParses(items[i], payloads[i]);
    }
    ParsedLoopFailure(payloads, ParseDataPrice, insertFailure);
  }

  /** When every payload parses, the loop fails where the inserts do. */
  lemma ParsedLoopFailure(payloads: seq<PricePayload>, parse: PricePayload -> Result<DateOnly, Exn>, insertFailure: nat -> Option<Exn>)
    requires forall i | 0 <= i < |payloads| :: parse(payloads[i]).Ok?
    ensures var f, k := LoopFailure(payloads, parse, insertFailure), InsertedBeforeFailure(insertFailure, |payloads|);
      InsertedBeforeFailure(f, |payloads|) == k && f(k) == insertFailure(k)
  {
    var f := LoopFailure(payloads, parse, insertFailure);
    assert forall i :: f(i) == insertFailure(i);
    FirstFailureAt(f, |payloads|, InsertedBeforeFailure(insertFailure, |payloads|));
  }

  /** The rows inserted for the first k created payloads are the rows of the first k
      observations. */
  lemma CreatedPayloadsRows(rows: set<PriceRow>, flowId: Guid, captureTime: DateTime, items: seq<SeriesData>, k: nat)
    requires k <= |items|
    ensures InsertAll(rows, CreatePayloads(items)[..k], PayloadRows(flowId, captureTime, ParseDataPrice))
      == InsertAll(rows, items[..k], RowsOf(flowId, captureTime))
  {
    var payloads := CreatePayloads(items);
    forall i | 0 <= i < |items|
      ensures PayloadRows(flowId, captureTime, ParseDataPrice)(payloads[i]) == RowsOf(flowId, captureTime)(items[i])
    {
      CreatedPayloadRows(flowId, captureTime, items[i], payloads[i]);
    }
    InsertAllMap(rows, payloads[..k], PayloadRows(flowId, captureTime, ParseDataPrice), items[..k], RowsOf(flowId, captureTime));
  }

  lemma CreatedPayloadParses(item: SeriesData, p: PricePayload)
    requires p == CreatePayload(item)
    ensures ParseDataPrice(p).Ok?
  {
  }

  lemma CreatedPayloadRows(flowId: Guid, captureTime: DateTime, item: SeriesData, p: PricePayload)
    requires p == CreatePayload(item)
    ensures PayloadRows(flowId, captureTime, ParseDataPrice)(p) == RowsOf(flowId, captureTime)(item)
  {
  }

  /** Two runs whose rows agree position by position leave the same table. */
  lemma {:induction false} InsertAllMap<T, U>(rows: set<PriceRow>, a: seq<T>, f: T -> PriceRow, b: seq<U>, g: U -> PriceRow)
    requires |a| == |b| && forall i | 0 <= i < |a| :: f(a[i]) == g(b[i])
    ensures InsertAll(rows, a, f) == InsertAll(rows, b, g)
    decreases |a|
  {
    if a != [] {
      var n := |a| - 1;
      assert forall i | 0 <= i < n :: a[..n][i] == a[i] && b[..n][i] == b[i];
      InsertAllMap(rows, a[..n], f, b[..n], g);
    }
  }

  // ---------------------------------------------------------------- properties

  /** Every item inserted has a row with its key afterwards, no row is lost, and every row
      added is the row of one of the items. */
  lemma {:induction false} InsertAllCovers<T>(rows: set<PriceRow>, items: seq<T>, rowOf: T -> PriceRow)
    ensures rows <= InsertAll(rows, items, rowOf)
    ensures forall i | 0 <= i < |items| :: exists x | x in InsertAll(rows, items, rowOf) :: SameKey(x, rowOf(items[i]))
    ensures forall x | x in InsertAll(rows, items, rowOf) - rows :: exists i | 0 <= i < |items| :: x == rowOf(items[i])
    decreases |items|
  {
    if items != [] {
      var n := |items| - 1;
      var front := items[..n];
      InsertAllCovers(rows, front, rowOf);
      var mid := InsertAll(rows, front, rowOf);
      var all := InsertAll(rows, items, rowOf);
      assert all == InsertIfAbsent(mid, rowOf(items[n]));
      forall i | 0 <= i < n
        ensures exists x | x in all :: SameKey(x, rowOf(items[i]))
      {
        assert front[i] == items[i];
        var x :| x in mid && SameKey(x, rowOf(front[i]));
        assert x in all;
      }
      forall x | x in all - rows
        ensures exists i | 0 <= i < |items| :: x == rowOf(items[i])
      {
        if x in mid {
          assert x in mid - rows;
          var i :| 0 <= i < n && x == rowOf(front[i]);
          assert front[i] == items[i];
        } else {
          assert x == rowOf(items[n]);
        }
      }
    }
  }

  /** The table has a row with the key of the given row. */
  predicate KeyPresent(rows: set<PriceRow>, row: PriceRow) {
    exists x | x in rows :: SameKey(x, row)
  }

  /** Every item's key has a row already. */
  predicate KeysPresent<T>(rows: set<PriceRow>, items: seq<T>, rowOf: T -> PriceRow) {
    forall i | 0 <= i < |items| :: KeyPresent(rows, rowOf(items[i]))
  }

  /** Inserting items whose keys are all present already leaves the table as it is. */
  lemma {:induction false} InsertAllPresent<T>(rows: set<PriceRow>, items: seq<T>, rowOf: T -> PriceRow)
    requires KeysPresent(rows, items, rowOf)
    ensures InsertAll(rows, items, rowOf) == rows
    decreases |items|
  {
    if items != [] {
      var n := |items| - 1;
      assert forall i | 0 <= i < n :: items[..n][i] == items[i];
      InsertAllPresent(rows, items[..n], rowOf);
      assert KeyPresent(rows, rowOf(items[n]));
    }
  }

  /** Every row a run adds carries the run's flow id and its one capture time, and its price
      date is the date of one of the observations. */
  lemma RunRowsShareFlowAndTime(rows: set<PriceRow>, flowId: Guid, captureTime: DateTime, items: seq<SeriesData>)
    ensures forall x | x in InsertAll(rows, items, RowsOf(flowId, captureTime)) - rows ::
      && x.flowId == flowId && x.dataCapture == captureTime
      && exists i | 0 <= i < |items| :: x.dataPrice == Midnight(items[i].date)
  {
    var rowOf := RowsOf(flowId, captureTime);
    InsertAllCovers(rows, items, rowOf);
    forall x | x in InsertAll(rows, items, rowOf) - rows
      ensures x.flowId == flowId && x.dataCapture == captureTime
      ensures exists i | 0 <= i < |items| :: x.dataPrice == Midnight(items[i].date)
    {
      var i :| 0 <= i < |items| && x == rowOf(items[i]);
      assert x == RowOf(flowId, captureTime, items[i]);
    }
  }

  /** Running the capture again for the same flow and the same observations, at any later
      capture time, adds no row: the inserts are idempotent per flow id and price date. */
  lemma RerunAddsNothing(rows: set<PriceRow>, flowId: Guid, t1: DateTime, t2: DateTime, items: seq<SeriesData>)
    ensures var once := InsertAll(rows, items, RowsOf(flowId, t1));
      InsertAll(once, items, RowsOf(flowId, t2)) == once
  {
    var first, second := RowsOf(flowId, t1), RowsOf(flowId, t2);
    var once := InsertAll(rows, items, first);
    InsertAllCovers(rows, items, first);
    forall i | 0 <= i < |items|
      ensures exists x | x in once :: SameKey(x, second(items[i]))
    {
      var x :| x in once && SameKey(x, first(items[i]));
      assert first(items[i]) == RowOf(flowId, t1, items[i]);
      assert second(items[i]) == RowOf(flowId, t2, items[i]);
    }
    InsertAllPresent(once, items, second);
  }
}
