/** DtfDailyCaptureWorkflow of the application layer: the daily capture of a flow, from the
    skip check through the state writes, the choice of where the payloads come from, their
    persistence in batches, the CSV upload and the downstream send, with a failure recorded
    on the flow's state before it is rethrown.

    The collaborators the workflow calls through interfaces are given by what they answer
    (an Env value): the state queries, the failures the state writes, inserts, upload and
    send may raise, the observations the statistics client streams, the stored payloads and
    the clock. The calls themselves are recorded, in order, as the events of a trace, the
    state store is a map, and the file system is a FileStore. The batches of
    PersistPayloadsAsync, which run concurrently under a semaphore, are run one after the
    other; Task.WhenAll rethrows the failure of the first batch that failed, in batch order,
    after all of them ran. */
module CaptureWorkflow {
  import opened Wrappers
  import opened Calendar
  import opened FlowIds
  import opened Linq
  import opened Series
  import opened Csv
  import opened Payloads
  import opened ProcessingStates
  import opened CapturePersistence
  import SdmxClient

  // ---------------------------------------------------------------- the CSV path

  /** Path.Combine's joining of a leading part: an empty part adds nothing, and a part that
      does not end in the directory separator '/' gets one. */
  function PathPrefix(dir: string): (p: string)
    ensures p == [] || p[|p| - 1] == '/'
    ensures dir == [] ==> p == []
    ensures dir != [] ==> |p| >= |dir| && p[..|dir|] == dir
  {
    if dir == [] then [] else if dir[|dir| - 1] == '/' then dir else dir + "/"
  }

  /** BuildCsvPath: Path.Combine(CsvDirectory, yyyyMMdd of the capture date, the flow id
      as 32 hex digits + ".csv"). */
  function BuildCsvPath(csvDirectory: string, flowId: Guid, captureDate: DateOnly): string {
    PathPrefix(csvDirectory) + FileOf(flowId, captureDate)
  }

  /** The last two parts: the date directory and the file name, 45 characters. */
  function FileOf(flowId: Guid, captureDate: DateOnly): (f: string)
    ensures |f| == 45
  {
    FormatCompactDate(captureDate) + "/" + FormatN(flowId) + ".csv"
  }

  // ---------------------------------------------------------------- collaborators

  /** What the collaborators answer during one run. */
  datatype Env = Env(
    lastByCaptureDate: DateOnly -> Result<Option<ProcessingState>, Exn>,  // GetLastStatusByCaptureDate
    byFlowIdFailure: Option<Exn>,                             // GetByFlowId raises
    stored: Result<seq<PricePayload>, Exn>,                   // GetPayloadsByFlowId of the run's flow
    createFailure: Option<Exn>,                               // CreateStateIfNotExists raises
    statusFailure: ProcessingStatus -> Option<Exn>,           // UpdateStatus with that status raises
    stream: seq<SeriesData>,                                  // what StreamDtfDailyAsync yields
    streamFailure: Option<Exn>,                               // and what it raises after that
    captureTime: DateTime,                                    // DateTime.UtcNow
    insertFailure: nat -> Option<Exn>,                        // InsertAsync of the payload at that position raises
    uploadFailure: Option<Exn>,                               // UploadDtfDailyCsvAsync raises
    sendFailure: Option<Exn>,                                 // SendAsync raises
    newFlowId: Guid)                                          // Guid.NewGuid()

  /** Where the payloads of a run come from. */
  datatype PayloadSource = CsvFile | StoredRows | FreshFetch

  /** The effect of a run: the calls it made, the state store, the files and its outcome. */
  datatype Run = Run(events: seq<Event>, states: StateStore, files: map<string, seq<string>>, result: Result<(), Exn>)

  // ---------------------------------------------------------------- the steps

  /** ReadPayloadsFromCsvAsync: the reader's observations, each made a payload. */
  function ReadCsvPayloads(files: map<string, seq<string>>, csvPath: string): (r: Result<seq<PricePayload>, Exn>)
  {
    if csvPath !in files then Err(FileNotFound)
    else match ReadLines(files[csvPath])
      case Ok(observations) => Ok(CreatePayloads(observations))
      case Err(e) => Err(e)
  }

  /** FetchFromClientAsync: the payloads of the streamed observations, unless the stream
      raises. */
  function FetchedPayloads(env: Env): Result<seq<PricePayload>, Exn> {
    if env.streamFailure.Some? then Err(env.streamFailure.value) else Ok(CreatePayloads(env.stream))
  }

  /** The run calls the statistics client: it does not reuse payloads, or there is neither
      a CSV file nor a stored payload (and the stored-payload query did not raise). */
  predicate Fetches(usePersistedPayload: bool, files: map<string, seq<string>>, csvPath: string, stored: Result<seq<PricePayload>, Exn>) {
    !usePersistedPayload || (csvPath !in files && stored.Ok? && |stored.value| == 0)
  }

  /** The payload choice of the try block: with usePersistedPayload, an existing CSV file
      first, then the stored payloads if there are any; otherwise a fresh fetch. */
  function ObtainPayloads(usePersistedPayload: bool, files: map<string, seq<string>>, csvPath: string, env: Env): Result<(PayloadSource, seq<PricePayload>), Exn>
  {
    if usePersistedPayload && csvPath in files then
      match ReadCsvPayloads(files, csvPath)
      case Ok(ps) => Ok((CsvFile, ps))
      case Err(e) => Err(e)
    else if usePersistedPayload && env.stored.Err? then Err(env.stored.error)
    else if usePersistedPayload && |env.stored.value| > 0 then Ok((StoredRows, env.stored.value))
    else match FetchedPayloads(env)
      case Ok(ps) => Ok((FreshFetch, ps))
      case Err(e) => Err(e)
  }

  /** The files after the payload choice: a fetch writes the CSV file of what was streamed,
      even when the stream then raises. */
  function FilesAfterObtain(usePersistedPayload: bool, files: map<string, seq<string>>, csvPath: string, env: Env): map<string, seq<string>> {
    if Fetches(usePersistedPayload, files, csvPath, env.stored) then files[csvPath := CsvLines(env.stream)] else files
  }

  /** TryUploadCsvAsync: the upload is made when the file exists; a failed upload is
      swallowed and records nothing. */
  function UploadEvents(flowId: Guid, captureDate: DateOnly, csvPath: string, files: map<string, seq<string>>, uploadFailure: Option<Exn>): seq<Event> {
    if csvPath in files && uploadFailure.None? then [CsvUploaded(flowId, captureDate, csvPath)] else []
  }

  /** The inserts of a run: the batches, for fetched payloads only. */
  function PersistOutcome(flowId: Guid, source: PayloadSource, payloads: seq<PricePayload>, batchSize: nat, env: Env): Outcome
    requires batchSize >= 1
  {
    if source == FreshFetch then PersistRun(flowId, env.captureTime, Chunks(payloads, batchSize), batchSize, ParseDataPrice, env.insertFailure)
    else NoEvents
  }

  /** The end of the try block: Persisted, the send, Sent; each may raise. */
  function Finish(flowId: Guid, payloads: seq<PricePayload>, states: StateStore, files: map<string, seq<string>>, env: Env): Run {
    if env.statusFailure(Persisted).Some? then Run([], states, files, Err(env.statusFailure(Persisted).value))
    else
      var persisted := UpdateStatus(states, flowId, Persisted, None);
      var e1 := [StatusWritten(flowId, Persisted, None)];
      if env.sendFailure.Some? then Run(e1, persisted, files, Err(env.sendFailure.value))
      else
        var e2 := e1 + [PayloadsSent(payloads)];
        if env.statusFailure(Sent).Some? then Run(e2, persisted, files, Err(env.statusFailure(Sent).value))
        else Run(e2 + [StatusWritten(flowId, Sent, None)], UpdateStatus(persisted, flowId, Sent, None), files, Ok(()))
  }

  /** The try block once the payloads are chosen: fetched payloads are persisted, and a
      failed insert ends the block; then the upload and the end of the block. */
  function AfterObtain(flowId: Guid, captureDate: DateOnly, csvPath: string, source: PayloadSource, payloads: seq<PricePayload>,
                       batchSize: nat, states: StateStore, files: map<string, seq<string>>, env: Env): Run
    requires batchSize >= 1
  {
    var persisted := PersistOutcome(flowId, source, payloads, batchSize, env);
    if persisted.failure.Some? then Run(persisted.events, states, files, Err(persisted.failure.value))
    else
      var finish := Finish(flowId, payloads, states, files, env);
      Run(persisted.events + UploadEvents(flowId, captureDate, csvPath, files, env.uploadFailure) + finish.events,
          finish.states, finish.files, finish.result)
  }

  /** The try block of ExecuteAsync. */
  function TryBlock(flowId: Guid, captureDate: DateOnly, csvPath: string, usePersistedPayload: bool, batchSize: nat,
                    states: StateStore, files: map<string, seq<string>>, env: Env): Run
    requires batchSize >= 1
  {
    var files1 := FilesAfterObtain(usePersistedPayload, files, csvPath, env);
    match ObtainPayloads(usePersistedPayload, files, csvPath, env)
    case Err(e) => Run([], states, files1, Err(e))
    case Ok(obtained) => AfterObtain(flowId, captureDate, csvPath, obtained.0, obtained.1, batchSize, states, files1, env)
  }

  /** The skip check: only for ProcessAsync, and only when the last state of the capture
      date is completed. */
  predicate Skips(allowSkipCompleted: bool, captureDate: DateOnly, env: Env) {
    && allowSkipCompleted
    && env.lastByCaptureDate(captureDate).Ok?
    && env.lastByCaptureDate(captureDate).value.Some?
    && IsCompletedState(env.lastByCaptureDate(captureDate).value.value)
  }

  /** The skip check's query raises, before anything is written. */
  predicate SkipCheckFails(allowSkipCompleted: bool, captureDate: DateOnly, env: Env) {
    allowSkipCompleted && env.lastByCaptureDate(captureDate).Err?
  }

  /** The try block and its catch. */
  function Guarded(flowId: Guid, captureDate: DateOnly, csvPath: string, usePersistedPayload: bool, batchSize: nat,
                   states: StateStore, files: map<string, seq<string>>, env: Env): Run
    requires batchSize >= 1
  {
    Catch(flowId, TryBlock(flowId, captureDate, csvPath, usePersistedPayload, batchSize, states, files, env), env)
  }

  /** The catch of ExecuteAsync, after the try block ran as t: a failure is written as
      Failed with the exception's text and rethrown, unless that write itself raises,
      whose exception then escapes. */
  function Catch(flowId: Guid, t: Run, env: Env): Run {
    if t.result.Ok? then t
    else if env.statusFailure(Failed).Some? then Run(t.events, t.states, t.files, Err(env.statusFailure(Failed).value))
    else
      var message := Some(ExceptionText(t.result.error));
      Run(t.events + [StatusWritten(flowId, Failed, message)], UpdateStatus(t.states, flowId, Failed, message), t.files, t.result)
  }

  /** A run that is not skipped: the state created, Processing, then the guarded try
      block. A failure of the state creation or of the Processing write escapes before the
      try block and is not recorded. */
  function Started(flowId: Guid, captureDate: DateOnly, csvPath: string, usePersistedPayload: bool,
                   batchSize: nat, states: StateStore, files: map<string, seq<string>>, env: Env): Run
    requires batchSize >= 1
  {
    if env.createFailure.Some? then Run([], states, files, Err(env.createFailure.value))
    else
      var created := CreateStateIfNotExists(states, captureDate, flowId);
      if env.statusFailure(Processing).Some? then
        Run([StateCreated(captureDate, flowId)], created, files, Err(env.statusFailure(Processing).value))
      else
        var g := Guarded(flowId, captureDate, csvPath, usePersistedPayload, batchSize, UpdateStatus(created, flowId, Processing, None), files, env);
        Run([StateCreated(captureDate, flowId), StatusWritten(flowId, Processing, None)] + g.events, g.states, g.files, g.result)
  }

  /** ExecuteAsync: the skip check, then the run, on the CSV path of the flow and date. */
  function Execute(flowId: Guid, captureDate: DateOnly, allowSkipCompleted: bool, usePersistedPayload: bool,
                   csvDirectory: string, batchSize: nat, states: StateStore, files: map<string, seq<string>>, env: Env): Run
    requires batchSize >= 1
  {
    if SkipCheckFails(allowSkipCompleted, captureDate, env) then
      Run([], states, files, Err(env.lastByCaptureDate(captureDate).error))
    else if Skips(allowSkipCompleted, captureDate, env) then Run([], states, files, Ok(()))
    else Started(flowId, captureDate, BuildCsvPath(csvDirectory, flowId, captureDate), usePersistedPayload, batchSize, states, files, env)
  }

  /** The state ReprocessAsync looks up: by flow id when one is given, then, when that
      finds nothing, the last state of the capture date when one is given. Either query
      may raise, and its exception escapes. */
  function LookupState(captureDate: Option<DateOnly>, flowId: Option<Guid>, states: StateStore,
                       byFlowIdFailure: Option<Exn>,
                       lastByCaptureDate: DateOnly -> Result<Option<ProcessingState>, Exn>): Result<Option<ProcessingState>, Exn>
  {
    if flowId.Some? && byFlowIdFailure.Some? then Err(byFlowIdFailure.value)
    else
      var byFlow := if flowId.Some? then GetByFlowId(states, flowId.value) else None;
      if byFlow.None? && captureDate.Some? then lastByCaptureDate(captureDate.value) else Ok(byFlow)
  }

  /** ReprocessAsync's choice of flow and capture date: ArgumentException when neither is
      given; the state found by flow id, else by capture date, whose query failures
      escape; the flow id given, else the state's, else a new one; the date given, else the
      state's, else the context's, else InvalidOperationException. */
  function ResolveReprocess(captureDate: Option<DateOnly>, flowId: Option<Guid>, states: StateStore,
                            byFlowIdFailure: Option<Exn>,
                            lastByCaptureDate: DateOnly -> Result<Option<ProcessingState>, Exn>,
                            contextDate: Option<DateOnly>, newFlowId: Guid): (r: Result<(Guid, DateOnly), Exn>)
    ensures captureDate.None? && flowId.None? ==> r == Err(Argument)
    ensures flowId.Some? && byFlowIdFailure.Some? ==> r == Err(byFlowIdFailure.value)
    ensures flowId.None? && captureDate.Some? && lastByCaptureDate(captureDate.value).Err? ==>
      r == Err(lastByCaptureDate(captureDate.value).error)
    ensures var found := LookupState(captureDate, flowId, states, byFlowIdFailure, lastByCaptureDate);
      !(captureDate.None? && flowId.None?) && found.Err? ==> r == Err(found.error)
    ensures LookupState(captureDate, flowId, states, byFlowIdFailure, lastByCaptureDate).Ok? ==>
      && (r == Err(Argument) <==> captureDate.None? && flowId.None?)
      && (r == Err(InvalidOperation) <==>
            captureDate.None? && flowId.Some? && flowId.value !in states && contextDate.None?)
      && (r.Err? ==> r == Err(Argument) || r == Err(InvalidOperation))
    ensures r.Ok? && flowId.Some? ==> r.value.0 == flowId.value
    ensures r.Ok? && captureDate.Some? ==> r.value.1 == captureDate.value
    ensures flowId.None? && captureDate.Some? && lastByCaptureDate(captureDate.value).Ok? ==>
      var last := lastByCaptureDate(captureDate.value).value;
      r == Ok((if last.Some? then last.value.flowId else newFlowId, captureDate.value))
    ensures flowId.Some? && byFlowIdFailure.None? && flowId.value in states && captureDate.None? ==>
      r == Ok((flowId.value, states[flowId.value].captureDate))
  {
    if captureDate.None? && flowId.None? then Err(Argument)
    else match LookupState(captureDate, flowId, states, byFlowIdFailure, lastByCaptureDate)
      case Err(e) => Err(e)
      case Ok(state) =>
        var resolvedFlowId := if flowId.Some? then flowId.value else if state.Some? then state.value.flowId else newFlowId;
        var resolvedDate :=
          if captureDate.Some? then captureDate
          else if state.Some? then Some(state.value.captureDate)
          else contextDate;
        if resolvedDate.None? then Err(InvalidOperation) else Ok((resolvedFlowId, resolvedDate.value))
  }

  // ---------------------------------------------------------------- the workflow

  /** IFlowContextAccessor: the flow id and capture date of the current run. */
  class FlowContext {
    var flowId: Guid
    var captureDate: Option<DateOnly>

    constructor (flowId: Guid, captureDate: Option<DateOnly>)
      ensures this.flowId == flowId && this.captureDate == captureDate
    {
      this.flowId := flowId;
      this.captureDate := captureDate;
    }
  }

  lemma AppendAssoc<T>(a: seq<T>, b: seq<T>, c: seq<T>)
    ensures (a + b) + c == a + (b + c)
  {
  }

  /** TapObservationsAsync and the loop of ReadPayloadsFromCsvAsync: one payload per
      observation, added in order. */
  method CollectPayloads(items: seq<SeriesData>) returns (payloads: seq<PricePayload>)
    ensures payloads == CreatePayloads(items)
  {
    payloads := [];
    var i := 0;
    while i < |items|
      invariant 0 <= i <= |items|
      invariant payloads == Map(items[..i], CreatePayload)
    {
      MapSnoc(items, i, CreatePayload);
      payloads := payloads + [CreatePayload(items[i])];
      i := i + 1;
    }
    assert items[..i] == items;
  }

  class DailyCaptureWorkflow {
    const csvDirectory: string
    const persistenceBatchSize: int
    const persistenceParallelism: int
    const files: FileStore
    const context: FlowContext
    var states: StateStore
    var trace: seq<Event>

    constructor (csvDirectory: string, persistenceBatchSize: int, persistenceParallelism: int,
                 files: FileStore, context: FlowContext, states: StateStore)
      ensures this.csvDirectory == csvDirectory && this.persistenceBatchSize == persistenceBatchSize
      ensures this.persistenceParallelism == persistenceParallelism
      ensures this.files == files && this.context == context && this.states == states && trace == []
    {
      this.csvDirectory := csvDirectory;
      this.persistenceBatchSize := persistenceBatchSize;
      this.persistenceParallelism := persistenceParallelism;
      this.files := files;
      this.context := context;
      this.states := states;
      trace := [];
    }

    /** Math.Max(1, PersistenceBatchSize). */
    function BatchSize(): (n: nat)
      ensures n >= 1
    {
      AtLeastOne(persistenceBatchSize)
    }

    /** CreateStateIfNotExists on the store. */
    method CreateState(captureDate: DateOnly, flowId: Guid, failure: Option<Exn>) returns (r: Result<(), Exn>)
      modifies this
      ensures failure.Some? ==> r == Err(failure.value) && states == old(states) && trace == old(trace)
      ensures failure.None? ==>
        && r == Ok(())
        && states == CreateStateIfNotExists(old(states), captureDate, flowId)
        && trace == old(trace) + [StateCreated(captureDate, flowId)]
    {
      if failure.Some? {
        return Err(failure.value);
      }
      states := CreateStateIfNotExists(states, captureDate, flowId);
      trace := trace + [StateCreated(captureDate, flowId)];
      return Ok(());
    }

    /** UpdateStatus on the store. */
    method WriteStatus(flowId: Guid, status: ProcessingStatus, error: Option<string>, failure: Option<Exn>) returns (r: Result<(), Exn>)
      modifies this
      ensures failure.Some? ==> r == Err(failure.value) && states == old(states) && trace == old(trace)
      ensures failure.None? ==>
        && r == Ok(())
        && states == UpdateStatus(old(states), flowId, status, error)
        && trace == old(trace) + [StatusWritten(flowId, status, error)]
    {
      if failure.Some? {
        return Err(failure.value);
      }
      states := UpdateStatus(states, flowId, status, error);
      trace := trace + [StatusWritten(flowId, status, error)];
      return Ok(());
    }

    /** SendAsync of the payload sender. */
    method SendAsync(payloads: seq<PricePayload>, failure: Option<Exn>) returns (r: Result<(), Exn>)
      modifies this
      ensures states == old(states)
      ensures failure.Some? ==> r == Err(failure.value) && trace == old(trace)
      ensures failure.None? ==> r == Ok(()) && trace == old(trace) + [PayloadsSent(payloads)]
    {
      if failure.Some? {
        return Err(failure.value);
      }
      trace := trace + [PayloadsSent(payloads)];
      return Ok(());
    }

    /** FetchFromClientAsync: the CSV writer consumes the tapped stream, so the file holds
        every observation streamed and the list one payload for each. */
    method FetchFromClientAsync(csvPath: string, env: Env) returns (r: Result<seq<PricePayload>, Exn>)
      modifies files
      ensures files.files == old(files.files)[csvPath := CsvLines(env.stream)]
      ensures r == FetchedPayloads(env)
    {
      WriteCsv(files, env.stream, csvPath);
      var payloads := CollectPayloads(env.stream);
      if env.streamFailure.Some? {
        return Err(env.streamFailure.value);
      }
      return Ok(payloads);
    }

    /** ReadPayloadsFromCsvAsync. */
    method ReadPayloadsFromCsvAsync(csvPath: string) returns (r: Result<seq<PricePayload>, Exn>)
      ensures r == ReadCsvPayloads(files.files, csvPath)
    {
      var read := ReadCsv(files, csvPath);
      if read.Err? {
        return Err(read.error);
      }
      var payloads := CollectPayloads(read.value);
      return Ok(payloads);
    }

    /** ProcessBatchAsync for the batch at position start of the list: parse and insert
        each entry, stopping at the first exception. */
    method ProcessBatchAsync(flowId: Guid, captureTime: DateTime, batch: seq<PricePayload>, start: nat,
                             parse: DateParser, insertFailure: nat -> Option<Exn>) returns (failure: Option<Exn>)
      modifies this
      ensures var o := BatchRun(flowId, captureTime, batch, start, parse, insertFailure);
        trace == old(trace) + o.events && failure == o.failure
      ensures states == old(states)
    {
      var j := 0;
      while j < |batch|
        invariant 0 <= j <= |batch|
        invariant states == old(states)
        invariant var o := BatchRun(flowId, captureTime, batch[..j], start, parse, insertFailure);
          trace == old(trace) + o.events && o.failure.None?
      {
        BatchRunSnoc(flowId, captureTime, batch, start, j, parse, insertFailure);
        var dataPrice := parse(batch[j]);
        if dataPrice.Err? || insertFailure(start + j).Some? {
          BatchRunStops(flowId, captureTime, batch, start, j + 1, parse, insertFailure);
          return if dataPrice.Err? then Some(dataPrice.error) else insertFailure(start + j);
        }
        trace := trace + [PriceInserted(flowId, captureTime, dataPrice.value, batch[j])];
        j := j + 1;
      }
      assert batch[..j] == batch;
      return None;
    }

    /** PersistPayloadsAsync: one batch per BatchSize() entries, every batch run; the first
        failure, in batch order, is rethrown after all of them. */
    method PersistPayloadsAsync(flowId: Guid, payloads: seq<PricePayload>, captureTime: DateTime,
                                parse: DateParser, insertFailure: nat -> Option<Exn>) returns (failure: Option<Exn>)
      modifies this
      ensures var o := PersistRun(flowId, captureTime, Chunks(payloads, BatchSize()), BatchSize(), parse, insertFailure);
        trace == old(trace) + o.events && failure == o.failure
      ensures states == old(states)
    {
      var batchSize := BatchSize();
      ghost var cs := Chunks(payloads, batchSize);
      ChunkCountCovers(payloads, batchSize);
      failure := None;
      var index := 0;
      ghost var c := 0;
      ghost var o := NoEvents;
      while index < |payloads|
        invariant c <= |cs| && index == c * batchSize
        invariant index < |payloads| <==> c < |cs|
        invariant states == old(states)
        invariant o == PersistRun(flowId, captureTime, cs[..c], batchSize, parse, insertFailure)
        invariant trace == old(trace) + o.events && failure == o.failure
        decreases |payloads| - index
      {
        var start, end := ChunkSlice(payloads, batchSize, c);
        var batch := payloads[index..Min(index + batchSize, |payloads|)];
        ghost var b := BatchRun(flowId, captureTime, batch, index, parse, insertFailure);
        assert Outcome(o.events + b.events, if o.failure.Some? then o.failure else b.failure)
            == PersistRun(flowId, captureTime, cs[..c + 1], batchSize, parse, insertFailure) by {
          assert batch == cs[c];
          PersistRunSnoc(flowId, captureTime, cs, batchSize, c, parse, insertFailure);
        }
        ghost var before := trace;
        var batchFailure := ProcessBatchAsync(flowId, captureTime, batch, index, parse, insertFailure);
        if failure.None? {
          failure := batchFailure;
        }
        AppendAssoc(old(trace), o.events, b.events);
        o := Outcome(o.events + b.events, if o.failure.Some? then o.failure else b.failure);
        index := index + batchSize;
        c := c + 1;
        ChunkAt(payloads, batchSize, c);
      }
      assert cs[..c] == cs;
    }

    /** TryUploadCsvAsync. */
    method TryUploadCsvAsync(flowId: Guid, captureDate: DateOnly, csvPath: string, uploadFailure: Option<Exn>)
      modifies this
      ensures trace == old(trace) + UploadEvents(flowId, captureDate, csvPath, files.files, uploadFailure)
      ensures states == old(states)
    {
      if csvPath !in files.files {
        return;
      }
      if uploadFailure.None? {
        trace := trace + [CsvUploaded(flowId, captureDate, csvPath)];
      }
    }

    /** The choice of payloads at the start of the try block of ExecuteAsync. */
    method ObtainPayloadsAsync(flowId: Guid, csvPath: string, usePersistedPayload: bool, env: Env)
      returns (r: Result<(PayloadSource, seq<PricePayload>), Exn>)
      modifies files
      ensures r == ObtainPayloads(usePersistedPayload, old(files.files), csvPath, env)
      ensures files.files == FilesAfterObtain(usePersistedPayload, old(files.files), csvPath, env)
    {
      if usePersistedPayload {
        if csvPath in files.files {
          var read := ReadPayloadsFromCsvAsync(csvPath);
          if read.Err? {
            return Err(read.error);
          }
          return Ok((CsvFile, read.value));
        }
        var storedPayload := env.stored;
        if storedPayload.Err? {
          return Err(storedPayload.error);
        }
        if |storedPayload.value| > 0 {
          return Ok((StoredRows, storedPayload.value));
        }
      }
      var fetched := FetchFromClientAsync(csvPath, env);
      if fetched.Err? {
        return Err(fetched.error);
      }
      return Ok((FreshFetch, fetched.value));
    }

    /** Persisted, the send and Sent. */
    method FinishAsync(flowId: Guid, payloads: seq<PricePayload>, env: Env) returns (r: Result<(), Exn>)
      modifies this
      ensures var f := Finish(flowId, payloads, old(states), files.files, env);
        trace == old(trace) + f.events && states == f.states && r == f.result
    {
      r := WriteStatus(flowId, Persisted, None, env.statusFailure(Persisted));
      if r.Err? {
        return;
      }
      r := SendAsync(payloads, env.sendFailure);
      if r.Err? {
        return;
      }
      r := WriteStatus(flowId, Sent, None, env.statusFailure(Sent));
    }

    /** The try block from the persistence of the chosen payloads on. */
    method AfterObtainAsync(flowId: Guid, captureDate: DateOnly, csvPath: string, source: PayloadSource,
                            payload: seq<PricePayload>, env: Env) returns (r: Result<(), Exn>)
      modifies this
      ensures var t := AfterObtain(flowId, captureDate, csvPath, source, payload, BatchSize(), old(states), files.files, env);
        trace == old(trace) + t.events && states == t.states && files.files == t.files && r == t.result
    {
      var reusedPayload := source != FreshFetch;
      ghost var persisted := PersistOutcome(flowId, source, payload, BatchSize(), env);
      if !reusedPayload {
        var failure := PersistPayloadsAsync(flowId, payload, env.captureTime, ParseDataPrice, env.insertFailure);
        if failure.Some? {
          return Err(failure.value);
        }
      }
      ghost var afterPersist := trace;
      TryUploadCsvAsync(flowId, captureDate, csvPath, env.uploadFailure);
      ghost var afterUpload := trace;
      r := FinishAsync(flowId, payload, env);
      ghost var f := Finish(flowId, payload, old(states), files.files, env);
      ghost var u := UploadEvents(flowId, captureDate, csvPath, files.files, env.uploadFailure);
      AppendAssoc(old(trace), persisted.events, u);
      AppendAssoc(old(trace), persisted.events + u, f.events);
      FinishKeepsFiles(flowId, payload, old(states), files.files, env);
      assert AfterObtain(flowId, captureDate, csvPath, source, payload, BatchSize(), old(states), files.files, env)
        == Run(persisted.events + u + f.events, f.states, f.files, f.result);
    }

    /** The try block of ExecuteAsync. */
    method TryBlockAsync(flowId: Guid, captureDate: DateOnly, csvPath: string, usePersistedPayload: bool, env: Env)
      returns (r: Result<(), Exn>)
      modifies this, files
      ensures var t := TryBlock(flowId, captureDate, csvPath, usePersistedPayload, BatchSize(), old(states), old(files.files), env);
        trace == old(trace) + t.events && states == t.states && files.files == t.files && r == t.result
    {
      var obtained := ObtainPayloadsAsync(flowId, csvPath, usePersistedPayload, env);
      if obtained.Err? {
        return Err(obtained.error);
      }
      r := AfterObtainAsync(flowId, captureDate, csvPath, obtained.value.0, obtained.value.1, env);
    }

    /** The try block of ExecuteAsync and its catch. */
    method GuardedAsync(flowId: Guid, captureDate: DateOnly, csvPath: string, usePersistedPayload: bool, env: Env)
      returns (r: Result<(), Exn>)
      modifies this, files
      ensures var g := Guarded(flowId, captureDate, csvPath, usePersistedPayload, BatchSize(), old(states), old(files.files), env);
        trace == old(trace) + g.events && states == g.states && files.files == g.files && r == g.result
    {
      r := TryBlockAsync(flowId, captureDate, csvPath, usePersistedPayload, env);
      if r.Err? {
        ghost var t := trace;
        var rethrown := r;
        r := WriteStatus(flowId, Failed, Some(ExceptionText(rethrown.error)), env.statusFailure(Failed));
        if r.Ok? {
          r := rethrown;
        }
        AppendAssoc(old(trace), t[|old(trace)|..], [StatusWritten(flowId, Failed, Some(ExceptionText(rethrown.error)))]);
      }
    }

    /** ExecuteAsync once the skip check has passed. */
    method StartedAsync(flowId: Guid, captureDate: DateOnly, csvPath: string, usePersistedPayload: bool, env: Env)
      returns (r: Result<(), Exn>)
      modifies this, files
      ensures var run := Started(flowId, captureDate, csvPath, usePersistedPayload, BatchSize(), old(states), old(files.files), env);
        trace == old(trace) + run.events && states == run.states && files.files == run.files && r == run.result
    {
      r := CreateState(captureDate, flowId, env.createFailure);
      if r.Err? {
        return;
      }
      r := WriteStatus(flowId, Processing, None, env.statusFailure(Processing));
      if r.Err? {
        return;
      }
      ghost var head := [StateCreated(captureDate, flowId), StatusWritten(flowId, Processing, None)];
      assert trace == old(trace) + head;
      ghost var g := Guarded(flowId, captureDate, csvPath, usePersistedPayload, BatchSize(), states, files.files, env);
      r := GuardedAsync(flowId, captureDate, csvPath, usePersistedPayload, env);
      AppendAssoc(old(trace), head, g.events);
    }

    /** ExecuteAsync. */
    method ExecuteAsync(flowId: Guid, captureDate: DateOnly, allowSkipCompleted: bool, usePersistedPayload: bool, env: Env)
      returns (r: Result<(), Exn>)
      modifies this, files
      ensures var run := Execute(flowId, captureDate, allowSkipCompleted, usePersistedPayload, csvDirectory, BatchSize(),
                                 old(states), old(files.files), env);
        trace == old(trace) + run.events && states == run.states && files.files == run.files && r == run.result
    {
      var csvPath := BuildCsvPath(csvDirectory, flowId, captureDate);
      if allowSkipCompleted {
        var lastState := env.lastByCaptureDate(captureDate);
        if lastState.Err? {
          return Err(lastState.error);
        }
        if lastState.value.Some? && IsCompletedState(lastState.value.value) {
          return Ok(());
        }
      }
      r := StartedAsync(flowId, captureDate, csvPath, usePersistedPayload, env);
    }

    /** ProcessAsync: the context's flow and capture date (InvalidOperationException when
        the date is not set), skipping a completed capture date, fetching afresh. */
    method ProcessAsync(env: Env) returns (r: Result<(), Exn>)
      modifies this, files
      ensures context.captureDate.None? ==>
        r == Err(InvalidOperation) && trace == old(trace) && states == old(states) && files.files == old(files.files)
      ensures context.captureDate.Some? ==>
        var run := Execute(context.flowId, context.captureDate.value, true, false, csvDirectory, BatchSize(),
                           old(states), old(files.files), env);
        trace == old(trace) + run.events && states == run.states && files.files == run.files && r == run.result
    {
      var flowId := context.flowId;
      if context.captureDate.None? {
        return Err(InvalidOperation);
      }
      r := ExecuteAsync(flowId, context.captureDate.value, true, false, env);
    }

    /** ReprocessAsync: the flow and date resolved, written to the context, then the run
        without the skip check and reusing stored payloads. */
    method ReprocessAsync(captureDate: Option<DateOnly>, flowId: Option<Guid>, env: Env) returns (r: Result<(), Exn>)
      modifies this, files, context
      ensures var resolved := ResolveReprocess(captureDate, flowId, old(states), env.byFlowIdFailure,
                                               env.lastByCaptureDate, old(context.captureDate), env.newFlowId);
        && (resolved.Err? ==>
              && r == Err(resolved.error) && trace == old(trace) && states == old(states)
              && files.files == old(files.files)
              && context.flowId == old(context.flowId) && context.captureDate == old(context.captureDate))
        && (resolved.Ok? ==>
              var run := Execute(resolved.value.0, resolved.value.1, false, true, csvDirectory, BatchSize(),
                                 old(states), old(files.files), env);
              && context.flowId == resolved.value.0 && context.captureDate == Some(resolved.value.1)
              && trace == old(trace) + run.events && states == run.states && files.files == run.files
              && r == run.result)
    {
      if captureDate.None? && flowId.None? {
        return Err(Argument);
      }
      var state: Option<ProcessingState> := None;
      if flowId.Some? {
        if env.byFlowIdFailure.Some? {
          return Err(env.byFlowIdFailure.value);
        }
        state := GetByFlowId(states, flowId.value);
      }
      if state.None? && captureDate.Some? {
        var last := env.lastByCaptureDate(captureDate.value);
        if last.Err? {
          return Err(last.error);
        }
        state := last.value;
      }
      var resolvedFlowId := if flowId.Some? then flowId.value else if state.Some? then state.value.flowId else env.newFlowId;
      var resolvedCaptureDate :=
        if captureDate.Some? then captureDate
        else if state.Some? then Some(state.value.captureDate)
        else context.captureDate;
      if resolvedCaptureDate.None? {
        return Err(InvalidOperation);
      }
      context.flowId := resolvedFlowId;
      context.captureDate := resolvedCaptureDate;
      r := ExecuteAsync(resolvedFlowId, resolvedCaptureDate.value, false, true, env);
    }
  }

  // ---------------------------------------------------------------- properties

  /** The status a call writes, if it is a status write. */
  function StatusOf(e: Event): seq<ProcessingStatus> {
    if e.StatusWritten? then [e.status] else []
  }

  /** The status writes of a trace, in order. */
  function Statuses(events: seq<Event>): seq<ProcessingStatus>
    decreases |events|
  {
    if events == [] then [] else Statuses(events[..|events| - 1]) + StatusOf(events[|events| - 1])
  }

  /** Calls that do not touch the state store. */
  predicate StoreNeutral(events: seq<Event>) {
    forall e | e in events :: e.PriceInserted? || e.CsvUploaded? || e.PayloadsSent?
  }

  lemma StatusesSnoc(events: seq<Event>, e: Event)
    ensures Statuses(events + [e]) == Statuses(events) + StatusOf(e)
  {
    assert (events + [e])[..|events|] == events;
  }

  lemma {:induction false} StatusesConcat(a: seq<Event>, b: seq<Event>)
    ensures Statuses(a + b) == Statuses(a) + Statuses(b)
    decreases |b|
  {
    if b == [] {
      assert a + b == a;
    } else {
      var n := |b| - 1;
      assert a + b == (a + b[..n]) + [b[n]];
      assert b == b[..n] + [b[n]];
      StatusesConcat(a, b[..n]);
      StatusesSnoc(a + b[..n], b[n]);
      StatusesSnoc(b[..n], b[n]);
    }
  }

  /** Calls that do not touch the store write no status. */
  lemma {:induction false} NeutralStatuses(events: seq<Event>)
    requires StoreNeutral(events)
    ensures Statuses(events) == []
    decreases |events|
  {
    if events != [] {
      var n := |events| - 1;
      assert events[n] in events;
      assert StoreNeutral(events[..n]) by {
        forall e | e in events[..n] ensures e in events {
        }
      }
      NeutralStatuses(events[..n]);
    }
  }

  /** The status writes of three calls. */
  lemma ThreeStatuses(a: Event, b: Event, c: Event)
    ensures Statuses([a]) == StatusOf(a)
    ensures Statuses([a, b]) == StatusOf(a) + StatusOf(b)
    ensures Statuses([a, b, c]) == StatusOf(a) + StatusOf(b) + StatusOf(c)
  {
    StatusesSnoc([], a);
    assert [a] == [] + [a];
    StatusesSnoc([a], b);
    assert [a, b] == [a] + [b];
    StatusesSnoc([a, b], c);
    assert [a, b, c] == [a, b] + [c];
  }

  /** The inserts of a run and its upload do not touch the store. */
  lemma PersistAndUploadNeutral(flowId: Guid, captureDate: DateOnly, csvPath: string, source: PayloadSource,
                                payloads: seq<PricePayload>, batchSize: nat, files: map<string, seq<string>>, env: Env)
    requires batchSize >= 1
    ensures var p := PersistOutcome(flowId, source, payloads, batchSize, env);
      Statuses(p.events + UploadEvents(flowId, captureDate, csvPath, files, env.uploadFailure)) == []
  {
    var p := PersistOutcome(flowId, source, payloads, batchSize, env);
    if source == FreshFetch {
      InsertsShareFlowAndTime(flowId, env.captureTime, Chunks(payloads, batchSize), batchSize, ParseDataPrice, env.insertFailure);
    }
    NeutralStatuses(p.events + UploadEvents(flowId, captureDate, csvPath, files, env.uploadFailure));
  }

  /** The end of the try block writes no file. */
  lemma FinishKeepsFiles(flowId: Guid, payloads: seq<PricePayload>, states: StateStore, files: map<string, seq<string>>, env: Env)
    ensures Finish(flowId, payloads, states, files, env).files == files
  {
  }

  /** The end of the try block writes Persisted, then sends, then writes Sent; a failure
      leaves at most Persisted written. */
  lemma FinishShape(flowId: Guid, payloads: seq<PricePayload>, states: StateStore, files: map<string, seq<string>>, env: Env)
    ensures var f := Finish(flowId, payloads, states, files, env);
      && f.files == files
      && (f.result.Ok? ==>
            && f.events == [StatusWritten(flowId, Persisted, None), PayloadsSent(payloads), StatusWritten(flowId, Sent, None)]
            && Statuses(f.events) == [Persisted, Sent]
            && f.states == UpdateStatus(UpdateStatus(states, flowId, Persisted, None), flowId, Sent, None))
      && (f.result.Err? ==>
            || (Statuses(f.events) == [] && f.states == states)
            || (Statuses(f.events) == [Persisted] && f.states == UpdateStatus(states, flowId, Persisted, None)))
  {
    var a, b, c := StatusWritten(flowId, Persisted, None), PayloadsSent(payloads), StatusWritten(flowId, Sent, None);
    ThreeStatuses(a, b, c);
    if env.statusFailure(Persisted).Some? {
      assert Statuses([]) == [];
    } else if env.sendFailure.Some? {
      assert Statuses([a]) == [Persisted];
    } else if env.statusFailure(Sent).Some? {
      assert [a] + [b] == [a, b];
      assert Statuses([a, b]) == [Persisted];
    } else {
      assert [a] + [b] + [c] == [a, b, c];
      assert Statuses([a, b, c]) == [Persisted, Sent];
    }
  }

  /** The try block: a success wrote Persisted then Sent and leaves the flow Sent with no
      message; a failure wrote at most Persisted. No other state changes. */
  lemma TryBlockShape(flowId: Guid, captureDate: DateOnly, csvPath: string, usePersistedPayload: bool, batchSize: nat,
                      states: StateStore, files: map<string, seq<string>>, env: Env)
    requires batchSize >= 1
    ensures var t := TryBlock(flowId, captureDate, csvPath, usePersistedPayload, batchSize, states, files, env);
      && t.files == FilesAfterObtain(usePersistedPayload, files, csvPath, env)
      && TryShape(flowId, t, states)
  {
    var files1 := FilesAfterObtain(usePersistedPayload, files, csvPath, env);
    var o := ObtainPayloads(usePersistedPayload, files, csvPath, env);
    if o.Ok? {
      AfterObtainShape(flowId, captureDate, csvPath, o.value.0, o.value.1, batchSize, states, files1, env);
      assert TryBlock(flowId, captureDate, csvPath, usePersistedPayload, batchSize, states, files, env)
          == AfterObtain(flowId, captureDate, csvPath, o.value.0, o.value.1, batchSize, states, files1, env);
    } else {
      assert TryBlock(flowId, captureDate, csvPath, usePersistedPayload, batchSize, states, files, env)
          == Run([], states, files1, Err(o.error));
    }
  }

  /** The try block once the payloads are chosen: the inserts and the upload write no
      status, so the run has the shape of its end. */
  lemma AfterObtainShape(flowId: Guid, captureDate: DateOnly, csvPath: string, source: PayloadSource, payloads: seq<PricePayload>,
                         batchSize: nat, states: StateStore, files: map<string, seq<string>>, env: Env)
    requires batchSize >= 1
    ensures var a := AfterObtain(flowId, captureDate, csvPath, source, payloads, batchSize, states, files, env);
      a.files == files && TryShape(flowId, a, states)
  {
    var p := PersistOutcome(flowId, source, payloads, batchSize, env);
    var u := UploadEvents(flowId, captureDate, csvPath, files, env.uploadFailure);
    PersistAndUploadNeutral(flowId, captureDate, csvPath, source, payloads, batchSize, files, env);
    if p.failure.Some? {
      assert Statuses(p.events) == [] by {
        StatusesConcat(p.events, u);
      }
    } else {
      var f := Finish(flowId, payloads, states, files, env);
      FinishShape(flowId, payloads, states, files, env);
      StatusesConcat(p.events + u, f.events);
      assert Statuses(p.events + u + f.events) == Statuses(f.events);
    }
  }

  /** What the try block leaves, run on the given store: a success wrote Persisted then
      Sent and leaves the flow Sent with no message; a failure wrote at most Persisted. No
      other state changes. */
  predicate TryShape(flowId: Guid, t: Run, states: StateStore) {
    && (t.result.Ok? ==>
          && Statuses(t.events) == [Persisted, Sent]
          && t.states == UpdateStatus(UpdateStatus(states, flowId, Persisted, None), flowId, Sent, None))
    && (t.result.Err? ==>
          || (Statuses(t.events) == [] && t.states == states)
          || (Statuses(t.events) == [Persisted] && t.states == UpdateStatus(states, flowId, Persisted, None)))
  }

  /** The catch after a try block of that shape: a success is passed on; a failure, when
      the Failed write succeeds, ends with that write, carrying the text of the exception
      that is rethrown, after at most Persisted. No flow is added or removed, and the
      flow's own state is Sent and completed after a success, Failed with the exception's
      text and not completed after a recorded failure. */
  lemma CatchShape(flowId: Guid, t: Run, states: StateStore, env: Env)
    requires TryShape(flowId, t, states)
    ensures var g := Catch(flowId, t, env);
      && g.states.Keys == states.Keys
      && (g.result.Ok? ==>
            && Statuses(g.events) == [Persisted, Sent]
            && g.states == UpdateStatus(UpdateStatus(states, flowId, Persisted, None), flowId, Sent, None))
      && (g.result.Err? && env.statusFailure(Failed).None? ==>
            var message := Some(ExceptionText(g.result.error));
            && (Statuses(g.events) == [Failed] || Statuses(g.events) == [Persisted, Failed])
            && |g.events| > 0 && g.events[|g.events| - 1] == StatusWritten(flowId, Failed, message)
            && (|| g.states == UpdateStatus(states, flowId, Failed, message)
                || g.states == UpdateStatus(UpdateStatus(states, flowId, Persisted, None), flowId, Failed, message)))
      && (flowId in states ==>
            && (g.result.Ok? ==>
                  && g.states[flowId].status == Sent && g.states[flowId].errorMessage == None
                  && IsCompletedState(g.states[flowId]))
            && (g.result.Err? && env.statusFailure(Failed).None? ==>
                  && g.states[flowId].status == Failed
                  && g.states[flowId].errorMessage == Some(ExceptionText(g.result.error))
                  && !IsCompletedState(g.states[flowId])))
  {
    var persisted := UpdateStatus(states, flowId, Persisted, None);
    if t.result.Err? && env.statusFailure(Failed).None? {
      var message := Some(ExceptionText(t.result.error));
      var g := Catch(flowId, t, env);
      assert g.events == t.events + [StatusWritten(flowId, Failed, message)];
      assert g.states == UpdateStatus(t.states, flowId, Failed, message);
      StatusesSnoc(t.events, StatusWritten(flowId, Failed, message));
      if Statuses(t.events) == [] && t.states == states {
        assert Statuses(g.events) == [] + [Failed];
      } else {
        assert t.states == persisted;
        assert Statuses(g.events) == [Persisted] + [Failed];
        if flowId in states {
          assert flowId in persisted;
        }
      }
    } else if t.result.Ok? && flowId in states {
      assert flowId in persisted;
    }
  }

  /** The try block and its catch: CatchShape for the try block's run. */
  lemma GuardedShape(flowId: Guid, captureDate: DateOnly, csvPath: string, usePersistedPayload: bool, batchSize: nat,
                     states: StateStore, files: map<string, seq<string>>, env: Env)
    requires batchSize >= 1
    ensures var g := Guarded(flowId, captureDate, csvPath, usePersistedPayload, batchSize, states, files, env);
      && g.states.Keys == states.Keys
      && (g.result.Ok? ==>
            && Statuses(g.events) == [Persisted, Sent]
            && g.states == UpdateStatus(UpdateStatus(states, flowId, Persisted, None), flowId, Sent, None))
      && (g.result.Err? && env.statusFailure(Failed).None? ==>
            var message := Some(ExceptionText(g.result.error));
            && (Statuses(g.events) == [Failed] || Statuses(g.events) == [Persisted, Failed])
            && |g.events| > 0 && g.events[|g.events| - 1] == StatusWritten(flowId, Failed, message))
      && (flowId in states ==>
            && (g.result.Ok? ==> g.states[flowId].status == Sent && g.states[flowId].errorMessage == None
                                 && IsCompletedState(g.states[flowId]))
            && (g.result.Err? && env.statusFailure(Failed).None? ==>
                  && g.states[flowId].status == Failed
                  && g.states[flowId].errorMessage == Some(ExceptionText(g.result.error))
                  && !IsCompletedState(g.states[flowId])))
  {
    var t := TryBlock(flowId, captureDate, csvPath, usePersistedPayload, batchSize, states, files, env);
    TryBlockShape(flowId, captureDate, csvPath, usePersistedPayload, batchSize, states, files, env);
    CatchShape(flowId, t, states, env);
  }

  /** Once the state is created and Processing written, the run is the two calls followed
      by the try block and its catch. */
  lemma StartedGuarded(flowId: Guid, captureDate: DateOnly, csvPath: string, usePersistedPayload: bool, batchSize: nat,
                       states: StateStore, files: map<string, seq<string>>, env: Env)
    requires batchSize >= 1
    requires env.createFailure.None? && env.statusFailure(Processing).None?
    ensures var processing := UpdateStatus(CreateStateIfNotExists(states, captureDate, flowId), flowId, Processing, None);
      var g := Guarded(flowId, captureDate, csvPath, usePersistedPayload, batchSize, processing, files, env);
      && flowId in processing
      && Started(flowId, captureDate, csvPath, usePersistedPayload, batchSize, states, files, env)
         == Run([StateCreated(captureDate, flowId), StatusWritten(flowId, Processing, None)] + g.events, g.states, g.files, g.result)
  {
  }

  /** A successful run that was not skipped wrote Processing, Persisted and Sent, in that
      order, and leaves the flow Sent, completed, with no error message. */
  lemma StartedSuccess(flowId: Guid, captureDate: DateOnly, csvPath: string, usePersistedPayload: bool, batchSize: nat,
                       states: StateStore, files: map<string, seq<string>>, env: Env)
    requires batchSize >= 1
    requires env.createFailure.None? && env.statusFailure(Processing).None?
    ensures var run := Started(flowId, captureDate, csvPath, usePersistedPayload, batchSize, states, files, env);
      && flowId in run.states
      && (run.result.Ok? ==>
            && Statuses(run.events) == [Processing, Persisted, Sent]
            && run.states[flowId].status == Sent && run.states[flowId].errorMessage == None
            && IsCompletedState(run.states[flowId]))
  {
    var a, b := StateCreated(captureDate, flowId), StatusWritten(flowId, Processing, None);
    var processing := UpdateStatus(CreateStateIfNotExists(states, captureDate, flowId), flowId, Processing, None);
    var g := Guarded(flowId, captureDate, csvPath, usePersistedPayload, batchSize, processing, files, env);
    StartedGuarded(flowId, captureDate, csvPath, usePersistedPayload, batchSize, states, files, env);
    GuardedShape(flowId, captureDate, csvPath, usePersistedPayload, batchSize, processing, files, env);
    if g.result.Ok? {
      ProcessingPrefix(a, b, g.events, true, false);
    }
  }

  /** A failure of the try block of a run that was not skipped is written as Failed with
      the text of the exception that is rethrown, after Processing and at most Persisted,
      and leaves the flow not completed, so that ProcessAsync runs it again. */
  lemma StartedFailure(flowId: Guid, captureDate: DateOnly, csvPath: string, usePersistedPayload: bool, batchSize: nat,
                       states: StateStore, files: map<string, seq<string>>, env: Env)
    requires batchSize >= 1
    requires env.createFailure.None? && env.statusFailure(Processing).None? && env.statusFailure(Failed).None?
    ensures var run := Started(flowId, captureDate, csvPath, usePersistedPayload, batchSize, states, files, env);
      run.result.Err? ==>
        && (Statuses(run.events) == [Processing, Failed] || Statuses(run.events) == [Processing, Persisted, Failed])
        && run.events[|run.events| - 1] == StatusWritten(flowId, Failed, Some(ExceptionText(run.result.error)))
        && flowId in run.states
        && run.states[flowId].status == Failed
        && run.states[flowId].errorMessage == Some(ExceptionText(run.result.error))
        && !IsCompletedState(run.states[flowId])
  {
    var a, b := StateCreated(captureDate, flowId), StatusWritten(flowId, Processing, None);
    var processing := UpdateStatus(CreateStateIfNotExists(states, captureDate, flowId), flowId, Processing, None);
    var g := Guarded(flowId, captureDate, csvPath, usePersistedPayload, batchSize, processing, files, env);
    StartedGuarded(flowId, captureDate, csvPath, usePersistedPayload, batchSize, states, files, env);
    GuardedShape(flowId, captureDate, csvPath, usePersistedPayload, batchSize, processing, files, env);
    FailureAfterProcessing(flowId, a, b, Started(flowId, captureDate, csvPath, usePersistedPayload, batchSize, states, files, env), g);
  }

  /** StartedFailure for any try block whose failure was written as Failed. */
  lemma FailureAfterProcessing(flowId: Guid, a: Event, b: Event, run: Run, g: Run)
    requires StatusOf(a) == [] && StatusOf(b) == [Processing]
    requires run == Run([a, b] + g.events, g.states, g.files, g.result)
    requires g.result.Err? ==>
      && (Statuses(g.events) == [Failed] || Statuses(g.events) == [Persisted, Failed])
      && |g.events| > 0 && g.events[|g.events| - 1] == StatusWritten(flowId, Failed, Some(ExceptionText(g.result.error)))
      && flowId in g.states
      && g.states[flowId].status == Failed
      && g.states[flowId].errorMessage == Some(ExceptionText(g.result.error))
      && !IsCompletedState(g.states[flowId])
    ensures run.result.Err? ==>
      && (Statuses(run.events) == [Processing, Failed] || Statuses(run.events) == [Processing, Persisted, Failed])
      && run.events[|run.events| - 1] == StatusWritten(flowId, Failed, Some(ExceptionText(run.result.error)))
      && flowId in run.states
      && run.states[flowId].status == Failed
      && run.states[flowId].errorMessage == Some(ExceptionText(run.result.error))
      && !IsCompletedState(run.states[flowId])
  {
    if g.result.Err? {
      ProcessingPrefix(a, b, g.events, false, true);
    }
  }

  /** The status writes of the two opening calls followed by the try block's. */
  lemma ProcessingPrefix(a: Event, b: Event, events: seq<Event>, ok: bool, failedWritten: bool)
    requires StatusOf(a) == [] && StatusOf(b) == [Processing]
    requires ok ==> Statuses(events) == [Persisted, Sent]
    requires !ok && failedWritten ==> Statuses(events) == [Failed] || Statuses(events) == [Persisted, Failed]
    requires !ok && failedWritten ==> |events| > 0
    ensures ok ==> Statuses([a, b] + events) == [Processing, Persisted, Sent]
    ensures !ok && failedWritten ==>
      && (Statuses([a, b] + events) == [Processing, Failed] || Statuses([a, b] + events) == [Processing, Persisted, Failed])
      && ([a, b] + events)[|[a, b] + events| - 1] == events[|events| - 1]
  {
    ThreeStatuses(a, b, b);
    StatusesConcat([a, b], events);
    assert [Processing] + [Persisted, Sent] == [Processing, Persisted, Sent];
    assert [Processing] + [Failed] == [Processing, Failed];
    assert [Processing] + [Persisted, Failed] == [Processing, Persisted, Failed];
  }

  /** A run that is not skipped and passes the Processing write leaves the flow in the
      store: completed after a success, and not completed after a failure written as
      Failed, so that ProcessAsync runs it again. */
  lemma RunOutcome(flowId: Guid, captureDate: DateOnly, allowSkipCompleted: bool, usePersistedPayload: bool,
                   csvDirectory: string, batchSize: nat, states: StateStore, files: map<string, seq<string>>, env: Env)
    requires batchSize >= 1
    requires !Skips(allowSkipCompleted, captureDate, env) && !SkipCheckFails(allowSkipCompleted, captureDate, env)
    requires env.createFailure.None? && env.statusFailure(Processing).None?
    ensures var run := Execute(flowId, captureDate, allowSkipCompleted, usePersistedPayload, csvDirectory, batchSize, states, files, env);
      && flowId in run.states
      && (run.result.Ok? ==> IsCompletedState(run.states[flowId]))
      && (run.result.Err? && env.statusFailure(Failed).None? ==> !IsCompletedState(run.states[flowId]))
  {
    var csvPath := BuildCsvPath(csvDirectory, flowId, captureDate);
    StartedSuccess(flowId, captureDate, csvPath, usePersistedPayload, batchSize, states, files, env);
    if env.statusFailure(Failed).None? {
      StartedFailure(flowId, captureDate, csvPath, usePersistedPayload, batchSize, states, files, env);
    }
  }

  /** The payload choice, case by case: with usePersistedPayload an existing CSV file wins,
      then the stored payloads when the query answers some; the statistics client is
      called exactly when neither is there (or payloads are not reused), and only its
      payloads are fresh. */
  lemma PayloadPrecedence(usePersistedPayload: bool, files: map<string, seq<string>>, csvPath: string, env: Env)
    ensures var r := ObtainPayloads(usePersistedPayload, files, csvPath, env);
      && (usePersistedPayload && csvPath in files ==>
            && (r.Ok? <==> ReadCsvPayloads(files, csvPath).Ok?)
            && (r.Ok? ==> r.value == (CsvFile, ReadCsvPayloads(files, csvPath).value)))
      && (usePersistedPayload && csvPath !in files && env.stored.Err? ==> r == Err(env.stored.error))
      && (usePersistedPayload && csvPath !in files && env.stored.Ok? && |env.stored.value| > 0 ==>
            r == Ok((StoredRows, env.stored.value)))
      && (Fetches(usePersistedPayload, files, csvPath, env.stored) ==>
            && (r.Ok? <==> env.streamFailure.None?)
            && (r.Ok? ==> r.value == (FreshFetch, CreatePayloads(env.stream))))
      && ((r.Ok? && r.value.0 == FreshFetch) <==> Fetches(usePersistedPayload, files, csvPath, env.stored) && env.streamFailure.None?)
  {
  }

  /** The batches of a fresh fetch whose inserts all succeed insert every streamed
      observation once, in order, priced at its own date and stamped with the capture
      time. */
  lemma FreshInsertsEveryObservation(flowId: Guid, captureTime: DateTime, stream: seq<SeriesData>, batchSize: nat,
                                     insertFailure: nat -> Option<Exn>)
    requires batchSize >= 1
    requires forall i | 0 <= i < |stream| :: insertFailure(i).None?
    ensures var o := PersistRun(flowId, captureTime, Chunks(CreatePayloads(stream), batchSize), batchSize, ParseDataPrice, insertFailure);
      && o.failure.None? && |o.events| == |stream|
      && forall i | 0 <= i < |stream| ::
           o.events[i] == PriceInserted(flowId, captureTime, stream[i].date, CreatePayload(stream[i]))
  {
    var ps := CreatePayloads(stream);
    forall i | 0 <= i < |ps|
      ensures AttemptSucceeds(ps, i, ParseDataPrice, insertFailure)
    {
      CreatePayloadAt(stream, i);
    }
    PersistEveryPayloadOnce(flowId, captureTime, ps, batchSize, ParseDataPrice, insertFailure);
    var o := PersistRun(flowId, captureTime, Chunks(ps, batchSize), batchSize, ParseDataPrice, insertFailure);
    forall i | 0 <= i < |stream|
      ensures o.events[i] == PriceInserted(flowId, captureTime, stream[i].date, CreatePayload(stream[i]))
    {
      CreatePayloadAt(stream, i);
      assert InsertOf(o.events[i], flowId, captureTime, ps[i], ParseDataPrice);
    }
  }

  /** A run that fetches afresh, whose stream ends without raising and whose inserts all
      succeed: its calls begin with the insert of every streamed observation, in order,
      and the CSV file of the run holds the stream's lines. */
  lemma FreshRunInsertsEveryObservation(flowId: Guid, captureDate: DateOnly, csvPath: string, usePersistedPayload: bool,
                                        batchSize: nat, states: StateStore, files: map<string, seq<string>>, env: Env)
    requires batchSize >= 1
    requires Fetches(usePersistedPayload, files, csvPath, env.stored) && env.streamFailure.None?
    requires forall i | 0 <= i < |env.stream| :: env.insertFailure(i).None?
    ensures var t := TryBlock(flowId, captureDate, csvPath, usePersistedPayload, batchSize, states, files, env);
      && t.files == files[csvPath := CsvLines(env.stream)]
      && |t.events| >= |env.stream|
      && forall i | 0 <= i < |env.stream| ::
           t.events[i] == PriceInserted(flowId, env.captureTime, env.stream[i].date, CreatePayload(env.stream[i]))
  {
    PayloadPrecedence(usePersistedPayload, files, csvPath, env);
    TryBlockShape(flowId, captureDate, csvPath, usePersistedPayload, batchSize, states, files, env);
    FreshInsertsEveryObservation(flowId, env.captureTime, env.stream, batchSize, env.insertFailure);
    var files1 := FilesAfterObtain(usePersistedPayload, files, csvPath, env);
    var payloads := CreatePayloads(env.stream);
    var p := PersistOutcome(flowId, FreshFetch, payloads, batchSize, env);
    var rest := UploadEvents(flowId, captureDate, csvPath, files1, env.uploadFailure)
              + Finish(flowId, payloads, states, files1, env).events;
    assert TryBlock(flowId, captureDate, csvPath, usePersistedPayload, batchSize, states, files, env).events == p.events + rest by {
      AppendAssoc(p.events, UploadEvents(flowId, captureDate, csvPath, files1, env.uploadFailure),
                  Finish(flowId, payloads, states, files1, env).events);
    }
  }

  /** A run that reuses payloads (an existing CSV file or stored rows) inserts nothing and
      leaves the files as they were. */
  lemma ReusedPayloadsNotPersisted(flowId: Guid, captureDate: DateOnly, csvPath: string, usePersistedPayload: bool,
                                   batchSize: nat, states: StateStore, files: map<string, seq<string>>, env: Env)
    requires batchSize >= 1
    requires !Fetches(usePersistedPayload, files, csvPath, env.stored)
    ensures var t := TryBlock(flowId, captureDate, csvPath, usePersistedPayload, batchSize, states, files, env);
      t.files == files && forall e | e in t.events :: !e.PriceInserted?
  {
    var o := ObtainPayloads(usePersistedPayload, files, csvPath, env);
    assert o.Ok? ==> o.value.0 != FreshFetch by {
      PayloadPrecedence(usePersistedPayload, files, csvPath, env);
    }
    assert FilesAfterObtain(usePersistedPayload, files, csvPath, env) == files;
    if o.Ok? {
      assert TryBlock(flowId, captureDate, csvPath, usePersistedPayload, batchSize, states, files, env)
        == AfterObtain(flowId, captureDate, csvPath, o.value.0, o.value.1, batchSize, states, files, env);
      ReusedAfterObtain(flowId, captureDate, csvPath, o.value.0, o.value.1, batchSize, states, files, env);
    }
  }

  /** The rest of the try block, for payloads read back, inserts nothing and writes no
      file. */
  lemma ReusedAfterObtain(flowId: Guid, captureDate: DateOnly, csvPath: string, source: PayloadSource, payloads: seq<PricePayload>,
                          batchSize: nat, states: StateStore, files: map<string, seq<string>>, env: Env)
    requires batchSize >= 1 && source != FreshFetch
    ensures var a := AfterObtain(flowId, captureDate, csvPath, source, payloads, batchSize, states, files, env);
      a.files == files && forall e | e in a.events :: !e.PriceInserted?
  {
    var u := UploadEvents(flowId, captureDate, csvPath, files, env.uploadFailure);
    var f := Finish(flowId, payloads, states, files, env);
    assert PersistOutcome(flowId, source, payloads, batchSize, env) == NoEvents;
    FinishCalls(flowId, payloads, states, files, env);
    FinishKeepsFiles(flowId, payloads, states, files, env);
    assert AfterObtain(flowId, captureDate, csvPath, source, payloads, batchSize, states, files, env)
      == Run([] + u + f.events, f.states, f.files, f.result);
  }

  /** The end of the try block makes only status writes and the send. */
  lemma FinishCalls(flowId: Guid, payloads: seq<PricePayload>, states: StateStore, files: map<string, seq<string>>, env: Env)
    ensures forall e | e in Finish(flowId, payloads, states, files, env).events :: e.StatusWritten? || e.PayloadsSent?
  {
    FinishShape(flowId, payloads, states, files, env);
  }

  /** A failed upload is swallowed: whatever the upload does, the run's outcome, state
      store and files are those of the same run with a successful upload. */
  lemma UploadFailureSwallowed(flowId: Guid, captureDate: DateOnly, csvPath: string, usePersistedPayload: bool,
                               batchSize: nat, states: StateStore, files: map<string, seq<string>>, env: Env)
    requires batchSize >= 1
    ensures var t := TryBlock(flowId, captureDate, csvPath, usePersistedPayload, batchSize, states, files, env);
      var u := TryBlock(flowId, captureDate, csvPath, usePersistedPayload, batchSize, states, files, env.(uploadFailure := None));
      t.result == u.result && t.states == u.states && t.files == u.files
  {
    var succeeding := env.(uploadFailure := None);
    var files1 := FilesAfterObtain(usePersistedPayload, files, csvPath, env);
    assert FilesAfterObtain(usePersistedPayload, files, csvPath, succeeding) == files1;
    var o := ObtainPayloads(usePersistedPayload, files, csvPath, env);
    assert ObtainPayloads(usePersistedPayload, files, csvPath, succeeding) == o;
    if o.Ok? {
      AfterObtainIgnoresUpload(flowId, captureDate, csvPath, o.value.0, o.value.1, batchSize, states, files1, env);
      assert TryBlock(flowId, captureDate, csvPath, usePersistedPayload, batchSize, states, files, env)
          == AfterObtain(flowId, captureDate, csvPath, o.value.0, o.value.1, batchSize, states, files1, env);
      assert TryBlock(flowId, captureDate, csvPath, usePersistedPayload, batchSize, states, files, succeeding)
          == AfterObtain(flowId, captureDate, csvPath, o.value.0, o.value.1, batchSize, states, files1, succeeding);
    } else {
      assert TryBlock(flowId, captureDate, csvPath, usePersistedPayload, batchSize, states, files, env)
          == TryBlock(flowId, captureDate, csvPath, usePersistedPayload, batchSize, states, files, succeeding);
    }
  }

  lemma AfterObtainIgnoresUpload(flowId: Guid, captureDate: DateOnly, csvPath: string, source: PayloadSource, payloads: seq<PricePayload>,
                                 batchSize: nat, states: StateStore, files: map<string, seq<string>>, env: Env)
    requires batchSize >= 1
    ensures var a := AfterObtain(flowId, captureDate, csvPath, source, payloads, batchSize, states, files, env);
      var b := AfterObtain(flowId, captureDate, csvPath, source, payloads, batchSize, states, files, env.(uploadFailure := None));
      a.result == b.result && a.states == b.states && a.files == b.files
  {
    var succeeding := env.(uploadFailure := None);
    assert PersistOutcome(flowId, source, payloads, batchSize, succeeding) == PersistOutcome(flowId, source, payloads, batchSize, env);
    assert Finish(flowId, payloads, states, files, succeeding) == Finish(flowId, payloads, states, files, env);
  }

  /** The skip check of ExecuteAsync: a completed last state of the capture date ends
      the run with nothing called and nothing written, a raising query escapes with nothing
      written, and otherwise the run starts by creating the flow's state. Without
      allowSkipCompleted, as in ReprocessAsync, the query is never made. */
  lemma SkipRule(flowId: Guid, captureDate: DateOnly, allowSkipCompleted: bool, usePersistedPayload: bool,
                 csvDirectory: string, batchSize: nat, states: StateStore, files: map<string, seq<string>>, env: Env)
    requires batchSize >= 1
    ensures var run := Execute(flowId, captureDate, allowSkipCompleted, usePersistedPayload, csvDirectory, batchSize, states, files, env);
      && (Skips(allowSkipCompleted, captureDate, env) ==> run == Run([], states, files, Ok(())))
      && (SkipCheckFails(allowSkipCompleted, captureDate, env) ==>
            run == Run([], states, files, Err(env.lastByCaptureDate(captureDate).error)))
      && (!Skips(allowSkipCompleted, captureDate, env) && !SkipCheckFails(allowSkipCompleted, captureDate, env)
            && env.createFailure.None? ==>
            run.events != [] && run.events[0] == StateCreated(captureDate, flowId))
      && (!allowSkipCompleted ==>
            run == Started(flowId, captureDate, BuildCsvPath(csvDirectory, flowId, captureDate), usePersistedPayload,
                           batchSize, states, files, env))
  {
    var csvPath := BuildCsvPath(csvDirectory, flowId, captureDate);
    if !Skips(allowSkipCompleted, captureDate, env) && !SkipCheckFails(allowSkipCompleted, captureDate, env) {
      StartedCreates(flowId, captureDate, csvPath, usePersistedPayload, batchSize, states, files, env);
    }
  }

  lemma StartedCreates(flowId: Guid, captureDate: DateOnly, csvPath: string, usePersistedPayload: bool,
                       batchSize: nat, states: StateStore, files: map<string, seq<string>>, env: Env)
    requires batchSize >= 1
    ensures var run := Started(flowId, captureDate, csvPath, usePersistedPayload, batchSize, states, files, env);
      env.createFailure.None? ==> run.events != [] && run.events[0] == StateCreated(captureDate, flowId)
  {
  }

  /** A failure of the state creation or of the Processing write escapes before the try
      block: it is rethrown and Failed is never written. */
  lemma EarlyFailureNotRecorded(flowId: Guid, captureDate: DateOnly, csvPath: string, usePersistedPayload: bool,
                                batchSize: nat, states: StateStore, files: map<string, seq<string>>, env: Env)
    requires batchSize >= 1
    requires env.createFailure.Some? || env.statusFailure(Processing).Some?
    ensures var run := Started(flowId, captureDate, csvPath, usePersistedPayload, batchSize, states, files, env);
      && run.result == Err(if env.createFailure.Some? then env.createFailure.value else env.statusFailure(Processing).value)
      && Statuses(run.events) == [] && run.files == files
      && run.states == (if env.createFailure.Some? then states else CreateStateIfNotExists(states, captureDate, flowId))
  {
    ThreeStatuses(StateCreated(captureDate, flowId), StateCreated(captureDate, flowId), StateCreated(captureDate, flowId));
  }

  /** The CSV path names its flow and capture date: two paths that are equal, whatever
      their directories, belong to the same flow and date. */
  lemma BuildCsvPathInjective(dir1: string, dir2: string, flowId1: Guid, flowId2: Guid, date1: DateOnly, date2: DateOnly)
    requires BuildCsvPath(dir1, flowId1, date1) == BuildCsvPath(dir2, flowId2, date2)
    ensures flowId1 == flowId2 && date1 == date2
  {
    var p := BuildCsvPath(dir1, flowId1, date1);
    assert p[|p| - 45..] == FileOf(flowId1, date1);
    assert p[|p| - 45..] == FileOf(flowId2, date2);
    FileOfInjective(flowId1, flowId2, date1, date2);
  }

  /** The date directory and the file name determine the flow and the date. */
  lemma FileOfInjective(flowId1: Guid, flowId2: Guid, date1: DateOnly, date2: DateOnly)
    requires FileOf(flowId1, date1) == FileOf(flowId2, date2)
    ensures flowId1 == flowId2 && date1 == date2
  {
    FileOfParts(flowId1, date1);
    FileOfParts(flowId2, date2);
    SdmxClient.CompactDateRoundTrip(date1);
    SdmxClient.CompactDateRoundTrip(date2);
    FormatNInjective(flowId1, flowId2);
  }

  /** Where the date and the flow id sit in the file part of the path. */
  lemma FileOfParts(flowId: Guid, captureDate: DateOnly)
    ensures var f := FileOf(flowId, captureDate);
      f[..8] == FormatCompactDate(captureDate) && f[9..41] == FormatN(flowId)
  {
    FileParts(FormatCompactDate(captureDate), FormatN(flowId));
  }

  lemma FileParts(d: string, n: string)
    requires |d| == 8 && |n| == 32
    ensures var f := d + "/" + n + ".csv";
      f[..8] == d && f[9..41] == n
  {
    assert d + "/" + n + ".csv" == d + ("/" + n + ".csv");
    assert ("/" + n + ".csv")[1..33] == n;
  }
}
