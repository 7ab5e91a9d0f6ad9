# BanRep price capture — a Dafny model

This project models the core of the BanRep price-capture service. The service reads the Colombian
central bank's daily DTF rate series over SDMX and writes it to a CSV artifact. It persists one
price payload per observation, tracks each capture flow in a processing-state store and sends the
payloads downstream. It is driven by a RabbitMQ consumer that republishes failed messages and
dead-letters them after a retry limit. The model covers:

- **SDMX client** (`sdmx_client.dfy`, `series.dfy`, `calendar.dfy`, `decimals.dfy`):
  - the observation filter with its two date formats and the invariant decimal parse;
  - the stable ordering by date;
  - the ISO-week aggregation;
  - the DTF URL builder;
  - the order in which responses are classified.
- **CSV writer and reader** (`csv.dfy`):
  - the writer as a loop appending `yyyy-MM-dd,<value>` lines to a buffer;
  - the reader as a loop over lines that skips blanks and raises `FormatException` on bad lines;
  - the write-then-read round trip.
- **Retry engines** (`retry.dfy`, `s3_backoff.dfy`):
  - the policy table and `RetryPolicy.Create`;
  - the attempt loop of `ExecuteAsync` and the per-kind classifiers;
  - the S3 upload's exponential-backoff loop.
- **HTTP edges** (`http.dfy`, `outbound_client.dfy`, `notifications.dfy`, `s3_storage.dfy`):
  - transient-status classification;
  - the downstream send-id header search;
  - the notification URI and correlation-id overwrite;
  - the S3 configuration guard and object key.
- **Flow ids** (`flow_ids.dfy`): `FlowIdProvider` over an abstract GUID parse, and the 32-hex `N` format.
- **SQL** (`sql_queries.dfy`, `poc_price_repository.dfy`):
  - the `-- name:` query-file parser and its case-insensitive lookup;
  - the proof-of-concept repositories' identifier check, which includes .NET's `$`-before-trailing-newline quirk;
  - their conditional insert into a row set.
- **Capture workflow** (`payloads.dfy`, `processing_state.dfy`, `capture_persistence.dfy`, `capture_workflow.dfy`):
  - payload construction;
  - the processing-state store as a map keyed by flow id;
  - chunked persistence;
  - the `ProcessAsync`/`ReprocessAsync`/`ExecuteAsync` state machine. Each step is a method of
    `DailyCaptureWorkflow` proved against a function over an environment of collaborator outcomes.
- **Proof-of-concept workflows** (`poc_workflows.dfy`): map observations, insert them one by one, then send.
- **Redelivery consumer** (`rabbit_consumer.dfy`):
  - the retry-count headers, including the Int32 wrap-around of `next = current + 1`;
  - the copies republished for retry or dead-lettered;
  - the four notify-once flag sets;
  - the ack/nack/publish outcome of `HandleMessageAsync`. The `Consumer` class updates its flag sets in place.

Collaborators the code reaches through interfaces are modelled as outcomes supplied by the caller:
the clock, `Guid.NewGuid`, `File.Exists`, the SDMX client, the repositories, the S3 store, the
outbound sender and the notifier. Each of them either answers or raises.

## Model

| member | source | states |
|---|---|---|
| SdmxClient.ParseSdmxDate | BanRepPriceCapture.InfrastructureLayer/Infrastructure/Clients/BanRepSdmxClient.cs:180-198 | an eight-character text that int.TryParse accepts is read as yyyyMMdd and can only fail by raising (FormatException or ArgumentOutOfRangeException); any other text gives exactly the result of the exact yyyy-MM-dd parse |
| SdmxClient.CompactDate | BanRepPriceCapture.InfrastructureLayer/Infrastructure/Clients/BanRepSdmxClient.cs:184-190 | the yyyyMMdd branch always yields a date or raises one of those two exceptions; it never drops the observation |
| SdmxClient.CompactDigits | BanRepPriceCapture.InfrastructureLayer/Infrastructure/Clients/BanRepSdmxClient.cs:184-190 | eight ASCII digits give the date (year, month, day) they name, and ArgumentOutOfRangeException when they name no day |
| SdmxClient.ParseDigits | BanRepPriceCapture.InfrastructureLayer/Infrastructure/Clients/BanRepSdmxClient.cs:186-188 | int.Parse of one to eight ASCII digits is their value |
| SdmxClient.NonDayCompactDateRaises | BanRepPriceCapture.InfrastructureLayer/Infrastructure/Clients/BanRepSdmxClient.cs:184-190 | "20241332"-style digits naming no day raise ArgumentOutOfRangeException, and the Obs carrying them aborts the parse instead of being dropped |
| SdmxClient.CompactDateRoundTrip | BanRepPriceCapture.InfrastructureLayer/Infrastructure/Clients/BanRepSdmxClient.cs:184-190 | the yyyyMMdd text of every valid day is read back as that day |
| SdmxClient.IsoDateRoundTrip | BanRepPriceCapture.InfrastructureLayer/Infrastructure/Clients/BanRepSdmxClient.cs:193-194 | the yyyy-MM-dd text of every valid day is read back as that day |
| SdmxClient.DecimalInvariantRoundTrip | BanRepPriceCapture.InfrastructureLayer/Infrastructure/Clients/BanRepSdmxClient.cs:200-211 | the invariant text of every decimal is read back as the same decimal (mantissa and scale) |
| SdmxClient.GroupedValueRefused | BanRepPriceCapture.InfrastructureLayer/Infrastructure/Clients/BanRepSdmxClient.cs:206-210 | a value with a thousands separator ("1,000.5") is refused, so its Obs is dropped (an example) |
| SdmxClient.ParseObs | BanRepPriceCapture.InfrastructureLayer/Infrastructure/Clients/BanRepSdmxClient.cs:123-141 | an Obs with a missing or blank dimension or value is dropped; a kept record carries the parsed date and value; only the date parse can raise |
| SdmxClient.ParseAll | BanRepPriceCapture.InfrastructureLayer/Infrastructure/Clients/BanRepSdmxClient.cs:120-143 | the records kept are never more than the Obs elements; the only exceptions are those of the date parse |
| SdmxClient.ParseAllSpec | BanRepPriceCapture.InfrastructureLayer/Infrastructure/Clients/BanRepSdmxClient.cs:131-143 | the parse succeeds iff every Obs parses; on failure it raises the exception of the first Obs that raises; a record is in the output iff some Obs parses to it |
| SdmxClient.ParseSortedStable | BanRepPriceCapture.InfrastructureLayer/Infrastructure/Clients/BanRepSdmxClient.cs:142-145 | the output is sorted by date, is a permutation of the records kept, and keeps the document order of records of one date (the OrderBy is stable) |
| SdmxClient.BuildDtfUrlPeriods | BanRepPriceCapture.InfrastructureLayer/Infrastructure/Clients/BanRepSdmxClient.cs:150-170 | the URL is the flow path followed by startPeriod = reference year - 1 in four digits, endPeriod = reference year + 1 (four digits below year 9999), dimensionAtObservation=TIME_PERIOD and detail=full, joined by '&' |
| SdmxClient.DtfUrlShape | BanRepPriceCapture.InfrastructureLayer/Infrastructure/Clients/BanRepSdmxClient.cs:159-169 | for a reference year in 1..9999 the query string is exactly the four parameters with the zero-padded neighbouring years |
| SdmxClient.BuildDtfUrlUsesYearOnly | BanRepPriceCapture.InfrastructureLayer/Infrastructure/Clients/BanRepSdmxClient.cs:156-157 | only the year of the reference date matters, and end takes precedence over start and over today |
| SdmxClient.DailyAttempt | BanRepPriceCapture.InfrastructureLayer/Infrastructure/Clients/BanRepSdmxClient.cs:53-91 | a non-XML media type raises BanRepSdmxException before the status is looked at; an XML answer raises TransientFailureException iff its status is 408, 429, 500, 502, 503 or 504; an XML 404 gives the empty list; any other result is a success status whose document is parsed |
| SdmxClient.NonXmlAnswerIsFatal | BanRepPriceCapture.InfrastructureLayer/Infrastructure/Clients/BanRepSdmxClient.cs:55-60 | for every first answer whose media type is not XML, whatever its status (a 503 answered as text/html among them), the first attempt raises BanRepSdmxException, without retry or wait |
| SdmxClient.XmlServiceUnavailableRetried | BanRepPriceCapture.InfrastructureLayer/Infrastructure/Clients/BanRepSdmxClient.cs:68-77 | three XML 503 answers make three attempts with waits of 500 ms and 1000 ms and end in TransientFailureException (an example) |
| Series.SortByDateSorts | BanRepPriceCapture.InfrastructureLayer/Infrastructure/Clients/BanRepSdmxClient.cs:144 | OrderBy(x => x.Date) sorts by date, keeps every observation (same multiset), and keeps observations of one date in input order |
| Series.WeeklyPicksLatest | BanRepPriceCapture.InfrastructureLayer/Infrastructure/Clients/BanRepSdmxClient.cs:105-112 | the weekly series has at most one observation per ISO week, each one an input observation and the latest-dated one of its week |
| Series.WeeklyCoversEveryWeek | BanRepPriceCapture.InfrastructureLayer/Infrastructure/Clients/BanRepSdmxClient.cs:107-109 | every ISO week present in the daily series has an observation in the weekly series |
| Series.WeeklyStrictlyAscending | BanRepPriceCapture.InfrastructureLayer/Infrastructure/Clients/BanRepSdmxClient.cs:110 | the weekly series has strictly ascending dates |
| Series.WeeklyIdempotent | BanRepPriceCapture.InfrastructureLayer/Infrastructure/Clients/BanRepSdmxClient.cs:105-112 | aggregating the weekly series again returns it unchanged |
| Series.SameDaySameWeek | BanRepPriceCapture.InfrastructureLayer/Infrastructure/Clients/BanRepSdmxClient.cs:172-178 | observations of one day have one ISO week key |
| Series.WeeklyExample | BanRepPriceCapture.Tests/SdmxParsingTests.cs:26-43 | observations on 2024-12-30, 2024-12-31, 2025-01-02 and 2025-01-07 aggregate to those of 2025-01-02 and 2025-01-07, whatever their values (an example) |
| Csv.CsvLines | BanRepPriceCapture.InfrastructureLayer/Infrastructure/Csv/DtfDailyCsvWriter.cs:30-37 | one line per observation, so empty input gives an empty file |
| Csv.WriteCsv | BanRepPriceCapture.InfrastructureLayer/Infrastructure/Csv/DtfDailyCsvWriter.cs:21-37 | the file at the path is recreated and holds exactly the lines of the observations, in order; no other file changes |
| Csv.WriteLines | BanRepPriceCapture.InfrastructureLayer/Infrastructure/Csv/DtfDailyCsvWriter.cs:30-37 | the write loop leaves the file holding the formatted items in input order |
| Csv.FormatLineOneComma | BanRepPriceCapture.InfrastructureLayer/Infrastructure/Csv/DtfDailyCsvWriter.cs:32-35 | a written line has exactly one comma, right after the ten characters of the date, because the invariant value text has no group separator |
| Csv.ReadLine | BanRepPriceCapture.InfrastructureLayer/Infrastructure/Csv/DtfDailyCsvReader.cs:33-54 | a line is skipped iff it is blank; every refusal is FormatException; a non-blank line without a comma is refused |
| Csv.ReadIsoLine | BanRepPriceCapture.InfrastructureLayer/Infrastructure/Csv/DtfDailyCsvReader.cs:38-52 | a line of an exact yyyy-MM-dd date, a comma and a value text is read as that date and the value parsed with NumberStyles.Number, or refused with FormatException |
| Csv.ReadBackLine | BanRepPriceCapture.InfrastructureLayer/Infrastructure/Csv/DtfDailyCsvReader.cs:38-54 | a line whose two parts parse to an observation's date and value is read as that observation |
| Csv.ReadBackValue | BanRepPriceCapture.InfrastructureLayer/Infrastructure/Csv/DtfDailyCsvReader.cs:49-52 | the invariant text of every decimal is read back by NumberStyles.Number |
| Csv.ReadFormatLine | BanRepPriceCapture.InfrastructureLayer/Infrastructure/Csv/DtfDailyCsvReader.cs:38-54 | the line the writer writes for an observation is read back as that observation |
| Csv.GroupedValueRead | BanRepPriceCapture.InfrastructureLayer/Infrastructure/Csv/DtfDailyCsvReader.cs:38-52 | because only the first comma splits, "yyyy-MM-dd,1,000.5" is read with the value 1000.5 (an example) |
| Csv.ReadLines | BanRepPriceCapture.InfrastructureLayer/Infrastructure/Csv/DtfDailyCsvReader.cs:24-56 | never more records than lines |
| Csv.ReadRecords | BanRepPriceCapture.InfrastructureLayer/Infrastructure/Csv/DtfDailyCsvReader.cs:24-56 | the read loop yields exactly the records of the enumeration: blank lines skipped, the first refused line's exception raised |
| Csv.ReadCsv | BanRepPriceCapture.InfrastructureLayer/Infrastructure/Csv/DtfDailyCsvReader.cs:15-21 | a missing file raises FileNotFoundException; otherwise the result is the records of its lines |
| Csv.OneRecordPerLine | BanRepPriceCapture.InfrastructureLayer/Infrastructure/Csv/DtfDailyCsvReader.cs:24-56 | blank lines do not affect the result, and a successful read gives one record per non-blank line, in file order |
| Csv.LineWithoutCommaRefused | BanRepPriceCapture.InfrastructureLayer/Infrastructure/Csv/DtfDailyCsvReader.cs:38-42 | a non-blank line without a comma after well-formed lines makes the whole read raise FormatException |
| Csv.CsvRoundTrip | BanRepPriceCapture.TestLayer/CsvProcessingTests.cs:18-36 | reading the lines the writer writes gives back the observations, in order |
| Retry.CreatePolicy | BanRepPriceCapture.InfrastructureLayer/Infrastructure/Resilience/RetryPolicyProvider.cs:110-115 | a policy is built iff there is at least one attempt and one delay per retry; fewer than one attempt raises ArgumentOutOfRangeException, a wrong number of delays ArgumentException |
| Retry.PolicyFor | BanRepPriceCapture.InfrastructureLayer/Infrastructure/Resilience/RetryPolicyProvider.cs:13-21 | every entry of the table is built without an exception; RabbitMQ has five attempts, every other kind three |
| Retry.ClassificationTable | BanRepPriceCapture.InfrastructureLayer/Infrastructure/Resilience/RetryPolicyProvider.cs:77-106 | the HTTP kinds retry exactly TransientFailure, HttpRequest and Timeout; the database retries exactly TransientFailure, Npgsql, Timeout and Socket; RabbitMQ retries exactly TransientFailure, BrokerUnreachable and Socket, so not Timeout; nothing is retried once cancellation is requested |
| Retry.RunShape | BanRepPriceCapture.InfrastructureLayer/Infrastructure/Resilience/RetryPolicyProvider.cs:49-64 | a run stays within the policy's attempts, waits the table's delays in order, one per retry (so the delay index attempt - 1 is in range), returns only a value an attempt returned, and starts no attempt once cancellation is requested |
| Retry.ExecuteAsync | BanRepPriceCapture.InfrastructureLayer/Infrastructure/Resilience/RetryPolicyProvider.cs:40-65 | the attempt loop ends exactly as the specification run of the policy for its kind |
| Retry.ExecuteVoidAsync | BanRepPriceCapture.InfrastructureLayer/Infrastructure/Resilience/RetryPolicyProvider.cs:23-38 | the void overload delegates to the generic loop, and succeeds only after an attempt completed |
| Retry.RunBounds | BanRepPriceCapture.InfrastructureLayer/Infrastructure/Resilience/RetryPolicyProvider.cs:16-20 | the action runs at most MaxAttempts times; the waits are a prefix of the policy's delays, so their total is at most the sum of the table |
| Retry.NonRetryablePropagates | BanRepPriceCapture.InfrastructureLayer/Infrastructure/Resilience/RetryPolicyProvider.cs:56-58 | an exception the classifier rejects ends the run right after the attempt that raised it, with no delay after it and no further attempt |
| Retry.ExhaustionPropagates | BanRepPriceCapture.InfrastructureLayer/Infrastructure/Resilience/RetryPolicyProvider.cs:58-62 | when every attempt fails retryably, the action runs exactly MaxAttempts times, every delay is waited and the last exception propagates |
| Retry.SuccessReturnsValue | BanRepPriceCapture.InfrastructureLayer/Infrastructure/Resilience/RetryPolicyProvider.cs:56 | a successful run returns the value of its last attempt unchanged, and all earlier attempts failed |
| Retry.CancellationStopsRetrying | BanRepPriceCapture.InfrastructureLayer/Infrastructure/Resilience/RetryPolicyProvider.cs:51-82 | once cancellation is requested before the catch filter of attempt k, no attempt after k is made |
| Retry.UncancelledEndsWithLastAttempt | BanRepPriceCapture.InfrastructureLayer/Infrastructure/Resilience/RetryPolicyProvider.cs:49-64 | without cancellation the run ends with what its last attempt returned or raised |
| Retry.HttpExhaustion | BanRepPriceCapture.InfrastructureLayer/Infrastructure/Resilience/RetryPolicyProvider.cs:16-18 | an HTTP kind that keeps failing transiently makes three attempts, waits 500 ms and then 1000 ms, and raises the last failure (an example) |
| S3Backoff.MaxAttemptsOf | BanRepPriceCapture.InfrastructureLayer/Infrastructure/Aws/S3ArtifactStorageService.cs:14-51 | a missing MaxAttempts setting means three attempts |
| S3Backoff.BackoffOf | BanRepPriceCapture.InfrastructureLayer/Infrastructure/Aws/S3ArtifactStorageService.cs:15-52 | a missing BackoffSeconds setting means two seconds |
| S3Backoff.DelayFailure | BanRepPriceCapture.InfrastructureLayer/Infrastructure/Aws/S3ArtifactStorageService.cs:73-79 | for a finite delay in whole seconds: OverflowException when its ticks leave the 64-bit range, else ArgumentOutOfRangeException when it is negative or above Task.Delay's limit of 4294967294 ms, else OperationCanceledException when cancellation is requested; the wait goes ahead iff none of these holds |
| S3Backoff.AttemptDelayFailure | BanRepPriceCapture.InfrastructureLayer/Infrastructure/Aws/S3ArtifactStorageService.cs:73 | the delay after failed attempt k is backoff * 2^(k-1) seconds as DelayFailure judges it, except that a zero backoff from the 1025th attempt on gives 0 * Math.Pow(2, 1024) = NaN, which TimeSpan.FromSeconds refuses with ArgumentException |
| S3Backoff.UploadRunStep | BanRepPriceCapture.InfrastructureLayer/Infrastructure/Aws/S3ArtifactStorageService.cs:54-90 | one turn of the loop: a completed attempt returns, a failure of the last attempt or after cancellation is rethrown, any other failure waits backoff * 2^(attempt - 1) seconds and tries again, unless the wait itself raises |
| S3Backoff.ExecuteWithRetryAsync | BanRepPriceCapture.InfrastructureLayer/Infrastructure/Aws/S3ArtifactStorageService.cs:45-91 | the for loop ends exactly as the specification run over the settings (defaults applied) |
| S3Backoff.UploadRunShape | BanRepPriceCapture.InfrastructureLayer/Infrastructure/Aws/S3ArtifactStorageService.cs:54-90 | a run makes at most maxAttempts attempts, waits at most once per attempt, the i-th wait is backoff * 2^i seconds, a success follows only failed attempts and is the last attempt |
| S3Backoff.UploadBounds | BanRepPriceCapture.InfrastructureLayer/Infrastructure/Aws/S3ArtifactStorageService.cs:51-79 | the upload makes at most MaxAttempts attempts, returns right after the first success, and waits backoff, 2 * backoff, 4 * backoff, ... seconds between attempts |
| S3Backoff.DefaultBackoff | BanRepPriceCapture.InfrastructureLayer/Infrastructure/Aws/S3ArtifactStorageService.cs:14-73 | with the default settings an upload that keeps failing makes three attempts, waits 2 s and then 4 s, and raises the third failure (an example) |
| S3Backoff.NoAttemptsNoUpload | BanRepPriceCapture.InfrastructureLayer/Infrastructure/Aws/S3ArtifactStorageService.cs:54 | with MaxAttempts at most zero the loop body never runs: no attempt, no wait, normal return |
| S3Backoff.LastFailureRethrown | BanRepPriceCapture.InfrastructureLayer/Infrastructure/Aws/S3ArtifactStorageService.cs:71-89 | a failure of the last attempt, or after cancellation is requested, is rethrown without further wait |
| S3Backoff.NegativeBackoffRaises | BanRepPriceCapture.InfrastructureLayer/Infrastructure/Aws/S3ArtifactStorageService.cs:73-79 | a negative BackoffSeconds makes the first retry's Task.Delay raise ArgumentOutOfRangeException, so the upload is not retried |
| S3Backoff.ZeroBackoffNaNDelay | BanRepPriceCapture.InfrastructureLayer/Infrastructure/Aws/S3ArtifactStorageService.cs:54-79 | with a zero backoff, MaxAttempts above 1025 and uploads that keep failing, the run waits 0 s 1024 times and then stops at attempt 1025 with ArgumentException instead of reaching its last attempt |
| S3Storage.ObjectKey | BanRepPriceCapture.InfrastructureLayer/Infrastructure/Aws/S3ArtifactStorageService.cs:29 | the key is the environment followed by exactly 50 characters ("/dtf/", eight date digits, '/', 32 hex digits, ".csv") |
| S3Storage.ObjectKeyParts | BanRepPriceCapture.InfrastructureLayer/Infrastructure/Aws/S3ArtifactStorageService.cs:29 | the key is {environment}/dtf/{yyyyMMdd}/{flow id in 32 hex digits}.csv, part by part |
| S3Storage.ObjectKeyInjective | BanRepPriceCapture.InfrastructureLayer/Infrastructure/Aws/S3ArtifactStorageService.cs:29 | within one environment, two uploads share a key only when they have the same capture date and flow id |
| S3Storage.UploadDtfDailyCsvAsync | BanRepPriceCapture.InfrastructureLayer/Infrastructure/Aws/S3ArtifactStorageService.cs:17-43 | a blank bucket or environment uploads nothing and raises nothing; otherwise one request with the bucket, the key, the CSV path and text/csv is put with the retry loop |
| Http.CheckStatus | BanRepPriceCapture.InfrastructureLayer/Infrastructure/Clients/DtfDailyOutboundClient.cs:32-41 | the non-success branch succeeds iff the status is in 200-299; it raises TransientFailureException iff the status is 408, 429, 500, 502, 503 or 504, and HttpRequestException (from EnsureSuccessStatusCode) for every other failure |
| Http.TransientIsFailure | BanRepPriceCapture.InfrastructureLayer/Infrastructure/Clients/DtfDailyOutboundClient.cs:47-55 | no transient status is a success, and 404 is not transient |
| OutboundClient.FindHeader | BanRepPriceCapture.InfrastructureLayer/Infrastructure/Clients/DtfDailyOutboundClient.cs:73-79 | a header list has no value for a name iff no header has that name (compared case-insensitively); a found value belongs to a header of that name |
| OutboundClient.FirstUsable | BanRepPriceCapture.InfrastructureLayer/Infrastructure/Clients/DtfDailyOutboundClient.cs:75-82 | a value is usable iff the first value exists and is not blank, and it is that first value |
| OutboundClient.TryGetHeaderValue | BanRepPriceCapture.InfrastructureLayer/Infrastructure/Clients/DtfDailyOutboundClient.cs:71-87 | the response headers are consulted first; the content headers only when the response has no header of that name; without either there is no value |
| OutboundClient.ResponseHeaderShadowsContent | BanRepPriceCapture.InfrastructureLayer/Infrastructure/Clients/DtfDailyOutboundClient.cs:73-77 | a response header of the name with a blank value hides a content header of the same name, so that name gives no send id |
| OutboundClient.ResolveFirstMatch | BanRepPriceCapture.InfrastructureLayer/Infrastructure/Clients/DtfDailyOutboundClient.cs:57-69 | the send id is the GUID of the first header name, in list order, whose usable value Guid.TryParse accepts; when no name gives one it is a new GUID |
| OutboundClient.SendAttempt | BanRepPriceCapture.InfrastructureLayer/Infrastructure/Clients/DtfDailyOutboundClient.cs:30-43 | an answered attempt succeeds iff its status is a success, then with the resolved send id; otherwise it raises what the status check raises |
| OutboundClient.FirstAnswerSucceeds | BanRepPriceCapture.InfrastructureLayer/Infrastructure/Clients/DtfDailyOutboundClient.cs:26-44 | a successful first answer returns its send id after one attempt and no wait (an example) |
| OutboundClient.BadRequestRetried | BanRepPriceCapture.InfrastructureLayer/Infrastructure/Clients/DtfDailyOutboundClient.cs:40 | a 400 is not transient, yet EnsureSuccessStatusCode raises HttpRequestException, which the HTTP policy retries: three 400 answers make three attempts with waits of 500 ms and 1000 ms (an example) |
| Notifications.BuildNotifyUri | BanRepPriceCapture.InfrastructureLayer/Infrastructure/Notifications/HttpNotificationService.cs:101-110 | a blank base URL raises InvalidOperationException; otherwise the text is the base without the run of '/' that ends it, followed by "/notificar", and it is the endpoint iff the runtime's parser takes it as an absolute URI, else UriFormatException |
| Notifications.TrailingSlashesIgnored | BanRepPriceCapture.InfrastructureLayer/Infrastructure/Notifications/HttpNotificationService.cs:108-109 | whatever the URI parser, the outcome does not depend on how many '/' end a non-blank base URL |
| Notifications.RelativeBaseRaises | BanRepPriceCapture.InfrastructureLayer/Infrastructure/Notifications/HttpNotificationService.cs:108-109 | for every parser that accepts only texts with a scheme or implicit file paths, a base URL that starts with a letter or digit and has no ':', such as "notificacoes", raises UriFormatException |
| Notifications.NotificationPayload.Card | BanRepPriceCapture.InfrastructureLayer/Infrastructure/Notifications/HttpNotificationService.cs:88-99 | the card sent carries the payload's current CorrelationId, title and template |
| Notifications.NotifyAttempt | BanRepPriceCapture.InfrastructureLayer/Infrastructure/Notifications/HttpNotificationService.cs:55-73 | a transport exception propagates; an answered attempt succeeds iff the status is 2xx, returning that status; a failure raises what the status check raises (TransientFailureException or HttpRequestException) |
| Notifications.NotifyAsync | BanRepPriceCapture.InfrastructureLayer/Infrastructure/Notifications/HttpNotificationService.cs:45-86 | the payload's CorrelationId is overwritten with the flow id in the caller's object, its other properties are kept, and the stamped card is sent under the NotificationHttpPost policy with CancellationToken.None |
| Notifications.DeliverResult | BanRepPriceCapture.InfrastructureLayer/Infrastructure/Notifications/HttpNotificationService.cs:51-85 | a notification makes one to three attempts; a success returns the 2xx status an attempt was answered with; a failure rethrows exactly what the last attempt raised |
| Notifications.NotFoundRetried | BanRepPriceCapture.InfrastructureLayer/Infrastructure/Notifications/HttpNotificationService.cs:57-70 | a 404 is neither a success nor transient, yet it is retried: three 404 answers make three attempts with waits of 500 ms and 1000 ms and end in HttpRequestException (an example) |
| FlowIds.TryParseFlowId | BanRepPriceCapture.ApplicationLayer/Flow/FlowIdProvider.cs:9-17 | null or white-space text is no GUID; any other text is what Guid.TryParse makes of it |
| FlowIds.CreateFlowId | BanRepPriceCapture.ApplicationLayer/Flow/FlowIdProvider.cs:5-7 | both providers give Guid.Empty for null, blank or unparseable text, and exactly the parsed GUID otherwise |
| FlowIds.NeverMints | BanRepPriceCapture.ApplicationLayer/Flow/FlowIdProvider.cs:5-16 | the provider never mints an id: the result is Guid.Empty or the parse of the given text |
| FlowIds.FormatN | BanRepPriceCapture.InfrastructureLayer/Infrastructure/Aws/S3ArtifactStorageService.cs:29 | the "N" form of a GUID is 32 hexadecimal digits |
| FlowIds.FormatNRoundTrip | BanRepPriceCapture.InfrastructureLayer/Infrastructure/Aws/S3ArtifactStorageService.cs:29 | the "N" digits spell the GUID's 128-bit number |
| FlowIds.FormatNInjective | BanRepPriceCapture.InfrastructureLayer/Infrastructure/Aws/S3ArtifactStorageService.cs:29 | distinct GUIDs have distinct "N" texts |
| FlowIds.FormatDShape | BanRepPriceCapture.InfrastructureLayer/Infrastructure/Messaging/DtfDailyRabbitConsumer.cs:279-281 | the "D" form is 36 characters with hyphens at 8, 13, 18 and 23, and without them it is the "N" form |
| SqlQueries.Sections | BanRepPriceCapture.InfrastructureLayer/Infrastructure/Database/SqlQueries.cs:46 | splitting on "-- name:" with empty entries removed leaves only non-empty sections |
| SqlQueries.SectionQuery | BanRepPriceCapture.InfrastructureLayer/Infrastructure/Database/SqlQueries.cs:50-68 | a section that gives a query gives a non-blank name and SQL that is non-empty with no white space at either end |
| SqlQueries.ParseQueries | BanRepPriceCapture.InfrastructureLayer/Infrastructure/Database/SqlQueries.cs:43-74 | the foreach leaves the dictionary holding exactly the queries of the sections, stored in order under their names as the comparer's upper-case mapping folds them |
| SqlQueries.GetQuery | BanRepPriceCapture.InfrastructureLayer/Infrastructure/Database/SqlQueries.cs:18-26 | an unknown name, under the comparer's folding, raises InvalidOperationException; a known one returns its SQL |
| SqlQueries.LastSectionWins | BanRepPriceCapture.InfrastructureLayer/Infrastructure/Database/SqlQueries.cs:48-71 | a name is found iff some section defines it (ignoring case), and it is found with the SQL of the last section that does: a later section overwrites an earlier one |
| SqlQueries.SectionSplitsAtFirstNewline | BanRepPriceCapture.InfrastructureLayer/Infrastructure/Database/SqlQueries.cs:56-68 | a section gives a query iff the trimmed texts before and after its first '\n' are both not blank, and the query is those two trimmed texts |
| SqlQueries.SectionWithoutNewline | BanRepPriceCapture.InfrastructureLayer/Infrastructure/Database/SqlQueries.cs:56-60 | a section without '\n' gives no query |
| SqlQueries.StoredSqlIsTrimmed | BanRepPriceCapture.InfrastructureLayer/Infrastructure/Database/SqlQueries.cs:62-70 | whatever the content, every stored SQL text is non-empty and has no white space at either end |
| SqlQueries.PreambleBecomesQuery | BanRepPriceCapture.InfrastructureLayer/Infrastructure/Database/SqlQueries.cs:46-70 | the text before the first marker is parsed like any section, so a preamble whose first line is a name and whose remainder is SQL becomes a query of that name |
| SqlQueries.LookupIgnoresCase | BanRepPriceCapture.InfrastructureLayer/Infrastructure/Database/SqlQueries.cs:45 | for any upper-case mapping that upper-cases ASCII letters and is idempotent, as char.ToUpperInvariant is: a name finds the same query as its upper-cased form, as its ASCII upper-cased form, and as every name that differs from it only in characters the mapping folds together, non-ASCII pairs such as 'é' and 'É' included |
| PocPriceRepository.BuildInsertSql | BanRepPriceCapture.DtfWeeklyPoc/Infrastructure/Repositories/DtfDailyPriceRepository.cs:43-65 | a null, blank or non-identifier table name raises ArgumentException; any name the pattern accepts gives the statement for that name |
| PocPriceRepository.BlankNeverMatches | BanRepPriceCapture.DtfWeeklyPoc/Infrastructure/Repositories/DtfDailyPriceRepository.cs:45-53 | a blank name is never an identifier, so the blank check only chooses the exception message |
| PocPriceRepository.TrailingLineFeedAccepted | BanRepPriceCapture.DtfWeeklyPoc/Infrastructure/Repositories/DtfDailyPriceRepository.cs:15-50 | .NET's '$' also matches before a final line feed: for every identifier, the identifier followed by one line feed passes validation and is quoted with its line feed, while two line feeds are refused with ArgumentException |
| PocPriceRepository.Quoted | BanRepPriceCapture.DtfWeeklyPoc/Infrastructure/Repositories/DtfDailyPriceRepository.cs:56-60 | the quoted name is the name plus the two double quotes |
| PocPriceRepository.StatementQuotesTable | BanRepPriceCapture.DtfWeeklyPoc/Infrastructure/Repositories/DtfDailyPriceRepository.cs:55-64 | the statement names the table twice in double quotes: as the insert target and in the not-exists subquery's from clause |
| PocPriceRepository.StatementInjective | BanRepPriceCapture.DtfWeeklyPoc/Infrastructure/Repositories/DtfDailyPriceRepository.cs:55-64 | different table names give different statements |
| PocPriceRepository.InsertIfAbsent | BanRepPriceCapture.DtfWeeklyPoc/Infrastructure/Repositories/DtfDailyPriceRepository.cs:56-63 | the insert only ever adds the given row; the key (flow_id, data_price) has a row afterwards; the table is unchanged iff the key already had a row |
| PocPriceRepository.PriceRepository.InsertAsync | BanRepPriceCapture.DtfWeeklyPoc/Infrastructure/Repositories/DtfDailyPriceRepository.cs:20-41 | the table after the call is the conditional insert of the row built from the given flow id, capture time, price date and payload |
| PocPriceRepository.CreateRepository | BanRepPriceCapture.DtfWeeklyPoc/Infrastructure/Repositories/DtfDailyPriceRepository.cs:17 | construction fails with ArgumentException exactly when the name is refused, because the statement is built in a field initializer; otherwise the repository holds the statement of that name |
| PocPriceRepository.InsertIdempotent | BanRepPriceCapture.DtfWeeklyPoc/Infrastructure/Repositories/DtfDailyPriceRepository.cs:57-63 | inserting a second row with the same (flow id, price date), whatever its capture time and payload, changes nothing |
| PocPriceRepository.InsertOtherKeysUnchanged | BanRepPriceCapture.DtfWeeklyPoc/Infrastructure/Repositories/DtfDailyPriceRepository.cs:57-63 | rows of other keys are neither added nor removed |
| PocPriceRepository.InsertKeepsKeysUnique | BanRepPriceCapture.DtfWeeklyPoc/Infrastructure/Repositories/DtfDailyPriceRepository.cs:57-63 | the insert keeps at most one row per key |
| PocPriceRepository.MidnightInjective | BanRepPriceCapture.DtfWeeklyPoc/Services/DtfDailyPriceRepository.cs:38 | the price date is bound as midnight of that day, so two dates bind the same value only when they are the same day |
| Payloads.ParseDataPrice | BanRepPriceCapture.ApplicationLayer/Application/Workflows/DtfDailyCaptureWorkflow.cs:298 | DateOnly.ParseExact(Data, "yyyy-MM-dd") fails with FormatException exactly when the text is not a yyyy-MM-dd date, and a date it returns prints back as the same text |
| Payloads.CreatePayload | BanRepPriceCapture.ApplicationLayer/Application/Workflows/DtfDailyCaptureWorkflow.cs:238-250 | the payload carries asset 123456, venue "RBLG", feeder 8, field 7, factor 1.0, no forecast, no rebook and the observation's value; its Data text parses back, at the batch step, to the observation's date |
| Payloads.CreatePayloadInjective | BanRepPriceCapture.ApplicationLayer/Application/Workflows/DtfDailyCaptureWorkflow.cs:238-250 | two observations with the same payload have the same date and value: nothing of the observation is lost |
| Payloads.CreatePayloadAt | BanRepPriceCapture.ApplicationLayer/Application/Workflows/DtfDailyCaptureWorkflow.cs:231-260 | payload i of the list is the payload of observation i, and there is one per observation |
| ProcessingStates.CreateStateIfNotExists | BanRepPriceCapture.InfrastructureLayer/Infrastructure/Repositories/ProcessingStateRepository.cs:22-41 | a flow without a state gets one for the capture date with status Received and no error; every existing state, including the flow's own, is left as it was |
| ProcessingStates.UpdateStatus | BanRepPriceCapture.InfrastructureLayer/Infrastructure/Repositories/ProcessingStateRepository.cs:43-65 | the flow's status and error message are overwritten and its capture date and downstream send id kept; other flows are untouched; a flow without a state is not created |
| ProcessingStates.GetByFlowId | BanRepPriceCapture.InfrastructureLayer/Infrastructure/Repositories/ProcessingStateRepository.cs:122-133 | a state is found exactly when the flow has one, and it is that state |
| ProcessingStates.WritesKeepWellKeyed | BanRepPriceCapture.InfrastructureLayer/Infrastructure/Repositories/ProcessingStateRepository.cs:31-61 | both writes keep every state filed under its own flow id |
| ProcessingStates.CompletedStatuses | BanRepPriceCapture.ApplicationLayer/Application/Workflows/DtfDailyCaptureWorkflow.cs:317-321 | Sent is completed; Persisted is completed iff a downstream send id is recorded; Received, Processing and Failed never are |
| ProcessingStates.StatusWriteCompletes | BanRepPriceCapture.ApplicationLayer/Application/Workflows/DtfDailyCaptureWorkflow.cs:317-321 | after writing Sent the flow counts as completed; after writing Received, Processing or Failed it does not; after Persisted it does iff a downstream send id was recorded |
| ProcessingStates.CreateIdempotent | BanRepPriceCapture.InfrastructureLayer/Infrastructure/Repositories/ProcessingStateRepository.cs:22-41 | creating a state twice for one flow leaves the store as the first creation did, whatever the second capture date |
| CapturePersistence.AtLeastOne | BanRepPriceCapture.ApplicationLayer/Application/Workflows/DtfDailyCaptureWorkflow.cs:271-272 | Math.Max(1, setting) is at least 1 and at least the setting, and is one of the two |
| CapturePersistence.ChunksFlatten | BanRepPriceCapture.ApplicationLayer/Application/Workflows/DtfDailyCaptureWorkflow.cs:277-282 | the batches Skip(index).Take(batchSize) cuts, taken in order, concatenate back to the payload list |
| CapturePersistence.ChunkSizes | BanRepPriceCapture.ApplicationLayer/Application/Workflows/DtfDailyCaptureWorkflow.cs:277-279 | every batch holds between 1 and batchSize payloads, and every batch but the last exactly batchSize |
| CapturePersistence.ChunkAt | BanRepPriceCapture.ApplicationLayer/Application/Workflows/DtfDailyCaptureWorkflow.cs:277-279 | there is a batch k exactly when k * batchSize is inside the list, and it is the slice Skip(k * batchSize).Take(batchSize) |
| CapturePersistence.ChunkCountCovers | BanRepPriceCapture.ApplicationLayer/Application/Workflows/DtfDailyCaptureWorkflow.cs:277 | the loop's last index is inside the list and the index after it is past the end |
| CapturePersistence.BatchRunStops | BanRepPriceCapture.ApplicationLayer/Application/Workflows/DtfDailyCaptureWorkflow.cs:294-301 | once a payload of a batch fails to parse or insert, the rest of that batch is skipped |
| CapturePersistence.BatchAllSucceed | BanRepPriceCapture.ApplicationLayer/Application/Workflows/DtfDailyCaptureWorkflow.cs:296-300 | a batch whose parses and inserts all succeed inserts each of its payloads once, in order, with the parsed date and the one capture time |
| CapturePersistence.PersistAllSucceed | BanRepPriceCapture.ApplicationLayer/Application/Workflows/DtfDailyCaptureWorkflow.cs:277-284 | the first k batches, all succeeding, insert the first k * batchSize payloads in order and raise nothing |
| CapturePersistence.PersistEveryPayloadOnce | BanRepPriceCapture.ApplicationLayer/Application/Workflows/DtfDailyCaptureWorkflow.cs:265-285 | when every parse and insert succeeds, PersistPayloadsAsync inserts every payload exactly once, in list order, each with its parsed date and the one capture time, and raises nothing |
| CapturePersistence.FirstBatchFailureWins | BanRepPriceCapture.ApplicationLayer/Application/Workflows/DtfDailyCaptureWorkflow.cs:281-284 | the persistence step fails exactly when some batch fails, and then with the exception of the first batch in order that failed |
| CapturePersistence.InsertsShareFlowAndTime | BanRepPriceCapture.ApplicationLayer/Application/Workflows/DtfDailyCaptureWorkflow.cs:270-299 | whatever fails, every insert made carries the flow id and the single capture time, and inserts a payload of the list |
| CapturePersistence.BatchInsertsShare | BanRepPriceCapture.ApplicationLayer/Application/Workflows/DtfDailyCaptureWorkflow.cs:296-300 | every insert a batch makes carries the flow id and the capture time, and inserts a payload of that batch |
| CaptureWorkflow.PathPrefix | BanRepPriceCapture.ApplicationLayer/Application/Workflows/DtfDailyCaptureWorkflow.cs:311-314 | Path.Combine adds nothing for an empty directory, keeps a directory that ends in '/', and otherwise appends one '/' |
| CaptureWorkflow.FileOf | BanRepPriceCapture.ApplicationLayer/Application/Workflows/DtfDailyCaptureWorkflow.cs:310-314 | the date directory yyyyMMdd, '/', the flow id as 32 hex digits and ".csv": 45 characters |
| CaptureWorkflow.BuildCsvPathInjective | BanRepPriceCapture.ApplicationLayer/Application/Workflows/DtfDailyCaptureWorkflow.cs:308-315 | two runs share a CSV path only when they have the same flow id and capture date, whatever their directories |
| CaptureWorkflow.FileOfInjective | BanRepPriceCapture.ApplicationLayer/Application/Workflows/DtfDailyCaptureWorkflow.cs:310-314 | the date directory and the file name alone determine the flow id and the capture date |
| CaptureWorkflow.FileOfParts | BanRepPriceCapture.ApplicationLayer/Application/Workflows/DtfDailyCaptureWorkflow.cs:310-314 | characters 0-7 of the file part are the capture date as yyyyMMdd and characters 9-40 the flow id as N |
| CaptureWorkflow.ResolveReprocess | BanRepPriceCapture.ApplicationLayer/Application/Workflows/DtfDailyCaptureWorkflow.cs:40-62 | ArgumentException when neither date nor flow is given; an exception of GetByFlowId or GetLastStatusByCaptureDate escapes; when the queries answer, ArgumentException and InvalidOperationException exactly in the source's cases (InvalidOperationException when only an unknown flow is given and the context has no date); a given flow id and date are kept; with a date alone, the flow of the date's last state or a new flow; with a known flow alone, its own capture date |
| CaptureWorkflow.CollectPayloads | BanRepPriceCapture.ApplicationLayer/Application/Workflows/DtfDailyCaptureWorkflow.cs:226-263 | the loop adds one payload per observation, in order: the list is CreatePayloads of the observations |
| CaptureWorkflow.FlowContext.constructor | BanRepPriceCapture.ApplicationLayer/Application/Workflows/DtfDailyCaptureWorkflow.cs:25-65 | the context holds the flow id and the capture date it is given |
| CaptureWorkflow.DailyCaptureWorkflow.constructor | BanRepPriceCapture.ApplicationLayer/Application/Workflows/DtfDailyCaptureWorkflow.cs:10-21 | the settings, the file store, the context and the state store are the ones given, and no call has been made |
| CaptureWorkflow.DailyCaptureWorkflow.BatchSize | BanRepPriceCapture.ApplicationLayer/Application/Workflows/DtfDailyCaptureWorkflow.cs:271 | the batch size is at least 1 |
| CaptureWorkflow.DailyCaptureWorkflow.CreateState | BanRepPriceCapture.ApplicationLayer/Application/Workflows/DtfDailyCaptureWorkflow.cs:96 | a failing call raises and changes nothing; otherwise the store is CreateStateIfNotExists of the old store and the call is recorded |
| CaptureWorkflow.DailyCaptureWorkflow.WriteStatus | BanRepPriceCapture.ApplicationLayer/Application/Workflows/DtfDailyCaptureWorkflow.cs:97-169 | a failing call raises and changes nothing; otherwise the store is UpdateStatus of the old store and the write is recorded |
| CaptureWorkflow.DailyCaptureWorkflow.SendAsync | BanRepPriceCapture.ApplicationLayer/Application/Workflows/DtfDailyCaptureWorkflow.cs:159 | a failing send raises and records nothing; otherwise the send of exactly these payloads is recorded; the store is untouched |
| CaptureWorkflow.DailyCaptureWorkflow.FetchFromClientAsync | BanRepPriceCapture.ApplicationLayer/Application/Workflows/DtfDailyCaptureWorkflow.cs:174-195 | the CSV file at the path holds the lines of every streamed observation, even when the stream then raises; the result is the streamed payloads or the stream's exception |
| CaptureWorkflow.DailyCaptureWorkflow.ReadPayloadsFromCsvAsync | BanRepPriceCapture.ApplicationLayer/Application/Workflows/DtfDailyCaptureWorkflow.cs:252-263 | the payloads of the observations the reader reads from the file, or the reader's exception (FileNotFoundException for a missing file) |
| CaptureWorkflow.DailyCaptureWorkflow.ProcessBatchAsync | BanRepPriceCapture.ApplicationLayer/Application/Workflows/DtfDailyCaptureWorkflow.cs:287-306 | the calls made and the exception are those of BatchRun: parse and insert each entry, stopping at the first exception; the store is untouched |
| CaptureWorkflow.DailyCaptureWorkflow.PersistPayloadsAsync | BanRepPriceCapture.ApplicationLayer/Application/Workflows/DtfDailyCaptureWorkflow.cs:265-285 | the calls made and the exception are those of PersistRun over the batches of BatchSize(): every batch runs and the first failure in batch order is raised |
| CaptureWorkflow.DailyCaptureWorkflow.TryUploadCsvAsync | BanRepPriceCapture.ApplicationLayer/Application/Workflows/DtfDailyCaptureWorkflow.cs:197-224 | no upload without the file; a failed upload is swallowed; only a successful upload is recorded |
| CaptureWorkflow.DailyCaptureWorkflow.ObtainPayloadsAsync | BanRepPriceCapture.ApplicationLayer/Application/Workflows/DtfDailyCaptureWorkflow.cs:101-128 | the payload source, payloads and files are those of ObtainPayloads and FilesAfterObtain |
| CaptureWorkflow.DailyCaptureWorkflow.FinishAsync | BanRepPriceCapture.ApplicationLayer/Application/Workflows/DtfDailyCaptureWorkflow.cs:157-161 | Persisted, the send and Sent in order, each of which may raise and end the block |
| CaptureWorkflow.DailyCaptureWorkflow.AfterObtainAsync | BanRepPriceCapture.ApplicationLayer/Application/Workflows/DtfDailyCaptureWorkflow.cs:138-161 | fetched payloads are persisted, and a failed insert ends the block; then the upload and the end of the block |
| CaptureWorkflow.DailyCaptureWorkflow.TryBlockAsync | BanRepPriceCapture.ApplicationLayer/Application/Workflows/DtfDailyCaptureWorkflow.cs:99-166 | the calls, store, files and outcome are those of TryBlock |
| CaptureWorkflow.DailyCaptureWorkflow.GuardedAsync | BanRepPriceCapture.ApplicationLayer/Application/Workflows/DtfDailyCaptureWorkflow.cs:99-171 | a failure of the try block is written as Failed with the exception's text and rethrown; if that write raises, its exception escapes |
| CaptureWorkflow.DailyCaptureWorkflow.StartedAsync | BanRepPriceCapture.ApplicationLayer/Application/Workflows/DtfDailyCaptureWorkflow.cs:96-171 | the state is created and Processing written before the guarded block; a failure of either escapes unrecorded |
| CaptureWorkflow.DailyCaptureWorkflow.ExecuteAsync | BanRepPriceCapture.ApplicationLayer/Application/Workflows/DtfDailyCaptureWorkflow.cs:75-172 | the store, files and calls of the run are those of Execute: with allowSkipCompleted, a raising GetLastStatusByCaptureDate escapes and a completed last state is skipped, both with no call; otherwise the run is Started on BuildCsvPath |
| CaptureWorkflow.DailyCaptureWorkflow.ProcessAsync | BanRepPriceCapture.ApplicationLayer/Application/Workflows/DtfDailyCaptureWorkflow.cs:23-38 | InvalidOperationException with no change when the context has no capture date; otherwise ExecuteAsync of the context's flow and date, with the skip check (whose query may raise) and a fresh fetch |
| CaptureWorkflow.DailyCaptureWorkflow.ReprocessAsync | BanRepPriceCapture.ApplicationLayer/Application/Workflows/DtfDailyCaptureWorkflow.cs:40-73 | a failed resolution, including a raising state query, raises and changes nothing, the context included; otherwise the resolved flow and date are written to the context and run without the skip check, reusing persisted payloads |
| CaptureWorkflow.SkipRule | BanRepPriceCapture.ApplicationLayer/Application/Workflows/DtfDailyCaptureWorkflow.cs:83-97 | a completed last state of the capture date ends the run with no call and nothing written; a raising query escapes with nothing written; otherwise the first call creates the flow's state; without allowSkipCompleted the query is never made |
| CaptureWorkflow.StatusesConcat | BanRepPriceCapture.ApplicationLayer/Application/Workflows/DtfDailyCaptureWorkflow.cs:97-169 | the status writes of two consecutive call sequences are those of the first followed by those of the second |
| CaptureWorkflow.NeutralStatuses | BanRepPriceCapture.ApplicationLayer/Application/Workflows/DtfDailyCaptureWorkflow.cs:140-159 | inserts, uploads and sends write no status |
| CaptureWorkflow.PersistAndUploadNeutral | BanRepPriceCapture.ApplicationLayer/Application/Workflows/DtfDailyCaptureWorkflow.cs:138-155 | the persistence step and the upload write no status |
| CaptureWorkflow.FinishShape | BanRepPriceCapture.ApplicationLayer/Application/Workflows/DtfDailyCaptureWorkflow.cs:157-161 | a successful end writes Persisted, sends, then writes Sent; a failed end wrote nothing or only Persisted; no file is written |
| CaptureWorkflow.TryBlockShape | BanRepPriceCapture.ApplicationLayer/Application/Workflows/DtfDailyCaptureWorkflow.cs:99-166 | a successful try block wrote exactly Persisted then Sent; a failed one wrote nothing or only Persisted; no other flow changes |
| CaptureWorkflow.AfterObtainShape | BanRepPriceCapture.ApplicationLayer/Application/Workflows/DtfDailyCaptureWorkflow.cs:138-161 | the block after the payload choice has the shape of its end and writes no file |
| CaptureWorkflow.CatchShape | BanRepPriceCapture.ApplicationLayer/Application/Workflows/DtfDailyCaptureWorkflow.cs:167-171 | after a success the flow is Sent, with no message, and completed; after a failure whose Failed write succeeds, the last call is that write with the rethrown exception's text, and the flow is Failed and not completed; no flow is added or removed |
| CaptureWorkflow.GuardedShape | BanRepPriceCapture.ApplicationLayer/Application/Workflows/DtfDailyCaptureWorkflow.cs:99-171 | the try block with its catch has the shape CatchShape states |
| CaptureWorkflow.StartedGuarded | BanRepPriceCapture.ApplicationLayer/Application/Workflows/DtfDailyCaptureWorkflow.cs:96-99 | once creation and the Processing write succeed, the run is those two calls followed by the guarded block |
| CaptureWorkflow.StartedSuccess | BanRepPriceCapture.ApplicationLayer/Application/Workflows/DtfDailyCaptureWorkflow.cs:96-166 | a successful run wrote Processing, Persisted and Sent, in order, and leaves the flow Sent, completed, with no error |
| CaptureWorkflow.StartedFailure | BanRepPriceCapture.ApplicationLayer/Application/Workflows/DtfDailyCaptureWorkflow.cs:96-171 | a failed try block writes Processing, then at most Persisted, then Failed with the text of the exception that is rethrown, and leaves the flow Failed and not completed |
| CaptureWorkflow.RunOutcome | BanRepPriceCapture.ApplicationLayer/Application/Workflows/DtfDailyCaptureWorkflow.cs:83-171 | a run that is neither skipped nor stopped by the skip query leaves its flow in the store: completed after a success, not completed after a recorded failure, so that the next ProcessAsync of the date runs it again |
| CaptureWorkflow.PayloadPrecedence | BanRepPriceCapture.ApplicationLayer/Application/Workflows/DtfDailyCaptureWorkflow.cs:104-128 | when reusing, an existing CSV file wins, then non-empty stored payloads, and a failing stored-payload query raises; the statistics client is called exactly when neither is there or nothing is reused, and only then are the payloads fresh |
| CaptureWorkflow.FreshInsertsEveryObservation | BanRepPriceCapture.ApplicationLayer/Application/Workflows/DtfDailyCaptureWorkflow.cs:226-306 | when the inserts succeed, every streamed observation is inserted once, in order, priced at its own date and stamped with the one capture time |
| CaptureWorkflow.FreshRunInsertsEveryObservation | BanRepPriceCapture.ApplicationLayer/Application/Workflows/DtfDailyCaptureWorkflow.cs:121-195 | a fresh run whose stream ends and whose inserts succeed begins with the insert of every streamed observation, in order, and leaves the stream's lines in the CSV file |
| CaptureWorkflow.ReusedPayloadsNotPersisted | BanRepPriceCapture.ApplicationLayer/Application/Workflows/DtfDailyCaptureWorkflow.cs:104-153 | a run that reuses a CSV file or stored payloads inserts nothing and writes no file |
| CaptureWorkflow.ReusedAfterObtain | BanRepPriceCapture.ApplicationLayer/Application/Workflows/DtfDailyCaptureWorkflow.cs:138-161 | the block after a reused payload choice inserts nothing and writes no file |
| CaptureWorkflow.FinishCalls | BanRepPriceCapture.ApplicationLayer/Application/Workflows/DtfDailyCaptureWorkflow.cs:157-161 | the end of the try block makes only status writes and the send |
| CaptureWorkflow.UploadFailureSwallowed | BanRepPriceCapture.ApplicationLayer/Application/Workflows/DtfDailyCaptureWorkflow.cs:212-223 | whether or not the upload raises, the run has the same outcome, state store and files |
| CaptureWorkflow.AfterObtainIgnoresUpload | BanRepPriceCapture.ApplicationLayer/Application/Workflows/DtfDailyCaptureWorkflow.cs:155-223 | after the payload choice, the upload's failure changes neither outcome, store nor files |
| CaptureWorkflow.EarlyFailureNotRecorded | BanRepPriceCapture.ApplicationLayer/Application/Workflows/DtfDailyCaptureWorkflow.cs:96-97 | a failure of the state creation or of the Processing write is rethrown, writes no status and no file, and leaves the store as that step left it |
| PocWorkflows.RowOf | BanRepPriceCapture.DtfWeeklyPoc/Application/Workflows/DtfDailyCaptureWorkflow.cs:26-43 | the row bound for an observation carries the run's flow id and capture time, the observation's date at midnight and the observation's payload |
| PocWorkflows.InsertedBeforeFailure | BanRepPriceCapture.DtfWeeklyPoc/Application/Workflows/DtfDailyCaptureWorkflow.cs:40-44 | the number of inserts that run before the first one that raises: every earlier attempt succeeded, and the attempt at that position raised unless it is the end of the list |
| PocWorkflows.PocCaptureWorkflow.constructor | BanRepPriceCapture.DtfWeeklyPoc/Application/Workflows/DtfDailyCaptureWorkflow.cs:9-15 | the workflow holds the repository it is given and has sent nothing |
| PocWorkflows.PocCaptureWorkflow.ProcessAsync | BanRepPriceCapture.DtfWeeklyPoc/Application/Workflows/DtfDailyCaptureWorkflow.cs:17-57 | a failed fetch raises and changes nothing; otherwise the observations' rows are inserted up to the first failing insert, whose exception propagates before anything is sent; when all inserts succeed the whole payload list is sent exactly once, and the send's exception, if any, propagates; the copy in BanRepPriceCapture.DtfWeeklyPoc/Services/DtfDailyCaptureWorkflow.cs (lines 11-41) does the same with the flow id passed as an argument |
| PocWorkflows.PocCaptureWorkflow.InsertPayloads | BanRepPriceCapture.DtfWeeklyPoc/Application/Workflows/DtfDailyCaptureWorkflow.cs:39-44 | each payload's date is parsed and its statement run, in order; the table holds the rows of the payloads before the first failure of a parse or an insert, and that failure is raised |
| PocWorkflows.CreatedPayloadsPersist | BanRepPriceCapture.DtfWeeklyPoc/Application/Workflows/DtfDailyCaptureWorkflow.cs:26-44 | for payloads built from observations, no date fails to parse: the loop stops exactly where an insert fails, and the rows inserted are the observations' rows |
| PocWorkflows.CreatedPayloadsFailAtInsert | BanRepPriceCapture.DtfWeeklyPoc/Application/Workflows/DtfDailyCaptureWorkflow.cs:29-42 | the Data text written by the mapping always parses back, so the loop's failures are the inserts' |
| PocWorkflows.ParsedLoopFailure | BanRepPriceCapture.DtfWeeklyPoc/Application/Workflows/DtfDailyCaptureWorkflow.cs:40-44 | when every payload's date parses, the loop fails where the inserts do |
| PocWorkflows.CreatedPayloadsRows | BanRepPriceCapture.DtfWeeklyPoc/Application/Workflows/DtfDailyCaptureWorkflow.cs:26-43 | the rows inserted for the first k payloads are the rows of the first k observations |
| PocWorkflows.InsertAllMap | BanRepPriceCapture.DtfWeeklyPoc/Application/Workflows/DtfDailyCaptureWorkflow.cs:40-44 | two insert loops whose rows agree position by position leave the same table |
| PocWorkflows.InsertAllCovers | BanRepPriceCapture.DtfWeeklyPoc/Application/Workflows/DtfDailyCaptureWorkflow.cs:40-44 | after the loop every item's key has a row, no row is lost, and every row added is the row of one of the items |
| PocWorkflows.InsertAllPresent | BanRepPriceCapture.DtfWeeklyPoc/Infrastructure/Repositories/DtfDailyPriceRepository.cs:55-64 | inserting items whose keys all have rows already leaves the table unchanged |
| PocWorkflows.RunRowsShareFlowAndTime | BanRepPriceCapture.DtfWeeklyPoc/Application/Workflows/DtfDailyCaptureWorkflow.cs:19-43 | every row a run adds carries the run's flow id and its single capture time, and its price date is the date of one of the observations |
| PocWorkflows.RerunAddsNothing | BanRepPriceCapture.DtfWeeklyPoc/Infrastructure/Repositories/DtfDailyPriceRepository.cs:55-64 | running the capture again for the same flow and observations, at any capture time, adds no row: the inserts are idempotent per flow id and price date (the statement inserts only where no row has the flow id and price date) |
| RabbitConsumer.Wrap32 | BanRepPriceCapture.InfrastructureLayer/Infrastructure/Messaging/DtfDailyRabbitConsumer.cs:119-120 | unchecked int arithmetic: values in the Int32 range are kept, Int32.MaxValue + 1 becomes Int32.MinValue and Int32.MinValue - 1 becomes Int32.MaxValue; the same arithmetic is used for x-delivery-count - 1 at line 220 |
| RabbitConsumer.TryParseInt32 | BanRepPriceCapture.InfrastructureLayer/Infrastructure/Messaging/DtfDailyRabbitConsumer.cs:235-240 | int.TryParse with NumberStyles.Integer succeeds exactly when the text is an Int32 in that style, and gives its value |
| RabbitConsumer.TryGetHeaderInt | BanRepPriceCapture.InfrastructureLayer/Infrastructure/Messaging/DtfDailyRabbitConsumer.cs:226-244 | Convert.ToInt32 raises OverflowException exactly for an integral header value outside Int32; a number is only found for a key that is present |
| RabbitConsumer.GetRetryCount | BanRepPriceCapture.InfrastructureLayer/Infrastructure/Messaging/DtfDailyRabbitConsumer.cs:208-224 | the count read is never negative, and the only exception is the overflow of Convert.ToInt32 |
| RabbitConsumer.DeliveryCountOffset | BanRepPriceCapture.InfrastructureLayer/Infrastructure/Messaging/DtfDailyRabbitConsumer.cs:217-221 | without x-retry-count, an x-delivery-count of n (1 to Int32.MaxValue) counts n - 1 retries |
| RabbitConsumer.RetryHeaderFirst | BanRepPriceCapture.InfrastructureLayer/Infrastructure/Messaging/DtfDailyRabbitConsumer.cs:211-215 | a readable x-retry-count wins over x-delivery-count, and a negative one counts as zero |
| RabbitConsumer.UnreadableRetryHeaderIgnored | BanRepPriceCapture.InfrastructureLayer/Infrastructure/Messaging/DtfDailyRabbitConsumer.cs:228-242 | an x-retry-count that is null, of another type, or text or bytes int.TryParse refuses is read as if it were absent |
| RabbitConsumer.OverflowingRetryHeader | BanRepPriceCapture.InfrastructureLayer/Infrastructure/Messaging/DtfDailyRabbitConsumer.cs:241 | an integral x-retry-count beyond Int32 makes the count raise OverflowException |
| RabbitConsumer.CountWrapsAtEdges | BanRepPriceCapture.InfrastructureLayer/Infrastructure/Messaging/DtfDailyRabbitConsumer.cs:119-132 | an x-delivery-count of Int32.MinValue reads as Int32.MaxValue retries; the next count then wraps to Int32.MinValue, which is within MaxRetryAttempts, so the copy goes back to the queue and is read as count 0 |
| RabbitConsumer.CopyCarriesOver | BanRepPriceCapture.InfrastructureLayer/Infrastructure/Messaging/DtfDailyRabbitConsumer.cs:253-281 | the copy keeps the twelve plain properties of the original (or none when it has none), defaults the message id to the flow id, keeps every header but x-retry-count and FlowId, and sets those two to the count and the flow id text; HandleRetryLimitExceeded builds its copy with the same code (lines 311-339) |
| RabbitConsumer.CountReadBack | BanRepPriceCapture.InfrastructureLayer/Infrastructure/Messaging/DtfDailyRabbitConsumer.cs:280 | the count written into a copy is read back from it, clamped at zero, by GetRetryCount (lines 208-215) |
| RabbitConsumer.FlowIdSurvivesCopy | BanRepPriceCapture.InfrastructureLayer/Infrastructure/Messaging/DtfDailyRabbitConsumer.cs:279 | the copy is read as the same flow as the original, given that Guid.TryParse reads back the text of the empty Guid |
| RabbitConsumer.Mark | BanRepPriceCapture.InfrastructureLayer/Infrastructure/Messaging/DtfDailyRabbitConsumer.cs:151 | TryAdd adds the flow to the set of that notice and changes no other set; the other three flags use TryAdd the same way (lines 169, 192, 351) |
| RabbitConsumer.Cleared | BanRepPriceCapture.InfrastructureLayer/Infrastructure/Messaging/DtfDailyRabbitConsumer.cs:367-373 | the flow is removed from all four sets and nothing else changes |
| RabbitConsumer.NotifyOnce | BanRepPriceCapture.InfrastructureLayer/Infrastructure/Messaging/DtfDailyRabbitConsumer.cs:149-165 | after the step the flow is flagged for the notice, whether or not the notifier raised; NotifyRetryLimitExceeded (lines 349-365) is the same step |
| RabbitConsumer.Consumer.constructor | BanRepPriceCapture.InfrastructureLayer/Infrastructure/Messaging/DtfDailyRabbitConsumer.cs:17-34 | the consumer starts with the given settings, no flags and no broker calls |
| RabbitConsumer.Consumer.NotifyFailureOnce | BanRepPriceCapture.InfrastructureLayer/Infrastructure/Messaging/DtfDailyRabbitConsumer.cs:149-165 | a flagged flow gets nothing; otherwise the flag is added first and then the notifier called, so a notifier that raises still leaves the flag |
| RabbitConsumer.Consumer.NotifyPartialRetry | BanRepPriceCapture.InfrastructureLayer/Infrastructure/Messaging/DtfDailyRabbitConsumer.cs:167-183 | nothing past attempt 1 or for a flagged flow; otherwise flag, then notify |
| RabbitConsumer.Consumer.NotifyRequeueThreshold | BanRepPriceCapture.InfrastructureLayer/Infrastructure/Messaging/DtfDailyRabbitConsumer.cs:185-206 | nothing below RequeueNotificationThreshold or for a flagged flow; otherwise flag, then notify |
| RabbitConsumer.Consumer.NotifyRetryLimitExceeded | BanRepPriceCapture.InfrastructureLayer/Infrastructure/Messaging/DtfDailyRabbitConsumer.cs:349-365 | a flagged flow gets nothing; otherwise flag, then notify |
| RabbitConsumer.Consumer.Publish | BanRepPriceCapture.InfrastructureLayer/Infrastructure/Messaging/DtfDailyRabbitConsumer.cs:283-287 | BasicPublish of the copy with the given count to the queue is recorded unless it raises (the dead-letter publish, lines 341-345, is the same call) |
| RabbitConsumer.Consumer.RepublishForRetry | BanRepPriceCapture.InfrastructureLayer/Infrastructure/Messaging/DtfDailyRabbitConsumer.cs:246-288 | the copy goes to the consumer's own queue |
| RabbitConsumer.Consumer.HandleRetryLimitExceeded | BanRepPriceCapture.InfrastructureLayer/Infrastructure/Messaging/DtfDailyRabbitConsumer.cs:290-347 | the retry-limit notification, whose exception is swallowed, then the copy to the dead-letter queue unless its name is blank |
| RabbitConsumer.Consumer.Redeliver | BanRepPriceCapture.InfrastructureLayer/Infrastructure/Messaging/DtfDailyRabbitConsumer.cs:126-133 | past MaxRetryAttempts the dead-letter path, otherwise the copy back to the queue |
| RabbitConsumer.Consumer.ClearNotificationState | BanRepPriceCapture.InfrastructureLayer/Infrastructure/Messaging/DtfDailyRabbitConsumer.cs:367-373 | the flow's four flags are removed and no broker call is made |
| RabbitConsumer.Consumer.HandleMessageAsync | BanRepPriceCapture.InfrastructureLayer/Infrastructure/Messaging/DtfDailyRabbitConsumer.cs:76-147 | the flags and broker calls are those of React: nothing without a channel, an ack and cleared flags on success, the catch block on failure |
| RabbitConsumer.Consumer.HandleFailure | BanRepPriceCapture.InfrastructureLayer/Infrastructure/Messaging/DtfDailyRabbitConsumer.cs:109-146 | an unreadable count nacks; otherwise the three notifications and the redelivery branch, stopping at the first exception, then a nack with requeue if one was raised and an ack if not |
| RabbitConsumer.NoChannelNoEffect | BanRepPriceCapture.InfrastructureLayer/Infrastructure/Messaging/DtfDailyRabbitConsumer.cs:78-81 | without a channel a delivery causes no call and no flag change |
| RabbitConsumer.SuccessAcksAndClears | BanRepPriceCapture.InfrastructureLayer/Infrastructure/Messaging/DtfDailyRabbitConsumer.cs:99-102 | a successful ProcessAsync acks the delivery, publishes and notifies nothing, and clears exactly the flow's flags |
| RabbitConsumer.SettledExactlyOnce | BanRepPriceCapture.InfrastructureLayer/Infrastructure/Messaging/DtfDailyRabbitConsumer.cs:99-146 | with a channel every delivery is settled exactly once: the last call is its ack or its nack with requeue, and no earlier call settles it |
| RabbitConsumer.AfterCountSettles | BanRepPriceCapture.InfrastructureLayer/Infrastructure/Messaging/DtfDailyRabbitConsumer.cs:117-145 | the catch block ends with exactly one ack or nack of the delivery |
| RabbitConsumer.NackPublishesNothing | BanRepPriceCapture.InfrastructureLayer/Infrastructure/Messaging/DtfDailyRabbitConsumer.cs:135-143 | a nacked delivery published no copy, so its count does not advance |
| RabbitConsumer.AfterCountNackPublishesNothing | BanRepPriceCapture.InfrastructureLayer/Infrastructure/Messaging/DtfDailyRabbitConsumer.cs:117-143 | a catch block that nacks has published no copy |
| RabbitConsumer.UnreadableCountNacks | BanRepPriceCapture.InfrastructureLayer/Infrastructure/Messaging/DtfDailyRabbitConsumer.cs:119-143 | a count that raises nacks the delivery before any notification or publish, and leaves the flags as they were |
| RabbitConsumer.FailureRoute | BanRepPriceCapture.InfrastructureLayer/Infrastructure/Messaging/DtfDailyRabbitConsumer.cs:119-145 | when no notifier or publish raises, a failed delivery's calls are its notifications, then exactly one copy with count current + 1 (wrapped) to the queue or to the dead-letter queue (none when that name is blank), then the ack |
| RabbitConsumer.AfterCountRoute | BanRepPriceCapture.InfrastructureLayer/Infrastructure/Messaging/DtfDailyRabbitConsumer.cs:119-145 | the same, for the catch block given the count |
| RabbitConsumer.RedeliverRoute | BanRepPriceCapture.InfrastructureLayer/Infrastructure/Messaging/DtfDailyRabbitConsumer.cs:126-133 | the redelivery branch with no publish failure: its notifications, then the one copy to the target queue, and no exception |
| RabbitConsumer.RedeliverShape | BanRepPriceCapture.InfrastructureLayer/Infrastructure/Messaging/DtfDailyRabbitConsumer.cs:126-133 | the branch never settles, its only notification is the retry-limit one past MaxRetryAttempts for an unflagged flow, its publishes are the copy to the target queue, and a raised exception means nothing was published; the dead-letter path is HandleRetryLimitExceeded, lines 290-347 |
| RabbitConsumer.RedeliverFire | BanRepPriceCapture.InfrastructureLayer/Infrastructure/Messaging/DtfDailyRabbitConsumer.cs:126-133 | the branch raises the retry-limit notification exactly past MaxRetryAttempts for an unflagged flow, and no other notification |
| RabbitConsumer.NotificationsShape | BanRepPriceCapture.InfrastructureLayer/Infrastructure/Messaging/DtfDailyRabbitConsumer.cs:122-124 | the three notifications of the catch block are all for the flow, each only when its flag was not yet set, the partial retry only for attempt 1 or less, the threshold one only from RequeueNotificationThreshold on; the retry-limit flags are untouched |
| RabbitConsumer.NotificationsFire | BanRepPriceCapture.InfrastructureLayer/Infrastructure/Messaging/DtfDailyRabbitConsumer.cs:122-124 | when no notifier raises, each of the three fires exactly when its condition holds and its flag was not set |
| RabbitConsumer.NoticesRaised | BanRepPriceCapture.InfrastructureLayer/Infrastructure/Messaging/DtfDailyRabbitConsumer.cs:122-133 | for a failed delivery with no notifier failure, the failure, partial-retry, requeue-threshold and retry-limit notices are raised exactly when, respectively: the flow is unflagged; next <= 1 and unflagged; next >= threshold and unflagged; next > MaxRetryAttempts and unflagged |
| RabbitConsumer.AfterCountNotices | BanRepPriceCapture.InfrastructureLayer/Infrastructure/Messaging/DtfDailyRabbitConsumer.cs:122-133 | the same, for the catch block given the count |
| RabbitConsumer.AfterCountEvents | BanRepPriceCapture.InfrastructureLayer/Infrastructure/Messaging/DtfDailyRabbitConsumer.cs:122-145 | a catch block whose notifications do not raise makes the notifications, then the redelivery branch's calls, then its ack or nack |
| RabbitConsumer.NoticeConditions | BanRepPriceCapture.InfrastructureLayer/Infrastructure/Messaging/DtfDailyRabbitConsumer.cs:149-206 | every notification a delivery raises is for its own flow, whose flag for that notice was not set, and meets that notice's condition |
| RabbitConsumer.AfterCountConditions | BanRepPriceCapture.InfrastructureLayer/Infrastructure/Messaging/DtfDailyRabbitConsumer.cs:122-133 | the same, for the catch block given the count |
| RabbitConsumer.ReactAccounts | BanRepPriceCapture.InfrastructureLayer/Infrastructure/Messaging/DtfDailyRabbitConsumer.cs:76-147 | unless the delivery succeeds for the flow, a delivery raises each notice for a flow at most once, and only when its flag was not set; the flag is then set and no flag is ever removed |
| RabbitConsumer.NotifiedAtMostOnce | BanRepPriceCapture.InfrastructureLayer/Infrastructure/Messaging/DtfDailyRabbitConsumer.cs:149-206 | over any sequence of deliveries in which the flow never succeeds, each notice for it is raised at most once, and not at all if it was already flagged; the retry-limit flag (lines 349-365) behaves the same way, and only ClearNotificationState (lines 367-373) removes a flag |
| RabbitConsumer.RunAccounts | BanRepPriceCapture.InfrastructureLayer/Infrastructure/Messaging/DtfDailyRabbitConsumer.cs:76-147 | a sequence of deliveries keeps the notice accounts of a flow that never succeeds |
| RabbitConsumer.CopiesCarryNextCount | BanRepPriceCapture.InfrastructureLayer/Infrastructure/Messaging/DtfDailyRabbitConsumer.cs:246-288 | every copy a failed delivery publishes is read back as count current + 1 (0 when current is Int32.MaxValue), as the same flow, and with the same body |
| RabbitConsumer.AfterCountPublishes | BanRepPriceCapture.InfrastructureLayer/Infrastructure/Messaging/DtfDailyRabbitConsumer.cs:126-133 | the only publish of the catch block is the copy with the next count and the original body |
| Calendar.IsoWeek | BanRepPriceCapture.InfrastructureLayer/Infrastructure/Clients/BanRepSdmxClient.cs:172-178 | ISOWeek.GetYear is within one year of the date's year, and ISOWeek.GetWeekOfYear is between 1 and the number of weeks of that ISO year |
| Calendar.WeeksInYear | BanRepPriceCapture.InfrastructureLayer/Infrastructure/Clients/BanRepSdmxClient.cs:175 | an ISO year has 52 or 53 weeks |
| Calendar.IsoWeekIsCalendarWeek | BanRepPriceCapture.InfrastructureLayer/Infrastructure/Clients/BanRepSdmxClient.cs:172-178 | two dates have the same ISO year and week exactly when they fall in the same Monday-to-Sunday week |
| Calendar.IsoWeekKeyMatches | BanRepPriceCapture.InfrastructureLayer/Infrastructure/Clients/BanRepSdmxClient.cs:177 | the "yyyy-Www" keys of two dates are equal exactly when their ISO year and week are |
| Calendar.ParseFormatIsoDate | BanRepPriceCapture.InfrastructureLayer/Infrastructure/Csv/DtfDailyCsvWriter.cs:34 | the yyyy-MM-dd text of every date is read back as that date by the exact parse |
| Calendar.FormatParseIsoDate | BanRepPriceCapture.InfrastructureLayer/Infrastructure/Csv/DtfDailyCsvReader.cs:44 | a text the exact yyyy-MM-dd parse accepts is the formatted text of the date it returns: no other spelling is accepted |
| Decimals.ParseFormat | BanRepPriceCapture.InfrastructureLayer/Infrastructure/Csv/DtfDailyCsvWriter.cs:35 | the invariant text of every decimal is read back as the same decimal by a parse that allows a decimal point |
| Decimals.ParseInt32 | BanRepPriceCapture.InfrastructureLayer/Infrastructure/Messaging/DtfDailyRabbitConsumer.cs:235-240 | int.Parse either gives a value in the Int32 range or fails with FormatException or OverflowException |
| Decimals.ExponentRefused | BanRepPriceCapture.InfrastructureLayer/Infrastructure/Csv/DtfDailyCsvReader.cs:49 | NumberStyles.Number does not accept an exponent ("1e5") (an example) |
| Text.Trim | BanRepPriceCapture.InfrastructureLayer/Infrastructure/Clients/BanRepSdmxClient.cs:204 | the trimmed text neither starts nor ends with white space, and it is empty exactly when the text is blank |
| Text.TrimIsSlice | BanRepPriceCapture.InfrastructureLayer/Infrastructure/Clients/BanRepSdmxClient.cs:204 | the trimmed text is a slice of the original with only white space removed around it |

## Left out

- XML, HTTP and broker transport are not modelled. This covers XDocument loading, `HttpClient` and its delegating handlers, health checks, and the payload-sender files. SDMX input is a list of `Obs` attribute maps, and a response is a status code plus a media type.
- The HTTP response body is not modelled. Bodies are only logged.
- The RabbitMQ connection and channel lifecycle is not modelled: the consumer's `ExecuteAsync`, `StopAsync` and `Dispose`, and both proof-of-concept consumers. A missing channel is a flag of the handler.
- A throwing `BasicAck` or `BasicNack` is not modelled; the model assumes the broker accepts settlements.
- The message body is only logged and is not modelled.
- Header byte values are modelled as already-decoded text. UTF-8 decoding is not modelled.
- The consumer sets the flow context's capture date from the clock. That is an ambient value the model takes as a parameter.
- Concurrency is not modelled. Batches run sequentially instead of under `SemaphoreSlim`/`Task.WhenAll`. With parallel batches, more than one batch can fail; the model keeps the first failure in chunk order.
- The `ConcurrentDictionary` flag sets are plain sets, because their atomicity does not matter to a single handler.
- `AsyncLocal` flow context becomes explicit parameters.
- `ProcessingStateRepository` is reduced to its observable effect on a map keyed by flow id. Its SQL lives in an embedded `queries.sql`, which is not part of this model.
- `GetLastStatusByCaptureDate` and `GetByFlowId` are answers or exceptions supplied by the caller, because the SQL ordering behind them is not visible.
- `GetPayloadsByFlowId` is an answer or an exception supplied by the caller.
- `RecordDownstreamSend` and `ListFailedOrIncompleteExecutions` are not modelled. No core operation calls them.
- `LastUpdatedAt` and every `DateTime.UtcNow` are not modelled; capture times are parameters.
- `Guid.NewGuid` becomes a parameter, and `Guid.TryParse` becomes an abstract parse over text.
- `JsonSerializer` output is opaque; the stored payload text is a parameter.
- The InfrastructureLayer `DtfDailyPriceRepository`, `NpgsqlConnectionFactory` and the Dapper type handlers are not modelled. They are database wrappers over SQL that is not part of this model.
- Logging is a no-op.
- `NotifyCritical` in the capture workflow and the notification texts are not modelled.
- Notifications are modelled as events that may raise. Their message, title and severity fields are carried as opaque values.
- Cancellation is modelled only in the retry engines (`Retry.ExecuteAsync`) and in the S3 backoff loop. The capture workflow's own cancellation token is not modelled.
- `Path.Combine` is modelled as joining with `/` over non-rooted parts. A rooted second part and a null `CsvDirectory` are not modelled.
- `Math.Pow` in the S3 backoff is a double in the source. The model uses the integer `2^(attempt-1)`, which equals the double while the double is finite. The one case where the double is not finite and the result still matters is a zero backoff from attempt 1025 on: `0 * ∞` is NaN and `TimeSpan.FromSeconds` raises `ArgumentException`; `S3Backoff.AttemptDelayFailure` models that case. With a positive backoff the delay leaves `TimeSpan`'s range long before that, and `S3Backoff.DelayFailure` reports the `OverflowException`.
- S3Storage.ObjectKey: the source formats `yyyyMMdd` with the current culture. The model writes the proleptic Gregorian digits, as the invariant culture does; a culture with another calendar is not modelled.
- Payloads.CreatePayload: the `yyyy-MM-dd` date text uses the current culture in the source. The model assumes the Gregorian calendar, as for `S3Storage.ObjectKey`.
- CaptureWorkflow.FileOf: the `yyyyMMdd` part of the CSV file name uses the current culture in the source. The model assumes the Gregorian calendar.
- Csv.ReadCsv: the file store has no directories. A missing directory raises `DirectoryNotFoundException` in .NET, and the model reports it as the missing file's `FileNotFound`. The workflow reads a CSV only after `File.Exists` says it is there, so the difference does not reach it.
- Notifications.BuildNotifyUri: the parser behind `new Uri(text, UriKind.Absolute)` is a parameter, constrained only by the rule that an absolute text has a scheme separator or starts with a path separator. The URI's normalised form (host lower-casing, escaping) is not modelled; the model keeps the text.
- SqlQueries.LookupIgnoresCase: `StringComparer.OrdinalIgnoreCase` compares by `char.ToUpperInvariant`, whose Unicode case table is a parameter `upper` of the query dictionary. The model fixes only that it is idempotent and maps `a`–`z` to `A`–`Z`.
- Secrets, configuration, dependency injection, `Program.cs`, the HTTP endpoints, `DtfSeriesWorkflow` and the jobs are not modelled. They are plumbing around the core.
- Decimal values are a mantissa with a scale, of unbounded size. The 96-bit mantissa and 28-digit scale limits of .NET `decimal` and the `OverflowException` they cause are not modelled.
