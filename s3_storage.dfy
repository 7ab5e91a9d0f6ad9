/** S3ArtifactStorageService: uploads the day's CSV to S3 under a key built from the
    environment, the capture date and the flow id, with the retry loop of S3Backoff.
    The S3 call is not part of this model: attempt k of PutObjectAsync with a request
    either completes or raises put(request, k). */
module S3Storage {
  import opened Wrappers
  import opened Text
  import opened Calendar
  import opened FlowIds
  import SdmxClient
  import opened S3Backoff

  datatype S3Settings = S3Settings(bucketName: string, environment: string, retry: RetrySettings)

  /** The object key: {environment}/dtf/{yyyyMMdd}/{flow id, 32 hex digits}.csv. */
  function ObjectKey(environment: string, captureDate: DateOnly, flowId: Guid): (key: string)
    ensures |key| == |environment| + 50
  {
    environment + "/dtf/" + FormatCompactDate(captureDate) + "/" + FormatN(flowId) + ".csv"
  }

  datatype PutObjectRequest = PutObjectRequest(bucketName: string, key: string, filePath: string, contentType: string)

  /** UploadDtfDailyCsvAsync: with a blank bucket or environment nothing is uploaded and
      nothing is raised; otherwise one request, with the object key and the CSV path, is
      put with retries. */
  method UploadDtfDailyCsvAsync(settings: S3Settings, flowId: Guid, captureDate: DateOnly, csvPath: string,
                                put: (PutObjectRequest, nat) -> Option<Exn>, cancelAt: Option<nat>)
    returns (request: Option<PutObjectRequest>, o: UploadOutcome)
    ensures IsBlank(settings.bucketName) || IsBlank(settings.environment) <==> request.None?
    ensures request.None? ==> o == UploadOutcome(Ok(()), 0, [])
    ensures request.Some? ==>
      request.value == PutObjectRequest(settings.bucketName, ObjectKey(settings.environment, captureDate, flowId), csvPath, "text/csv")
    ensures request.Some? ==> o == UploadRun(MaxAttemptsOf(settings.retry), BackoffOf(settings.retry),
      (k: nat) => put(request.value, k), cancelAt, 0)
  {
    if IsBlank(settings.bucketName) || IsBlank(settings.environment) {
      return None, UploadOutcome(Ok(()), 0, []);
    }
    var key := ObjectKey(settings.environment, captureDate, flowId);
    var r := PutObjectRequest(settings.bucketName, key, csvPath, "text/csv");
    request := Some(r);
    o := ExecuteWithRetryAsync(settings.retry, (k: nat) => put(r, k), cancelAt);
  }

  // ---------------------------------------------------------------- properties

  /** The key names the capture date and the flow: two uploads of one environment share a
      key only when they have the same date and flow id. */
  lemma ObjectKeyInjective(environment: string, d1: DateOnly, g1: Guid, d2: DateOnly, g2: Guid)
    requires ObjectKey(environment, d1, g1) == ObjectKey(environment, d2, g2)
    ensures d1 == d2 && g1 == g2
  {
    var n := |environment|;
    ObjectKeyParts(environment, d1, g1);
    ObjectKeyParts(environment, d2, g2);
    SdmxClient.CompactDateRoundTrip(d1);
    SdmxClient.CompactDateRoundTrip(d2);
    FormatNInjective(g1, g2);
  }

  lemma ObjectKeyParts(environment: string, d: DateOnly, g: Guid)
    ensures var key, n := ObjectKey(environment, d, g), |environment|;
      && key[..n] == environment && key[n..n + 5] == "/dtf/"
      && key[n + 5..n + 13] == FormatCompactDate(d) && key[n + 13] == '/'
      && key[n + 14..n + 46] == FormatN(g) && key[n + 46..] == ".csv"
  {
  }
}
