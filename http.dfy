/** HTTP status handling shared by the three HTTP clients: the success range, the
    statuses they treat as transient (RFC 9110 section 15, and 429 from RFC 6585
    section 4), and the branch each client runs on a non-success answer. */
module Http {
  import opened Wrappers

  /** HttpResponseMessage.IsSuccessStatusCode: a status in 200-299. */
  predicate IsSuccessStatusCode(status: int) {
    200 <= status <= 299
  }

  /** IsTransientStatusCode: Request Timeout, Too Many Requests, Internal Server Error,
      Bad Gateway, Service Unavailable, Gateway Timeout. */
  predicate IsTransientStatusCode(status: int) {
    status == 408 || status == 429 || status == 500 || status == 502 || status == 503 || status == 504
  }

  /** The non-success branch of the outbound and notification clients: a transient status
      raises TransientFailureException, any other failure goes to EnsureSuccessStatusCode,
      which raises HttpRequestException. */
  function CheckStatus(status: int): (r: Result<(), Exn>)
    ensures r.Ok? <==> IsSuccessStatusCode(status)
    ensures r == Err(TransientFailure) <==> IsTransientStatusCode(status)
    ensures r == Err(HttpRequest) <==> !IsSuccessStatusCode(status) && !IsTransientStatusCode(status)
  {
    TransientIsFailure(status);
    if !IsSuccessStatusCode(status) then
      if IsTransientStatusCode(status) then Err(TransientFailure) else Err(HttpRequest)
    else Ok(())
  }

  /** No transient status is a success, and 404 is not transient. */
  lemma TransientIsFailure(status: int)
    ensures IsTransientStatusCode(status) ==> !IsSuccessStatusCode(status) && status != 404
  {
  }
}
