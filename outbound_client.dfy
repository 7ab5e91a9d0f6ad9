/** DtfDailyOutboundClient: posts the day's payloads downstream under the OutboundHttpPost
    retry policy and reads the send id the downstream service answers with. The HTTP exchange
    is not part of this model: attempt k either raises transport(k) or is answered by
    answers(k); Guid.NewGuid() at attempt k is newGuid(k). */
module OutboundClient {
  import opened Wrappers
  import opened Text
  import opened FlowIds
  import Http
  import Retry

  /** One header of a response: its name and values. */
  datatype Header = Header(name: string, values: seq<string>)

  /** The parts of an HttpResponseMessage the client reads. */
  datatype HttpAnswer = HttpAnswer(status: int, headers: seq<Header>, contentHeaders: seq<Header>)

  /** HttpHeaders.TryGetValues: header names compare case-insensitively. */
  function FindHeader(hs: seq<Header>, name: string): (r: Option<seq<string>>)
    ensures r.None? <==> forall i | 0 <= i < |hs| :: !EqualsIgnoreCase(hs[i].name, name)
    ensures r.Some? ==> exists i | 0 <= i < |hs| :: EqualsIgnoreCase(hs[i].name, name) && hs[i].values == r.value
  {
    if hs == [] then None
    else if EqualsIgnoreCase(hs[0].name, name) then Some(hs[0].values)
    else
      var r := FindHeader(hs[1..], name);
      assert forall i | 1 <= i < |hs| :: hs[i] == hs[1..][i - 1];
      r
  }

  /** FirstOrDefault() of the values, when it is not null or white space. */
  function FirstUsable(values: seq<string>): (r: Option<string>)
    ensures r.Some? <==> values != [] && !IsBlank(values[0])
    ensures r.Some? ==> r.value == values[0]
  {
    if values == [] || IsBlank(values[0]) then None else Some(values[0])
  }

  /** TryGetHeaderValue: the response headers first; the content headers only when the
      response has no header of that name. */
  function TryGetHeaderValue(a: HttpAnswer, name: string): (r: Option<string>)
    ensures FindHeader(a.headers, name).Some? ==> r == FirstUsable(FindHeader(a.headers, name).value)
    ensures FindHeader(a.headers, name).None? && FindHeader(a.contentHeaders, name).Some?
      ==> r == FirstUsable(FindHeader(a.contentHeaders, name).value)
    ensures FindHeader(a.headers, name).None? && FindHeader(a.contentHeaders, name).None? ==> r.None?
  {
    match FindHeader(a.headers, name)
    case Some(vs) => FirstUsable(vs)
    case None =>
      match FindHeader(a.contentHeaders, name)
      case Some(vs) => FirstUsable(vs)
      case None => None
  }

  const SendIdHeaderNames: seq<string> := ["X-Downstream-Send-Id", "X-Send-Id", "X-Request-Id", "X-Correlation-Id"]

  /** A header that gives a send id: a usable value that Guid.TryParse accepts. */
  predicate GivesSendId(a: HttpAnswer, name: string, parse: GuidParser) {
    TryGetHeaderValue(a, name).Some? && parse(TryGetHeaderValue(a, name).value).Some?
  }

  function SendIdOf(a: HttpAnswer, name: string, parse: GuidParser): Guid
    requires GivesSendId(a, name, parse)
  {
    parse(TryGetHeaderValue(a, name).value).value
  }

  /** The foreach of ResolveDownstreamSendId over the remaining header names. */
  function ResolveFrom(a: HttpAnswer, names: seq<string>, parse: GuidParser, newGuid: Guid): (g: Guid)
  {
    if names == [] then newGuid
    else if GivesSendId(a, names[0], parse) then SendIdOf(a, names[0], parse)
    else ResolveFrom(a, names[1..], parse, newGuid)
  }

  /** ResolveDownstreamSendId: the id of the first header name that gives one, else a newGuid
      GUID. */
  function ResolveDownstreamSendId(a: HttpAnswer, parse: GuidParser, newGuid: Guid): Guid
  {
    ResolveFrom(a, SendIdHeaderNames, parse, newGuid)
  }

  /** The body of the retried lambda once the answer is in: the status check, then the
      send id. */
  function SendAttempt(a: HttpAnswer, parse: GuidParser, newGuid: Guid): (r: Result<Guid, Exn>)
    ensures r.Ok? <==> Http.IsSuccessStatusCode(a.status)
    ensures r.Ok? ==> r.value == ResolveDownstreamSendId(a, parse, newGuid)
    ensures r.Err? ==> r.error == Http.CheckStatus(a.status).error
  {
    match Http.CheckStatus(a.status)
    case Err(e) => Err(e)
    case Ok(_) => Ok(ResolveDownstreamSendId(a, parse, newGuid))
  }

  function AttemptOf(transport: nat -> Option<Exn>, answers: nat -> HttpAnswer, parse: GuidParser, newGuid: nat -> Guid)
    : nat -> Result<Guid, Exn>
  {
    (k: nat) => if transport(k).Some? then Err(transport(k).value) else SendAttempt(answers(k), parse, newGuid(k))
  }

  /** SendAsync: the attempts under the OutboundHttpPost policy. */
  function SendAsync(transport: nat -> Option<Exn>, answers: nat -> HttpAnswer, parse: GuidParser,
                     newGuid: nat -> Guid, cancelAt: Option<nat>): Retry.Outcome<Guid>
  {
    Retry.Run(Retry.PolicyFor(Retry.OutboundHttpPost), Retry.OutboundHttpPost,
      AttemptOf(transport, answers, parse, newGuid), cancelAt, 0)
  }

  // ---------------------------------------------------------------- properties

  /** The send id is the first header name's, in the order of the list, that gives one;
      when none does it is the newGuid GUID. */
  lemma {:induction false} ResolveFirstMatch(a: HttpAnswer, names: seq<string>, parse: GuidParser, newGuid: Guid)
    ensures (forall i | 0 <= i < |names| :: !GivesSendId(a, names[i], parse))
      ==> ResolveFrom(a, names, parse, newGuid) == newGuid
    ensures forall i | 0 <= i < |names| && GivesSendId(a, names[i], parse)
        && (forall j | 0 <= j < i :: !GivesSendId(a, names[j], parse))
      :: ResolveFrom(a, names, parse, newGuid) == SendIdOf(a, names[i], parse)
    decreases |names|
  {
    if names != [] {
      var tail := names[1..];
      ResolveFirstMatch(a, tail, parse, newGuid);
      assert forall i | 1 <= i < |names| :: names[i] == tail[i - 1];
      if !GivesSendId(a, names[0], parse) {
        forall i | 0 <= i < |names| && GivesSendId(a, names[i], parse)
            && (forall j | 0 <= j < i :: !GivesSendId(a, names[j], parse))
          ensures ResolveFrom(a, names, parse, newGuid) == SendIdOf(a, names[i], parse)
        {
          assert i > 0;
          assert forall j | 0 <= j < i - 1 :: !GivesSendId(a, tail[j], parse) by {
            forall j | 0 <= j < i - 1
              ensures !GivesSendId(a, tail[j], parse)
            {
              assert tail[j] == names[j + 1];
            }
          }
        }
      }
    }
  }

  /** A response header of the name, even with a blank value, hides the content header of
      the same name. */
  lemma ResponseHeaderShadowsContent(a: HttpAnswer, name: string, parse: GuidParser)
    requires exists i | 0 <= i < |a.headers| :: EqualsIgnoreCase(a.headers[i].name, name)
    requires forall i | 0 <= i < |a.headers| && EqualsIgnoreCase(a.headers[i].name, name) :: a.headers[i].values == [" "]
    ensures !GivesSendId(a, name, parse)
  {
    var vs := FindHeader(a.headers, name).value;
    assert vs == [" "];
    assert IsBlank(vs[0]);
  }

  /** A success answers the first attempt's send id at once. */
  lemma FirstAnswerSucceeds(transport: nat -> Option<Exn>, answers: nat -> HttpAnswer, parse: GuidParser,
                            newGuid: nat -> Guid)
    requires transport(1).None? && Http.IsSuccessStatusCode(answers(1).status)
    ensures SendAsync(transport, answers, parse, newGuid, None)
      == Retry.Outcome(Ok(ResolveDownstreamSendId(answers(1), parse, newGuid(1))), 1, [])
  {
  }

  /** A 400 is not transient, but EnsureSuccessStatusCode raises HttpRequestException,
      which the HTTP policy retries: three 400 answers make three attempts. */
  lemma BadRequestRetried(answers: nat -> HttpAnswer, parse: GuidParser, newGuid: nat -> Guid)
    requires forall k | 1 <= k <= 3 :: answers(k).status == 400
    ensures SendAsync(k => None, answers, parse, newGuid, None) == Retry.Outcome(Err(HttpRequest), 3, [500, 1000])
  {
    Retry.HttpExhaustion(Retry.OutboundHttpPost, AttemptOf(k => None, answers, parse, newGuid));
  }
}
