/** HttpNotificationService: posts a notification card to the notification service's
    "/notificar" endpoint under the NotificationHttpPost retry policy, after stamping the
    card with the ambient flow id. The HTTP exchange is not part of this model: post(uri,
    card, k) is what attempt k of PostAsync gives, a response status or an exception. */
module Notifications {
  import opened Wrappers
  import opened Text
  import opened FlowIds
  import Http
  import Retry

  /** b is s without the run of '/' that ends it. */
  predicate WithoutTrailingSlashes(s: string, b: string) {
    && |b| <= |s| && b == s[..|b|]
    && (forall i | |b| <= i < |s| :: s[i] == '/')
    && (b == [] || b[|b| - 1] != '/')
  }

  /** The text handed to the Uri constructor: the base without its trailing '/'
      characters, followed by "/notificar". */
  function NotifyUriText(baseUrl: string): (t: string)
    ensures exists b :: WithoutTrailingSlashes(baseUrl, b) && t == b + "/notificar"
  {
    var b := TrimEndChar(baseUrl, '/');
    assert WithoutTrailingSlashes(baseUrl, b);
    b + "/notificar"
  }

  /** What `new Uri(text, UriKind.Absolute)` accepts is the runtime's URI parser, given
      here as a predicate. What is known of it: an absolute URI names its scheme before a
      ':' (section 3.1 of RFC 3986), and the only texts accepted without a ':' are the
      paths the runtime takes as implicit file URIs, which start with '/' or '\'. */
  ghost predicate IsAbsoluteUriParser(isAbsoluteUri: string -> bool) {
    forall t :: isAbsoluteUri(t) ==> ':' in t || (t != [] && (t[0] == '/' || t[0] == '\\'))
  }

  /** BuildNotifyUri: InvalidOperationException for a blank base URL; otherwise the base
      without its trailing '/' characters, followed by "/notificar", which must parse as
      an absolute URI or UriFormatException is raised. */
  function BuildNotifyUri(baseUrl: string, isAbsoluteUri: string -> bool): (r: Result<string, Exn>)
    ensures r.Err? <==> IsBlank(baseUrl) || !isAbsoluteUri(NotifyUriText(baseUrl))
    ensures IsBlank(baseUrl) ==> r == Err(InvalidOperation)
    ensures !IsBlank(baseUrl) && r.Err? ==> r == Err(UriFormat)
    ensures r.Ok? ==> r.value == NotifyUriText(baseUrl)
  {
    if IsBlank(baseUrl) then Err(InvalidOperation)
    else
      var text := NotifyUriText(baseUrl);
      if isAbsoluteUri(text) then Ok(text) else Err(UriFormat)
  }

  /** The fields of a NotificationPayload, as serialized into the card of a request. */
  datatype NotificationCard = NotificationCard(title: string, description: string, feature: string,
                                               source: string, correlationId: string, templateName: string)

  /** NotificationPayload: a mutable record whose properties all start empty. */
  class NotificationPayload {
    var title: string
    var description: string
    var feature: string
    var source: string
    var correlationId: string
    var templateName: string

    constructor()
      ensures Card() == NotificationCard("", "", "", "", "", "")
    {
      title, description, feature, source, correlationId, templateName := "", "", "", "", "", "";
    }

    /** BuildRequestBody: the card serializes every property of the payload. */
    function Card(): (c: NotificationCard)
      reads this
      ensures c.correlationId == correlationId && c.title == title && c.templateName == templateName
    {
      NotificationCard(title, description, feature, source, correlationId, templateName)
    }
  }

  /** What attempt k of PostAsync gives: Ok(status) when the service answered, Err(e) when
      the call raised e. */
  type Post = (string, NotificationCard, nat) -> Result<int, Exn>

  /** The body of the retried lambda: a non-success status raises, a success returns the
      status code. */
  function NotifyAttempt(reply: Result<int, Exn>): (r: Result<int, Exn>)
    ensures reply.Err? ==> r == reply
    ensures reply.Ok? ==> (r.Ok? <==> Http.IsSuccessStatusCode(reply.value))
    ensures reply.Ok? && r.Ok? ==> r.value == reply.value
    ensures reply.Ok? && r.Err? ==> r.error == Http.CheckStatus(reply.value).error
  {
    match reply
    case Err(e) => Err(e)
    case Ok(status) =>
      match Http.CheckStatus(status)
      case Err(e) => Err(e)
      case Ok(_) => Ok(status)
  }

  function AttemptOf(post: Post, uri: string, card: NotificationCard): nat -> Result<int, Exn> {
    (k: nat) => NotifyAttempt(post(uri, card, k))
  }

  /** The attempts of one notification, never cancelled (CancellationToken.None). */
  function Deliver(post: Post, uri: string, card: NotificationCard): Retry.Outcome<int> {
    Retry.Run(Retry.PolicyFor(Retry.NotificationHttpPost), Retry.NotificationHttpPost,
      AttemptOf(post, uri, card), None, 0)
  }

  /** NotifyAsync (and so NotifyInfo, NotifyWarn and NotifyError): overwrites the payload's
      CorrelationId with the flow id, then sends the card with retries; the final failure
      is rethrown after it is logged. */
  method NotifyAsync(notifyUri: string, payload: NotificationPayload, flowId: Guid, post: Post)
    returns (o: Retry.Outcome<int>)
    modifies payload
    ensures payload.correlationId == FormatD(flowId)
    ensures payload.title == old(payload.title) && payload.description == old(payload.description)
      && payload.feature == old(payload.feature) && payload.source == old(payload.source)
      && payload.templateName == old(payload.templateName)
    ensures o == Deliver(post, notifyUri, payload.Card())
  {
    payload.correlationId := FormatD(flowId);
    o := Retry.ExecuteAsync(Retry.NotificationHttpPost, AttemptOf(post, notifyUri, payload.Card()), None);
  }

  // ---------------------------------------------------------------- properties

  /** The endpoint does not depend on how many '/' end the base URL. */
  lemma TrailingSlashesIgnored(baseUrl: string, n: nat, isAbsoluteUri: string -> bool)
    requires !IsBlank(baseUrl)
    ensures BuildNotifyUri(baseUrl + Repeat('/', n), isAbsoluteUri) == BuildNotifyUri(baseUrl, isAbsoluteUri)
  {
    var longer := baseUrl + Repeat('/', n);
    assert !IsBlank(longer) by {
      var i :| 0 <= i < |baseUrl| && !IsWhiteSpace(baseUrl[i]);
      assert longer[i] == baseUrl[i];
    }
    TrimEndSlashes(baseUrl, n);
  }

  /** A base URL that names no scheme and is not a path, such as "notificacoes", makes
      the constructor raise UriFormatException. */
  lemma RelativeBaseRaises(baseUrl: string, isAbsoluteUri: string -> bool)
    requires IsAbsoluteUriParser(isAbsoluteUri)
    requires baseUrl != [] && ('a' <= baseUrl[0] <= 'z' || 'A' <= baseUrl[0] <= 'Z' || IsDigit(baseUrl[0]))
    requires forall i | 0 <= i < |baseUrl| :: baseUrl[i] != ':'
    ensures BuildNotifyUri(baseUrl, isAbsoluteUri) == Err(UriFormat)
  {
    assert !IsBlank(baseUrl) by {
      assert !IsWhiteSpace(baseUrl[0]);
    }
    var t := NotifyUriText(baseUrl);
    var b :| WithoutTrailingSlashes(baseUrl, b) && t == b + "/notificar";
    assert b != [];
    assert t[0] == baseUrl[0];
    assert ':' !in t by {
      forall i | 0 <= i < |t|
        ensures t[i] != ':'
      {
        if i < |b| {
          assert t[i] == baseUrl[i];
        } else {
          assert t[i] == "/notificar"[i - |b|];
        }
      }
    }
  }

  lemma {:induction false} TrimEndSlashes(s: string, n: nat)
    ensures TrimEndChar(s + Repeat('/', n), '/') == TrimEndChar(s, '/')
    decreases n
  {
    if n > 0 {
      var shorter := s + Repeat('/', n - 1);
      assert s + Repeat('/', n) == shorter + ['/'];
      assert (shorter + ['/'])[..|shorter|] == shorter;
      TrimEndSlashes(s, n - 1);
    } else {
      assert s + Repeat('/', n) == s;
    }
  }

  /** A notification that succeeds returns a 2xx status that one attempt was answered with;
      one that fails rethrows exactly what its last attempt raised, whether a transport
      exception or the status check's, and cancellation plays no part. */
  lemma DeliverResult(post: Post, uri: string, card: NotificationCard)
    ensures var o := Deliver(post, uri, card);
      && 1 <= o.attempts <= 3
      && (o.result.Ok? ==> Http.IsSuccessStatusCode(o.result.value) && post(uri, card, o.attempts) == o.result)
      && (o.result.Err? ==> o.result == NotifyAttempt(post(uri, card, o.attempts)))
  {
    var o := Deliver(post, uri, card);
    Retry.UncancelledEndsWithLastAttempt(Retry.PolicyFor(Retry.NotificationHttpPost),
      Retry.NotificationHttpPost, AttemptOf(post, uri, card), 0);
    assert o.result == NotifyAttempt(post(uri, card, o.attempts));
  }

  /** A 404 is neither a success nor transient, but EnsureSuccessStatusCode raises
      HttpRequestException, which the policy retries: three 404 answers make three
      attempts, with waits of 500 ms and 1 s. */
  lemma NotFoundRetried(post: Post, uri: string, card: NotificationCard)
    requires forall k | 1 <= k <= 3 :: post(uri, card, k) == Ok(404)
    ensures Deliver(post, uri, card) == Retry.Outcome(Err(HttpRequest), 3, [500, 1000])
  {
    Retry.HttpExhaustion(Retry.NotificationHttpPost, AttemptOf(post, uri, card));
  }
}
