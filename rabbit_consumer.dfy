/** DtfDailyRabbitConsumer: the handler of a delivery from the capture queue. A delivery
    whose processing succeeds is acked and its flow's notification flags cleared. One whose
    processing fails is counted from its headers and either republished to the same queue
    with the next count or, past MaxRetryAttempts, dead-lettered; the original is then
    acked. If the count cannot be read or a notification or a publish throws, the delivery
    is nacked with requeue and the count does not advance.

    The broker is a trace of events (publish, ack, nack) and of notification calls. The
    four ConcurrentDictionary flags are sets of flow ids. What the collaborators do (the
    workflow's ProcessAsync, the notifier, BasicPublish, Guid.TryParse) is given by what
    they answer, in an Env value. */
module RabbitConsumer {
  import opened Wrappers
  import opened Text
  import opened Decimals
  import opened FlowIds
  import CaptureWorkflow

  type Int32 = x: int | Int32Min <= x <= Int32Max

  /** C#'s unchecked int arithmetic: the value modulo 2^32, in the Int32 range. */
  function Wrap32(x: int): (r: Int32)
    requires Int32Min - 1 <= x <= Int32Max + 1
    ensures Int32Min <= x <= Int32Max ==> r == x
    ensures x == Int32Max + 1 ==> r == Int32Min
    ensures x == Int32Min - 1 ==> r == Int32Max
  {
    if x < Int32Min then x + 0x1_0000_0000
    else if x > Int32Max then x - 0x1_0000_0000
    else x
  }

  function Max(a: int, b: int): int {
    if a < b then b else a
  }

  // ---------------------------------------------------------------- headers

  /** The header values the handler tells apart: UTF-8 bytes (given by the text they
      decode to), a string, a value of an integral type (sbyte to ulong, given by its
      number), a null, and anything else. */
  datatype HeaderValue =
    | Utf8Bytes(decoded: string)
    | Text(text: string)
    | Integral(number: int)
    | NullValue
    | OtherValue

  type Headers = map<string, HeaderValue>

  const RetryCountHeader: string := "x-retry-count"
  const DeliveryCountHeader: string := "x-delivery-count"
  const FlowIdHeader: string := "FlowId"

  /** int.TryParse(text, NumberStyles.Integer, InvariantCulture). */
  function TryParseInt32(text: string): (r: Option<Int32>)
    ensures r.Some? <==> ParseInt32(text).Ok?
    ensures r.Some? ==> r.value == ParseInt32(text).value
  {
    match ParseInt32(text)
    case Ok(n) => Some(n)
    case Err(_) => None
  }

  /** TryGetHeaderInt: no headers, no such key or a null value give null; bytes and strings
      give what int.TryParse makes of their text; an integral value gives Convert.ToInt32
      of it, which raises OverflowException outside the Int32 range; any other value gives
      null. */
  function TryGetHeaderInt(headers: Option<Headers>, key: string): (r: Result<Option<Int32>, Exn>)
    ensures r.Err? <==>
      headers.Some? && key in headers.value && headers.value[key].Integral? &&
      !(Int32Min <= headers.value[key].number <= Int32Max)
    ensures r.Err? ==> r.error == Overflow
    ensures r.Ok? && r.value.Some? ==> headers.Some? && key in headers.value
  {
    if headers.None? || key !in headers.value then Ok(None)
    else match headers.value[key]
      case Utf8Bytes(t) => Ok(TryParseInt32(t))
      case Text(t) => Ok(TryParseInt32(t))
      case Integral(n) => if Int32Min <= n <= Int32Max then Ok(Some(n)) else Err(Overflow)
      case NullValue => Ok(None)
      case OtherValue => Ok(None)
  }

  /** GetRetryCount: x-retry-count clamped at zero; failing that, x-delivery-count minus one
      (in unchecked Int32 arithmetic) clamped at zero; failing that, zero. An overflowing
      integral header raises. */
  function GetRetryCount(headers: Option<Headers>): (r: Result<Int32, Exn>)
    ensures r.Ok? ==> r.value >= 0
    ensures r.Err? ==> r.error == Overflow
  {
    match TryGetHeaderInt(headers, RetryCountHeader)
    case Err(e) => Err(e)
    case Ok(Some(h)) => Ok(Max(0, h))
    case Ok(None) =>
      match TryGetHeaderInt(headers, DeliveryCountHeader)
      case Err(e) => Err(e)
      case Ok(Some(d)) => Ok(Max(0, Wrap32(d - 1)))
      case Ok(None) => Ok(0)
  }

  // ---------------------------------------------------------------- messages

  /** IBasicProperties: the twelve plain properties the copies carry over, the message id
      and the headers (None stands for null). */
  datatype BasicProperties = BasicProperties(
    appId: Option<string>,
    clusterId: Option<string>,
    contentEncoding: Option<string>,
    contentType: Option<string>,
    correlationId: Option<string>,
    deliveryMode: nat,
    expiration: Option<string>,
    messageId: Option<string>,
    priority: nat,
    replyTo: Option<string>,
    messageType: Option<string>,
    userId: Option<string>,
    timestamp: int,
    headers: Option<Headers>)

  /** What CreateBasicProperties returns: nothing set. */
  const FreshProperties: BasicProperties :=
    BasicProperties(None, None, None, None, None, 0, None, None, 0, None, None, None, 0, None)

  /** A delivery: its tag, its properties (None stands for null) and its body. */
  datatype Delivery = Delivery(tag: nat, properties: Option<BasicProperties>, body: seq<bv8>)

  function MessageIdOf(d: Delivery): Option<string> {
    if d.properties.Some? then d.properties.value.messageId else None
  }

  function HeadersOf(d: Delivery): Option<Headers> {
    if d.properties.Some? then d.properties.value.headers else None
  }

  /** The properties of a republished or dead-lettered copy (the same code in
      RepublishForRetry and HandleRetryLimitExceeded): the source's properties, its headers
      in a new dictionary (or an empty one), the message id defaulted to the flow id, and
      x-retry-count and FlowId overwritten. */
  function CopyForRedelivery(source: Option<BasicProperties>, flowId: Guid, retryCount: Int32): (p: BasicProperties)
    ensures p.headers.Some?
  {
    var copied := if source.Some? then source.value else FreshProperties;
    var headers := if copied.headers.Some? then copied.headers.value else map[];
    var messageId := if copied.messageId.Some? then copied.messageId else Some(FormatD(flowId));
    copied.(messageId := messageId,
            headers := Some(headers[RetryCountHeader := Integral(retryCount)][FlowIdHeader := Text(FormatD(flowId))]))
  }

  // ---------------------------------------------------------------- the broker trace

  datatype Notice = FailureNotice | PartialRetryNotice | RequeueThresholdNotice | RetryLimitNotice

  datatype BrokerEvent =
    | Published(queue: string, properties: BasicProperties, body: seq<bv8>)
    | Acked(tag: nat)
    | Nacked(tag: nat, requeue: bool)
    | Notified(notice: Notice, flowId: Guid, attempt: int)

  /** The settings the consumer reads. */
  datatype Settings = Settings(
    queueName: string,
    maxRetryAttempts: Int32,
    requeueNotificationThreshold: Int32,
    deadLetterQueueName: Option<string>)

  /** What the collaborators answer while one delivery is handled: the exception ProcessAsync
      raises, if any; the exception each notification raises, if any; the exception
      BasicPublish raises for a queue, if any; and Guid.TryParse. */
  datatype Env = Env(
    processFailure: Option<Exn>,
    notifyFailure: Notice -> Option<Exn>,
    publishFailure: string -> Option<Exn>,
    parse: GuidParser)

  /** The four flag sets: the flows already notified, per notice. */
  datatype Flags = Flags(failure: set<Guid>, partialRetry: set<Guid>, requeueThreshold: set<Guid>, retryLimit: set<Guid>)

  function Flagged(f: Flags, n: Notice): set<Guid> {
    match n
    case FailureNotice => f.failure
    case PartialRetryNotice => f.partialRetry
    case RequeueThresholdNotice => f.requeueThreshold
    case RetryLimitNotice => f.retryLimit
  }

  /** TryAdd on the set of one notice. */
  function Mark(f: Flags, n: Notice, g: Guid): (r: Flags)
    ensures forall m :: Flagged(r, m) == if m == n then Flagged(f, m) + {g} else Flagged(f, m)
  {
    match n
    case FailureNotice => f.(failure := f.failure + {g})
    case PartialRetryNotice => f.(partialRetry := f.partialRetry + {g})
    case RequeueThresholdNotice => f.(requeueThreshold := f.requeueThreshold + {g})
    case RetryLimitNotice => f.(retryLimit := f.retryLimit + {g})
  }

  /** ClearNotificationState: TryRemove on all four sets. */
  function Cleared(f: Flags, g: Guid): (r: Flags)
    ensures forall m :: Flagged(r, m) == Flagged(f, m) - {g}
  {
    Flags(f.failure - {g}, f.partialRetry - {g}, f.requeueThreshold - {g}, f.retryLimit - {g})
  }

  /** One step of the handler: the flags after it, the events it adds, and what it threw. */
  datatype Step = Step(flags: Flags, events: seq<BrokerEvent>, thrown: Option<Exn>)

  /** A notification sent at most once per flow: if the flag was already there nothing
      happens; otherwise the flag is added first and then the notifier is called, so a
      notifier that throws still leaves the flag. */
  function NotifyOnce(f: Flags, n: Notice, g: Guid, attempt: int, env: Env): (s: Step)
    ensures g in Flagged(s.flags, n)
  {
    if g in Flagged(f, n) then Step(f, [], None)
    else Step(Mark(f, n, g), [Notified(n, g, attempt)], env.notifyFailure(n))
  }

  /** NotifyPartialRetry: only for the first retry. */
  function PartialRetryStep(f: Flags, g: Guid, attempt: Int32, env: Env): Step {
    if attempt > 1 then Step(f, [], None) else NotifyOnce(f, PartialRetryNotice, g, attempt, env)
  }

  /** NotifyRequeueThreshold: only from the threshold on. */
  function RequeueThresholdStep(c: Settings, f: Flags, g: Guid, attempt: Int32, env: Env): Step {
    if attempt < c.requeueNotificationThreshold then Step(f, [], None)
    else NotifyOnce(f, RequeueThresholdNotice, g, attempt, env)
  }

  /** BasicPublish of a copy to a queue: published unless it throws. */
  function PublishStep(f: Flags, queue: string, d: Delivery, g: Guid, retryCount: Int32, env: Env): Step {
    if env.publishFailure(queue).Some? then Step(f, [], env.publishFailure(queue))
    else Step(f, [Published(queue, CopyForRedelivery(d.properties, g, retryCount), d.body)], None)
  }

  /** HandleRetryLimitExceeded: the retry-limit notification, whose exception is caught
      and logged; then the copy to the dead-letter queue, unless its name is blank. */
  function RetryLimitStep(c: Settings, f: Flags, d: Delivery, g: Guid, retryCount: Int32, env: Env): Step {
    var notified := NotifyOnce(f, RetryLimitNotice, g, retryCount, env);
    if IsNullOrWhiteSpace(c.deadLetterQueueName) then Step(notified.flags, notified.events, None)
    else
      var published := PublishStep(notified.flags, c.deadLetterQueueName.value, d, g, retryCount, env);
      Step(published.flags, notified.events + published.events, published.thrown)
  }

  /** Past MaxRetryAttempts the dead-letter path, otherwise the copy back to the queue. */
  function RedeliverStep(c: Settings, f: Flags, d: Delivery, g: Guid, next: Int32, env: Env): Step {
    if next > c.maxRetryAttempts then RetryLimitStep(c, f, d, g, next, env)
    else PublishStep(f, c.queueName, d, g, next, env)
  }

  /** What handling a delivery does: the flags after it and the events it adds. */
  datatype Reaction = Reaction(flags: Flags, events: seq<BrokerEvent>)

  /** The catch block of HandleMessageAsync, for a delivery of flow g. */
  function AfterFailure(c: Settings, f: Flags, d: Delivery, g: Guid, env: Env): Reaction {
    AfterCount(c, f, d, g, GetRetryCount(HeadersOf(d)), env)
  }

  /** A step followed by another, unless the first threw: then the second does not run. */
  function AndThen(s: Step, t: Step): Step {
    if s.thrown.Some? then s else Step(t.flags, s.events + t.events, t.thrown)
  }

  /** The three notifications of the catch block, in order, stopping at the first that
      throws. */
  function Notifications(c: Settings, f: Flags, g: Guid, next: Int32, env: Env): Step {
    var a := NotifyOnce(f, FailureNotice, g, 0, env);
    var b := AndThen(a, PartialRetryStep(a.flags, g, next, env));
    AndThen(b, RequeueThresholdStep(c, b.flags, g, next, env))
  }

  /** The catch block once the retry count has been read (or has thrown): the
      notifications, then the redelivery branch; a nack if any of them threw (the
      retry-limit notification excepted), an ack otherwise. */
  function AfterCount(c: Settings, f: Flags, d: Delivery, g: Guid, count: Result<Int32, Exn>, env: Env): Reaction
    requires count.Ok? ==> count.value >= 0
  {
    match count
    case Err(_) => Reaction(f, [Nacked(d.tag, true)])
    case Ok(current) =>
      var next := Wrap32(current + 1);
      var s := Notifications(c, f, g, next, env);
      var p := AndThen(s, RedeliverStep(c, s.flags, d, g, next, env));
      Reaction(p.flags, p.events + [if p.thrown.Some? then Nacked(d.tag, true) else Acked(d.tag)])
  }

  /** The flow id of a delivery: FlowIdProvider.CreateFromMessageId of its message id. */
  function FlowIdOf(d: Delivery, env: Env): Guid {
    CreateFlowId(MessageIdOf(d), env.parse)
  }

  /** HandleMessageAsync: nothing without a channel; otherwise ack and clear the flow's
      flags when processing succeeds, and the catch block when it throws. */
  function React(c: Settings, channelOpen: bool, f: Flags, d: Delivery, env: Env): Reaction {
    if !channelOpen then Reaction(f, [])
    else
      var g := FlowIdOf(d, env);
      if env.processFailure.None? then Reaction(Cleared(f, g), [Acked(d.tag)])
      else AfterFailure(c, f, d, g, env)
  }

  // ---------------------------------------------------------------- the consumer

  class Consumer {
    const settings: Settings
    /** Whether ExecuteAsync has opened the channel. */
    const channelOpen: bool
    var partialRetryNotified: set<Guid>
    var failureNotified: set<Guid>
    var requeueThresholdNotified: set<Guid>
    var retryLimitNotified: set<Guid>
    /** Everything the consumer has done at the broker and the notifier, in order. */
    var trace: seq<BrokerEvent>

    constructor (settings: Settings, channelOpen: bool)
      ensures this.settings == settings && this.channelOpen == channelOpen
      ensures CurrentFlags() == Flags({}, {}, {}, {}) && trace == []
    {
      this.settings := settings;
      this.channelOpen := channelOpen;
      partialRetryNotified, failureNotified, requeueThresholdNotified, retryLimitNotified := {}, {}, {}, {};
      trace := [];
    }

    function CurrentFlags(): Flags
      reads this
    {
      Flags(failureNotified, partialRetryNotified, requeueThresholdNotified, retryLimitNotified)
    }

    /** NotifyFailureOnce. */
    method NotifyFailureOnce(flowId: Guid, env: Env) returns (thrown: Option<Exn>)
      modifies this
      ensures var s := NotifyOnce(old(CurrentFlags()), FailureNotice, flowId, 0, env);
        CurrentFlags() == s.flags && trace == old(trace) + s.events && thrown == s.thrown
    {
      if flowId in failureNotified {
        return None;
      }
      failureNotified := failureNotified + {flowId};
      trace := trace + [Notified(FailureNotice, flowId, 0)];
      thrown := env.notifyFailure(FailureNotice);
    }

    /** NotifyPartialRetry. */
    method NotifyPartialRetry(flowId: Guid, attempt: Int32, env: Env) returns (thrown: Option<Exn>)
      modifies this
      ensures var s := PartialRetryStep(old(CurrentFlags()), flowId, attempt, env);
        CurrentFlags() == s.flags && trace == old(trace) + s.events && thrown == s.thrown
    {
      if attempt > 1 || flowId in partialRetryNotified {
        return None;
      }
      partialRetryNotified := partialRetryNotified + {flowId};
      trace := trace + [Notified(PartialRetryNotice, flowId, attempt)];
      thrown := env.notifyFailure(PartialRetryNotice);
    }

    /** NotifyRequeueThreshold. */
    method NotifyRequeueThreshold(flowId: Guid, attempt: Int32, env: Env) returns (thrown: Option<Exn>)
      modifies this
      ensures var s := RequeueThresholdStep(settings, old(CurrentFlags()), flowId, attempt, env);
        CurrentFlags() == s.flags && trace == old(trace) + s.events && thrown == s.thrown
    {
      if attempt < settings.requeueNotificationThreshold {
        return None;
      }
      if flowId in requeueThresholdNotified {
        return None;
      }
      requeueThresholdNotified := requeueThresholdNotified + {flowId};
      trace := trace + [Notified(RequeueThresholdNotice, flowId, attempt)];
      thrown := env.notifyFailure(RequeueThresholdNotice);
    }

    /** NotifyRetryLimitExceeded. */
    method NotifyRetryLimitExceeded(flowId: Guid, attempt: Int32, env: Env) returns (thrown: Option<Exn>)
      modifies this
      ensures var s := NotifyOnce(old(CurrentFlags()), RetryLimitNotice, flowId, attempt, env);
        CurrentFlags() == s.flags && trace == old(trace) + s.events && thrown == s.thrown
    {
      if flowId in retryLimitNotified {
        return None;
      }
      retryLimitNotified := retryLimitNotified + {flowId};
      trace := trace + [Notified(RetryLimitNotice, flowId, attempt)];
      thrown := env.notifyFailure(RetryLimitNotice);
    }

    /** BasicPublish of the copy of a delivery. */
    method Publish(queue: string, args: Delivery, flowId: Guid, retryCount: Int32, env: Env) returns (thrown: Option<Exn>)
      modifies this
      ensures var s := PublishStep(old(CurrentFlags()), queue, args, flowId, retryCount, env);
        CurrentFlags() == s.flags && trace == old(trace) + s.events && thrown == s.thrown
    {
      var properties := CopyForRedelivery(args.properties, flowId, retryCount);
      thrown := env.publishFailure(queue);
      if thrown.None? {
        trace := trace + [Published(queue, properties, args.body)];
      }
    }

    /** RepublishForRetry: the copy goes back to the consumer's own queue. */
    method RepublishForRetry(args: Delivery, flowId: Guid, retryCount: Int32, env: Env) returns (thrown: Option<Exn>)
      modifies this
      ensures var s := PublishStep(old(CurrentFlags()), settings.queueName, args, flowId, retryCount, env);
        CurrentFlags() == s.flags && trace == old(trace) + s.events && thrown == s.thrown
    {
      thrown := Publish(settings.queueName, args, flowId, retryCount, env);
    }

    /** HandleRetryLimitExceeded. */
    method HandleRetryLimitExceeded(args: Delivery, flowId: Guid, retryCount: Int32, env: Env) returns (thrown: Option<Exn>)
      modifies this
      ensures var s := RetryLimitStep(settings, old(CurrentFlags()), args, flowId, retryCount, env);
        CurrentFlags() == s.flags && trace == old(trace) + s.events && thrown == s.thrown
    {
      var notifyEx := NotifyRetryLimitExceeded(flowId, retryCount, env);
      thrown := None;
      if !IsNullOrWhiteSpace(settings.deadLetterQueueName) {
        thrown := Publish(settings.deadLetterQueueName.value, args, flowId, retryCount, env);
      }
    }

    /** The branch of the catch block on the next retry count. */
    method Redeliver(args: Delivery, flowId: Guid, nextRetryCount: Int32, env: Env) returns (thrown: Option<Exn>)
      modifies this
      ensures var s := RedeliverStep(settings, old(CurrentFlags()), args, flowId, nextRetryCount, env);
        CurrentFlags() == s.flags && trace == old(trace) + s.events && thrown == s.thrown
    {
      if nextRetryCount > settings.maxRetryAttempts {
        thrown := HandleRetryLimitExceeded(args, flowId, nextRetryCount, env);
      } else {
        thrown := RepublishForRetry(args, flowId, nextRetryCount, env);
      }
    }

    /** ClearNotificationState. */
    method ClearNotificationState(flowId: Guid)
      modifies this
      ensures CurrentFlags() == Cleared(old(CurrentFlags()), flowId) && trace == old(trace)
    {
      partialRetryNotified := partialRetryNotified - {flowId};
      failureNotified := failureNotified - {flowId};
      requeueThresholdNotified := requeueThresholdNotified - {flowId};
      retryLimitNotified := retryLimitNotified - {flowId};
    }

    /** HandleMessageAsync. */
    method HandleMessageAsync(args: Delivery, env: Env)
      modifies this
      ensures var r := React(settings, channelOpen, old(CurrentFlags()), args, env);
        CurrentFlags() == r.flags && trace == old(trace) + r.events
    {
      if !channelOpen {
        return;
      }
      var flowId := CreateFlowId(MessageIdOf(args), env.parse);
      if env.processFailure.None? {
        trace := trace + [Acked(args.tag)];
        ClearNotificationState(flowId);
        return;
      }
      var count := GetRetryCount(HeadersOf(args));
      HandleFailure(args, flowId, count, env);
    }

    /** The catch block of HandleMessageAsync. */
    method HandleFailure(args: Delivery, flowId: Guid, count: Result<Int32, Exn>, env: Env)
      requires count.Ok? ==> count.value >= 0
      modifies this
      ensures var r := AfterCount(settings, old(CurrentFlags()), args, flowId, count, env);
        CurrentFlags() == r.flags && trace == old(trace) + r.events
    {
      ghost var t0, f0 := trace, CurrentFlags();
      var nack := [Nacked(args.tag, true)];
      if count.Err? {
        trace := trace + nack;
        return;
      }
      var nextRetryCount := Wrap32(count.value + 1);
      var thrown := NotifyFailureOnce(flowId, env);
      ghost var a := NotifyOnce(f0, FailureNotice, flowId, 0, env);
      ghost var b := AndThen(a, PartialRetryStep(a.flags, flowId, nextRetryCount, env));
      ghost var n := AndThen(b, RequeueThresholdStep(settings, b.flags, flowId, nextRetryCount, env));
      ghost var p := AndThen(n, RedeliverStep(settings, n.flags, args, flowId, nextRetryCount, env));
      assert AfterCount(settings, f0, args, flowId, count, env) ==
        Reaction(p.flags, p.events + [if p.thrown.Some? then Nacked(args.tag, true) else Acked(args.tag)]);
      if thrown.Some? {
        assert p == a;
        trace := trace + nack;
        CaptureWorkflow.AppendAssoc(t0, p.events, nack);
        return;
      }
      thrown := NotifyPartialRetry(flowId, nextRetryCount, env);
      CaptureWorkflow.AppendAssoc(t0, a.events, PartialRetryStep(a.flags, flowId, nextRetryCount, env).events);
      assert trace == t0 + b.events;
      if thrown.Some? {
        assert p == b;
        trace := trace + nack;
        CaptureWorkflow.AppendAssoc(t0, p.events, nack);
        return;
      }
      thrown := NotifyRequeueThreshold(flowId, nextRetryCount, env);
      CaptureWorkflow.AppendAssoc(t0, b.events, RequeueThresholdStep(settings, b.flags, flowId, nextRetryCount, env).events);
      assert trace == t0 + n.events;
      if thrown.Some? {
        assert p == n;
        trace := trace + nack;
        CaptureWorkflow.AppendAssoc(t0, p.events, nack);
        return;
      }
      thrown := Redeliver(args, flowId, nextRetryCount, env);
      CaptureWorkflow.AppendAssoc(t0, n.events, RedeliverStep(settings, n.flags, args, flowId, nextRetryCount, env).events);
      assert trace == t0 + p.events;
      if thrown.Some? {
        trace := trace + nack;
        CaptureWorkflow.AppendAssoc(t0, p.events, nack);
        return;
      }
      trace := trace + [Acked(args.tag)];
      CaptureWorkflow.AppendAssoc(t0, p.events, [Acked(args.tag)]);
    }
  }

  // ---------------------------------------------------------------- properties

  predicate Settles(e: BrokerEvent) {
    e.Acked? || e.Nacked?
  }

  /** How many notifications of one kind for one flow a trace holds. */
  function NoticeCount(es: seq<BrokerEvent>, n: Notice, g: Guid): nat {
    if es == [] then 0
    else (if es[0].Notified? && es[0].notice == n && es[0].flowId == g then 1 else 0) + NoticeCount(es[1..], n, g)
  }

  lemma {:induction false} NoticeCountAppend(a: seq<BrokerEvent>, b: seq<BrokerEvent>, n: Notice, g: Guid)
    ensures NoticeCount(a + b, n, g) == NoticeCount(a, n, g) + NoticeCount(b, n, g)
  {
    if a != [] {
      assert (a + b)[1..] == a[1..] + b;
      NoticeCountAppend(a[1..], b, n, g);
    } else {
      assert a + b == b;
    }
  }

  /** Without a channel the handler does nothing at all: no ack, no nack, no flag. */
  lemma NoChannelNoEffect(c: Settings, f: Flags, d: Delivery, env: Env)
    ensures React(c, false, f, d, env) == Reaction(f, [])
  {
  }

  /** A successful ProcessAsync acks the delivery, publishes nothing, and clears the flow's
      four flags, leaving every other flow's flags as they were. */
  lemma SuccessAcksAndClears(c: Settings, f: Flags, d: Delivery, env: Env)
    requires env.processFailure.None?
    ensures var r, g := React(c, true, f, d, env), FlowIdOf(d, env);
      && r.events == [Acked(d.tag)]
      && forall n :: g !in Flagged(r.flags, n) && Flagged(r.flags, n) + {g} == Flagged(f, n) + {g}
  {
  }

  /** The events of a step that is not the settlement: notifications and publishes. */
  predicate Unsettled(es: seq<BrokerEvent>) {
    forall e | e in es :: !Settles(e)
  }

  predicate OnlyNotices(es: seq<BrokerEvent>) {
    forall e | e in es :: e.Notified?
  }

  /** The events of a step followed by another come from one of the two. */
  lemma AndThenEvents(s: Step, t: Step)
    ensures forall e | e in AndThen(s, t).events :: e in s.events || e in t.events
  {
  }

  /** The notifications of the catch block: each is for flow g, whose flag for it was not
      yet set; the partial-retry one carries a next count of at most one and the requeue
      one a next count from the threshold on; the retry-limit flags are untouched. */
  lemma NotificationsShape(c: Settings, f: Flags, g: Guid, next: Int32, env: Env)
    ensures var s := Notifications(c, f, g, next, env);
      && (forall e | e in s.events ::
            && e.Notified? && e.flowId == g && g !in Flagged(f, e.notice)
            && (e.notice == FailureNotice ==> e.attempt == 0)
            && (e.notice == PartialRetryNotice ==> e.attempt == next && next <= 1)
            && (e.notice == RequeueThresholdNotice ==> e.attempt == next && next >= c.requeueNotificationThreshold)
            && e.notice != RetryLimitNotice)
      && s.flags.retryLimit == f.retryLimit
  {
    var a := NotifyOnce(f, FailureNotice, g, 0, env);
    var pr := PartialRetryStep(a.flags, g, next, env);
    var b := AndThen(a, pr);
    var rq := RequeueThresholdStep(c, b.flags, g, next, env);
    AndThenEvents(a, pr);
    AndThenEvents(b, rq);
    assert a.events == [] || (a.events == [Notified(FailureNotice, g, 0)] && g !in f.failure);
    assert pr.events == [] || (pr.events == [Notified(PartialRetryNotice, g, next)] && next <= 1 && g !in f.partialRetry);
    assert rq.events == [] || (rq.events == [Notified(RequeueThresholdNotice, g, next)]
      && next >= c.requeueNotificationThreshold && g !in f.requeueThreshold);
  }

  /** When no notifier throws, each of the three notifications fires exactly when its
      condition holds and its flag was not yet set. */
  lemma NotificationsFire(c: Settings, f: Flags, g: Guid, next: Int32, env: Env)
    requires forall n :: env.notifyFailure(n).None?
    ensures var s := Notifications(c, f, g, next, env);
      && s.thrown.None? && s.flags.retryLimit == f.retryLimit
      && (Notified(FailureNotice, g, 0) in s.events <==> g !in f.failure)
      && (Notified(PartialRetryNotice, g, next) in s.events <==> next <= 1 && g !in f.partialRetry)
      && (Notified(RequeueThresholdNotice, g, next) in s.events <==>
            next >= c.requeueNotificationThreshold && g !in f.requeueThreshold)
      && Notified(RetryLimitNotice, g, next) !in s.events
  {
    var a := NotifyOnce(f, FailureNotice, g, 0, env);
    var pr := PartialRetryStep(a.flags, g, next, env);
    var b := AndThen(a, pr);
    var rq := RequeueThresholdStep(c, b.flags, g, next, env);
    assert b.events == a.events + pr.events;
    assert Notifications(c, f, g, next, env).events == a.events + pr.events + rq.events;
  }

  /** The notifications the redelivery branch can raise: only the retry-limit one. */
  lemma RedeliverFire(c: Settings, f: Flags, d: Delivery, g: Guid, next: Int32, env: Env)
    ensures var es := RedeliverStep(c, f, d, g, next, env).events;
      && Notified(FailureNotice, g, 0) !in es
      && Notified(PartialRetryNotice, g, next) !in es
      && Notified(RequeueThresholdNotice, g, next) !in es
      && (Notified(RetryLimitNotice, g, next) in es <==> next > c.maxRetryAttempts && g !in f.retryLimit)
  {
  }

  /** The redelivery branch: its only notification is the retry-limit one, past
      MaxRetryAttempts and only for a flow not yet flagged; it never acks or nacks; it
      publishes only the copy to the target queue, and only when that does not throw. */
  lemma RedeliverShape(c: Settings, f: Flags, d: Delivery, g: Guid, next: Int32, env: Env)
    ensures var p := RedeliverStep(c, f, d, g, next, env);
      && (forall e | e in p.events :: !Settles(e))
      && (forall e | e in p.events && e.Notified? ::
            e == Notified(RetryLimitNotice, g, next) && next > c.maxRetryAttempts && g !in f.retryLimit)
      && (forall e | e in p.events && e.Published? ::
            Target(c, next).Some? && e == Published(Target(c, next).value, CopyForRedelivery(d.properties, g, next), d.body))
      && (p.thrown.Some? ==> forall e | e in p.events :: !e.Published?)
      && (Notified(RetryLimitNotice, g, next) in p.events <==> next > c.maxRetryAttempts && g !in f.retryLimit)
  {
  }

  /** With a channel, every delivery is settled exactly once: the last event is its ack or
      its nack with requeue, and no event before it acks or nacks. */
  lemma SettledExactlyOnce(c: Settings, f: Flags, d: Delivery, env: Env)
    ensures var es := React(c, true, f, d, env).events;
      && |es| >= 1 && (es[|es| - 1] == Acked(d.tag) || es[|es| - 1] == Nacked(d.tag, true))
      && Unsettled(es[..|es| - 1])
  {
    if env.processFailure.Some? {
      var count := GetRetryCount(HeadersOf(d));
      AfterCountSettles(c, f, d, FlowIdOf(d, env), count, env);
    }
  }

  lemma AfterCountSettles(c: Settings, f: Flags, d: Delivery, g: Guid, count: Result<Int32, Exn>, env: Env)
    requires count.Ok? ==> count.value >= 0
    ensures var es := AfterCount(c, f, d, g, count, env).events;
      && |es| >= 1 && (es[|es| - 1] == Acked(d.tag) || es[|es| - 1] == Nacked(d.tag, true))
      && Unsettled(es[..|es| - 1])
  {
    if count.Ok? {
      var next := Wrap32(count.value + 1);
      var s := Notifications(c, f, g, next, env);
      var r := RedeliverStep(c, s.flags, d, g, next, env);
      var p := AndThen(s, r);
      NotificationsShape(c, f, g, next, env);
      RedeliverShape(c, s.flags, d, g, next, env);
      AndThenEvents(s, r);
      var es := AfterCount(c, f, d, g, count, env).events;
      assert es[..|es| - 1] == p.events;
    }
  }

  /** When the delivery is nacked nothing was published: the count stays as it was, and the
      broker redelivers the original. */
  lemma NackPublishesNothing(c: Settings, f: Flags, d: Delivery, env: Env)
    requires var es := React(c, true, f, d, env).events; es != [] && es[|es| - 1].Nacked?
    ensures forall e | e in React(c, true, f, d, env).events :: !e.Published?
  {
    var count := GetRetryCount(HeadersOf(d));
    AfterCountNackPublishesNothing(c, f, d, FlowIdOf(d, env), count, env);
  }

  lemma AfterCountNackPublishesNothing(c: Settings, f: Flags, d: Delivery, g: Guid, count: Result<Int32, Exn>, env: Env)
    requires count.Ok? ==> count.value >= 0
    ensures var es := AfterCount(c, f, d, g, count, env).events;
      es != [] && es[|es| - 1].Nacked? ==> forall e | e in es :: !e.Published?
  {
    if count.Ok? {
      var next := Wrap32(count.value + 1);
      var s := Notifications(c, f, g, next, env);
      var r := RedeliverStep(c, s.flags, d, g, next, env);
      NotificationsShape(c, f, g, next, env);
      RedeliverShape(c, s.flags, d, g, next, env);
      AndThenEvents(s, r);
    }
  }

  /** An unreadable count (an integral header beyond Int32) nacks the delivery before any
      notification: nothing else happens and no flag is set. */
  lemma UnreadableCountNacks(c: Settings, f: Flags, d: Delivery, env: Env)
    requires env.processFailure.Some? && GetRetryCount(HeadersOf(d)).Err?
    ensures React(c, true, f, d, env) == Reaction(f, [Nacked(d.tag, true)])
  {
  }

  /** Where the copy of a failed delivery goes for a next count: back to the queue within
      MaxRetryAttempts; past it to the dead-letter queue, or nowhere when that name is
      blank. */
  function Target(c: Settings, next: Int32): Option<string> {
    if next <= c.maxRetryAttempts then Some(c.queueName)
    else if IsNullOrWhiteSpace(c.deadLetterQueueName) then None
    else c.deadLetterQueueName
  }

  /** A failed delivery whose count reads as current, when no notifier and no publish
      throws: after the notifications, exactly one copy with count current + 1 (wrapped)
      goes to the target queue, if there is one, and the original is acked. */
  lemma FailureRoute(c: Settings, f: Flags, d: Delivery, env: Env, current: Int32)
    requires env.processFailure.Some? && GetRetryCount(HeadersOf(d)) == Ok(current)
    requires forall n :: env.notifyFailure(n).None?
    requires forall q :: env.publishFailure(q).None?
    ensures var next := Wrap32(current + 1);
      var routed := if Target(c, next).None? then []
        else [Published(Target(c, next).value, CopyForRedelivery(d.properties, FlowIdOf(d, env), next), d.body)];
      exists notices | OnlyNotices(notices) :: React(c, true, f, d, env).events == notices + routed + [Acked(d.tag)]
  {
    assert React(c, true, f, d, env) == AfterCount(c, f, d, FlowIdOf(d, env), Ok(current), env);
    AfterCountRoute(c, f, d, FlowIdOf(d, env), current, env);
  }

  lemma AfterCountRoute(c: Settings, f: Flags, d: Delivery, g: Guid, current: Int32, env: Env)
    requires current >= 0
    requires forall n :: env.notifyFailure(n).None?
    requires forall q :: env.publishFailure(q).None?
    ensures var next := Wrap32(current + 1);
      var routed := if Target(c, next).None? then []
        else [Published(Target(c, next).value, CopyForRedelivery(d.properties, g, next), d.body)];
      exists notices | OnlyNotices(notices) :: AfterCount(c, f, d, g, Ok(current), env).events == notices + routed + [Acked(d.tag)]
  {
    var next := Wrap32(current + 1);
    var s := Notifications(c, f, g, next, env);
    NotificationsShape(c, f, g, next, env);
    var more := RedeliverRoute(c, s.flags, d, g, next, env);
    var notices := s.events + more;
    var routed := if Target(c, next).None? then []
      else [Published(Target(c, next).value, CopyForRedelivery(d.properties, g, next), d.body)];
    assert OnlyNotices(notices);
    assert AfterCount(c, f, d, g, Ok(current), env).events == s.events + (more + routed) + [Acked(d.tag)];
    assert s.events + (more + routed) == notices + routed;
  }

  /** The redelivery branch, when no publish throws: its notifications, then the copy to
      the target queue, if there is one. */
  lemma RedeliverRoute(c: Settings, f: Flags, d: Delivery, g: Guid, next: Int32, env: Env) returns (notices: seq<BrokerEvent>)
    requires forall q :: env.publishFailure(q).None?
    ensures var p := RedeliverStep(c, f, d, g, next, env);
      var routed := if Target(c, next).None? then []
        else [Published(Target(c, next).value, CopyForRedelivery(d.properties, g, next), d.body)];
      OnlyNotices(notices) && p.thrown.None? && p.events == notices + routed
  {
    if next > c.maxRetryAttempts {
      notices := NotifyOnce(f, RetryLimitNotice, g, next, env).events;
    } else {
      notices := [];
    }
  }

  /** Which notifications a failed delivery of flow g raises, when no notifier throws: the
      failure notice unless already flagged; the partial-retry notice for a next count of at
      most one; the requeue notice from RequeueNotificationThreshold on; the retry-limit
      notice past MaxRetryAttempts; each with the next count, each only if not yet flagged. */
  lemma NoticesRaised(c: Settings, f: Flags, d: Delivery, env: Env, current: Int32)
    requires env.processFailure.Some? && GetRetryCount(HeadersOf(d)) == Ok(current)
    requires forall n :: env.notifyFailure(n).None?
    ensures var g, next := FlowIdOf(d, env), Wrap32(current + 1);
      var es := React(c, true, f, d, env).events;
      && (Notified(FailureNotice, g, 0) in es <==> g !in f.failure)
      && (Notified(PartialRetryNotice, g, next) in es <==> next <= 1 && g !in f.partialRetry)
      && (Notified(RequeueThresholdNotice, g, next) in es <==>
            next >= c.requeueNotificationThreshold && g !in f.requeueThreshold)
      && (Notified(RetryLimitNotice, g, next) in es <==> next > c.maxRetryAttempts && g !in f.retryLimit)
  {
    assert React(c, true, f, d, env) == AfterCount(c, f, d, FlowIdOf(d, env), Ok(current), env);
    AfterCountNotices(c, f, d, FlowIdOf(d, env), current, env);
  }

  lemma AfterCountNotices(c: Settings, f: Flags, d: Delivery, g: Guid, current: Int32, env: Env)
    requires current >= 0
    requires forall n :: env.notifyFailure(n).None?
    ensures var next := Wrap32(current + 1);
      var es := AfterCount(c, f, d, g, Ok(current), env).events;
      && (Notified(FailureNotice, g, 0) in es <==> g !in f.failure)
      && (Notified(PartialRetryNotice, g, next) in es <==> next <= 1 && g !in f.partialRetry)
      && (Notified(RequeueThresholdNotice, g, next) in es <==>
            next >= c.requeueNotificationThreshold && g !in f.requeueThreshold)
      && (Notified(RetryLimitNotice, g, next) in es <==> next > c.maxRetryAttempts && g !in f.retryLimit)
  {
    var next := Wrap32(current + 1);
    var s := Notifications(c, f, g, next, env);
    var p := RedeliverStep(c, s.flags, d, g, next, env);
    NotificationsFire(c, f, g, next, env);
    RedeliverFire(c, s.flags, d, g, next, env);
    var last := if p.thrown.Some? then Nacked(d.tag, true) else Acked(d.tag);
    AfterCountEvents(c, f, d, g, current, env);
    var es := AfterCount(c, f, d, g, Ok(current), env).events;
    NoticeInThree(es, s.events, p.events, last, Notified(FailureNotice, g, 0));
    NoticeInThree(es, s.events, p.events, last, Notified(PartialRetryNotice, g, next));
    NoticeInThree(es, s.events, p.events, last, Notified(RequeueThresholdNotice, g, next));
    NoticeInThree(es, s.events, p.events, last, Notified(RetryLimitNotice, g, next));
  }

  /** The events of a catch block whose notifications did not throw: the notifications,
      the redelivery, the settlement. */
  lemma AfterCountEvents(c: Settings, f: Flags, d: Delivery, g: Guid, current: Int32, env: Env)
    requires current >= 0
    requires Notifications(c, f, g, Wrap32(current + 1), env).thrown.None?
    ensures var next := Wrap32(current + 1);
      var s := Notifications(c, f, g, next, env);
      var p := RedeliverStep(c, s.flags, d, g, next, env);
      AfterCount(c, f, d, g, Ok(current), env).events
        == s.events + p.events + [if p.thrown.Some? then Nacked(d.tag, true) else Acked(d.tag)]
  {
  }

  lemma NoticeInThree(es: seq<BrokerEvent>, a: seq<BrokerEvent>, b: seq<BrokerEvent>, last: BrokerEvent, x: BrokerEvent)
    requires es == a + b + [last] && x.Notified? && !last.Notified?
    ensures x in es <==> x in a || x in b
  {
  }

  /** Every notification a delivery raises is for its own flow, whose flag for that notice
      was not yet set, and respects the notice's condition on the next count. */
  lemma NoticeConditions(c: Settings, f: Flags, d: Delivery, env: Env)
    ensures forall e | e in React(c, true, f, d, env).events && e.Notified? ::
      && e.flowId == FlowIdOf(d, env) && e.flowId !in Flagged(f, e.notice)
      && (e.notice == PartialRetryNotice ==> e.attempt <= 1)
      && (e.notice == RequeueThresholdNotice ==> e.attempt >= c.requeueNotificationThreshold)
      && (e.notice == RetryLimitNotice ==> e.attempt > c.maxRetryAttempts)
  {
    if env.processFailure.Some? {
      var count := GetRetryCount(HeadersOf(d));
      assert React(c, true, f, d, env) == AfterCount(c, f, d, FlowIdOf(d, env), count, env);
      if count.Ok? {
        AfterCountConditions(c, f, d, FlowIdOf(d, env), count.value, env);
      }
    }
  }

  lemma AfterCountConditions(c: Settings, f: Flags, d: Delivery, g: Guid, current: Int32, env: Env)
    requires current >= 0
    ensures forall e | e in AfterCount(c, f, d, g, Ok(current), env).events && e.Notified? ::
      && e.flowId == g && e.flowId !in Flagged(f, e.notice)
      && (e.notice == PartialRetryNotice ==> e.attempt <= 1)
      && (e.notice == RequeueThresholdNotice ==> e.attempt >= c.requeueNotificationThreshold)
      && (e.notice == RetryLimitNotice ==> e.attempt > c.maxRetryAttempts)
  {
    var next := Wrap32(current + 1);
    var s := Notifications(c, f, g, next, env);
    var r := RedeliverStep(c, s.flags, d, g, next, env);
    NotificationsShape(c, f, g, next, env);
    RedeliverShape(c, s.flags, d, g, next, env);
    AndThenEvents(s, r);
  }

  // ---------------------------------------------------------------- notify once

  /** What the flags promise about one notice and one flow over a stretch of events: at
      most one notification, none if the flow was flagged at the start, the flag set once
      it has been sent, and a set flag kept. */
  predicate Accounts(prev: Flags, next: Flags, es: seq<BrokerEvent>, n: Notice, g: Guid) {
    && NoticeCount(es, n, g) <= (if g in Flagged(prev, n) then 0 else 1)
    && (NoticeCount(es, n, g) == 1 ==> g in Flagged(next, n))
    && (g in Flagged(prev, n) ==> g in Flagged(next, n))
  }

  lemma AccountsCompose(p0: Flags, p1: Flags, p2: Flags, e1: seq<BrokerEvent>, e2: seq<BrokerEvent>, n: Notice, g: Guid)
    requires Accounts(p0, p1, e1, n, g) && Accounts(p1, p2, e2, n, g)
    ensures Accounts(p0, p2, e1 + e2, n, g)
  {
    NoticeCountAppend(e1, e2, n, g);
  }

  /** Events that are not notifications count for nothing. */
  lemma NoNotices(es: seq<BrokerEvent>, n: Notice, g: Guid)
    requires forall e | e in es :: !e.Notified?
    ensures NoticeCount(es, n, g) == 0
  {
    if es != [] {
      assert es[0] in es;
      assert forall e | e in es[1..] :: e in es;
      NoNotices(es[1..], n, g);
    }
  }

  lemma NotifyOnceAccounts(f: Flags, n0: Notice, g0: Guid, attempt: int, env: Env, n: Notice, g: Guid)
    ensures var s := NotifyOnce(f, n0, g0, attempt, env); Accounts(f, s.flags, s.events, n, g)
  {
    var s := NotifyOnce(f, n0, g0, attempt, env);
    assert NoticeCount(s.events, n, g) == if s.events != [] && n == n0 && g == g0 then 1 else 0 by {
      if s.events != [] {
        assert s.events[1..] == [];
      }
    }
  }

  lemma PublishAccounts(f: Flags, queue: string, d: Delivery, g0: Guid, retryCount: Int32, env: Env, n: Notice, g: Guid)
    ensures var s := PublishStep(f, queue, d, g0, retryCount, env); Accounts(f, s.flags, s.events, n, g)
  {
    NoNotices(PublishStep(f, queue, d, g0, retryCount, env).events, n, g);
  }

  lemma AndThenAccounts(prev: Flags, s: Step, t: Step, n: Notice, g: Guid)
    requires Accounts(prev, s.flags, s.events, n, g) && Accounts(s.flags, t.flags, t.events, n, g)
    ensures var r := AndThen(s, t); Accounts(prev, r.flags, r.events, n, g)
  {
    if s.thrown.None? {
      AccountsCompose(prev, s.flags, t.flags, s.events, t.events, n, g);
    }
  }

  lemma NotificationsAccounts(c: Settings, f: Flags, g0: Guid, next: Int32, env: Env, n: Notice, g: Guid)
    ensures var s := Notifications(c, f, g0, next, env); Accounts(f, s.flags, s.events, n, g)
  {
    var a := NotifyOnce(f, FailureNotice, g0, 0, env);
    NotifyOnceAccounts(f, FailureNotice, g0, 0, env, n, g);
    var pr := PartialRetryStep(a.flags, g0, next, env);
    NotifyOnceAccounts(a.flags, PartialRetryNotice, g0, next, env, n, g);
    assert Accounts(a.flags, pr.flags, pr.events, n, g);
    AndThenAccounts(f, a, pr, n, g);
    var b := AndThen(a, pr);
    var rq := RequeueThresholdStep(c, b.flags, g0, next, env);
    NotifyOnceAccounts(b.flags, RequeueThresholdNotice, g0, next, env, n, g);
    assert Accounts(b.flags, rq.flags, rq.events, n, g);
    AndThenAccounts(f, b, rq, n, g);
  }

  lemma RedeliverAccounts(c: Settings, f: Flags, d: Delivery, g0: Guid, next: Int32, env: Env, n: Notice, g: Guid)
    ensures var p := RedeliverStep(c, f, d, g0, next, env); Accounts(f, p.flags, p.events, n, g)
  {
    if next > c.maxRetryAttempts {
      var notified := NotifyOnce(f, RetryLimitNotice, g0, next, env);
      NotifyOnceAccounts(f, RetryLimitNotice, g0, next, env, n, g);
      if !IsNullOrWhiteSpace(c.deadLetterQueueName) {
        var published := PublishStep(notified.flags, c.deadLetterQueueName.value, d, g0, next, env);
        PublishAccounts(notified.flags, c.deadLetterQueueName.value, d, g0, next, env, n, g);
        AccountsCompose(f, notified.flags, published.flags, notified.events, published.events, n, g);
      }
    } else {
      PublishAccounts(f, c.queueName, d, g0, next, env, n, g);
    }
  }

  lemma AfterCountAccounts(c: Settings, f: Flags, d: Delivery, g0: Guid, count: Result<Int32, Exn>, env: Env, n: Notice, g: Guid)
    requires count.Ok? ==> count.value >= 0
    ensures var r := AfterCount(c, f, d, g0, count, env); Accounts(f, r.flags, r.events, n, g)
  {
    var r := AfterCount(c, f, d, g0, count, env);
    if count.Err? {
      NoNotices(r.events, n, g);
    } else {
      var next := Wrap32(count.value + 1);
      var s := Notifications(c, f, g0, next, env);
      NotificationsAccounts(c, f, g0, next, env, n, g);
      var t := RedeliverStep(c, s.flags, d, g0, next, env);
      RedeliverAccounts(c, s.flags, d, g0, next, env, n, g);
      AndThenAccounts(f, s, t, n, g);
      var p := AndThen(s, t);
      var last := [if p.thrown.Some? then Nacked(d.tag, true) else Acked(d.tag)];
      NoNotices(last, n, g);
      AccountsCompose(f, p.flags, p.flags, p.events, last, n, g);
    }
  }

  /** One delivery keeps the accounts of every notice and flow, except that a success of
      the flow itself clears its flags. */
  lemma ReactAccounts(c: Settings, channelOpen: bool, f: Flags, d: Delivery, env: Env, n: Notice, g: Guid)
    requires !(channelOpen && env.processFailure.None? && FlowIdOf(d, env) == g)
    ensures var r := React(c, channelOpen, f, d, env); Accounts(f, r.flags, r.events, n, g)
  {
    var r := React(c, channelOpen, f, d, env);
    if channelOpen {
      if env.processFailure.None? {
        NoNotices(r.events, n, g);
      } else {
        AfterCountAccounts(c, f, d, FlowIdOf(d, env), GetRetryCount(HeadersOf(d)), env, n, g);
      }
    } else {
      NoNotices(r.events, n, g);
    }
  }

  /** A delivery together with what the collaborators answer while it is handled. */
  datatype Arrival = Arrival(delivery: Delivery, env: Env)

  /** Deliveries handled one after the other by one consumer. */
  function Run(c: Settings, channelOpen: bool, f: Flags, xs: seq<Arrival>): Reaction
    decreases |xs|
  {
    if xs == [] then Reaction(f, [])
    else
      var r := React(c, channelOpen, f, xs[0].delivery, xs[0].env);
      var rest := Run(c, channelOpen, r.flags, xs[1..]);
      Reaction(rest.flags, r.events + rest.events)
  }

  /** Notify once: over any sequence of deliveries in which flow g never succeeds, each of
      the four notifications is sent for g at most once, and not at all if g was already
      flagged for it; once sent, the flag stays set. */
  lemma NotifiedAtMostOnce(c: Settings, channelOpen: bool, f: Flags, xs: seq<Arrival>, n: Notice, g: Guid)
    requires forall i | 0 <= i < |xs| ::
      !(channelOpen && xs[i].env.processFailure.None? && FlowIdOf(xs[i].delivery, xs[i].env) == g)
    ensures var r := Run(c, channelOpen, f, xs);
      && NoticeCount(r.events, n, g) <= (if g in Flagged(f, n) then 0 else 1)
      && (NoticeCount(r.events, n, g) == 1 ==> g in Flagged(r.flags, n))
  {
    RunAccounts(c, channelOpen, f, xs, n, g);
  }

  lemma {:induction false} RunAccounts(c: Settings, channelOpen: bool, f: Flags, xs: seq<Arrival>, n: Notice, g: Guid)
    requires forall i | 0 <= i < |xs| ::
      !(channelOpen && xs[i].env.processFailure.None? && FlowIdOf(xs[i].delivery, xs[i].env) == g)
    ensures var r := Run(c, channelOpen, f, xs); Accounts(f, r.flags, r.events, n, g)
    decreases |xs|
  {
    if xs != [] {
      var r := React(c, channelOpen, f, xs[0].delivery, xs[0].env);
      ReactAccounts(c, channelOpen, f, xs[0].delivery, xs[0].env, n, g);
      var rest := Run(c, channelOpen, r.flags, xs[1..]);
      assert forall i | 0 <= i < |xs[1..]| :: xs[1..][i] == xs[i + 1];
      RunAccounts(c, channelOpen, r.flags, xs[1..], n, g);
      AccountsCompose(f, r.flags, rest.flags, r.events, rest.events, n, g);
    }
  }

  // ---------------------------------------------------------------- copies and counts

  /** The copy keeps the twelve plain properties and every header of the original but the
      two it overwrites, writes x-retry-count and FlowId, and takes the flow id as message
      id only when the original had none. */
  lemma CopyCarriesOver(source: Option<BasicProperties>, g: Guid, k: Int32)
    ensures var p, base := CopyForRedelivery(source, g, k), if source.Some? then source.value else FreshProperties;
      var original: Headers := if base.headers.Some? then base.headers.value else map[];
      && p.(messageId := base.messageId, headers := base.headers) == base
      && p.messageId == (if base.messageId.Some? then base.messageId else Some(FormatD(g)))
      && p.headers.value.Keys == original.Keys + {RetryCountHeader, FlowIdHeader}
      && p.headers.value[RetryCountHeader] == Integral(k)
      && p.headers.value[FlowIdHeader] == Text(FormatD(g))
      && forall key | key in original && key != RetryCountHeader && key != FlowIdHeader ::
           p.headers.value[key] == original[key]
  {
  }

  /** The count written into a copy is the count read from it, clamped at zero. */
  lemma CountReadBack(source: Option<BasicProperties>, g: Guid, k: Int32)
    ensures GetRetryCount(CopyForRedelivery(source, g, k).headers) == Ok(Max(0, k))
  {
    var h := CopyForRedelivery(source, g, k).headers;
    assert h.value[RetryCountHeader] == Integral(k);
  }

  /** The copy of a delivery is read as the same flow as the original, provided
      Guid.TryParse reads back the text of Guid.Empty: the flow id of a delivery without a
      message id is Guid.Empty, and that text becomes the copy's message id. */
  lemma FlowIdSurvivesCopy(d: Delivery, env: Env, k: Int32)
    requires env.parse(FormatD(EmptyGuid)) == Some(EmptyGuid)
    ensures var g := FlowIdOf(d, env);
      CreateFlowId(CopyForRedelivery(d.properties, g, k).messageId, env.parse) == g
  {
    var g := FlowIdOf(d, env);
    if MessageIdOf(d).None? {
      var t := FormatD(EmptyGuid);
      FormatDShape(EmptyGuid);
      assert t[0] == t[..8][0] == FormatN(EmptyGuid)[0];
      assert !IsWhiteSpace(t[0]);
    }
  }

  /** The copies a failed delivery publishes carry the next count, read back as such by the
      next delivery (a next count that wrapped to Int32.MinValue reads back as zero), the
      same flow id and the same body. */
  lemma CopiesCarryNextCount(c: Settings, f: Flags, d: Delivery, env: Env, current: Int32)
    requires env.processFailure.Some? && GetRetryCount(HeadersOf(d)) == Ok(current)
    requires env.parse(FormatD(EmptyGuid)) == Some(EmptyGuid)
    ensures forall e | e in React(c, true, f, d, env).events && e.Published? ::
      && GetRetryCount(e.properties.headers) == Ok(if current < Int32Max then current + 1 else 0)
      && CreateFlowId(e.properties.messageId, env.parse) == FlowIdOf(d, env)
      && e.body == d.body
  {
    var g := FlowIdOf(d, env);
    var next := Wrap32(current + 1);
    assert React(c, true, f, d, env) == AfterCount(c, f, d, g, Ok(current), env);
    AfterCountPublishes(c, f, d, g, current, env);
    CountReadBack(d.properties, g, next);
    FlowIdSurvivesCopy(d, env, next);
  }

  /** The only publish of the catch block is the copy with the next count. */
  lemma AfterCountPublishes(c: Settings, f: Flags, d: Delivery, g: Guid, current: Int32, env: Env)
    requires current >= 0
    ensures var next := Wrap32(current + 1);
      forall e | e in AfterCount(c, f, d, g, Ok(current), env).events && e.Published? ::
        e.properties == CopyForRedelivery(d.properties, g, next) && e.body == d.body
  {
    var next := Wrap32(current + 1);
    var s := Notifications(c, f, g, next, env);
    var r := RedeliverStep(c, s.flags, d, g, next, env);
    NotificationsShape(c, f, g, next, env);
    RedeliverShape(c, s.flags, d, g, next, env);
    AndThenEvents(s, r);
  }

  /** Without x-retry-count, a readable x-delivery-count of n counts n - 1 retries: the
      first delivery of a quorum queue (count 1) is not a retry. */
  lemma DeliveryCountOffset(h: Headers, n: int)
    requires RetryCountHeader !in h && DeliveryCountHeader in h && h[DeliveryCountHeader] == Integral(n)
    requires 1 <= n <= Int32Max
    ensures GetRetryCount(Some(h)) == Ok(n - 1)
  {
    assert TryGetHeaderInt(Some(h), DeliveryCountHeader) == Ok(Some(n));
  }

  /** x-retry-count wins over x-delivery-count whenever it is readable, and a negative one
      reads as zero. */
  lemma RetryHeaderFirst(h: Headers, n: int)
    requires RetryCountHeader in h && h[RetryCountHeader] == Integral(n) && Int32Min <= n <= Int32Max
    ensures GetRetryCount(Some(h)) == Ok(if n < 0 then 0 else n)
  {
    assert TryGetHeaderInt(Some(h), RetryCountHeader) == Ok(Some(n));
  }

  /** An x-retry-count that is not a number (a null, an unparseable text, a value of another
      type) is as if it were absent: the count falls back to x-delivery-count. */
  lemma UnreadableRetryHeaderIgnored(h: Headers)
    requires RetryCountHeader in h
    requires h[RetryCountHeader].NullValue? || h[RetryCountHeader].OtherValue?
      || (h[RetryCountHeader].Text? && ParseInt32(h[RetryCountHeader].text).Err?)
      || (h[RetryCountHeader].Utf8Bytes? && ParseInt32(h[RetryCountHeader].decoded).Err?)
    ensures GetRetryCount(Some(h)) == GetRetryCount(Some(h - {RetryCountHeader}))
  {
    var rest := h - {RetryCountHeader};
    assert TryGetHeaderInt(Some(h), RetryCountHeader) == Ok(None);
    assert TryGetHeaderInt(Some(rest), RetryCountHeader) == Ok(None);
    assert TryGetHeaderInt(Some(h), DeliveryCountHeader) == TryGetHeaderInt(Some(rest), DeliveryCountHeader);
  }

  /** An integral x-retry-count beyond Int32 makes Convert.ToInt32 throw, whatever
      x-delivery-count says. */
  lemma OverflowingRetryHeader(h: Headers, n: int)
    requires RetryCountHeader in h && h[RetryCountHeader] == Integral(n) && !(Int32Min <= n <= Int32Max)
    ensures GetRetryCount(Some(h)) == Err(Overflow)
  {
    assert TryGetHeaderInt(Some(h), RetryCountHeader) == Err(Overflow);
  }

  /** The unchecked arithmetic at the edges: an x-delivery-count of Int32.MinValue reads
      as Int32.MaxValue retries, and a count of Int32.MaxValue gives a next count of
      Int32.MinValue, which is within MaxRetryAttempts, so the message is republished to
      its queue, and its copy reads as zero retries. */
  lemma CountWrapsAtEdges(c: Settings, source: Option<BasicProperties>, g: Guid)
    ensures GetRetryCount(Some(map[DeliveryCountHeader := Integral(Int32Min)])) == Ok(Int32Max)
    ensures Wrap32(Int32Max + 1) == Int32Min
    ensures Target(c, Int32Min) == Some(c.queueName)
    ensures GetRetryCount(CopyForRedelivery(source, g, Int32Min).headers) == Ok(0)
  {
    var h := map[DeliveryCountHeader := Integral(Int32Min)];
    assert TryGetHeaderInt(Some(h), RetryCountHeader) == Ok(None);
    assert TryGetHeaderInt(Some(h), DeliveryCountHeader) == Ok(Some(Int32Min));
    CountReadBack(source, g, Int32Min);
  }
}
