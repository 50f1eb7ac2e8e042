/**
  The instrumented AMQP 0-9-1 channel session (channel.go), the acknowledger
  it installs on every delivery (acknowledger.go) and `ContextFromDelivery`
  (context.go).

  The broker client is an oracle (`Broker`): every call it receives and every
  reply it gives is appended to its log, and its replies are arbitrary. The
  channel's mutex-protected sections are atomic method bodies.
*/
module Amqp091Otel {
  import opened Wrappers
  import opened Trace
  import opened Registry
  import Carrier
  import Names

  const NetProtocolVersion := "0.9.1"
  const MessageSystem := "rabbitmq"
  const AmqpLibName := "github.com/rabbitmq/amqp091-go"

  /** The statuses the three acknowledgement operations give the spans they resolve. */
  const AckStatus := Status(Ok, "")
  const NackStatus := Status(Error, "nack")
  const RejectStatus := Status(Error, "reject")

  /** A parsed broker URI. */
  datatype Uri = Uri(scheme: string, host: string, port: int, username: string, password: string, vhost: string)

  /** An outbound message, with the fields the instrumentation reads. */
  datatype Publishing = Publishing(headers: Carrier.Table?, correlationId: string, messageId: string, body: seq<bv8>)

  /** What a publish returns besides its error; nil outside confirm mode. */
  datatype Confirmation = NoConfirmation | Deferred(deliveryTag: Tag)

  /** The acknowledgement primitive a delivery carries: none, the broker channel's own, or this package's. */
  datatype AckerHandle = NoAcker | BrokerAcker(broker: Broker) | Instrumented(acknowledger: Acknowledger)

  /** An inbound message, with the fields the instrumentation reads. */
  datatype Delivery = Delivery(
    acknowledger: AckerHandle,
    headers: Carrier.Table?,
    correlationId: string,
    messageId: string,
    deliveryTag: Tag,
    exchange: string,
    routingKey: string,
    body: seq<bv8>)

  /** The broker calls the package makes, with their arguments. */
  datatype Request =
    | AckRequest(tag: Tag, multiple: bool)
    | NackRequest(tag: Tag, multiple: bool, requeue: bool)
    | RejectRequest(tag: Tag, requeue: bool)
    | PublishRequest(ctx: Context, exchange: string, key: string, mandatory: bool, immediate: bool,
                     msg: Publishing, sentHeaders: map<string, Carrier.Value>)
    | GetRequest(queue: string, autoAck: bool)
    | ConsumeRequest(queue: string, consumer: string, autoAck: bool, exclusive: bool, noLocal: bool,
                     noWait: bool, args: Carrier.Table?)

  datatype Reply =
    | AckReply(err: Option<Err>)
    | PublishReply(confirmation: Confirmation, err: Option<Err>)
    | GetReply(msg: Delivery, ok: bool, err: Option<Err>)
    | ConsumeReply(deliveries: seq<Delivery>, err: Option<Err>)

  /**
    The broker channel (`amqp091.Channel`), an oracle. Deliveries it hands out
    carry the channel itself as their acknowledger. A consumer's delivery feed
    is the finite sequence of deliveries it yields before it closes.
  */
  class Broker {
    var log: seq<(Request, Reply)>

    constructor ()
      ensures log == []
    {
      log := [];
    }

    method Ack(tag: Tag, multiple: bool) returns (err: Option<Err>)
      modifies this
      ensures log == old(log) + [(AckRequest(tag, multiple), AckReply(err))]
    {
      err :| true;
      log := log + [(AckRequest(tag, multiple), AckReply(err))];
    }

    method Nack(tag: Tag, multiple: bool, requeue: bool) returns (err: Option<Err>)
      modifies this
      ensures log == old(log) + [(NackRequest(tag, multiple, requeue), AckReply(err))]
    {
      err :| true;
      log := log + [(NackRequest(tag, multiple, requeue), AckReply(err))];
    }

    method Reject(tag: Tag, requeue: bool) returns (err: Option<Err>)
      modifies this
      ensures log == old(log) + [(RejectRequest(tag, requeue), AckReply(err))]
    {
      err :| true;
      log := log + [(RejectRequest(tag, requeue), AckReply(err))];
    }

    /** Publishing reads the message's header table at the moment of the call. */
    method Publish(ctx: Context, exchange: string, key: string, mandatory: bool, immediate: bool, msg: Publishing)
      returns (confirmation: Confirmation, err: Option<Err>)
      modifies this
      ensures log == old(log) + [(PublishRequest(ctx, exchange, key, mandatory, immediate, msg, Carrier.Entries(msg.headers)),
                                  PublishReply(confirmation, err))]
    {
      confirmation, err :| true;
      log := log + [(PublishRequest(ctx, exchange, key, mandatory, immediate, msg, Carrier.Entries(msg.headers)),
                     PublishReply(confirmation, err))];
    }

    method Get(queue: string, autoAck: bool) returns (msg: Delivery, ok: bool, err: Option<Err>)
      modifies this
      ensures log == old(log) + [(GetRequest(queue, autoAck), GetReply(msg, ok, err))]
      ensures ok && err.None? ==> msg.acknowledger == BrokerAcker(this)
    {
      var sample := Delivery(BrokerAcker(this), null, "", "", 0, "", "", []);
      assert sample.acknowledger == BrokerAcker(this);
      msg, ok, err :| ok && err.None? ==> msg.acknowledger == BrokerAcker(this);
      log := log + [(GetRequest(queue, autoAck), GetReply(msg, ok, err))];
    }

    method Consume(queue: string, consumer: string, autoAck: bool, exclusive: bool, noLocal: bool, noWait: bool,
                   args: Carrier.Table?)
      returns (deliveries: seq<Delivery>, err: Option<Err>)
      modifies this
      ensures log == old(log) + [(ConsumeRequest(queue, consumer, autoAck, exclusive, noLocal, noWait, args),
                                  ConsumeReply(deliveries, err))]
      ensures forall i :: 0 <= i < |deliveries| ==> deliveries[i].acknowledger == BrokerAcker(this)
    {
      var none: seq<Delivery> := [];
      assert forall i :: 0 <= i < |none| ==> none[i].acknowledger == BrokerAcker(this);
      deliveries, err :| forall i :: 0 <= i < |deliveries| ==> deliveries[i].acknowledger == BrokerAcker(this);
      log := log + [(ConsumeRequest(queue, consumer, autoAck, exclusive, noLocal, noWait, args),
                     ConsumeReply(deliveries, err))];
    }
  }

  /** The effect of one acknowledgement on the registry and on the tracer's spans, as a function. */
  function AfterResolution(m: SpanMap, spans: seq<SpanData>, bound: SpanId, tag: Tag, multiple: bool,
                           status: Status, err: Option<Err>): (SpanMap, seq<SpanData>)
  {
    if multiple then (Outstanding(m, tag), ResolveAll(spans, ResolvedSpans(m, tag), status, err))
    else (m - {tag}, ResolveAll(spans, {bound}, status, err))
  }

  /**
    What a `multiple` resolution up to `tag` guarantees: it removes exactly the
    entries with tags <= tag, leaving the others as they were and the registry
    injective; it resolves the span of every entry it removes, and no other
    span, so it ends as many spans as it removes entries.
  */
  lemma MultipleResolutionFrame(m: SpanMap, spans: seq<SpanData>, bound: SpanId, tag: Tag, status: Status, err: Option<Err>)
    requires Injective(m) && forall t :: t in m ==> m[t] < |spans|
    ensures var r := AfterResolution(m, spans, bound, tag, true, status, err);
      && |r.1| == |spans|
      && Injective(r.0)
      && (forall t :: t in r.0 <==> t in m && tag < t)
      && (forall t :: t in r.0 ==> r.0[t] == m[t] && r.1[m[t]] == spans[m[t]])
      && (forall t :: t in m && t <= tag ==> r.1[m[t]] == Resolve(spans[m[t]], status, err))
      && (forall i :: 0 <= i < |spans| && r.1[i] != spans[i] ==> exists t :: t in m && t <= tag && m[t] == i)
      && |m| - |r.0| == |ResolvedSpans(m, tag)|
  {
    RemovalKeepsInjective(m, tag, tag);
    ResolvedSpansCount(m, tag);
  }

  /**
    What a single resolution of `tag` by the acknowledger of span `bound`
    guarantees: it removes at most the entry for `tag`, and it resolves the
    acknowledger's own span and no other.
  */
  lemma SingleResolutionFrame(m: SpanMap, spans: seq<SpanData>, bound: SpanId, tag: Tag, status: Status, err: Option<Err>)
    requires bound < |spans|
    ensures var r := AfterResolution(m, spans, bound, tag, false, status, err);
      && |r.1| == |spans|
      && (Injective(m) ==> Injective(r.0))
      && r.0.Keys == m.Keys - {tag}
      && (forall t :: t in r.0 ==> r.0[t] == m[t])
      && |m| - |r.0| == (if tag in m then 1 else 0)
      && r.1 == spans[bound := Resolve(spans[bound], status, err)]
  {
    RemoveOne(m, tag);
    ResolveOne(spans, bound, status, err);
    if Injective(m) {
      RemovalKeepsInjective(m, tag, tag);
    }
  }

  /**
    The scenario of deliveries 1, 2 and 3 followed by a multiple negative
    acknowledgement of 2 (without requeue, which the spans do not record) that
    the broker answers with the error "some error": the spans of 1 and 2 are
    ended with status error/"nack" and one error event each, and delivery 3
    stays registered with its span open.
  */
  lemma NackMultipleScenario(spans: seq<SpanData>)
    requires |spans| == 3 && forall i :: 0 <= i < 3 ==> !spans[i].ended && spans[i].events == []
    ensures var registry: SpanMap := map[1 := 0, 2 := 1, 3 := 2];
      var (m', s') := AfterResolution(registry, spans, 1, 2, true, NackStatus, Some(Err("some error")));
      && m' == map[3 := 2]
      && s'[0].ended && s'[0].status == NackStatus && s'[0].events == [Err("some error")]
      && s'[1].ended && s'[1].status == NackStatus && s'[1].events == [Err("some error")]
      && s'[2] == spans[2] && !s'[2].ended
  {
    var registry: SpanMap := map[1 := 0, 2 := 1, 3 := 2];
    assert ResolvedTags(registry, 2) == {1, 2};
    assert ResolvedSpans(registry, 2) == {0, 1};
  }

  /**
    The acknowledger installed on every instrumented delivery: the channel, the
    acknowledgement primitive it forwards to (`acker`; null is Go's nil
    interface), the context in which the delivery's span was started, and that
    span. It never changes once installed.
  */
  datatype Acknowledger = Acknowledger(ch: Channel, acker: Broker?, ctx: Context, span: SpanId)
  {
    ghost predicate Valid()
      reads ch, ch.tracer
    {
      ch.Valid() && span < |ch.tracer.spans|
    }

    /** Forwarding calls a method on `acker`, which panics when it is nil. */
    predicate CanForward()
    {
      acker != null
    }

    /** Accept `tag` (and, with `multiple`, every earlier outstanding tag). */
    method Ack(tag: Tag, multiple: bool) returns (err: Option<Err>)
      requires CanForward() && Valid()
      modifies acker, ch, ch.tracer
      ensures Valid()
      ensures acker.log == old(acker.log) + [(AckRequest(tag, multiple), AckReply(err))]
      ensures (ch.spanMap, ch.tracer.spans)
              == AfterResolution(old(ch.spanMap), old(ch.tracer.spans), span, tag, multiple, AckStatus, err)
    {
      err := acker.Ack(tag, multiple);
      if multiple {
        EndMultiple(tag, Ok, "", err);
      } else {
        EndOne(tag, Ok, "", err);
      }
    }

    /** Negatively acknowledge `tag` (and, with `multiple`, every earlier outstanding tag). */
    method Nack(tag: Tag, multiple: bool, requeue: bool) returns (err: Option<Err>)
      requires CanForward() && Valid()
      modifies acker, ch, ch.tracer
      ensures Valid()
      ensures acker.log == old(acker.log) + [(NackRequest(tag, multiple, requeue), AckReply(err))]
      ensures (ch.spanMap, ch.tracer.spans)
              == AfterResolution(old(ch.spanMap), old(ch.tracer.spans), span, tag, multiple, NackStatus, err)
    {
      err := acker.Nack(tag, multiple, requeue);
      if multiple {
        EndMultiple(tag, Error, "nack", err);
      } else {
        EndOne(tag, Error, "nack", err);
      }
    }

    /** Reject `tag`; always a single resolution. */
    method Reject(tag: Tag, requeue: bool) returns (err: Option<Err>)
      requires CanForward() && Valid()
      modifies acker, ch, ch.tracer
      ensures Valid()
      ensures acker.log == old(acker.log) + [(RejectRequest(tag, requeue), AckReply(err))]
      ensures (ch.spanMap, ch.tracer.spans)
              == AfterResolution(old(ch.spanMap), old(ch.tracer.spans), span, tag, false, RejectStatus, err)
    {
      err := acker.Reject(tag, requeue);
      EndOne(tag, Error, "reject", err);
    }

    /**
      Under the channel's lock: end the span of every registered tag <= lastTag
      and remove its entry; the registry is visited in the map's arbitrary order.
    */
    method EndMultiple(lastTag: Tag, code: Code, desc: string, err: Option<Err>)
      requires Valid()
      modifies ch, ch.tracer
      ensures Valid()
      ensures ch.spanMap == Outstanding(old(ch.spanMap), lastTag)
      ensures ch.tracer.spans == ResolveAll(old(ch.tracer.spans), ResolvedSpans(old(ch.spanMap), lastTag), Status(code, desc), err)
    {
      ghost var m0 := ch.spanMap;
      ghost var s0 := ch.tracer.spans;
      ghost var resolved: set<Tag> := {};
      var pending := ch.spanMap.Keys;
      while pending != {}
        invariant pending <= m0.Keys && resolved <= m0.Keys
        invariant forall t :: t in resolved <==> t in m0 && t !in pending && t <= lastTag
        invariant ch.spanMap == m0 - resolved
        invariant ch.tracer.spans == ResolveAll(s0, Image(m0, resolved), Status(code, desc), err)
        decreases pending
      {
        var tag :| tag in pending;
        if tag <= lastTag {
          var span := ch.spanMap[tag];
          ResolveStep(m0, resolved, tag);
          ResolveAllStep(s0, Image(m0, resolved), span, Status(code, desc), err);
          ch.tracer.Finish(span, code, desc, err);
          ch.spanMap := ch.spanMap - {tag};
          resolved := resolved + {tag};
        }
        pending := pending - {tag};
      }
      ResolveDone(m0, resolved, lastTag);
    }

    /**
      Under the channel's lock: end the acknowledger's OWN span (not the one
      registered under `tag`) and remove the entry for `tag`, if any.
    */
    method EndOne(tag: Tag, code: Code, desc: string, err: Option<Err>)
      requires Valid()
      modifies ch, ch.tracer
      ensures Valid()
      ensures ch.spanMap == old(ch.spanMap) - {tag}
      ensures ch.tracer.spans == ResolveAll(old(ch.tracer.spans), {span}, Status(code, desc), err)
    {
      ghost var s0 := ch.tracer.spans;
      ResolveOne(s0, span, Status(code, desc), err);
      ch.tracer.Finish(span, code, desc, err);
      ch.spanMap := ch.spanMap - {tag};
      RemovalKeepsInjective(old(ch.spanMap), tag, tag);
    }
  }

  /** The attribute list carries a conversation-id attribute. */
  predicate HasConversationId(attrs: seq<Attr>)
  {
    exists a :: a in attrs && a.ConversationId?
  }

  /** The attribute list carries a message-id attribute. */
  predicate HasMessageId(attrs: seq<Attr>)
  {
    exists a :: a in attrs && a.MessageId?
  }

  /** An attribute describing the connection rather than the destination or the message. */
  predicate ConnectionLevel(a: Attr)
  {
    a.ServiceName? || a.ServiceVersion? || a.MessagingSystem? || a.NetworkProtocolName?
    || a.NetworkProtocolVersion? || a.NetworkTransportTcp? || a.ServerAddress? || a.ServerPort?
  }

  /** The attributes describing the connection, shared by every span of a channel. */
  function CommonAttrs(uri: Uri, amqpLibVersion: string): seq<Attr>
  {
    [ServiceName(AmqpLibName), ServiceVersion(amqpLibVersion), MessagingSystem(MessageSystem),
     NetworkProtocolName(uri.scheme), NetworkProtocolVersion(NetProtocolVersion), NetworkTransportTcp,
     ServerAddress(uri.host), ServerPort(uri.port)]
  }

  /**
    The connection attributes describe only the connection: the messaging
    system, the URI's scheme as protocol name, protocol version 0.9.1, and the
    URI's host and port as server address and port.
  */
  lemma CommonAttrsShape(uri: Uri, amqpLibVersion: string)
    ensures var r := CommonAttrs(uri, amqpLibVersion);
      && (forall a :: a in r ==> ConnectionLevel(a))
      && MessagingSystem("rabbitmq") in r && NetworkProtocolName(uri.scheme) in r
      && NetworkProtocolVersion("0.9.1") in r && ServerAddress(uri.host) in r && ServerPort(uri.port) in r
  {
  }

  /** The optional per-message attributes: a conversation id and a message id, each only when set. */
  function MessageAttrs(correlationId: string, messageId: string): seq<Attr>
  {
    (if correlationId != "" then [ConversationId(correlationId)] else [])
    + (if messageId != "" then [MessageId(messageId)] else [])
  }

  /**
    The per-message attributes hold a conversation id iff the correlation id
    is set and a message id iff the message id is set, with those values, and
    nothing else.
  */
  lemma MessageAttrsShape(correlationId: string, messageId: string)
    ensures var r := MessageAttrs(correlationId, messageId);
      && (HasConversationId(r) <==> correlationId != "")
      && (HasMessageId(r) <==> messageId != "")
      && (forall a :: a in r && a.ConversationId? ==> a == ConversationId(correlationId))
      && (forall a :: a in r && a.MessageId? ==> a == MessageId(messageId))
      && (forall a :: a in r ==> a.ConversationId? || a.MessageId?)
  {
    var r := MessageAttrs(correlationId, messageId);
    assert correlationId != "" ==> ConversationId(correlationId) in r;
    assert messageId != "" ==> MessageId(messageId) in r;
  }

  /** The attributes set on every consumer span before the optional and the connection ones. */
  function ConsumerBaseAttrs(queue: string, anonymous: bool, exchange: string, routingKey: string, op: Operation): seq<Attr>
  {
    [DestinationAnonymous(anonymous), DestinationName(queue),
     DestinationPublishAnonymous(exchange == ""), DestinationPublishName(exchange),
     RoutingKey(routingKey), MessagingOperation(op)]
  }

  /** The attributes of a consumer span. */
  function ConsumerAttrs(msg: Delivery, queue: string, op: Operation, uri: Uri, amqpLibVersion: string): seq<Attr>
  {
    ConsumerBaseAttrs(queue, Names.QueueAnonymous(queue), msg.exchange, msg.routingKey, op) + MessageAttrs(msg.correlationId, msg.messageId) + CommonAttrs(uri, amqpLibVersion)
  }

  /** The attributes set on every producer span before the optional and the connection ones. */
  function PublishBaseAttrs(exchange: string, key: string): seq<Attr>
  {
    [DestinationAnonymous(exchange == ""), DestinationName(exchange), RoutingKey(key), MessagingOperation(Publish)]
  }

  /** The attributes of a producer span. */
  function PublishAttrs(exchange: string, key: string, msg: Publishing, uri: Uri, amqpLibVersion: string): seq<Attr>
  {
    PublishBaseAttrs(exchange, key) + MessageAttrs(msg.correlationId, msg.messageId) + CommonAttrs(uri, amqpLibVersion)
  }

  /** Splitting an attribute list into its three parts. */
  lemma InThree(base: seq<Attr>, extra: seq<Attr>, common: seq<Attr>)
    ensures forall a :: a in base + extra + common <==> a in base || a in extra || a in common
  {
  }

  /**
    A consumer span carries a conversation-id attribute iff the delivery has a
    correlation id, and a message-id attribute iff it has a message id, each
    with the delivery's value.
  */
  lemma ConsumerMessageAttrs(msg: Delivery, queue: string, op: Operation, uri: Uri, amqpLibVersion: string)
    ensures var r := ConsumerAttrs(msg, queue, op, uri, amqpLibVersion);
      && (HasConversationId(r) <==> msg.correlationId != "")
      && (HasMessageId(r) <==> msg.messageId != "")
      && (forall a :: a in r && a.ConversationId? ==> a == ConversationId(msg.correlationId))
      && (forall a :: a in r && a.MessageId? ==> a == MessageId(msg.messageId))
  {
    ConsumerMessageAttrsFor(queue, Names.QueueAnonymous(queue), msg.exchange, msg.routingKey, op,
                            msg.correlationId, msg.messageId, uri, amqpLibVersion);
  }

  lemma ConsumerMessageAttrsFor(queue: string, anonymous: bool, exchange: string, routingKey: string, op: Operation,
                                correlationId: string, messageId: string, uri: Uri, amqpLibVersion: string)
    ensures var r := ConsumerBaseAttrs(queue, anonymous, exchange, routingKey, op)
                     + MessageAttrs(correlationId, messageId) + CommonAttrs(uri, amqpLibVersion);
      && (HasConversationId(r) <==> correlationId != "")
      && (HasMessageId(r) <==> messageId != "")
      && (forall a :: a in r && a.ConversationId? ==> a == ConversationId(correlationId))
      && (forall a :: a in r && a.MessageId? ==> a == MessageId(messageId))
  {
    var base := ConsumerBaseAttrs(queue, anonymous, exchange, routingKey, op);
    assert forall a :: a in base ==> !a.ConversationId? && !a.MessageId?;
    CommonAttrsShape(uri, amqpLibVersion);
    MessageAttrsAmong(base, correlationId, messageId, CommonAttrs(uri, amqpLibVersion));
  }

  /** The per-message attributes, placed between attributes of other kinds, are still the only ones of their kinds. */
  lemma MessageAttrsAmong(base: seq<Attr>, correlationId: string, messageId: string, common: seq<Attr>)
    requires forall a :: a in base ==> !a.ConversationId? && !a.MessageId?
    requires forall a :: a in common ==> ConnectionLevel(a)
    ensures var r := base + MessageAttrs(correlationId, messageId) + common;
      && (HasConversationId(r) <==> correlationId != "")
      && (HasMessageId(r) <==> messageId != "")
      && (forall a :: a in r && a.ConversationId? ==> a == ConversationId(correlationId))
      && (forall a :: a in r && a.MessageId? ==> a == MessageId(messageId))
  {
    MessageAttrsShape(correlationId, messageId);
    InThree(base, MessageAttrs(correlationId, messageId), common);
  }

  /**
    A consumer span's publish-anonymous flag says whether the delivery came
    through the default exchange, and its anonymous flag whether the queue is
    a generated one; each flag occurs with no other value.
  */
  lemma ConsumerFlagAttrs(msg: Delivery, queue: string, op: Operation, uri: Uri, amqpLibVersion: string)
    ensures var r := ConsumerAttrs(msg, queue, op, uri, amqpLibVersion);
      && DestinationPublishAnonymous(msg.exchange == "") in r
      && (forall a :: a in r && a.DestinationPublishAnonymous? ==> a.publishAnonymous == (msg.exchange == ""))
      && DestinationAnonymous(Names.QueueAnonymous(queue)) in r
      && (forall a :: a in r && a.DestinationAnonymous? ==> a.anonymous == Names.QueueAnonymous(queue))
  {
    ConsumerFlagAttrsFor(queue, Names.QueueAnonymous(queue), msg.exchange, msg.routingKey, op,
                         msg.correlationId, msg.messageId, uri, amqpLibVersion);
  }

  lemma ConsumerFlagAttrsFor(queue: string, anonymous: bool, exchange: string, routingKey: string, op: Operation,
                             correlationId: string, messageId: string, uri: Uri, amqpLibVersion: string)
    ensures var r := ConsumerBaseAttrs(queue, anonymous, exchange, routingKey, op)
                     + MessageAttrs(correlationId, messageId) + CommonAttrs(uri, amqpLibVersion);
      && DestinationPublishAnonymous(exchange == "") in r
      && (forall a :: a in r && a.DestinationPublishAnonymous? ==> a.publishAnonymous == (exchange == ""))
      && DestinationAnonymous(anonymous) in r
      && (forall a :: a in r && a.DestinationAnonymous? ==> a.anonymous == anonymous)
  {
    var base := ConsumerBaseAttrs(queue, anonymous, exchange, routingKey, op);
    var extra, common := MessageAttrs(correlationId, messageId), CommonAttrs(uri, amqpLibVersion);
    PrefixMembers(base, extra + common);
    assert base + extra + common == base + (extra + common);
    MessageAttrsShape(correlationId, messageId);
    CommonAttrsShape(uri, amqpLibVersion);
    OnlyBaseIsDestination(base, extra, common);
    assert forall a :: a in base && a.DestinationAnonymous? ==> a == base[0];
    assert forall a :: a in base && a.DestinationPublishAnonymous? ==> a == base[2];
  }

  /** A consumer span names the queue, the exchange, the routing key and the operation. */
  lemma ConsumerDestinationAttrs(msg: Delivery, queue: string, op: Operation, uri: Uri, amqpLibVersion: string)
    ensures var r := ConsumerAttrs(msg, queue, op, uri, amqpLibVersion);
      && MessagingOperation(op) in r && DestinationName(queue) in r
      && RoutingKey(msg.routingKey) in r && DestinationPublishName(msg.exchange) in r
  {
    var base := ConsumerBaseAttrs(queue, Names.QueueAnonymous(queue), msg.exchange, msg.routingKey, op);
    PrefixMembers(base, MessageAttrs(msg.correlationId, msg.messageId) + CommonAttrs(uri, amqpLibVersion));
    assert base + MessageAttrs(msg.correlationId, msg.messageId) + CommonAttrs(uri, amqpLibVersion)
        == base + (MessageAttrs(msg.correlationId, msg.messageId) + CommonAttrs(uri, amqpLibVersion));
  }

  /** Every element of the first part of a list is in the list. */
  lemma PrefixMembers(base: seq<Attr>, rest: seq<Attr>)
    ensures forall i :: 0 <= i < |base| ==> base[i] in base + rest
  {
    forall i | 0 <= i < |base| ensures base[i] in base + rest {
      assert (base + rest)[i] == base[i];
    }
  }

  /** Destination attributes can come only from the first part of an attribute list. */
  lemma OnlyBaseIsDestination(base: seq<Attr>, extra: seq<Attr>, common: seq<Attr>)
    requires forall a :: a in extra ==> a.ConversationId? || a.MessageId?
    requires forall a :: a in common ==> ConnectionLevel(a)
    ensures forall a :: a in base + extra + common && (a.DestinationAnonymous? || a.DestinationPublishAnonymous?) ==> a in base
  {
    InThree(base, extra, common);
  }

  /**
    A producer span carries a conversation-id attribute iff the message has a
    correlation id, and a message-id attribute iff it has a message id, each
    with the message's value.
  */
  lemma PublishMessageAttrs(exchange: string, key: string, msg: Publishing, uri: Uri, amqpLibVersion: string)
    ensures var r := PublishAttrs(exchange, key, msg, uri, amqpLibVersion);
      && (HasConversationId(r) <==> msg.correlationId != "")
      && (HasMessageId(r) <==> msg.messageId != "")
      && (forall a :: a in r && a.ConversationId? ==> a == ConversationId(msg.correlationId))
      && (forall a :: a in r && a.MessageId? ==> a == MessageId(msg.messageId))
  {
    var base := PublishBaseAttrs(exchange, key);
    assert forall a :: a in base ==> !a.ConversationId? && !a.MessageId?;
    CommonAttrsShape(uri, amqpLibVersion);
    MessageAttrsAmong(base, msg.correlationId, msg.messageId, CommonAttrs(uri, amqpLibVersion));
  }

  /** A producer span's anonymous flag says whether the exchange is the default one; it names the exchange, the key and the operation. */
  lemma PublishDestinationAttrs(exchange: string, key: string, msg: Publishing, uri: Uri, amqpLibVersion: string)
    ensures var r := PublishAttrs(exchange, key, msg, uri, amqpLibVersion);
      && DestinationAnonymous(exchange == "") in r
      && (forall a :: a in r && a.DestinationAnonymous? ==> a.anonymous == (exchange == ""))
      && MessagingOperation(Publish) in r && DestinationName(exchange) in r && RoutingKey(key) in r
  {
    var base := PublishBaseAttrs(exchange, key);
    var extra, common := MessageAttrs(msg.correlationId, msg.messageId), CommonAttrs(uri, amqpLibVersion);
    PrefixMembers(base, extra + common);
    assert base + extra + common == base + (extra + common);
    MessageAttrsShape(msg.correlationId, msg.messageId);
    CommonAttrsShape(uri, amqpLibVersion);
    OnlyBaseIsDestination(base, extra, common);
    assert forall a :: a in base && a.DestinationAnonymous? ==> a == base[0];
  }

  /** The status of a publish span: error with the error's text iff the broker call failed. */
  function PublishStatus(err: Option<Err>): (st: Status)
    ensures err.Some? ==> st == Status(Error, err.value.text)
    ensures err.None? ==> st == Status(Unset, "")
  {
    if err.Some? then Status(Error, err.value.text) else Status(Unset, "")
  }

  /**
    The acknowledger `startConsumerSpan` installs, as written: its `acker`
    field is never set, so it stays nil.
  */
  function InstalledAsWritten(ch: Channel, prior: AckerHandle, ctx: Context, span: SpanId): (a: Acknowledger)
    ensures a.ch == ch && a.ctx == ctx && a.span == span
    ensures a.acker == null && !a.CanForward()
  {
    Acknowledger(ch, null, ctx, span)
  }

  /**
    The acknowledger as evidently intended: it wraps the primitive the delivery
    arrived with, the broker channel. A delivery without one keeps a nil
    primitive. A delivery that already carries this package's acknowledger is
    not covered (`acker` cannot hold one, and it is left nil): deliveries from
    the broker always carry the broker channel.
  */
  function Installed(ch: Channel, prior: AckerHandle, ctx: Context, span: SpanId): (a: Acknowledger)
    ensures a.ch == ch && a.ctx == ctx && a.span == span
    ensures prior.BrokerAcker? ==> a.CanForward() && a.acker == prior.broker
  {
    Acknowledger(ch, if prior.BrokerAcker? then prior.broker else null, ctx, span)
  }

  /**
    As written, a delivery that came from the broker with the broker channel as
    its acknowledger ends up with an acknowledger that cannot forward: any
    Ack, Nack or Reject on it calls a method on a nil interface.
  */
  lemma InstalledAsWrittenCannotForward(ch: Channel, b: Broker, ctx: Context, span: SpanId)
    ensures !InstalledAsWritten(ch, BrokerAcker(b), ctx, span).CanForward()
    ensures Installed(ch, BrokerAcker(b), ctx, span).CanForward()
  {
  }

  /** The trace context of a delivery: the captured one for this package's acknowledger, otherwise background. */
  function ContextFromDelivery(msg: Delivery): (ctx: Context)
    ensures msg.acknowledger.Instrumented? ==> ctx == msg.acknowledger.acknowledger.ctx
    ensures !msg.acknowledger.Instrumented? ==> ctx == Background
  {
    match msg.acknowledger
    case Instrumented(a) => a.ctx
    case _ => Background
  }

  /** Installing an acknowledger changes nothing else about the delivery, and the context is recovered from it. */
  lemma ContextOfInstalled(msg: Delivery, a: Acknowledger)
    ensures ContextFromDelivery(msg.(acknowledger := Instrumented(a))) == a.ctx
    ensures msg.(acknowledger := Instrumented(a)).(acknowledger := msg.acknowledger) == msg
  {
  }

  /** The delivery tags of a sequence of deliveries, in order. */
  function Tags(ds: seq<Delivery>): (r: seq<Tag>)
    ensures |r| == |ds| && forall i :: 0 <= i < |ds| ==> r[i] == ds[i].deliveryTag
  {
    seq(|ds|, i requires 0 <= i < |ds| => ds[i].deliveryTag)
  }

  /** The header tables of a feed, read as maps. */
  ghost function HeaderEntries(ds: seq<Delivery>): (r: seq<map<string, Carrier.Value>>)
    reads set i | 0 <= i < |ds| :: ds[i].headers
    ensures |r| == |ds| && forall i :: 0 <= i < |ds| ==> r[i] == Carrier.Entries(ds[i].headers)
  {
    seq(|ds|, i requires 0 <= i < |ds| reads if 0 <= i < |ds| then {ds[i].headers} else {} => Carrier.Entries(ds[i].headers))
  }

  /** The registry after registering each tag in turn, under consecutive span ids from `first`. */
  function RegisterAll(m: SpanMap, tags: seq<Tag>, first: SpanId): SpanMap
    decreases |tags|
  {
    if tags == [] then m
    else RegisterAll(m[tags[0] := first], tags[1..], first + 1)
  }

  /** Registering adds exactly the given tags to the registry. */
  lemma {:induction false} RegisterAllKeys(m: SpanMap, tags: seq<Tag>, first: SpanId)
    ensures RegisterAll(m, tags, first).Keys == m.Keys + set t | t in tags
    decreases |tags|
  {
    if tags != [] {
      RegisterAllKeys(m[tags[0] := first], tags[1..], first + 1);
      assert (set t | t in tags) == {tags[0]} + set t | t in tags[1..];
    }
  }

  /** Registering leaves the entry of every other tag as it was. */
  lemma {:induction false} RegisterAllKeepsOthers(m: SpanMap, tags: seq<Tag>, first: SpanId, t: Tag)
    requires t in m && t !in tags
    ensures t in RegisterAll(m, tags, first) && RegisterAll(m, tags, first)[t] == m[t]
    decreases |tags|
  {
    if tags != [] {
      assert t != tags[0] && t !in tags[1..];
      RegisterAllKeepsOthers(m[tags[0] := first], tags[1..], first + 1, t);
    }
  }

  /** A tag registered more than once ends up with the span of its last registration. */
  lemma {:induction false} RegisterAllLastWins(m: SpanMap, tags: seq<Tag>, first: SpanId, i: nat)
    requires i < |tags| && tags[i] !in tags[i + 1..]
    ensures tags[i] in RegisterAll(m, tags, first) && RegisterAll(m, tags, first)[tags[i]] == first + i
    decreases |tags|
  {
    var m' := m[tags[0] := first];
    if i == 0 {
      RegisterAllKeepsOthers(m', tags[1..], first + 1, tags[0]);
    } else {
      assert tags[1..][i - 1] == tags[i] && tags[1..][i..] == tags[i + 1..];
      RegisterAllLastWins(m', tags[1..], first + 1, i - 1);
    }
  }

  /**
    The propagator's inject: it writes each of its header pairs for `ctx`
    through the carrier's `Set`. A nil header table panics on the first write.
  */
  method Inject(p: Propagator, ctx: Context, t: Carrier.Table?)
    requires t != null || p.inject(ctx) == []
    modifies t
    ensures Carrier.Entries(t) == Carrier.SetAll(old(Carrier.Entries(t)), p.inject(ctx))
  {
    var pairs := p.inject(ctx);
    if t == null {
      return;
    }
    var i := 0;
    while i < |pairs|
      invariant 0 <= i <= |pairs|
      invariant Carrier.SetAll(t.entries, pairs[i..]) == Carrier.SetAll(old(t.entries), pairs)
    {
      assert pairs[i..][1..] == pairs[i + 1..];
      Carrier.Set(t, pairs[i].0, pairs[i].1);
      i := i + 1;
    }
    assert pairs[i..] == [];
  }

  /**
    The instrumented channel. `spanMap` holds, for every delivery instrumented
    and not yet resolved, the span of its processing.
  */
  class Channel {
    const broker: Broker
    const uri: Uri
    const tracer: Tracer
    const propagator: Propagator
    const amqpLibVersion: string
    var spanMap: SpanMap

    /** Registered spans exist in the tracer, and no span is registered twice. */
    ghost predicate Valid()
      reads this, tracer
    {
      Injective(spanMap) && forall t :: t in spanMap ==> spanMap[t] < |tracer.spans|
    }

    /** NewChannel, given the already parsed URI: the password is not kept. */
    constructor (broker: Broker, uri: Uri, tracer: Tracer, propagator: Propagator, amqpLibVersion: string)
      ensures Valid()
      ensures this.broker == broker && this.tracer == tracer && this.propagator == propagator
      ensures this.uri == uri.(password := "") && this.amqpLibVersion == amqpLibVersion
      ensures spanMap == map[]
    {
      this.broker := broker;
      this.uri := uri.(password := "");
      this.tracer := tracer;
      this.propagator := propagator;
      this.amqpLibVersion := amqpLibVersion;
      spanMap := map[];
    }

    /** The span started for processing `msg`, whose header table reads as `headers`. */
    ghost function ConsumerSpan(msg: Delivery, headers: map<string, Carrier.Value>, queue: string, op: Operation): SpanData
    {
      Started(Names.NameWhenConsume(queue), Consumer, propagator.extract(headers),
              ConsumerAttrs(msg, queue, op, uri, amqpLibVersion))
    }

    /** `msg` with the acknowledger for span `id` installed. */
    ghost function Instrument(msg: Delivery, headers: map<string, Carrier.Value>, id: SpanId): Delivery
    {
      msg.(acknowledger := Instrumented(Installed(this, msg.acknowledger, WithSpan(propagator.extract(headers), id), id)))
    }

    /**
      Extract the parent context from the delivery's headers, start the
      consumer span, install an acknowledger bound to this channel, that context
      and that span, and register the span under the delivery tag, replacing any
      span registered under it before.
    */
    method StartConsumerSpan(msg: Delivery, queue: string, op: Operation) returns (out: Delivery)
      requires Valid()
      modifies this, tracer
      ensures Valid()
      ensures tracer.spans == old(tracer.spans) + [ConsumerSpan(msg, Carrier.Entries(msg.headers), queue, op)]
      ensures spanMap == old(spanMap)[msg.deliveryTag := |old(tracer.spans)|]
      ensures out == Instrument(msg, Carrier.Entries(msg.headers), |old(tracer.spans)|)
      ensures ContextFromDelivery(out) == WithSpan(propagator.extract(Carrier.Entries(msg.headers)), |old(tracer.spans)|)
    {
      var parentCtx := propagator.extract(Carrier.Entries(msg.headers));
      var attrs := ConsumerAttrs(msg, queue, op, uri, amqpLibVersion);
      var ctx, span := tracer.Start(parentCtx, Names.NameWhenConsume(queue), Consumer, attrs);
      out := msg.(acknowledger := Instrumented(Installed(this, msg.acknowledger, ctx, span)));
      InsertFresh(spanMap, msg.deliveryTag, span);
      spanMap := spanMap[msg.deliveryTag := span];
    }

    /** Fetch one message; it is instrumented only when the broker returned one without error. */
    method Get(queue: string, autoAck: bool) returns (msg: Delivery, ok: bool, err: Option<Err>)
      requires Valid()
      modifies this, tracer, broker
      ensures Valid()
      ensures |broker.log| == |old(broker.log)| + 1 && broker.log[..|old(broker.log)|] == old(broker.log)
      ensures broker.log[|old(broker.log)|].0 == GetRequest(queue, autoAck)
      ensures var reply := broker.log[|old(broker.log)|].1;
        && reply.GetReply? && ok == reply.ok && err == reply.err
        && (if err.None? && ok then
              && tracer.spans == old(tracer.spans) + [ConsumerSpan(reply.msg, Carrier.Entries(reply.msg.headers), queue, Receive)]
              && spanMap == old(spanMap)[reply.msg.deliveryTag := |old(tracer.spans)|]
              && msg == Instrument(reply.msg, Carrier.Entries(reply.msg.headers), |old(tracer.spans)|)
              && msg.acknowledger.acknowledger.acker == broker
            else
              msg == reply.msg && spanMap == old(spanMap) && tracer.spans == old(tracer.spans))
    {
      msg, ok, err := broker.Get(queue, autoAck);
      if err.Some? || !ok {
        return;
      }
      msg := StartConsumerSpan(msg, queue, Receive);
    }

    /**
      Start consuming: every delivery of the broker's feed is instrumented and
      re-emitted in order; the outward feed ends when the broker's does.
    */
    method Consume(queue: string, consumer: string, autoAck: bool, exclusive: bool, noLocal: bool, noWait: bool,
                   args: Carrier.Table?)
      returns (deliveries: seq<Delivery>, err: Option<Err>)
      requires Valid()
      modifies this, tracer, broker
      ensures Valid()
      ensures |broker.log| == |old(broker.log)| + 1 && broker.log[..|old(broker.log)|] == old(broker.log)
      ensures broker.log[|old(broker.log)|].0 == ConsumeRequest(queue, consumer, autoAck, exclusive, noLocal, noWait, args)
      ensures var reply := broker.log[|old(broker.log)|].1;
        && reply.ConsumeReply? && err == reply.err
        && (if err.Some? then
              deliveries == reply.deliveries && spanMap == old(spanMap) && tracer.spans == old(tracer.spans)
            else
              var src, n := reply.deliveries, |old(tracer.spans)|;
              && (forall i :: 0 <= i < |src| ==> src[i].acknowledger == BrokerAcker(broker))
              && tracer.spans == old(tracer.spans) + ConsumerSpans(src, HeaderEntries(src), queue)
              && deliveries == InstrumentAll(src, HeaderEntries(src), n)
              && spanMap == RegisterAll(old(spanMap), Tags(src), n))
    {
      var src;
      src, err := broker.Consume(queue, consumer, autoAck, exclusive, noLocal, noWait, args);
      if err.Some? {
        deliveries := src;
        return;
      }
      deliveries := Forward(src, queue);
    }

    /** The spans `Consume` starts for the feed `src`, whose header tables read as `headers`: one per delivery, in order. */
    ghost function ConsumerSpans(src: seq<Delivery>, headers: seq<map<string, Carrier.Value>>, queue: string): seq<SpanData>
      requires |headers| == |src|
    {
      seq(|src|, j requires 0 <= j < |src| => ConsumerSpan(src[j], headers[j], queue, Deliver))
    }

    /** The feed `src` as `Consume` re-emits it, the i-th delivery bound to span `first + i`. */
    ghost function InstrumentAll(src: seq<Delivery>, headers: seq<map<string, Carrier.Value>>, first: SpanId): seq<Delivery>
      requires |headers| == |src|
    {
      seq(|src|, j requires 0 <= j < |src| => Instrument(src[j], headers[j], first + j))
    }

    /**
      Every delivery of a feed the broker handed out is re-emitted with an
      acknowledger that forwards to the broker, carries the context extracted
      from the delivery's headers with its own span, and is bound to the i-th new span.
    */
    lemma InstrumentAllForwards(src: seq<Delivery>, headers: seq<map<string, Carrier.Value>>, first: SpanId)
      requires |headers| == |src|
      requires forall i :: 0 <= i < |src| ==> src[i].acknowledger == BrokerAcker(broker)
      ensures forall i :: 0 <= i < |src| ==>
                var d := InstrumentAll(src, headers, first)[i];
                && d == src[i].(acknowledger := d.acknowledger)
                && d.acknowledger.Instrumented? && d.acknowledger.acknowledger.CanForward()
                && d.acknowledger.acknowledger.acker == broker && d.acknowledger.acknowledger.span == first + i
                && ContextFromDelivery(d) == WithSpan(propagator.extract(headers[i]), first + i)
    {
    }

    /** The forwarding loop of a consumer: instrument each delivery of the feed in turn and re-emit it. */
    method Forward(src: seq<Delivery>, queue: string) returns (deliveries: seq<Delivery>)
      requires Valid()
      modifies this, tracer
      ensures Valid()
      ensures tracer.spans == old(tracer.spans) + ConsumerSpans(src, HeaderEntries(src), queue)
      ensures deliveries == InstrumentAll(src, HeaderEntries(src), |old(tracer.spans)|)
      ensures spanMap == RegisterAll(old(spanMap), Tags(src), |old(tracer.spans)|)
    {
      ghost var n := |tracer.spans|;
      ghost var m0 := spanMap;
      ghost var tags := Tags(src);
      ghost var headers := HeaderEntries(src);
      ghost var spans := ConsumerSpans(src, headers, queue);
      ghost var out := InstrumentAll(src, headers, n);
      deliveries := [];
      var i := 0;
      while i < |src|
        invariant 0 <= i <= |src| && Valid()
        invariant tracer.spans == old(tracer.spans) + spans[..i]
        invariant deliveries == out[..i]
        invariant HeaderEntries(src) == headers
        invariant RegisterAll(spanMap, tags[i..], n + i) == RegisterAll(m0, tags, n)
      {
        assert tags[i..][0] == src[i].deliveryTag && tags[i..][1..] == tags[i + 1..];
        assert spans[..i + 1] == spans[..i] + [spans[i]] && out[..i + 1] == out[..i] + [out[i]];
        assert headers[i] == Carrier.Entries(src[i].headers);
        var d := StartConsumerSpan(src[i], queue, Deliver);
        deliveries := deliveries + [d];
        i := i + 1;
      }
      assert tags[i..] == [] && spans[..i] == spans && out[..i] == out;
    }

    /**
      Publish with a producer span: the span's context is injected into the
      message's headers before the broker sees the message, and the span is
      ended once the broker returns, with an error event and status iff the
      broker call failed. The broker's confirmation and error are returned as they are.
    */
    method PublishWithDeferredConfirmWithContext(ctx: Context, exchange: string, key: string, mandatory: bool,
                                                 immediate: bool, msg: Publishing)
      returns (confirmation: Confirmation, err: Option<Err>)
      requires Valid()
      requires msg.headers != null || propagator.inject(WithSpan(ctx, |tracer.spans|)) == []
      modifies tracer, broker, msg.headers
      ensures Valid()
      ensures var spanCtx := WithSpan(ctx, |old(tracer.spans)|);
        && Carrier.Entries(msg.headers) == Carrier.SetAll(old(Carrier.Entries(msg.headers)), propagator.inject(spanCtx))
        && broker.log == old(broker.log) + [(PublishRequest(spanCtx, exchange, key, mandatory, immediate, msg, Carrier.Entries(msg.headers)),
                                             PublishReply(confirmation, err))]
        && tracer.spans == old(tracer.spans)
             + [SpanData(Names.NameWhenPublish(exchange), Producer, ctx, PublishAttrs(exchange, key, msg, uri, amqpLibVersion),
                         true, PublishStatus(err), ErrorEvents(err))]
    {
      var attrs := PublishAttrs(exchange, key, msg, uri, amqpLibVersion);
      var spanCtx, span := tracer.Start(ctx, Names.NameWhenPublish(exchange), Producer, attrs);
      Inject(propagator, spanCtx, msg.headers);
      ghost var started := tracer.spans;
      assert started[span].events == [] && started[span].status == Status(Unset, "");
      confirmation, err := broker.Publish(spanCtx, exchange, key, mandatory, immediate, msg);
      if err.Some? {
        tracer.RecordError(span, err.value);
        assert tracer.spans[span].events == [err.value];
        tracer.SetStatus(span, Error, err.value.text);
      } else {
        assert started[span] == started[span].(events := ErrorEvents(err), status := PublishStatus(err));
      }
      assert tracer.spans == started[span := started[span].(events := ErrorEvents(err), status := PublishStatus(err))];
      tracer.End(span);
    }

    /** Publish, returning only the broker's error. */
    method PublishWithContext(ctx: Context, exchange: string, key: string, mandatory: bool, immediate: bool, msg: Publishing)
      returns (err: Option<Err>)
      requires Valid()
      requires msg.headers != null || propagator.inject(WithSpan(ctx, |tracer.spans|)) == []
      modifies tracer, broker, msg.headers
      ensures Valid()
      ensures |broker.log| == |old(broker.log)| + 1 && broker.log[..|old(broker.log)|] == old(broker.log)
      ensures broker.log[|old(broker.log)|].1.PublishReply? && err == broker.log[|old(broker.log)|].1.err
      ensures |tracer.spans| == |old(tracer.spans)| + 1 && tracer.spans[..|old(tracer.spans)|] == old(tracer.spans)
      ensures tracer.spans[|old(tracer.spans)|].ended && tracer.spans[|old(tracer.spans)|].events == ErrorEvents(err)
    {
      var _, e := PublishWithDeferredConfirmWithContext(ctx, exchange, key, mandatory, immediate, msg);
      err := e;
    }
  }
}
