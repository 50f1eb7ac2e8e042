# amqp091otel in Dafny

A model of the OpenTelemetry tracing layer for the RabbitMQ Go client
`github.com/rabbitmq/amqp091-go`, written in Dafny 4.11 with proofs of what
the package promises.

The package wraps an AMQP 0-9-1 channel. It does three things:

- It starts a consumer span for every delivery it hands out, from `Get` or
  from a `Consume` feed. It registers that span in the channel's span
  registry (`spanMap`, delivery tag to open span). It also installs on the
  delivery an acknowledger that remembers the span and the trace context.
- When the application acknowledges a delivery (`Ack`, `Nack` or
  `Reject`), the acknowledger first forwards the call to its `acker`, the
  acknowledgement primitive it wraps. The code never sets that field (see
  Findings); the model installs the corrected acknowledger, whose `acker` is
  the broker channel the delivery arrived with. It then ends the span with a status fixed by the operation, and records
  the broker's error as an event when there is one. It also removes the
  registry entry. With `multiple`, it does this for every registered tag up
  to and including the given one.
- It starts a producer span for every publish. The span's context is
  injected into the message headers before the broker sees the message. The
  span is ended when the broker returns.

The model has six modules:

- `Wrappers`: `Option`.
- `Carrier`: the text-map carrier over a message's header table (`carrier.go`).
  Go maps are references, so the table is a class whose entries the carrier's
  `Set` updates in place.
- `Names`: the span-naming rules (`channel.go:21-23`, `65-77`).
- `Registry`: the span registry as a finite map, and the two removal
  disciplines of the acknowledger as functions. These functions are the
  specification the stateful acknowledger is proved against.
- `Trace`: the span record `{name, kind, parent, attrs, ended, status, events}`,
  with what an acknowledgement does to a span (`Resolve`, `ResolveAll`). The
  tracer is a class holding every span started, indexed by span id.
- `Amqp091Otel`: everything else in `channel.go`, `acknowledger.go` and
  `context.go`:
  - the `Channel` class, whose `spanMap` field the methods update;
  - the `Acknowledger` datatype and its methods, which mutate the channel and
    the tracer;
  - the attribute lists;
  - `ContextFromDelivery`.

Collaborators the package calls but does not implement are oracles:

- The broker channel is the class `Broker`. Every call and reply is appended
  to its `log`, and every reply is arbitrary. Deliveries it hands out carry
  the broker channel as their acknowledgement primitive.
- The propagator holds two functions:
  - `inject` gives the header pairs written for a context;
  - `extract` gives the parent context read from a header map.
- The tracer records what the package does to each span.

Each region of the code that holds the channel's mutex is one atomic method
body. `Consume`'s goroutine becomes the loop `Channel.Forward` over the
finite, ordered sequence of deliveries the broker feed yields.

## Model

| member | source | states |
|---|---|---|
| Carrier.Lookup | carrier.go:25-35 | A missing key reads as "". A string value reads as that string. A value of any other type reads as "". A non-empty result means the key is stored with exactly that string. |
| Carrier.Get | carrier.go:62-72 | Both carriers' `Get`: a lookup of the table's entries. A nil table reads "" for every key. `Get` reads the table and changes nothing. |
| Carrier.Set | carrier.go:38-40 | `Set` overwrites the entry for the key in place. Every other entry keeps its value. |
| Carrier.Keys | carrier.go:43-49 | `Keys` lists every key of the table exactly once and nothing else. Its length is the header count. It changes nothing. |
| Carrier.GetAfterSet | carrier.go:38-40 | Getting a key right after setting it yields the written value. Other keys read as before. The key set grows by that key alone. |
| Carrier.SetAll | carrier.go:38-40 | The table after a propagator writes a sequence of pairs through `Set`, in order; its properties are `SetAllLastWriteWins`. |
| Carrier.SetAllLastWriteWins | carrier.go:38-40 | After a sequence of writes: the keys are the old ones plus the written ones; an unwritten key keeps its value; a written key holds the value of its last write. |
| Carrier.SetSequenceExample | carrier_test.go:56-67 | The carrier test's write sequence, started from an empty table, leaves exactly `{foo: bar, foo1: bar2, foo2: bar3}`. The test's message has no headers at all; the code panics there (see Left out). |
| Names.QueueAnonymous | channel.go:21-23 | Whether the queue name starts with "amq.gen-", compared character by character; `QueueAnonymousMeansPrefix` proves it is the prefix test. |
| Names.QueueAnonymousMeansPrefix | channel.go:21-23 | A queue is anonymous iff its name starts with "amq.gen-". |
| Names.NameWhenPublish | channel.go:65-70 | The default exchange gives "(default) publish". Any other exchange gives its own name followed by " publish". |
| Names.NameWhenConsume | channel.go:72-77 | An anonymous queue gives "(anonymous) process". Any other queue gives its own name followed by " process". |
| Names.PublishNameIdentifiesExchange | channel.go:65-70 | Equal publish span names mean equal exchanges. The one exception is the default exchange, which collides with an exchange literally named "(default)". |
| Names.ConsumeNameIdentifiesQueue | channel.go:72-77 | Equal consume span names mean equal queues when neither queue is anonymous. The one collision is with a queue literally named "(anonymous)". |
| Names.AnonymousQueuesShareName | channel.go:72-77 | All generated queues get the same span name. |
| Registry.ResolvedTags | acknowledger.go:49-50 | The tags a `multiple` resolution visits: exactly the registered tags <= lastTag. |
| Registry.Image | acknowledger.go:49 | The spans registered under a set of tags: each one's span, and no others. |
| Registry.ResolvedSpans | acknowledger.go:49-55 | The spans a `multiple` resolution ends: the spans registered under the tags it resolves. `ResolvedSpansCount` counts them. |
| Registry.Outstanding | acknowledger.go:49-58 | What a `multiple` resolution leaves: exactly the entries with tag > lastTag, unchanged. |
| Registry.OutstandingSize | acknowledger.go:49-58 | The registry shrinks by the number of tags resolved. |
| Registry.ImageSize | acknowledger.go:49-58 | In an injective registry, a set of tags names as many spans as it has tags. |
| Registry.ResolvedSpansCount | acknowledger.go:49-58 | A `multiple` resolution ends exactly as many spans as it removes entries. |
| Registry.OutstandingCompose | acknowledger.go:49-58 | Resolving up to a and then up to b is resolving up to max(a, b). Repeating a `multiple` resolution changes nothing. |
| Registry.RemoveOne | acknowledger.go:70 | Deleting a tag removes at most that entry. Deleting an absent tag is a no-op, so deleting twice is deleting once. |
| Registry.SingleAfterMultiple | acknowledger.go:56-70 | After a `multiple` resolution up to lastTag, a single deletion of any tag <= lastTag changes nothing. |
| Registry.InsertFresh | channel.go:114-116 | Registering a new span under a tag overwrites that tag's entry and keeps every other entry. Since the span is new, no span is registered twice. |
| Registry.RemovalKeepsInjective | acknowledger.go:56-70 | Both removals keep every span registered under at most one tag. |
| Registry.ResolveStep | acknowledger.go:49-58 | One step of the `endMultiple` loop: the resolved tag names a span that no earlier step named, and it is removed along with the rest. |
| Registry.ResolveDone | acknowledger.go:49-58 | When the loop has visited every tag, the resolved tags are exactly those <= lastTag, and the registry is `Outstanding`. |
| Trace.ErrorEvents | acknowledger.go:51-53 | A call's outcome adds exactly one error event iff the call failed, and that event is the error. |
| Trace.Resolve | acknowledger.go:51-55 | A resolved span is ended with the given status. It gains exactly one event, the error, iff there is one. Its name, kind, parent and attributes do not change. |
| Trace.ResolveAll | acknowledger.go:49-58 | Every span named is resolved once, and every other span is untouched. |
| Trace.ResolveAllStep | acknowledger.go:51-55 | Resolving one more span extends `ResolveAll` by an update of that span alone. |
| Trace.ResolveOne | acknowledger.go:65-69 | Resolving a single span updates that span alone. |
| Trace.Tracer.Start | channel.go:106-107 | Start appends exactly one open span, with unset status and no events. It returns its id and a context carrying it. |
| Trace.Tracer.Finish | acknowledger.go:51-55 | Record the error if any, set the status and end the span: the span becomes `Resolve` of itself, and no other span changes. |
| Amqp091Otel.Acknowledger.Ack | acknowledger.go:19-27 | Forwards exactly (tag, multiple) to the broker once and returns its error unchanged. It then resolves with status (Ok, ""), whether or not the call failed: with `multiple` the outstanding tags <= tag, otherwise its own span and the entry for `tag`. The registry stays consistent. |
| Amqp091Otel.Acknowledger.Nack | acknowledger.go:29-37 | Forwards exactly (tag, multiple, requeue) to the broker once and returns its error unchanged. It then resolves as `Ack` does, with status (Error, "nack"). |
| Amqp091Otel.Acknowledger.Reject | acknowledger.go:39-43 | Forwards exactly (tag, requeue) to the broker once and returns its error unchanged. It always resolves singly, with status (Error, "reject"). |
| Amqp091Otel.Acknowledger.EndMultiple | acknowledger.go:45-59 | Visiting the registry in arbitrary order, it leaves exactly `Outstanding(lastTag)`. Exactly the spans registered under tags <= lastTag are resolved, once each. The registry stays injective and within the tracer. |
| Amqp091Otel.Acknowledger.EndOne | acknowledger.go:61-71 | Resolves the acknowledger's own span, not the span registered under `tag`. It deletes only the entry for `tag`. |
| Amqp091Otel.AfterResolution | acknowledger.go:19-43 | The dispatch of `Ack`, `Nack` and `Reject`: with `multiple`, the registry and spans after `endMultiple`; otherwise after `endOne` of the bound span. Its properties are `MultipleResolutionFrame` and `SingleResolutionFrame`. |
| Amqp091Otel.MultipleResolutionFrame | acknowledger.go:45-59 | A `multiple` resolution up to tag keeps exactly the entries with larger tags, unchanged and with their spans untouched. It resolves every removed entry's span. A span that changed belongs to a removed entry. Spans ended equal entries removed. |
| Amqp091Otel.SingleResolutionFrame | acknowledger.go:61-71 | A single resolution removes only the entry for tag, and only if one exists. It resolves the bound span and no other. |
| Amqp091Otel.NackMultipleScenario | acknowledger_test.go:106-125 | With deliveries 1, 2 and 3, a multiple Nack of 2 without requeue that fails with "some error" works as follows: spans 1 and 2 end with (Error, "nack") and one "some error" event each; delivery 3 stays registered, with its span open. |
| Amqp091Otel.CommonAttrs | channel.go:51-63 | The eight connection attributes, in source order; their properties are `CommonAttrsShape`. |
| Amqp091Otel.CommonAttrsShape | channel.go:51-63 | The connection attributes name the messaging system "rabbitmq", the URI's scheme, protocol version "0.9.1", and the URI's host and port. They are all connection-level. |
| Amqp091Otel.MessageAttrs | channel.go:94-99 | The conditional appends shared by both span kinds (also channel.go:155-160): a conversation id when set, then a message id when set; their properties are `MessageAttrsShape`. |
| Amqp091Otel.MessageAttrsShape | channel.go:94-99 | The optional attributes hold a conversation id iff the correlation id is non-empty. They hold a message id iff the message id is non-empty. Each carries that value, and they hold nothing else. |
| Amqp091Otel.MessageAttrsAmong | channel.go:94-100 | The same holds for a whole attribute list whose other parts carry no attribute of those two kinds. |
| Amqp091Otel.ConsumerBaseAttrs | channel.go:85-93 | The six attributes every consumer span starts with, in source order. |
| Amqp091Otel.ConsumerAttrs | channel.go:85-100 | A consumer span's attributes: the base ones, then the per-message ones, then the connection ones; their properties are the `Consumer*Attrs` lemmas. |
| Amqp091Otel.ConsumerMessageAttrs | channel.go:85-100 | A consumer span has a conversation-id attribute iff the delivery's CorrelationId is non-empty. It has a message-id attribute iff the delivery's MessageId is non-empty. Each attribute has the delivery's value. |
| Amqp091Otel.ConsumerMessageAttrsFor | channel.go:85-100 | The same statement, over the delivery's fields passed one by one. |
| Amqp091Otel.ConsumerFlagAttrs | channel.go:86-88 | A consumer span's publish-anonymous flag is present and equals Exchange == "". Its anonymous flag is present and equals queueAnonymous(queue). Neither occurs with another value. |
| Amqp091Otel.ConsumerFlagAttrsFor | channel.go:86-88 | The same statement, over the delivery's fields passed one by one. |
| Amqp091Otel.ConsumerDestinationAttrs | channel.go:86-91 | A consumer span names the queue, the exchange, the routing key and the operation. |
| Amqp091Otel.PublishBaseAttrs | channel.go:148-154 | The four attributes every producer span starts with, in source order. |
| Amqp091Otel.PublishAttrs | channel.go:148-161 | A producer span's attributes: the base ones, then the per-message ones, then the connection ones; their properties are the `Publish*Attrs` lemmas. |
| Amqp091Otel.PublishMessageAttrs | channel.go:148-161 | A producer span has a conversation-id attribute iff the message's CorrelationId is non-empty. It has a message-id attribute iff its MessageId is non-empty. Each attribute has the message's value. |
| Amqp091Otel.PublishDestinationAttrs | channel.go:148-152 | A producer span's anonymous flag is present and equals exchange == "", and no other value occurs. The span names the exchange, the key and the publish operation. |
| Amqp091Otel.PublishStatus | channel.go:173-177 | A publish span's status is (Error, err.Error()) iff the broker call failed. Otherwise the status stays unset. |
| Amqp091Otel.InstalledAsWritten | channel.go:108-112 | The acknowledger as the code builds it: bound to the channel, the new context and the new span, but with a nil `acker`, so it cannot forward an acknowledgement. |
| Amqp091Otel.InstalledAsWrittenCannotForward | channel.go:108-112 | As written, a broker delivery's installed acknowledger cannot forward. The corrected one can. |
| Amqp091Otel.Installed | channel.go:108-112 | The corrected version: bound to the channel, the new context and the new span. It forwards to the broker channel the delivery arrived with. |
| Amqp091Otel.ContextFromDelivery | context.go:12-17 | For this package's acknowledger the result is exactly its captured context. For no acknowledger, or one of any other type, the result is the background context. |
| Amqp091Otel.ContextOfInstalled | context.go:12-17 | Installing an acknowledger changes nothing else about the delivery. `ContextFromDelivery` then returns the installed context. |
| Amqp091Otel.Tags | channel.go:128-129 | The delivery tags of a feed, in order. |
| Amqp091Otel.HeaderEntries | channel.go:81 | The header tables of a feed, read as maps, in order. |
| Amqp091Otel.RegisterAll | channel.go:116-129 | The registry after the insert at channel.go:116 for each delivery of a feed in turn, under consecutive span ids; its properties are the three `RegisterAll*` lemmas. |
| Amqp091Otel.RegisterAllKeys | channel.go:114-129 | Instrumenting a feed adds exactly its delivery tags to the registry. |
| Amqp091Otel.RegisterAllKeepsOthers | channel.go:114-129 | Instrumenting a feed leaves the entry of every tag outside the feed as it was. |
| Amqp091Otel.RegisterAllLastWins | channel.go:116-129 | A tag delivered several times ends up registered with the span of its last delivery. |
| Amqp091Otel.Inject | channel.go:168-170 | Injection writes the propagator's pairs for the context into the headers through `Set`, in order, in place. |
| Amqp091Otel.Channel.constructor | channel.go:35-49 | A new channel keeps the URI with its password cleared and starts with an empty registry. |
| Amqp091Otel.Channel.ConsumerSpan | channel.go:81-107 | Definition of the consumer span: started with the consume name, kind consumer, the context extracted from the headers as parent, and the consumer attributes. `StartConsumerSpan`, `Get` and `Consume` state their new spans through it. |
| Amqp091Otel.Channel.Instrument | channel.go:108-112 | Definition of an instrumented delivery: the delivery with only its acknowledger replaced by the corrected one (`Installed`), bound to the extracted context and the new span. `InstrumentAllForwards` states its consequences. |
| Amqp091Otel.Channel.ConsumerSpans | channel.go:126-131 | Definition of the spans `Consume` starts for a feed: one `ConsumerSpan` per delivery, in order. |
| Amqp091Otel.Channel.InstrumentAll | channel.go:126-131 | Definition of the feed `Consume` re-emits: the i-th delivery passed through `Instrument` with the i-th new span. `InstrumentAllForwards` states its consequences. |
| Amqp091Otel.Channel.StartConsumerSpan | channel.go:79-117 | Appends exactly one new consumer span: child of the context extracted from the headers, with the consume name and the consumer attributes. Registers it under the delivery tag, overwriting any earlier entry and keeping all others. Installs the corrected acknowledger (`Installed`) bound to the channel, the new context and the new span. `ContextFromDelivery` then returns that context. |
| Amqp091Otel.Channel.Get | channel.go:182-189 | Forwards exactly (queue, autoAck) to the broker once and returns its ok and error unchanged. Only with no error and ok does it start a span, register it and instrument the delivery with the corrected acknowledger, whose `acker` is the broker channel. Otherwise the delivery, the registry and the spans are untouched. |
| Amqp091Otel.Channel.Consume | channel.go:119-135 | Forwards exactly its arguments to the broker once. On an error it returns the broker's feed and error unchanged and touches nothing. Otherwise it re-emits every delivery, instrumented, in order: one new consumer span per delivery, in order, and the registry as after registering each tag in turn. Every delivery the broker sent carries the broker channel as its acknowledger, which is what `InstrumentAllForwards` needs. |
| Amqp091Otel.Channel.InstrumentAllForwards | channel.go:108-130 | Every re-emitted delivery differs from the broker's only in its acknowledger. That acknowledger, the corrected one (`Installed`), has the broker channel as its `acker`, is bound to the i-th new span, and carries the context extracted from the delivery's own headers. |
| Amqp091Otel.Channel.Forward | channel.go:126-132 | The forwarding loop: the i-th output delivery is the i-th input instrumented with the i-th new span, in order, and nothing is dropped. |
| Amqp091Otel.Channel.PublishWithDeferredConfirmWithContext | channel.go:144-180 | Exactly one producer span is started and ended. Before the broker call, the span's context is injected into the headers the broker sees. Exactly one broker call carries the caller's exchange, key, flags and message, with the new span's context in place of the caller's `ctx`. The span gets one error event and status (Error, err) iff the call failed. The confirmation and error are returned unchanged. |
| Amqp091Otel.Channel.PublishWithContext | channel.go:137-142 | Exactly one broker call, whose error is returned unchanged. Exactly one new span, ended, with an error event iff the call failed. |

## Left out

- The OpenTelemetry SDK:
  - Spans are records in the tracer's list, and the span id is the index.
  - Attributes are constructors; the `semconv` keys are not modelled.
  - The raw `(code, description)` passed to `SetStatus` is recorded. The SDK's own rules are not modelled, such as dropping an Ok description or ignoring calls on an ended span.
  - In the model, resolving an already-ended span records its event and status again.
- The propagator is an oracle. What `Inject` writes for a context, and what `Extract` reads from a header map, are uninterpreted functions.
- The broker channel (`amqp091.Channel`) is an oracle with a call log and arbitrary replies. `amqp091.ParseURI` is left out: the channel's constructor takes the parsed URI, so the URL-parse error path of `NewChannel` is not modelled.
- `config.go` and `version.go`: the tracer, the propagator and the client library's version are constants given to the channel's constructor. Option plumbing and build-info reading are not modelled.
- `sync.Mutex`: each locked region is one atomic method body, and no interleavings are modelled.
- The `Consume` goroutine and its Go channels:
  - The broker feed is the finite sequence of deliveries it yields before it closes. The re-emitted feed is returned as a whole, in the same order.
  - Acknowledgements that interleave with a running feed are not modelled.
- Carrier: the publishing and delivery carriers have the same bodies over the same header table, so they are modelled once, over the table.
- Carrier.Set: requires a non-nil table, because Go panics on a write into a nil map. The carrier tests (carrier_test.go:56-67, 151-162) call `Set` on a message without headers and expect a populated map. The code as written panics there, and the model follows the code.
- Amqp091Otel.Inject: requires a non-nil table unless the propagator writes nothing, for the same reason.
- Amqp091Otel.Channel.PublishWithDeferredConfirmWithContext: carries the same requirement on the message's headers.
- Amqp091Otel.Acknowledger.Ack, Nack and Reject require an acknowledger that can forward. The acknowledger the code installs cannot, so these calls dereference a nil interface; see Findings.
- Amqp091Otel.Channel.StartConsumerSpan, Amqp091Otel.Channel.Get and Amqp091Otel.Channel.Consume install the corrected acknowledger (`Installed`), whose `acker` is the broker channel the delivery arrived with. The code leaves `acker` nil (see Findings), so their contracts describe the fixed code, not the code as written.
- Amqp091Otel.Installed: a delivery that already carries this package's acknowledger is not covered; its `acker` is left nil, because `acker` holds only a broker channel. Deliveries from the broker always carry the broker channel, so `Get` and `Consume` never meet this case.
- Amqp091Otel.Channel.PublishWithContext: states only the shape of its effect: one broker call whose error it returns, and one ended span with an error event iff the call failed. The full state is stated by the method it delegates to.
- Amqp091Otel.Channel.Consume: states the instrumented feed, the spans and the registry through `InstrumentAll`, `ConsumerSpans` and `RegisterAll`, which are sequence-level definitions. Their element-wise consequences are the lemmas `InstrumentAllForwards`, `RegisterAllKeys`, `RegisterAllKeepsOthers` and `RegisterAllLastWins`.
- Delivery tags are unsigned 64-bit integers (`Registry.Tag`). Nothing in the core does arithmetic on them.

Facts about the code that the model keeps:

- `endMultiple` ranges over a Go map, so the registry is visited in arbitrary order.
- `endOne` ends the acknowledger's own span whether or not its tag is still registered. A second single resolution is a no-op on the registry but ends the span again.
- `Set` on a nil header map panics; the code neither skips the write nor creates the map.
- A `multiple` resolution of tag 0 resolves only an entry registered under tag 0 itself. Section 1.8.3.13 of the AMQP 0-9-1 specification gives tag 0 with `multiple` the meaning "all outstanding messages". Broker tags start at 1, so here the resolution ends no span and leaves the registry as it was, while the broker acknowledges everything outstanding.

## Findings

| source | as written | input that shows it | evidently intended | confidence | as-written member | corrected member |
|---|---|---|---|---|---|---|
| channel.go:108-112 | `startConsumerSpan` installs an acknowledger with `ch`, `ctx` and `span` but never sets `acker`. `Ack`, `Nack` and `Reject` (acknowledger.go:20, 30, 40) then call a method on a nil interface. | Any delivery from `Get` or `Consume`, followed by `msg.Ack(false)`, which calls `msg.Acknowledger.Ack(msg.DeliveryTag, false)` | `acker` is the broker channel the delivery arrived with, so every acknowledgement is forwarded | not executed | Amqp091Otel.InstalledAsWritten, Amqp091Otel.InstalledAsWrittenCannotForward | Amqp091Otel.Installed |
