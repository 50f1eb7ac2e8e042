/**
  The tracing backend and the trace-context propagator, the two external
  collaborators of the instrumentation. Spans are abstract records kept by a
  `Tracer`, which stands for the tracer provider together with an in-memory
  exporter: it remembers every span started and what was done to it. The
  SDK's own rules for overriding a status are not modelled; the raw
  `(code, description)` passed is recorded.
*/
module Trace {
  import opened Wrappers
  import Carrier

  /** A span is named by its position in the tracer's record. */
  type SpanId = nat

  /** A Go `error` value; `text` is what its `Error()` method returns. */
  datatype Err = Err(text: string)

  /** The status codes of a span. */
  datatype Code = Unset | Error | Ok

  datatype Status = Status(code: Code, description: string)

  datatype SpanKind = Producer | Consumer

  /**
    A context, as far as tracing sees it: the background context, a context
    carrying a remote span context that a propagator extracted (abstract), or a
    context with a span started in it.
  */
  datatype Context = Background | Remote(id: nat) | WithSpan(parent: Context, span: SpanId)

  /** The messaging operation a span stands for. */
  datatype Operation = Publish | Receive | Deliver

  /** The span attributes the package sets, one constructor per semantic-convention key. */
  datatype Attr =
    | ServiceName(service: string)
    | ServiceVersion(version: string)
    | MessagingSystem(system: string)
    | NetworkProtocolName(protocol: string)
    | NetworkProtocolVersion(protocolVersion: string)
    | NetworkTransportTcp
    | ServerAddress(address: string)
    | ServerPort(port: int)
    | DestinationAnonymous(anonymous: bool)
    | DestinationName(destination: string)
    | DestinationPublishAnonymous(publishAnonymous: bool)
    | DestinationPublishName(publishName: string)
    | RoutingKey(routingKey: string)
    | MessagingOperation(operation: Operation)
    | ConversationId(conversationId: string)
    | MessageId(messageId: string)

  /** What the tracer knows of one span. */
  datatype SpanData = SpanData(
    name: string,
    kind: SpanKind,
    parent: Context,
    attrs: seq<Attr>,
    ended: bool,
    status: Status,
    events: seq<Err>)

  /** The span as started: open, status unset, no events. */
  function Started(name: string, kind: SpanKind, parent: Context, attrs: seq<Attr>): SpanData
  {
    SpanData(name, kind, parent, attrs, false, Status(Unset, ""), [])
  }

  /** The error events recorded for a call's outcome: one iff the call failed. */
  function ErrorEvents(err: Option<Err>): (r: seq<Err>)
    ensures |r| == (if err.Some? then 1 else 0)
    ensures err.Some? ==> r == [err.value]
  {
    if err.Some? then [err.value] else []
  }

  /**
    A span resolved by an acknowledgement: the call's error recorded as an
    event when there is one, the status set, and the span ended.
  */
  function Resolve(s: SpanData, status: Status, err: Option<Err>): (r: SpanData)
    ensures r.ended && r.status == status
    ensures r.events == s.events + ErrorEvents(err)
    ensures |r.events| == |s.events| + (if err.Some? then 1 else 0)
    ensures r.name == s.name && r.kind == s.kind && r.parent == s.parent && r.attrs == s.attrs
  {
    s.(events := s.events + ErrorEvents(err), status := status, ended := true)
  }

  /** Every span named in `ids` resolved once; all other spans untouched. */
  function ResolveAll(spans: seq<SpanData>, ids: set<SpanId>, status: Status, err: Option<Err>): (r: seq<SpanData>)
    ensures |r| == |spans|
    ensures forall i :: 0 <= i < |spans| && i in ids ==> r[i] == Resolve(spans[i], status, err)
    ensures forall i :: 0 <= i < |spans| && i !in ids ==> r[i] == spans[i]
  {
    seq(|spans|, i requires 0 <= i < |spans| => if i in ids then Resolve(spans[i], status, err) else spans[i])
  }

  /** Resolving one more span, not yet among those resolved, extends `ResolveAll` by that span. */
  lemma ResolveAllStep(spans: seq<SpanData>, ids: set<SpanId>, id: SpanId, status: Status, err: Option<Err>)
    requires id < |spans| && id !in ids
    ensures ResolveAll(spans, ids + {id}, status, err)
            == ResolveAll(spans, ids, status, err)[id := Resolve(spans[id], status, err)]
  {
  }

  /** Resolving a single span is an update of that span alone. */
  lemma ResolveOne(spans: seq<SpanData>, id: SpanId, status: Status, err: Option<Err>)
    requires id < |spans|
    ensures ResolveAll(spans, {id}, status, err) == spans[id := Resolve(spans[id], status, err)]
  {
  }

  /**
    The tracer: starts spans and applies the span operations the package uses
    (`RecordError`, `SetStatus`, `End`) to them.
  */
  class Tracer {
    var spans: seq<SpanData>

    constructor ()
      ensures spans == []
    {
      spans := [];
    }

    /** Start a span as a child of `parent`; the returned context carries it. */
    method Start(parent: Context, name: string, kind: SpanKind, attrs: seq<Attr>) returns (ctx: Context, id: SpanId)
      modifies this
      ensures id == |old(spans)|
      ensures spans == old(spans) + [Started(name, kind, parent, attrs)]
      ensures ctx == WithSpan(parent, id)
    {
      id := |spans|;
      spans := spans + [Started(name, kind, parent, attrs)];
      ctx := WithSpan(parent, id);
    }

    method RecordError(id: SpanId, err: Err)
      requires id < |spans|
      modifies this
      ensures spans == old(spans)[id := old(spans)[id].(events := old(spans)[id].events + [err])]
    {
      spans := spans[id := spans[id].(events := spans[id].events + [err])];
    }

    method SetStatus(id: SpanId, code: Code, description: string)
      requires id < |spans|
      modifies this
      ensures spans == old(spans)[id := old(spans)[id].(status := Status(code, description))]
    {
      spans := spans[id := spans[id].(status := Status(code, description))];
    }

    method End(id: SpanId)
      requires id < |spans|
      modifies this
      ensures spans == old(spans)[id := old(spans)[id].(ended := true)]
    {
      spans := spans[id := spans[id].(ended := true)];
    }

    /**
      What an acknowledgement does to one span: record the error, if there is
      one, set the status and end the span.
    */
    method Finish(id: SpanId, code: Code, description: string, err: Option<Err>)
      requires id < |spans|
      modifies this
      ensures spans == old(spans)[id := Resolve(old(spans)[id], Status(code, description), err)]
    {
      ghost var s := spans[id];
      if err.Some? {
        RecordError(id, err.value);
      } else {
        assert s.events + ErrorEvents(err) == s.events;
        assert old(spans)[id := s] == old(spans);
      }
      assert spans == old(spans)[id := s.(events := s.events + ErrorEvents(err))];
      SetStatus(id, code, description);
      assert spans == old(spans)[id := s.(events := s.events + ErrorEvents(err), status := Status(code, description))];
      End(id);
    }
  }

  /**
    The trace-context propagator, an oracle: `inject` gives the header pairs it
    writes through the carrier for a context, `extract` the parent context it
    reads from a header table (the background context when nothing usable is
    there, which is not an error).
  */
  datatype Propagator = Propagator(
    inject: Context -> seq<(string, string)>,
    extract: map<string, Carrier.Value> -> Context)
}
