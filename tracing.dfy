/**
 * `Span` and `Tracer`. A span records annotations (logs) and binary
 * annotations (tags) only while its context is sampled, may be finished
 * once, and on finishing hands itself to its tracer, which adds the tracer
 * tags and passes it to the reporter. The tracer starts spans as roots or as
 * children of a given context. The clock and the random id source are
 * parameters: `now` is what `getTimestamp` returns, `randomId` what
 * `getRandom64` returns.
 */
module Tracing {
  import opened Wrappers
  import opened Dict
  import opened Text
  import opened Util
  import opened SpanContexts
  import opened Samplers
  import opened Reporters

  // ---------------------------------------------------------------------------
  // Tags

  /** A tag value as `addTags` tells them apart: integral numbers, booleans, anything else as text. */
  datatype TagInput = Integral(n: SafeInteger) | Boolean(b: bool) | Textual(s: string)

  /**
   * The binary annotation `addTags` creates for one key and value; an
   * integer gets the corrected `createIntegerTag`, whose buffer holds the value.
   */
  function TagFor(key: string, value: TagInput): (tag: BinaryAnnotation)
    ensures tag.key == key
    ensures value.Integral? ==>
              tag.annotationType == IntegerTagType(value.n) && tag.value.Encoded? &&
              |tag.value.bytes| == Width(tag.annotationType) && SignedValue(tag.value.bytes) == value.n
    ensures value.Boolean? ==> tag == CreateBooleanTag(key, value.b)
    ensures value.Boolean? ==> tag.annotationType == BOOL && (tag.value == Latin1("0x01") <==> value.b)
    ensures value.Textual? ==> tag == CreateStringTag(key, value.s)
  {
    match value
    case Integral(n) => CreateIntegerTag(key, n)
    case Boolean(b) => CreateBooleanTag(key, b)
    case Textual(s) => CreateStringTag(key, s)
  }

  /** One tag per own key, in key order. */
  function TagsFor(pairs: Entries<TagInput>): (tags: seq<BinaryAnnotation>)
    ensures |tags| == |pairs|
    ensures forall i :: 0 <= i < |pairs| ==> tags[i] == TagFor(pairs[i].0, pairs[i].1)
  {
    seq(|pairs|, i requires 0 <= i < |pairs| => TagFor(pairs[i].0, pairs[i].1))
  }

  lemma TagsForStep(pairs: Entries<TagInput>, i: nat)
    requires i < |pairs|
    ensures TagsFor(pairs[..i + 1]) == TagsFor(pairs[..i]) + [TagFor(pairs[i].0, pairs[i].1)]
  {
    assert pairs[..i + 1][..i] == pairs[..i];
  }

  // ---------------------------------------------------------------------------
  // Logs

  /**
   * The fields object handed to `log`: a timestamp (0 when missing, as it is
   * then falsy), an event, and a payload given by its JSON text.
   */
  datatype LogFields = LogFields(timestamp: int, event: Option<EventName>, payload: Option<string>)

  /** `fields.event` is truthy: present and not the empty string. */
  predicate HasEvent(fields: LogFields) {
    fields.event.Some? && fields.event.value != Named("")
  }

  /** `log` throws when neither an event nor a payload is given. */
  predicate Loggable(fields: LogFields) {
    HasEvent(fields) || fields.payload.Some?
  }

  /**
   * The annotation `log` records: the given timestamp or else the clock,
   * the event or else the serialised payload, and the tracer's host.
   */
  function LogAnnotation(fields: LogFields, now: int, host: Endpoint): (a: Annotation)
    requires Loggable(fields)
    ensures a.timestamp == if fields.timestamp != 0 then fields.timestamp else now
    ensures HasEvent(fields) ==> a.value == Event(fields.event.value)
    ensures !HasEvent(fields) ==> a.value == Payload(fields.payload.value)
    ensures a.host == Some(host)
  {
    var timestamp := if fields.timestamp != 0 then fields.timestamp else now;
    var value := if HasEvent(fields) then Event(fields.event.value) else Payload(fields.payload.value);
    Annotation(timestamp, value, Some(host))
  }

  /** `finishTime || getTimestamp()`. */
  function EndTime(finishTime: int, now: int): int {
    if finishTime != 0 then finishTime else now
  }

  // ---------------------------------------------------------------------------
  // The reporter a tracer holds

  datatype ReporterChoice =
    | Buffering(buffer: TCollectorTraceReporter<Span>)
    | RateLimited(limited: RateLimitingReporter<Span>)
    | Silent(noop: NoopReporter<Span>)

  // ---------------------------------------------------------------------------
  // Span

  class Span {
    const tracer: Tracer
    var name: string
    const context: SpanContext
    const timestamp: int
    var duration: int
    const isClient: bool
    const peer: Option<Endpoint>
    var ended: bool
    /** Logs. */
    var annotations: seq<Annotation>
    /** Tags. */
    var binaryAnnotations: seq<BinaryAnnotation>

    constructor(tracer: Tracer, name: string, context: SpanContext, timestamp: int,
                isClient: bool, peer: Option<Endpoint>)
      ensures this.tracer == tracer && this.name == name && this.context == context
      ensures this.timestamp == timestamp && this.isClient == isClient && this.peer == peer
      ensures duration == 0 && !ended && annotations == [] && binaryAnnotations == []
    {
      this.tracer := tracer;
      this.name := name;
      this.context := context;
      this.timestamp := timestamp;
      this.isClient := isClient;
      this.peer := peer;
      duration := 0;
      ended := false;
      annotations := [];
      binaryAnnotations := [];
    }

    /** `setOperationName` changes the name and nothing else. */
    method SetOperationName(name: string)
      modifies this`name
      ensures this.name == name
    {
      this.name := name;
    }

    /**
     * `addTags`: on a sampled span, one tag per pair in order; on an
     * unsampled one, nothing.
     */
    method AddTags(pairs: Entries<TagInput>)
      modifies this`binaryAnnotations
      ensures binaryAnnotations == old(binaryAnnotations) + if context.IsSampled() then TagsFor(pairs) else []
    {
      if context.IsSampled() {
        var i := 0;
        while i < |pairs|
          invariant 0 <= i <= |pairs|
          invariant binaryAnnotations == old(binaryAnnotations) + TagsFor(pairs[..i])
        {
          var (key, value) := pairs[i];
          var tag := TagFor(key, value);
          TagsForStep(pairs, i);
          binaryAnnotations := binaryAnnotations + [tag];
          i := i + 1;
        }
        assert pairs[..i] == pairs;
      }
    }

    /**
     * `log`: on a sampled span, one annotation, or `thrown` when neither an
     * event nor a payload is given; on an unsampled span, nothing.
     */
    method Log(fields: LogFields, now: int) returns (thrown: bool)
      modifies this`annotations
      ensures thrown <==> context.IsSampled() && !Loggable(fields)
      ensures context.IsSampled() && Loggable(fields) ==>
                annotations == old(annotations) + [LogAnnotation(fields, now, tracer.host)]
      ensures !(context.IsSampled() && Loggable(fields)) ==> annotations == old(annotations)
    {
      thrown := false;
      if context.IsSampled() {
        var timestamp := fields.timestamp;
        if timestamp == 0 {
          timestamp := now;
        }
        if !HasEvent(fields) && fields.payload.None? {
          return true;
        }
        var value := if HasEvent(fields) then Event(fields.event.value) else Payload(fields.payload.value);
        annotations := annotations + [Annotation(timestamp, value, Some(tracer.host))];
      }
    }

    /**
     * `finish`: a second call fails (`ok` false) and changes nothing. The
     * first marks the span ended; if the span is sampled and has a start
     * time, it also sets the duration, logs the closing event and reports the
     * span through its tracer exactly once.
     */
    method Finish(finishTime: int, now: int) returns (ok: bool)
      requires tracer.Valid()
      modifies this, tracer.ReporterObjects()
      ensures tracer.Valid()
      ensures ok == !old(ended) && ended
      ensures ok && context.IsSampled() && timestamp != 0 ==>
                duration == EndTime(finishTime, now) - timestamp &&
                annotations == old(annotations) +
                  [Annotation(EndTime(finishTime, now), Event(if isClient then ClientRecv else ServerSend), Some(tracer.host))] &&
                binaryAnnotations == old(binaryAnnotations) + TagsFor(tracer.tracerTags) &&
                tracer.Offered() == old(tracer.Offered()) + [this]
      ensures !(ok && context.IsSampled() && timestamp != 0) ==>
                duration == old(duration) && annotations == old(annotations) &&
                binaryAnnotations == old(binaryAnnotations) && tracer.Offered() == old(tracer.Offered())
      ensures !(ok && context.IsSampled() && timestamp != 0) ==> unchanged(tracer.ReporterObjects())
      ensures name == old(name)
    {
      if ended {
        return false;
      }
      ok := true;
      ended := true;
      if context.IsSampled() && timestamp != 0 {
        var endTime := if finishTime != 0 then finishTime else now;
        duration := endTime - timestamp;
        var event := if isClient then ClientRecv else ServerSend;
        var _ := Log(LogFields(endTime, Some(event), None), now);
        tracer.Report(this);
      }
    }
  }

  // ---------------------------------------------------------------------------
  // Tracer

  /** The options `startSpan` reads. */
  datatype SpanOptions = SpanOptions(operationName: string, childOf: Option<SpanContext>,
                                     isClient: bool, peer: Option<Endpoint>)

  class Tracer {
    const serviceName: string
    const reporter: ReporterChoice
    const sampler: Sampler
    const host: Endpoint
    var tracerTags: Entries<TagInput>

    /** The objects the reporter is made of. */
    function ReporterObjects(): set<object> {
      match reporter
      case Buffering(b) => {b}
      case RateLimited(r) => {r, r.limiter, r.delegate}
      case Silent(n) => {n}
    }

    /** The spans handed to the reporter so far. */
    ghost function Offered(): seq<Span>
      reads ReporterObjects()
    {
      match reporter
      case Buffering(b) => b.reported
      case RateLimited(r) => r.offered
      case Silent(n) => n.offered
    }

    ghost predicate Valid()
      reads this, ReporterObjects()
    {
      match reporter
      case Buffering(b) => b.Valid()
      case RateLimited(r) => r.delegate.Valid()
      case Silent(_) => true
    }

    /**
     * The constructor: a missing reporter or sampler becomes the Noop one,
     * the `jaegerClient` tag names the client version, and the host is the
     * endpoint of `localIp` and `port`.
     */
    constructor(serviceName: string, reporter: Option<ReporterChoice>, sampler: Option<Sampler>,
                port: Option<int>, tracerTags: Entries<TagInput>, version: string, localIp: string)
      requires reporter.Some? ==> reporter.value.Buffering? ==> reporter.value.buffer.Valid()
      requires reporter.Some? ==> reporter.value.RateLimited? ==> reporter.value.limited.delegate.Valid()
      ensures this.serviceName == serviceName
      ensures this.tracerTags == Put(tracerTags, "jaegerClient", Textual("Node-" + version))
      ensures reporter.Some? ==> this.reporter == reporter.value
      ensures reporter.None? ==> this.reporter.Silent? && fresh(this.reporter.noop)
      ensures sampler.Some? ==> this.sampler == sampler.value
      ensures sampler.None? ==> fresh(this.sampler) && !this.sampler.decision
      ensures host.serviceName == serviceName && host.port == (if port.Some? then port.value else 0)
      ensures host.ipv4 == IpFold(Split(if localIp == "localhost" then "127.0.0.1" else localIp, '.'))
      ensures Valid()
    {
      this.tracerTags := Put(tracerTags, "jaegerClient", Textual("Node-" + version));
      this.serviceName := serviceName;
      if reporter.Some? {
        this.reporter := reporter.value;
      } else {
        var noop := new NoopReporter<Span>();
        this.reporter := Silent(noop);
      }
      if sampler.Some? {
        this.sampler := sampler.value;
      } else {
        var noop := new Sampler.Noop();
        this.sampler := noop;
      }
      var endpoint := CreateEndpoint(serviceName, localIp, port);
      this.host := endpoint;
    }

    /** `_report`: the tracer tags go onto the span, then the span goes to the reporter once. */
    method Report(span: Span)
      requires Valid()
      modifies span`binaryAnnotations, ReporterObjects()
      ensures Valid()
      ensures span.binaryAnnotations ==
                old(span.binaryAnnotations) + if span.context.IsSampled() then TagsFor(tracerTags) else []
      ensures Offered() == old(Offered()) + [span]
    {
      span.AddTags(tracerTags);
      HandOver(span);
    }

    /** `this._reporter.report(span)`, whichever reporter it is, without a callback. */
    method HandOver(span: Span)
      requires Valid()
      modifies ReporterObjects()
      ensures Valid()
      ensures Offered() == old(Offered()) + [span]
    {
      match reporter
      case Buffering(b) =>
        b.Report(span, false);
      case RateLimited(r) =>
        var _ := r.Report(span, false);
      case Silent(n) =>
        n.Report(span);
    }

    /**
     * `_createSpan`: a span holding exactly the given context, started now,
     * that logs `CLIENT_SEND` (client) or `SERVER_RECV` (server) at its start
     * time; the log takes effect only on a sampled context.
     */
    method CreateSpan(operationName: string, spanContext: SpanContext, isClient: bool,
                      peer: Option<Endpoint>, now: int) returns (span: Span)
      ensures fresh(span)
      ensures span.tracer == this && span.context == spanContext && span.name == operationName
      ensures span.timestamp == now && span.isClient == isClient && span.peer == peer
      ensures span.duration == 0 && !span.ended && span.binaryAnnotations == []
      ensures span.annotations ==
                if spanContext.IsSampled()
                then [Annotation(now, Event(if isClient then ClientSend else ServerRecv), Some(host))]
                else []
    {
      span := new Span(this, operationName, spanContext, now, isClient, peer);
      var event := if isClient then ClientSend else ServerRecv;
      var _ := span.Log(LogFields(span.timestamp, Some(event), None), now);
    }

    /**
     * `startSpan`: the sampler is always asked. A child takes the trace id,
     * flags and (as parent) the span id of `childOf`, with the fresh id as
     * its span id, and is a client span; a root uses the fresh id for both
     * ids and is sampled iff the sampler said so. No baggage is carried over.
     */
    method StartSpan(options: SpanOptions, randomId: Id, now: int) returns (span: Span)
      modifies sampler`queries
      ensures sampler.queries == old(sampler.queries) + 1
      ensures fresh(span) && fresh(span.context)
      ensures span.context.Ident() ==
                if options.childOf.Some? then ChildIdentity(options.childOf.value.Ident(), randomId)
                else RootIdentity(randomId, sampler.decision)
      ensures span.context.Valid() && span.context.baggage == []
      ensures span.isClient == (options.isClient || options.childOf.Some?)
      ensures span.tracer == this && span.name == options.operationName && span.timestamp == now
      ensures span.peer == options.peer && !span.ended && span.duration == 0
      ensures span.annotations ==
                if span.context.IsSampled()
                then [Annotation(now, Event(if span.isClient then ClientSend else ServerRecv), Some(host))]
                else []
    {
      var isClient := options.isClient || options.childOf.Some?;
      var flags := 0;
      var sampled := sampler.IsSampled();
      if sampled {
        flags := SAMPLED_MASK;
      }
      var spanContext: SpanContext;
      if options.childOf.Some? {
        var parent := options.childOf.value;
        spanContext := new SpanContext(parent.traceId, randomId, Some(parent.spanId), parent.flags);
      } else {
        spanContext := new SpanContext(randomId, randomId, None, flags);
      }
      span := CreateSpan(options.operationName, spanContext, isClient, options.peer, now);
    }
  }
}
