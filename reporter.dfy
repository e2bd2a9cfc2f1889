/**
 * The reporters a tracer hands finished spans to: one that drops them, one
 * that buffers them and submits them to the collector proxy in batches, and
 * one that forwards to another reporter only while a rate limiter grants
 * credit. Callbacks are modelled by whether one was given and whether it is
 * called; the proxy is modelled by the sequence of submissions it receives.
 */
module Reporters {
  import opened Wrappers

  const DEFAULT_FLUSH_LENGTH: int := 10

  // ---------------------------------------------------------------------------
  // NoopReporter

  class NoopReporter<S> {
    /** Every span handed to `report` so far (an observation, not state of the source). */
    ghost var offered: seq<S>

    constructor()
      ensures offered == []
    {
      offered := [];
    }

    /** `report` does nothing with the span. */
    method Report(span: S)
      modifies this
      ensures offered == old(offered) + [span]
    {
      offered := offered + [span];
    }

    /** `close` calls the callback when one is given. */
    method Close(hasCallback: bool) returns (callbackCalled: bool)
      ensures callbackCalled == hasCallback
    {
      callbackCalled := false;
      if hasCallback {
        callbackCalled := true;
      }
    }
  }

  // ---------------------------------------------------------------------------
  // TCollectorTraceReporter as a state machine

  /**
   * One call of `proxy.submitSpans`: the batch, and whether the caller's
   * callback rides on it (to be called once the proxy is done with it).
   */
  datatype Submission<S> = Submission(batch: seq<S>, withCallback: bool)

  /** All submitted batches, one after the other. */
  function Batches<S>(submitted: seq<Submission<S>>): seq<S> {
    if submitted == [] then []
    else Batches(submitted[..|submitted| - 1]) + submitted[|submitted| - 1].batch
  }

  /** The buffer, the flush threshold, and what the proxy has received so far. */
  datatype BufferState<S> = BufferState(spans: seq<S>, flushLength: int, submitted: seq<Submission<S>>)

  /** `options.flushLength || DEFAULT_FLUSH_LENGTH`: `None` and 0 are falsy. */
  function FlushLengthOf(option: Option<int>): (flushLength: int)
    ensures option.Some? && option.value != 0 ==> flushLength == option.value
    ensures option.None? || option == Some(0) ==> flushLength == 10
  {
    match option
    case Some(n) => if n != 0 then n else DEFAULT_FLUSH_LENGTH
    case None => DEFAULT_FLUSH_LENGTH
  }

  /** `report`: append; once the buffer holds `flushLength` spans, submit it whole with the callback. */
  function ReportStep<S>(st: BufferState<S>, span: S, hasCallback: bool): (next: BufferState<S>)
    ensures next.flushLength == st.flushLength
    ensures Batches(next.submitted) + next.spans == Batches(st.submitted) + st.spans + [span]
    ensures next.spans == [] || |next.spans| < next.flushLength
  {
    var spans := st.spans + [span];
    if |spans| >= st.flushLength then
      BatchesAppend(st.submitted, Submission(spans, hasCallback));
      BufferState([], st.flushLength, st.submitted + [Submission(spans, hasCallback)])
    else
      st.(spans := spans)
  }

  /** `close`: the threshold drops to 0 and the buffer, even an empty one, is submitted. */
  function CloseStep<S>(st: BufferState<S>, hasCallback: bool): (next: BufferState<S>)
    ensures next.spans == [] && next.flushLength == 0
    ensures next.submitted == st.submitted + [Submission(st.spans, hasCallback)]
    ensures Batches(next.submitted) == Batches(st.submitted) + st.spans
  {
    BatchesAppend(st.submitted, Submission(st.spans, hasCallback));
    BufferState([], 0, st.submitted + [Submission(st.spans, hasCallback)])
  }

  lemma BatchesAppend<S>(submitted: seq<Submission<S>>, s: Submission<S>)
    ensures Batches(submitted + [s]) == Batches(submitted) + s.batch
  {
    assert (submitted + [s])[..|submitted|] == submitted;
  }

  /** A call on the buffering reporter. */
  datatype Call<S> = ReportCall(span: S, hasCallback: bool) | CloseCall(closeCallback: bool)

  function Run<S>(st: BufferState<S>, calls: seq<Call<S>>): BufferState<S> {
    if calls == [] then st
    else
      var prev := Run(st, calls[..|calls| - 1]);
      match calls[|calls| - 1]
      case ReportCall(span, cb) => ReportStep(prev, span, cb)
      case CloseCall(cb) => CloseStep(prev, cb)
  }

  /** The spans handed to `report`, in order. */
  function ReportedSpans<S>(calls: seq<Call<S>>): seq<S> {
    if calls == [] then []
    else
      var init := ReportedSpans(calls[..|calls| - 1]);
      match calls[|calls| - 1]
      case ReportCall(span, _) => init + [span]
      case CloseCall(_) => init
  }

  /**
   * Conservation: whatever the calls, the submitted batches followed by the
   * buffer are the reported spans, none lost, repeated or reordered.
   */
  lemma {:induction false} Conservation<S>(st: BufferState<S>, calls: seq<Call<S>>)
    ensures Batches(Run(st, calls).submitted) + Run(st, calls).spans ==
            Batches(st.submitted) + st.spans + ReportedSpans(calls)
  {
    if calls != [] {
      Conservation(st, calls[..|calls| - 1]);
    }
  }

  /** Reporting fewer than `flushLength` spans into an empty buffer submits nothing. */
  lemma {:induction false} FillBelowThreshold<S>(flushLength: int, submitted: seq<Submission<S>>, spans: seq<S>)
    requires |spans| < flushLength
    ensures Run(BufferState([], flushLength, submitted), Reports(spans)) == BufferState(spans, flushLength, submitted)
  {
    if spans != [] {
      var init := spans[..|spans| - 1];
      FillBelowThreshold(flushLength, submitted, init);
      assert Reports(spans)[..|spans| - 1] == Reports(init);
      assert init + [spans[|spans| - 1]] == spans;
    }
  }

  /**
   * Reporting exactly `flushLength` spans into an empty buffer submits them
   * all, in order, as one batch, and leaves the buffer empty.
   */
  lemma FlushAtThreshold<S>(flushLength: int, submitted: seq<Submission<S>>, spans: seq<S>)
    requires flushLength >= 1 && |spans| == flushLength
    ensures Run(BufferState([], flushLength, submitted), Reports(spans)) ==
            BufferState([], flushLength, submitted + [Submission(spans, false)])
  {
    var init := spans[..|spans| - 1];
    FillBelowThreshold(flushLength, submitted, init);
    assert Reports(spans)[..|spans| - 1] == Reports(init);
    assert init + [spans[|spans| - 1]] == spans;
  }

  /** Each span reported without a callback. */
  function Reports<S>(spans: seq<S>): (calls: seq<Call<S>>)
    ensures |calls| == |spans|
    ensures forall i :: 0 <= i < |spans| ==> calls[i] == ReportCall(spans[i], false)
  {
    seq(|spans|, i requires 0 <= i < |spans| => ReportCall(spans[i], false))
  }

  /** One single-span batch per span, without callbacks. */
  function Singletons<S>(spans: seq<S>): (submitted: seq<Submission<S>>)
    ensures |submitted| == |spans|
    ensures forall i :: 0 <= i < |spans| ==> submitted[i] == Submission([spans[i]], false)
  {
    seq(|spans|, i requires 0 <= i < |spans| => Submission([spans[i]], false))
  }

  /** After `close`, every report submits a batch of just that span. */
  lemma {:induction false} ReportsAfterClose<S>(submitted: seq<Submission<S>>, spans: seq<S>)
    ensures Run(BufferState([], 0, submitted), Reports(spans)) ==
            BufferState([], 0, submitted + Singletons(spans))
  {
    if spans != [] {
      var init := spans[..|spans| - 1];
      ReportsAfterClose(submitted, init);
      var calls := Reports(spans);
      assert calls[..|calls| - 1] == Reports(init);
      var last := Submission([spans[|spans| - 1]], false);
      var prev := BufferState([], 0, submitted + Singletons(init));
      assert Run(BufferState([], 0, submitted), calls) == ReportStep(prev, spans[|spans| - 1], false);
      assert prev.spans + [spans[|spans| - 1]] == [spans[|spans| - 1]];
      assert ReportStep(prev, spans[|spans| - 1], false) == BufferState([], 0, prev.submitted + [last]);
      assert Singletons(spans) == Singletons(init) + [last];
      assert submitted + Singletons(spans) == (submitted + Singletons(init)) + [last];
    }
  }

  // ---------------------------------------------------------------------------
  // TCollectorTraceReporter

  class TCollectorTraceReporter<S> {
    /** The buffer of spans not yet submitted. */
    var spans: seq<S>
    var flushLength: int
    /** Every `proxy.submitSpans` call so far. */
    ghost var submitted: seq<Submission<S>>
    /** Every span handed to `report` so far. */
    ghost var reported: seq<S>

    ghost function State(): BufferState<S>
      reads this
    {
      BufferState(spans, flushLength, submitted)
    }

    /** Conservation, and a buffer that stays below the threshold between calls. */
    ghost predicate Valid()
      reads this
    {
      Batches(submitted) + spans == reported &&
      (spans == [] || |spans| < flushLength)
    }

    constructor(flushLengthOption: Option<int>)
      ensures State() == BufferState([], FlushLengthOf(flushLengthOption), [])
      ensures reported == [] && Valid()
    {
      spans := [];
      flushLength := FlushLengthOf(flushLengthOption);
      submitted := [];
      reported := [];
    }

    method Report(span: S, hasCallback: bool)
      requires Valid()
      modifies this
      ensures Valid()
      ensures State() == ReportStep(old(State()), span, hasCallback)
      ensures reported == old(reported) + [span]
    {
      spans := spans + [span];
      reported := reported + [span];
      if |spans| >= flushLength {
        Flush(hasCallback);
      }
    }

    /** `_flush`: the whole buffer goes to the proxy and the buffer starts again empty. */
    method Flush(hasCallback: bool)
      modifies this`spans, this`submitted
      ensures spans == [] && submitted == old(submitted) + [Submission(old(spans), hasCallback)]
    {
      var batch := spans;
      spans := [];
      submitted := submitted + [Submission(batch, hasCallback)];
    }

    method Close(hasCallback: bool)
      requires Valid()
      modifies this
      ensures Valid()
      ensures State() == CloseStep(old(State()), hasCallback)
      ensures reported == old(reported)
    {
      flushLength := 0;
      Flush(hasCallback);
    }
  }

  // ---------------------------------------------------------------------------
  // RateLimitingReporter

  /** The leaky-bucket limiter seen through its answers to `checkCredit`. */
  class CreditLimiter {
    /** Whether credit is available now. */
    var available: bool
    /** The cost of every `checkCredit` call so far. */
    ghost var checks: seq<int>

    constructor(available: bool)
      ensures this.available == available && checks == []
    {
      this.available := available;
      checks := [];
    }

    method CheckCredit(cost: int) returns (granted: bool)
      modifies this`checks
      ensures granted == available
      ensures checks == old(checks) + [cost]
    {
      granted := available;
      checks := checks + [cost];
    }
  }

  class RateLimitingReporter<S> {
    const limiter: CreditLimiter
    const cost: int := 1
    const delegate: TCollectorTraceReporter<S>
    /** Every span handed to `report` so far, forwarded or dropped. */
    ghost var offered: seq<S>

    /** The delegate is required (non-null); `limiter` stands for `RateLimiter(maxSpansPerSecond)`. */
    constructor(delegate: TCollectorTraceReporter<S>, limiter: CreditLimiter)
      ensures this.delegate == delegate && this.limiter == limiter && cost == 1
      ensures offered == []
    {
      offered := [];
      this.delegate := delegate;
      this.limiter := limiter;
    }

    /**
     * `report`: with credit, the span and callback go to the delegate and this
     * reporter calls nothing; without, the span is dropped and the callback
     * is called when one is given.
     */
    method Report(span: S, hasCallback: bool) returns (callbackCalled: bool)
      requires delegate.Valid()
      modifies this, limiter`checks, delegate
      ensures delegate.Valid()
      ensures offered == old(offered) + [span]
      ensures limiter.checks == old(limiter.checks) + [1]
      ensures limiter.available ==>
                delegate.State() == ReportStep(old(delegate.State()), span, hasCallback) &&
                delegate.reported == old(delegate.reported) + [span] && !callbackCalled
      ensures !limiter.available ==>
                delegate.State() == old(delegate.State()) && delegate.reported == old(delegate.reported) &&
                callbackCalled == hasCallback
    {
      callbackCalled := false;
      offered := offered + [span];
      var granted := limiter.CheckCredit(cost);
      if granted {
        delegate.Report(span, hasCallback);
      } else if hasCallback {
        callbackCalled := true;
      }
    }

    /** `close` delegates. */
    method Close(hasCallback: bool)
      requires delegate.Valid()
      modifies delegate
      ensures delegate.Valid()
      ensures delegate.State() == CloseStep(old(delegate.State()), hasCallback)
      ensures delegate.reported == old(delegate.reported)
    {
      delegate.Close(hasCallback);
    }
  }
}
