/**
 * The sampler as the tracer and the codec see it: something that answers
 * `isSampled()`. Which sampler it is (constant, probabilistic, remote) and
 * how it decides are not part of this model; its answer is a field, and
 * every question is counted so that callers can state when they ask.
 */
module Samplers {
  class Sampler {
    /** The answer the sampler gives. */
    var decision: bool
    /** How many times it has been asked. */
    var queries: nat

    constructor(decision: bool)
      ensures this.decision == decision && queries == 0
    {
      this.decision := decision;
      queries := 0;
    }

    /** The `NoopSampler` the tracer substitutes for a missing one: it never samples. */
    constructor Noop()
      ensures !decision && queries == 0
    {
      decision := false;
      queries := 0;
    }

    /** `isSampled()`: the current decision; the question is recorded. */
    method IsSampled() returns (sampled: bool)
      modifies this`queries
      ensures sampled == decision
      ensures queries == old(queries) + 1
    {
      sampled := decision;
      queries := queries + 1;
    }
  }
}
