/**
 * Cooperative cancellation for long-running computations. The client's
 * cancel callback is an oracle: its answer to the n-th question is
 * `answers(n)`, and `calls` counts the questions asked so far.
 */
module ProgressCancels {

  /** A cancel source that wraps a client callback (std::function<bool()>). */
  class CancelFunction {
    const answers: nat -> bool
    var calls: nat

    constructor (answers: nat -> bool)
      ensures this.answers == answers && calls == 0
    {
      this.answers := answers;
      calls := 0;
    }

    /** Asks the callback once and returns its answer. */
    method Cancelled() returns (r: bool)
      modifies this`calls
      ensures r == answers(old(calls)) && calls == old(calls) + 1
    {
      r := answers(calls);
      calls := calls + 1;
    }
  }

  class ProgressCancel {
    const source: CancelFunction
    /** Set once the source has ever answered true; never cleared. */
    var wasCancelled: bool

    constructor (source: CancelFunction)
      ensures this.source == source && !wasCancelled
    {
      this.source := source;
      wasCancelled := false;
    }

    /** Wraps a callback in a fresh cancel source. */
    constructor FromFunction(answers: nat -> bool)
      ensures fresh(source) && source.answers == answers && source.calls == 0 && !wasCancelled
    {
      source := new CancelFunction(answers);
      wasCancelled := false;
    }

    /**
     * Once cancelled, answers true without asking the source. Otherwise asks
     * the source exactly once and records and returns its answer.
     */
    method Cancelled() returns (r: bool)
      modifies this`wasCancelled, source`calls
      ensures old(wasCancelled) ==> r && source.calls == old(source.calls)
      ensures !old(wasCancelled) ==> r == source.answers(old(source.calls)) && source.calls == old(source.calls) + 1
      ensures wasCancelled == r
    {
      if wasCancelled {
        return true;
      }
      wasCancelled := source.Cancelled();
      r := wasCancelled;
    }
  }

  /**
   * Once a call has answered true, every later call answers true and the
   * source is never consulted again, whatever it would now say.
   */
  method CancellationIsSticky(pc: ProgressCancel) returns (first: bool, second: bool)
    requires pc.source.answers(pc.source.calls)
    requires !pc.wasCancelled
    modifies pc, pc.source
    ensures first && second && pc.wasCancelled
    ensures pc.source.calls == old(pc.source.calls) + 1
  {
    first := pc.Cancelled();
    second := pc.Cancelled();
  }
}
