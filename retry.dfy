/**
 * The bounded retry loop the question, track and roadmap agents share:
 *
 *   for attempt in range(3): try the model call; return the first extracted
 *   value; after every failed attempt (unusable reply or raised exception)
 *   sleep 2 * (attempt + 1) seconds; after the last attempt fall back.
 *
 * The model call is an oracle: `replies[i]` is what attempt `i` gets back, and
 * `step` is the agent's own treatment of one reply (its failure branches and
 * its extractor), `None` meaning the attempt failed. Sleeping is recorded as
 * the list of delays, in seconds, in the order they happen.
 */
module Retry {
  import opened Wrappers

  const MaxRetries: nat := 3

  /**
   * What one `AgentExecutor.ainvoke` gives the track and roadmap agents: an
   * exception, or a response whose "output" entry is missing (None) or a string.
   */
  datatype AgentReply = AgentRaised | AgentResponse(output: Option<string>)

  /** The delay after failed attempt `attempt` (0-based). */
  function Backoff(attempt: nat): nat {
    2 * (attempt + 1)
  }

  /** The delays slept after `failures` consecutive failed attempts. */
  function BackoffSchedule(failures: nat): (ds: seq<nat>)
    ensures |ds| == failures
    ensures forall k :: 0 <= k < failures ==> ds[k] == Backoff(k)
  {
    if failures == 0 then [] else BackoffSchedule(failures - 1) + [Backoff(failures - 1)]
  }

  /** The delays grow strictly; with every attempt failing they are 2, 4 and 6 seconds, 12 in all. */
  lemma BackoffIncreasing(failures: nat)
    ensures forall i, j :: 0 <= i < j < failures ==> BackoffSchedule(failures)[i] < BackoffSchedule(failures)[j]
    ensures BackoffSchedule(MaxRetries) == [2, 4, 6]
  {
  }

  /**
   * The loop from attempt `i` on: the first attempt whose reply `step` accepts
   * ends it, with its value and the number of calls made so far; if none does,
   * the result is None after `MaxRetries` calls.
   */
  function RunFrom<R, T>(replies: seq<R>, step: R -> Option<T>, i: nat): (Option<T>, nat)
    requires MaxRetries <= |replies| && i <= MaxRetries
    decreases MaxRetries - i
  {
    if i == MaxRetries then (None, MaxRetries)
    else if step(replies[i]).Some? then (step(replies[i]), i + 1)
    else RunFrom(replies, step, i + 1)
  }

  /** The outcome of the whole loop and the number of model calls it makes. */
  function Run<R, T>(replies: seq<R>, step: R -> Option<T>): (r: (Option<T>, nat))
    requires MaxRetries <= |replies|
    ensures 1 <= r.1 <= MaxRetries
    ensures r.0.Some? ==> r.0 == step(replies[r.1 - 1])
    ensures forall k :: 0 <= k < r.1 - 1 ==> step(replies[k]).None?
    ensures r.0.None? <==> r.1 == MaxRetries && step(replies[MaxRetries - 1]).None?
  {
    RunFromSpec(replies, step, 0);
    RunFrom(replies, step, 0)
  }

  lemma {:induction false} RunFromSpec<R, T>(replies: seq<R>, step: R -> Option<T>, i: nat)
    requires MaxRetries <= |replies| && i <= MaxRetries
    ensures var r := RunFrom(replies, step, i);
            && i <= r.1 <= MaxRetries
            && (r.0.Some? ==> i < r.1 && r.0 == step(replies[r.1 - 1]))
            && (forall k :: i <= k < r.1 - 1 ==> step(replies[k]).None?)
            && (r.0.None? <==> r.1 == MaxRetries && (i < MaxRetries ==> step(replies[MaxRetries - 1]).None?))
    decreases MaxRetries - i
  {
    if i < MaxRetries && step(replies[i]).None? {
      RunFromSpec(replies, step, i + 1);
    }
  }

  /** None comes back exactly when every attempt fails. */
  lemma ExhaustedIffAllFail<R, T>(replies: seq<R>, step: R -> Option<T>)
    requires MaxRetries <= |replies|
    ensures Run(replies, step).0.None? <==> forall k :: 0 <= k < MaxRetries ==> step(replies[k]).None?
  {
    var r := Run(replies, step);
    if r.0.Some? {
      assert step(replies[r.1 - 1]).Some?;
    }
  }

  /** An accepted first reply ends the loop after one call; later replies play no part. */
  lemma FirstAcceptedWins<R, T>(replies: seq<R>, step: R -> Option<T>)
    requires MaxRetries <= |replies| && step(replies[0]).Some?
    ensures Run(replies, step) == (step(replies[0]), 1)
  {
  }

  /** The loop looks at no reply beyond the last call it makes. */
  lemma RunUsesOnlyCalledReplies<R, T>(replies: seq<R>, other: seq<R>, step: R -> Option<T>)
    requires MaxRetries <= |replies| && MaxRetries <= |other|
    requires forall k :: 0 <= k < Run(replies, step).1 ==> other[k] == replies[k]
    ensures Run(other, step) == Run(replies, step)
  {
    var r := Run(replies, step);
    var o := Run(other, step);
    assert forall k :: 0 <= k < r.1 - 1 ==> step(other[k]).None?;
    assert step(other[r.1 - 1]) == step(replies[r.1 - 1]);
  }

  /** The number of failed attempts behind an outcome: every call but an accepted last one. */
  function Failures<T>(r: (Option<T>, nat)): nat
    requires r.1 >= 1
  {
    if r.0.Some? then r.1 - 1 else r.1
  }

  /**
   * The loop itself: makes the calls in order, stops at the first accepted
   * reply and sleeps after every failure, the last one included.
   */
  method RetryLoop<R, T>(replies: seq<R>, step: R -> Option<T>) returns (result: Option<T>, calls: nat, delays: seq<nat>)
    requires MaxRetries <= |replies|
    ensures (result, calls) == Run(replies, step)
    ensures delays == BackoffSchedule(Failures((result, calls)))
  {
    var attempt: nat := 0;
    delays := [];
    while attempt < MaxRetries
      invariant attempt <= MaxRetries
      invariant RunFrom(replies, step, attempt) == RunFrom(replies, step, 0)
      invariant delays == BackoffSchedule(attempt)
    {
      var extracted := step(replies[attempt]);
      if extracted.Some? {
        RunFromSpec(replies, step, 0);
        return extracted, attempt + 1, delays;
      }
      delays := delays + [Backoff(attempt)];
      attempt := attempt + 1;
    }
    RunFromSpec(replies, step, 0);
    return None, MaxRetries, delays;
  }
}
