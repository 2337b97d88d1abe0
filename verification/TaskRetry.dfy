/**
  The retry loop of one task (`executeTaskWithCompact` and
  `handleAutoContinuation` in harness/loop-runtime.ts) with its output limit
  handler (harness/output-limit-handler.ts).

  `replies` says what each turn of the loop gets back, for ever; the loop
  decides how many of them it takes.
 */
module TaskRetry {
  import opened Common

  function Pow2(n: nat): (p: nat)
    ensures 1 <= p
  {
    if n == 0 then 1 else 2 * Pow2(n - 1)
  }

  /** What one turn gets back from the agent, with or without the orchestrator. */
  datatype Reply =
    | Complete          // success, within the output limit
    | Truncated         // success, but cut at the output limit or at a compaction boundary
    | CircuitBroken     // failure with the breaker engaged
    | Compacted(continueMessage: bool)  // failure that carries a compaction
    | QuotaHit
    | Failure

  datatype Outcome = Done | Paused | BlockedByBreaker | RetriesExceeded | RecoveryExhausted | Failed

  class OutputLimitHandler {
    const maxAttempts: nat
    const backoffMs: nat
    var attempts: nat
    /** The milliseconds spent waiting since the handler was made. */
    ghost var waited: nat

    constructor (maxAttempts: nat, backoffMs: nat)
      ensures attempts == 0 && waited == 0 && this.maxAttempts == maxAttempts && this.backoffMs == backoffMs
    {
      this.maxAttempts, this.backoffMs, attempts, waited := maxAttempts, backoffMs, 0, 0;
    }

    /** All waits so far belong to the attempts counted, each twice as long as the one before. */
    ghost predicate WaitedInFull()
      reads this
    {
      waited == backoffMs * (Pow2(attempts) - 1)
    }

    predicate ShouldContinue()
      reads this
    {
      attempts < maxAttempts
    }

    /** Counts the attempt, then waits twice as long as the time before. */
    method HandleOutputLimit() returns (delay: nat)
      modifies this
      ensures attempts == old(attempts) + 1
      ensures delay == backoffMs * Pow2(old(attempts)) && waited == old(waited) + delay
    {
      attempts := attempts + 1;
      delay := backoffMs * Pow2(attempts - 1);
      waited := waited + delay;
    }

    method Reset()
      modifies this
      ensures attempts == 0 && waited == old(waited)
    {
      attempts := 0;
    }
  }

  /** A reply after which the loop takes another turn. */
  predicate GoesOn(reply: Reply) {
    reply.Truncated? || reply.Compacted?
  }

  function CountTruncated(replies: nat -> Reply, turns: nat): (n: nat)
    ensures n <= turns
  {
    if turns == 0 then 0 else CountTruncated(replies, turns - 1) + if replies(turns - 1).Truncated? then 1 else 0
  }

  function CountCompacted(replies: nat -> Reply, turns: nat): (n: nat)
    ensures n <= turns
  {
    if turns == 0 then 0 else CountCompacted(replies, turns - 1) + if replies(turns - 1).Compacted? then 1 else 0
  }

  /** The messages a turn appends: the answer and a continue message, or only one of them. */
  function Appended(replies: nat -> Reply, turns: nat): nat {
    if turns == 0 then 0
    else
      Appended(replies, turns - 1) +
      match replies(turns - 1)
      case Truncated => 2
      case Compacted(continueMessage) => if continueMessage then 1 else 0
      case _ => 0
  }

  /** The turns with a reply of a kind. */
  function TurnsWith(replies: nat -> Reply, turns: nat, kind: Reply -> bool): set<nat> {
    set i: nat | i < turns && kind(replies(i))
  }

  lemma OneMoreTurn(replies: nat -> Reply, turns: nat, kind: Reply -> bool)
    ensures TurnsWith(replies, 0, kind) == {}
    ensures |TurnsWith(replies, turns + 1, kind)| == |TurnsWith(replies, turns, kind)| + if kind(replies(turns)) then 1 else 0
  {
    var before, after := TurnsWith(replies, turns, kind), TurnsWith(replies, turns + 1, kind);
    assert after == if kind(replies(turns)) then before + {turns} else before;
  }

  /** The three counts, without their recursions: how many turns were truncated or compacted, and two messages for each
      truncated one plus one for each compaction that asks for a continue message. */
  lemma {:induction false} CountsAre(replies: nat -> Reply, turns: nat)
    ensures CountTruncated(replies, turns) == |TurnsWith(replies, turns, (r: Reply) => r.Truncated?)|
    ensures CountCompacted(replies, turns) == |TurnsWith(replies, turns, (r: Reply) => r.Compacted?)|
    ensures Appended(replies, turns) ==
              2 * |TurnsWith(replies, turns, (r: Reply) => r.Truncated?)| + |TurnsWith(replies, turns, (r: Reply) => r == Compacted(true))|
  {
    var truncated, compacted, continued :=
      (r: Reply) => r.Truncated?, (r: Reply) => r.Compacted?, (r: Reply) => r == Compacted(true);
    var n := if turns == 0 then 0 else turns - 1;
    if 0 < turns { CountsAre(replies, n); }
    OneMoreTurn(replies, n, truncated);
    OneMoreTurn(replies, n, compacted);
    OneMoreTurn(replies, n, continued);
  }

  /** The outcome when the loop, after `turns` turns that went on, gets `reply`. */
  function LastOutcome(reply: Reply): Outcome {
    match reply
    case Complete => Done
    case Truncated => RecoveryExhausted
    case CircuitBroken => BlockedByBreaker
    case Compacted(_) => RetriesExceeded
    case QuotaHit => Paused
    case Failure => Failed
  }

  /** `handleAutoContinuation`: the answer and a continue message are appended, one wait later. */
  method HandleAutoContinuation(handler: OutputLimitHandler) returns (delay: nat)
    requires handler.WaitedInFull()
    modifies handler
    ensures handler.attempts == old(handler.attempts) + 1 && handler.WaitedInFull()
    ensures handler.waited == old(handler.waited) + delay
  {
    delay := handler.HandleOutputLimit();
    DoublingBackoff(handler.backoffMs, handler.attempts - 1);
  }

  /** The loop. `turns` counts the turns that went on, `appended` the messages it pushes itself; a compaction in between may
      shorten the array. */
  method ExecuteTask(replies: nat -> Reply, maxCompactRetries: nat, maxAttempts: nat, backoffMs: nat)
    returns (outcome: Outcome, turns: nat, waited: nat, appended: nat)
    ensures forall i | 0 <= i < turns :: GoesOn(replies(i))
    // Continuations and compact retries are bounded, so the loop is.
    ensures CountTruncated(replies, turns) <= maxAttempts && CountCompacted(replies, turns) <= maxCompactRetries
    ensures turns == CountTruncated(replies, turns) + CountCompacted(replies, turns) <= maxAttempts + maxCompactRetries
    // The whole wait, for the continuations it took.
    ensures waited == backoffMs * (Pow2(CountTruncated(replies, turns)) - 1) <= backoffMs * (Pow2(maxAttempts) - 1)
    // Why it ended.
    ensures outcome == RetriesExceeded <==> CountCompacted(replies, turns) == maxCompactRetries
    ensures outcome != RetriesExceeded ==> outcome == LastOutcome(replies(turns))
    ensures outcome == Done <==> outcome != RetriesExceeded && replies(turns) == Complete
    ensures outcome == Paused <==> outcome != RetriesExceeded && replies(turns) == QuotaHit
    ensures outcome == BlockedByBreaker <==> outcome != RetriesExceeded && replies(turns) == CircuitBroken
    ensures outcome == Failed <==> outcome != RetriesExceeded && replies(turns) == Failure
    ensures outcome == RecoveryExhausted <==> outcome != RetriesExceeded && replies(turns) == Truncated
    ensures outcome == RecoveryExhausted ==> CountTruncated(replies, turns) == maxAttempts
    ensures appended == Appended(replies, turns) + if outcome == Done then 1 else 0
  {
    var handler := new OutputLimitHandler(maxAttempts, backoffMs);
    var compactRetries := 0;
    turns, waited, appended := 0, 0, 0;
    while compactRetries < maxCompactRetries
      invariant forall i | 0 <= i < turns :: GoesOn(replies(i))
      invariant handler.maxAttempts == maxAttempts && handler.backoffMs == backoffMs && fresh(handler)
      invariant handler.attempts == CountTruncated(replies, turns) <= maxAttempts
      invariant compactRetries == CountCompacted(replies, turns) <= maxCompactRetries
      invariant turns == handler.attempts + compactRetries
      invariant waited == handler.waited && handler.WaitedInFull()
      invariant appended == Appended(replies, turns)
      decreases maxCompactRetries - compactRetries, maxAttempts - handler.attempts
    {
      Pow2Monotone(handler.attempts, maxAttempts, backoffMs);
      match replies(turns)
      case Complete =>
        appended := appended + 1;
        handler.Reset();
        return Done, turns, waited, appended;
      case Truncated =>
        var continues := handler.ShouldContinue();
        if !continues { return RecoveryExhausted, turns, waited, appended; }
        var delay := HandleAutoContinuation(handler);
        waited := waited + delay;
        appended := appended + 2;
        turns := turns + 1;
      case CircuitBroken =>
        return BlockedByBreaker, turns, waited, appended;
      case Compacted(continueMessage) =>
        compactRetries := compactRetries + 1;
        if continueMessage { appended := appended + 1; }
        turns := turns + 1;
      case QuotaHit =>
        return Paused, turns, waited, appended;
      case Failure =>
        return Failed, turns, waited, appended;
    }
    Pow2Monotone(handler.attempts, maxAttempts, backoffMs);
    outcome := RetriesExceeded;
  }

  /** Waiting twice as long each time adds up: one more wait completes the next power of two. */
  lemma DoublingBackoff(backoffMs: nat, n: nat)
    ensures backoffMs * (Pow2(n) - 1) + backoffMs * Pow2(n) == backoffMs * (Pow2(n + 1) - 1)
  {
    assert Pow2(n + 1) == 2 * Pow2(n);
  }

  lemma {:induction false} Pow2Monotone(a: nat, b: nat, factor: nat)
    requires a <= b
    ensures Pow2(a) <= Pow2(b)
    ensures factor * (Pow2(a) - 1) <= factor * (Pow2(b) - 1)
    decreases b - a
  {
    if a < b {
      Pow2Monotone(a + 1, b, factor);
    }
    MulMonotone(Pow2(a) - 1, Pow2(b) - 1, factor);
  }
}
