/**
  Compaction around a model call (harness/context-compact-orchestrator.ts).

  The agent and the forked summarizer are outside: `Request` carries what they
  answer. All clock readings of one call are one time.
 */
module Compaction {
  import opened Common
  import opened ContextWindow
  import opened Sorting

  // ---- Full compaction ----

  /** The forked summarizer is absent, fails, or reports how many messages it dropped. */
  datatype Summarizer = NoSummarizer | SummarizerFails | Summarizes(droppedCount: int)

  function KeepCount(length: nat): nat {
    Min(10, length / 5)
  }

  /** `slice(-k)`: for k = 0 it is the whole array. */
  function SliceFromEnd<T>(s: seq<T>, k: nat): seq<T>
    requires k <= |s|
  {
    if k == 0 then s else s[|s| - k..]
  }

  /** `slice(0, -k)`: for k = 0 it is empty. */
  function SliceUpToEnd<T>(s: seq<T>, k: nat): seq<T>
    requires k <= |s|
  {
    if k == 0 then [] else s[..|s| - k]
  }

  const RESULT_NEWEST_FIRST: ToolResult -> int := (r: ToolResult) => -r.timestamp

  function Shortened(r: ToolResult): ToolResult {
    r.(content := r.content[..Min(1000, |r.content|)])
  }

  /** The newest results of a message, newest first, with shortened contents. */
  function PreservedResults(results: seq<ToolResult>, keepCount: nat): seq<ToolResult> {
    var sorted := SortBy(results, RESULT_NEWEST_FIRST);
    seq(Min(keepCount, |sorted|), i requires 0 <= i < Min(keepCount, |sorted|) => Shortened(sorted[i]))
  }

  function Preserved(m: Message, keepCount: nat): Message {
    if m.role != Assistant || m.toolResults.None? then m
    else m.(toolResults := Some(PreservedResults(m.toolResults.value, keepCount)))
  }

  function PreservedMessages(ms: seq<Message>, keepCount: nat): (preserved: seq<Message>)
    ensures |preserved| == |ms|
  {
    if ms == [] then [] else [Preserved(ms[0], keepCount)] + PreservedMessages(ms[1..], keepCount)
  }

  function DroppedCount(oldMessages: nat, summarizer: Summarizer): int {
    if summarizer.Summarizes? then summarizer.droppedCount else oldMessages
  }

  /** The text of a boundary is not modelled; its metadata is. */
  function BoundaryMessage(reason: Trigger, dropped: int, now: int): Message {
    Message(System, "", now, None, Some(Boundary(reason, dropped)))
  }

  predicate CanCompact(ms: seq<Message>) {
    SliceUpToEnd(ms, KeepCount(|ms|)) != []
  }

  function Compacted(ms: seq<Message>, reason: Trigger, summarizer: Summarizer, now: int, keepResults: nat): seq<Message> {
    var keep := KeepCount(|ms|);
    if !CanCompact(ms) then ms
    else BehindBoundary(BoundaryMessage(reason, DroppedCount(|SliceUpToEnd(ms, keep)|, summarizer), now), ms, keep, keepResults)
  }

  function BehindBoundary(boundary: Message, ms: seq<Message>, keep: nat, keepResults: nat): seq<Message>
    requires keep <= |ms|
  {
    [boundary] + PreservedMessages(SliceFromEnd(ms, keep), keepResults)
  }

  /** `runFullCompact`: the array itself is emptied and refilled. */
  method RunFullCompact(conversation: Conversation, reason: Trigger, summarizer: Summarizer, now: int, keepResults: nat)
    returns (success: bool)
    modifies conversation
    ensures success <==> CanCompact(old(conversation.messages))
    ensures conversation.messages == Compacted(old(conversation.messages), reason, summarizer, now, keepResults)
  {
    var messages := conversation.messages;
    var keepRecent := Min(10, |messages| / 5);
    var recentMessages := SliceFromEnd(messages, keepRecent);
    var oldMessages := SliceUpToEnd(messages, keepRecent);
    if |oldMessages| == 0 { return false; }
    var droppedCount := if summarizer.Summarizes? then summarizer.droppedCount else |oldMessages|;
    var preserved := PreservedMessages(recentMessages, keepResults);
    conversation.messages := [];
    conversation.messages := [BoundaryMessage(reason, droppedCount, now)] + preserved;
    return true;
  }

  /** Compaction works exactly from five messages on, and otherwise leaves the array alone. It then leaves one boundary and
      min(10, n / 5) messages, so the array gets strictly shorter, and the heuristic boundary accounts for every message
      that is gone. */
  lemma CompactionOutcome(ms: seq<Message>, reason: Trigger, summarizer: Summarizer, now: int, keepResults: nat)
    ensures CanCompact(ms) <==> 5 <= |ms|
    ensures |ms| < 5 ==> Compacted(ms, reason, summarizer, now, keepResults) == ms
    ensures 5 <= |ms| ==>
              var after := Compacted(ms, reason, summarizer, now, keepResults);
              var keep := Min(10, |ms| / 5);
              && |after| == 1 + keep < |ms|
              && after[0].role == System && after[0].timestamp == now && after[0].toolResults == None
              && after[0].boundary ==
                   Some(Boundary(reason, if summarizer.Summarizes? then summarizer.droppedCount else |ms| - keep))
  {
  }

  /** The messages behind the boundary are the last ones of the array, in order; only tool results of assistants change. */
  lemma CompactionKeepsRecent(ms: seq<Message>, reason: Trigger, summarizer: Summarizer, now: int, keepResults: nat, i: nat)
    requires 5 <= |ms| && 1 <= i <= KeepCount(|ms|)
    ensures EndsLike(Compacted(ms, reason, summarizer, now, keepResults), ms, keepResults, i)
  {
    var keep := KeepCount(|ms|);
    CanCompactFive(ms);
    var dropped := |SliceUpToEnd(ms, keep)|;
    RecentMessage(ms, keep, BoundaryMessage(reason, DroppedCount(dropped, summarizer), now), keepResults, i);
  }

  /** The i-th message from the end is the same in both arrays, but for the tool results of an assistant. */
  predicate EndsLike(after: seq<Message>, ms: seq<Message>, keepResults: nat, i: nat)
    requires 1 <= i <= |ms|
  {
    && i < |after|
    && after[|after| - i] == Preserved(ms[|ms| - i], keepResults)
    && after[|after| - i].(toolResults := None) == ms[|ms| - i].(toolResults := None)
    && (ms[|ms| - i].role != Assistant || ms[|ms| - i].toolResults.None? ==> after[|after| - i] == ms[|ms| - i])
  }

  lemma RecentMessage(ms: seq<Message>, keep: nat, boundary: Message, keepResults: nat, i: nat)
    requires 1 <= i <= keep < |ms|
    ensures EndsLike(BehindBoundary(boundary, ms, keep, keepResults), ms, keepResults, i)
  {
    SlicesAre(ms, keep);
    PreservedAt(ms[|ms| - keep..], keepResults, keep - i);
  }

  lemma {:induction false} PreservedAt(ms: seq<Message>, keepResults: nat, i: nat)
    requires i < |ms|
    ensures PreservedMessages(ms, keepResults)[i] == Preserved(ms[i], keepResults)
  {
    if 0 < i {
      PreservedAt(ms[1..], keepResults, i - 1);
    }
  }

  lemma SlicesAre(ms: seq<Message>, keep: nat)
    requires 1 <= keep < |ms|
    ensures SliceFromEnd(ms, keep) == ms[|ms| - keep..]
    ensures |SliceUpToEnd(ms, keep)| == |ms| - keep && SliceUpToEnd(ms, keep) != []
  {
  }

  lemma CanCompactFive(ms: seq<Message>)
    requires 5 <= |ms|
    ensures CanCompact(ms) && 1 <= KeepCount(|ms|) < |ms|
  {
    SlicesAre(ms, KeepCount(|ms|));
  }

  /** What a kept assistant message has of its tool results, in terms of the two arrays alone: with the old results ordered
      newest first, exactly the first ones, as many as asked for, each the old result with its first 1000 characters. */
  predicate KeepsNewestResults(after: seq<Message>, ms: seq<Message>, keepResults: nat, i: nat, sorted: seq<ToolResult>)
    requires 1 <= i <= |ms| && ms[|ms| - i].toolResults.Some?
  {
    var olds := ms[|ms| - i].toolResults.value;
    && multiset(sorted) == multiset(olds)
    && (forall a, b | 0 <= a < b < |sorted| :: sorted[b].timestamp <= sorted[a].timestamp)
    && i < |after| && after[|after| - i].toolResults.Some?
    && var kept := after[|after| - i].toolResults.value;
       && |kept| == Min(keepResults, |olds|) <= |sorted|
       && forall k | 0 <= k < |kept| :: KeepsBeginning(kept[k], sorted[k])
  }

  lemma KeptToolResults(ms: seq<Message>, reason: Trigger, summarizer: Summarizer, now: int, keepResults: nat, i: nat)
    returns (sorted: seq<ToolResult>)
    requires 5 <= |ms| && 1 <= i <= Min(10, |ms| / 5)
    requires ms[|ms| - i].role == Assistant && ms[|ms| - i].toolResults.Some?
    ensures KeepsNewestResults(Compacted(ms, reason, summarizer, now, keepResults), ms, keepResults, i, sorted)
  {
    CompactionKeepsRecent(ms, reason, summarizer, now, keepResults, i);
    sorted := SortBy(ms[|ms| - i].toolResults.value, RESULT_NEWEST_FIRST);
    NewestResultsAtEnd(Compacted(ms, reason, summarizer, now, keepResults), ms, keepResults, i);
  }

  lemma NewestResultsAtEnd(after: seq<Message>, ms: seq<Message>, keepResults: nat, i: nat)
    requires 1 <= i <= |ms| && EndsLike(after, ms, keepResults, i)
    requires ms[|ms| - i].role == Assistant && ms[|ms| - i].toolResults.Some?
    ensures KeepsNewestResults(after, ms, keepResults, i, SortBy(ms[|ms| - i].toolResults.value, RESULT_NEWEST_FIRST))
  {
    var olds := ms[|ms| - i].toolResults.value;
    NewestFirst(olds);
    KeepsBeginnings(olds, keepResults);
  }

  /** The same result, cut after 1000 characters. */
  predicate KeepsBeginning(kept: ToolResult, result: ToolResult) {
    && kept.id == result.id && kept.timestamp == result.timestamp && kept.tokens == result.tokens
    && kept.content <= result.content && |kept.content| == Min(1000, |result.content|)
  }

  lemma NewestFirst(results: seq<ToolResult>)
    ensures var sorted := SortBy(results, RESULT_NEWEST_FIRST);
            && multiset(sorted) == multiset(results)
            && (forall a, b | 0 <= a < b < |sorted| :: sorted[b].timestamp <= sorted[a].timestamp)
  {
    var sorted := SortBy(results, RESULT_NEWEST_FIRST);
    SortSorts(results, RESULT_NEWEST_FIRST);
    SortKeepsElements(results, RESULT_NEWEST_FIRST);
    forall a, b | 0 <= a < b < |sorted|
      ensures sorted[b].timestamp <= sorted[a].timestamp
    {
      assert RESULT_NEWEST_FIRST(sorted[a]) <= RESULT_NEWEST_FIRST(sorted[b]);
    }
  }

  lemma KeepsBeginnings(results: seq<ToolResult>, keepCount: nat)
    ensures var kept, sorted := PreservedResults(results, keepCount), SortBy(results, RESULT_NEWEST_FIRST);
            && |kept| == Min(keepCount, |results|) <= |sorted|
            && forall k | 0 <= k < |kept| :: KeepsBeginning(kept[k], sorted[k])
  {
  }

  /** What compaction keeps of the tool results of one message: as many as asked for, each a result of the message with
      at most 1000 characters, and none older than one that is dropped. */
  lemma PreservedResultsAreNewest(results: seq<ToolResult>, keepCount: nat)
    ensures var preserved := PreservedResults(results, keepCount);
            var sorted := SortBy(results, RESULT_NEWEST_FIRST);
            && |preserved| == Min(keepCount, |results|)
            && multiset(sorted) == multiset(results)
            && (forall i | 0 <= i < |preserved| ::
                  preserved[i].(content := "") == sorted[i].(content := "") && |preserved[i].content| <= 1000)
            && (forall i, j | 0 <= i < |preserved| <= j < |sorted| :: sorted[j].timestamp <= preserved[i].timestamp)
  {
    var sorted := SortBy(results, RESULT_NEWEST_FIRST);
    SortSorts(results, RESULT_NEWEST_FIRST);
    SortKeepsElements(results, RESULT_NEWEST_FIRST);
    forall i, j | 0 <= i < |PreservedResults(results, keepCount)| <= j < |sorted|
      ensures sorted[j].timestamp <= PreservedResults(results, keepCount)[i].timestamp
    {
      assert RESULT_NEWEST_FIRST(sorted[i]) <= RESULT_NEWEST_FIRST(sorted[j]);
    }
  }

  /** One compaction after another, without new messages. */
  function CompactedAgain(ms: seq<Message>, rounds: seq<Summarizer>, now: int, keepResults: nat): seq<Message>
    decreases |rounds|
  {
    if rounds == [] then ms
    else CompactedAgain(Compacted(ms, TokenThreshold, rounds[0], now, keepResults), rounds[1..], now, keepResults)
  }

  /** Without new messages at most two compactions in a row succeed; the second one does exactly from 20 messages on. */
  lemma AtMostTwoCompactions(ms: seq<Message>, first: Summarizer, second: Summarizer, now: int, keepResults: nat)
    ensures var once := CompactedAgain(ms, [first], now, keepResults);
            var twice := CompactedAgain(ms, [first, second], now, keepResults);
            && (CanCompact(once) <==> 20 <= |ms|)
            && !CanCompact(twice)
  {
    var once := Compacted(ms, TokenThreshold, first, now, keepResults);
    assert CompactedAgain(ms, [first], now, keepResults) == once;
    assert [first, second][1..] == [second];
    var twice := Compacted(once, TokenThreshold, second, now, keepResults);
    assert CompactedAgain(once, [second], now, keepResults) == twice;
    CompactionOutcome(ms, TokenThreshold, first, now, keepResults);
    CompactionOutcome(once, TokenThreshold, second, now, keepResults);
    CompactionOutcome(twice, TokenThreshold, second, now, keepResults);
  }

  // ---- One invocation ----

  /** Whether the agent succeeded, and whether its error text says that the context is too long. */
  datatype AgentResult = AgentResult(success: bool, contextTooLong: bool)

  /** The agent's answers to a first call and to a retry; `None` is a missing agent. */
  datatype Agent = Agent(first: AgentResult, retry: AgentResult)

  datatype Request = Request(total: int, now: int, summarizer: Summarizer, agent: Option<Agent>)

  datatype Settings = Settings(contextWindow: Option<int>, microcompactTimeGap: int, keepResults: nat)

  /** What an invocation does to the outside, in order. */
  datatype Event =
    | CompactionTried(trigger: Stage, success: bool)
    | AgentCalled(isRetry: bool, result: AgentResult)
    | WasReset

  datatype Stage = Blocking | Proactive | Reactive

  datatype Response = CircuitOpen | CompactionFailed | NoAgent | CircuitTripped | Answer(result: AgentResult)

  // ---- What an invocation does ----

  function Microcompacted(ms: seq<Message>, lastAssistant: int, settings: Settings, now: int): (after: seq<Message>)
    ensures |after| == |ms|
  {
    if now - lastAssistant < settings.microcompactTimeGap then ms
    else PrunedMessages(ms, now, settings.microcompactTimeGap, settings.keepResults)
  }

  /** Pruning that freed tokens restarts the time gap. */
  function PruningTime(before: seq<Message>, after: seq<Message>, lastAssistant: int, now: int): int {
    if ToolTokens(after) < ToolTokens(before) then now else lastAssistant
  }

  /** The array, the events and the breaker before the call; not ready when a blocking compaction failed. */
  datatype Prepared = Prepared(ready: bool, messages: seq<Message>, events: seq<Event>, failures: nat, lastAssistant: int)

  function Stepped(ms: seq<Message>, stage: Stage, failures: nat, lastAssistant: int, settings: Settings, request: Request): Prepared {
    Prepared(
      CanCompact(ms),
      Compacted(ms, if stage == Reactive then OutputLimit else TokenThreshold, request.summarizer, request.now, settings.keepResults),
      [CompactionTried(stage, CanCompact(ms))],
      if CanCompact(ms) then 0 else failures,
      lastAssistant)
  }

  function Prepare(ms: seq<Message>, failures: nat, lastAssistant: int, settings: Settings, request: Request): Prepared {
    var blocked := if ShouldBlock(request.total, settings.contextWindow) then Stepped(ms, Blocking, failures, lastAssistant, settings, request)
                   else Prepared(true, ms, [], failures, lastAssistant);
    if !blocked.ready then blocked
    else
      var pruned := Microcompacted(blocked.messages, lastAssistant, settings, request.now);
      var pruning := PruningTime(blocked.messages, pruned, lastAssistant, request.now);
      if ShouldCompact(request.total, settings.contextWindow) && blocked.failures < MAX_CONSECUTIVE_COMPACT_FAILURES then
        var proactive := Stepped(pruned, Proactive, blocked.failures, pruning, settings, request);
        Prepared(true, proactive.messages, blocked.events + proactive.events, proactive.failures, pruning)
      else blocked.(messages := pruned, lastAssistant := pruning)
  }

  datatype Invocation = Invocation(response: Response, messages: seq<Message>, events: seq<Event>, failures: nat, lastAssistant: int)

  /** A successful answer restarts the time gap. */
  function Answered(result: AgentResult, lastAssistant: int, now: int): int {
    if result.success then now else lastAssistant
  }

  /** The reaction to a counted context-too-long answer. */
  function Reacted(ms: seq<Message>, failures: nat, lastAssistant: int, settings: Settings, request: Request): Invocation
    requires request.agent.Some?
  {
    var agent := request.agent.value;
    if failures >= MAX_CONSECUTIVE_COMPACT_FAILURES then Invocation(CircuitTripped, ms, [], failures, lastAssistant)
    else
      var reactive := Stepped(ms, Reactive, failures, lastAssistant, settings, request);
      if !reactive.ready then Invocation(Answer(agent.first), ms, reactive.events, failures, Answered(agent.first, lastAssistant, request.now))
      else
        var answer := if agent.retry.success then agent.retry else agent.first;
        Invocation(Answer(answer), reactive.messages, reactive.events + [AgentCalled(true, agent.retry)], 0,
                   Answered(answer, lastAssistant, request.now))
  }

  function Call(ms: seq<Message>, failures: nat, lastAssistant: int, settings: Settings, request: Request): Invocation
    requires request.agent.Some?
  {
    var first := request.agent.value.first;
    if !first.contextTooLong
    then Invocation(Answer(first), ms, [AgentCalled(false, first)], failures, Answered(first, lastAssistant, request.now))
    else
      var reacted := Reacted(ms, failures + 1, lastAssistant, settings, request);
      reacted.(events := [AgentCalled(false, first)] + reacted.events)
  }

  function Finished(p: Prepared, settings: Settings, request: Request): Invocation {
    if !p.ready then Invocation(CompactionFailed, p.messages, p.events, p.failures, p.lastAssistant)
    else if request.agent.None? then Invocation(NoAgent, p.messages, p.events, p.failures, p.lastAssistant)
    else
      var call := Call(p.messages, p.failures, p.lastAssistant, settings, request);
      call.(events := p.events + call.events)
  }

  function Invoke(ms: seq<Message>, failures: nat, lastAssistant: int, settings: Settings, request: Request): Invocation {
    if failures >= MAX_CONSECUTIVE_COMPACT_FAILURES then Invocation(CircuitOpen, ms, [], failures, lastAssistant)
    else Finished(Prepare(ms, failures, lastAssistant, settings, request), settings, request)
  }

  /** The context-too-long answers to first calls since the last successful compaction or reset. */
  function OpenFailures(log: seq<Event>): nat {
    if log == [] then 0
    else
      var before, e := OpenFailures(log[..|log| - 1]), log[|log| - 1];
      match e
      case CompactionTried(_, success) => if success then 0 else before
      case AgentCalled(isRetry, result) => if !isRetry && result.contextTooLong then before + 1 else before
      case WasReset => 0
  }

  function AgentCalls(events: seq<Event>): nat {
    if events == [] then 0 else (if events[0].AgentCalled? then 1 else 0) + AgentCalls(events[1..])
  }

  class CompactOrchestrator {
    const settings: Settings
    var compactAttempts: nat
    var consecutiveFailures: nat
    var lastAssistantTimestamp: int
    ghost var log: seq<Event>

    /** The breaker counts the unanswered context-too-long results, and never counts past its limit. */
    ghost predicate Valid()
      reads this
    {
      consecutiveFailures == OpenFailures(log) <= MAX_CONSECUTIVE_COMPACT_FAILURES
    }

    constructor (settings: Settings)
      ensures Valid() && log == [] && consecutiveFailures == 0 && this.settings == settings
    {
      this.settings := settings;
      compactAttempts, consecutiveFailures, lastAssistantTimestamp, log := 0, 0, 0, [];
    }

    predicate ShouldCircuitBreak()
      reads this
    {
      consecutiveFailures >= MAX_CONSECUTIVE_COMPACT_FAILURES
    }

    method Reset()
      requires Valid()
      modifies this
      ensures Valid() && consecutiveFailures == 0 && compactAttempts == 0
      ensures log == old(log) + [WasReset]
    {
      compactAttempts, consecutiveFailures := 0, 0;
      log := log + [WasReset];
    }

    /** One stage of compaction with its bookkeeping. */
    method Compact(conversation: Conversation, stage: Stage, request: Request) returns (success: bool)
      requires Valid()
      modifies this, conversation
      ensures Valid() && compactAttempts == old(compactAttempts) && lastAssistantTimestamp == old(lastAssistantTimestamp)
      ensures success <==> CanCompact(old(conversation.messages))
      ensures conversation.messages ==
                Compacted(old(conversation.messages), if stage == Reactive then OutputLimit else TokenThreshold,
                          request.summarizer, request.now, settings.keepResults)
      ensures log == old(log) + [CompactionTried(stage, success)]
      ensures consecutiveFailures == if success then 0 else old(consecutiveFailures)
    {
      var reason := if stage == Reactive then OutputLimit else TokenThreshold;
      success := RunFullCompact(conversation, reason, request.summarizer, request.now, settings.keepResults);
      RecordCompaction(stage, success);
    }

    /** Logs a compaction; a successful one clears the failures. */
    method RecordCompaction(stage: Stage, success: bool)
      requires Valid()
      modifies `log, `consecutiveFailures
      ensures Valid() && log == old(log) + [CompactionTried(stage, success)]
      ensures consecutiveFailures == if success then 0 else old(consecutiveFailures)
    {
      if success { consecutiveFailures := 0; }
      log := log + [CompactionTried(stage, success)];
    }

    /** `tryMicrocompact` */
    method TryMicrocompact(conversation: Conversation, now: int)
      modifies `lastAssistantTimestamp, conversation
      ensures conversation.messages == Microcompacted(old(conversation.messages), old(lastAssistantTimestamp), settings, now)
      ensures lastAssistantTimestamp ==
                PruningTime(old(conversation.messages), conversation.messages, old(lastAssistantTimestamp), now)
      ensures now - old(lastAssistantTimestamp) < settings.microcompactTimeGap ==>
                conversation.messages == old(conversation.messages) && lastAssistantTimestamp == old(lastAssistantTimestamp)
      ensures settings.microcompactTimeGap <= now - old(lastAssistantTimestamp) ==>
                && conversation.messages == PrunedMessages(old(conversation.messages), now, settings.microcompactTimeGap, settings.keepResults)
                && lastAssistantTimestamp ==
                     if ToolTokens(conversation.messages) < ToolTokens(old(conversation.messages)) then now else old(lastAssistantTimestamp)
    {
      if now - lastAssistantTimestamp < settings.microcompactTimeGap { return; }
      var freed := conversation.MicrocompactToolResults(now, settings.microcompactTimeGap, settings.keepResults);
      if freed > 0 { lastAssistantTimestamp := now; }
    }

    /** `invokeWithCompact` */
    method InvokeWithCompact(conversation: Conversation, request: Request) returns (response: Response)
      requires Valid()
      modifies this, conversation
      ensures Valid() && compactAttempts == old(compactAttempts) + 1
      ensures var done := Invoke(old(conversation.messages), old(consecutiveFailures), old(lastAssistantTimestamp), settings, request);
              && response == done.response
              && conversation.messages == done.messages
              && log == old(log) + done.events
              && consecutiveFailures == done.failures && lastAssistantTimestamp == done.lastAssistant
    {
      compactAttempts := compactAttempts + 1;
      if ShouldCircuitBreak() {
        assert log + [] == log;
        return CircuitOpen;
      }
      ghost var prepared := Prepare(conversation.messages, consecutiveFailures, lastAssistantTimestamp, settings, request);
      var ready := PrepareContext(conversation, request);
      response := Finish(conversation, request, ready, prepared, old(log));
    }

    /** What follows the preparation of the context. */
    method Finish(conversation: Conversation, request: Request, ready: bool, ghost prepared: Prepared, ghost earlier: seq<Event>)
      returns (response: Response)
      requires Valid() && !ShouldCircuitBreak()
      requires prepared.ready == ready && prepared.messages == conversation.messages && prepared.failures == consecutiveFailures
      requires prepared.lastAssistant == lastAssistantTimestamp
      requires log == earlier + prepared.events
      modifies this, conversation
      ensures Valid() && compactAttempts == old(compactAttempts)
      ensures var done := Finished(prepared, settings, request);
              && response == done.response
              && conversation.messages == done.messages
              && log == earlier + done.events
              && consecutiveFailures == done.failures && lastAssistantTimestamp == done.lastAssistant
    {
      if !ready { return CompactionFailed; }
      if request.agent.None? { return NoAgent; }
      ghost var call := Call(conversation.messages, consecutiveFailures, lastAssistantTimestamp, settings, request);
      assert (earlier + prepared.events) + call.events == earlier + (prepared.events + call.events);
      response := CallAgent(conversation, request);
    }

    /** The blocking compaction, the pruning and the proactive compaction before a call. */
    method PrepareContext(conversation: Conversation, request: Request) returns (ready: bool)
      requires Valid() && !ShouldCircuitBreak()
      modifies this, conversation
      ensures Valid() && compactAttempts == old(compactAttempts)
      ensures var done := Prepare(old(conversation.messages), old(consecutiveFailures), old(lastAssistantTimestamp), settings, request);
              && ready == done.ready
              && conversation.messages == done.messages
              && log == old(log) + done.events
              && consecutiveFailures == done.failures && lastAssistantTimestamp == done.lastAssistant
    {
      if ShouldBlock(request.total, settings.contextWindow) {
        var compacted := Compact(conversation, Blocking, request);
        if !compacted { return false; }
      }
      TryMicrocompact(conversation, request.now);
      if ShouldCompact(request.total, settings.contextWindow) && !ShouldCircuitBreak() {
        var _ := Compact(conversation, Proactive, request);
      }
      return true;
    }

    /** Logs a call of the agent; a first answer "context too long" counts as a failure. */
    method RecordCall(isRetry: bool, result: AgentResult)
      requires Valid() && !ShouldCircuitBreak()
      modifies `log, `consecutiveFailures
      ensures Valid() && log == old(log) + [AgentCalled(isRetry, result)]
      ensures consecutiveFailures == old(consecutiveFailures) + if !isRetry && result.contextTooLong then 1 else 0
    {
      log := log + [AgentCalled(isRetry, result)];
      if !isRetry && result.contextTooLong { consecutiveFailures := consecutiveFailures + 1; }
    }

    /** The call itself, the reactive compaction and the one retry. */
    method CallAgent(conversation: Conversation, request: Request) returns (response: Response)
      requires Valid() && !ShouldCircuitBreak() && request.agent.Some?
      modifies this, conversation
      ensures Valid() && compactAttempts == old(compactAttempts)
      ensures var done := Call(old(conversation.messages), old(consecutiveFailures), old(lastAssistantTimestamp), settings, request);
              && response == done.response
              && conversation.messages == done.messages
              && log == old(log) + done.events
              && consecutiveFailures == done.failures && lastAssistantTimestamp == done.lastAssistant
    {
      var result := request.agent.value.first;
      RecordCall(false, result);
      if result.contextTooLong {
        ghost var reacted := Reacted(conversation.messages, consecutiveFailures, lastAssistantTimestamp, settings, request);
        ghost var called := [AgentCalled(false, result)];
        assert (old(log) + called) + reacted.events == old(log) + (called + reacted.events);
        response := React(conversation, request);
        return;
      }
      response := Conclude(result, request.now);
    }

    /** The answer of the first call stands. */
    method Conclude(result: AgentResult, now: int) returns (response: Response)
      modifies `lastAssistantTimestamp
      ensures response == Answer(result) && lastAssistantTimestamp == Answered(result, old(lastAssistantTimestamp), now)
    {
      if result.success { lastAssistantTimestamp := now; }
      return Answer(result);
    }

    /** What follows a counted "context too long": unless that settles the answer, the first one stands. */
    method React(conversation: Conversation, request: Request) returns (response: Response)
      requires Valid() && request.agent.Some?
      modifies this, conversation
      ensures Valid() && compactAttempts == old(compactAttempts)
      ensures var done := Reacted(old(conversation.messages), old(consecutiveFailures), old(lastAssistantTimestamp), settings, request);
              && response == done.response
              && conversation.messages == done.messages
              && log == old(log) + done.events
              && consecutiveFailures == done.failures && lastAssistantTimestamp == done.lastAssistant
    {
      var answered;
      answered, response := ReactAndRetry(conversation, request);
      if !answered { response := Conclude(request.agent.value.first, request.now); }
    }

    /** After a "context too long" was counted: the breaker, or a compaction and one retry. */
    method ReactAndRetry(conversation: Conversation, request: Request) returns (answered: bool, response: Response)
      requires Valid() && request.agent.Some?
      modifies this, conversation
      ensures Valid() && compactAttempts == old(compactAttempts)
      ensures var done := Reacted(old(conversation.messages), old(consecutiveFailures), old(lastAssistantTimestamp), settings, request);
              && (if answered then response == done.response && lastAssistantTimestamp == done.lastAssistant
                  else done.response == Answer(request.agent.value.first) && lastAssistantTimestamp == old(lastAssistantTimestamp)
                       && done.lastAssistant == Answered(request.agent.value.first, lastAssistantTimestamp, request.now))
              && conversation.messages == done.messages
              && log == old(log) + done.events
              && consecutiveFailures == done.failures
    {
      if ShouldCircuitBreak() {
        assert log + [] == log;
        return true, CircuitTripped;
      }
      ghost var reactive := Stepped(conversation.messages, Reactive, consecutiveFailures, lastAssistantTimestamp, settings, request);
      ghost var retried := [AgentCalled(true, request.agent.value.retry)];
      assert (log + reactive.events) + retried == log + (reactive.events + retried);
      var compacted := Compact(conversation, Reactive, request);
      if !compacted { return false, NoAgent; }
      assert log == old(log) + reactive.events && conversation.messages == reactive.messages && consecutiveFailures == 0;
      answered := Retry(request);
      return answered, Answer(request.agent.value.retry);
    }

    /** The one retry. */
    method Retry(request: Request) returns (answered: bool)
      requires Valid() && !ShouldCircuitBreak() && request.agent.Some?
      modifies `log, `consecutiveFailures, `lastAssistantTimestamp
      ensures Valid() && log == old(log) + [AgentCalled(true, request.agent.value.retry)]
      ensures consecutiveFailures == old(consecutiveFailures)
      ensures answered == request.agent.value.retry.success
      ensures lastAssistantTimestamp == if answered then request.now else old(lastAssistantTimestamp)
    {
      RecordCall(true, request.agent.value.retry);
      answered := request.agent.value.retry.success;
      if answered { lastAssistantTimestamp := request.now; }
    }
  }

  // ---- What follows for every invocation ----

  /** A total over the compaction threshold is over the blocking threshold: a proactive compaction only runs right after
      a blocking one that succeeded, and then compacts the shortened array again, which works from 20 messages on. */
  lemma ProactiveOnlyAfterBlocking(ms: seq<Message>, failures: nat, lastAssistant: int, settings: Settings, request: Request)
    ensures var p := Prepare(ms, failures, lastAssistant, settings, request);
            && (forall e | e in p.events :: e.CompactionTried? && e.trigger != Reactive)
            && (p.events == [] || p.events == [CompactionTried(Blocking, 5 <= |ms|)]
                || (5 <= |ms| && ShouldCompact(request.total, settings.contextWindow)
                    && p.events == [CompactionTried(Blocking, true), CompactionTried(Proactive, 20 <= |ms|)]))
            && (ShouldCompact(request.total, settings.contextWindow) && 5 <= |ms| ==> |p.events| == 2 && p.failures == 0)
  {
    SteppedFrom(ms, Blocking, failures, lastAssistant, settings, request);
    if ShouldBlock(request.total, settings.contextWindow) && 5 <= |ms| {
      var once := Stepped(ms, Blocking, failures, lastAssistant, settings, request).messages;
      var pruned := Microcompacted(once, lastAssistant, settings, request.now);
      var pruning := PruningTime(once, pruned, lastAssistant, request.now);
      SteppedFrom(pruned, Proactive, 0, pruning, settings, request);
    }
  }

  /** One stage, seen by the length of the array alone. */
  lemma SteppedFrom(ms: seq<Message>, stage: Stage, failures: nat, lastAssistant: int, settings: Settings, request: Request)
    ensures var p := Stepped(ms, stage, failures, lastAssistant, settings, request);
            && (p.ready <==> 5 <= |ms|)
            && p.events == [CompactionTried(stage, 5 <= |ms|)]
            && |p.messages| == (if 5 <= |ms| then 1 + Min(10, |ms| / 5) else |ms|)
            && p.failures == (if 5 <= |ms| then 0 else failures)
  {
    CompactionOutcome(ms, if stage == Reactive then OutputLimit else TokenThreshold, request.summarizer, request.now, settings.keepResults);
  }

  /** Exactly when an invocation engages the breaker: two failures are open, the call is not blocked, since a blocking
      compaction clears them, and the first answer is that the context is too long. The length of the array plays no role. */
  lemma TripsIff(ms: seq<Message>, failures: nat, lastAssistant: int, settings: Settings, request: Request)
    requires failures < MAX_CONSECUTIVE_COMPACT_FAILURES
    ensures Invoke(ms, failures, lastAssistant, settings, request).response == CircuitTripped <==>
              && failures == MAX_CONSECUTIVE_COMPACT_FAILURES - 1
              && !ShouldBlock(request.total, settings.contextWindow)
              && request.agent.Some? && request.agent.value.first.contextTooLong
  {
    var p := Prepare(ms, failures, lastAssistant, settings, request);
    SteppedFrom(ms, Blocking, failures, lastAssistant, settings, request);
    assert p.failures == if ShouldBlock(request.total, settings.contextWindow) && 5 <= |ms| then 0 else failures by {
      ProactiveOnlyAfterBlocking(ms, failures, lastAssistant, settings, request);
    }
    if p.ready && request.agent.Some? {
      SteppedFrom(p.messages, Reactive, p.failures + 1, p.lastAssistant, settings, request);
    }
  }

  /** Any invocation calls the agent at most twice; with the breaker engaged it calls nobody and touches nothing. */
  lemma InvocationIsBounded(ms: seq<Message>, failures: nat, lastAssistant: int, settings: Settings, request: Request)
    ensures var done := Invoke(ms, failures, lastAssistant, settings, request);
            && AgentCalls(done.events) <= 2
            && (MAX_CONSECUTIVE_COMPACT_FAILURES <= failures ==> done == Invocation(CircuitOpen, ms, [], failures, lastAssistant))
            && (done.response == CircuitTripped ==> done.failures == MAX_CONSECUTIVE_COMPACT_FAILURES)
  {
    var p := Prepare(ms, failures, lastAssistant, settings, request);
    ProactiveOnlyAfterBlocking(ms, failures, lastAssistant, settings, request);
    NoCalls(p.events);
    if request.agent.Some? {
      AgentCallsAppend(p.events, Call(p.messages, p.failures, p.lastAssistant, settings, request).events);
      CallIsBounded(p.messages, p.failures, p.lastAssistant, settings, request);
    }
  }

  lemma CallIsBounded(ms: seq<Message>, failures: nat, lastAssistant: int, settings: Settings, request: Request)
    requires request.agent.Some?
    ensures AgentCalls(Call(ms, failures, lastAssistant, settings, request).events) <= 2
  {
    var first, retry := [AgentCalled(false, request.agent.value.first)], [AgentCalled(true, request.agent.value.retry)];
    var reactive := Stepped(ms, Reactive, failures + 1, lastAssistant, settings, request).events;
    NoCalls(reactive);
    AgentCallsAppend(reactive, retry);
    AgentCallsAppend(first, Reacted(ms, failures + 1, lastAssistant, settings, request).events);
  }

  /** The length of the array after the stages before the call. */
  function PreparedLength(n: nat, total: int, window: int): nat {
    var blocked := if window - 40000 <= total && 5 <= n then 1 + Min(10, n / 5) else n;
    if window - 33000 <= total && 5 <= blocked then 1 + Min(10, blocked / 5) else blocked
  }

  /** The whole answer of an invocation below the limit, from the counts alone: why it fails, which of the two answers it
      returns, how many failures stay open, and how long the array is afterwards. */
  lemma AnswerOfInvocation(ms: seq<Message>, failures: nat, lastAssistant: int, settings: Settings, request: Request)
    requires failures < 3
    ensures var done := Invoke(ms, failures, lastAssistant, settings, request);
            var window := if settings.contextWindow.Some? then settings.contextWindow.value else 200000;
            var blocked := window - 40000 <= request.total;
            var n, open := PreparedLength(|ms|, request.total, window), if blocked then 0 else failures;
            if blocked && |ms| < 5 then
              done.response == CompactionFailed && done.failures == failures && done.messages == ms
            else if request.agent.None? then
              done.response == NoAgent && done.failures == open && |done.messages| == n
            else
              var first, retry := request.agent.value.first, request.agent.value.retry;
              if !first.contextTooLong then
                done.response == Answer(first) && done.failures == open && |done.messages| == n
              else if open == 2 then
                done.response == CircuitTripped && done.failures == 3 && |done.messages| == n
              else if n < 5 then
                done.response == Answer(first) && done.failures == open + 1 && |done.messages| == n
              else
                && done.response == Answer(if retry.success then retry else first)
                && done.failures == 0 && |done.messages| == 1 + Min(10, n / 5)
  {
    PreparedIs(ms, failures, lastAssistant, settings, request);
    var p := Prepare(ms, failures, lastAssistant, settings, request);
    if p.ready && request.agent.Some? {
      SteppedFrom(p.messages, Reactive, p.failures + 1, p.lastAssistant, settings, request);
    }
  }

  lemma PreparedIs(ms: seq<Message>, failures: nat, lastAssistant: int, settings: Settings, request: Request)
    requires failures < 3
    ensures var p := Prepare(ms, failures, lastAssistant, settings, request);
            var window := if settings.contextWindow.Some? then settings.contextWindow.value else 200000;
            var blocked := window - 40000 <= request.total;
            && (p.ready <==> !blocked || 5 <= |ms|)
            && (!p.ready ==> p.messages == ms && p.failures == failures && p.events == [CompactionTried(Blocking, false)]
                             && p.lastAssistant == lastAssistant)
            && (p.ready ==>
                  && p.failures == (if blocked then 0 else failures)
                  && |p.messages| == PreparedLength(|ms|, request.total, window)
                  && p.events ==
                       (if blocked then [CompactionTried(Blocking, true)] else [])
                       + (if window - 33000 <= request.total then [CompactionTried(Proactive, 20 <= |ms|)] else []))
  {
    Thresholds(request.total, settings.contextWindow);
    ProactiveOnlyAfterBlocking(ms, failures, lastAssistant, settings, request);
    SteppedFrom(ms, Blocking, failures, lastAssistant, settings, request);
    if ShouldBlock(request.total, settings.contextWindow) && 5 <= |ms| {
      var once := Stepped(ms, Blocking, failures, lastAssistant, settings, request).messages;
      var pruned := Microcompacted(once, lastAssistant, settings, request.now);
      SteppedFrom(pruned, Proactive, 0, PruningTime(once, pruned, lastAssistant, request.now), settings, request);
    }
  }

  /** What happens after the preparation, in order: the first call, the reaction to a too-long answer unless it trips the
      breaker, and the retry after a reaction that worked. */
  lemma CallsOfInvocation(ms: seq<Message>, failures: nat, lastAssistant: int, settings: Settings, request: Request)
    requires failures < 3
    ensures var p, done := Prepare(ms, failures, lastAssistant, settings, request), Invoke(ms, failures, lastAssistant, settings, request);
            if !p.ready || request.agent.None? then done.events == p.events
            else
              var first, retry, long := request.agent.value.first, request.agent.value.retry, 5 <= |p.messages|;
              done.events ==
                p.events
                + ([AgentCalled(false, first)]
                   + if !first.contextTooLong || p.failures == 2 then []
                     else [CompactionTried(Reactive, long)] + if long then [AgentCalled(true, retry)] else [])
  {
    var p := Prepare(ms, failures, lastAssistant, settings, request);
    PreparedIs(ms, failures, lastAssistant, settings, request);
    SteppedFrom(p.messages, Reactive, p.failures + 1, p.lastAssistant, settings, request);
  }

  /** The array before the call, stage by stage: the blocking compaction, the pruning once the gap has passed, the proactive
      compaction. The gap restarts when that pruning freed tokens. */
  lemma MessagesBeforeCall(ms: seq<Message>, failures: nat, lastAssistant: int, settings: Settings, request: Request)
    requires failures < 3
    requires var window := if settings.contextWindow.Some? then settings.contextWindow.value else 200000;
             window - 40000 <= request.total ==> 5 <= |ms|
    ensures var p := Prepare(ms, failures, lastAssistant, settings, request);
            var window := if settings.contextWindow.Some? then settings.contextWindow.value else 200000;
            var keep, now, gap := settings.keepResults, request.now, settings.microcompactTimeGap;
            var blocked := if window - 40000 <= request.total then Compacted(ms, TokenThreshold, request.summarizer, now, keep) else ms;
            var pruned := if gap <= now - lastAssistant then PrunedMessages(blocked, now, gap, keep) else blocked;
            && p.messages == (if window - 33000 <= request.total then Compacted(pruned, TokenThreshold, request.summarizer, now, keep) else pruned)
            && p.lastAssistant == if ToolTokens(pruned) < ToolTokens(blocked) then now else lastAssistant
  {
    Thresholds(request.total, settings.contextWindow);
    SteppedFrom(ms, Blocking, failures, lastAssistant, settings, request);
  }

  /** The array after the call: compacted once more after a too-long answer that does not trip the breaker. */
  lemma MessagesAfterCall(ms: seq<Message>, failures: nat, lastAssistant: int, settings: Settings, request: Request)
    requires failures < 3
    ensures var p, done := Prepare(ms, failures, lastAssistant, settings, request), Invoke(ms, failures, lastAssistant, settings, request);
            done.messages ==
              if p.ready && request.agent.Some? && request.agent.value.first.contextTooLong && p.failures < 2
              then Compacted(p.messages, OutputLimit, request.summarizer, request.now, settings.keepResults) else p.messages
  {
    var p := Prepare(ms, failures, lastAssistant, settings, request);
    PreparedIs(ms, failures, lastAssistant, settings, request);
    CompactionOutcome(p.messages, OutputLimit, request.summarizer, request.now, settings.keepResults);
  }

  lemma GapOfCall(p: Prepared, settings: Settings, request: Request)
    ensures var done := Finished(p, settings, request);
            done.lastAssistant ==
              if done.response.Answer? && done.response.result.success then request.now else p.lastAssistant
  {
  }

  /** Besides that pruning, exactly a successful answer restarts the gap. */
  lemma GapOfInvocation(ms: seq<Message>, failures: nat, lastAssistant: int, settings: Settings, request: Request)
    requires failures < 3
    ensures var p, done := Prepare(ms, failures, lastAssistant, settings, request), Invoke(ms, failures, lastAssistant, settings, request);
            done.lastAssistant ==
              if done.response.Answer? && done.response.result.success then request.now else p.lastAssistant
  {
    GapOfCall(Prepare(ms, failures, lastAssistant, settings, request), settings, request);
  }

  /** The reason on the boundary a stage leaves. */
  lemma ReasonOfStage(ms: seq<Message>, stage: Stage, failures: nat, lastAssistant: int, settings: Settings, request: Request)
    requires 5 <= |ms|
    ensures var after := Stepped(ms, stage, failures, lastAssistant, settings, request).messages;
            && after != [] && after[0].boundary.Some?
            && after[0].boundary.value.reason ==
                 match stage
                 case Blocking => TokenThreshold
                 case Proactive => TokenThreshold
                 case Reactive => OutputLimit
  {
    CompactionOutcome(ms, if stage == Reactive then OutputLimit else TokenThreshold, request.summarizer, request.now, settings.keepResults);
  }

  // ---- Whole runs ----

  /** What an orchestrator keeps between two calls; the caller brings its messages each time. */
  datatype Session = Session(failures: nat, lastAssistant: int)

  datatype Op = Invoking(messages: seq<Message>, request: Request) | Resetting

  function Operated(s: Session, settings: Settings, op: Op): Session {
    match op
    case Invoking(messages, request) =>
      var done := Invoke(messages, s.failures, s.lastAssistant, settings, request);
      Session(done.failures, done.lastAssistant)
    case Resetting => s.(failures := 0)
  }

  function Run(s: Session, settings: Settings, ops: seq<Op>): Session
    decreases |ops|
  {
    if ops == [] then s else Run(Operated(s, settings, ops[0]), settings, ops[1..])
  }

  /** The invocations of a run, with what they did. */
  function Invocations(s: Session, settings: Settings, ops: seq<Op>): seq<Invocation>
    decreases |ops|
  {
    if ops == [] then []
    else
      var rest := Invocations(Operated(s, settings, ops[0]), settings, ops[1..]);
      match ops[0]
      case Invoking(messages, request) => [Invoke(messages, s.failures, s.lastAssistant, settings, request)] + rest
      case Resetting => rest
  }

  /** Once engaged, the breaker refuses every invocation, until a reset, without any event. */
  lemma {:induction false} EngagedUntilReset(s: Session, settings: Settings, ops: seq<Op>)
    requires MAX_CONSECUTIVE_COMPACT_FAILURES <= s.failures
    requires forall i | 0 <= i < |ops| :: ops[i].Invoking?
    ensures Run(s, settings, ops) == s
    ensures var done := Invocations(s, settings, ops);
            && |done| == |ops|
            && forall i | 0 <= i < |ops| ::
                 done[i] == Invocation(CircuitOpen, ops[i].messages, [], s.failures, s.lastAssistant)
    decreases |ops|
  {
    if ops != [] {
      EngagedUntilReset(s, settings, ops[1..]);
    }
  }

  /** Whether a first answer that the context is too long leaves a failure behind: before the third one, exactly when the
      prepared array is too short to be compacted. */
  lemma FailureSurvivesIff(p: Prepared, settings: Settings, request: Request)
    requires p.ready && p.failures + 1 < MAX_CONSECUTIVE_COMPACT_FAILURES
    requires request.agent.Some? && request.agent.value.first.contextTooLong
    ensures Finished(p, settings, request).failures == if |p.messages| < 5 then p.failures + 1 else 0
  {
    SteppedFrom(p.messages, Reactive, p.failures + 1, p.lastAssistant, settings, request);
  }

  /** An invocation on five or more messages never leaves more than one failure, if it found at most one. */
  lemma LongArrayKeepsOneFailure(ms: seq<Message>, failures: nat, lastAssistant: int, settings: Settings, request: Request)
    requires failures <= 1 && 5 <= |ms|
    ensures var done := Invoke(ms, failures, lastAssistant, settings, request);
            done.failures <= 1 && done.response != CircuitOpen && done.response != CircuitTripped
  {
    var p := Prepare(ms, failures, lastAssistant, settings, request);
    SteppedFrom(ms, Blocking, failures, lastAssistant, settings, request);
    assert p.ready && (p.failures == 0 || (p.failures == failures && |p.messages| == |ms|));
    if request.agent.Some? && request.agent.value.first.contextTooLong {
      FailureSurvivesIff(p, settings, request);
    }
  }

  /** So the breaker never engages in a run whose conversations have five or more messages, however often the context is
      too long and whatever the agent and the summarizer answer. */
  lemma {:induction false} LongConversationsNeverTrip(s: Session, settings: Settings, ops: seq<Op>)
    requires s.failures <= 1
    requires forall i | 0 <= i < |ops| && ops[i].Invoking? :: 5 <= |ops[i].messages|
    ensures Run(s, settings, ops).failures <= 1
    ensures forall d | d in Invocations(s, settings, ops) :: d.response != CircuitOpen && d.response != CircuitTripped
    decreases |ops|
  {
    if ops != [] {
      if ops[0].Invoking? {
        LongArrayKeepsOneFailure(ops[0].messages, s.failures, s.lastAssistant, settings, ops[0].request);
      }
      LongConversationsNeverTrip(Operated(s, settings, ops[0]), settings, ops[1..]);
    }
  }

  /** A call on fewer than five messages, not blocked, whose first answer is that the context is too long. */
  predicate FailsShort(op: Op, settings: Settings) {
    && op.Invoking? && |op.messages| < 5 && !ShouldBlock(op.request.total, settings.contextWindow)
    && op.request.agent.Some? && op.request.agent.value.first.contextTooLong
  }

  lemma ShortArrayAddsAFailure(s: Session, settings: Settings, op: Op)
    requires s.failures < MAX_CONSECUTIVE_COMPACT_FAILURES && FailsShort(op, settings)
    ensures var done := Invoke(op.messages, s.failures, s.lastAssistant, settings, op.request);
            && done.failures == Operated(s, settings, op).failures == s.failures + 1
            && (done.response == CircuitTripped <==> s.failures + 1 == MAX_CONSECUTIVE_COMPACT_FAILURES)
  {
    var p := Prepare(op.messages, s.failures, s.lastAssistant, settings, op.request);
    assert p.ready && p.failures == s.failures && |p.messages| == |op.messages|;
    SteppedFrom(p.messages, Reactive, s.failures + 1, p.lastAssistant, settings, op.request);
  }

  /** On shorter conversations three such calls in a row engage it. */
  lemma ShortConversationsTrip(s: Session, settings: Settings, a: Op, b: Op, c: Op)
    requires s.failures == 0 && FailsShort(a, settings) && FailsShort(b, settings) && FailsShort(c, settings)
    ensures Run(s, settings, [a, b, c]).failures == MAX_CONSECUTIVE_COMPACT_FAILURES
    ensures |Invocations(s, settings, [a, b, c])| == 3 && Invocations(s, settings, [a, b, c])[2].response == CircuitTripped
  {
    var s1, s2 := Operated(s, settings, a), Operated(Operated(s, settings, a), settings, b);
    ShortArrayAddsAFailure(s, settings, a);
    ShortArrayAddsAFailure(s1, settings, b);
    ShortArrayAddsAFailure(s2, settings, c);
    OneMore(s, settings, a, [b, c]);
    OneMore(s1, settings, b, [c]);
    OneMore(s2, settings, c, []);
  }

  lemma OneMore(s: Session, settings: Settings, op: Op, rest: seq<Op>)
    requires op.Invoking?
    ensures var s' := Operated(s, settings, op);
            && Run(s, settings, [op] + rest) == Run(s', settings, rest)
            && Invocations(s, settings, [op] + rest)
                 == [Invoke(op.messages, s.failures, s.lastAssistant, settings, op.request)] + Invocations(s', settings, rest)
  {
    assert ([op] + rest)[1..] == rest;
  }

  lemma NoCalls(events: seq<Event>)
    requires forall e | e in events :: !e.AgentCalled?
    ensures AgentCalls(events) == 0
  {
  }

  lemma AgentCallsAppend(a: seq<Event>, b: seq<Event>)
    ensures AgentCalls(a + b) == AgentCalls(a) + AgentCalls(b)
  {
    if a == [] {
      assert a + b == b;
    } else {
      assert (a + b)[1..] == a[1..] + b;
    }
  }
}
