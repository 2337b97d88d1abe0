/**
  The context window (harness/context-window-manager.ts): thresholds, the
  message truncation and the pruning of old tool results.
 */
module ContextWindow {
  import opened Common
  import opened Sorting

  const AUTOCOMPACT_BUFFER_TOKENS := 13000
  const BLOCKING_THRESHOLD_BUFFER_TOKENS := 20000
  const RESERVED_OUTPUT_TOKENS := 20000
  const DEFAULT_CONTEXT_WINDOW := 200000
  const MAX_CONSECUTIVE_COMPACT_FAILURES := 3

  // ---- Thresholds ----

  function EffectiveWindow(contextWindow: Option<int>): int {
    (if contextWindow.Some? then contextWindow.value else DEFAULT_CONTEXT_WINDOW) - RESERVED_OUTPUT_TOKENS
  }

  predicate ShouldCompact(total: int, contextWindow: Option<int>) {
    total >= EffectiveWindow(contextWindow) - AUTOCOMPACT_BUFFER_TOKENS
  }

  predicate ShouldBlock(total: int, contextWindow: Option<int>) {
    total >= EffectiveWindow(contextWindow) - BLOCKING_THRESHOLD_BUFFER_TOKENS
  }

  /** In numbers: with a window of n tokens compaction starts at n - 33000 and blocking at n - 40000; without one n is
      200000. A total that compacts therefore blocks. */
  lemma Thresholds(total: int, contextWindow: Option<int>)
    ensures var n := if contextWindow.Some? then contextWindow.value else 200000;
            && (ShouldCompact(total, contextWindow) <==> n - 33000 <= total)
            && (ShouldBlock(total, contextWindow) <==> n - 40000 <= total)
  {
  }

  // ---- prepareMessages ----

  datatype Strategy = Truncate | Summarize | Split

  /** A quarter of the text length, rounded up. */
  function TextTokens(text: string): (tokens: nat)
    ensures 4 * tokens - 4 < |text| <= 4 * tokens
  {
    (|text| + 3) / 4
  }

  function TotalTokens(contents: seq<string>): nat {
    if contents == [] then 0 else TextTokens(contents[0]) + TotalTokens(contents[1..])
  }

  /** The total of a list is the sum over its texts. */
  lemma {:induction false} TotalTokensIsSum(a: seq<string>, b: seq<string>, text: string)
    ensures TotalTokens(a + b) == TotalTokens(a) + TotalTokens(b)
    ensures TotalTokens([]) == 0 && TotalTokens([text]) == TextTokens(text)
  {
    assert [text][1..] == [];
    if a == [] {
      assert a + b == b;
    } else {
      assert (a + b)[1..] == a[1..] + b;
      TotalTokensIsSum(a[1..], b, text);
    }
  }

  lemma ShorterSuffixIsSmaller(contents: seq<string>, i: nat, j: nat)
    requires i <= j <= |contents|
    ensures TotalTokens(contents[j..]) <= TotalTokens(contents[i..])
    decreases j - i
  {
    if i < j {
      assert contents[i..][1..] == contents[i + 1..];
      ShorterSuffixIsSmaller(contents, i + 1, j);
    }
  }

  /** The summing loop of `prepareMessages`. */
  method EstimateTotal(contents: seq<string>) returns (total: nat)
    ensures total == TotalTokens(contents)
  {
    total := 0;
    assert contents[0..] == contents;
    for i := 0 to |contents|
      invariant total + TotalTokens(contents[i..]) == TotalTokens(contents)
    {
      assert contents[i..][0] == contents[i] && contents[i..][1..] == contents[i + 1..];
      total := total + TextTokens(contents[i]);
    }
  }

  /** The shifting loop of `prepareMessages`: drops messages while they do not fit, but never the last one. */
  method DropFromFront(contents: seq<string>, estimate: nat, maxTokens: int) returns (kept: seq<string>)
    requires estimate == TotalTokens(contents)
    ensures |kept| <= |contents| && kept == contents[|contents| - |kept|..]
    ensures forall k | 0 <= k < |contents| - |kept| :: maxTokens < TotalTokens(contents[k..])
    ensures TotalTokens(kept) <= maxTokens || |kept| == Min(1, |contents|)
  {
    var total, dropped := estimate, 0;
    kept := contents;
    assert contents[0..] == contents;
    while total > maxTokens && |kept| > 1
      invariant dropped <= |contents| && kept == contents[dropped..] && |kept| == |contents| - dropped
      invariant total == TotalTokens(kept)
      invariant 0 < dropped ==> 1 <= |kept|
      invariant forall k | 0 <= k < dropped :: maxTokens < TotalTokens(contents[k..])
      decreases |kept|
    {
      assert contents[dropped..][1..] == contents[dropped + 1..];
      total := total - TextTokens(kept[0]);
      kept := kept[1..];
      dropped := dropped + 1;
    }
  }

  /** Keeps the newest messages that fit. */
  method PrepareMessages(contents: seq<string>, maxTokens: int, strategy: Strategy) returns (kept: seq<string>)
    ensures |kept| <= |contents| && kept == contents[|contents| - |kept|..]
    // No longer suffix fits ...
    ensures forall k | 0 <= k < |contents| - |kept| :: maxTokens < TotalTokens(contents[k..])
    // ... and the result fits, unless it is the last message alone (or nothing was given and not even that fits).
    ensures TotalTokens(kept) <= maxTokens || |kept| == Min(1, |contents|)
    decreases strategy != Truncate
  {
    var total := EstimateTotal(contents);
    if total <= maxTokens { return contents; }
    if strategy == Truncate {
      kept := DropFromFront(contents, total, maxTokens);
      return;
    }
    kept := PrepareMessages(contents, maxTokens, Truncate);
  }

  // ---- Tool results ----

  datatype ToolResult = ToolResult(id: string, timestamp: int, tokens: nat, content: string)

  datatype Role = User | Assistant | System

  datatype Message = Message(role: Role, content: string, timestamp: int, toolResults: Option<seq<ToolResult>>, boundary: Option<Boundary>)

  /** The metadata of a compact boundary. */
  datatype Boundary = Boundary(reason: Trigger, compactedMessages: int)

  datatype Trigger = TokenThreshold | OutputLimit

  datatype Stamp = Stamp(id: string, timestamp: int)

  const CLEARED := "[Old tool result cleared]"

  const NEWEST_FIRST: Stamp -> int := (s: Stamp) => -s.timestamp

  function Stamps(results: seq<ToolResult>): (stamps: seq<Stamp>)
    ensures |stamps| == |results|
  {
    seq(|results|, i requires 0 <= i < |results| => Stamp(results[i].id, results[i].timestamp))
  }

  /** The `keepRecent` newest results of a message. */
  function Newest(results: seq<ToolResult>, keepRecent: nat): seq<Stamp> {
    SortBy(Stamps(results), NEWEST_FIRST)[..Min(keepRecent, |results|)]
  }

  function KeptIds(results: seq<ToolResult>, keepRecent: nat): set<string> {
    set s | s in Newest(results, keepRecent) :: s.id
  }

  predicate IsPruned(tr: ToolResult, keptIds: set<string>, now: int, maxAge: int) {
    tr.id !in keptIds && now - tr.timestamp > maxAge
  }

  function PrunedResult(tr: ToolResult, keptIds: set<string>, now: int, maxAge: int): ToolResult {
    if IsPruned(tr, keptIds, now, maxAge) then tr.(content := CLEARED, tokens := 0) else tr
  }

  function PrunedResults(results: seq<ToolResult>, keptIds: set<string>, now: int, maxAge: int): (pruned: seq<ToolResult>)
    ensures |pruned| == |results|
    ensures forall i | 0 <= i < |results| :: pruned[i] == PrunedResult(results[i], keptIds, now, maxAge)
  {
    if results == [] then []
    else [PrunedResult(results[0], keptIds, now, maxAge)] + PrunedResults(results[1..], keptIds, now, maxAge)
  }

  function PrunedMessage(m: Message, now: int, maxAge: int, keepRecent: nat): Message {
    if m.role != Assistant || m.toolResults.None? then m
    else
      var results := m.toolResults.value;
      m.(toolResults := Some(PrunedResults(results, KeptIds(results, keepRecent), now, maxAge)))
  }

  function PrunedMessages(ms: seq<Message>, now: int, maxAge: int, keepRecent: nat): (pruned: seq<Message>)
    ensures |pruned| == |ms|
    ensures forall i | 0 <= i < |ms| :: pruned[i] == PrunedMessage(ms[i], now, maxAge, keepRecent)
  {
    if ms == [] then []
    else [PrunedMessage(ms[0], now, maxAge, keepRecent)] + PrunedMessages(ms[1..], now, maxAge, keepRecent)
  }

  function ResultTokens(results: seq<ToolResult>): nat {
    if results == [] then 0 else results[0].tokens + ResultTokens(results[1..])
  }

  function MessageTokens(m: Message): nat {
    if m.toolResults.Some? then ResultTokens(m.toolResults.value) else 0
  }

  function ToolTokens(ms: seq<Message>): nat {
    if ms == [] then 0 else MessageTokens(ms[0]) + ToolTokens(ms[1..])
  }

  /** The message array of a conversation, which compaction rewrites in place. */
  class Conversation {
    var messages: seq<Message>

    constructor (messages: seq<Message>)
      ensures this.messages == messages
    {
      this.messages := messages;
    }

    /** `microcompactToolResults`: the result is exactly the drop in tool-result tokens. */
    method MicrocompactToolResults(now: int, maxAge: int, keepRecent: nat) returns (freed: nat)
      modifies this
      ensures messages == PrunedMessages(old(messages), now, maxAge, keepRecent)
      ensures freed == ToolTokens(old(messages)) - ToolTokens(messages)
    {
      freed := 0;
      ghost var all := PrunedMessages(messages, now, maxAge, keepRecent);
      assert messages[0..] == messages && all[0..] == all;
      for i := 0 to |messages|
        invariant |messages| == |old(messages)|
        invariant forall k | 0 <= k < i :: messages[k] == all[k]
        invariant forall k | i <= k < |messages| :: messages[k] == old(messages)[k]
        invariant freed + ToolTokens(old(messages)[i..]) - ToolTokens(all[i..]) == ToolTokens(old(messages)) - ToolTokens(all)
      {
        var m := messages[i];
        assert old(messages)[i..][1..] == old(messages)[i + 1..] && all[i..][1..] == all[i + 1..];
        if m.role == Assistant && m.toolResults.Some? {
          var pruned, drop := PruneResults(m.toolResults.value, now, maxAge, keepRecent);
          messages := messages[i := m.(toolResults := Some(pruned))];
          freed := freed + drop;
        }
      }
    }
  }

  /** The inner loops of `microcompactToolResults`, over the results of one message. */
  method PruneResults(results: seq<ToolResult>, now: int, maxAge: int, keepRecent: nat) returns (pruned: seq<ToolResult>, freed: nat)
    ensures pruned == PrunedResults(results, KeptIds(results, keepRecent), now, maxAge)
    ensures freed == ResultTokens(results) - ResultTokens(pruned)
  {
    var keptIds := KeptIds(results, keepRecent);
    pruned, freed := results, 0;
    ghost var all := PrunedResults(results, keptIds, now, maxAge);
    assert results[0..] == results && all[0..] == all;
    for i := 0 to |results|
      invariant |pruned| == |results|
      invariant forall k | 0 <= k < i :: pruned[k] == all[k]
      invariant forall k | i <= k < |results| :: pruned[k] == results[k]
      invariant freed + ResultTokens(results[i..]) - ResultTokens(all[i..]) == ResultTokens(results) - ResultTokens(all)
    {
      var tr := pruned[i];
      assert results[i..][1..] == results[i + 1..] && all[i..][1..] == all[i + 1..];
      if tr.id !in keptIds && now - tr.timestamp > maxAge {
        freed := freed + tr.tokens;
        pruned := pruned[i := tr.(content := CLEARED, tokens := 0)];
      }
    }
  }

  /** Tool tokens are the sum over all results of all messages. */
  lemma {:induction false} ResultTokensIsSum(a: seq<ToolResult>, b: seq<ToolResult>, r: ToolResult)
    ensures ResultTokens(a + b) == ResultTokens(a) + ResultTokens(b)
    ensures ResultTokens([]) == 0 && ResultTokens([r]) == r.tokens
  {
    assert [r][1..] == [];
    if a == [] {
      assert a + b == b;
    } else {
      assert (a + b)[1..] == a[1..] + b;
      ResultTokensIsSum(a[1..], b, r);
    }
  }

  lemma {:induction false} ToolTokensIsSum(a: seq<Message>, b: seq<Message>, m: Message)
    ensures ToolTokens(a + b) == ToolTokens(a) + ToolTokens(b)
    ensures ToolTokens([]) == 0
    ensures ToolTokens([m]) == if m.toolResults.Some? then ResultTokens(m.toolResults.value) else 0
  {
    assert [m][1..] == [];
    if a == [] {
      assert a + b == b;
    } else {
      assert (a + b)[1..] == a[1..] + b;
      ToolTokensIsSum(a[1..], b, m);
    }
  }

  // ---- What pruning keeps ----

  /** `newest` are the newest results of a message, as many as asked for: the rest is no newer. */
  ghost predicate AreNewest(newest: seq<Stamp>, rest: seq<Stamp>, results: seq<ToolResult>, keepRecent: nat) {
    && |newest| == Min(keepRecent, |results|)
    && (exists stamps: seq<Stamp> ::
          && |stamps| == |results|
          && (forall i | 0 <= i < |results| :: stamps[i] == Stamp(results[i].id, results[i].timestamp))
          && multiset(newest + rest) == multiset(stamps))
    && (forall i, j | 0 <= i < |newest| && 0 <= j < |rest| :: rest[j].timestamp <= newest[i].timestamp)
  }

  lemma NewestAreNewest(results: seq<ToolResult>, keepRecent: nat) returns (rest: seq<Stamp>)
    ensures AreNewest(Newest(results, keepRecent), rest, results, keepRecent)
  {
    var stamps := Stamps(results);
    var sorted := SortBy(stamps, NEWEST_FIRST);
    SortSorts(stamps, NEWEST_FIRST);
    SortKeepsElements(stamps, NEWEST_FIRST);
    rest := sorted[Min(keepRecent, |results|)..];
    var newest := Newest(results, keepRecent);
    assert newest + rest == sorted;
    forall i, j | 0 <= i < |newest| && 0 <= j < |rest|
      ensures rest[j].timestamp <= newest[i].timestamp
    {
      assert NEWEST_FIRST(sorted[i]) <= NEWEST_FIRST(sorted[|newest| + j]);
    }
  }

  /** Pruning clears exactly the results of assistants that are over the age limit and do not share an id with one of the
      newest ones of their message; nothing else of any message changes. */
  lemma PruningClearsExactly(ms: seq<Message>, now: int, maxAge: int, keepRecent: nat, i: nat)
    returns (newest: seq<Stamp>, rest: seq<Stamp>)
    requires i < |ms|
    ensures var before, after := ms[i], PrunedMessages(ms, now, maxAge, keepRecent)[i];
            && |PrunedMessages(ms, now, maxAge, keepRecent)| == |ms|
            && after.(toolResults := None) == before.(toolResults := None)
            && (before.role != Assistant || before.toolResults.None? ==> after == before)
            && (before.role == Assistant && before.toolResults.Some? ==>
                  var olds := before.toolResults.value;
                  && AreNewest(newest, rest, olds, keepRecent)
                  && after.toolResults.Some? && |after.toolResults.value| == |olds|
                  && forall k | 0 <= k < |olds| ::
                       after.toolResults.value[k] ==
                         if now - olds[k].timestamp > maxAge && (forall n | 0 <= n < |newest| :: newest[n].id != olds[k].id)
                         then ToolResult(olds[k].id, olds[k].timestamp, 0, "[Old tool result cleared]") else olds[k])
  {
    newest, rest := [], [];
    if ms[i].role == Assistant && ms[i].toolResults.Some? {
      var olds := ms[i].toolResults.value;
      newest := Newest(olds, keepRecent);
      rest := NewestAreNewest(olds, keepRecent);
      forall k | 0 <= k < |olds|
        ensures olds[k].id in KeptIds(olds, keepRecent) <==> exists n :: 0 <= n < |newest| && newest[n].id == olds[k].id
      {
        KeptIdsAre(olds, keepRecent, olds[k].id);
      }
    }
  }

  lemma KeptIdsAre(results: seq<ToolResult>, keepRecent: nat, id: string)
    ensures var newest := Newest(results, keepRecent);
            id in KeptIds(results, keepRecent) <==> exists n :: 0 <= n < |newest| && newest[n].id == id
  {
    var newest := Newest(results, keepRecent);
    if n :| 0 <= n < |newest| && newest[n].id == id {
      assert newest[n] in newest;
    }
  }

  /** A result that is dropped is older than the age limit, and at least `keepRecent` results of its message, all kept,
      are as new as it is. */
  lemma PrunedResultsAreOldest(results: seq<ToolResult>, keepRecent: nat, now: int, maxAge: int, i: nat)
    requires i < |results|
    requires PrunedResults(results, KeptIds(results, keepRecent), now, maxAge)[i] != results[i]
    ensures results[i].timestamp < now - maxAge
    ensures var newest := Newest(results, keepRecent);
            && |newest| == keepRecent
            && (forall k | 0 <= k < |newest| :: results[i].timestamp <= newest[k].timestamp && newest[k].id in KeptIds(results, keepRecent))
  {
    var stamps := Stamps(results);
    var sorted := SortBy(stamps, NEWEST_FIRST);
    var newest := Newest(results, keepRecent);
    SortSorts(stamps, NEWEST_FIRST);
    SortKeepsElements(stamps, NEWEST_FIRST);
    var mine := stamps[i];
    assert mine in multiset(sorted);
    var p :| 0 <= p < |sorted| && sorted[p] == mine;
    assert forall q | 0 <= q < |newest| :: newest[q] in newest && newest[q].id in KeptIds(results, keepRecent);
    forall k | 0 <= k < |newest|
      ensures results[i].timestamp <= newest[k].timestamp && newest[k].id in KeptIds(results, keepRecent)
    {
      assert newest[k] in newest;
      assert NEWEST_FIRST(sorted[k]) <= NEWEST_FIRST(sorted[p]);
    }
  }

  /** Pruning again at the same time changes nothing, so it frees nothing. */
  lemma PruningIsIdempotent(ms: seq<Message>, now: int, maxAge: int, keepRecent: nat)
    ensures var once := PrunedMessages(ms, now, maxAge, keepRecent);
            PrunedMessages(once, now, maxAge, keepRecent) == once
  {
    var once := PrunedMessages(ms, now, maxAge, keepRecent);
    forall i | 0 <= i < |ms|
      ensures PrunedMessage(once[i], now, maxAge, keepRecent) == once[i]
    {
      if ms[i].role == Assistant && ms[i].toolResults.Some? {
        var results := ms[i].toolResults.value;
        var pruned := once[i].toolResults.value;
        assert Stamps(pruned) == Stamps(results);
        assert KeptIds(pruned, keepRecent) == KeptIds(results, keepRecent);
        assert PrunedResults(pruned, KeptIds(pruned, keepRecent), now, maxAge) == pruned;
      }
    }
  }
}
