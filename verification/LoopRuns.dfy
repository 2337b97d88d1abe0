/**
  Every run of a write-review loop: any number of polls of the two agents, in
  any order, with any verdict at every review.
 */
module LoopRuns {
  import opened Common
  import opened LoopGraph
  import opened Blackboard
  import opened LoopAgents

  /** The blackboard and which of the two agents still polls. */
  datatype System = System(record: Record, codeLive: bool, reviewLive: bool)

  datatype Poll = PollCode | PollReview(verdict: Verdict)

  function Start(w: nat, r: nat): System {
    System(InitialRecord(w, r), true, true)
  }

  function Step(s: System, p: Poll): System {
    match p
    case PollCode =>
      if s.codeLive then
        var turn := CodeTurn(s.record);
        System(turn.record, !turn.stops, s.reviewLive)
      else s
    case PollReview(verdict) =>
      if s.reviewLive then
        var turn := ReviewTurn(s.record, verdict);
        System(turn.record, s.codeLive, !turn.stops)
      else s
  }

  function Run(s: System, polls: seq<Poll>): System
    decreases |polls|
  {
    if polls == [] then s else Run(Step(s, polls[0]), polls[1..])
  }

  predicate Finished(s: System) {
    Report in s.record.nodes && s.record.nodes[Report].status == Done
  }

  function PendingNodes(nodes: map<TaskId, Node>): set<TaskId> {
    set id | id in nodes && nodes[id].status == Pending
  }

  // ---- The invariant ----

  /** Exactly the writes 1 .. k are done. */
  ghost predicate WritesDone(w: nat, nodes: map<TaskId, Node>, k: nat) {
    forall i: nat | 1 <= i <= w ::
      && Write(i) in nodes
      && nodes[Write(i)].status == (if i <= k then Done else Pending)
      && (i <= k ==> nodes[Write(i)].result == Files)
  }

  /** Exactly the reviews 1 .. m have a verdict. */
  ghost predicate ReviewsFinished(r: nat, nodes: map<TaskId, Node>, m: nat) {
    forall i: nat | 1 <= i <= r ::
      && Review(i) in nodes
      && (i > m ==> nodes[Review(i)].status == Pending)
      && (i <= m ==> nodes[Review(i)].result.Judged?)
      && (i <= m ==> nodes[Review(i)].status == if nodes[Review(i)].result.verdict == Rejected then Blocked else Done)
  }

  ghost predicate NodesAt(w: nat, r: nat, nodes: map<TaskId, Node>, k: nat, m: nat) {
    && nodes.Keys == Ids(w, r)
    && k <= w && m <= r
    && WritesDone(w, nodes, k)
    && ReviewsFinished(r, nodes, m)
    && (nodes[Report].status == Pending || nodes[Report].status == Done)
    && nodes[Report].result == NoResult
  }

  /** The next action names a pending node of the kind its agent works on. */
  ghost predicate Routed(w: nat, r: nat, action: NextAction, stopped: bool, reported: bool, k: nat, m: nat) {
    match action.taskId
    case Write(i) =>
      && action == NextAction(Write(i), CodeAgent, i)
      && i == k + 1 <= w
      && m == Min(r, CeilDiv(k, StepSize(w, r)))
      && !stopped && !reported
    case Review(j) =>
      && action == NextAction(Review(j), ReviewAgent, j)
      && j == m + 1 <= r
      && j == CeilDiv(k, StepSize(w, r))
      && !stopped && !reported
    case Report => action == TO_REPORT
  }

  ghost predicate At(w: nat, r: nat, s: System, k: nat, m: nat) {
    && NodesAt(w, r, s.record.nodes, k, m)
    && s.record.nextAction.Some?
    && Routed(w, r, s.record.nextAction.value, CodeAgentExits(s.record.nodes), Finished(s), k, m)
    && s.record.locks == (if Finished(s) then map[Report := ReviewAgent] else map[])
    && (s.reviewLive <==> !Finished(s))
    && (!s.codeLive ==> CodeAgentExits(s.record.nodes))
  }

  // ---- Counting ----

  lemma WriteCount(w: nat)
    ensures |WriteIds(w)| == w
  {
    if w == 0 {
      assert WriteIds(w) == {};
    } else {
      WriteCount(w - 1);
      assert WriteIds(w) == WriteIds(w - 1) + {Write(w)};
    }
  }

  lemma ReviewCount(r: nat)
    ensures |ReviewIds(r)| == r
  {
    if r == 0 {
      assert ReviewIds(r) == {};
    } else {
      ReviewCount(r - 1);
      assert ReviewIds(r) == ReviewIds(r - 1) + {Review(r)};
    }
  }

  /** The step the code agent recomputes from the blackboard is the step of the builder. */
  lemma RecomputedStepIsBuilderStep(w: nat, r: nat, nodes: map<TaskId, Node>)
    requires nodes.Keys == Ids(w, r)
    ensures RecomputedStep(nodes) == StepSize(w, r)
  {
    assert WritesIn(nodes) == WriteIds(w);
    assert ReviewsIn(nodes) == ReviewIds(r);
    WriteCount(w);
    ReviewCount(r);
  }

  lemma CeilDivGrows(k: nat, step: nat)
    requires 1 <= step
    ensures CeilDiv(k, step) <= CeilDiv(k + 1, step) <= CeilDiv(k, step) + 1
    ensures CeilDiv(k, step) <= k
    ensures 1 <= CeilDiv(k + 1, step)
  {
    QuotientBounds(k + step, step);
    var q := (k + step) / step;
    assert 1 <= q by {
      if q < 1 { MulMonotone(q + 1, 1, step); }
    }
    CeilDivShrinks(k, step, q);
    if k < CeilDiv(k, step) {
      QuotientBounds(k + step - 1, step);
      MulMonotone(k + 1, CeilDiv(k, step), step);
      MulMonotone(1, step, k);
    }
  }

  lemma CeilDivShrinks(k: nat, step: nat, q: nat)
    requires 1 <= step && 1 <= q && q * step <= k + step < (q + 1) * step
    ensures CeilDiv(k, step) == q || CeilDiv(k, step) == q - 1
  {
    if k + step == q * step {
      QuotientIs(k + step - 1, step, q - 1);
    } else {
      QuotientIs(k + step - 1, step, q);
    }
  }

  // ---- One poll keeps the invariant ----

  lemma StartIsRouted(w: nat, r: nat)
    requires 1 <= w
    ensures At(w, r, Start(w, r), 0, 0)
  {
    assert CeilDiv(0, StepSize(w, r)) == 0 by {
      CeilDivGrows(0, StepSize(w, r));
    }
  }

  lemma AfterWriteIsRouted(w: nat, r: nat, nodes: map<TaskId, Node>, k: nat, m: nat)
    requires NodesAt(w, r, nodes, k + 1, m)
    requires m == Min(r, CeilDiv(k, StepSize(w, r)))
    ensures Routed(w, r, AfterWrite(nodes, k + 1), false, false, k + 1, m)
  {
    RecomputedStepIsBuilderStep(w, r, nodes);
    CeilDivGrows(k, StepSize(w, r));
  }

  lemma AfterReviewIsRouted(w: nat, r: nat, nodes: map<TaskId, Node>, k: nat, m: nat)
    requires NodesAt(w, r, nodes, k, m + 1)
    requires m + 1 == CeilDiv(k, StepSize(w, r))
    ensures Routed(w, r, AfterReview(nodes, m + 1, ChangesRequested), false, false, k, m + 1)
  {
    CeilDivGrows(k, StepSize(w, r));
  }

  /** A poll by the agent the next action names, while the report is not done. */
  predicate IsMove(s: System, p: Poll) {
    && !Finished(s)
    && s.record.nextAction.Some?
    && s.record.nextAction.value.agent == (if p.PollCode? then CodeAgent else ReviewAgent)
  }

  /** What a move does to the task its action names. */
  function Worked(nodes: map<TaskId, Node>, task: TaskId, p: Poll): map<TaskId, Node>
    requires task in nodes
  {
    match p
    case PollCode => nodes[task := nodes[task].(status := Done, result := Files)]
    case PollReview(verdict) =>
      if task == Report then nodes[task := nodes[task].(status := Done)]
      else nodes[task := nodes[task].(status := if verdict == Rejected then Blocked else Done, result := Judged(verdict))]
  }

  /** A move works on exactly the pending task of the next action; any other poll changes no task. */
  lemma PollWorksOnTheNextAction(w: nat, r: nat, s: System, k: nat, m: nat, p: Poll)
    requires At(w, r, s, k, m)
    ensures IsMove(s, p) ==>
              && IsPending(s.record.nodes, s.record.nextAction.value.taskId)
              && Step(s, p).record.nodes == Worked(s.record.nodes, s.record.nextAction.value.taskId, p)
    ensures !IsMove(s, p) ==> Step(s, p).record.nodes == s.record.nodes
  {
    if IsMove(s, p) {
      MoveWorks(w, r, s, k, m, p);
    }
  }

  lemma MoveWorks(w: nat, r: nat, s: System, k: nat, m: nat, p: Poll)
    requires At(w, r, s, k, m) && IsMove(s, p)
    ensures IsPending(s.record.nodes, s.record.nextAction.value.taskId)
    ensures Step(s, p).record.nodes == Worked(s.record.nodes, s.record.nextAction.value.taskId, p)
  {
    match s.record.nextAction.value.taskId
    case Write(i) => assert Step(s, p).record == CodeWorked(s.record, s.record.nextAction.value);
    case Review(j) => assert Step(s, p).record == ReviewWorked(s.record, s.record.nextAction.value, p.verdict);
    case Report => assert Step(s, p).record == ReportWorked(s.record);
  }

  lemma WritingOne(w: nat, r: nat, nodes: map<TaskId, Node>, k: nat, m: nat)
    requires NodesAt(w, r, nodes, k, m) && k < w && !CodeAgentExits(nodes)
    ensures NodesAt(w, r, Worked(nodes, Write(k + 1), PollCode), k + 1, m)
    ensures !CodeAgentExits(Worked(nodes, Write(k + 1), PollCode))
  {
  }

  lemma JudgingOne(w: nat, r: nat, nodes: map<TaskId, Node>, k: nat, m: nat, verdict: Verdict)
    requires NodesAt(w, r, nodes, k, m) && m < r && !CodeAgentExits(nodes)
    ensures NodesAt(w, r, Worked(nodes, Review(m + 1), PollReview(verdict)), k, m + 1)
    ensures CodeAgentExits(Worked(nodes, Review(m + 1), PollReview(verdict))) <==> verdict != ChangesRequested
  {
    var after := Worked(nodes, Review(m + 1), PollReview(verdict));
    assert verdict == Rejected ==> after[Review(m + 1)].status == Blocked;
  }

  lemma ReportingKeepsPrefixes(w: nat, r: nat, nodes: map<TaskId, Node>, k: nat, m: nat, p: Poll)
    requires NodesAt(w, r, nodes, k, m) && p.PollReview?
    ensures NodesAt(w, r, Worked(nodes, Report, p), k, m)
  {
  }

  lemma ReportingKeepsExit(nodes: map<TaskId, Node>, p: Poll)
    requires Report in nodes && nodes[Report].status != Blocked && nodes[Report].result == NoResult && p.PollReview?
    ensures CodeAgentExits(Worked(nodes, Report, p)) <==> CodeAgentExits(nodes)
  {
    var after := Worked(nodes, Report, p);
    assert forall id | id in nodes && id != Report :: after[id] == nodes[id];
    if HasBlockedNode(nodes) {
      var id :| id in nodes && nodes[id].status == Blocked;
      assert after[id].status == Blocked;
    }
    if HasApprovedNode(nodes) {
      var id :| id in nodes && nodes[id].status == Done && nodes[id].result == Judged(Approved);
      assert after[id].status == Done;
    }
  }

  lemma ReportingOne(w: nat, r: nat, nodes: map<TaskId, Node>, k: nat, m: nat, p: Poll)
    requires NodesAt(w, r, nodes, k, m) && p.PollReview?
    ensures NodesAt(w, r, Worked(nodes, Report, p), k, m)
    ensures CodeAgentExits(Worked(nodes, Report, p)) <==> CodeAgentExits(nodes)
  {
    ReportingKeepsPrefixes(w, r, nodes, k, m, p);
    ReportingKeepsExit(nodes, p);
  }

  function WritesAfter(s: System, p: Poll, k: nat): nat {
    if IsMove(s, p) && s.record.nextAction.value.taskId.Write? then k + 1 else k
  }

  function ReviewsAfter(s: System, p: Poll, m: nat): nat {
    if IsMove(s, p) && s.record.nextAction.value.taskId.Review? then m + 1 else m
  }

  lemma WriteMoveKeepsInvariant(w: nat, r: nat, s: System, k: nat, m: nat, p: Poll)
    requires At(w, r, s, k, m) && IsMove(s, p) && s.record.nextAction.value.taskId.Write?
    ensures At(w, r, Step(s, p), k + 1, m)
  {
    var after := Worked(s.record.nodes, Write(k + 1), p);
    WritingOne(w, r, s.record.nodes, k, m);
    AfterWriteIsRouted(w, r, after, k, m);
    PollWorksOnTheNextAction(w, r, s, k, m, p);
    assert Step(s, p).record.nextAction == Some(AfterWrite(after, k + 1));
  }

  lemma ReviewMoveStep(w: nat, r: nat, s: System, k: nat, m: nat, p: Poll)
    requires At(w, r, s, k, m) && IsMove(s, p) && s.record.nextAction.value.taskId.Review?
    ensures !Finished(s) && !CodeAgentExits(s.record.nodes) && m + 1 == CeilDiv(k, StepSize(w, r)) <= r
    ensures var after, nodes := Step(s, p), Worked(s.record.nodes, Review(m + 1), p);
            && after.record.nodes == nodes
            && after.record.nextAction == Some(AfterReview(nodes, m + 1, p.verdict))
            && after.record.locks == map[] && after.codeLive == s.codeLive && after.reviewLive
  {
    MoveWorks(w, r, s, k, m, p);
  }

  lemma ReviewMoveKeepsInvariant(w: nat, r: nat, s: System, k: nat, m: nat, p: Poll)
    requires At(w, r, s, k, m) && IsMove(s, p) && s.record.nextAction.value.taskId.Review?
    ensures At(w, r, Step(s, p), k, m + 1)
  {
    ReviewMoveStep(w, r, s, k, m, p);
    JudgingOne(w, r, s.record.nodes, k, m, p.verdict);
    AfterReviewIsRouted(w, r, Worked(s.record.nodes, Review(m + 1), p), k, m);
  }

  lemma ReportMoveKeepsInvariant(w: nat, r: nat, s: System, k: nat, m: nat, p: Poll)
    requires At(w, r, s, k, m) && IsMove(s, p) && s.record.nextAction.value.taskId.Report?
    ensures At(w, r, Step(s, p), k, m)
  {
    ReportingOne(w, r, s.record.nodes, k, m, p);
    MoveWorks(w, r, s, k, m, p);
    assert Step(s, p) == System(ReportWorked(s.record), s.codeLive, false);
    assert ReportWorked(s.record).locks == map[Report := ReviewAgent];
  }

  lemma IdlePollKeepsInvariant(w: nat, r: nat, s: System, k: nat, m: nat, p: Poll)
    requires At(w, r, s, k, m) && !IsMove(s, p)
    ensures At(w, r, Step(s, p), k, m)
  {
    PollWorksOnTheNextAction(w, r, s, k, m, p);
  }

  /** One poll keeps the invariant, and says which counter it moves. */
  lemma PollKeepsInvariant(w: nat, r: nat, s: System, k: nat, m: nat, p: Poll)
    requires At(w, r, s, k, m)
    ensures At(w, r, Step(s, p), WritesAfter(s, p, k), ReviewsAfter(s, p, m))
  {
    if !IsMove(s, p) {
      IdlePollKeepsInvariant(w, r, s, k, m, p);
    } else {
      match s.record.nextAction.value.taskId
      case Write(_) => WriteMoveKeepsInvariant(w, r, s, k, m, p);
      case Review(_) => ReviewMoveKeepsInvariant(w, r, s, k, m, p);
      case Report => ReportMoveKeepsInvariant(w, r, s, k, m, p);
    }
  }

  // ---- The hand-overs, without the agents' own arithmetic ----

  lemma CeilDivIs(k: nat, q: nat, j: nat)
    requires 1 <= q && 1 <= k && 1 <= j
    ensures CeilDiv(k, q) == j <==> (j - 1) * q < k <= j * q
  {
    QuotientBounds(k + q - 1, q);
    if (j - 1) * q < k <= j * q {
      QuotientIs(k + q - 1, q, j);
    }
  }

  /** After write k the code agent names review j exactly when write k is among the q writes that review j stands for and
      that review is pending; otherwise it names the next write, and after the last one the report. */
  lemma HandOverAfterWrite(w: nat, r: nat, nodes: map<TaskId, Node>, k: nat, m: nat, q: nat, j: nat)
    requires WritesPerReview(w, r, q) && NodesAt(w, r, nodes, k, m) && 1 <= k && 1 <= j
    requires (j - 1) * q < k <= j * q
    ensures AfterWrite(nodes, k) ==
              if m < j <= r then NextAction(Review(j), ReviewAgent, j)
              else if k < w then NextAction(Write(k + 1), CodeAgent, k + 1)
              else NextAction(Report, ReviewAgent, 0)
  {
    StepIsWritesPerReview(w, r, q);
    RecomputedStepIsBuilderStep(w, r, nodes);
    CeilDivIs(k, q, j);
  }

  /** After review m the review agent names the next write exactly when it asked for changes and that write directly
      follows both the reviewed number and the done writes; in all other cases the report. */
  lemma HandOverAfterReview(w: nat, r: nat, nodes: map<TaskId, Node>, k: nat, m: nat, verdict: Verdict)
    requires NodesAt(w, r, nodes, k, m) && m <= k
    ensures AfterReview(nodes, m, verdict) ==
              if verdict == ChangesRequested && k == m < w then NextAction(Write(k + 1), CodeAgent, k + 1)
              else NextAction(Report, ReviewAgent, 0)
  {
  }

  // ---- What a poll leaves behind ----

  /** The code agent stops polling exactly when it finds a blocked task or an approved review, and then only shows itself
      idle; a poll of an agent that stopped changes nothing. */
  lemma CodeAgentStopsIff(s: System)
    requires s.codeLive
    ensures var stops := exists id | id in s.record.nodes ::
                           var node := s.record.nodes[id];
                           node.status == Blocked || (node.status == Done && node.result == Judged(Approved));
            var after := Step(s, PollCode);
            && (after.codeLive <==> !stops) && after.reviewLive == s.reviewLive
            && (stops ==> after.record.(agents := s.record.agents) == s.record)
            && (stops && CodeAgent in s.record.agents ==> after.record.agents == s.record.agents[CodeAgent := Idle])
    ensures Step(s.(codeLive := false), PollCode) == s.(codeLive := false)
  {
    var stops := exists id | id in s.record.nodes ::
                   var node := s.record.nodes[id];
                   node.status == Blocked || (node.status == Done && node.result == Judged(Approved));
    if stops {
      var id :| id in s.record.nodes &&
        var node := s.record.nodes[id];
        node.status == Blocked || (node.status == Done && node.result == Judged(Approved));
      assert CodeAgentExits(s.record.nodes);
    }
  }

  /** The review agent stops exactly at a finished report. */
  lemma ReviewAgentStopsIff(w: nat, r: nat, s: System, k: nat, m: nat, verdict: Verdict)
    requires At(w, r, s, k, m) && s.reviewLive
    ensures Step(s, PollReview(verdict)).reviewLive <==> Step(s, PollReview(verdict)).record.nodes[Report].status != Done
  {
    PollKeepsInvariant(w, r, s, k, m, PollReview(verdict));
  }

  /** Besides the nodes and the next action, a move leaves the agent's report and its status: idle and unlocked after a
      write or a review, working and locked after the final report. */
  lemma MoveLeaves(w: nat, r: nat, s: System, k: nat, m: nat, p: Poll)
    requires At(w, r, s, k, m) && IsMove(s, p)
    requires s.record.nextAction.value.agent in s.record.agents
    ensures var action, before, after := s.record.nextAction.value, s.record, Step(s, p).record;
            if action.taskId == Report then
              && after.agents == before.agents[ReviewAgent := Working(Report)]
              && after.reports == before.reports && after.locks == before.locks[Report := ReviewAgent]
              && after.nextAction == before.nextAction
            else
              && after.agents == before.agents[action.agent := Idle]
              && after.reports == before.reports[action.agent := action.taskId] && after.locks == before.locks
  {
    match s.record.nextAction.value.taskId
    case Write(_) => assert Step(s, p).record == CodeWorked(s.record, s.record.nextAction.value);
    case Review(_) => assert Step(s, p).record == ReviewWorked(s.record, s.record.nextAction.value, p.verdict);
    case Report => assert Step(s, p).record == ReportWorked(s.record);
  }
}
