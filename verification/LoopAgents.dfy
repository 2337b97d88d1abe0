/**
  One poll turn of each loop agent (harness/loop-code-agent.ts,
  harness/loop-review-agent.ts) and the start of a loop
  (harness/loop-controller.ts).

  A turn, from loading the record to its last save, is one atomic step.
 */
module LoopAgents {
  import opened Common
  import opened LoopGraph
  import opened Blackboard

  // ---- Early exit ----

  predicate HasBlockedNode(nodes: map<TaskId, Node>) {
    exists id | id in nodes :: nodes[id].status == Blocked
  }

  predicate HasApprovedNode(nodes: map<TaskId, Node>) {
    exists id | id in nodes :: nodes[id].status == Done && nodes[id].result == Judged(Approved)
  }

  predicate CodeAgentExits(nodes: map<TaskId, Node>) {
    HasBlockedNode(nodes) || HasApprovedNode(nodes)
  }

  predicate ReviewAgentExits(nodes: map<TaskId, Node>) {
    Report in nodes && (nodes[Report].status == Done || nodes[Report].status == Blocked)
  }

  // ---- Routing ----

  predicate IsPending(nodes: map<TaskId, Node>, task: TaskId) {
    task in nodes && nodes[task].status == Pending
  }

  function WritesIn(nodes: map<TaskId, Node>): set<TaskId> {
    set id | id in nodes && id.Write?
  }

  function ReviewsIn(nodes: map<TaskId, Node>): set<TaskId> {
    set id | id in nodes && id.Review?
  }

  /** The code agent computes the step again, from the ids on the blackboard. */
  function RecomputedStep(nodes: map<TaskId, Node>): (step: nat)
    ensures 1 <= step
  {
    StepSize(|WritesIn(nodes)|, |ReviewsIn(nodes)|)
  }

  function CeilDiv(a: nat, b: nat): nat
    requires 1 <= b
  {
    (a + b - 1) / b
  }

  function NextReviewTask(nodes: map<TaskId, Node>, writeIteration: nat): Option<TaskId> {
    var task := Review(CeilDiv(writeIteration, RecomputedStep(nodes)));
    if IsPending(nodes, task) then Some(task) else None
  }

  /** Both agents route to the write after the given iteration. */
  function NextWriteTask(nodes: map<TaskId, Node>, iteration: nat): Option<TaskId> {
    if IsPending(nodes, Write(iteration + 1)) then Some(Write(iteration + 1)) else None
  }

  const TO_REPORT := NextAction(Report, ReviewAgent, 0)

  function AfterWrite(nodes: map<TaskId, Node>, iteration: nat): NextAction {
    match NextReviewTask(nodes, iteration)
    case Some(review) => NextAction(review, ReviewAgent, review.index)
    case None =>
      match NextWriteTask(nodes, iteration)
      case Some(write) => NextAction(write, CodeAgent, write.index)
      case None => TO_REPORT
  }

  function AfterReview(nodes: map<TaskId, Node>, iteration: nat, verdict: Verdict): NextAction {
    if verdict == Approved || verdict == Rejected then TO_REPORT
    else
      match NextWriteTask(nodes, iteration)
      case Some(write) => NextAction(write, CodeAgent, write.index)
      case None => TO_REPORT
  }

  // ---- Turns ----

  /** What a turn leaves behind, and whether the agent stops polling. */
  datatype TurnResult = TurnResult(record: Record, stops: bool)

  predicate CanClaim(r: Record, agent: Agent) {
    r.nextAction.Some? && r.nextAction.value.agent == agent && r.nextAction.value.taskId !in r.locks
  }

  /** The end of a turn that did a task: lock, report and status. */
  function Released(r: Record, agent: Agent, task: TaskId): Record {
    WithStatus(Unlocked(r, task, agent).(reports := r.reports[agent := task]), agent, Idle)
  }

  /** The code agent did the task of `action`. */
  function CodeWorked(r: Record, action: NextAction): Record {
    var written := Marked(r, action.taskId, Done, Files);
    var handedOver := written.(nextAction := Some(AfterWrite(written.nodes, action.iteration)));
    WithStatus(handedOver.(reports := handedOver.reports[CodeAgent := action.taskId]), CodeAgent, Idle)
  }

  function CodeTurn(r: Record): TurnResult {
    if CodeAgentExits(r.nodes) then TurnResult(WithStatus(r, CodeAgent, Idle), true)
    else if !CanClaim(r, CodeAgent) then TurnResult(r, false)
    else TurnResult(CodeWorked(r, r.nextAction.value), false)
  }

  /** The review agent gave its verdict on the task of `action`. */
  function ReviewWorked(r: Record, action: NextAction, verdict: Verdict): Record {
    var judged := Marked(r, action.taskId, if verdict == Rejected then Blocked else Done, Judged(verdict));
    var reported := WithStatus(judged.(reports := judged.reports[ReviewAgent := action.taskId]), ReviewAgent, Idle);
    reported.(nextAction := Some(AfterReview(reported.nodes, action.iteration, verdict)))
  }

  /** The review agent finished the report: it keeps the lock on it and stays "working". */
  function ReportWorked(r: Record): Record {
    var claimed := r.(locks := r.locks[Report := ReviewAgent]);
    var result := if Report in r.nodes then r.nodes[Report].result else NoResult;
    Marked(WithStatus(claimed, ReviewAgent, Working(Report)), Report, Done, result)
  }

  function ReviewTurn(r: Record, verdict: Verdict): TurnResult {
    if ReviewAgentExits(r.nodes) then TurnResult(r, true)
    else if !CanClaim(r, ReviewAgent) then TurnResult(r, false)
    else if r.nextAction.value.taskId == Report then TurnResult(ReportWorked(r), true)
    else TurnResult(ReviewWorked(r, r.nextAction.value, verdict), false)
  }

  /** One pass of the code agent's loop, step by step on the blackboard. */
  method PollCodeAgent(blackboard: SharedBlackboard) returns (stops: bool)
    modifies blackboard
    ensures old(blackboard.record).None? ==> blackboard.record == None && !stops
    ensures old(blackboard.record).Some? ==>
              var turn := CodeTurn(old(blackboard.record).value);
              blackboard.record == Some(turn.record) && stops == turn.stops
  {
    if blackboard.record.None? { return false; }
    var r := blackboard.record.value;
    if CodeAgentExits(r.nodes) {
      blackboard.UpdateAgentStatus(CodeAgent, Idle);
      return true;
    }
    if r.nextAction.None? || r.nextAction.value.agent != CodeAgent { return false; }
    var locked := blackboard.AcquireLock(r.nextAction.value.taskId, CodeAgent);
    if !locked { return false; }
    WorkOnCode(blackboard, r, r.nextAction.value);
    return false;
  }

  method FinishTask(blackboard: SharedBlackboard, agent: Agent, task: TaskId)
    requires blackboard.record.Some?
    modifies blackboard
    ensures blackboard.record == Some(Released(old(blackboard.record).value, agent, task))
  {
    var _ := blackboard.ReleaseLock(task, agent);
    blackboard.WriteReport(agent, task);
    blackboard.UpdateAgentStatus(agent, Idle);
  }

  /** Claiming a task and releasing it leaves the locks and the other agent alone. */
  lemma ClaimedAndReleased(before: Record, agent: Agent, task: TaskId)
    requires task !in before.locks
    ensures var claimed := WithStatus(before.(locks := before.locks[task := agent]), agent, Working(task));
            Unlocked(WithStatus(claimed, agent, Idle), task, agent) == WithStatus(before, agent, Idle)
  {
    assert before.locks[task := agent] - {task} == before.locks;
    if agent in before.agents {
      assert before.agents[agent := Working(task)][agent := Idle] == before.agents[agent := Idle];
    }
  }

  /** What the code agent does once it holds the lock; `before` is the record it claimed the task from. */
  method WorkOnCode(blackboard: SharedBlackboard, ghost before: Record, action: NextAction)
    requires action.taskId !in before.locks
    requires blackboard.record == Some(before.(locks := before.locks[action.taskId := CodeAgent]))
    modifies blackboard
    ensures blackboard.record == Some(CodeWorked(before, action))
  {
    StartTask(blackboard, CodeAgent, action.taskId, Done, Files);
    ClaimedAndReleased(before, CodeAgent, action.taskId);
    RouteAfterWrite(blackboard, action.iteration);
    FinishTask(blackboard, CodeAgent, action.taskId);
  }

  /** The agent shows that it works on the task, works, and marks the task. */
  method StartTask(blackboard: SharedBlackboard, agent: Agent, task: TaskId, status: Status, result: Outcome)
    requires blackboard.record.Some?
    modifies blackboard
    ensures blackboard.record ==
              Some(Marked(WithStatus(old(blackboard.record).value, agent, Working(task)), task, status, result))
  {
    blackboard.UpdateAgentStatus(agent, Working(task));
    blackboard.UpdateTask(task, status, result);
  }

  /** The hand-over of the code agent. */
  method RouteAfterWrite(blackboard: SharedBlackboard, iteration: nat)
    requires blackboard.record.Some?
    modifies blackboard
    ensures var r := old(blackboard.record).value;
            blackboard.record == Some(r.(nextAction := Some(AfterWrite(r.nodes, iteration))))
  {
    var nodes := blackboard.record.value.nodes;
    var review := NextReviewTask(nodes, iteration);
    if review.Some? {
      blackboard.SetNextAction(NextAction(review.value, ReviewAgent, review.value.index));
    } else {
      var write := NextWriteTask(nodes, iteration);
      if write.Some? {
        blackboard.SetNextAction(NextAction(write.value, CodeAgent, write.value.index));
      } else {
        blackboard.SetNextAction(TO_REPORT);
      }
    }
  }

  /** One pass of the review agent's loop; `verdict` is the answer of the review. */
  method PollReviewAgent(blackboard: SharedBlackboard, verdict: Verdict) returns (stops: bool)
    modifies blackboard
    ensures old(blackboard.record).None? ==> blackboard.record == None && !stops
    ensures old(blackboard.record).Some? ==>
              var turn := ReviewTurn(old(blackboard.record).value, verdict);
              blackboard.record == Some(turn.record) && stops == turn.stops
  {
    if blackboard.record.None? { return false; }
    var r := blackboard.record.value;
    if ReviewAgentExits(r.nodes) { return true; }
    if r.nextAction.None? || r.nextAction.value.agent != ReviewAgent { return false; }
    var action := r.nextAction.value;
    var locked := blackboard.AcquireLock(action.taskId, ReviewAgent);
    if !locked { return false; }
    if action.taskId == Report {
      blackboard.UpdateAgentStatus(ReviewAgent, Working(Report));
      var result := if Report in r.nodes then r.nodes[Report].result else NoResult;
      blackboard.UpdateTask(Report, Done, result);
      return true;
    }
    WorkOnReview(blackboard, r, action, verdict);
    return false;
  }

  /** What the review agent does once it holds the lock of a review. */
  method WorkOnReview(blackboard: SharedBlackboard, ghost before: Record, action: NextAction, verdict: Verdict)
    requires action.taskId !in before.locks
    requires blackboard.record == Some(before.(locks := before.locks[action.taskId := ReviewAgent]))
    modifies blackboard
    ensures blackboard.record == Some(ReviewWorked(before, action, verdict))
  {
    var status := if verdict == Rejected then Blocked else Done;
    StartTask(blackboard, ReviewAgent, action.taskId, status, Judged(verdict));
    ClaimedAndReleased(before, ReviewAgent, action.taskId);
    FinishTask(blackboard, ReviewAgent, action.taskId);
    RouteAfterReview(blackboard, action.iteration, verdict);
  }

  /** The hand-over of the review agent. */
  method RouteAfterReview(blackboard: SharedBlackboard, iteration: nat, verdict: Verdict)
    requires blackboard.record.Some?
    modifies blackboard
    ensures var r := old(blackboard.record).value;
            blackboard.record == Some(r.(nextAction := Some(AfterReview(r.nodes, iteration, verdict))))
  {
    if verdict == Approved || verdict == Rejected {
      blackboard.SetNextAction(TO_REPORT);
    } else {
      var write := NextWriteTask(blackboard.record.value.nodes, iteration);
      if write.Some? {
        blackboard.SetNextAction(NextAction(write.value, CodeAgent, write.value.index));
      } else {
        blackboard.SetNextAction(TO_REPORT);
      }
    }
  }

  // ---- Start of a loop ----

  /** The record once the controller set the first action and both agents registered. */
  function InitialRecord(w: nat, r: nat): Record {
    Record(LoopTaskGraph(w, r).nodes, Some(NextAction(Write(1), CodeAgent, 1)), map[],
           map[CodeAgent := Idle, ReviewAgent := Idle], map[])
  }

  datatype Started = Launched(blackboard: SharedBlackboard) | BadWriteCount | BadReviewCount

  /** `runLoop`: the controller accepts 1-20 writes and 0-20 reviews. */
  method StartLoop(w: int, r: int) returns (started: Started)
    ensures started.BadWriteCount? <==> !(1 <= w <= 20)
    ensures started.BadReviewCount? <==> 1 <= w <= 20 && !(0 <= r <= 20)
    ensures started.Launched? ==> fresh(started.blackboard) && started.blackboard.record == Some(InitialRecord(w, r))
    ensures started.Launched? ==>
              var record := started.blackboard.record.value;
              && record.nextAction == Some(NextAction(Write(1), CodeAgent, 1))
              && record.agents == map[CodeAgent := Idle, ReviewAgent := Idle]
              && record.locks == map[] && record.reports == map[]
  {
    if w < 1 || 20 < w { return BadWriteCount; }
    if r < 0 || 20 < r { return BadReviewCount; }
    var graph := BuildLoopTaskGraph(w, r);
    var blackboard := new SharedBlackboard();
    blackboard.Init(graph);
    blackboard.SetNextAction(NextAction(Write(1), CodeAgent, 1));
    blackboard.RegisterAgent(CodeAgent);
    blackboard.RegisterAgent(ReviewAgent);
    return Launched(blackboard);
  }
}
