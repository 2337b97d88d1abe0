/** What every run of a write-review loop guarantees. */
module LoopResults {
  import opened Common
  import opened LoopGraph
  import opened Blackboard
  import opened LoopAgents
  import opened LoopRuns

  lemma {:induction false} RunKeepsInvariant(w: nat, r: nat, s: System, k: nat, m: nat, polls: seq<Poll>) returns (k': nat, m': nat)
    requires At(w, r, s, k, m)
    ensures At(w, r, Run(s, polls), k', m')
    decreases |polls|
  {
    if polls == [] {
      k', m' := k, m;
    } else {
      var p := polls[0];
      PollKeepsInvariant(w, r, s, k, m, p);
      k', m' := RunKeepsInvariant(w, r, Step(s, p), WritesAfter(s, p, k), ReviewsAfter(s, p, m), polls[1..]);
    }
  }

  // ---- Safety ----

  /** The done writes are the first k, the finished reviews the first m, and until the report is done the next action
      names a pending task of its agent's kind. */
  ghost predicate WorkIsPrefix(w: nat, r: nat, s: System, k: nat, m: nat) {
    && s.record.nodes.Keys == Ids(w, r)
    && k <= w && WritesDone(w, s.record.nodes, k)
    && m <= r && ReviewsFinished(r, s.record.nodes, m)
    && s.record.nextAction.Some?
    && var action := s.record.nextAction.value;
       && (!Finished(s) ==> IsPending(s.record.nodes, action.taskId))
       && (action.agent == CodeAgent <==> action.taskId.Write?)
       && (action.taskId != Report ==> action.iteration == action.taskId.index)
  }

  /** In every reachable state the work done is a prefix of the writes and a prefix of the reviews. */
  lemma {:induction false} WorkIsAlwaysAPrefix(w: nat, r: nat, polls: seq<Poll>) returns (k: nat, m: nat)
    requires 1 <= w
    ensures WorkIsPrefix(w, r, Run(Start(w, r), polls), k, m)
  {
    StartIsRouted(w, r);
    k, m := RunKeepsInvariant(w, r, Start(w, r), 0, 0, polls);
  }

  /** The agent the next action names still polls, is granted the lock, and takes exactly the task of the next action
      out of pending; a poll of the other agent changes no task. */
  ghost predicate OnlyTheNamedAgentCanWork(s: System, verdict: Verdict) {
    && s.record.nextAction.Some?
    && var action := s.record.nextAction.value;
       var byCode := action.agent == CodeAgent;
       var move := if byCode then PollCode else PollReview(verdict);
       var other := if byCode then PollReview(verdict) else PollCode;
       && (if byCode then s.codeLive else s.reviewLive)
       && CanClaim(s.record, action.agent)
       && action.taskId in PendingNodes(s.record.nodes)
       && PendingNodes(Step(s, move).record.nodes) == PendingNodes(s.record.nodes) - {action.taskId}
       && Step(s, other).record.nodes == s.record.nodes
  }

  lemma WorkedIsNoLongerPending(nodes: map<TaskId, Node>, task: TaskId, p: Poll)
    requires task in nodes
    ensures PendingNodes(Worked(nodes, task, p)) == PendingNodes(nodes) - {task}
  {
  }

  lemma EnabledAt(w: nat, r: nat, s: System, k: nat, m: nat, verdict: Verdict)
    requires At(w, r, s, k, m) && !Finished(s)
    ensures OnlyTheNamedAgentCanWork(s, verdict)
  {
    var action := s.record.nextAction.value;
    var move := if action.agent == CodeAgent then PollCode else PollReview(verdict);
    var other := if action.agent == CodeAgent then PollReview(verdict) else PollCode;
    assert IsMove(s, move) && !IsMove(s, other);
    assert Step(s, other).record.nodes == s.record.nodes by {
      PollWorksOnTheNextAction(w, r, s, k, m, other);
    }
    assert IsPending(s.record.nodes, action.taskId) && Step(s, move).record.nodes == Worked(s.record.nodes, action.taskId, move) by {
      PollWorksOnTheNextAction(w, r, s, k, m, move);
    }
    WorkedIsNoLongerPending(s.record.nodes, action.taskId, move);
  }

  /** Until the report is done, exactly one of the two agents can work. */
  lemma {:induction false} ExactlyOneAgentIsEnabled(w: nat, r: nat, polls: seq<Poll>, verdict: Verdict)
    requires 1 <= w
    requires !Finished(Run(Start(w, r), polls))
    ensures OnlyTheNamedAgentCanWork(Run(Start(w, r), polls), verdict)
  {
    StartIsRouted(w, r);
    var k, m := RunKeepsInvariant(w, r, Start(w, r), 0, 0, polls);
    EnabledAt(w, r, Run(Start(w, r), polls), k, m, verdict);
  }

  /** No write runs after a review answered "approved" or "blocked". */
  lemma {:induction false} NoWriteAfterAStop(w: nat, r: nat, before: seq<Poll>, after: seq<Poll>, i: nat)
    requires 1 <= i <= w
    requires CodeAgentExits(Run(Start(w, r), before).record.nodes)
    ensures var s := Run(Start(w, r), before);
            Write(i) in s.record.nodes && Write(i) in Run(s, after).record.nodes &&
            Run(s, after).record.nodes[Write(i)] == s.record.nodes[Write(i)]
  {
    StartIsRouted(w, r);
    var k, m := RunKeepsInvariant(w, r, Start(w, r), 0, 0, before);
    StoppedRunKeepsWrites(w, r, Run(Start(w, r), before), k, m, after, i);
  }

  lemma {:induction false} StoppedRunKeepsWrites(w: nat, r: nat, s: System, k: nat, m: nat, polls: seq<Poll>, i: nat)
    requires At(w, r, s, k, m) && CodeAgentExits(s.record.nodes) && 1 <= i <= w
    ensures Write(i) in s.record.nodes && Write(i) in Run(s, polls).record.nodes
    ensures Run(s, polls).record.nodes[Write(i)] == s.record.nodes[Write(i)]
    decreases |polls|
  {
    if polls != [] {
      var p := polls[0];
      PollWorksOnTheNextAction(w, r, s, k, m, p);
      PollKeepsInvariant(w, r, s, k, m, p);
      if IsMove(s, p) {
        ReportingOne(w, r, s.record.nodes, k, m, p);
      }
      StoppedRunKeepsWrites(w, r, Step(s, p), WritesAfter(s, p, k), ReviewsAfter(s, p, m), polls[1..], i);
    }
  }

  lemma StatusKeepsAgents(r: Record, agent: Agent, status: AgentStatus)
    ensures WithStatus(r, agent, status).agents.Keys == r.agents.Keys
  {
    if agent in r.agents {
      assert r.agents[agent := status].Keys == r.agents.Keys + {agent};
    }
  }

  lemma CodeTurnKeepsAgents(r: Record)
    ensures CodeTurn(r).record.agents.Keys == r.agents.Keys
  {
    StatusKeepsAgents(r, CodeAgent, Idle);
    if r.nextAction.Some? {
      var action := r.nextAction.value;
      var written := Marked(r, action.taskId, Done, Files);
      var handedOver := written.(nextAction := Some(AfterWrite(written.nodes, action.iteration)));
      StatusKeepsAgents(handedOver.(reports := handedOver.reports[CodeAgent := action.taskId]), CodeAgent, Idle);
    }
  }

  lemma ReviewTurnKeepsAgents(r: Record, verdict: Verdict)
    ensures ReviewTurn(r, verdict).record.agents.Keys == r.agents.Keys
  {
    StatusKeepsAgents(r.(locks := r.locks[Report := ReviewAgent]), ReviewAgent, Working(Report));
    if r.nextAction.Some? {
      var action := r.nextAction.value;
      var judged := Marked(r, action.taskId, if verdict == Rejected then Blocked else Done, Judged(verdict));
      StatusKeepsAgents(judged.(reports := judged.reports[ReviewAgent := action.taskId]), ReviewAgent, Idle);
    }
  }

  lemma {:induction false} AgentsStay(s: System, polls: seq<Poll>)
    ensures Run(s, polls).record.agents.Keys == s.record.agents.Keys
    decreases |polls|
  {
    if polls != [] {
      CodeTurnKeepsAgents(s.record);
      if polls[0].PollReview? { ReviewTurnKeepsAgents(s.record, polls[0].verdict); }
      AgentsStay(Step(s, polls[0]), polls[1..]);
    }
  }

  /** Whatever a working poll of a run worked on, its agent is registered and shows itself idle and unlocked after it, or
      at the final report working and locked. */
  lemma EveryMoveLeaves(w: nat, r: nat, polls: seq<Poll>, p: Poll)
    requires 1 <= w && IsMove(Run(Start(w, r), polls), p)
    ensures var s := Run(Start(w, r), polls);
            var action, after := s.record.nextAction.value, Step(s, p).record;
            && action.agent in after.agents
            && after.agents[action.agent] == (if action.taskId == Report then Working(Report) else Idle)
            && after.locks == (if action.taskId == Report then map[Report := ReviewAgent] else map[])
            && (action.taskId != Report ==> action.agent in after.reports && after.reports[action.agent] == action.taskId)
  {
    var s := Run(Start(w, r), polls);
    StartIsRouted(w, r);
    var k, m := RunKeepsInvariant(w, r, Start(w, r), 0, 0, polls);
    AgentsStay(Start(w, r), polls);
    assert s.record.nextAction.value.agent in {CodeAgent, ReviewAgent};
    MoveLeaves(w, r, s, k, m, p);
  }

  // ---- Termination ----

  /** The polls of a run that worked on a task. */
  function Moves(s: System, polls: seq<Poll>): nat
    decreases |polls|
  {
    if polls == [] then 0
    else (if IsMove(s, polls[0]) then 1 else 0) + Moves(Step(s, polls[0]), polls[1..])
  }

  lemma IdCount(w: nat, r: nat)
    ensures |Ids(w, r)| == w + r + 1
  {
    WriteCount(w);
    ReviewCount(r);
    assert |WriteIds(w) + ReviewIds(r)| == w + r;
  }

  lemma MoveTakesOnePending(w: nat, r: nat, s: System, k: nat, m: nat, p: Poll)
    requires At(w, r, s, k, m)
    ensures var before, after := PendingNodes(s.record.nodes), PendingNodes(Step(s, p).record.nodes);
            |after| + (if IsMove(s, p) then 1 else 0) == |before|
  {
    PollWorksOnTheNextAction(w, r, s, k, m, p);
    if IsMove(s, p) {
      WorkedIsNoLongerPending(s.record.nodes, s.record.nextAction.value.taskId, p);
    }
  }

  lemma {:induction false} MovesTakePending(w: nat, r: nat, s: System, k: nat, m: nat, polls: seq<Poll>)
    requires At(w, r, s, k, m)
    ensures Moves(s, polls) + |PendingNodes(Run(s, polls).record.nodes)| == |PendingNodes(s.record.nodes)|
    decreases |polls|
  {
    if polls != [] {
      var p := polls[0];
      PollKeepsInvariant(w, r, s, k, m, p);
      MoveTakesOnePending(w, r, s, k, m, p);
      MovesTakePending(w, r, Step(s, p), WritesAfter(s, p, k), ReviewsAfter(s, p, m), polls[1..]);
    }
  }

  /** No task is worked on twice: a run makes one move per task that left "pending", so at most w + r + 1 moves. */
  lemma {:induction false} WorkIsBounded(w: nat, r: nat, polls: seq<Poll>)
    requires 1 <= w
    ensures Moves(Start(w, r), polls) + |PendingNodes(Run(Start(w, r), polls).record.nodes)| == w + r + 1
  {
    StartIsRouted(w, r);
    MovesTakePending(w, r, Start(w, r), 0, 0, polls);
    assert PendingNodes(Start(w, r).record.nodes) == Ids(w, r);
    IdCount(w, r);
  }

  /** A stretch of a schedule in which each agent polls at least once. */
  predicate BothPoll(round: seq<Poll>) {
    PollCode in round && exists i | 0 <= i < |round| :: round[i].PollReview?
  }

  function Flatten(rounds: seq<seq<Poll>>): seq<Poll> {
    if rounds == [] then [] else rounds[0] + Flatten(rounds[1..])
  }

  lemma {:induction false} RunAppend(s: System, a: seq<Poll>, b: seq<Poll>)
    ensures Run(s, a + b) == Run(Run(s, a), b)
    decreases |a|
  {
    if a == [] {
      assert a + b == b;
    } else {
      assert (a + b)[1..] == a[1..] + b;
      RunAppend(Step(s, a[0]), a[1..], b);
    }
  }

  /** A poll by the enabled agent is a move, however long the other agent idles before it. */
  lemma {:induction false} EnabledAgentMoves(w: nat, r: nat, s: System, k: nat, m: nat, polls: seq<Poll>, i: nat)
    requires At(w, r, s, k, m) && !Finished(s) && i < |polls|
    requires s.record.nextAction.value.agent == if polls[i].PollCode? then CodeAgent else ReviewAgent
    ensures 1 <= Moves(s, polls)
    decreases |polls|
  {
    if !IsMove(s, polls[0]) {
      PollWorksOnTheNextAction(w, r, s, k, m, polls[0]);
      PollKeepsInvariant(w, r, s, k, m, polls[0]);
      assert Step(s, polls[0]).record.nextAction == s.record.nextAction;
      EnabledAgentMoves(w, r, Step(s, polls[0]), k, m, polls[1..], i - 1);
    }
  }

  lemma {:induction false} FinishedStaysFinished(w: nat, r: nat, s: System, k: nat, m: nat, polls: seq<Poll>)
    requires At(w, r, s, k, m) && Finished(s)
    ensures Finished(Run(s, polls)) && Run(s, polls).record.nodes == s.record.nodes
    decreases |polls|
  {
    if polls != [] {
      PollWorksOnTheNextAction(w, r, s, k, m, polls[0]);
      PollKeepsInvariant(w, r, s, k, m, polls[0]);
      FinishedStaysFinished(w, r, Step(s, polls[0]), k, m, polls[1..]);
    }
  }

  lemma {:induction false} RoundsFinish(w: nat, r: nat, s: System, k: nat, m: nat, rounds: seq<seq<Poll>>)
    requires At(w, r, s, k, m)
    requires forall i | 0 <= i < |rounds| :: BothPoll(rounds[i])
    requires |PendingNodes(s.record.nodes)| <= |rounds|
    ensures Finished(Run(s, Flatten(rounds)))
    decreases |rounds|
  {
    if Finished(s) {
      FinishedStaysFinished(w, r, s, k, m, Flatten(rounds));
    } else {
      assert Report in PendingNodes(s.record.nodes);
      var round := rounds[0];
      var i :| 0 <= i < |round| && s.record.nextAction.value.agent == if round[i].PollCode? then CodeAgent else ReviewAgent;
      EnabledAgentMoves(w, r, s, k, m, round, i);
      MovesTakePending(w, r, s, k, m, round);
      var k', m' := RunKeepsInvariant(w, r, s, k, m, round);
      RoundsFinish(w, r, Run(s, round), k', m', rounds[1..]);
      RunAppend(s, round, Flatten(rounds[1..]));
    }
  }

  /** Every schedule of w + r + 1 rounds in which both agents poll finishes the loop, whatever the verdicts. */
  lemma {:induction false} EveryFairRunFinishes(w: nat, r: nat, rounds: seq<seq<Poll>>)
    requires 1 <= w
    requires w + r + 1 <= |rounds|
    requires forall i | 0 <= i < |rounds| :: BothPoll(rounds[i])
    ensures Finished(Run(Start(w, r), Flatten(rounds)))
  {
    StartIsRouted(w, r);
    assert PendingNodes(Start(w, r).record.nodes) == Ids(w, r);
    IdCount(w, r);
    RoundsFinish(w, r, Start(w, r), 0, 0, rounds);
  }

  // ---- What a loop achieves when every review requests changes ----

  predicate AlwaysChangesRequested(polls: seq<Poll>) {
    forall i | 0 <= i < |polls| :: polls[i].PollReview? ==> polls[i].verdict == ChangesRequested
  }

  /** The loop uses all its writes exactly under this condition on the counts. */
  predicate UsesAllWrites(w: nat, r: nat) {
    w < 2 * r || r <= 1
  }

  function ExpectedWrites(w: nat, r: nat): nat {
    if UsesAllWrites(w, r) then w else StepSize(w, r) + 1
  }

  function ExpectedReviews(w: nat, r: nat): nat {
    if UsesAllWrites(w, r) then Min(w, r) else 2
  }

  lemma StepIsOne(w: nat, r: nat)
    requires 1 <= w < 2 * r
    ensures StepSize(w, r) == 1
    ensures forall k: nat :: CeilDiv(k, 1) == k
  {
    QuotientBounds(w, r);
    if 2 <= w / r { MulMonotone(2, w / r, r); }
    forall k: nat
      ensures CeilDiv(k, 1) == k
    {
      QuotientIs(k, 1, k);
    }
  }

  /** With two or more writes per review and two or more reviews, the step leaves writes behind. */
  lemma StepIsShort(w: nat, r: nat)
    requires 2 <= r && 2 * r <= w
    ensures 2 <= StepSize(w, r) && StepSize(w, r) + 1 < w
  {
    QuotientBounds(w, r);
    if w / r < 2 { MulMonotone(w / r + 1, 2, r); }
    MulMonotone(2, r, w / r);
  }

  lemma CeilDivOfFirstSteps(k: nat, step: nat)
    requires 1 <= step && 1 <= k <= step + 1
    ensures CeilDiv(k, step) == if k <= step then 1 else 2
  {
    if k <= step {
      QuotientIs(k + step - 1, step, 1);
    } else if step == 1 {
      QuotientIs(k, 1, 2);
    } else {
      QuotientIs(k + step - 1, step, 2);
    }
  }

  /** How far an all-changes-requested run can be, given where the next action points. */
  predicate RouteOnCourse(w: nat, r: nat, task: TaskId, k: nat, m: nat) {
    && k <= ExpectedWrites(w, r)
    && match task
       case Write(_) => k < ExpectedWrites(w, r)
       case Review(_) => k == m * StepSize(w, r) + 1
       case Report => k == ExpectedWrites(w, r) && m == ExpectedReviews(w, r)
  }

  ghost predicate OnCourse(w: nat, r: nat, s: System, k: nat, m: nat) {
    && At(w, r, s, k, m)
    && !CodeAgentExits(s.record.nodes)
    && RouteOnCourse(w, r, s.record.nextAction.value.taskId, k, m)
  }

  lemma AfterWriteCases(w: nat, r: nat, nodes: map<TaskId, Node>, k: nat, m: nat)
    requires NodesAt(w, r, nodes, k, m) && 1 <= k
    ensures var target := CeilDiv(k, StepSize(w, r));
            AfterWrite(nodes, k) ==
              if m < target <= r then NextAction(Review(target), ReviewAgent, target)
              else if k + 1 <= w then NextAction(Write(k + 1), CodeAgent, k + 1)
              else TO_REPORT
  {
    RecomputedStepIsBuilderStep(w, r, nodes);
    CeilDivGrows(k - 1, StepSize(w, r));
  }

  lemma WriteMoveRoutes(w: nat, r: nat, s: System, k: nat, m: nat, p: Poll)
    requires At(w, r, s, k, m) && IsMove(s, p) && s.record.nextAction.value.taskId.Write?
    ensures !CodeAgentExits(Step(s, p).record.nodes)
    ensures Step(s, p).record.nextAction == Some(AfterWrite(Step(s, p).record.nodes, k + 1))
    ensures m == Min(r, CeilDiv(k, StepSize(w, r)))
  {
    PollWorksOnTheNextAction(w, r, s, k, m, p);
    WritingOne(w, r, s.record.nodes, k, m);
  }

  lemma WriteStaysOnCourse(w: nat, r: nat, s: System, k: nat, m: nat, p: Poll)
    requires 1 <= w && OnCourse(w, r, s, k, m) && IsMove(s, p) && s.record.nextAction.value.taskId.Write?
    ensures OnCourse(w, r, Step(s, p), k + 1, m)
  {
    WriteMoveRoutes(w, r, s, k, m, p);
    WriteMoveKeepsInvariant(w, r, s, k, m, p);
    RoutedOnCourse(w, r, Step(s, p).record.nodes, k, m);
  }

  lemma RoutedOnCourse(w: nat, r: nat, nodes: map<TaskId, Node>, k: nat, m: nat)
    requires 1 <= w && NodesAt(w, r, nodes, k + 1, m)
    requires k < ExpectedWrites(w, r) && m == Min(r, CeilDiv(k, StepSize(w, r)))
    ensures RouteOnCourse(w, r, AfterWrite(nodes, k + 1).taskId, k + 1, m)
  {
    AfterWriteCases(w, r, nodes, k + 1, m);
    WriteRouteOnCourse(w, r, k, m);
  }

  /** The arithmetic of the route after write k + 1. */
  lemma WriteRouteOnCourse(w: nat, r: nat, k: nat, m: nat)
    requires 1 <= w && k < ExpectedWrites(w, r) && m == Min(r, CeilDiv(k, StepSize(w, r)))
    ensures var step := StepSize(w, r);
            var target := CeilDiv(k + 1, step);
            if m < target <= r then k + 1 == m * step + 1
            else if k + 2 <= w then k + 1 < ExpectedWrites(w, r)
            else k + 1 == ExpectedWrites(w, r) && m == ExpectedReviews(w, r)
  {
    var step := StepSize(w, r);
    if w < 2 * r {
      StepIsOne(w, r);
    } else {
      if 2 <= r { StepIsShort(w, r); }
      CeilDivOfFirstSteps(k + 1, step);
      if 1 <= k { CeilDivOfFirstSteps(k, step); } else { CeilDivGrows(0, step); }
    }
  }

  lemma ReviewMoveRoutes(w: nat, r: nat, s: System, k: nat, m: nat, p: Poll)
    requires At(w, r, s, k, m) && !CodeAgentExits(s.record.nodes)
    requires IsMove(s, p) && s.record.nextAction.value.taskId.Review? && p == PollReview(ChangesRequested)
    ensures !CodeAgentExits(Step(s, p).record.nodes)
    ensures Step(s, p).record.nextAction == Some(AfterReview(Step(s, p).record.nodes, m + 1, ChangesRequested))
    ensures m < r && m + 1 == CeilDiv(k, StepSize(w, r))
  {
    PollWorksOnTheNextAction(w, r, s, k, m, p);
    JudgingOne(w, r, s.record.nodes, k, m, ChangesRequested);
  }

  lemma ReviewStaysOnCourse(w: nat, r: nat, s: System, k: nat, m: nat, p: Poll)
    requires 1 <= w && OnCourse(w, r, s, k, m) && IsMove(s, p) && s.record.nextAction.value.taskId.Review?
    requires p == PollReview(ChangesRequested)
    ensures OnCourse(w, r, Step(s, p), k, m + 1)
  {
    ReviewMoveRoutes(w, r, s, k, m, p);
    ReviewMoveKeepsInvariant(w, r, s, k, m, p);
    ReviewedOnCourse(w, r, Step(s, p).record.nodes, k, m);
  }

  lemma ReviewedOnCourse(w: nat, r: nat, nodes: map<TaskId, Node>, k: nat, m: nat)
    requires 1 <= w && NodesAt(w, r, nodes, k, m + 1) && k <= ExpectedWrites(w, r)
    requires k == m * StepSize(w, r) + 1 && m + 1 == CeilDiv(k, StepSize(w, r))
    ensures RouteOnCourse(w, r, AfterReview(nodes, m + 1, ChangesRequested).taskId, k, m + 1)
  {
    ReviewRouteOnCourse(w, r, k, m);
  }

  /** The arithmetic of the route after review m + 1, whose write is m * step + 1. */
  lemma ReviewRouteOnCourse(w: nat, r: nat, k: nat, m: nat)
    requires 1 <= w && m < r && k <= w && k <= ExpectedWrites(w, r)
    requires k == m * StepSize(w, r) + 1 && m + 1 == CeilDiv(k, StepSize(w, r))
    ensures if k < m + 2 <= w then k < ExpectedWrites(w, r)
            else k == ExpectedWrites(w, r) && m + 1 == ExpectedReviews(w, r)
  {
    var step := StepSize(w, r);
    if w < 2 * r {
      StepIsOne(w, r);
    } else {
      if 2 <= r { StepIsShort(w, r); }
      CeilDivOfFirstSteps(k, step);
    }
  }

  lemma {:induction false} RunStaysOnCourse(w: nat, r: nat, s: System, k: nat, m: nat, polls: seq<Poll>) returns (k': nat, m': nat)
    requires 1 <= w && OnCourse(w, r, s, k, m) && AlwaysChangesRequested(polls)
    ensures OnCourse(w, r, Run(s, polls), k', m')
    decreases |polls|
  {
    if polls == [] {
      k', m' := k, m;
    } else {
      var p := polls[0];
      k', m' := WritesAfter(s, p, k), ReviewsAfter(s, p, m);
      PollKeepsInvariant(w, r, s, k, m, p);
      PollWorksOnTheNextAction(w, r, s, k, m, p);
      if IsMove(s, p) {
        match s.record.nextAction.value.taskId
        case Write(_) => WriteStaysOnCourse(w, r, s, k, m, p);
        case Review(_) => ReviewStaysOnCourse(w, r, s, k, m, p);
        case Report => ReportingOne(w, r, s.record.nodes, k, m, p);
      }
      k', m' := RunStaysOnCourse(w, r, Step(s, p), k', m', polls[1..]);
    }
  }

  /** A finished run in which every review requested changes has done exactly the expected writes and reviews. */
  lemma {:induction false} AllChangesRequestedOutcome(w: nat, r: nat, polls: seq<Poll>)
    requires 1 <= w && AlwaysChangesRequested(polls)
    requires Finished(Run(Start(w, r), polls))
    ensures WritesDone(w, Run(Start(w, r), polls).record.nodes, ExpectedWrites(w, r))
    ensures ReviewsFinished(r, Run(Start(w, r), polls).record.nodes, ExpectedReviews(w, r))
  {
    StartIsRouted(w, r);
    assert 0 < ExpectedWrites(w, r);
    var _, _ := RunStaysOnCourse(w, r, Start(w, r), 0, 0, polls);
  }

  /** In numbers: all writes and as many reviews as there can be, or, with two or more reviews and at least two writes for each, one write more than a review stands for and two reviews. */
  lemma OutcomeInNumbers(w: nat, r: nat, q: nat, polls: seq<Poll>)
    requires 1 <= w && AlwaysChangesRequested(polls) && WritesPerReview(w, r, q)
    requires Finished(Run(Start(w, r), polls))
    ensures var nodes := Run(Start(w, r), polls).record.nodes;
            if w < 2 * r || r <= 1 then WritesDone(w, nodes, w) && ReviewsFinished(r, nodes, if w < r then w else r)
            else WritesDone(w, nodes, q + 1) && ReviewsFinished(r, nodes, 2)
  {
    StepIsWritesPerReview(w, r, q);
    AllChangesRequestedOutcome(w, r, polls);
  }

  /** Such a run has done every write if and only if there are fewer than two writes per review, or at most one review. */
  lemma {:induction false} AllWritesDoneIff(w: nat, r: nat, polls: seq<Poll>)
    requires 1 <= w && AlwaysChangesRequested(polls)
    requires Finished(Run(Start(w, r), polls))
    ensures WritesDone(w, Run(Start(w, r), polls).record.nodes, w) <==> w < 2 * r || r <= 1
  {
    AllChangesRequestedOutcome(w, r, polls);
    var nodes := Run(Start(w, r), polls).record.nodes;
    if !UsesAllWrites(w, r) {
      StepIsShort(w, r);
      assert nodes[Write(w)].status == Pending;
    }
  }

  /** One round of both agents, in which a review requests changes. */
  const ROUND := [PollCode, PollReview(ChangesRequested)]

  lemma RoundsRequestChanges(n: nat) returns (rounds: seq<seq<Poll>>)
    ensures |rounds| == n && forall i | 0 <= i < n :: BothPoll(rounds[i])
    ensures AlwaysChangesRequested(Flatten(rounds))
  {
    if n == 0 {
      rounds := [];
    } else {
      var rest := RoundsRequestChanges(n - 1);
      rounds := [ROUND] + rest;
      assert ROUND[1].PollReview? && rounds[1..] == rest;
      assert Flatten(rounds) == ROUND + Flatten(rest);
    }
  }

  /** A loop that leaves a write over: with four writes and two reviews it finishes after the third write. */
  lemma FourWritesTwoReviews() returns (polls: seq<Poll>)
    ensures AlwaysChangesRequested(polls) && Finished(Run(Start(4, 2), polls))
    ensures WritesDone(4, Run(Start(4, 2), polls).record.nodes, 3)
    ensures !WritesDone(4, Run(Start(4, 2), polls).record.nodes, 4)
  {
    var rounds := RoundsRequestChanges(7);
    polls := Flatten(rounds);
    EveryFairRunFinishes(4, 2, rounds);
    AllChangesRequestedOutcome(4, 2, polls);
    AllWritesDoneIff(4, 2, polls);
  }
}
