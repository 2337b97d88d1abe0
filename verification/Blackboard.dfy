/**
  The shared blackboard of a loop (harness/blackboard.ts).

  One record is the file both agents load and save; `None` is a blackboard
  that nobody initialised, on which every operation is a no-op.
 */
module Blackboard {
  import opened Common
  import opened LoopGraph

  datatype Agent = CodeAgent | ReviewAgent

  /** A decoded "LOOP:" instruction. */
  datatype NextAction = NextAction(taskId: TaskId, agent: Agent, iteration: nat)

  datatype AgentStatus = Idle | Working(taskId: TaskId)

  datatype Record = Record(
    nodes: map<TaskId, Node>,
    nextAction: Option<NextAction>,
    locks: map<TaskId, Agent>,
    agents: map<Agent, AgentStatus>,
    reports: map<Agent, TaskId>)

  function WithStatus(r: Record, agent: Agent, status: AgentStatus): Record {
    if agent in r.agents then r.(agents := r.agents[agent := status]) else r
  }

  predicate HoldsLock(r: Record, task: TaskId, agent: Agent) {
    task in r.locks && r.locks[task] == agent
  }

  function Unlocked(r: Record, task: TaskId, agent: Agent): Record {
    if HoldsLock(r, task, agent) then r.(locks := r.locks - {task}) else r
  }

  function Marked(r: Record, task: TaskId, status: Status, result: Outcome): Record {
    if task in r.nodes
    then r.(nodes := r.nodes[task := r.nodes[task].(status := status, result := result)])
    else r
  }

  class SharedBlackboard {
    var record: Option<Record>

    constructor ()
      ensures record == None
    {
      record := None;
    }

    method Init(graph: Graph)
      modifies this
      ensures record == Some(Record(graph.nodes, None, map[], map[], map[]))
    {
      record := Some(Record(graph.nodes, None, map[], map[], map[]));
    }

    method RegisterAgent(agent: Agent)
      modifies this
      ensures old(record).None? ==> record == None
      ensures old(record).Some? ==>
                var r := old(record).value;
                record == Some(r.(agents := r.agents[agent := Idle]))
    {
      if record.None? { return; }
      record := Some(record.value.(agents := record.value.agents[agent := Idle]));
    }

    method UpdateAgentStatus(agent: Agent, status: AgentStatus)
      modifies this
      ensures old(record).None? ==> record == None
      ensures old(record).Some? ==> record == Some(WithStatus(old(record).value, agent, status))
      ensures old(record).Some? && agent in old(record).value.agents ==>
                record == Some(old(record).value.(agents := old(record).value.agents[agent := status]))
      ensures old(record).Some? && agent !in old(record).value.agents ==> record == old(record)
    {
      if record.None? || agent !in record.value.agents { return; }
      record := Some(record.value.(agents := record.value.agents[agent := status]));
    }

    method WriteReport(agent: Agent, task: TaskId)
      modifies this
      ensures old(record).None? ==> record == None
      ensures old(record).Some? ==>
                var r := old(record).value;
                record == Some(r.(reports := r.reports[agent := task]))
    {
      if record.None? { return; }
      record := Some(record.value.(reports := record.value.reports[agent := task]));
    }

    method SetNextAction(action: NextAction)
      modifies this
      ensures old(record).None? ==> record == None
      ensures old(record).Some? ==> record == Some(old(record).value.(nextAction := Some(action)))
    {
      if record.None? { return; }
      record := Some(record.value.(nextAction := Some(action)));
    }

    /** A lock is granted exactly when nobody, the caller included, holds it. */
    method AcquireLock(task: TaskId, agent: Agent) returns (granted: bool)
      modifies this
      ensures granted <==> old(record).Some? && task !in old(record).value.locks
      ensures !granted ==> record == old(record)
      ensures granted ==>
                var r := old(record).value;
                record == Some(r.(locks := r.locks[task := agent]))
    {
      if record.None? { return false; }
      if task in record.value.locks { return false; }
      record := Some(record.value.(locks := record.value.locks[task := agent]));
      return true;
    }

    /** Only the holder releases a lock. */
    method ReleaseLock(task: TaskId, agent: Agent) returns (released: bool)
      modifies this
      ensures released <==> old(record).Some? && HoldsLock(old(record).value, task, agent)
      ensures !released ==> record == old(record)
      ensures released ==>
                var r := old(record).value;
                record == Some(r.(locks := r.locks - {task}))
    {
      if record.None? { return false; }
      if task !in record.value.locks || record.value.locks[task] != agent { return false; }
      record := Some(record.value.(locks := record.value.locks - {task}));
      return true;
    }

    /** `updateTaskStatus` of both agents: a missing node is skipped. */
    method UpdateTask(task: TaskId, status: Status, result: Outcome)
      modifies this
      ensures old(record).None? ==> record == None
      ensures old(record).Some? ==> record == Some(Marked(old(record).value, task, status, result))
      ensures old(record).Some? && task !in old(record).value.nodes ==> record == old(record)
      ensures old(record).Some? && task in old(record).value.nodes ==>
                var r := old(record).value;
                && record.Some? && record.value.(nodes := r.nodes) == r
                && record.value.nodes.Keys == r.nodes.Keys
                && record.value.nodes[task] == Node(status, result, r.nodes[task].dependencies, r.nodes[task].dependents)
                && forall id | id in r.nodes && id != task :: record.value.nodes[id] == r.nodes[id]
    {
      if record.None? || task !in record.value.nodes { return; }
      var node := record.value.nodes[task].(status := status, result := result);
      record := Some(record.value.(nodes := record.value.nodes[task := node]));
    }
  }
}
