/**
  The job state machine (harness/job-state-machine.ts).

  A transition persists in two writes, the checkpoint and then the event; each
  may fail, and the machine may be lost and resumed from the checkpoint.
 */
module JobLifecycle {
  import opened Common

  datatype JobStatus =
    | Created | Planning | Queued | Running | Testing | E2eTesting | Reviewing | Repairing
    | PausedQuota | WaitingHuman | Blocked | ReadyForClient | Cancelled | Archived

  function ValidTargets(from: JobStatus): set<JobStatus> {
    match from
    case Created => {Planning}
    case Planning => {Queued, Cancelled}
    case Queued => {Running, Cancelled, WaitingHuman}
    case Running => {Testing, Reviewing, Repairing, PausedQuota, Blocked, WaitingHuman, Cancelled}
    case Testing => {Reviewing, Running, Repairing, PausedQuota, WaitingHuman, Cancelled}
    case E2eTesting => {Reviewing, Repairing, PausedQuota, WaitingHuman, Cancelled}
    case Reviewing => {Repairing, Running, ReadyForClient, PausedQuota, WaitingHuman, Cancelled}
    case Repairing => {Running, Testing, Reviewing, PausedQuota, WaitingHuman, Cancelled}
    case PausedQuota => {Running, WaitingHuman, Cancelled}
    case WaitingHuman => {Running, Planning, Cancelled}
    case Blocked => {Running, WaitingHuman, Cancelled}
    case ReadyForClient => {Archived, Repairing}
    case Cancelled => {}
    case Archived => {}
  }

  predicate IsValidTransition(from: JobStatus, to: JobStatus) {
    to in ValidTargets(from)
  }

  datatype Checkpoint = Checkpoint(jobId: string, status: JobStatus, resumeAt: Option<int>, lastError: Option<string>)

  /** The optional fields a transition may set besides the status. */
  datatype Patch = Patch(resumeAt: Option<int>, lastError: Option<string>)

  const NO_PATCH := Patch(None, None)

  function Patched(c: Checkpoint, patch: Patch): Checkpoint {
    c.(resumeAt := if patch.resumeAt.Some? then patch.resumeAt else c.resumeAt,
       lastError := if patch.lastError.Some? then patch.lastError else c.lastError)
  }

  datatype Event = JobCreated(jobId: string) | StateTransition(jobId: string, from: JobStatus, to: JobStatus)

  /** Which of the two writes of a call succeed; a failing save skips the append. */
  datatype Writes = Writes(saveOk: bool, appendOk: bool)

  const BOTH_WRITTEN := Writes(true, true)

  /** One job: the machine's memory, and what is persisted. */
  datatype Job = Job(current: Option<Checkpoint>, eventLog: seq<Event>, saved: Option<Checkpoint>, events: seq<Event>)

  const NO_JOB := Job(None, [], None, [])

  // ---- The two-write step ----

  function Persisted(j: Job, c: Checkpoint, e: Event, writes: Writes): Job {
    if !writes.saveOk then j
    else if !writes.appendOk then j.(saved := Some(c))
    else Job(Some(c), j.eventLog + [e], Some(c), j.events + [e])
  }

  function AfterCreate(j: Job, jobId: string, writes: Writes): Job {
    Persisted(j, Checkpoint(jobId, Created, None, None), JobCreated(jobId), writes)
  }

  function AfterTransition(j: Job, to: JobStatus, patch: Patch, writes: Writes): Job {
    match j.current
    case None => j
    case Some(c) =>
      if IsValidTransition(c.status, to)
      then Persisted(j, Patched(c, patch).(status := to), StateTransition(c.jobId, c.status, to), writes)
      else j
  }

  /** `setResumeTime` and `recordError` change the checkpoint in memory first, whether or not the save succeeds. */
  function AfterUpdate(j: Job, patch: Patch, saveOk: bool): Job {
    match j.current
    case None => j
    case Some(c) =>
      var updated := Patched(c, patch);
      if saveOk then j.(current := Some(updated), saved := Some(updated)) else j.(current := Some(updated))
  }

  function AfterResume(j: Job): Job {
    if j.saved.Some? then j.(current := j.saved) else j
  }

  /** The process is gone; the files are not. */
  function AfterCrash(j: Job): Job {
    j.(current := None, eventLog := [])
  }

  class JobStateMachine {
    var current: Option<Checkpoint>
    var eventLog: seq<Event>
    // The files behind the checkpoint manager.
    var saved: Option<Checkpoint>
    var events: seq<Event>

    function State(): Job
      reads this
    {
      Job(current, eventLog, saved, events)
    }

    constructor (saved: Option<Checkpoint>, events: seq<Event>)
      ensures State() == Job(None, [], saved, events)
    {
      current, eventLog := None, [];
      this.saved, this.events := saved, events;
    }

    /** The checkpoint write. */
    method Save(c: Checkpoint, ok: bool)
      modifies `saved
      ensures saved == if ok then Some(c) else old(saved)
    {
      if ok { saved := Some(c); }
    }

    method CreateJob(jobId: string, writes: Writes) returns (success: bool)
      modifies this
      ensures State() == AfterCreate(old(State()), jobId, writes)
      ensures success ==>
                && current == saved == Some(Checkpoint(jobId, Created, None, None))
                && eventLog == old(eventLog) + [JobCreated(jobId)] && events == old(events) + [JobCreated(jobId)]
      ensures !success ==> current == old(current) && eventLog == old(eventLog) && events == old(events)
      ensures !writes.saveOk ==> saved == old(saved)
      ensures writes.saveOk ==> saved == Some(Checkpoint(jobId, Created, None, None))
      ensures success <==> writes == BOTH_WRITTEN
    {
      var checkpoint := Checkpoint(jobId, Created, None, None);
      success := PersistBoth(checkpoint, JobCreated(jobId), writes);
    }

    method Transition(to: JobStatus, patch: Patch, writes: Writes) returns (success: bool)
      modifies this
      ensures State() == AfterTransition(old(State()), to, patch, writes)
      ensures success <==> old(current).Some? && IsValidTransition(old(current).value.status, to) && writes == BOTH_WRITTEN
      ensures success ==>
                var before := old(current).value;
                var e := StateTransition(before.jobId, before.status, to);
                && current.Some? && current == saved
                && current.value.jobId == before.jobId && current.value.status == to
                && current.value.resumeAt == (if patch.resumeAt.Some? then patch.resumeAt else before.resumeAt)
                && current.value.lastError == (if patch.lastError.Some? then patch.lastError else before.lastError)
                && eventLog == old(eventLog) + [e] && events == old(events) + [e]
      ensures !success ==> current == old(current) && eventLog == old(eventLog) && events == old(events)
      // The checkpoint is stored exactly when the target is valid and its write succeeds, whatever becomes of the event.
      ensures !(old(current).Some? && IsValidTransition(old(current).value.status, to) && writes.saveOk) ==> saved == old(saved)
      ensures old(current).Some? && IsValidTransition(old(current).value.status, to) && writes.saveOk ==>
                saved.Some? && saved.value.status == to && saved.value.jobId == old(current).value.jobId
    {
      if current.None? { return false; }
      var from := current.value.status;
      if !IsValidTransition(from, to) { return false; }
      var updated := Patched(current.value, patch).(status := to);
      success := PersistBoth(updated, StateTransition(current.value.jobId, from, to), writes);
    }

    /** The common tail of `createJob` and `transition`: memory only follows when both writes succeeded. */
    method PersistBoth(c: Checkpoint, e: Event, writes: Writes) returns (success: bool)
      modifies this
      ensures State() == Persisted(old(State()), c, e, writes)
      ensures success <==> writes == BOTH_WRITTEN
    {
      Save(c, writes.saveOk);
      if !writes.saveOk || !writes.appendOk { return false; }
      events := events + [e];
      current := Some(c);
      eventLog := eventLog + [e];
      return true;
    }

    method ResumeJob() returns (success: bool)
      modifies this
      ensures State() == AfterResume(old(State()))
      ensures current == (if success then old(saved) else old(current))
      ensures saved == old(saved) && events == old(events) && eventLog == old(eventLog)
      ensures success <==> old(saved).Some?
    {
      if saved.None? { return false; }
      current := saved;
      return true;
    }

    method SetResumeTime(resumeAt: int, saveOk: bool) returns (success: bool)
      modifies this
      ensures State() == AfterUpdate(old(State()), Patch(Some(resumeAt), None), saveOk)
      ensures old(current).Some? ==> current == Some(old(current).value.(resumeAt := Some(resumeAt)))
      ensures old(current).None? ==> current == None
      ensures saved == (if success then current else old(saved)) && events == old(events) && eventLog == old(eventLog)
      ensures success <==> old(current).Some? && saveOk
    {
      if current.None? { return false; }
      current := Some(current.value.(resumeAt := Some(resumeAt)));
      Save(current.value, saveOk);
      return saveOk;
    }

    method RecordError(error: string, saveOk: bool) returns (success: bool)
      modifies this
      ensures State() == AfterUpdate(old(State()), Patch(None, Some(error)), saveOk)
      ensures old(current).Some? ==> current == Some(old(current).value.(lastError := Some(error)))
      ensures old(current).None? ==> current == None
      ensures saved == (if success then current else old(saved)) && events == old(events) && eventLog == old(eventLog)
      ensures success <==> old(current).Some? && saveOk
    {
      if current.None? { return false; }
      current := Some(current.value.(lastError := Some(error)));
      Save(current.value, saveOk);
      return saveOk;
    }
  }

  // ---- Runs of one job ----

  datatype Op =
    | Create(writes: Writes)
    | Transition(to: JobStatus, patch: Patch, writes: Writes)
    | Update(patch: Patch, saveOk: bool)
    | Resume
    | Crash

  function Step(j: Job, jobId: string, op: Op): Job {
    match op
    case Create(writes) => AfterCreate(j, jobId, writes)
    case Transition(to, patch, writes) => AfterTransition(j, to, patch, writes)
    case Update(patch, saveOk) => AfterUpdate(j, patch, saveOk)
    case Resume => AfterResume(j)
    case Crash => AfterCrash(j)
  }

  /** A job is created once: a creation may be retried only while no machine took it up. */
  predicate MayCreate(j: Job, history: seq<JobStatus>) {
    j.current == None && history == []
  }

  /** The statuses the machine held in memory, without repetition. */
  function Extended(history: seq<JobStatus>, j: Job): seq<JobStatus> {
    if j.current.None? then history
    else if history != [] && history[|history| - 1] == j.current.value.status then history
    else history + [j.current.value.status]
  }

  datatype Trace = Trace(job: Job, history: seq<JobStatus>)

  /** One step of a run; a creation that is not allowed does not happen. */
  function Next(t: Trace, jobId: string, op: Op): Trace {
    var j := if op.Create? && !MayCreate(t.job, t.history) then t.job else Step(t.job, jobId, op);
    Trace(j, Extended(t.history, j))
  }

  function Run(t: Trace, jobId: string, ops: seq<Op>): Trace
    decreases |ops|
  {
    if ops == [] then t else Run(Next(t, jobId, ops[0]), jobId, ops[1..])
  }

  const FRESH := Trace(NO_JOB, [])

  predicate ValidSteps(path: seq<JobStatus>) {
    forall i | 0 <= i < |path| - 1 :: IsValidTransition(path[i], path[i + 1])
  }

  /** A path through the transition table that starts at "created". */
  predicate IsPath(history: seq<JobStatus>) {
    (history != [] ==> history[0] == Created) && ValidSteps(history)
  }

  predicate SameOrAhead(memory: JobStatus, stored: JobStatus) {
    stored == memory || IsValidTransition(memory, stored)
  }

  ghost predicate Consistent(t: Trace) {
    && IsPath(t.history)
    && (t.history == [] ==> t.job.current == None && (t.job.saved.Some? ==> t.job.saved.value.status == Created))
    && (t.history != [] ==> t.job.saved.Some? && SameOrAhead(t.history[|t.history| - 1], t.job.saved.value.status))
    && (t.job.current.Some? ==> t.history != [] && t.job.current.value.status == t.history[|t.history| - 1])
  }

  lemma StepKeepsConsistent(t: Trace, jobId: string, op: Op)
    requires Consistent(t)
    ensures Consistent(Next(t, jobId, op))
  {
  }

  lemma {:induction false} RunKeepsConsistent(t: Trace, jobId: string, ops: seq<Op>)
    requires Consistent(t)
    ensures Consistent(Run(t, jobId, ops))
    decreases |ops|
  {
    if ops != [] {
      StepKeepsConsistent(t, jobId, ops[0]);
      RunKeepsConsistent(Next(t, jobId, ops[0]), jobId, ops[1..]);
    }
  }

  /** Whatever fails, the stored status is the status in memory or one valid transition ahead of it. */
  lemma StoredStatusIsSameOrAhead(jobId: string, ops: seq<Op>)
    ensures var j := Run(FRESH, jobId, ops).job;
            j.current.Some? ==> j.saved.Some? && SameOrAhead(j.current.value.status, j.saved.value.status)
  {
    RunKeepsConsistent(FRESH, jobId, ops);
  }

  /** The statuses of a job, across crashes and resumes, follow the table from "created". */
  lemma HistoryIsAPath(jobId: string, ops: seq<Op>)
    ensures IsPath(Run(FRESH, jobId, ops).history)
  {
    RunKeepsConsistent(FRESH, jobId, ops);
  }

  /** An archived job was ready for the client just before, and under review before that. */
  lemma ArchivedWasReviewed(history: seq<JobStatus>, k: nat)
    requires IsPath(history) && k < |history| && history[k] == Archived
    ensures 2 <= k && history[k - 1] == ReadyForClient && history[k - 2] == Reviewing
  {
    assert 1 <= k;
    assert IsValidTransition(history[k - 1], history[k - 1 + 1]);
    assert history[k - 1] == ReadyForClient;
    assert 2 <= k;
    assert IsValidTransition(history[k - 2], history[k - 2 + 1]);
  }

  /** The table by its columns: for every status, exactly the statuses it is entered from. Nothing leads to "created" or
      "e2e_testing", and nothing leads on from "cancelled" or "archived". */
  lemma EnteredFrom(from: JobStatus)
    ensures !IsValidTransition(from, Created) && !IsValidTransition(from, E2eTesting)
    ensures IsValidTransition(from, Planning) <==> from == Created || from == WaitingHuman
    ensures IsValidTransition(from, Queued) <==> from == Planning
    ensures IsValidTransition(from, Running) <==>
              from in {Queued, Testing, Reviewing, Repairing, PausedQuota, WaitingHuman, Blocked}
    ensures IsValidTransition(from, Testing) <==> from == Running || from == Repairing
    ensures IsValidTransition(from, Reviewing) <==> from in {Running, Testing, E2eTesting, Repairing}
    ensures IsValidTransition(from, Repairing) <==> from in {Running, Testing, E2eTesting, Reviewing, ReadyForClient}
    ensures IsValidTransition(from, PausedQuota) <==> from in {Running, Testing, E2eTesting, Reviewing, Repairing}
    ensures IsValidTransition(from, WaitingHuman) <==>
              from in {Queued, Running, Testing, E2eTesting, Reviewing, Repairing, PausedQuota, Blocked}
    ensures IsValidTransition(from, Blocked) <==> from == Running
    ensures IsValidTransition(from, ReadyForClient) <==> from == Reviewing
    ensures IsValidTransition(from, Cancelled) <==>
              from in {Planning, Queued, Running, Testing, E2eTesting, Reviewing, Repairing, PausedQuota, WaitingHuman, Blocked}
    ensures IsValidTransition(from, Archived) <==> from == ReadyForClient
  {
  }

  predicate EndsFinal(history: seq<JobStatus>) {
    history != [] && (history[|history| - 1] == Cancelled || history[|history| - 1] == Archived)
  }

  lemma {:induction false} FinalStaysFinal(t: Trace, jobId: string, ops: seq<Op>)
    requires Consistent(t) && EndsFinal(t.history)
    ensures Run(t, jobId, ops).history == t.history
    ensures Run(t, jobId, ops).job.saved.Some?
            && Run(t, jobId, ops).job.saved.value.status == t.history[|t.history| - 1]
    decreases |ops|
  {
    if ops != [] {
      StepKeepsConsistent(t, jobId, ops[0]);
      FinalStaysFinal(Next(t, jobId, ops[0]), jobId, ops[1..]);
    }
  }

  /** A cancelled or archived job stays so: over all runs, with failing writes, crashes and resumes, its history never grows
      again, and the stored status stays the final one. */
  lemma CancelledAndArchivedAreFinal(jobId: string, before: seq<Op>, after: seq<Op>)
    requires EndsFinal(Run(FRESH, jobId, before).history)
    ensures var t := Run(FRESH, jobId, before);
            && Run(t, jobId, after).history == t.history
            && Run(t, jobId, after).job.saved.Some?
            && Run(t, jobId, after).job.saved.value.status == t.history[|t.history| - 1]
  {
    RunKeepsConsistent(FRESH, jobId, before);
    FinalStaysFinal(Run(FRESH, jobId, before), jobId, after);
  }

  /** The events of this process are the newest persisted ones, and every persisted transition is one of the table. */
  ghost predicate LogsAgree(j: Job) {
    && |j.eventLog| <= |j.events|
    && j.eventLog == j.events[|j.events| - |j.eventLog|..]
    && (forall i | 0 <= i < |j.events| && j.events[i].StateTransition? :: IsValidTransition(j.events[i].from, j.events[i].to))
  }

  lemma AppendKeepsLogs(j: Job, c: Checkpoint, e: Event)
    requires LogsAgree(j) && (e.StateTransition? ==> IsValidTransition(e.from, e.to))
    ensures LogsAgree(Job(Some(c), j.eventLog + [e], Some(c), j.events + [e]))
  {
    var n := |j.events| - |j.eventLog|;
    assert j.events[n..] + [e] == (j.events + [e])[n..];
  }

  lemma StepKeepsLogs(j: Job, jobId: string, op: Op)
    requires LogsAgree(j)
    ensures LogsAgree(Step(j, jobId, op))
  {
    match op
    case Create(_) => AppendKeepsLogs(j, Checkpoint(jobId, Created, None, None), JobCreated(jobId));
    case Transition(to, patch, _) =>
      if j.current.Some? && IsValidTransition(j.current.value.status, to) {
        var c := j.current.value;
        AppendKeepsLogs(j, Patched(c, patch).(status := to), StateTransition(c.jobId, c.status, to));
      }
    case _ =>
  }

  lemma {:induction false} RunKeepsLogs(t: Trace, jobId: string, ops: seq<Op>)
    requires LogsAgree(t.job)
    ensures LogsAgree(Run(t, jobId, ops).job)
    decreases |ops|
  {
    if ops != [] {
      StepKeepsLogs(t.job, jobId, ops[0]);
      RunKeepsLogs(Next(t, jobId, ops[0]), jobId, ops[1..]);
    }
  }

  // ---- Holes in the persisted log ----

  function StatusAfter(e: Event): JobStatus {
    match e
    case JobCreated(_) => Created
    case StateTransition(_, _, to) => to
  }

  function LastStatus(events: seq<Event>): Option<JobStatus> {
    if events == [] then None else Some(StatusAfter(events[|events| - 1]))
  }

  function StoredStatus(j: Job): Option<JobStatus> {
    match j.saved
    case None => None
    case Some(c) => Some(c.status)
  }

  /** The log does not end with the stored status. */
  predicate EventMissing(j: Job) {
    LastStatus(j.events) != StoredStatus(j)
  }

  /** The log tells one story: the creation, then transitions that each start where the one before ended. */
  predicate Chained(events: seq<Event>) {
    && (events != [] ==> events[0].JobCreated?)
    && forall i | 0 < i < |events| :: events[i].StateTransition? && events[i].from == StatusAfter(events[i - 1])
  }

  /** The machine is in a status that the log does not end with. */
  predicate AheadOfLog(j: Job) {
    j.current.Some? && LastStatus(j.events) != Some(j.current.value.status)
  }

  /** A transition that succeeds on a machine ahead of the log. */
  predicate SkipsAnEvent(j: Job, op: Op) {
    && op.Transition? && op.writes == BOTH_WRITTEN
    && AheadOfLog(j) && IsValidTransition(j.current.value.status, op.to)
  }

  predicate AnySkip(t: Trace, jobId: string, ops: seq<Op>)
    decreases |ops|
  {
    ops != [] && (SkipsAnEvent(t.job, ops[0]) || AnySkip(Next(t, jobId, ops[0]), jobId, ops[1..]))
  }

  /** Before a job was taken up nothing is logged, and nothing is logged that was not stored. */
  predicate Tracked(t: Trace) {
    && (t.history == [] ==> t.job.current == None && t.job.events == [])
    && (t.job.saved == None ==> t.job.events == [] && t.job.current == None)
  }

  lemma StepKeepsChain(t: Trace, jobId: string, op: Op)
    requires Tracked(t)
    ensures Tracked(Next(t, jobId, op))
    ensures Chained(Next(t, jobId, op).job.events) <==> Chained(t.job.events) && !SkipsAnEvent(t.job, op)
  {
    var before, after := t.job.events, Next(t, jobId, op).job.events;
    if after != before {
      var e := after[|before|];
      assert after == before + [e];
      assert forall i | 0 <= i < |before| :: after[i] == before[i];
      if before != [] {
        assert after[|before| - 1] == before[|before| - 1];
      }
    }
  }

  lemma {:induction false} RunKeepsChain(t: Trace, jobId: string, ops: seq<Op>)
    requires Tracked(t)
    ensures Tracked(Run(t, jobId, ops))
    ensures Chained(Run(t, jobId, ops).job.events) <==> Chained(t.job.events) && !AnySkip(t, jobId, ops)
    decreases |ops|
  {
    if ops != [] {
      StepKeepsChain(t, jobId, ops[0]);
      RunKeepsChain(Next(t, jobId, ops[0]), jobId, ops[1..]);
    }
  }

  /** Each event of a run starts where the one before ended exactly when no transition succeeded on a machine whose status
      was not the one the log ends with. Such a log may still miss a loop of transitions (`LostLoopLeavesNoGap`). */
  lemma LogChainsIff(jobId: string, ops: seq<Op>)
    ensures Chained(Run(FRESH, jobId, ops).job.events) <==> !AnySkip(FRESH, jobId, ops)
  {
    RunKeepsChain(FRESH, jobId, ops);
  }

  /** Only a resume brings a machine to a status other than the one the log ends with, exactly when that is not the stored
      status. */
  lemma OnlyResumeSkips(t: Trace, jobId: string, op: Op)
    requires Tracked(t) && !AheadOfLog(t.job)
    ensures AheadOfLog(Next(t, jobId, op).job) <==> op.Resume? && EventMissing(t.job)
  {
  }

  /** At every resume of the run the log ends with the stored status. */
  predicate ResumesInStep(t: Trace, jobId: string, ops: seq<Op>)
    decreases |ops|
  {
    ops != [] ==>
      && (ops[0].Resume? ==> !EventMissing(t.job))
      && ResumesInStep(Next(t, jobId, ops[0]), jobId, ops[1..])
  }

  /** The log tells one story and ends with the last status that was held in memory. */
  ghost predicate InStep(t: Trace) {
    && Consistent(t) && Tracked(t) && Chained(t.job.events)
    && (t.history != [] ==> LastStatus(t.job.events) == Some(t.history[|t.history| - 1]))
  }

  lemma StepKeepsInStep(t: Trace, jobId: string, op: Op)
    requires InStep(t)
    requires op.Resume? ==> !EventMissing(t.job)
    ensures InStep(Next(t, jobId, op))
  {
    StepKeepsChain(t, jobId, op);
    StepKeepsConsistent(t, jobId, op);
  }

  lemma {:induction false} RunKeepsInStep(t: Trace, jobId: string, ops: seq<Op>)
    requires InStep(t) && ResumesInStep(t, jobId, ops)
    ensures InStep(Run(t, jobId, ops))
    decreases |ops|
  {
    if ops != [] {
      StepKeepsInStep(t, jobId, ops[0]);
      RunKeepsInStep(Next(t, jobId, ops[0]), jobId, ops[1..]);
    }
  }

  lemma NoSelfTransition(status: JobStatus)
    ensures !IsValidTransition(status, status)
  {
  }

  /** Whether the event of the stored checkpoint is missing after a step: the last write of a checkpoint decides. */
  predicate LostAfter(t: Trace, op: Op, lost: bool) {
    match op
    case Create(writes) => if MayCreate(t.job, t.history) && writes.saveOk then !writes.appendOk else lost
    case Transition(to, _, writes) =>
      if t.job.current.Some? && IsValidTransition(t.job.current.value.status, to) && writes.saveOk then !writes.appendOk else lost
    case Update(_, saveOk) => if t.job.current.Some? && saveOk then false else lost
    case Resume => lost
    case Crash => lost
  }

  predicate LostAtEnd(t: Trace, jobId: string, ops: seq<Op>, lost: bool)
    decreases |ops|
  {
    if ops == [] then lost else LostAtEnd(Next(t, jobId, ops[0]), jobId, ops[1..], LostAfter(t, ops[0], lost))
  }

  lemma StepLosesIff(t: Trace, jobId: string, op: Op)
    requires InStep(t)
    requires op.Resume? ==> !EventMissing(t.job)
    ensures EventMissing(Next(t, jobId, op).job) <==> LostAfter(t, op, EventMissing(t.job))
  {
    if t.job.current.Some? { NoSelfTransition(t.job.current.value.status); }
  }

  lemma {:induction false} RunLosesIff(t: Trace, jobId: string, ops: seq<Op>)
    requires InStep(t) && ResumesInStep(t, jobId, ops)
    ensures EventMissing(Run(t, jobId, ops).job) <==> LostAtEnd(t, jobId, ops, EventMissing(t.job))
    decreases |ops|
  {
    if ops != [] {
      StepKeepsInStep(t, jobId, ops[0]);
      StepLosesIff(t, jobId, ops[0]);
      RunLosesIff(Next(t, jobId, ops[0]), jobId, ops[1..]);
    }
  }

  /** A failing append leaves no hole as long as no process takes up its checkpoint. The log then chains up to the stored
      status exactly when the append after the last stored checkpoint did not fail, and otherwise to the status before. */
  lemma ChainsUpToStoredIff(jobId: string, ops: seq<Op>)
    requires ResumesInStep(FRESH, jobId, ops)
    ensures var j := Run(FRESH, jobId, ops).job;
            && Chained(j.events)
            && (EventMissing(j) <==> LostAtEnd(FRESH, jobId, ops, false))
            && match LastStatus(j.events)
               case None => StoredStatus(j) == None || StoredStatus(j) == Some(Created)
               case Some(last) => j.saved.Some? && SameOrAhead(last, j.saved.value.status)
  {
    RunKeepsInStep(FRESH, jobId, ops);
    RunLosesIff(FRESH, jobId, ops);
  }

  // ---- When the log records every status ----

  /** The statuses the log tells of. */
  function Statuses(events: seq<Event>): (statuses: seq<JobStatus>)
    ensures |statuses| == |events|
  {
    seq(|events|, i requires 0 <= i < |events| => StatusAfter(events[i]))
  }

  /** The log tells of exactly the statuses the job held. */
  ghost predicate Complete(t: Trace) {
    && Consistent(t) && Tracked(t)
    && Statuses(t.job.events) == t.history
  }

  /** A status the job held is gone from the log for good. */
  ghost predicate Incomplete(t: Trace) {
    && Consistent(t) && Tracked(t)
    && |t.job.events| < |t.history|
  }

  lemma CompleteEndsWithHistory(t: Trace)
    requires Complete(t) && t.history != []
    ensures LastStatus(t.job.events) == Some(t.history[|t.history| - 1])
  {
    assert Statuses(t.job.events)[|t.history| - 1] == StatusAfter(t.job.events[|t.history| - 1]);
  }

  /** A step keeps the log complete exactly unless it is a resume that does not find the stored status at its end. */
  lemma StepKeepsComplete(t: Trace, jobId: string, op: Op)
    requires Complete(t)
    ensures if op.Resume? && EventMissing(t.job) then Incomplete(Next(t, jobId, op)) else Complete(Next(t, jobId, op))
  {
    StepKeepsConsistent(t, jobId, op);
    StepKeepsChain(t, jobId, op);
    if t.history != [] { CompleteEndsWithHistory(t); }
    if t.job.current.Some? { NoSelfTransition(t.job.current.value.status); }
    var after := Next(t, jobId, op);
    if after.job.events != t.job.events {
      var e := after.job.events[|t.job.events|];
      assert Statuses(t.job.events + [e]) == Statuses(t.job.events) + [StatusAfter(e)];
    }
  }

  lemma StepKeepsIncomplete(t: Trace, jobId: string, op: Op)
    requires Incomplete(t)
    ensures Incomplete(Next(t, jobId, op))
  {
    StepKeepsConsistent(t, jobId, op);
    StepKeepsChain(t, jobId, op);
    if t.job.current.Some? { NoSelfTransition(t.job.current.value.status); }
  }

  lemma {:induction false} RunKeepsIncomplete(t: Trace, jobId: string, ops: seq<Op>)
    requires Incomplete(t)
    ensures Incomplete(Run(t, jobId, ops))
    decreases |ops|
  {
    if ops != [] {
      StepKeepsIncomplete(t, jobId, ops[0]);
      RunKeepsIncomplete(Next(t, jobId, ops[0]), jobId, ops[1..]);
    }
  }

  lemma {:induction false} RunKeepsCompleteIff(t: Trace, jobId: string, ops: seq<Op>)
    requires Complete(t)
    ensures Statuses(Run(t, jobId, ops).job.events) == Run(t, jobId, ops).history <==> ResumesInStep(t, jobId, ops)
    decreases |ops|
  {
    if ops != [] {
      var next := Next(t, jobId, ops[0]);
      StepKeepsComplete(t, jobId, ops[0]);
      if ops[0].Resume? && EventMissing(t.job) {
        RunKeepsIncomplete(next, jobId, ops[1..]);
      } else {
        RunKeepsCompleteIff(next, jobId, ops[1..]);
      }
    }
  }

  /** The log tells of exactly the statuses the job held, across failures, crashes and resumes, if and only if at every
      resume it ends with the stored status, which the caller can look up before it resumes. */
  lemma LogRecordsHistoryIff(jobId: string, ops: seq<Op>)
    ensures Statuses(Run(FRESH, jobId, ops).job.events) == Run(FRESH, jobId, ops).history <==> ResumesInStep(FRESH, jobId, ops)
  {
    RunKeepsCompleteIff(FRESH, jobId, ops);
  }

  lemma {:induction false} RunAppend(t: Trace, jobId: string, a: seq<Op>, b: seq<Op>)
    ensures Run(t, jobId, a + b) == Run(Run(t, jobId, a), jobId, b)
    decreases |a|
  {
    if a == [] {
      assert a + b == b;
    } else {
      assert (a + b)[1..] == a[1..] + b;
      RunAppend(Next(t, jobId, a[0]), jobId, a[1..], b);
    }
  }

  /** A transition whose append fails, then a crash and a resume. */
  function LostTransition(to: JobStatus): seq<Op> {
    [Transition(to, NO_PATCH, Writes(true, false)), Crash, Resume]
  }

  /** The new process holds the new status, and the log is the old one. */
  lemma LostTransitionLogsNothing(t: Trace, jobId: string, to: JobStatus)
    requires t.job.current.Some? && IsValidTransition(t.job.current.value.status, to)
    requires t.history != [] && t.history[|t.history| - 1] == t.job.current.value.status
    ensures var c := t.job.current.value.(status := to);
            Run(t, jobId, LostTransition(to)) == Trace(Job(Some(c), [], Some(c), t.job.events), t.history + [to])
  {
    var ops := LostTransition(to);
    NoSelfTransition(to);
    var t1 := Next(t, jobId, ops[0]);
    var t2 := Next(t1, jobId, ops[1]);
    assert ops[1..][1..] == [ops[2]] && [ops[2]][1..] == [];
    assert Run(t, jobId, ops) == Run(t1, jobId, ops[1..]) == Run(t2, jobId, [ops[2]]) == Next(t2, jobId, ops[2]);
  }

  /** A transition that is stored and logged. */
  lemma LoggedTransition(t: Trace, jobId: string, to: JobStatus)
    requires t.job.current.Some? && IsValidTransition(t.job.current.value.status, to)
    requires t.history != [] && t.history[|t.history| - 1] == t.job.current.value.status
    ensures var c, e := t.job.current.value.(status := to), StateTransition(t.job.current.value.jobId, t.job.current.value.status, to);
            Run(t, jobId, [Transition(to, NO_PATCH, BOTH_WRITTEN)])
              == Trace(Job(Some(c), t.job.eventLog + [e], Some(c), t.job.events + [e]), t.history + [to])
  {
    NoSelfTransition(to);
    var op := Transition(to, NO_PATCH, BOTH_WRITTEN);
    assert [op][1..] == [];
    assert Run(t, jobId, [op]) == Next(t, jobId, op);
  }

  /** "running" to "testing" and back, both appends failing: everything but the history is as it was. */
  lemma LostLoop(t: Trace, jobId: string)
    requires t.job.current.Some? && t.job.current.value.status == Running
    requires t.history != [] && t.history[|t.history| - 1] == Running
    ensures Run(t, jobId, LostTransition(Testing) + LostTransition(Running))
              == Trace(Job(t.job.current, [], t.job.current, t.job.events), t.history + [Testing, Running])
  {
    RunAppend(t, jobId, LostTransition(Testing), LostTransition(Running));
    LostTransitionLogsNothing(t, jobId, Testing);
    var t1 := Run(t, jobId, LostTransition(Testing));
    LostTransitionLogsNothing(t1, jobId, Running);
    assert (t.history + [Testing]) + [Running] == t.history + [Testing, Running];
  }

  /** A regular start up to "running". */
  lemma ReachRunning(jobId: string) returns (ops: seq<Op>)
    ensures var t, c := Run(FRESH, jobId, ops), Checkpoint(jobId, Running, None, None);
            && t.job.current == t.job.saved == Some(c)
            && t.job.events == [JobCreated(jobId), StateTransition(jobId, Created, Planning),
                                StateTransition(jobId, Planning, Queued), StateTransition(jobId, Queued, Running)]
            && t.history == [Created, Planning, Queued, Running]
  {
    var create, a := [Create(BOTH_WRITTEN)], [Transition(Planning, NO_PATCH, BOTH_WRITTEN)];
    var b, c := [Transition(Queued, NO_PATCH, BOTH_WRITTEN)], [Transition(Running, NO_PATCH, BOTH_WRITTEN)];
    ops := create + (a + (b + c));
    var t0 := Next(FRESH, jobId, create[0]);
    assert create[1..] == [] && Run(FRESH, jobId, create) == t0;
    RunAppend(FRESH, jobId, create, a + (b + c));
    LoggedTransition(t0, jobId, Planning);
    RunAppend(t0, jobId, a, b + c);
    var t1 := Run(t0, jobId, a);
    LoggedTransition(t1, jobId, Queued);
    RunAppend(t1, jobId, b, c);
    LoggedTransition(Run(t1, jobId, b), jobId, Running);
  }

  lemma LostLoopRun(jobId: string) returns (ops: seq<Op>)
    ensures var j := Run(FRESH, jobId, ops).job;
            && j.events == [JobCreated(jobId), StateTransition(jobId, Created, Planning), StateTransition(jobId, Planning, Queued),
                            StateTransition(jobId, Queued, Running), StateTransition(jobId, Running, Reviewing)]
            && StoredStatus(j) == Some(Reviewing)
    ensures Run(FRESH, jobId, ops).history == [Created, Planning, Queued, Running, Testing, Running, Reviewing]
  {
    var start := ReachRunning(jobId);
    var loop, last := LostTransition(Testing) + LostTransition(Running), [Transition(Reviewing, NO_PATCH, BOTH_WRITTEN)];
    ops := start + (loop + last);
    var t := Run(FRESH, jobId, start);
    RunAppend(FRESH, jobId, start, loop + last);
    RunAppend(t, jobId, loop, last);
    LostLoop(t, jobId);
    LoggedTransition(Run(t, jobId, loop), jobId, Reviewing);
  }

  /** A log that misses a loop of two transitions, although every event starts where the one before ended and the log ends
      with the stored status. */
  lemma LostLoopLeavesNoGap(jobId: string) returns (ops: seq<Op>)
    ensures var t := Run(FRESH, jobId, ops);
            && Chained(t.job.events) && !AnySkip(FRESH, jobId, ops) && !EventMissing(t.job)
            && Statuses(t.job.events) == [Created, Planning, Queued, Running, Reviewing]
            && t.history == [Created, Planning, Queued, Running, Testing, Running, Reviewing]
  {
    ops := LostLoopRun(jobId);
    LogChainsIff(jobId, ops);
  }

  /** A hole: the append of "planning" fails, the process dies, and the next one goes on from the checkpoint. */
  lemma LostEventLeavesAHole(jobId: string) returns (ops: seq<Op>)
    ensures Run(FRESH, jobId, ops).job.events == [JobCreated(jobId), StateTransition(jobId, Planning, Queued)]
    ensures !Chained(Run(FRESH, jobId, ops).job.events)
  {
    var steps := [Transition(Planning, NO_PATCH, Writes(true, false)), Crash, Resume, Transition(Queued, NO_PATCH, BOTH_WRITTEN)];
    ops := [Create(BOTH_WRITTEN)] + steps;
    var t1 := Next(FRESH, jobId, ops[0]);
    var t2 := Next(t1, jobId, ops[1]);
    var t3 := Next(t2, jobId, ops[2]);
    var t4 := Next(t3, jobId, ops[3]);
    var t5 := Next(t4, jobId, ops[4]);
    assert ops[1..] == steps && ops[1..][1..] == steps[1..] && steps[1..][1..] == steps[2..] && steps[2..][1..] == steps[3..];
    assert steps[3..][1..] == [];
    assert Run(FRESH, jobId, ops) == Run(t1, jobId, steps) == Run(t2, jobId, steps[1..]);
    assert Run(t2, jobId, steps[1..]) == Run(t3, jobId, steps[2..]) == Run(t4, jobId, steps[3..]) == t5;
    assert t5.job.events[1].from != StatusAfter(t5.job.events[0]);
  }

  // ---- Reachability ----

  /** A path of the table to a status; "e2e_testing" has none. */
  function Route(to: JobStatus): seq<JobStatus>
    requires to != E2eTesting
  {
    match to
    case Created => []
    case Planning => [Planning]
    case Queued => [Planning, Queued]
    case Running => [Planning, Queued, Running]
    case WaitingHuman => [Planning, Queued, WaitingHuman]
    case Cancelled => [Planning, Cancelled]
    case Archived => [Planning, Queued, Running, Reviewing, ReadyForClient, Archived]
    case ReadyForClient => [Planning, Queued, Running, Reviewing, ReadyForClient]
    case _ => [Planning, Queued, Running, to]
  }

  function Transitions(route: seq<JobStatus>): seq<Op> {
    if route == [] then [] else [Transition(route[0], NO_PATCH, BOTH_WRITTEN)] + Transitions(route[1..])
  }

  lemma DropStep(path: seq<JobStatus>)
    requires ValidSteps(path) && path != []
    ensures ValidSteps(path[1..])
  {
    forall i | 0 <= i < |path[1..]| - 1
      ensures IsValidTransition(path[1..][i], path[1..][i + 1])
    {
      var k := i + 1;
      assert IsValidTransition(path[k], path[k + 1]);
    }
  }

  lemma RouteIsValid(to: JobStatus)
    requires to != E2eTesting
    ensures ValidSteps([Created] + Route(to))
    ensures ([Created] + Route(to))[|Route(to)|] == to
  {
  }

  lemma {:induction false} RouteIsFollowed(t: Trace, jobId: string, route: seq<JobStatus>)
    requires t.job.current.Some? && ValidSteps([t.job.current.value.status] + route)
    ensures var j := Run(t, jobId, Transitions(route)).job;
            && j.current.Some?
            && j.current.value.status == ([t.job.current.value.status] + route)[|route|]
            && (t.job.saved == t.job.current ==> j.saved == j.current)
    decreases |route|
  {
    if route != [] {
      var op := Transition(route[0], NO_PATCH, BOTH_WRITTEN);
      var path := [t.job.current.value.status] + route;
      assert IsValidTransition(path[0], path[0 + 1]);
      assert [route[0]] + route[1..] == path[1..];
      DropStep(path);
      RouteIsFollowed(Next(t, jobId, op), jobId, route[1..]);
    }
  }

  /** Every status but "e2e_testing" is reached by some run. */
  lemma EveryOtherStatusIsReachable(jobId: string, status: JobStatus) returns (ops: seq<Op>)
    requires status != E2eTesting
    ensures var j := Run(FRESH, jobId, ops).job;
            j.current.Some? && j.current.value.status == status && j.saved == j.current
  {
    var create := Create(BOTH_WRITTEN);
    RouteIsValid(status);
    RouteIsFollowed(Next(FRESH, jobId, create), jobId, Route(status));
    ops := [create] + Transitions(Route(status));
    assert ops[1..] == Transitions(Route(status));
  }

  lemma PathAvoidsE2eTesting(history: seq<JobStatus>)
    requires IsPath(history)
    ensures E2eTesting !in history
  {
    forall i | 0 <= i < |history|
      ensures history[i] != E2eTesting
    {
      if 0 < i {
        assert IsValidTransition(history[i - 1], history[i - 1 + 1]);
      }
    }
  }

  /** No run reaches "e2e_testing", neither in memory nor in the stored checkpoint. */
  lemma E2eTestingIsUnreachable(jobId: string, ops: seq<Op>)
    ensures var t := Run(FRESH, jobId, ops);
            E2eTesting !in t.history && (t.job.saved.Some? ==> t.job.saved.value.status != E2eTesting)
  {
    RunKeepsConsistent(FRESH, jobId, ops);
    PathAvoidsE2eTesting(Run(FRESH, jobId, ops).history);
  }
}
