/**
  Automatic resume after a quota pause (harness/auto-quota-resume.ts).

  The host owns the pending timeouts (`live`); the module keeps one map from
  job to timer. Times are integer milliseconds. The mirror maps a provider to
  its record, here only to the optional reset epoch of that record.
 */
module AutoResume {
  import opened Common
  import opened JobLifecycle

  const RESUME_BUFFER_MS := 10000
  const MIN_RESUME_DELAY_MS := 5000

  type Mirror = map<string, Option<int>>

  datatype Timer = Timer(handle: nat, resumeAt: int)

  /** A pending timeout of the host: when it is due, and what its callback captured. */
  datatype Timeout = Timeout(jobId: string, provider: string, due: int)

  function EpochOf(mirror: Mirror, provider: string): Option<int> {
    if provider in mirror then mirror[provider] else None
  }

  /** The moment a timer scheduled at `now` for the reset `epoch` is due. */
  function DueAt(now: int, epoch: int): (due: int)
    ensures now + 5000 <= due
    ensures epoch - 10000 <= due
    ensures due == now + 5000 || due == epoch - 10000
  {
    now + Max(epoch - now - RESUME_BUFFER_MS, MIN_RESUME_DELAY_MS)
  }

  /** The check at the timeout: an epoch of 0 counts as absent. */
  predicate StillExhausted(mirror: Mirror, provider: string, now: int) {
    var epoch := EpochOf(mirror, provider);
    epoch.Some? && epoch.value != 0 && now < epoch.value
  }

  class AutoQuotaResume {
    var activeTimers: map<string, Timer>
    var live: map<nat, Timeout>
    var nextHandle: nat

    /** Every pending timeout is the timer of its job and every timer is pending: at most one per job. */
    ghost predicate Valid()
      reads this
    {
      && (forall job | job in activeTimers ::
            activeTimers[job].handle in live && live[activeTimers[job].handle].jobId == job)
      && (forall job | job in activeTimers && activeTimers[job].handle in live ::
            live[activeTimers[job].handle].due == activeTimers[job].resumeAt)
      && (forall h | h in live :: live[h].jobId in activeTimers && activeTimers[live[h].jobId].handle == h)
      && (forall h | h in live :: h < nextHandle)
    }

    constructor ()
      ensures Valid() && activeTimers == map[] && live == map[]
    {
      activeTimers, live, nextHandle := map[], map[], 0;
    }

    method CancelAutoResume(jobId: string)
      requires Valid()
      modifies this
      ensures Valid() && nextHandle == old(nextHandle)
      ensures activeTimers == old(activeTimers) - {jobId}
      ensures live == map h | h in old(live) && old(live)[h].jobId != jobId :: old(live)[h]
    {
      if jobId in activeTimers {
        live := live - {activeTimers[jobId].handle};
        activeTimers := activeTimers - {jobId};
      } else {
        assert forall h | h in live :: live[h].jobId != jobId;
        assert activeTimers - {jobId} == activeTimers;
      }
    }

    /** Replaces the timer of the job; without a job nothing happens, without an epoch the old timer is gone anyway. */
    method ScheduleAutoResume(provider: string, machine: JobStateMachine, mirror: Mirror, now: int, saveOk: bool)
      returns (resumeAt: Option<int>)
      requires Valid()
      modifies this, machine
      ensures Valid()
      ensures old(machine.current).None? ==>
                resumeAt == None && activeTimers == old(activeTimers) && live == old(live) && machine.State() == old(machine.State())
      ensures resumeAt.Some? <==> old(machine.current).Some? && provider in mirror && mirror[provider].Some?
      ensures resumeAt.Some? ==> resumeAt.value == DueAt(now, mirror[provider].value)
      ensures old(machine.current).Some? ==>
                var jobId := old(machine.current).value.jobId;
                var others := map h | h in old(live) && old(live)[h].jobId != jobId :: old(live)[h];
                match EpochOf(mirror, provider)
                case None =>
                  resumeAt == None && live == others && activeTimers == old(activeTimers) - {jobId}
                  && machine.State() == old(machine.State())
                case Some(epoch) =>
                  && resumeAt == Some(DueAt(now, epoch))
                  && old(nextHandle) !in others
                  && live == others[old(nextHandle) := Timeout(jobId, provider, DueAt(now, epoch))]
                  && activeTimers == old(activeTimers)[jobId := Timer(old(nextHandle), DueAt(now, epoch))]
                  && machine.State() == AfterUpdate(old(machine.State()), Patch(resumeAt, None), saveOk)
    {
      if machine.current.None? { return None; }
      var jobId := machine.current.value.jobId;
      CancelAutoResume(jobId);
      if provider !in mirror || mirror[provider].None? { return None; }
      var epoch := mirror[provider].value;
      var delay := Max(epoch - now - RESUME_BUFFER_MS, MIN_RESUME_DELAY_MS);
      var due := now + delay;
      var _ := machine.SetResumeTime(due, saveOk);
      Arm(jobId, provider, due);
      return Some(due);
    }

    /** `setTimeout`, and the entry of the job in the map. */
    method Arm(jobId: string, provider: string, due: int)
      requires Valid() && jobId !in activeTimers
      modifies this
      ensures Valid() && old(nextHandle) !in old(live)
      ensures live == old(live)[old(nextHandle) := Timeout(jobId, provider, due)]
      ensures activeTimers == old(activeTimers)[jobId := Timer(old(nextHandle), due)]
    {
      live := live[nextHandle := Timeout(jobId, provider, due)];
      activeTimers := activeTimers[jobId := Timer(nextHandle, due)];
      nextHandle := nextHandle + 1;
    }

    /** The callback of a pending timeout. The machine is the one it captured. */
    method OnTimeout(handle: nat, machine: JobStateMachine, mirror: Mirror, now: int, writes: Writes)
      requires Valid() && handle in live
      requires machine.current.Some? ==> machine.current.value.jobId == live[handle].jobId
      modifies this, machine
      ensures Valid() && handle !in live
      ensures machine.current.Some? <==> old(machine.current).Some?
      ensures old(machine.current).Some? && old(machine.current).value.status == PausedQuota ==>
                var provider := old(live)[handle].provider;
                var waits := provider in mirror && mirror[provider].Some? && mirror[provider].value != 0 && now < mirror[provider].value;
                && machine.current.value.status == (if !waits && writes.saveOk && writes.appendOk then Running else PausedQuota)
                && (waits <==> old(live)[handle].jobId in activeTimers)
      ensures old(machine.current).Some? && old(machine.current).value.status != PausedQuota ==> machine.current == old(machine.current)
      // A job is only moved out of "paused_quota", and never while the mirror still names a later reset.
      ensures var paused := old(machine.current).Some? && old(machine.current).value.status == PausedQuota;
              var provider := old(live)[handle].provider;
              var jobId := old(live)[handle].jobId;
              if paused && StillExhausted(mirror, provider, now) then
                var due := DueAt(now, EpochOf(mirror, provider).value);
                && machine.State() == AfterUpdate(old(machine.State()), Patch(Some(due), None), writes.saveOk)
                && activeTimers == old(activeTimers)[jobId := Timer(old(nextHandle), due)]
                && live == (old(live) - {handle})[old(nextHandle) := Timeout(jobId, provider, due)]
              else
                && live == old(live) - {handle}
                && activeTimers == old(activeTimers) - {jobId}
                && machine.State() == if paused then AfterTransition(old(machine.State()), Running, NO_PATCH, writes)
                                      else old(machine.State())
    {
      var timeout := Expire(handle);
      Wake(timeout, machine, mirror, now, writes);
    }

    /** What the callback does once its timer is forgotten. */
    method Wake(timeout: Timeout, machine: JobStateMachine, mirror: Mirror, now: int, writes: Writes)
      requires Valid() && timeout.jobId !in activeTimers
      requires machine.current.Some? ==> machine.current.value.jobId == timeout.jobId
      modifies this, machine
      ensures Valid()
      ensures var paused := old(machine.current).Some? && old(machine.current).value.status == PausedQuota;
              if paused && StillExhausted(mirror, timeout.provider, now) then
                var due := DueAt(now, EpochOf(mirror, timeout.provider).value);
                && machine.State() == AfterUpdate(old(machine.State()), Patch(Some(due), None), writes.saveOk)
                && activeTimers == old(activeTimers)[timeout.jobId := Timer(old(nextHandle), due)]
                && live == old(live)[old(nextHandle) := timeout.(due := due)]
              else
                && live == old(live) && activeTimers == old(activeTimers)
                && machine.State() == if paused then AfterTransition(old(machine.State()), Running, NO_PATCH, writes)
                                      else old(machine.State())
    {
      if machine.current.None? || machine.current.value.status != PausedQuota { return; }
      if timeout.provider in mirror && mirror[timeout.provider].Some? && mirror[timeout.provider].value != 0 {
        if now < mirror[timeout.provider].value {
          assert live == map h | h in live && live[h].jobId != timeout.jobId :: live[h];
          var _ := ScheduleAutoResume(timeout.provider, machine, mirror, now, writes.saveOk);
          return;
        }
      }
      var _ := machine.Transition(Running, NO_PATCH, writes);
    }

    /** The host drops the timeout it calls back, and the callback first forgets its timer. */
    method Expire(handle: nat) returns (timeout: Timeout)
      requires Valid() && handle in live
      modifies this
      ensures Valid() && nextHandle == old(nextHandle)
      ensures timeout == old(live)[handle]
      ensures live == old(live) - {handle} && activeTimers == old(activeTimers) - {timeout.jobId}
      ensures forall h | h in live :: live[h].jobId != timeout.jobId
    {
      timeout := live[handle];
      live := live - {handle};
      activeTimers := activeTimers - {timeout.jobId};
    }

    /** The pending timeouts of all jobs but one. */
    ghost function Others(jobId: string): map<nat, Timeout>
      reads this
    {
      map h | h in live && live[h].jobId != jobId :: live[h]
    }

    /** One job waits for `due`; all other jobs have the given timeouts and timers. */
    ghost predicate Waiting(handle: nat, timeout: Timeout, others: map<nat, Timeout>, timers: map<string, Timer>)
      reads this
    {
      && Valid()
      && handle !in others && live == others[handle := timeout]
      && timeout.jobId !in timers && activeTimers == timers[timeout.jobId := Timer(handle, timeout.due)]
    }

    static predicate IsPaused(machine: JobStateMachine, jobId: string)
      reads machine
    {
      machine.current.Some? && machine.current.value.jobId == jobId && machine.current.value.status == PausedQuota
    }

    /** The timeout of a paused job, for a reset epoch that is known: the job waits again, or it is moved on. */
    method ResumeOrWait(handle: nat, timeout: Timeout, machine: JobStateMachine, mirror: Mirror, epoch: int, at: int, writes: Writes,
                        ghost others: map<nat, Timeout>, ghost timers: map<string, Timer>)
      requires Waiting(handle, timeout, others, timers) && IsPaused(machine, timeout.jobId)
      requires timeout.provider in mirror && mirror[timeout.provider] == Some(epoch) && epoch != 0
      modifies this, machine
      ensures at < epoch ==>
                && Waiting(old(nextHandle), timeout.(due := DueAt(at, epoch)), others, timers)
                && IsPaused(machine, timeout.jobId)
      ensures epoch <= at ==>
                && Valid() && live == others && activeTimers == timers
                && machine.current.Some? && machine.current.value.jobId == timeout.jobId
                && machine.current.value.status == if writes == BOTH_WRITTEN then Running else PausedQuota
    {
      assert live - {handle} == others;
      assert activeTimers - {timeout.jobId} == timers;
      assert old(nextHandle) !in others;
      OnTimeout(handle, machine, mirror, at, writes);
    }

    /** The host's view of one paused job whose reset epoch stays where it is: each timeout comes `lateness` ms late. The
        timeouts of other jobs, however many are pending, stay as they are, and an earlier timer of the job is replaced. */
    method WaitForReset(provider: string, machine: JobStateMachine, mirror: Mirror, start: int, epoch: int,
                        d: nat, lateness: seq<nat>, saveOk: bool, writes: seq<Writes>)
      returns (at: int, reschedules: nat)
      requires Valid()
      requires machine.current.Some? && machine.current.value.status == PausedQuota
      requires provider in mirror && mirror[provider] == Some(epoch) && start < epoch && epoch != 0
      requires |lateness| == |writes| == 3 && forall i | 0 <= i < 3 :: lateness[i] <= d
      modifies this, machine
      ensures Valid()
      ensures epoch <= at < epoch + 5000 + d && reschedules <= 2
      ensures var jobId := old(machine.current).value.jobId;
              activeTimers == old(activeTimers) - {jobId} && live == old(Others(machine.current.value.jobId))
      ensures machine.current.Some? && machine.current.value.jobId == old(machine.current).value.jobId
      ensures machine.current.value.status == if writes[reschedules] == BOTH_WRITTEN then Running else PausedQuota
    {
      var jobId := machine.current.value.jobId;
      ghost var others, timers := Others(jobId), activeTimers - {jobId};
      var handle := nextHandle;
      var due := ScheduleAutoResume(provider, machine, mirror, start, saveOk);
      at, reschedules := start, 0;
      while true
        invariant Waiting(handle, Timeout(jobId, provider, DueAt(at, epoch)), others, timers)
        invariant IsPaused(machine, jobId)
        invariant reschedules <= 2 && at < epoch
        invariant 0 < reschedules ==> epoch - RESUME_BUFFER_MS + (reschedules - 1) * MIN_RESUME_DELAY_MS <= at
        decreases 3 - reschedules
      {
        var next := nextHandle;
        var timeout := Timeout(jobId, provider, DueAt(at, epoch));
        at := DueAt(at, epoch) + lateness[reschedules];
        ResumeOrWait(handle, timeout, machine, mirror, epoch, at, writes[reschedules], others, timers);
        if epoch <= at { return; }
        reschedules := reschedules + 1;
        handle := next;
      }
    }
  }
}
