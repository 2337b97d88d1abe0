/**
  The countdown of a pending question (harness/pending-countdown.ts).

  Everything the outside world may do is data: `Reaction` says which public
  methods a callback calls back into, in which order, and whether it throws in
  the end; those calls carry the reactions of the callbacks they trigger in
  turn. A method is verified for every such tree, so for every bounded
  re-entrancy. `log` records every call of a callback.

  A timer is named by the generation its closure captured; `live` are the
  timers the host still runs.
 */
module Countdown {
  import opened Common

  // ---- Deadlines ----

  /** A JavaScript number; finite ones are exact here. */
  datatype Num = Finite(value: real) | NaN | PosInfinity | NegInfinity

  function MaxReal(a: real, b: real): real {
    if a < b then b else a
  }

  /** The deadline is the start plus the wait; an unusable start counts as zero, an unusable or negative wait as none. */
  function DecisionDeadlineAt(startedAt: Num, waitMinutes: Num): (deadline: real)
    ensures startedAt.Finite? ==> startedAt.value <= deadline
    ensures !waitMinutes.Finite? || waitMinutes.value <= 0.0 ==>
              deadline == if startedAt.Finite? then startedAt.value else 0.0
    ensures waitMinutes.Finite? && 0.0 < waitMinutes.value ==>
              (deadline - if startedAt.Finite? then startedAt.value else 0.0) / 60000.0 == waitMinutes.value
  {
    var minutes := if waitMinutes.Finite? then MaxReal(0.0, waitMinutes.value) else 0.0;
    var started := if startedAt.Finite? then startedAt.value else 0.0;
    started + minutes * 60000.0
  }

  /** `now() + recheckIntervalMs`, which nothing guards. */
  function RecheckDeadlineAt(clock: real, recheckIntervalMs: Num): Num {
    if recheckIntervalMs.Finite? then Finite(clock + recheckIntervalMs.value) else recheckIntervalMs
  }

  /** `Math.max(0, deadline - now)`, which keeps NaN. */
  function Remaining(deadline: Num, clock: real): Num {
    match deadline
    case Finite(value) => Finite(MaxReal(0.0, value - clock))
    case NegInfinity => Finite(0.0)
    case _ => deadline
  }

  /** A deadline is reached when no time remains. */
  predicate IsDue(deadline: Num, clock: real) {
    var remaining := Remaining(deadline, clock);
    remaining.Finite? && remaining.value <= 0.0
  }

  /** When a recheck can fire: at every time from its interval on, at once when that is minus infinity, and never when it
      is NaN or infinity, so that only those two wait for ever. */
  lemma RecheckFiresIff(clock: real, recheckIntervalMs: Num)
    ensures forall at: real :: IsDue(RecheckDeadlineAt(clock, recheckIntervalMs), at) <==>
              recheckIntervalMs.NegInfinity? || (recheckIntervalMs.Finite? && clock + recheckIntervalMs.value <= at)
    ensures (exists at: real :: clock <= at && IsDue(RecheckDeadlineAt(clock, recheckIntervalMs), at)) <==>
              recheckIntervalMs.Finite? || recheckIntervalMs.NegInfinity?
  {
    if recheckIntervalMs.Finite? {
      assert IsDue(RecheckDeadlineAt(clock, recheckIntervalMs), clock + MaxReal(0.0, recheckIntervalMs.value));
    } else if recheckIntervalMs.NegInfinity? {
      assert IsDue(RecheckDeadlineAt(clock, recheckIntervalMs), clock);
    }
  }

  // ---- What the callbacks do ----

  datatype Reaction = Reaction(calls: seq<Call>, throws: bool)

  datatype Call =
    | CallStart(requestId: string, startedAt: Num, host: BeginHost)
    | CallStartRecheck(requestId: string, clock: real, host: BeginHost)
    | CallStop(onStop: Reaction)

  datatype BeginHost = BeginHost(timerFails: bool, onStop: Reaction, tick: TickHost)

  /** The answers of one tick: `onStop` belongs to its first stop, `onLateStop` to the one after a failing decision. */
  datatype TickHost = TickHost(
    isPending: Reaction, pending: bool, clock: real,
    render: Reaction, onDeadline: Reaction, onStop: Reaction, onLateStop: Reaction)

  /** What the host does between callbacks. */
  datatype HostAction = Calls(calls: seq<Call>) | TimerTick(generation: nat, host: TickHost)

  predicate Quiet(r: Reaction) {
    r.calls == [] && !r.throws
  }

  /** Callbacks that do not call back into the countdown; they may throw. */
  predicate Plain(h: TickHost) {
    && h.isPending.calls == [] && h.render.calls == [] && h.onDeadline.calls == []
    && h.onStop.calls == [] && h.onLateStop.calls == []
  }

  // ---- State and history ----

  datatype Mode = Initial | Recheck

  datatype Binding = Binding(requestId: string, deadlineAt: Num, mode: Mode)

  datatype Event =
    | Asked(generation: nat, requestId: string)
    | Rendered(generation: nat, requestId: string, remaining: Num, at: real)
    // The decision starts; `owned` says whether the countdown still owns the wait then.
    | Due(generation: nat, requestId: string, at: real, owned: bool)
    | Stopped(stoppedId: Option<string>)
    | Reported

  datatype State = State(
    handle: Option<nat>, binding: Option<Binding>, generation: nat, engaged: bool, deadlineFired: bool,
    live: set<nat>, bindings: map<nat, Binding>, log: seq<Event>)

  /** An event of a tick talks about the binding of its generation, and shows the time that binding has left. */
  ghost predicate Truthful(e: Event, bindings: map<nat, Binding>) {
    match e
    case Asked(g, id) => g in bindings && id == bindings[g].requestId
    case Rendered(g, id, remaining, at) =>
      g in bindings && id == bindings[g].requestId && remaining == Remaining(bindings[g].deadlineAt, at)
    case Due(g, id, at, _) => g in bindings && id == bindings[g].requestId && IsDue(bindings[g].deadlineAt, at)
    case Stopped(_) => true
    case Reported => true
  }

  ghost predicate Faithful(log: seq<Event>, bindings: map<nat, Binding>) {
    && (forall i | 0 <= i < |log| :: Truthful(log[i], bindings))
    && (forall i, j | 0 <= i < j < |log| && log[i].Due? && log[j].Due? :: log[i].generation != log[j].generation)
  }

  /** The decision of generation `g` was triggered. */
  ghost predicate WasDue(log: seq<Event>, g: nat) {
    exists i | 0 <= i < |log| :: log[i].Due? && log[i].generation == g
  }

  ghost predicate Decided(log: seq<Event>, g: nat, requestId: string, at: real, owned: bool) {
    exists i | 0 <= i < |log| :: log[i] == Due(g, requestId, at, owned)
  }

  /** What holds at every callback and between calls. */
  ghost predicate Sound(s: State) {
    && (s.engaged <==> s.binding.Some?)
    && (s.engaged ==> (s.deadlineFired <==> s.handle.None?))
    && (!s.engaged ==> !s.deadlineFired && s.handle.None?)
    && (s.handle.Some? ==> s.handle.value == s.generation)
    && s.live == (if s.handle.Some? then {s.handle.value} else {})
    && (s.engaged ==> s.generation in s.bindings && s.bindings[s.generation] == s.binding.value)
    && (forall g | g in s.bindings :: g <= s.generation)
    && Faithful(s.log, s.bindings)
    && (WasDue(s.log, s.generation) ==> s.deadlineFired)
  }

  /** `later` follows `earlier` by calls of public methods: history only grows, and without a new generation nothing
      happened at all. Events of ticks belong to generations from `first` on. */
  ghost predicate Follows(earlier: State, later: State, first: nat) {
    && earlier.generation <= later.generation
    && earlier.log <= later.log
    && (forall g | g in earlier.bindings :: g in later.bindings && later.bindings[g] == earlier.bindings[g])
    && (forall i | |earlier.log| <= i < |later.log| && !later.log[i].Stopped? && !later.log[i].Reported? ::
          first <= later.log[i].generation)
  }

  ghost predicate Reentered(earlier: State, later: State) {
    && Follows(earlier, later, earlier.generation + 1)
    && (earlier.generation == later.generation ==> later == earlier)
  }

  lemma FollowsTransitive(a: State, b: State, c: State, first: nat, second: nat)
    requires Follows(a, b, first) && Follows(b, c, second) && first <= second
    ensures Follows(a, c, first)
  {
  }

  /** Under a monotone clock the time shown for one binding never increases, as far as it is a number at all. */
  lemma RemainingNeverIncreases(log: seq<Event>, bindings: map<nat, Binding>, i: nat, j: nat)
    requires Faithful(log, bindings)
    requires i < |log| && j < |log| && log[i].Rendered? && log[j].Rendered?
    requires log[i].generation == log[j].generation && log[i].at <= log[j].at
    ensures log[i].remaining.Finite? <==> log[j].remaining.Finite?
    ensures if log[i].remaining.Finite? then 0.0 <= log[j].remaining.value <= log[i].remaining.value
            else log[j].remaining == log[i].remaining
  {
    assert Truthful(log[i], bindings) && Truthful(log[j], bindings);
  }

  /** The time shown for a binding is the time its deadline has left: together with the moment of drawing it makes the
      deadline, and it is zero from the deadline on; an interval without a number shows none. */
  lemma ShownTimeMakesTheDeadline(log: seq<Event>, bindings: map<nat, Binding>, i: nat)
    requires Faithful(log, bindings) && i < |log| && log[i].Rendered?
    ensures log[i].generation in bindings && log[i].requestId == bindings[log[i].generation].requestId
    ensures var deadline, at, remaining := bindings[log[i].generation].deadlineAt, log[i].at, log[i].remaining;
            match deadline
            case Finite(d) => remaining.Finite? && (if at <= d then at + remaining.value == d else remaining.value == 0.0)
            case NaN => remaining == NaN
            case PosInfinity => remaining == PosInfinity
            case NegInfinity => remaining == Finite(0.0)
  {
    assert Truthful(log[i], bindings);
  }

  /** A decision belongs to its binding and never starts before the deadline of that binding. */
  lemma DecisionIsNotEarly(log: seq<Event>, bindings: map<nat, Binding>, i: nat)
    requires Faithful(log, bindings) && i < |log| && log[i].Due?
    ensures log[i].generation in bindings && log[i].requestId == bindings[log[i].generation].requestId
    ensures var deadline := bindings[log[i].generation].deadlineAt;
            deadline.NegInfinity? || (deadline.Finite? && deadline.value <= log[i].at)
    ensures forall j | 0 <= j < |log| && j != i && log[j].Due? :: log[j].generation != log[i].generation
  {
    assert Truthful(log[i], bindings);
  }

  // ---- The steps between two callbacks ----

  function Logged(s: State, e: Event): State {
    s.(log := s.log + [e])
  }

  function Reports(s: State, throws: bool): State {
    if throws then Logged(s, Reported) else s
  }

  /** A stop, up to what its `onStop` does. */
  function AfterStop(s: State): State {
    Logged(
      s.(handle := None, binding := None, generation := s.generation + 1, engaged := false, deadlineFired := false, live := {}),
      Stopped(if s.binding.Some? then Some(s.binding.value.requestId) else None))
  }

  /** A new binding with its timer running, before its first tick. */
  function Armed(s: State, b: Binding): State {
    var g := s.generation + 1;
    s.(handle := Some(g), binding := Some(b), generation := g, engaged := true, deadlineFired := false, live := {g},
       bindings := s.bindings[g := b])
  }

  /** A new binding whose timer could not be created. */
  function NotArmed(s: State, b: Binding): State {
    var g := s.generation + 1;
    Logged(
      s.(handle := None, binding := None, generation := g, engaged := false, deadlineFired := false, live := {},
         bindings := s.bindings[g := b]),
      Stopped(Some(b.requestId)))
  }

  /** The question of the running countdown is checked. */
  function Asking(s: State): State {
    if s.binding.Some? then Logged(s, Asked(s.generation, s.binding.value.requestId)) else s
  }

  /** The time the running countdown has left is drawn. */
  function Shown(s: State, clock: real): State {
    if s.binding.Some? then
      var b := s.binding.value;
      Logged(s, Rendered(s.generation, b.requestId, Remaining(b.deadlineAt, clock), clock))
    else s
  }

  /** The deadline is reached: the timer is gone, the wait is still owned. */
  function Fired(s: State): State {
    s.(handle := None, live := {}, deadlineFired := true)
  }

  // ---- Whole outcomes, for callbacks that do not call back ----

  /** A failure: the countdown stops, then the failure is reported. */
  function GivenUp(s: State, onStop: Reaction): State {
    Logged(Reports(AfterStop(s), onStop.throws), Reported)
  }

  function AfterRender(s: State, h: TickHost): State {
    var shown := Shown(s, h.clock);
    if h.render.throws then GivenUp(shown, h.onStop) else shown
  }

  /** At the deadline the decision starts even when the row could not be drawn. */
  function AfterDeadline(s: State, h: TickHost): State
    requires s.binding.Some?
  {
    var due := Logged(AfterRender(Fired(s), h), Due(s.generation, s.binding.value.requestId, h.clock, !h.render.throws));
    if h.onDeadline.throws then GivenUp(due, h.onLateStop) else due
  }

  function AfterCountDown(s: State, h: TickHost): State
    requires s.binding.Some?
  {
    if IsDue(s.binding.value.deadlineAt, h.clock) then AfterDeadline(s, h) else AfterRender(s, h)
  }

  function AfterAnswer(s: State, h: TickHost): State
    requires s.binding.Some?
  {
    if h.isPending.throws then GivenUp(s, h.onStop)
    else if !h.pending then Reports(AfterStop(s), h.onStop.throws)
    else AfterCountDown(s, h)
  }

  function AfterTick(s: State, h: TickHost): State
    requires s.binding.Some?
  {
    AfterAnswer(Asking(s), h)
  }

  /** A new wait: its first tick runs at once, unless its timer could not be created. */
  function AfterBegin(s: State, b: Binding, h: BeginHost): State {
    if h.timerFails then Logged(Reports(NotArmed(s, b), h.onStop.throws), Reported)
    else AfterTick(Armed(s, b), h.tick)
  }

  // ---- The same outcomes as lists of what the outside sees ----

  /** A stop of the request. */
  function StopEvents(requestId: Option<string>, onStop: Reaction): seq<Event> {
    [Stopped(requestId)] + if onStop.throws then [Reported] else []
  }

  /** A failing callback: a stop, then the report. */
  function FailureEvents(requestId: Option<string>, onStop: Reaction): seq<Event> {
    StopEvents(requestId, onStop) + [Reported]
  }

  function RenderEvents(b: Binding, g: nat, h: TickHost): seq<Event> {
    [Rendered(g, b.requestId, Remaining(b.deadlineAt, h.clock), h.clock)]
    + if h.render.throws then FailureEvents(Some(b.requestId), h.onStop) else []
  }

  /** The decision comes after the row in any case; a failing one stops what is left of the wait. */
  function DecisionEvents(b: Binding, g: nat, h: TickHost): seq<Event> {
    [Due(g, b.requestId, h.clock, !h.render.throws)]
    + if h.onDeadline.throws then FailureEvents(if h.render.throws then None else Some(b.requestId), h.onLateStop) else []
  }

  predicate Reached(b: Binding, clock: real) {
    b.deadlineAt.NegInfinity? || (b.deadlineAt.Finite? && b.deadlineAt.value <= clock)
  }

  function CountDownEvents(b: Binding, g: nat, h: TickHost): seq<Event> {
    RenderEvents(b, g, h) + if Reached(b, h.clock) then DecisionEvents(b, g, h) else []
  }

  function AnswerEvents(b: Binding, g: nat, h: TickHost): seq<Event> {
    if h.isPending.throws then FailureEvents(Some(b.requestId), h.onStop)
    else if !h.pending then StopEvents(Some(b.requestId), h.onStop)
    else CountDownEvents(b, g, h)
  }

  function TickEvents(b: Binding, g: nat, h: TickHost): seq<Event> {
    [Asked(g, b.requestId)] + AnswerEvents(b, g, h)
  }

  lemma GivenUpTells(s: State, onStop: Reaction)
    ensures GivenUp(s, onStop).log == s.log + FailureEvents(if s.binding.Some? then Some(s.binding.value.requestId) else None, onStop)
  {
  }

  lemma RenderTells(s: State, h: TickHost)
    requires s.binding.Some?
    ensures AfterRender(s, h).log == s.log + RenderEvents(s.binding.value, s.generation, h)
    ensures AfterRender(s, h).binding == if h.render.throws then None else s.binding
  {
    GivenUpTells(Shown(s, h.clock), h.onStop);
  }

  lemma DeadlineTells(s: State, h: TickHost)
    requires s.binding.Some?
    ensures AfterDeadline(s, h).log == s.log + (RenderEvents(s.binding.value, s.generation, h) + DecisionEvents(s.binding.value, s.generation, h))
  {
    RenderTells(Fired(s), h);
    var due := Logged(AfterRender(Fired(s), h), Due(s.generation, s.binding.value.requestId, h.clock, !h.render.throws));
    GivenUpTells(due, h.onLateStop);
  }

  lemma CountDownTells(s: State, h: TickHost)
    requires s.binding.Some?
    ensures AfterCountDown(s, h).log == s.log + CountDownEvents(s.binding.value, s.generation, h)
  {
    if Reached(s.binding.value, h.clock) {
      DeadlineTells(s, h);
    } else {
      RenderTells(s, h);
    }
  }

  lemma AnswerTells(s: State, h: TickHost)
    requires s.binding.Some?
    ensures AfterAnswer(s, h).log == s.log + AnswerEvents(s.binding.value, s.generation, h)
  {
    GivenUpTells(s, h.onStop);
    CountDownTells(s, h);
  }

  /** Everything one tick of a live timer tells the outside, in order, when no callback calls back. */
  lemma TickTells(s: State, h: TickHost)
    requires s.binding.Some?
    ensures AfterTick(s, h).log == s.log + TickEvents(s.binding.value, s.generation, h)
  {
    AnswerTells(Asking(s), h);
    var b, g := s.binding.value, s.generation;
    FirstOf(s.log, Asked(g, b.requestId), AnswerEvents(b, g, h), AfterTick(s, h).log);
  }

  lemma FirstOf(log: seq<Event>, e: Event, rest: seq<Event>, whole: seq<Event>)
    requires whole == (log + [e]) + rest
    ensures whole == log + ([e] + rest)
  {
  }

  /** And what it leaves: a wait that goes on with its timer, a wait that is decided and has none, or nothing at all. */
  lemma TickLeaves(s: State, h: TickHost)
    requires s.binding.Some? && s.engaged && s.handle == Some(s.generation) && s.live == {s.generation} && !s.deadlineFired
    ensures var due := Reached(s.binding.value, h.clock);
            var stops := h.isPending.throws || !h.pending || h.render.throws || (due && h.onDeadline.throws);
            var after := AfterTick(s, h);
            if stops then !after.engaged && after.binding == None && after.handle == None && after.live == {} && !after.deadlineFired
            else && after.engaged && after.binding == s.binding && after.generation == s.generation && after.deadlineFired == due
                 && after.handle == (if due then None else s.handle) && after.live == (if due then {} else s.live)
  {
  }

  /** A new wait whose timer cannot be created is given up: `onStop` learns the request, the failure is reported, and
      nothing is owned. */
  lemma NoTimerTells(s: State, b: Binding, h: BeginHost)
    requires h.timerFails
    ensures var after := AfterBegin(s, b, h);
            && after.log == s.log + FailureEvents(Some(b.requestId), h.onStop)
            && !after.engaged && after.binding == None && after.handle == None && after.live == {}
  {
    assert NotArmed(s, b).log == s.log + [Stopped(Some(b.requestId))];
  }

  /** With a timer the first tick follows at once, on the new binding. */
  lemma BeginTells(s: State, b: Binding, h: BeginHost)
    requires !h.timerFails
    ensures AfterBegin(s, b, h).log == s.log + TickEvents(b, s.generation + 1, h.tick)
  {
    TickTells(Armed(s, b), h.tick);
  }

  /** The promise that fails: a row that throws at the deadline stops the wait, and the decision starts all the same. */
  lemma DecisionAfterTheStop()
    ensures var b := Binding("q", Finite(5.0), Initial);
            var s := Armed(State(None, None, 0, false, false, {}, map[], []), b);
            var quiet := Reaction([], false);
            var h := TickHost(quiet, true, 5.0, Reaction([], true), quiet, quiet, quiet);
            && Sound(s)
            && AfterTick(s, h).log ==
                 [Asked(1, "q"), Rendered(1, "q", Finite(0.0), 5.0), Stopped(Some("q")), Reported, Due(1, "q", 5.0, false)]
            && !AfterTick(s, h).engaged
  {
  }

  // ---- Every step is sound ----

  lemma LoggingIsSound(s: State, e: Event)
    requires Sound(s) && Truthful(e, s.bindings) && !e.Due?
    ensures Sound(Logged(s, e))
  {
    var log := s.log + [e];
    assert forall i | 0 <= i < |log| && log[i].Due? :: i < |s.log| && s.log[i] == log[i];
  }

  lemma DueIsSound(s: State, e: Event)
    requires Sound(s) && e.Due? && Truthful(e, s.bindings)
    requires !WasDue(s.log, e.generation)
    requires e.generation == s.generation ==> s.deadlineFired
    ensures Sound(Logged(s, e))
  {
    var log := s.log + [e];
    assert forall i | 0 <= i < |s.log| :: log[i] == s.log[i];
  }

  /** The history of a tick at the deadline: the row, what drawing it did, the decision, and what that did. */
  lemma DecisionFollows(s: State, clock: real, rendered: State, e: Event, later: State)
    requires Follows(Shown(Fired(s), clock), rendered, s.generation + 1)
    requires e.Due? && e.generation == s.generation
    requires Follows(Logged(rendered, e), later, rendered.generation + 1)
    ensures Follows(s, later, s.generation) && Shown(s, clock).log <= later.log
    ensures Decided(later.log, e.generation, e.requestId, e.at, e.owned)
  {
    var due := Logged(rendered, e);
    assert due.log[|rendered.log|] == e;
    FollowsTransitive(s, Shown(Fired(s), clock), rendered, s.generation, s.generation + 1);
    FollowsTransitive(s, rendered, due, s.generation, s.generation);
    FollowsTransitive(s, due, later, s.generation, rendered.generation + 1);
  }

  lemma StoppingIsSound(s: State)
    requires Sound(s)
    ensures Sound(AfterStop(s)) && Follows(s, AfterStop(s), s.generation + 1)
  {
    var t := s.(handle := None, binding := None, generation := s.generation + 1, engaged := false, deadlineFired := false, live := {});
    assert forall i | 0 <= i < |s.log| && s.log[i].Due? :: Truthful(s.log[i], s.bindings);
    assert Sound(t);
    LoggingIsSound(t, AfterStop(s).log[|s.log|]);
  }

  lemma NewBindingIsFaithful(s: State, b: Binding)
    requires Sound(s)
    ensures Faithful(s.log, s.bindings[s.generation + 1 := b])
    ensures !WasDue(s.log, s.generation + 1)
  {
    assert forall i | 0 <= i < |s.log| :: Truthful(s.log[i], s.bindings);
  }

  lemma ArmingIsSound(s: State, b: Binding)
    requires Sound(s)
    ensures Sound(Armed(s, b)) && Follows(s, Armed(s, b), s.generation + 1)
    ensures Sound(NotArmed(s, b)) && Follows(s, NotArmed(s, b), s.generation + 1)
  {
    NewBindingIsFaithful(s, b);
    var t := Armed(s, b).(handle := None, binding := None, engaged := false, live := {});
    assert Sound(t);
    LoggingIsSound(t, Stopped(Some(b.requestId)));
  }

  class PendingQuestionCountdown {
    const waitMinutes: Num
    const recheckIntervalMs: Num
    var handle: Option<nat>
    var binding: Option<Binding>
    var generation: nat
    var engaged: bool
    var deadlineFired: bool
    ghost var live: set<nat>
    ghost var bindings: map<nat, Binding>
    ghost var log: seq<Event>

    ghost function Now(): State
      reads this
    {
      State(handle, binding, generation, engaged, deadlineFired, live, bindings, log)
    }

    constructor (waitMinutes: Num, recheckIntervalMs: Num)
      ensures Sound(Now()) && !engaged && log == [] && generation == 0
      ensures this.waitMinutes == waitMinutes && this.recheckIntervalMs == recheckIntervalMs
    {
      this.waitMinutes, this.recheckIntervalMs := waitMinutes, recheckIntervalMs;
      handle, binding, generation, engaged, deadlineFired := None, None, 0, false, false;
      live, bindings, log := {}, map[], [];
    }

    /** Runs the public calls of a callback; the result says whether it throws afterwards. */
    method React(r: Reaction) returns (threw: bool)
      requires Sound(Now())
      modifies this
      ensures Sound(Now()) && Reentered(old(Now()), Now())
      ensures r.calls == [] ==> Now() == old(Now())
      ensures r.calls != [] ==> old(generation) < generation
      ensures threw == r.throws
      decreases r, 0
    {
      for i := 0 to |r.calls|
        invariant Sound(Now()) && Reentered(old(Now()), Now())
        invariant i == 0 ==> Now() == old(Now())
        invariant 0 < i ==> old(generation) < generation
      {
        ghost var before := Now();
        match r.calls[i]
        case CallStart(requestId, startedAt, host) => Start(requestId, startedAt, host);
        case CallStartRecheck(requestId, clock, host) => StartRecheck(requestId, clock, host);
        case CallStop(onStop) => Stop(onStop);
        FollowsTransitive(old(Now()), before, Now(), old(generation) + 1, before.generation + 1);
      }
      threw := r.throws;
    }

    method Start(requestId: string, startedAt: Num, host: BeginHost)
      requires Sound(Now())
      modifies this
      ensures Sound(Now()) && Reentered(old(Now()), Now()) && old(generation) < generation
      ensures old(generation) + 1 in bindings
      ensures bindings[old(generation) + 1] == Binding(requestId, Finite(DecisionDeadlineAt(startedAt, waitMinutes)), Initial)
      ensures host.onStop.calls == [] && Plain(host.tick) ==>
                Now() == AfterBegin(old(Now()), Binding(requestId, Finite(DecisionDeadlineAt(startedAt, waitMinutes)), Initial), host)
      decreases host, 2
    {
      Begin(Binding(requestId, Finite(DecisionDeadlineAt(startedAt, waitMinutes)), Initial), host);
    }

    method StartRecheck(requestId: string, clock: real, host: BeginHost)
      requires Sound(Now())
      modifies this
      ensures Sound(Now()) && Reentered(old(Now()), Now()) && old(generation) < generation
      ensures old(generation) + 1 in bindings
      ensures bindings[old(generation) + 1] == Binding(requestId, RecheckDeadlineAt(clock, recheckIntervalMs), Recheck)
      ensures host.onStop.calls == [] && Plain(host.tick) ==>
                Now() == AfterBegin(old(Now()), Binding(requestId, RecheckDeadlineAt(clock, recheckIntervalMs), Recheck), host)
      decreases host, 2
    {
      Begin(Binding(requestId, RecheckDeadlineAt(clock, recheckIntervalMs), Recheck), host);
    }

    method Stop(onStop: Reaction)
      requires Sound(Now())
      modifies this
      ensures Sound(Now()) && Reentered(old(Now()), Now()) && old(generation) < generation
      ensures AfterStop(old(Now())).log <= log
      ensures onStop.calls == [] ==> Now() == Reports(AfterStop(old(Now())), onStop.throws)
      decreases onStop, 2
    {
      var requestId := if binding.Some? then Some(binding.value.requestId) else None;
      engaged := false;
      deadlineFired := false;
      generation := generation + 1;
      ClearTimer();
      binding := None;
      log := log + [Stopped(requestId)];
      StoppingIsSound(old(Now()));
      assert Now() == AfterStop(old(Now()));
      SafeCall(onStop);
    }

    /** Runs a callback; its failure is reported and does not escape. */
    method SafeCall(r: Reaction)
      requires Sound(Now())
      modifies this
      ensures Sound(Now()) && Follows(old(Now()), Now(), old(generation) + 1)
      ensures r.calls == [] ==> Now() == Reports(old(Now()), r.throws)
      decreases r, 1
    {
      var threw := React(r);
      if threw { Report(); }
    }

    method Report()
      requires Sound(Now())
      modifies `log
      ensures Sound(Now()) && Now() == Logged(old(Now()), Reported)
    {
      LoggingIsSound(Now(), Reported);
      log := log + [Reported];
    }

    /** Releases the timer, if there is one. */
    method ClearTimer()
      modifies `handle, `live
      ensures handle == None
      ensures live == if old(handle).Some? then old(live) - {old(handle).value} else old(live)
    {
      if handle.None? { return; }
      live := live - {handle.value};
      handle := None;
    }

    /** `this.stop(); this.report(error)` */
    method StopAndReport(onStop: Reaction)
      requires Sound(Now())
      modifies this
      ensures Sound(Now()) && Reentered(old(Now()), Now()) && old(generation) < generation
      ensures AfterStop(old(Now())).log <= log
      ensures onStop.calls == [] ==> Now() == GivenUp(old(Now()), onStop)
      decreases onStop, 3
    {
      Stop(onStop);
      ghost var stopped := Now();
      Report();
      FollowsTransitive(old(Now()), stopped, Now(), old(generation) + 1, old(generation) + 1);
    }

    method Begin(b: Binding, host: BeginHost)
      requires Sound(Now())
      modifies this
      ensures Sound(Now()) && Reentered(old(Now()), Now()) && old(generation) < generation
      ensures old(generation) + 1 in bindings && bindings[old(generation) + 1] == b
      ensures host.timerFails ==> NotArmed(old(Now()), b).log <= log
      ensures host.onStop.calls == [] && Plain(host.tick) ==> Now() == AfterBegin(old(Now()), b, host)
      decreases host, 1
    {
      ArmingIsSound(Now(), b);
      Rebind(b);
      var g := generation;
      if host.timerFails {
        engaged := false;
        binding := None;
        log := log + [Stopped(Some(b.requestId))];
        assert Now() == NotArmed(old(Now()), b);
        GiveUp(host.onStop);
        FollowsTransitive(old(Now()), NotArmed(old(Now()), b), Now(), old(generation) + 1, old(generation) + 2);
      } else {
        handle := Some(g);
        live := live + {g};
        assert Now() == Armed(old(Now()), b);
        Tick(g, host.tick);
        FollowsTransitive(old(Now()), Armed(old(Now()), b), Now(), old(generation) + 1, old(generation) + 1);
      }
    }

    /** The new binding, before its timer is created. */
    method Rebind(b: Binding)
      requires Sound(Now())
      modifies this
      ensures Now() == Armed(old(Now()), b).(handle := None, live := {})
    {
      ClearTimer();
      generation := generation + 1;
      binding := Some(b);
      bindings := bindings[generation := b];
      engaged := true;
      deadlineFired := false;
    }

    /** The timer of a new binding could not be created. */
    method GiveUp(onStop: Reaction)
      requires Sound(Now())
      modifies this
      ensures Sound(Now()) && Follows(old(Now()), Now(), old(generation) + 1)
      ensures onStop.calls == [] ==> Now() == Logged(Reports(old(Now()), onStop.throws), Reported)
      decreases onStop, 2
    {
      SafeCall(onStop);
      ghost var called := Now();
      Report();
      FollowsTransitive(old(Now()), called, Now(), old(generation) + 1, old(generation) + 1);
    }

    /** The tick of a live timer that starts the decision. */
    static ghost predicate DecidesAt(s: State, g: nat, host: TickHost) {
      && s.binding.Some? && g == s.generation
      && host.pending && Quiet(host.isPending)
      && IsDue(s.binding.value.deadlineAt, host.clock)
    }

    /** One tick. The host only runs timers that were not cleared, so a tick of the current generation is live. */
    method Tick(g: nat, host: TickHost)
      requires Sound(Now())
      requires g == generation ==> g in live
      modifies this
      ensures Sound(Now()) && Follows(old(Now()), Now(), old(generation))
      ensures g != old(generation) ==> Now() == old(Now())
      // The decision starts exactly at the first tick whose question is pending and whose deadline is reached, unless the
      // check whether it is pending calls back or fails ...
      ensures !WasDue(old(log), old(generation)) ==>
                (WasDue(log, old(generation)) <==> DecidesAt(old(Now()), g, host))
      // ... and the countdown still owns the wait then exactly when drawing the row neither calls back nor fails.
      ensures DecidesAt(old(Now()), g, host) ==>
                Decided(log, g, old(binding).value.requestId, host.clock, Quiet(host.render))
      ensures g == old(generation) && host.pending && Quiet(host.isPending) ==>
                Shown(Asking(old(Now())), host.clock).log <= log
      // The whole outcome, when the callbacks, failing or not, leave the countdown alone.
      ensures g == old(generation) && Plain(host) ==> Now() == AfterTick(old(Now()), host)
      // A question that is no longer pending, or whose check fails, is stopped.
      ensures g == old(generation) && (!host.pending || host.isPending.throws) && host.isPending.calls == [] ==>
                AfterStop(Asking(old(Now()))).log <= log
      decreases host, 3
    {
      if !engaged || g != generation { return; }
      var b := binding.value;
      var goesOn := AskWhetherPending(b, host);
      ghost var asked := Now();
      if goesOn { CountDown(b, host); }
      FollowsTransitive(old(Now()), Asking(old(Now())), asked, old(generation), old(generation) + 1);
      FollowsTransitive(old(Now()), asked, Now(), old(generation), old(generation));
    }

    /** The part of a tick that decides whether it goes on. */
    method AskWhetherPending(b: Binding, host: TickHost) returns (goesOn: bool)
      requires Sound(Now()) && handle.Some? && binding == Some(b)
      modifies this
      ensures Sound(Now()) && Follows(Asking(old(Now())), Now(), old(generation) + 1)
      ensures goesOn <==> host.pending && Quiet(host.isPending)
      ensures if goesOn then Now() == Asking(old(Now())) else old(generation) < generation
      ensures !goesOn && host.isPending.calls == [] ==> AfterStop(Asking(old(Now()))).log <= log
      ensures !goesOn && Plain(host) ==> Now() == AfterTick(old(Now()), host)
      decreases host, 2
    {
      var g := generation;
      LoggingIsSound(Now(), Asked(g, b.requestId));
      log := log + [Asked(g, b.requestId)];
      assert Now() == Asking(old(Now()));
      var threw := React(host.isPending);
      ghost var asked := Now();
      if threw {
        StopAndReport(host.onStop);
        FollowsTransitive(Asking(old(Now())), asked, Now(), old(generation) + 1, asked.generation + 1);
        return false;
      }
      if !host.pending {
        Stop(host.onStop);
        FollowsTransitive(Asking(old(Now())), asked, Now(), old(generation) + 1, asked.generation + 1);
        return false;
      }
      return engaged && g == generation;
    }

    /** The part of a tick that knows that its question is pending. */
    method CountDown(b: Binding, host: TickHost)
      requires Sound(Now()) && handle.Some? && binding == Some(b)
      modifies this
      ensures Sound(Now()) && Follows(old(Now()), Now(), old(generation))
      ensures Shown(old(Now()), host.clock).log <= log
      ensures WasDue(log, old(generation)) <==> IsDue(b.deadlineAt, host.clock)
      ensures IsDue(b.deadlineAt, host.clock) ==> Decided(log, old(generation), b.requestId, host.clock, Quiet(host.render))
      ensures Plain(host) ==> Now() == AfterCountDown(old(Now()), host)
      decreases host, 2
    {
      var remaining := Remaining(b.deadlineAt, host.clock);
      if remaining.Finite? && remaining.value <= 0.0 {
        Fire(b, host);
      } else {
        SafeRender(b, remaining, host);
        FollowsTransitive(old(Now()), Shown(old(Now()), host.clock), Now(), old(generation), old(generation) + 1);
        assert forall i | 0 <= i < |old(log)| :: old(log)[i] == log[i];
      }
    }

    /** The deadline is reached: the row shows zero, then the decision starts. */
    method Fire(b: Binding, host: TickHost)
      requires Sound(Now()) && handle.Some? && binding == Some(b) && IsDue(b.deadlineAt, host.clock)
      modifies this
      ensures Sound(Now()) && Follows(old(Now()), Now(), old(generation))
      ensures Shown(old(Now()), host.clock).log <= log
      ensures Decided(log, old(generation), b.requestId, host.clock, Quiet(host.render))
      ensures Plain(host) ==> Now() == AfterDeadline(old(Now()), host)
      decreases host, 1
    {
      var g := generation;
      DrawZero(b, host);
      ghost var rendered := Now();
      Announce(g, b, host.clock);
      Decide(host);
      DecisionFollows(old(Now()), host.clock, rendered, Due(g, b.requestId, host.clock, Quiet(host.render)), Now());
    }

    /** The timer goes, the wait stays owned, and the row shows zero. */
    method DrawZero(b: Binding, host: TickHost)
      requires Sound(Now()) && handle.Some? && binding == Some(b) && IsDue(b.deadlineAt, host.clock)
      modifies this
      ensures Sound(Now()) && Follows(Shown(Fired(old(Now())), host.clock), Now(), old(generation) + 1)
      ensures generation == old(generation) <==> Quiet(host.render)
      ensures generation == old(generation) ==> engaged && deadlineFired
      ensures !WasDue(log, old(generation))
      ensures Plain(host) ==> Now() == AfterRender(Fired(old(Now())), host)
      decreases host, 1, 0
    {
      ClearTimer();
      deadlineFired := true;
      ghost var fired := Now();
      assert fired == Fired(old(Now()));
      SafeRender(b, Finite(0.0), host);
    }

    /** The decision of a binding is about to start, once. */
    method Announce(g: nat, b: Binding, clock: real)
      requires Sound(Now())
      requires g in bindings && bindings[g] == b && IsDue(b.deadlineAt, clock)
      requires !WasDue(log, g) && (g == generation ==> deadlineFired)
      modifies `log
      ensures Sound(Now())
      ensures Now() == Logged(old(Now()), Due(g, b.requestId, clock, engaged && deadlineFired && generation == g))
    {
      ghost var e := Due(g, b.requestId, clock, engaged && deadlineFired && generation == g);
      DueIsSound(Now(), e);
      log := log + [e];
    }

    /** Runs the decision; a failing handler must not own the wait without a timer. */
    method Decide(host: TickHost)
      requires Sound(Now())
      modifies this
      ensures Sound(Now()) && Follows(old(Now()), Now(), old(generation) + 1)
      ensures host.onDeadline.throws ==> old(generation) < generation
      ensures host.onDeadline.calls == [] && host.onLateStop.calls == [] ==>
                Now() == if host.onDeadline.throws then GivenUp(old(Now()), host.onLateStop) else old(Now())
      decreases host, 0
    {
      var failed := React(host.onDeadline);
      if failed {
        ghost var called := Now();
        StopAndReport(host.onLateStop);
        FollowsTransitive(old(Now()), called, Now(), old(generation) + 1, called.generation + 1);
      }
    }

    /** Draws the remaining time; a failing status row stops the countdown. */
    method SafeRender(b: Binding, remaining: Num, host: TickHost)
      requires Sound(Now()) && binding == Some(b)
      requires remaining == Remaining(b.deadlineAt, host.clock)
      modifies this
      ensures Sound(Now()) && Follows(Shown(old(Now()), host.clock), Now(), old(generation) + 1)
      ensures generation == old(generation) ==> Now() == Shown(old(Now()), host.clock)
      ensures generation == old(generation) <==> Quiet(host.render)
      ensures host.render.calls == [] && host.onStop.calls == [] ==> Now() == AfterRender(old(Now()), host)
      decreases host, 0
    {
      LoggingIsSound(Now(), Rendered(generation, b.requestId, remaining, host.clock));
      log := log + [Rendered(generation, b.requestId, remaining, host.clock)];
      ghost var shown := Now();
      assert shown == Shown(old(Now()), host.clock);
      var threw := React(host.render);
      if threw {
        ghost var called := Now();
        StopAndReport(host.onStop);
        FollowsTransitive(shown, called, Now(), old(generation) + 1, called.generation + 1);
      }
    }

    /** Any run of the host: calls of the harness and ticks of timers, live or left over, in any order. */
    method Drive(actions: seq<HostAction>)
      requires Sound(Now())
      modifies this
      ensures Sound(Now()) && Follows(old(Now()), Now(), old(generation))
    {
      for i := 0 to |actions|
        invariant Sound(Now()) && Follows(old(Now()), Now(), old(generation))
      {
        ghost var before := Now();
        match actions[i]
        case Calls(calls) => var _ := React(Reaction(calls, false));
        case TimerTick(g, host) => if g < generation || handle == Some(g) { Tick(g, host); }
        FollowsTransitive(old(Now()), before, Now(), old(generation), before.generation);
      }
    }
  }
}
