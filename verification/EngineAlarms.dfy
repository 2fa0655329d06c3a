/**
 Alarms: set for a delay, they are delivered after that delay, not before, and with the event they were
 set with, unless an execution begins or another alarm is set meanwhile.
 */
module EngineAlarms {
  import opened Options
  import opened Superstates
  import opened EngineSpec
  import opened EngineTimers
  import opened EngineRuns

  /** One alarm is live: timer id, the recorded one, due at that time, to deliver that event. */
  ghost predicate Alarmed(t: Timers, id: nat, due: nat, event: Option<string>) {
    && id in t.live && t.live[id].kind == Wakeup && t.live[id].due == due && t.live[id].event == event
    && t.wakeupTimer == id && t.wakeupEvent == event
    && forall other :: other in t.live && t.live[other].kind == Wakeup ==> other == id
  }

  /** After the call that sets it, exactly one alarm is live, due in `delay`; other timers are as they were. */
  lemma AlarmIsSet(m: Model, e: Engine, delay: nat, event: Option<string>)
    requires Good(m, e.timers, ALARMS)
    ensures var t, b := e.timers, RunCall(m, e, SetWakeup(delay, event)).timers;
      && Alarmed(b, t.lastTimer + 1, t.now + delay, event)
      && Good(m, b, ALARMS) && b.now == t.now
      && (forall id :: id in t.live && t.live[id].kind != Wakeup ==> id in b.live && b.live[id] == t.live[id])
      && (forall id :: id in b.live && b.live[id].kind != Wakeup ==> id in t.live)
  {
    hide ClassEvent, Proper;
    forall id | id in e.timers.live && e.timers.live[id].kind == Wakeup
      ensures id == e.timers.wakeupTimer && id > 0
    {
      RecordedKind(m, e.timers, id);
    }
    SetAlarmKeeps(m, ALARMS, e.timers, delay, event);
  }

  // ---------------------------------------------------------------- inputs that leave it alone

  predicate SetsAlarm(call: Call) {
    call.SetWakeup?
  }

  /** An input that begins no execution, sets no alarm and does not end the engine. */
  predicate Still(e: Engine, input: Input) {
    match input
    case Tick(_) => true
    case Fire(id) => !Due(e.timers, id)
    case Command(command) => command.Other?
    case ServerMessage(_) => false
    case Application(calls, executes, _) =>
      !executes && forall i :: 0 <= i < |calls| ==> !SetsAlarm(calls[i])
  }

  function Elapsed(input: Input): nat {
    if input.Tick? then input.ms else 0
  }

  lemma PeriodLeavesAlarm(m: Model, t: Timers, k: TimerKind, interval: nat, id: nat, due: nat, event: Option<string>)
    requires Good(m, t, ALARMS) && Alarmed(t, id, due, event) && k != Wakeup
    ensures Alarmed(SetPeriod(m, t, k, interval), id, due, event)
    ensures SetPeriod(m, t, k, interval).now == t.now
  {
    hide ClassEvent, Proper;
  }

  lemma CallLeavesAlarm(m: Model, e: Engine, call: Call, id: nat, due: nat, event: Option<string>)
    requires Good(m, e.timers, ALARMS) && Alarmed(e.timers, id, due, event) && !SetsAlarm(call)
    ensures var b := RunCall(m, e, call);
      && Good(m, b.timers, ALARMS) && Alarmed(b.timers, id, due, event) && b.timers.now == e.timers.now
      && b.terminated == e.terminated && b.aborted == e.aborted
  {
    hide Good, Alarmed, SetPeriod, SetAlarm;
    match call
    case SetHeartbeat(interval) =>
      SetPeriodKeeps(m, ALARMS, e.timers, Heartbeat, interval);
      PeriodLeavesAlarm(m, e.timers, Heartbeat, interval, id, due, event);
    case SetExpiry(interval) =>
      SetPeriodKeeps(m, ALARMS, e.timers, Expiry, interval);
      PeriodLeavesAlarm(m, e.timers, Expiry, interval, id, due, event);
    case _ =>
  }

  lemma {:induction false} CallsLeaveAlarm(
      m: Model, e: Engine, calls: seq<Call>, id: nat, due: nat, event: Option<string>)
    requires Good(m, e.timers, ALARMS) && Alarmed(e.timers, id, due, event)
    requires forall i :: 0 <= i < |calls| ==> !SetsAlarm(calls[i])
    ensures var b := RunCalls(m, e, calls);
      && Good(m, b.timers, ALARMS) && Alarmed(b.timers, id, due, event) && b.timers.now == e.timers.now
      && b.terminated == e.terminated && b.aborted == e.aborted
    decreases |calls|
  {
    hide Good, Alarmed, RunCall;
    if calls != [] {
      CallLeavesAlarm(m, e, calls[0], id, due, event);
      CallsLeaveAlarm(m, RunCall(m, e, calls[0]), calls[1..], id, due, event);
    }
  }

  lemma StillLeavesAlarm(
      m: Model, w: World, e: Engine, input: Input, fuel: nat, id: nat, due: nat, event: Option<string>)
    requires Good(m, e.timers, ALARMS) && Alarmed(e.timers, id, due, event) && Still(e, input)
    requires !e.terminated && !e.aborted
    ensures var b := Step(m, w, e, input, fuel);
      && Good(m, b.timers, ALARMS) && Alarmed(b.timers, id, due, event)
      && b.timers.now == e.timers.now + Elapsed(input) && !b.terminated && !b.aborted
  {
    hide Good, RunCalls, Execute, Hear, HandleTimer;
    match input
    case Tick(ms) => TickKeeps(m, ALARMS, e.timers, ms);
    case Application(calls, _, _) => CallsLeaveAlarm(m, e, calls, id, due, event);
    case _ =>
  }

  ghost predicate StillRun(m: Model, w: World, e: Engine, stimuli: seq<Stimulus>) {
    forall n :: 0 <= n < |stimuli| ==> Still(Run(m, w, e, stimuli[..n]), stimuli[n].input)
  }

  function TimePassed(stimuli: seq<Stimulus>): nat {
    if stimuli == [] then 0
    else TimePassed(stimuli[..|stimuli| - 1]) + Elapsed(stimuli[|stimuli| - 1].input)
  }

  lemma {:induction false} StillRunLeavesAlarm(
      m: Model, w: World, e: Engine, stimuli: seq<Stimulus>, id: nat, due: nat, event: Option<string>)
    requires Good(m, e.timers, ALARMS) && Alarmed(e.timers, id, due, event) && StillRun(m, w, e, stimuli)
    requires !e.terminated && !e.aborted
    ensures var b := Run(m, w, e, stimuli);
      && Good(m, b.timers, ALARMS) && Alarmed(b.timers, id, due, event)
      && b.timers.now == e.timers.now + TimePassed(stimuli) && !b.terminated && !b.aborted
  {
    hide Good, Alarmed, Still, Step, Elapsed;
    if stimuli != [] {
      var n := |stimuli| - 1;
      assert forall i :: 0 <= i < n ==> stimuli[..n][..i] == stimuli[..i] && stimuli[..n][i] == stimuli[i];
      StillRunLeavesAlarm(m, w, e, stimuli[..n], id, due, event);
      assert Still(Run(m, w, e, stimuli[..n]), stimuli[n].input);
      StillLeavesAlarm(m, w, Run(m, w, e, stimuli[..n]), stimuli[n].input, stimuli[n].fuel, id, due, event);
    }
  }

  // ---------------------------------------------------------------- delivery

  /** An execution with this event: the first pass handles it, in the state the machine was in. */
  ghost predicate Executes(m: Model, w: World, e: Engine, b: Engine, event: Option<string>, fuel: nat) {
    exists p: Engine ::
      && p.nextEvent == event && p.state == e.state && p.log == e.log && p.invoked == e.invoked
      && p.terminated == e.terminated && p.fsmStopped == e.fsmStopped && p.aborted == e.aborted
      && b == if fuel > 0 && Running(p) then Loop(m, w, Pass(m, w, p), fuel - 1) else p
  }

  lemma ExecuteExecutes(m: Model, w: World, e: Engine, event: Option<string>, fuel: nat)
    ensures Executes(m, w, e, Execute(m, w, e, event, fuel), event, fuel)
  {
    hide Pass, Running, Cancel;
    var p := Prepare(e, event);
    assert p.nextEvent == event;
  }

  /**
   An alarm set for `delay` milliseconds, while nothing begins an execution or sets it again: before that
   time has passed the reactor cannot deliver it; from then on delivering it executes exactly the event
   it was set with, and it is gone.
   */
  lemma AlarmIsDeliveredOnTime(
      m: Model, w: World, e: Engine, delay: nat, event: Option<string>, stimuli: seq<Stimulus>, fuel: nat)
    requires Good(m, e.timers, ALARMS) && !e.terminated && !e.aborted
    requires StillRun(m, w, RunCall(m, e, SetWakeup(delay, event)), stimuli)
    ensures var id := e.timers.lastTimer + 1;
      var a := Run(m, w, RunCall(m, e, SetWakeup(delay, event)), stimuli);
      var b := Step(m, w, a, Fire(id), fuel);
      && id in a.timers.live
      && (TimePassed(stimuli) < delay ==> b == a)
      && (TimePassed(stimuli) >= delay ==> Executes(m, w, a, b, event, fuel) && id !in b.timers.live)
  {
    hide Good, StillRun, Run, Execute, Executes, TimePassed;
    var id := e.timers.lastTimer + 1;
    var start := RunCall(m, e, SetWakeup(delay, event));
    AlarmIsSet(m, e, delay, event);
    StillRunLeavesAlarm(m, w, start, stimuli, id, e.timers.now + delay, event);
    var a := Run(m, w, start, stimuli);
    if TimePassed(stimuli) >= delay {
      var f := a.(timers := EndTimer(a.timers, id));
      assert Step(m, w, a, Fire(id), fuel) == Execute(m, w, f, event, fuel);
      ExecuteExecutes(m, w, f, event, fuel);
      SameExecution(m, w, a, f, Execute(m, w, f, event, fuel), event, fuel);
      LiveIsIssued(m, a.timers, id);
      ExecutionIsFresh(m, w, f, event, fuel, id);
    }
  }

  lemma LiveIsIssued(m: Model, t: Timers, id: nat)
    requires Good(m, t, ALARMS) && id in t.live
    ensures id <= t.lastTimer
  {
  }

  lemma SameExecution(m: Model, w: World, e: Engine, f: Engine, b: Engine, event: Option<string>, fuel: nat)
    requires f == e.(timers := f.timers) && Executes(m, w, f, b, event, fuel)
    ensures Executes(m, w, e, b, event, fuel)
  {
    hide Pass, Running, Loop;
  }

  // ---------------------------------------------------------------- what every engine call keeps

  /** Something said of the timers and the calls made so far. */
  type Saying = (Timers, seq<Call>) -> bool

  ghost predicate Kept(m: Model, p: Saying) {
    forall e: Engine, call :: p(e.timers, e.calls) ==> p(RunCall(m, e, call).timers, RunCall(m, e, call).calls)
  }

  lemma {:induction false} CallsKeep(m: Model, p: Saying, e: Engine, calls: seq<Call>)
    requires Kept(m, p) && p(e.timers, e.calls)
    ensures var b := RunCalls(m, e, calls); p(b.timers, b.calls)
    decreases |calls|
  {
    hide RunCall;
    if calls != [] {
      CallsKeep(m, p, RunCall(m, e, calls[0]), calls[1..]);
    }
  }

  lemma {:induction false} ActionsKeep(m: Model, p: Saying, w: World, e: Engine, list: seq<Ran>)
    requires Kept(m, p) && p(e.timers, e.calls)
    ensures var b := RunActions(m, w, e, list); p(b.timers, b.calls)
    decreases |list|
  {
    hide Kept, RunCalls;
    if list != [] {
      CallsKeep(m, p, e.(log := e.log + [list[0]], invoked := e.invoked + 1), w(e.invoked));
      ActionsKeep(m, p, w, if e.exception.None? then RunAction(m, w, e, list[0]) else e, list[1..]);
    }
  }

  lemma BlockKeeps(m: Model, p: Saying, w: World, e: Engine, s: State, ev: Event)
    requires Kept(m, p) && p(e.timers, e.calls)
    ensures var b := RunBlock(m, w, e, s, ev); p(b.timers, b.calls)
  {
    hide Kept, RunActions, Tag, BeforeOf;
    forall a: Engine, list | p(a.timers, a.calls)
      ensures var b := RunActions(m, w, a, list); p(b.timers, b.calls)
    {
      ActionsKeep(m, p, w, a, list);
    }
  }

  lemma {:induction false} BlocksKeep(m: Model, p: Saying, w: World, e: Engine, s: State, blocks: seq<Event>)
    requires Kept(m, p) && p(e.timers, e.calls)
    ensures var b := RunBlocks(m, w, e, s, blocks); p(b.timers, b.calls)
    decreases |blocks|
  {
    hide Kept, RunBlock;
    if blocks != [] {
      BlockKeeps(m, p, w, e, s, blocks[0]);
      BlocksKeep(m, p, w, RunBlock(m, w, e, s, blocks[0]), s, blocks[1..]);
    }
  }

  lemma {:induction false} LoopKeeps(m: Model, p: Saying, w: World, e: Engine, fuel: nat)
    requires Kept(m, p) && p(e.timers, e.calls)
    ensures var b := Loop(m, w, e, fuel); p(b.timers, b.calls)
    decreases fuel
  {
    hide Kept, RunBlocks, Chosen;
    if fuel > 0 && Running(e) {
      var i := StateNamed(m, e.state);
      if i.Some? { BlocksKeep(m, p, w, Begin(e), m[i.value], Chosen(m, e)); }
      LoopKeeps(m, p, w, Pass(m, w, e), fuel - 1);
    }
  }

  // ---------------------------------------------------------------- a timer that is gone stays gone

  /** The id has been given out and its timer is not live. */
  predicate Gone(t: Timers, id: nat) {
    id !in t.live && id <= t.lastTimer
  }

  lemma CallIsFresh(m: Model, e: Engine, call: Call, id: nat)
    requires Gone(e.timers, id)
    ensures Gone(RunCall(m, e, call).timers, id)
  {
    hide Gone, SetPeriod, SetAlarm;
    match call
    case SetWakeup(delay, event) => AlarmIsFresh(e.timers, delay, event, id);
    case SetHeartbeat(interval) => PeriodIsFresh(m, e.timers, Heartbeat, interval, id);
    case SetExpiry(interval) => PeriodIsFresh(m, e.timers, Expiry, interval, id);
    case _ =>
  }

  lemma AlarmIsFresh(t: Timers, delay: nat, event: Option<string>, id: nat)
    requires Gone(t, id)
    ensures Gone(SetAlarm(t, delay, event), id)
  {
  }

  lemma PeriodIsFresh(m: Model, t: Timers, k: TimerKind, interval: nat, id: nat)
    requires Gone(t, id)
    ensures Gone(SetPeriod(m, t, k, interval), id)
  {
    hide ClassEvent;
  }

  /** A timer that is not live when an execution begins is not live when it ends. */
  lemma ExecutionIsFresh(m: Model, w: World, e: Engine, event: Option<string>, fuel: nat, id: nat)
    requires id !in e.timers.live && id <= e.timers.lastTimer
    ensures id !in Execute(m, w, e, event, fuel).timers.live
  {
    hide Loop, RunCall;
    var p: Saying := (t, calls) => Gone(t, id);
    forall a: Engine, call | p(a.timers, a.calls)
      ensures p(RunCall(m, a, call).timers, RunCall(m, a, call).calls)
    {
      CallIsFresh(m, a, call, id);
    }
    LoopKeeps(m, p, w, Prepare(e, event), fuel);
  }

  // ---------------------------------------------------------------- alarms over whole runs

  /** The alarm call made last. */
  function LastAlarm(calls: seq<Call>): Option<Call> {
    if calls == [] then None
    else if calls[|calls| - 1].SetWakeup? then Some(calls[|calls| - 1])
    else LastAlarm(calls[..|calls| - 1])
  }

  /** A live alarm is due the delay of that call after it was armed, and carries its event. */
  ghost predicate AsAsked(t: Timers, calls: seq<Call>) {
    forall id :: id in t.live && t.live[id].kind == Wakeup ==>
      var last := LastAlarm(calls);
      && last.Some? && last.value.SetWakeup?
      && t.live[id].due == t.live[id].armed + last.value.delay && t.live[id].event == last.value.event
  }

  /** And there is none but the recorded one. */
  ghost predicate OneAlarm(t: Timers) {
    && (forall id :: id in t.live && t.live[id].kind == Wakeup ==> 0 < id == t.wakeupTimer)
    && (forall id :: id in t.live ==> id <= t.lastTimer)
  }

  lemma LastAlarmAppend(calls: seq<Call>, call: Call)
    ensures LastAlarm(calls + [call]) == if call.SetWakeup? then Some(call) else LastAlarm(calls)
  {
    assert (calls + [call])[..|calls|] == calls;
  }

  lemma AskedCall(m: Model, e: Engine, call: Call)
    requires AsAsked(e.timers, e.calls) && OneAlarm(e.timers)
    ensures var b := RunCall(m, e, call); AsAsked(b.timers, b.calls) && OneAlarm(b.timers)
  {
    hide SetPeriod, SetAlarm, LastAlarm, AsAsked, OneAlarm;
    LastAlarmAppend(e.calls, call);
    match call
    case SetWakeup(delay, event) => AskedAlarm(e.timers, e.calls, delay, event);
    case SetHeartbeat(interval) => AskedPeriod(m, e.timers, e.calls, Heartbeat, interval, call);
    case SetExpiry(interval) => AskedPeriod(m, e.timers, e.calls, Expiry, interval, call);
    case _ => AskedSame(e.timers, e.calls, call);
  }

  lemma AskedSame(t: Timers, calls: seq<Call>, call: Call)
    requires AsAsked(t, calls) && !call.SetWakeup?
    ensures AsAsked(t, calls + [call])
  {
    hide LastAlarm;
    LastAlarmAppend(calls, call);
  }

  lemma AskedAlarm(t: Timers, calls: seq<Call>, delay: nat, event: Option<string>)
    requires OneAlarm(t)
    ensures AsAsked(SetAlarm(t, delay, event), calls + [SetWakeup(delay, event)]) && OneAlarm(SetAlarm(t, delay, event))
  {
    hide LastAlarm;
    LastAlarmAppend(calls, SetWakeup(delay, event));
  }

  lemma AskedPeriod(m: Model, t: Timers, calls: seq<Call>, k: TimerKind, interval: nat, call: Call)
    requires AsAsked(t, calls) && OneAlarm(t) && k != Wakeup && !call.SetWakeup?
    ensures AsAsked(SetPeriod(m, t, k, interval), calls + [call]) && OneAlarm(SetPeriod(m, t, k, interval))
  {
    hide LastAlarm, ClassEvent, Cancel, Rearm, AsAsked, OneAlarm;
    var c := SetInterval(t, k, interval);
    AskedSame(t, calls, call);
    AskedInterval(t, calls + [call], k, interval);
    AskedCancel(c, calls + [call], k);
    AskedRearm(Cancel(c, k), calls + [call], k);
  }

  lemma AskedInterval(t: Timers, calls: seq<Call>, k: TimerKind, interval: nat)
    requires AsAsked(t, calls) && OneAlarm(t)
    ensures AsAsked(SetInterval(t, k, interval), calls) && OneAlarm(SetInterval(t, k, interval))
  {
    hide LastAlarm;
  }

  lemma AskedLoop(m: Model, w: World, e: Engine, fuel: nat)
    requires AsAsked(e.timers, e.calls) && OneAlarm(e.timers)
    ensures var b := Loop(m, w, e, fuel); AsAsked(b.timers, b.calls) && OneAlarm(b.timers)
  {
    hide Loop, RunCall, AsAsked, OneAlarm;
    var p: Saying := (t, calls) => AsAsked(t, calls) && OneAlarm(t);
    AskedIsKept(m, p);
    LoopKeeps(m, p, w, e, fuel);
  }

  lemma AskedIsKept(m: Model, p: Saying)
    requires forall t, calls :: p(t, calls) <==> AsAsked(t, calls) && OneAlarm(t)
    ensures Kept(m, p)
  {
    hide RunCall, AsAsked, OneAlarm;
    forall a: Engine, call | p(a.timers, a.calls)
      ensures p(RunCall(m, a, call).timers, RunCall(m, a, call).calls)
    {
      AskedCall(m, a, call);
    }
  }

  // Timer operations that arm no alarm.

  lemma AskedEnd(t: Timers, calls: seq<Call>, id: nat, ms: nat)
    requires AsAsked(t, calls) && OneAlarm(t)
    ensures AsAsked(EndTimer(t, id), calls) && OneAlarm(EndTimer(t, id))
    ensures AsAsked(t.(now := t.now + ms), calls) && OneAlarm(t.(now := t.now + ms))
  {
    hide LastAlarm;
  }

  lemma AskedCancel(t: Timers, calls: seq<Call>, k: TimerKind)
    requires AsAsked(t, calls) && OneAlarm(t)
    ensures AsAsked(Cancel(t, k), calls) && OneAlarm(Cancel(t, k))
    ensures AsAsked(Cancel(t.(epoch := t.epoch + 1), k), calls) && OneAlarm(Cancel(t.(epoch := t.epoch + 1), k))
  {
    hide LastAlarm;
  }

  lemma AskedRearm(t: Timers, calls: seq<Call>, k: TimerKind)
    requires AsAsked(t, calls) && OneAlarm(t) && k != Wakeup
    ensures AsAsked(Rearm(t, k), calls) && OneAlarm(Rearm(t, k))
  {
    hide LastAlarm;
  }

  lemma AskedHear(m: Model, t: Timers, calls: seq<Call>)
    requires AsAsked(t, calls) && OneAlarm(t)
    ensures AsAsked(Hear(m, t), calls) && OneAlarm(Hear(m, t))
  {
    hide LastAlarm, ClassEvent, Cancel, Rearm;
    var h := t.(heard := t.heard + 1);
    AskedCancel(h, calls, Expiry);
    AskedRearm(Cancel(h, Expiry), calls, Expiry);
  }

  lemma AskedExecute(m: Model, w: World, e: Engine, event: Option<string>, fuel: nat)
    requires AsAsked(e.timers, e.calls) && OneAlarm(e.timers)
    ensures var b := Execute(m, w, e, event, fuel); AsAsked(b.timers, b.calls) && OneAlarm(b.timers)
  {
    hide Loop, AsAsked, OneAlarm, Cancel;
    AskedCancel(e.timers, e.calls, Wakeup);
    AskedLoop(m, w, Prepare(e, event), fuel);
  }

  lemma AskedStep(m: Model, w: World, e: Engine, input: Input, fuel: nat)
    requires AsAsked(e.timers, e.calls) && OneAlarm(e.timers)
    ensures var b := Step(m, w, e, input, fuel); AsAsked(b.timers, b.calls) && OneAlarm(b.timers)
  {
    hide Execute, AsAsked, OneAlarm, Cancel, Rearm, Hear, EndTimer, RunCalls;
    forall a: Engine, event | AsAsked(a.timers, a.calls) && OneAlarm(a.timers)
      ensures var b := Execute(m, w, a, event, fuel); AsAsked(b.timers, b.calls) && OneAlarm(b.timers)
    {
      AskedExecute(m, w, a, event, fuel);
    }
    forall t: Timers, calls: seq<Call>, k | k != Wakeup && AsAsked(t, calls) && OneAlarm(t)
      ensures AsAsked(Rearm(t, k), calls) && OneAlarm(Rearm(t, k))
    {
      AskedRearm(t, calls, k);
    }
    var id, ms := if input.Fire? then input.id else 0, if input.Tick? then input.ms else 0;
    AskedEnd(e.timers, e.calls, id, ms);
    AskedHear(m, e.timers, e.calls);
    if input.Application? {
      AskedCalls(m, e, input.calls);
    }
  }

  lemma AskedCalls(m: Model, e: Engine, calls: seq<Call>)
    requires AsAsked(e.timers, e.calls) && OneAlarm(e.timers)
    ensures var b := RunCalls(m, e, calls); AsAsked(b.timers, b.calls) && OneAlarm(b.timers)
  {
    hide RunCalls, RunCall, AsAsked, OneAlarm;
    var p: Saying := (t, calls) => AsAsked(t, calls) && OneAlarm(t);
    AskedIsKept(m, p);
    CallsKeep(m, p, e, calls);
  }

  /**
   At every moment of every run, whatever set it: a live alarm is due the delay asked for after the time it
   was armed, and carries the event asked for, by the last alarm call made.
   */
  lemma {:induction false} AlarmsAreAsAsked(m: Model, w: World, stimuli: seq<Stimulus>)
    requires m != []
    ensures var e := Run(m, w, Start(m), stimuli); AsAsked(e.timers, e.calls) && OneAlarm(e.timers)
  {
    hide Step, AsAsked, OneAlarm;
    if stimuli == [] {
      NoAlarmAtStart(m);
    } else {
      var n := |stimuli| - 1;
      AlarmsAreAsAsked(m, w, stimuli[..n]);
      AskedStep(m, w, Run(m, w, Start(m), stimuli[..n]), stimuli[n].input, stimuli[n].fuel);
    }
  }

  lemma NoAlarmAtStart(m: Model)
    requires m != []
    ensures AsAsked(Start(m).timers, Start(m).calls) && OneAlarm(Start(m).timers)
  {
  }
}
