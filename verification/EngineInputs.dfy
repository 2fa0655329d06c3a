/**
 What each input of the reactor makes the engine handle, and what no run can do: handle anything once it
 has ended, run more passes than allowed, or leave a periodic timer that is asked for unarmed.
 */
module EngineInputs {
  import opened Options
  import opened Superstates
  import opened EngineSpec
  import opened EngineMachine
  import opened EngineTimers
  import opened EngineRuns
  import opened EngineAlarms
  import opened EngineHistory

  // ---------------------------------------------------------------- the end

  /** Once the actor is terminated or the process has aborted, nothing is handled or changed any more. */
  lemma {:induction false} EndIsFinal(m: Model, w: World, e: Engine, stimuli: seq<Stimulus>)
    requires e.terminated || e.aborted
    ensures Run(m, w, e, stimuli) == e
  {
    if stimuli != [] {
      EndIsFinal(m, w, e, stimuli[..|stimuli| - 1]);
    }
  }

  lemma ActionsKeepPasses(m: Model, w: World, e: Engine, list: seq<Ran>)
    ensures var b := RunActions(m, w, e, list);
      b.passes == e.passes && b.aborted == e.aborted && b.terminated == e.terminated
  {
    hide RunActions, Terminates, AllCalls, LastNext, LastConnected, RunsPrefix, Users;
    if e.exception.Some? {
      SkipActions(m, w, e, list);
    } else {
      var k := ActionsRun(m, w, e, list);
    }
  }

  lemma BlockKeepsPasses(m: Model, w: World, e: Engine, s: State, ev: Event)
    ensures var b := RunBlock(m, w, e, s, ev);
      b.passes == e.passes && b.aborted == e.aborted && b.terminated == e.terminated
  {
    hide RunActions, Tag, BeforeOf;
    forall a: Engine, list
      ensures var b := RunActions(m, w, a, list);
        b.passes == a.passes && b.aborted == a.aborted && b.terminated == a.terminated
    {
      ActionsKeepPasses(m, w, a, list);
    }
  }

  lemma {:induction false} BlocksKeepPasses(m: Model, w: World, e: Engine, s: State, blocks: seq<Event>)
    ensures var b := RunBlocks(m, w, e, s, blocks);
      b.passes == e.passes && b.aborted == e.aborted && b.terminated == e.terminated
    decreases |blocks|
  {
    hide RunBlock;
    if blocks != [] {
      BlockKeepsPasses(m, w, e, s, blocks[0]);
      BlocksKeepPasses(m, w, RunBlock(m, w, e, s, blocks[0]), s, blocks[1..]);
    }
  }

  lemma PassIsOne(m: Model, w: World, e: Engine)
    ensures Pass(m, w, e).passes == e.passes + 1 && Pass(m, w, e).terminated == e.terminated
  {
    hide RunBlocks, Chosen;
    var i := StateNamed(m, e.state);
    if i.Some? { BlocksKeepPasses(m, w, Begin(e), m[i.value], Chosen(m, e)); }
  }

  /**
   The execution loop begins a pass exactly as long as the actor is not terminated, the machine not stopped,
   the process not aborted, there is a next event and the bound allows it.
   */
  lemma {:induction false} LoopEndsExactly(m: Model, w: World, e: Engine, fuel: nat)
    ensures var b := Loop(m, w, e, fuel);
      && e.passes <= b.passes <= e.passes + fuel && b.terminated == e.terminated
      && (b.passes < e.passes + fuel ==> b.terminated || b.fsmStopped || b.aborted || b.nextEvent.None?)
      && (e.terminated || e.fsmStopped || e.aborted || e.nextEvent.None? ==> b == e)
    decreases fuel
  {
    hide Pass;
    if fuel > 0 && Running(e) {
      PassIsOne(m, w, e);
      LoopEndsExactly(m, w, Pass(m, w, e), fuel - 1);
    }
  }

  // ---------------------------------------------------------------- what an input makes it handle

  /** A command from the caller: $TERM ends the engine, a method is an event, others are nothing to it. */
  lemma CommandsHandled(m: Model, w: World, e: Engine, command: ApiCommand, fuel: nat)
    requires !e.terminated && !e.aborted
    ensures var b := Step(m, w, e, Command(command), fuel);
      && (command.Term? ==> b.terminated && SameMachine(e, b) && b.timers == e.timers && b.nextEvent == e.nextEvent)
      && (command.Method? ==> Executes(m, w, e, b, Some(command.event), fuel))
      && (command.Other? ==> b == e)
  {
    hide Execute, Executes;
    if command.Method? {
      ExecuteExecutes(m, w, e, Some(command.event), fuel);
    }
  }

  /** A periodic callback that finds the engine terminated arms nothing. */
  lemma TerminatedArmsNothing(m: Model, w: World, e: Engine, fuel: nat)
    requires e.terminated
    ensures HandleHeartbeat(m, w, e, fuel).timers.live.Keys <= e.timers.live.Keys
    ensures HandleExpiry(m, w, e, fuel).timers.live.Keys <= e.timers.live.Keys
  {
    hide Pass, Rearm;
  }

  /** A due timer: the recorded alarm event, or the event of its kind. */
  lemma TimersHandled(m: Model, w: World, e: Engine, id: nat, fuel: nat)
    requires !e.terminated && !e.aborted && id in e.timers.live && e.timers.live[id].due <= e.timers.now
    ensures var b, k := Step(m, w, e, Fire(id), fuel), e.timers.live[id].kind;
      && (k == Wakeup ==> Executes(m, w, e, b, e.timers.wakeupEvent, fuel))
      && (k == Heartbeat ==> exists c :: Executes(m, w, e, c, Some("heartbeat"), fuel) && b == c.(timers := b.timers))
      && (k == Expiry ==> exists c :: Executes(m, w, e, c, Some("expired"), fuel) && b == c.(timers := b.timers))
  {
    hide Execute, Executes, Rearm;
    var k := e.timers.live[id].kind;
    var f := e.(timers := EndTimer(e.timers, id));
    var event :=
      if k == Wakeup then e.timers.wakeupEvent else if k == Heartbeat then Some("heartbeat") else Some("expired");
    var c := Execute(m, w, f, event, fuel);
    ExecuteExecutes(m, w, f, event, fuel);
    SameExecution(m, w, e, f, c, event, fuel);
  }

  /** A server message: its event; an unknown one ends the engine, and nothing is handled. */
  lemma ServerMessagesHandled(m: Model, w: World, e: Engine, event: Option<string>, fuel: nat)
    requires !e.terminated && !e.aborted
    ensures var b := Step(m, w, e, ServerMessage(event), fuel);
      && (event.Some? ==> Executes(m, w, e, b, event, fuel))
      && (event.None? ==> b.terminated && SameMachine(e, b) && b.nextEvent == None)
  {
    hide Execute, Executes, Hear, Loop, Cancel;
    var f := e.(timers := Hear(m, e.timers));
    if event.Some? {
      ExecuteExecutes(m, w, f, event, fuel);
      SameExecution(m, w, e, f, Execute(m, w, f, event, fuel), event, fuel);
    } else {
      var p := Prepare(f.(terminated := true), event);
      LoopEndsExactly(m, w, p, fuel);
      assert Step(m, w, e, ServerMessage(event), fuel) == Execute(m, w, f.(terminated := true), event, fuel);
      ExecuteIsLoop(m, w, f.(terminated := true), event, fuel);
      assert Execute(m, w, f.(terminated := true), event, fuel) == p;
    }
  }

  lemma ExecuteIsLoop(m: Model, w: World, e: Engine, event: Option<string>, fuel: nat)
    ensures Execute(m, w, e, event, fuel) == Loop(m, w, Prepare(e, event), fuel)
  {
  }

  predicate Begins(e: Engine, input: Input) {
    match input
    case Tick(_) => false
    case Fire(id) => id in e.timers.live && e.timers.live[id].due <= e.timers.now
    case Command(command) => command.Method?
    case ServerMessage(_) => true
    case Application(_, executes, _) => executes
  }

  lemma LoopKeepsCounts(m: Model, w: World, e: Engine, fuel: nat)
    ensures var b := Loop(m, w, e, fuel);
      b.timers.heard == e.timers.heard && b.timers.epoch == e.timers.epoch && b.timers.now == e.timers.now
  {
    hide Loop, Good;
    EvolvesLoop(m, {}, w, e, fuel);
  }

  lemma CallsKeepCounts(m: Model, e: Engine, calls: seq<Call>)
    ensures var b := RunCalls(m, e, calls);
      b.timers.heard == e.timers.heard && b.timers.epoch == e.timers.epoch && b.timers.now == e.timers.now
  {
    hide RunCalls, Good;
    EvolvesCalls(m, {}, e, calls);
  }

  /** The counts the timers are judged by: executions begun, server messages, and the time. */
  lemma StepCounts(m: Model, w: World, e: Engine, input: Input, fuel: nat)
    requires !e.terminated && !e.aborted
    ensures var b := Step(m, w, e, input, fuel);
      && b.timers.epoch == e.timers.epoch + One(Begins(e, input))
      && b.timers.heard == e.timers.heard + One(input.ServerMessage?)
      && b.timers.now == e.timers.now + Elapsed(input)
  {
    hide Execute, RunCalls, Hear, Rearm, HandleTimer;
    match input
    case Tick(_) =>
    case Fire(id) => if Due(e.timers, id) { FireCounts(m, w, e, id, fuel); }
    case Command(command) => if command.Method? { ExecuteCounts(m, w, e, Some(command.event), fuel); }
    case ServerMessage(event) =>
      HearCounts(m, e.timers);
      var f := e.(timers := Hear(m, e.timers));
      ExecuteCounts(m, w, if event.None? then f.(terminated := true) else f, event, fuel);
    case Application(calls, executes, event) =>
      CallsKeepCounts(m, e, calls);
      if executes { ExecuteCounts(m, w, RunCalls(m, e, calls), event, fuel); }
  }

  lemma FireCounts(m: Model, w: World, e: Engine, id: nat, fuel: nat)
    requires id in e.timers.live
    ensures var b := HandleTimer(m, w, e, id, fuel);
      b.timers.epoch == e.timers.epoch + 1 && b.timers.heard == e.timers.heard && b.timers.now == e.timers.now
  {
    hide Execute, Rearm;
    var k := e.timers.live[id].kind;
    var f := e.(timers := EndTimer(e.timers, id));
    var event :=
      if k == Wakeup then f.timers.wakeupEvent else if k == Heartbeat then Some("heartbeat") else Some("expired");
    ExecuteCounts(m, w, f, event, fuel);
    RearmCounts(Execute(m, w, f, event, fuel).timers, k);
  }

  lemma ExecuteCounts(m: Model, w: World, e: Engine, event: Option<string>, fuel: nat)
    ensures var b := Execute(m, w, e, event, fuel);
      b.timers.epoch == e.timers.epoch + 1 && b.timers.heard == e.timers.heard && b.timers.now == e.timers.now
  {
    hide Loop;
    LoopKeepsCounts(m, w, Prepare(e, event), fuel);
  }

  lemma RearmCounts(t: Timers, k: TimerKind)
    ensures SameClock(t, Rearm(t, k))
  {
  }

  lemma HearCounts(m: Model, t: Timers)
    ensures var b := Hear(m, t); b.epoch == t.epoch && b.heard == t.heard + 1 && b.now == t.now
  {
    hide ClassEvent;
  }

  // ---------------------------------------------------------------- periodic timers are armed

  /**
   A server message restarts the expiry timer: with an interval set, one is live, due that interval from
   now; without, none is. Alarms and heartbeats stay.
   */
  lemma HearRestarts(m: Model, t: Timers)
    requires Good(m, t, {Expiry})
    ensures var b := Hear(m, t);
      && b.heard == t.heard + 1 && b.expiry == t.expiry
      && (ClassEvent(m, "expired") && t.expiry > 0 ==>
            && b.expiryTimer in b.live && b.live[b.expiryTimer].kind == Expiry
            && b.live[b.expiryTimer].due == t.now + t.expiry && b.live[b.expiryTimer].armed == t.now)
      && (forall id :: id in b.live && b.live[id].kind == Expiry ==> id == b.expiryTimer && t.expiry > 0)
      && (forall id :: id in t.live && t.live[id].kind != Expiry ==> id in b.live && b.live[id] == t.live[id])
  {
    hide ClassEvent, Proper;
    forall id | id in t.live && t.live[id].kind == Expiry
      ensures id == t.expiryTimer && id > 0 && ClassEvent(m, "expired") && t.expiry > 0
    {
      RecordedKind(m, t, id);
    }
  }

  /** A periodic timer that is asked for is live, unless the model has no event for it. */
  ghost predicate Armed(m: Model, t: Timers, k: TimerKind) {
    ClassEvent(m, EventOf(k)) && Interval(t, k) > 0 ==> Live(t, k)
  }

  lemma EffectArms(m: Model, a: Engine, b: Engine, k: TimerKind)
    requires Effect(m, a, b, k) && Armed(m, a.timers, k)
    ensures Armed(m, b.timers, k)
  {
    hide LastSet;
  }

  lemma ExecuteArms(m: Model, w: World, e: Engine, event: Option<string>, fuel: nat, k: TimerKind)
    requires Good(m, e.timers, {k}) && Armed(m, e.timers, k) && k != Wakeup
    ensures Armed(m, Execute(m, w, e, event, fuel).timers, k)
  {
    hide Good, Armed, Effect, Execute;
    ExecuteKeeps(m, {k}, w, e, event, fuel);
    EffectArms(m, e, Execute(m, w, e, event, fuel), k);
  }

  lemma RearmArms(m: Model, t: Timers, k: TimerKind)
    requires k != Wakeup
    ensures Armed(m, Rearm(t, k), k)
  {
    hide ClassEvent;
  }

  lemma RearmOther(m: Model, t: Timers, k: TimerKind, other: TimerKind)
    requires k != Wakeup && other != Wakeup && k != other && Armed(m, t, k)
    ensures Armed(m, Rearm(t, other), k)
  {
    hide ClassEvent;
  }

  /** A callback arms its own timer; another kind's timer ending leaves it armed. */
  lemma FireArms(m: Model, w: World, e: Engine, id: nat, fuel: nat, k: TimerKind)
    requires Good(m, e.timers, {k}) && Armed(m, e.timers, k) && k != Wakeup
    requires Due(e.timers, id) && !e.terminated && !e.aborted
    ensures Armed(m, Step(m, w, e, Fire(id), fuel).timers, k)
  {
    hide Good, Armed, Execute, Rearm, ClassEvent;
    var kind := e.timers.live[id].kind;
    var f := Fired(e, id);
    FiredKeeps(m, {k}, e, id);
    if kind == k {
      var c := Execute(m, w, f, Some(EventOf(k)), fuel);
      ExecuteKeeps(m, {k}, w, f, Some(EventOf(k)), fuel);
      RearmArms(m, c.timers, k);
    } else {
      var event := if kind == Wakeup then f.timers.wakeupEvent else Some(EventOf(kind));
      EndOther(m, e.timers, id, k);
      ExecuteArms(m, w, f, event, fuel, k);
      ExecuteKeeps(m, {k}, w, f, event, fuel);
      if kind != Wakeup { RearmOther(m, Execute(m, w, f, event, fuel).timers, k, kind); }
    }
  }

  lemma EndOther(m: Model, t: Timers, id: nat, k: TimerKind)
    requires Good(m, t, {k}) && Armed(m, t, k) && id in t.live && t.live[id].kind != k
    ensures Armed(m, EndTimer(t, id), k)
  {
    hide ClassEvent, Proper;
  }

  lemma HearArms(m: Model, t: Timers, k: TimerKind)
    requires Good(m, t, {k}) && Armed(m, t, k) && k != Wakeup
    ensures Armed(m, Hear(m, t), k)
  {
    hide ClassEvent, Proper;
  }

  lemma CallsArm(m: Model, e: Engine, calls: seq<Call>, k: TimerKind)
    requires Good(m, e.timers, {k}) && Armed(m, e.timers, k) && k != Wakeup
    ensures Armed(m, RunCalls(m, e, calls).timers, k) && Good(m, RunCalls(m, e, calls).timers, {k})
  {
    hide Good, Armed, Effect, RunCalls;
    EvolvesCalls(m, {k}, e, calls);
    EffectArms(m, e, RunCalls(m, e, calls), k);
  }

  lemma StepArms(m: Model, w: World, e: Engine, input: Input, fuel: nat, k: TimerKind)
    requires Good(m, e.timers, {k}) && Armed(m, e.timers, k) && k != Wakeup
    ensures Armed(m, Step(m, w, e, input, fuel).timers, k)
  {
    hide Good, Armed, Execute, Hear, RunCalls, HandleTimer;
    if Delivers(e, input) {
      match input
      case Tick(ms) => TickArms(m, e.timers, ms, k);
      case Fire(id) => FireArms(m, w, e, id, fuel, k);
      case Command(command) =>
        if command.Method? { ExecuteArms(m, w, e, Some(command.event), fuel, k); }
      case ServerMessage(event) =>
        HearArms(m, e.timers, k);
        HearKeeps(m, {k}, e.timers);
        var b := e.(timers := Hear(m, e.timers));
        ExecuteArms(m, w, if event.None? then b.(terminated := true) else b, event, fuel, k);
      case Application(calls, executes, event) =>
        CallsArm(m, e, calls, k);
        if executes { ExecuteArms(m, w, RunCalls(m, e, calls), event, fuel, k); }
    }
  }

  lemma TickArms(m: Model, t: Timers, ms: nat, k: TimerKind)
    requires Armed(m, t, k)
    ensures Armed(m, t.(now := t.now + ms), k)
  {
    hide ClassEvent;
  }

  /**
   In every run with clean callbacks of that kind, whenever a heartbeat or expiry interval is set, a timer
   for it is live, due a full interval after it was armed: the event does come.
   */
  lemma {:induction false} AlwaysArmed(m: Model, k: TimerKind, w: World, stimuli: seq<Stimulus>)
    requires m != [] && k != Wakeup && CleanRun(m, {k}, w, Start(m), stimuli)
    ensures var t := Run(m, w, Start(m), stimuli).timers;
      && Armed(m, t, k)
      && (ClassEvent(m, EventOf(k)) && Interval(t, k) > 0 ==>
            && Recorded(t, k) in t.live && t.live[Recorded(t, k)].kind == k
            && t.live[Recorded(t, k)].due == t.live[Recorded(t, k)].armed + Interval(t, k))
  {
    hide Step, Clean, ClassEvent, Start;
    StartIsGood(m, {k});
    RunKeeps(m, {k}, w, Start(m), stimuli);
    if stimuli == [] {
      NothingAsked(m, k);
    } else {
      var n := |stimuli| - 1;
      assert forall i :: 0 <= i < n ==> stimuli[..n][..i] == stimuli[..i] && stimuli[..n][i] == stimuli[i];
      AlwaysArmed(m, k, w, stimuli[..n]);
      RunKeeps(m, {k}, w, Start(m), stimuli[..n]);
      StepArms(m, w, Run(m, w, Start(m), stimuli[..n]), stimuli[n].input, stimuli[n].fuel, k);
    }
  }

  lemma NothingAsked(m: Model, k: TimerKind)
    requires m != [] && k != Wakeup
    ensures Armed(m, Start(m).timers, k)
  {
    hide ClassEvent;
  }

  /** A new engine is idle, in the first state, with no timer and nothing requested. */
  lemma StartIsIdle(m: Model)
    requires m != []
    ensures var e := Start(m);
      && e.state == m[0].name && e.nextEvent == None && e.event == None && e.exception == None
      && !e.connected && !e.terminated && !e.fsmStopped && !e.aborted && e.log == [] && e.calls == []
      && e.timers.live == map[] && e.timers.expiry == 0 && e.timers.heartbeat == 0
  {
  }
}
