/**
 The client engine as functions on its state: the calls actions may make, one pass of the state
 machine, `s_client_execute`, and the reactor callbacks. Application actions are arbitrary: a World
 says, for the n-th application action ever run, which engine calls it makes.
 */
module EngineSpec {
  import opened Options
  import opened Superstates

  // ---------------------------------------------------------------- state

  /** The engine_* API, as called by application code. */
  datatype Call =
    | SetNextEvent(event: Option<string>)
    | SetException(event: Option<string>)
    | SetWakeup(delay: nat, event: Option<string>)
    | SetHeartbeat(interval: nat)
    | SetExpiry(interval: nat)
    | SetConnected(connected: bool)

  type World = nat -> seq<Call>

  datatype TimerKind = Wakeup | Heartbeat | Expiry

  /**
   A one-shot timer the reactor holds. Recorded at arming: the time, the number of executions begun,
   the number of server messages handled, and for an alarm the event.
   */
  datatype Timer = Timer(kind: TimerKind, due: nat, armed: nat, epoch: nat, heard: nat, event: Option<string>)

  /** Which block of the model an action ran in. */
  datatype Block = Body(state: string, event: string) | After(state: string) | Before(state: string)

  datatype Ran = Ran(block: Block, index: nat, action: Action)

  datatype Move = Move(from: string, to: string)

  /** The three timers, and the reactor as they see it. */
  datatype Timers = Timers(
    expiry: nat, heartbeat: nat, expiryTimer: nat, heartbeatTimer: nat, wakeupTimer: nat,
    wakeupEvent: Option<string>,
    // the reactor: live timers by id, the last id given out, the clock
    live: map<nat, Timer>, lastTimer: nat, now: nat,
    // executions begun, server messages handled
    epoch: nat, heard: nat)

  datatype Engine = Engine(
    state: string, event: Option<string>, nextEvent: Option<string>, exception: Option<string>,
    connected: bool, terminated: bool, fsmStopped: bool, timers: Timers,
    // a failed assertion ends the process
    aborted: bool,
    // history: passes begun, passes ended by an exception, application actions run, and what was done
    passes: nat, raised: nat, invoked: nat, calls: seq<Call>, log: seq<Ran>, moves: seq<Move>)

  /** s_client_new: the first state, nothing pending. */
  function Start(m: Model): Engine
    requires m != []
  {
    Engine(m[0].name, None, None, None, false, false, false,
           Timers(0, 0, 0, 0, 0, None, map[], 0, 0, 0, 0), false, 0, 0, 0, [], [], [])
  }

  /** An event of that name occurs in the model, so the code for it is generated. */
  predicate ClassEvent(m: Model, name: string) {
    exists i :: 0 <= i < |m| && Has(m[i].events, name)
  }

  // ---------------------------------------------------------------- timers

  function EndTimer(t: Timers, id: nat): Timers {
    t.(live := t.live - {id})
  }

  /** zloop_timer: a fresh id, never 0. */
  function NewTimer(t: Timers, kind: TimerKind, delay: nat, event: Option<string>): Timers {
    t.(lastTimer := t.lastTimer + 1,
       live := t.live[t.lastTimer + 1 := Timer(kind, t.now + delay, t.now, t.epoch, t.heard, event)])
  }

  /** The timer id the engine has on record for a kind, and the interval of a periodic kind. */
  function Recorded(t: Timers, k: TimerKind): nat {
    match k
    case Wakeup => t.wakeupTimer
    case Heartbeat => t.heartbeatTimer
    case Expiry => t.expiryTimer
  }

  function Record(t: Timers, k: TimerKind, id: nat): Timers {
    match k
    case Wakeup => t.(wakeupTimer := id)
    case Heartbeat => t.(heartbeatTimer := id)
    case Expiry => t.(expiryTimer := id)
  }

  function Interval(t: Timers, k: TimerKind): nat {
    if k == Expiry then t.expiry else t.heartbeat
  }

  function SetInterval(t: Timers, k: TimerKind, interval: nat): Timers {
    if k == Expiry then t.(expiry := interval) else t.(heartbeat := interval)
  }

  /** End the recorded timer, if there is one. */
  function Cancel(t: Timers, k: TimerKind): Timers {
    if Recorded(t, k) == 0 then t else Record(EndTimer(t, Recorded(t, k)), k, 0)
  }

  function Arm(t: Timers, k: TimerKind, delay: nat, event: Option<string>): Timers {
    Record(NewTimer(t, k, delay, event), k, t.lastTimer + 1)
  }

  /** Arm a periodic timer, if its interval is not zero. */
  function Rearm(t: Timers, k: TimerKind): Timers {
    if Interval(t, k) == 0 then t else Arm(t, k, Interval(t, k), None)
  }

  function EventOf(k: TimerKind): string {
    if k == Expiry then "expired" else "heartbeat"
  }

  /** engine_set_heartbeat and engine_set_expiry. */
  function SetPeriod(m: Model, t: Timers, k: TimerKind, interval: nat): Timers {
    var t := SetInterval(t, k, interval);
    if ClassEvent(m, EventOf(k)) then Rearm(Cancel(t, k), k) else t
  }

  function SetAlarm(t: Timers, delay: nat, event: Option<string>): Timers {
    Arm(Cancel(t, Wakeup), Wakeup, delay, event).(wakeupEvent := event)
  }

  // ---------------------------------------------------------------- engine calls and actions

  function RunCall(m: Model, e: Engine, call: Call): Engine {
    var e := e.(calls := e.calls + [call]);
    match call
    case SetNextEvent(event) => e.(nextEvent := event)
    case SetException(event) => e.(exception := event)
    case SetWakeup(delay, event) => e.(timers := SetAlarm(e.timers, delay, event))
    case SetHeartbeat(interval) => e.(timers := SetPeriod(m, e.timers, Heartbeat, interval))
    case SetExpiry(interval) => e.(timers := SetPeriod(m, e.timers, Expiry, interval))
    case SetConnected(connected) => e.(connected := connected)
  }

  function RunCalls(m: Model, e: Engine, calls: seq<Call>): Engine
    decreases |calls|
  {
    if calls == [] then e else RunCalls(m, RunCall(m, e, calls[0]), calls[1..])
  }

  predicate IsUser(a: Action) {
    a.name != "send" && a.name != "terminate"
  }

  function RunAction(m: Model, w: World, e: Engine, ran: Ran): Engine {
    var e := e.(log := e.log + [ran]);
    if ran.action.name == "send" then e
    else if ran.action.name == "terminate" then e.(fsmStopped := true)
    else RunCalls(m, e.(invoked := e.invoked + 1), w(e.invoked))
  }

  /** The emitted action list: every action guarded by the absence of an exception. */
  function RunActions(m: Model, w: World, e: Engine, list: seq<Ran>): Engine
    decreases |list|
  {
    if list == [] then e
    else RunActions(m, w, if e.exception.None? then RunAction(m, w, e, list[0]) else e, list[1..])
  }

  function Tag(block: Block, actions: seq<Action>): (t: seq<Ran>)
    ensures |t| == |actions|
  {
    seq(|actions|, i requires 0 <= i < |actions| => Ran(block, i, actions[i]))
  }

  // ---------------------------------------------------------------- one pass

  /** One block of the chain: the body; with a next state, after blocks, the move, before blocks. */
  function RunBlock(m: Model, w: World, e: Engine, s: State, ev: Event): Engine {
    var e := RunActions(m, w, e, Tag(Body(s.name, ev.name), ev.actions));
    if ev.next.None? then e else
      var e := RunActions(m, w, e, Tag(After(s.name), s.after));
      var e := if e.exception.Some? then e
               else e.(state := ev.next.value, moves := e.moves + [Move(s.name, ev.next.value)]);
      RunActions(m, w, e, Tag(Before(ev.next.value), BeforeOf(m, ev.next.value)))
  }

  function BeforeOf(m: Model, name: string): seq<Action> {
    var i := StateNamed(m, name);
    if i.Some? then m[i.value].before else []
  }

  function RunBlocks(m: Model, w: World, e: Engine, s: State, blocks: seq<Event>): Engine
    decreases |blocks|
  {
    if blocks == [] then e else RunBlocks(m, w, RunBlock(m, w, e, s, blocks[0]), s, blocks[1..])
  }

  /** The blocks the switch runs for the current event in the current state. */
  function Chosen(m: Model, e: Engine): seq<Event> {
    var i := StateNamed(m, e.state);
    if i.Some? && e.nextEvent.Some? then Blocks(m[i.value].events, e.nextEvent.value) else []
  }

  function Begin(e: Engine): Engine {
    e.(event := e.nextEvent, nextEvent := None, exception := None, passes := e.passes + 1)
  }

  /** An exception interrupts normal programming: it is the next event. */
  function Finish(e: Engine): Engine {
    if e.exception.None? then e else e.(nextEvent := e.exception, raised := e.raised + 1)
  }

  function Pass(m: Model, w: World, e: Engine): Engine {
    var i := StateNamed(m, e.state);
    var blocks := Chosen(m, e);
    if i.None? || blocks == [] then Begin(e).(aborted := true)
    else Finish(RunBlocks(m, w, Begin(e), m[i.value], blocks))
  }

  predicate Running(e: Engine) {
    !e.terminated && !e.fsmStopped && !e.aborted && e.nextEvent.Some?
  }

  function Loop(m: Model, w: World, e: Engine, fuel: nat): Engine
    decreases fuel
  {
    if fuel == 0 || !Running(e) then e else Loop(m, w, Pass(m, w, e), fuel - 1)
  }

  /** The bound on passes only matters to an execution that needs more: any larger one gives the same. */
  lemma {:induction false} LargerBoundSame(m: Model, w: World, e: Engine, fuel: nat, larger: nat)
    requires fuel <= larger && !Running(Loop(m, w, e, fuel))
    ensures Loop(m, w, e, larger) == Loop(m, w, e, fuel)
    decreases fuel
  {
    hide Pass, Running;
    if fuel > 0 && Running(e) {
      LargerBoundSame(m, w, Pass(m, w, e), fuel - 1, larger - 1);
    }
  }

  /** The event becomes the next event; a pending alarm is cancelled. */
  function Prepare(e: Engine, event: Option<string>): Engine {
    e.(nextEvent := event, timers := Cancel(e.timers.(epoch := e.timers.epoch + 1), Wakeup))
  }

  /** s_client_execute, for at most `fuel` passes. */
  function Execute(m: Model, w: World, e: Engine, event: Option<string>, fuel: nat): Engine {
    Loop(m, w, Prepare(e, event), fuel)
  }

  // ---------------------------------------------------------------- reactor callbacks

  datatype Input =
    | Tick(ms: nat)
    | Fire(id: nat)
    | Command(command: ApiCommand)
    | ServerMessage(event: Option<string>)
    | Application(calls: seq<Call>, executes: bool, event: Option<string>)

  /** On the cmdpipe: $TERM, an API method (an event), or anything else. */
  datatype ApiCommand = Term | Method(event: string) | Other

  function HandleWakeup(m: Model, w: World, e: Engine, fuel: nat): Engine {
    Execute(m, w, e, e.timers.wakeupEvent, fuel)
  }

  function HandleHeartbeat(m: Model, w: World, e: Engine, fuel: nat): Engine {
    var e := Execute(m, w, e, Some("heartbeat"), fuel);
    if e.terminated then e else e.(timers := Rearm(e.timers, Heartbeat))
  }

  function HandleExpiry(m: Model, w: World, e: Engine, fuel: nat): Engine {
    var e := Execute(m, w, e, Some("expired"), fuel);
    if e.terminated then e else e.(timers := Rearm(e.timers, Expiry))
  }

  function HandleCommand(m: Model, w: World, e: Engine, command: ApiCommand, fuel: nat): Engine {
    match command
    case Term => e.(terminated := true)
    case Method(event) => Execute(m, w, e, Some(event), fuel)
    case Other => e
  }

  /** Any input from the server counts as activity. */
  function Hear(m: Model, t: Timers): Timers {
    var t := t.(heard := t.heard + 1);
    if ClassEvent(m, "expired") then Rearm(Cancel(t, Expiry), Expiry) else t
  }

  /** A message from the server; one with no event (None) is unknown and halts the client. */
  function HandleProtocol(m: Model, w: World, e: Engine, event: Option<string>, fuel: nat): Engine {
    var e := e.(timers := Hear(m, e.timers));
    Execute(m, w, if event.None? then e.(terminated := true) else e, event, fuel)
  }

  function HandleTimer(m: Model, w: World, e: Engine, id: nat, fuel: nat): Engine
    requires id in e.timers.live
  {
    var kind := e.timers.live[id].kind;
    var e := e.(timers := EndTimer(e.timers, id));
    match kind
    case Wakeup => HandleWakeup(m, w, e, fuel)
    case Heartbeat => HandleHeartbeat(m, w, e, fuel)
    case Expiry => HandleExpiry(m, w, e, fuel)
  }

  predicate Due(t: Timers, id: nat) {
    id in t.live && t.live[id].due <= t.now
  }

  /** The reactor delivers nothing more once a callback has ended it or the process has aborted. */
  predicate Delivers(e: Engine, input: Input) {
    !e.terminated && !e.aborted && (input.Fire? ==> Due(e.timers, input.id))
  }

  function Step(m: Model, w: World, e: Engine, input: Input, fuel: nat): Engine {
    if !Delivers(e, input) then e else
      match input
      case Tick(ms) => e.(timers := e.timers.(now := e.timers.now + ms))
      case Fire(id) => HandleTimer(m, w, e, id, fuel)
      case Command(command) => HandleCommand(m, w, e, command, fuel)
      case ServerMessage(event) => HandleProtocol(m, w, e, event, fuel)
      case Application(calls, executes, event) =>
        var e := RunCalls(m, e, calls);
        if executes then Execute(m, w, e, event, fuel) else e
  }

  datatype Stimulus = Stimulus(input: Input, fuel: nat)

  function Run(m: Model, w: World, e: Engine, stimuli: seq<Stimulus>): Engine {
    if stimuli == [] then e
    else
      var before := Run(m, w, e, stimuli[..|stimuli| - 1]);
      Step(m, w, before, stimuli[|stimuli| - 1].input, stimuli[|stimuli| - 1].fuel)
  }
}
