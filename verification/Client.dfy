/**
 The generated client engine itself: an object updated in place, each method proved to do to its view
 what the specification functions say.
 */
module Client {
  import opened Options
  import opened Superstates
  import opened EngineSpec

  class Client {
    const model: Model
    const world: World

    // s_client_t
    var state: string
    var event: Option<string>
    var nextEvent: Option<string>
    var exception: Option<string>
    var connected: bool
    var terminated: bool
    var fsmStopped: bool
    var expiry: nat
    var heartbeat: nat
    var expiryTimer: nat
    var heartbeatTimer: nat
    var wakeupTimer: nat
    var wakeupEvent: Option<string>

    // the reactor
    var live: map<nat, Timer>
    var lastTimer: nat
    var now: nat

    var aborted: bool

    // history
    var epoch: nat
    var heard: nat
    var passes: nat
    var raised: nat
    var invoked: nat
    var calls: seq<Call>
    var log: seq<Ran>
    var moves: seq<Move>

    ghost function Clock(): Timers
      reads this`expiry, this`heartbeat, this`expiryTimer, this`heartbeatTimer, this`wakeupTimer,
        this`wakeupEvent, this`live, this`lastTimer, this`now, this`epoch, this`heard
    {
      Timers(expiry, heartbeat, expiryTimer, heartbeatTimer, wakeupTimer, wakeupEvent,
             live, lastTimer, now, epoch, heard)
    }

    ghost function View(): Engine
      reads this
    {
      Engine(state, event, nextEvent, exception, connected, terminated, fsmStopped, Clock(),
             aborted, passes, raised, invoked, calls, log, moves)
    }

    constructor (model: Model, world: World)
      requires model != []
      ensures this.model == model && this.world == world && View() == Start(model)
    {
      this.model, this.world := model, world;
      state := model[0].name;
      event, nextEvent, exception, wakeupEvent := None, None, None, None;
      connected, terminated, fsmStopped, aborted := false, false, false, false;
      expiry, heartbeat, expiryTimer, heartbeatTimer, wakeupTimer := 0, 0, 0, 0, 0;
      live, lastTimer, now, epoch, heard := map[], 0, 0, 0, 0;
      passes, raised, invoked, calls, log, moves := 0, 0, 0, [], [], [];
    }

    // -------------------------------------------------------------- reactor timers

    /** zloop_timer_end. */
    method TimerEnd(id: nat)
      modifies this`live
      ensures live == old(live) - {id}
    {
      live := live - {id};
    }

    /** zloop_timer. */
    method TimerNew(kind: TimerKind, delay: nat, ev: Option<string>) returns (id: nat)
      modifies this`live, this`lastTimer
      ensures id == lastTimer && Clock() == NewTimer(old(Clock()), kind, delay, ev)
    {
      lastTimer := lastTimer + 1;
      live := live[lastTimer := Timer(kind, now + delay, now, epoch, heard, ev)];
      id := lastTimer;
    }

    // The recorded timer of each kind: end it if there is one; arm a periodic one unless its interval is 0.

    method EndWakeupTimer()
      modifies this`live, this`wakeupTimer
      ensures Clock() == Cancel(old(Clock()), Wakeup)
    {
      if wakeupTimer != 0 {
        TimerEnd(wakeupTimer);
        wakeupTimer := 0;
      }
    }

    method EndHeartbeatTimer()
      modifies this`live, this`heartbeatTimer
      ensures Clock() == Cancel(old(Clock()), Heartbeat)
    {
      if heartbeatTimer != 0 {
        TimerEnd(heartbeatTimer);
        heartbeatTimer := 0;
      }
    }

    method EndExpiryTimer()
      modifies this`live, this`expiryTimer
      ensures Clock() == Cancel(old(Clock()), Expiry)
    {
      if expiryTimer != 0 {
        TimerEnd(expiryTimer);
        expiryTimer := 0;
      }
    }

    method ArmHeartbeatTimer()
      modifies this`live, this`lastTimer, this`heartbeatTimer
      ensures Clock() == Rearm(old(Clock()), Heartbeat)
    {
      if heartbeat != 0 {
        heartbeatTimer := TimerNew(Heartbeat, heartbeat, None);
      }
    }

    method ArmExpiryTimer()
      modifies this`live, this`lastTimer, this`expiryTimer
      ensures Clock() == Rearm(old(Clock()), Expiry)
    {
      if expiry != 0 {
        expiryTimer := TimerNew(Expiry, expiry, None);
      }
    }

    method SetHeartbeatInterval(interval: nat)
      modifies this`heartbeat
      ensures Clock() == SetInterval(old(Clock()), Heartbeat, interval)
    {
      heartbeat := interval;
    }

    method SetExpiryInterval(interval: nat)
      modifies this`expiry
      ensures Clock() == SetInterval(old(Clock()), Expiry, interval)
    {
      expiry := interval;
    }

    // -------------------------------------------------------------- the API for actions

    method EngineSetWakeupEvent(delay: nat, ev: Option<string>)
      modifies this`live, this`lastTimer, this`wakeupTimer, this`wakeupEvent
      ensures View() == old(View()).(timers := SetAlarm(old(View()).timers, delay, ev))
    {
      EndWakeupTimer();
      wakeupTimer := TimerNew(Wakeup, delay, ev);
      wakeupEvent := ev;
    }

    method EngineSetHeartbeat(interval: nat)
      modifies this`live, this`lastTimer, this`heartbeatTimer, this`heartbeat
      ensures View() == old(View()).(timers := SetPeriod(model, old(View()).timers, Heartbeat, interval))
    {
      hide ClassEvent, Rearm, Cancel, SetInterval, Clock;
      SetHeartbeatInterval(interval);
      if ClassEvent(model, "heartbeat") {
        EndHeartbeatTimer();
        ArmHeartbeatTimer();
      }
    }

    method EngineSetExpiry(interval: nat)
      modifies this`live, this`lastTimer, this`expiryTimer, this`expiry
      ensures View() == old(View()).(timers := SetPeriod(model, old(View()).timers, Expiry, interval))
    {
      hide ClassEvent, Rearm, Cancel, SetInterval, Clock;
      SetExpiryInterval(interval);
      if ClassEvent(model, "expired") {
        EndExpiryTimer();
        ArmExpiryTimer();
      }
    }

    method EngineSetNextEvent(ev: Option<string>)
      modifies this`nextEvent
      ensures View() == old(View()).(nextEvent := ev)
    {
      nextEvent := ev;
    }

    method EngineSetException(ev: Option<string>)
      modifies this`exception
      ensures View() == old(View()).(exception := ev)
    {
      exception := ev;
    }

    method EngineSetConnected(value: bool)
      modifies this`connected
      ensures View() == old(View()).(connected := value)
    {
      connected := value;
    }

    method RecordCall(call: Call)
      modifies this`calls
      ensures View() == old(View()).(calls := old(View()).calls + [call])
    {
      calls := calls + [call];
    }

    /** One engine call by application code. */
    method EngineCall(call: Call)
      modifies this
      ensures View() == RunCall(model, old(View()), call)
    {
      hide SetPeriod, SetAlarm, View, Clock;
      RecordCall(call);
      match call
      case SetNextEvent(ev) => EngineSetNextEvent(ev);
      case SetException(ev) => EngineSetException(ev);
      case SetWakeup(delay, ev) => EngineSetWakeupEvent(delay, ev);
      case SetHeartbeat(interval) => EngineSetHeartbeat(interval);
      case SetExpiry(interval) => EngineSetExpiry(interval);
      case SetConnected(value) => EngineSetConnected(value);
    }

    method EngineCalls(list: seq<Call>)
      modifies this
      ensures View() == RunCalls(model, old(View()), list)
    {
      hide RunCall;
      assert list[0..] == list;
      for i := 0 to |list|
        invariant RunCalls(model, View(), list[i..]) == RunCalls(model, old(View()), list)
      {
        assert list[i..][1..] == list[i + 1..];
        EngineCall(list[i]);
      }
    }

    // -------------------------------------------------------------- actions and blocks

    method RecordAction(ran: Ran)
      modifies this`log
      ensures View() == old(View()).(log := old(View()).log + [ran])
    {
      hide Clock;
      log := log + [ran];
    }

    method StopMachine()
      modifies this`fsmStopped
      ensures View() == old(View()).(fsmStopped := true)
    {
      hide Clock;
      fsmStopped := true;
    }

    method CountInvocation() returns (n: nat)
      modifies this`invoked
      ensures n == old(View()).invoked && View() == old(View()).(invoked := n + 1)
    {
      hide Clock;
      n := invoked;
      invoked := invoked + 1;
    }

    method PerformAction(block: Block, index: nat, action: Action)
      modifies this
      ensures View() == RunAction(model, world, old(View()), Ran(block, index, action))
    {
      hide RunCalls, View;
      RecordAction(Ran(block, index, action));
      if action.name == "send" {
      } else if action.name == "terminate" {
        StopMachine();
      } else {
        var n := CountInvocation();
        EngineCalls(world(n));
      }
    }

    /** output_action_body: every action of the list, each guarded by the absence of an exception. */
    method PerformActions(block: Block, actions: seq<Action>)
      modifies this
      ensures View() == RunActions(model, world, old(View()), Tag(block, actions))
    {
      hide RunAction;
      ghost var list := Tag(block, actions);
      assert list[0..] == list;
      for i := 0 to |actions|
        invariant RunActions(model, world, View(), list[i..]) == RunActions(model, world, old(View()), list)
      {
        assert list[i..][1..] == list[i + 1..];
        if exception == None {
          PerformAction(block, i, actions[i]);
        }
      }
    }

    /** One block of the chain: output_action_body, then output_state_change. */
    method PerformBlock(s: State, ev: Event)
      modifies this
      ensures View() == RunBlock(model, world, old(View()), s, ev)
    {
      hide RunActions, Tag, BeforeOf, Clock;
      PerformActions(Body(s.name, ev.name), ev.actions);
      if ev.next.Some? {
        PerformActions(After(s.name), s.after);
        if exception == None {
          state := ev.next.value;
          moves := moves + [Move(s.name, ev.next.value)];
        }
        PerformActions(Before(ev.next.value), BeforeOf(model, ev.next.value));
      }
    }

    // -------------------------------------------------------------- s_client_execute

    /** The switch: every block the chain runs for this event. */
    method PerformBlocks(s: State, blocks: seq<Event>)
      modifies this
      ensures View() == RunBlocks(model, world, old(View()), s, blocks)
    {
      hide RunBlock;
      assert blocks[0..] == blocks;
      for i := 0 to |blocks|
        invariant RunBlocks(model, world, View(), s, blocks[i..]) == RunBlocks(model, world, old(View()), s, blocks)
      {
        assert blocks[i..][1..] == blocks[i + 1..];
        PerformBlock(s, blocks[i]);
      }
    }

    method TakeEvent()
      modifies this`event, this`passes
      ensures View() == old(View()).(event := old(View()).nextEvent, passes := old(View()).passes + 1)
    {
      hide Clock;
      event := nextEvent;
      passes := passes + 1;
    }

    /** The next event becomes the current one; no next event, no exception. */
    method BeginPass()
      modifies this`event, this`nextEvent, this`exception, this`passes
      ensures View() == Begin(old(View()))
    {
      hide View;
      TakeEvent();
      EngineSetNextEvent(None);
      EngineSetException(None);
    }

    /** An exception event interrupts normal programming. */
    method FinishPass()
      modifies this`nextEvent, this`raised
      ensures View() == Finish(old(View()))
    {
      hide Clock;
      if exception != None {
        nextEvent := exception;
        raised := raised + 1;
      }
    }

    /** The body of the execution loop. */
    method RunPass()
      requires nextEvent.Some?
      modifies this
      ensures View() == Pass(model, world, old(View()))
    {
      hide RunBlocks, Blocks, Begin, Finish, Clock;
      var at := StateNamed(model, state);
      var blocks := if at.Some? then Blocks(model[at.value].events, nextEvent.value) else [];
      BeginPass();
      if blocks == [] {
        aborted := true;
      } else {
        PerformBlocks(model[at.value], blocks);
        FinishPass();
      }
    }

    method CountExecution()
      modifies this`epoch
      ensures Clock() == old(Clock()).(epoch := old(Clock()).epoch + 1)
    {
      epoch := epoch + 1;
    }

    /** The event to execute is the next event; a pending wakeup is cancelled. */
    method PrepareEvent(ev: Option<string>)
      modifies this`nextEvent, this`epoch, this`live, this`wakeupTimer
      ensures View() == Prepare(old(View()), ev)
    {
      hide Cancel, Clock;
      nextEvent := ev;
      CountExecution();
      EndWakeupTimer();
    }

    method Execute(ev: Option<string>, fuel: nat)
      modifies this
      ensures View() == EngineSpec.Execute(model, world, old(View()), ev, fuel)
    {
      hide Pass, Prepare;
      PrepareEvent(ev);
      ghost var prepared := View();
      var left := fuel;
      while left > 0 && !terminated && !fsmStopped && !aborted && nextEvent != None
        invariant Loop(model, world, View(), left) == Loop(model, world, prepared, fuel)
      {
        RunPass();
        left := left - 1;
      }
    }

    // -------------------------------------------------------------- reactor callbacks

    method HandleHeartbeat(fuel: nat)
      modifies this
      ensures View() == EngineSpec.HandleHeartbeat(model, world, old(View()), fuel)
    {
      hide EngineSpec.Execute, Rearm, Clock;
      Execute(Some("heartbeat"), fuel);
      if terminated { return; }
      ArmHeartbeatTimer();
    }

    method HandleExpiry(fuel: nat)
      modifies this
      ensures View() == EngineSpec.HandleExpiry(model, world, old(View()), fuel)
    {
      hide EngineSpec.Execute, Rearm, Clock;
      Execute(Some("expired"), fuel);
      if terminated { return; }
      ArmExpiryTimer();
    }

    method HandleWakeup(fuel: nat)
      modifies this
      ensures View() == EngineSpec.HandleWakeup(model, world, old(View()), fuel)
    {
      Execute(wakeupEvent, fuel);
    }

    method HandleCmdpipe(command: ApiCommand, fuel: nat)
      modifies this
      ensures View() == HandleCommand(model, world, old(View()), command, fuel)
    {
      match command
      case Term => terminated := true;
      case Method(ev) => Execute(Some(ev), fuel);
      case Other =>
    }

    /** Any input from the server counts as activity: reset the expiry timer. */
    method HearMessage()
      modifies this`heard, this`live, this`lastTimer, this`expiryTimer
      ensures Clock() == Hear(model, old(Clock()))
    {
      hide ClassEvent, Rearm, Cancel;
      heard := heard + 1;
      if ClassEvent(model, "expired") {
        EndExpiryTimer();
        ArmExpiryTimer();
      }
    }

    /** One turn of the loop over messages from the server. */
    method HandleProtocol(ev: Option<string>, fuel: nat)
      modifies this
      ensures View() == EngineSpec.HandleProtocol(model, world, old(View()), ev, fuel)
    {
      hide EngineSpec.Execute, Hear, Clock;
      HearMessage();
      if ev == None {
        terminated := true;
      }
      Execute(ev, fuel);
    }

    /** The reactor runs the handler of a due timer, which is one-shot. */
    method FireTimer(id: nat, fuel: nat)
      requires id in live
      modifies this
      ensures View() == HandleTimer(model, world, old(View()), id, fuel)
    {
      hide EngineSpec.HandleWakeup, EngineSpec.HandleHeartbeat, EngineSpec.HandleExpiry;
      var kind := live[id].kind;
      TimerEnd(id);
      match kind
      case Wakeup => HandleWakeup(fuel);
      case Heartbeat => HandleHeartbeat(fuel);
      case Expiry => HandleExpiry(fuel);
    }

    method PassTime(ms: nat)
      modifies this`now
      ensures Clock() == old(Clock()).(now := old(Clock()).now + ms)
    {
      now := now + ms;
    }

    /** The reactor delivers one input, unless it has ended; timers only when they are due. */
    method Deliver(input: Input, fuel: nat)
      modifies this
      ensures View() == Step(model, world, old(View()), input, fuel)
    {
      hide HandleTimer, HandleCommand, EngineSpec.HandleProtocol, EngineSpec.Execute, RunCalls;
      if terminated || aborted { return; }
      match input
      case Tick(ms) => PassTime(ms);
      case Fire(id) =>
        if id in live && live[id].due <= now {
          FireTimer(id, fuel);
        }
      case Command(command) => HandleCmdpipe(command, fuel);
      case ServerMessage(ev) => HandleProtocol(ev, fuel);
      case Application(list, executes, ev) =>
        EngineCalls(list);
        if executes {
          Execute(ev, fuel);
        }
    }

    /** zloop_start: whatever inputs arrive, in whatever order. */
    method React(stimuli: seq<Stimulus>)
      modifies this
      ensures View() == Run(model, world, old(View()), stimuli)
    {
      hide Step, View;
      for i := 0 to |stimuli|
        invariant View() == Run(model, world, old(View()), stimuli[..i])
      {
        assert stimuli[..i + 1][..i] == stimuli[..i];
        Deliver(stimuli[i].input, stimuli[i].fuel);
      }
      assert stimuli[..|stimuli|] == stimuli;
    }
  }
}
