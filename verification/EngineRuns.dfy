/**
 Timer guarantees over whole runs of the reactor: alarms, and periodic timers with the exact condition
 under which at most one of a kind is live.
 */
module EngineRuns {
  import opened Options
  import opened Superstates
  import opened EngineSpec
  import opened EngineTimers

  const ALARMS: set<TimerKind> := {Wakeup}

  /** The engine as a fired timer's callback finds it: the one-shot timer is gone, its id still on record. */
  function Fired(e: Engine, id: nat): Engine {
    e.(timers := EndTimer(e.timers, id))
  }

  /** The state machine's part of a periodic callback, before it arms the next timer. */
  function Beaten(m: Model, w: World, e: Engine, id: nat, k: TimerKind, fuel: nat): Engine {
    Execute(m, w, Fired(e, id), Some(EventOf(k)), fuel)
  }

  /**
   For the periodic kinds in ks: the actions run by such a timer's callback leave that timer to the
   callback: they do not set its interval, or set it to zero last.
   */
  ghost predicate Clean(m: Model, ks: set<TimerKind>, w: World, e: Engine, input: Input, fuel: nat) {
    Delivers(e, input) && input.Fire? && e.timers.live[input.id].kind in ks - ALARMS ==>
      var k := e.timers.live[input.id].kind;
      var b := Beaten(m, w, e, input.id, k, fuel);
      e.calls <= b.calls && LastSet(b.calls[|e.calls|..], k) in {None, Some(0)}
  }

  lemma FiredKeeps(m: Model, ks: set<TimerKind>, e: Engine, id: nat)
    requires Good(m, e.timers, ks) && id in e.timers.live
    ensures Good(m, Fired(e, id).timers, ks)
    ensures e.timers.live[id].kind in ks ==> !Live(Fired(e, id).timers, e.timers.live[id].kind)
  {
    hide ClassEvent, Proper;
    var t, b := e.timers, Fired(e, id).timers;
    forall i | i in b.live && b.live[i].kind in ks ensures Proper(m, b, i) {
      StaysProper(m, t, b, i);
    }
    if t.live[id].kind in ks { RecordedKind(m, t, id); }
  }

  lemma StaysProper(m: Model, t: Timers, b: Timers, id: nat)
    requires id in t.live && Proper(m, t, id) && id in b.live && b.live[id] == t.live[id] && b == t.(live := b.live)
    ensures Proper(m, b, id)
  {
    hide ClassEvent;
  }

  /** Moving the clock on keeps every timer in order. */
  lemma TickKeeps(m: Model, ks: set<TimerKind>, t: Timers, ms: nat)
    requires Good(m, t, ks)
    ensures Good(m, t.(now := t.now + ms), ks)
  {
    hide ClassEvent, Proper;
    var b := t.(now := t.now + ms);
    forall id | id in b.live && b.live[id].kind in ks ensures Proper(m, b, id) {
      LaterIsProper(m, t, b, id);
    }
  }

  lemma LaterIsProper(m: Model, t: Timers, b: Timers, id: nat)
    requires id in t.live && Proper(m, t, id) && b == t.(now := b.now) && b.now >= t.now
    ensures Proper(m, b, id)
  {
    hide ClassEvent;
  }

  /** A server message replaces the expiry timer, so none armed before it stays live. */
  lemma HearKeeps(m: Model, ks: set<TimerKind>, t: Timers)
    requires Good(m, t, ks)
    ensures Good(m, Hear(m, t), ks)
  {
    hide ClassEvent, Proper, Live;
    if ClassEvent(m, "expired") {
      CancelKeeps(m, ks, t, Expiry);
      var c := Cancel(t, Expiry);
      HeardKeeps(m, ks, c);
      var d := c.(heard := c.heard + 1);
      assert Cancel(t.(heard := t.heard + 1), Expiry) == d;
      SameLive(c, d);
      if d.expiry > 0 { ArmKeeps(m, ks, d, Expiry, d.expiry, None); }
    } else {
      if Expiry in ks { NotDeclaredNotLive(m, ks, t, Expiry); }
      HeardKeeps(m, ks, t);
    }
  }

  lemma SameLive(t: Timers, b: Timers)
    requires b == t.(heard := b.heard)
    ensures Live(b, Expiry) <==> Live(t, Expiry)
  {
  }

  lemma HeardKeeps(m: Model, ks: set<TimerKind>, t: Timers)
    requires Good(m, t, ks) && (Expiry in ks ==> !Live(t, Expiry))
    ensures Good(m, t.(heard := t.heard + 1), ks)
  {
    hide ClassEvent, Proper;
    var b := t.(heard := t.heard + 1);
    forall id | id in b.live && b.live[id].kind in ks ensures Proper(m, b, id) {
      RecordedKind(m, t, id);
      HeardIsProper(m, t, b, id);
    }
  }

  lemma HeardIsProper(m: Model, t: Timers, b: Timers, id: nat)
    requires id in t.live && Proper(m, t, id) && t.live[id].kind != Expiry && b == t.(heard := b.heard)
    ensures Proper(m, b, id)
  {
    hide ClassEvent;
  }

  /** What the state machine's part of a periodic callback leaves: its last setting decides. */
  lemma BeatenIs(m: Model, ks: set<TimerKind>, w: World, e: Engine, id: nat, k: TimerKind, fuel: nat)
    requires Good(m, e.timers, ks) && id in e.timers.live && e.timers.live[id].kind == k != Wakeup
    ensures var b := Beaten(m, w, e, id, k, fuel);
      && Good(m, b.timers, ks) && b.terminated == e.terminated && e.calls <= b.calls
      && (k in ks ==>
            && ClassEvent(m, EventOf(k))
            && var last := LastSet(b.calls[|e.calls|..], k);
            && (Live(b.timers, k) <==> last.Some? && last.value > 0)
            && Interval(b.timers, k) == last.GetOr(Interval(e.timers, k))
            && Interval(e.timers, k) > 0)
  {
    hide ClassEvent, Proper, Execute, LastSet, Live;
    FiredKeeps(m, ks, e, id);
    ExecuteKeeps(m, ks, w, Fired(e, id), Some(EventOf(k)), fuel);
    if k in ks { RecordedKind(m, e.timers, id); }
  }

  /** The heartbeat or expiry callback as a whole. */
  lemma PeriodicCallback(m: Model, ks: set<TimerKind>, w: World, e: Engine, id: nat, k: TimerKind, fuel: nat)
    requires Good(m, e.timers, ks) && !e.terminated && !e.aborted
    requires Due(e.timers, id) && e.timers.live[id].kind == k != Wakeup
    ensures var b := Step(m, w, e, Fire(id), fuel);
      Clean(m, ks, w, e, Fire(id), fuel) ==> Good(m, b.timers, ks)
    ensures var b := Step(m, w, e, Fire(id), fuel);
      !Clean(m, ks, w, e, Fire(id), fuel) ==> TwoLive(b.timers, k)
  {
    hide ClassEvent, Proper, Execute, LastSet;
    BeatenIs(m, ks, w, e, id, k, fuel);
    var b := Beaten(m, w, e, id, k, fuel);
    assert Step(m, w, e, Fire(id), fuel) == b.(timers := Rearm(b.timers, k));
    if Clean(m, ks, w, e, Fire(id), fuel) {
      if Interval(b.timers, k) > 0 {
        if k !in ks { assert Good(m, b.timers, ks); }
        RearmKeeps(m, ks, b.timers, k);
      }
    } else {
      var c := Rearm(b.timers, k);
      assert Recorded(b.timers, k) in c.live && b.timers.lastTimer + 1 in c.live;
    }
  }

  lemma RearmKeeps(m: Model, ks: set<TimerKind>, t: Timers, k: TimerKind)
    requires Good(m, t, ks) && k != Wakeup
    requires k in ks ==> !Live(t, k) && ClassEvent(m, EventOf(k))
    ensures Good(m, Rearm(t, k), ks)
  {
  }

  ghost predicate TwoLive(t: Timers, k: TimerKind) {
    exists i, j :: i in t.live && j in t.live && i != j && t.live[i].kind == t.live[j].kind == k
  }

  lemma GoodIsSingle(m: Model, t: Timers, ks: set<TimerKind>, k: TimerKind)
    requires Good(m, t, ks) && k in ks
    ensures !TwoLive(t, k)
  {
    hide ClassEvent, Proper;
    forall id | id in t.live && t.live[id].kind == k ensures id == Recorded(t, k) {
      RecordedKind(m, t, id);
    }
  }

  /**
   From a state in order, a heartbeat or expiry callback leaves two timers of its kind live exactly when
   the last interval its actions set for it is not zero.
   */
  lemma OneLiveExactlyWhenClean(m: Model, w: World, e: Engine, id: nat, k: TimerKind, fuel: nat)
    requires Good(m, e.timers, {k}) && !e.terminated && !e.aborted
    requires Due(e.timers, id) && e.timers.live[id].kind == k != Wakeup
    ensures TwoLive(Step(m, w, e, Fire(id), fuel).timers, k) <==> !Clean(m, {k}, w, e, Fire(id), fuel)
  {
    hide Clean, Step, TwoLive, Good;
    PeriodicCallback(m, {k}, w, e, id, k, fuel);
    if Clean(m, {k}, w, e, Fire(id), fuel) {
      GoodIsSingle(m, Step(m, w, e, Fire(id), fuel).timers, {k}, k);
    }
  }

  // ---------------------------------------------------------------- every input, every run

  /** Every input keeps the timers in order; those of a periodic kind, unless it is their unclean callback. */
  lemma StepKeeps(m: Model, ks: set<TimerKind>, w: World, e: Engine, input: Input, fuel: nat)
    requires Good(m, e.timers, ks) && Clean(m, ks, w, e, input, fuel)
    ensures Good(m, Step(m, w, e, input, fuel).timers, ks)
  {
    hide ClassEvent, Good, Execute, Clean, Hear, RunCalls;
    if Delivers(e, input) {
      match input
      case Tick(ms) => TickKeeps(m, ks, e.timers, ms);
      case Fire(id) =>
        var k := e.timers.live[id].kind;
        if k == Wakeup {
          FiredKeeps(m, ks, e, id);
          ExecuteKeeps(m, ks, w, Fired(e, id), e.timers.wakeupEvent, fuel);
        } else {
          PeriodicCallback(m, ks, w, e, id, k, fuel);
        }
      case Command(command) =>
        if command.Method? { ExecuteKeeps(m, ks, w, e, Some(command.event), fuel); }
      case ServerMessage(event) =>
        HearKeeps(m, ks, e.timers);
        var b := e.(timers := Hear(m, e.timers));
        ExecuteKeeps(m, ks, w, if event.None? then b.(terminated := true) else b, event, fuel);
      case Application(calls, executes, event) =>
        EvolvesCalls(m, ks, e, calls);
        if executes { ExecuteKeeps(m, ks, w, RunCalls(m, e, calls), event, fuel); }
    }
  }

  /** No callback of a periodic kind in ks sets its own interval to something other than zero last. */
  ghost predicate CleanRun(m: Model, ks: set<TimerKind>, w: World, e: Engine, stimuli: seq<Stimulus>) {
    forall n :: 0 <= n < |stimuli| ==>
      Clean(m, ks, w, Run(m, w, e, stimuli[..n]), stimuli[n].input, stimuli[n].fuel)
  }

  lemma {:induction false} RunKeeps(m: Model, ks: set<TimerKind>, w: World, e: Engine, stimuli: seq<Stimulus>)
    requires Good(m, e.timers, ks) && CleanRun(m, ks, w, e, stimuli)
    ensures Good(m, Run(m, w, e, stimuli).timers, ks)
  {
    hide Good, Clean, Step;
    if stimuli != [] {
      var n := |stimuli| - 1;
      assert forall i :: 0 <= i < n ==> stimuli[..n][..i] == stimuli[..i];
      RunKeeps(m, ks, w, e, stimuli[..n]);
      StepKeeps(m, ks, w, Run(m, w, e, stimuli[..n]), stimuli[n].input, stimuli[n].fuel);
    }
  }

  /** For alarms there is nothing to keep clean. */
  lemma AlarmsAreClean(m: Model, w: World, e: Engine, stimuli: seq<Stimulus>)
    ensures CleanRun(m, ALARMS, w, e, stimuli)
  {
    hide Beaten, Run;
  }

  /** A run that is not clean has a first callback that is not. */
  lemma {:induction false} FirstUnclean(
      m: Model, ks: set<TimerKind>, w: World, e: Engine, stimuli: seq<Stimulus>) returns (n: nat)
    requires !CleanRun(m, ks, w, e, stimuli)
    ensures n < |stimuli| && CleanRun(m, ks, w, e, stimuli[..n])
    ensures !Clean(m, ks, w, Run(m, w, e, stimuli[..n]), stimuli[n].input, stimuli[n].fuel)
  {
    hide Clean, Run;
    n := |stimuli| - 1;
    assert forall i :: 0 <= i < n ==> stimuli[..n][..i] == stimuli[..i] && stimuli[..n][i] == stimuli[i];
    if !CleanRun(m, ks, w, e, stimuli[..n]) {
      n := FirstUnclean(m, ks, w, e, stimuli[..n]);
      assert stimuli[..|stimuli| - 1][..n] == stimuli[..n];
    }
  }

  /**
   Over whole runs, for the heartbeat and for the expiry timer each on its own: at no moment are two of
   the kind live exactly when every callback of that kind was clean.
   */
  lemma OneLiveThroughoutExactly(m: Model, k: TimerKind, w: World, stimuli: seq<Stimulus>)
    requires m != [] && k != Wakeup
    ensures CleanRun(m, {k}, w, Start(m), stimuli) <==>
      forall n :: 0 <= n <= |stimuli| ==> !TwoLive(Run(m, w, Start(m), stimuli[..n]).timers, k)
  {
    hide Clean, Run, TwoLive, Good, Step;
    StartIsGood(m, {k});
    if CleanRun(m, {k}, w, Start(m), stimuli) {
      forall n | 0 <= n <= |stimuli| ensures !TwoLive(Run(m, w, Start(m), stimuli[..n]).timers, k) {
        assert forall i :: 0 <= i < n ==> stimuli[..n][..i] == stimuli[..i] && stimuli[..n][i] == stimuli[i];
        RunKeeps(m, {k}, w, Start(m), stimuli[..n]);
        GoodIsSingle(m, Run(m, w, Start(m), stimuli[..n]).timers, {k}, k);
      }
    } else {
      var n := FirstUnclean(m, {k}, w, Start(m), stimuli);
      var e := Run(m, w, Start(m), stimuli[..n]);
      RunKeeps(m, {k}, w, Start(m), stimuli[..n]);
      UncleanFires(m, k, w, e, stimuli[n].input, stimuli[n].fuel);
      OneLiveExactlyWhenClean(m, w, e, stimuli[n].input.id, k, stimuli[n].fuel);
      RunTurn(m, w, Start(m), stimuli, n);
      assert TwoLive(Run(m, w, Start(m), stimuli[..n + 1]).timers, k);
    }
  }

  lemma StartIsGood(m: Model, ks: set<TimerKind>)
    requires m != []
    ensures Good(m, Start(m).timers, ks)
  {
  }

  lemma UncleanFires(m: Model, k: TimerKind, w: World, e: Engine, input: Input, fuel: nat)
    requires !Clean(m, {k}, w, e, input, fuel)
    ensures input.Fire? && Due(e.timers, input.id) && e.timers.live[input.id].kind == k
    ensures !e.terminated && !e.aborted
  {
    hide Beaten;
  }

  lemma RunTurn(m: Model, w: World, e: Engine, stimuli: seq<Stimulus>, n: nat)
    requires n < |stimuli|
    ensures Run(m, w, e, stimuli[..n + 1])
         == Step(m, w, Run(m, w, e, stimuli[..n]), stimuli[n].input, stimuli[n].fuel)
  {
    hide Step;
    assert stimuli[..n + 1][..n] == stimuli[..n];
  }

  /**
   At every moment of every run at most one alarm is live, it is the one on record, it was armed after
   the most recent execution began, and it will deliver the event it was armed with.
   */
  lemma AlarmsAreCurrent(m: Model, w: World, stimuli: seq<Stimulus>, id: nat)
    requires m != []
    requires var t := Run(m, w, Start(m), stimuli).timers; id in t.live && t.live[id].kind == Wakeup
    ensures var t := Run(m, w, Start(m), stimuli).timers;
      id == t.wakeupTimer && t.live[id].epoch == t.epoch && t.live[id].event == t.wakeupEvent
  {
    hide Run, ClassEvent, CleanRun;
    AlarmsAreClean(m, w, Start(m), stimuli);
    RunKeeps(m, ALARMS, w, Start(m), stimuli);
  }

  /** Whatever else begins an execution cancels a pending alarm: afterwards only one armed since is live. */
  lemma ExecutionCancelsAlarm(m: Model, w: World, e: Engine, event: Option<string>, fuel: nat, id: nat)
    requires Good(m, e.timers, ALARMS) && id in e.timers.live && e.timers.live[id].kind == Wakeup
    ensures id !in Prepare(e, event).timers.live
    ensures var t := Execute(m, w, e, event, fuel).timers;
      forall i :: i in t.live && t.live[i].kind == Wakeup ==> t.live[i].epoch == e.timers.epoch + 1
  {
    hide ClassEvent, Execute, LastSet, Live;
    ExecuteKeeps(m, ALARMS, w, e, event, fuel);
  }

  /**
   Expiry means idle: in a run with clean expiry callbacks at most one expiry timer is live, and when
   one is delivered no server message has been handled since it was armed, at least one full expiry
   interval ago.
   */
  lemma {:induction false} ExpiryMeansIdle(m: Model, w: World, stimuli: seq<Stimulus>, id: nat)
    requires m != [] && CleanRun(m, {Expiry}, w, Start(m), stimuli)
    requires var t := Run(m, w, Start(m), stimuli).timers; id in t.live && t.live[id].kind == Expiry
    ensures var t := Run(m, w, Start(m), stimuli).timers;
      && !TwoLive(t, Expiry) && id == t.expiryTimer && t.expiry > 0
      && t.live[id].heard == t.heard
      && (Due(t, id) ==> t.now >= t.live[id].armed + t.expiry)
  {
    hide Run, ClassEvent, TwoLive, CleanRun;
    RunKeeps(m, {Expiry}, w, Start(m), stimuli);
    GoodIsSingle(m, Run(m, w, Start(m), stimuli).timers, {Expiry}, Expiry);
  }

  /**
   The heartbeat comes every interval: in a run with clean heartbeat callbacks its one live timer was
   armed an interval before it is due.
   */
  lemma {:induction false} HeartbeatEveryInterval(m: Model, w: World, stimuli: seq<Stimulus>, id: nat)
    requires m != [] && CleanRun(m, {Heartbeat}, w, Start(m), stimuli)
    requires var t := Run(m, w, Start(m), stimuli).timers; id in t.live && t.live[id].kind == Heartbeat
    ensures var t := Run(m, w, Start(m), stimuli).timers;
      !TwoLive(t, Heartbeat) && id == t.heartbeatTimer && t.live[id].due == t.live[id].armed + t.heartbeat
  {
    hide Run, ClassEvent, TwoLive, CleanRun;
    RunKeeps(m, {Heartbeat}, w, Start(m), stimuli);
    GoodIsSingle(m, Run(m, w, Start(m), stimuli).timers, {Heartbeat}, Heartbeat);
  }

  // ---------------------------------------------------------------- a callback that is not clean

  function RearmingModel(): (m: Model)
    ensures m != []
  {
    [State("a", None, [Event("expired", None, [Action("rearm", "")])], [], [])]
  }

  /** Whatever action runs sets the expiry interval to 7. */
  function RearmingWorld(): World {
    n => [SetExpiry(7)]
  }

  function RearmingRun(): seq<Stimulus> {
    [Stimulus(Application([SetExpiry(5)], false, None), 0), Stimulus(Tick(5), 0), Stimulus(Fire(1), 1)]
  }

  lemma RearmingClass()
    ensures ClassEvent(RearmingModel(), "expired")
  {
    assert RearmingModel()[0].events[0].name == "expired";
    assert Has(RearmingModel()[0].events, "expired");
  }

  /** The application sets an interval of 5, and 5 milliseconds pass: timer 1 is due. */
  lemma RearmingStarts()
    ensures var e := Run(RearmingModel(), RearmingWorld(), Start(RearmingModel()), RearmingRun()[..2]);
      && Due(e.timers, 1) && e.timers.live[1].kind == Expiry && !e.terminated && !e.aborted
      && e.state == "a" && !e.fsmStopped
  {
    hide Step;
    var m, w := RearmingModel(), RearmingWorld();
    RunTurn(m, w, Start(m), RearmingRun(), 0);
    RunTurn(m, w, Start(m), RearmingRun(), 1);
    assert RearmingRun()[..0] == [];
    IntervalIsSet();
    var e := Step(m, w, Start(m), Application([SetExpiry(5)], false, None), 0);
    TimePasses(m, w, e, 5);
  }

  lemma IntervalIsSet()
    ensures var m := RearmingModel();
      Step(m, RearmingWorld(), Start(m), Application([SetExpiry(5)], false, None), 0)
      == Start(m).(calls := [SetExpiry(5)],
                   timers := Start(m).timers.(expiry := 5, expiryTimer := 1, lastTimer := 1,
                                              live := map[1 := Timer(Expiry, 5, 0, 0, 0, None)]))
  {
    hide ClassEvent;
    RearmingClass();
    var m := RearmingModel();
    assert [SetExpiry(5)][1..] == [];
    assert RunCalls(m, Start(m), [SetExpiry(5)]) == RunCall(m, Start(m), SetExpiry(5));
  }

  lemma TimePasses(m: Model, w: World, e: Engine, ms: nat)
    requires !e.terminated && !e.aborted
    ensures Step(m, w, e, Tick(ms), 0) == e.(timers := e.timers.(now := e.timers.now + ms))
  {
  }

  /** The expiry callback runs the one action, which makes its one call. */
  lemma RearmingCalls(e: Engine)
    requires e.state == "a" && !e.terminated && !e.fsmStopped && !e.aborted
    ensures var b := Execute(RearmingModel(), RearmingWorld(), e, Some("expired"), 1);
      e.calls <= b.calls && b.calls[|e.calls|..] == [SetExpiry(7)]
  {
    hide RunBlock, Cancel, Chosen;
    var m, w := RearmingModel(), RearmingWorld();
    var p, ev := Prepare(e, Some("expired")), m[0].events[0];
    RearmingChosen(p);
    RearmingBlock(Begin(p));
    assert [ev][1..] == [];
    assert RunBlocks(m, w, Begin(p), m[0], [ev]) == RunBlock(m, w, Begin(p), m[0], ev);
    assert Execute(m, w, e, Some("expired"), 1) == Pass(m, w, p);
  }

  lemma RearmingChosen(p: Engine)
    requires p.state == "a" && p.nextEvent == Some("expired")
    ensures StateNamed(RearmingModel(), p.state) == Some(0)
    ensures Chosen(RearmingModel(), p) == [RearmingModel()[0].events[0]]
  {
    var events := RearmingModel()[0].events;
    assert events[0].name == "expired" && events[1..] == [];
    assert Find(events, "expired") == Some(events[0]);
    assert Find(events, WILDCARD) == None;
  }

  lemma RearmingBlock(e: Engine)
    requires e.exception.None?
    ensures var m := RearmingModel();
      RunBlock(m, RearmingWorld(), e, m[0], m[0].events[0]).calls == e.calls + [SetExpiry(7)]
  {
    hide SetPeriod;
    var m, w := RearmingModel(), RearmingWorld();
    var ran := Ran(Body("a", "expired"), 0, Action("rearm", ""));
    assert Tag(Body("a", "expired"), m[0].events[0].actions) == [ran];
    assert [ran][1..] == [] && [SetExpiry(7)][1..] == [];
    var c := e.(log := e.log + [ran], invoked := e.invoked + 1);
    assert RunCalls(m, c, [SetExpiry(7)]) == RunCall(m, c, SetExpiry(7));
    assert RunAction(m, w, e, ran) == RunCalls(m, c, [SetExpiry(7)]);
    var b := RunAction(m, w, e, ran);
    assert RunActions(m, w, b, []) == b;
    assert RunActions(m, w, e, [ran]) == RunActions(m, w, b, [ran][1..]);
  }

  /** An expiry action that sets the expiry interval again: the callback leaves two expiry timers live. */
  lemma RearmingLeavesTwoTimers()
    ensures var m := RearmingModel();
      TwoLive(Run(m, RearmingWorld(), Start(m), RearmingRun()).timers, Expiry)
  {
    hide Run, Step, TwoLive, Execute, RearmingModel, RearmingWorld, ClassEvent, CleanRun;
    var m, w := RearmingModel(), RearmingWorld();
    var e := Run(m, w, Start(m), RearmingRun()[..2]);
    RearmingStarts();
    RearmingIsGood();
    RearmingCalls(Fired(e, 1));
    RearmingIsUnclean(e);
    OneLiveExactlyWhenClean(m, w, e, 1, Expiry, 1);
    RunTurn(m, w, Start(m), RearmingRun(), 2);
    assert RearmingRun()[..3] == RearmingRun();
  }

  lemma RearmingIsUnclean(e: Engine)
    requires Due(e.timers, 1) && e.timers.live[1].kind == Expiry && !e.terminated && !e.aborted
    requires var b := Execute(RearmingModel(), RearmingWorld(), Fired(e, 1), Some("expired"), 1);
      Fired(e, 1).calls <= b.calls && b.calls[|Fired(e, 1).calls|..] == [SetExpiry(7)]
    ensures !Clean(RearmingModel(), {Expiry}, RearmingWorld(), e, Fire(1), 1)
  {
    hide Execute;
    assert LastSet([SetExpiry(7)], Expiry) == Some(7);
  }

  lemma RearmingIsGood()
    ensures var m := RearmingModel();
      Good(m, Run(m, RearmingWorld(), Start(m), RearmingRun()[..2]).timers, {Expiry})
  {
    hide Run, Good;
    var m := RearmingModel();
    StartIsGood(m, {Expiry});
    RunKeeps(m, {Expiry}, RearmingWorld(), Start(m), RearmingRun()[..2]);
  }
}
