/**
 What every execution keeps of the engine's three timers, over whole runs of the reactor.
 */
module EngineTimers {
  import opened Options
  import opened Superstates
  import opened EngineSpec

  // ---------------------------------------------------------------- the invariant

  /** The recorded timer of a kind is live. */
  predicate Live(t: Timers, k: TimerKind) {
    Recorded(t, k) in t.live
  }

  /**
   A live timer is the one on record for its kind. An alarm was armed since the last execution began,
   with the recorded event; a periodic timer is due a full interval after it was armed, and no server
   message has been handled since an expiry timer was armed.
   */
  ghost predicate Proper(m: Model, t: Timers, id: nat)
    requires id in t.live
  {
    var timer := t.live[id];
    && 0 < id == Recorded(t, timer.kind)
    && if timer.kind == Wakeup then timer.epoch == t.epoch && timer.event == t.wakeupEvent
       else
         && Interval(t, timer.kind) > 0 && ClassEvent(m, EventOf(timer.kind))
         && timer.due == timer.armed + Interval(t, timer.kind) && timer.armed <= t.now
         && (timer.kind == Expiry ==> timer.heard == t.heard)
  }

  /** Ids are given out in order, and a recorded id is never another kind's live timer. */
  ghost predicate Own(t: Timers, k: TimerKind) {
    Recorded(t, k) <= t.lastTimer && (Recorded(t, k) in t.live ==> t.live[Recorded(t, k)].kind == k)
  }

  /** The invariant, for the kinds in ks: alarms alone, or all three. */
  ghost predicate Good(m: Model, t: Timers, ks: set<TimerKind>) {
    && (forall id :: id in t.live ==> 0 < id <= t.lastTimer && (t.live[id].kind in ks ==> Proper(m, t, id)))
    && Own(t, Wakeup) && Own(t, Heartbeat) && Own(t, Expiry)
  }

  lemma OldStaysProper(m: Model, t: Timers, b: Timers, k: TimerKind, id: nat)
    requires id in t.live && Proper(m, t, id) && t.live[id].kind != k
    requires id in b.live && b.live[id] == t.live[id]
    requires b.epoch == t.epoch && b.now == t.now && b.heard == t.heard
    requires k == Wakeup || b.wakeupEvent == t.wakeupEvent
    requires forall k' :: k' != k ==> Recorded(b, k') == Recorded(t, k')
    requires k == Expiry || b.expiry == t.expiry
    requires k == Heartbeat || b.heartbeat == t.heartbeat
    ensures Proper(m, b, id)
  {
    hide ClassEvent;
  }

  lemma CancelKeeps(m: Model, ks: set<TimerKind>, t: Timers, k: TimerKind)
    requires Good(m, t, ks)
    ensures Good(m, Cancel(t, k), ks) && !Live(Cancel(t, k), k) && Recorded(Cancel(t, k), k) == 0
    ensures forall k' :: k' != k ==> (Live(Cancel(t, k), k') <==> Live(t, k'))
  {
    hide ClassEvent, Proper;
    var b := Cancel(t, k);
    forall id | id in b.live && b.live[id].kind in ks ensures Proper(m, b, id) {
      RecordedKind(m, t, id);
      OldStaysProper(m, t, b, k, id);
    }
  }

  lemma ArmKeeps(m: Model, ks: set<TimerKind>, t: Timers, k: TimerKind, delay: nat, event: Option<string>)
    requires Good(m, t, ks) && (k in ks ==> !Live(t, k))
    requires k != Wakeup ==> delay == Interval(t, k) > 0 && ClassEvent(m, EventOf(k))
    ensures var b := Arm(t, k, delay, event);
      && Good(m, if k == Wakeup then b.(wakeupEvent := event) else b, ks)
      && Live(b, k)
      && forall k' :: k' != k ==> (Live(b, k') <==> Live(t, k'))
  {
    hide ClassEvent, Proper;
    var a := Arm(t, k, delay, event);
    var b := if k == Wakeup then a.(wakeupEvent := event) else a;
    NewIsProper(m, t, k, delay, event);
    forall id | id in b.live && b.live[id].kind in ks ensures Proper(m, b, id) {
      if id != t.lastTimer + 1 {
        RecordedKind(m, t, id);
        OldStaysProper(m, t, b, k, id);
      }
    }
  }

  lemma RecordedKind(m: Model, t: Timers, id: nat)
    requires id in t.live && Proper(m, t, id)
    ensures Recorded(t, t.live[id].kind) == id > 0
    ensures t.live[id].kind != Wakeup ==> ClassEvent(m, EventOf(t.live[id].kind)) && Interval(t, t.live[id].kind) > 0
  {
  }

  lemma NewIsProper(m: Model, t: Timers, k: TimerKind, delay: nat, event: Option<string>)
    requires k != Wakeup ==> delay == Interval(t, k) > 0 && ClassEvent(m, EventOf(k))
    ensures var a := Arm(t, k, delay, event);
      var b := if k == Wakeup then a.(wakeupEvent := event) else a;
      Proper(m, b, t.lastTimer + 1)
  {
    hide ClassEvent;
  }

  lemma IntervalKeeps(m: Model, ks: set<TimerKind>, t: Timers, k: TimerKind, interval: nat)
    requires Good(m, t, ks) && (k in ks ==> !Live(t, k)) && k != Wakeup
    ensures var b := SetInterval(t, k, interval);
      Good(m, b, ks) && Interval(b, k) == interval && forall k' :: Live(b, k') <==> Live(t, k')
    ensures var b := SetInterval(t, k, interval);
      forall k' :: k' != k && k' != Wakeup ==> Interval(b, k') == Interval(t, k')
  {
    hide ClassEvent, Proper;
    var b := SetInterval(t, k, interval);
    forall id | id in b.live && b.live[id].kind in ks ensures Proper(m, b, id) {
      RecordedKind(m, t, id);
      OldStaysProper(m, t, b, k, id);
    }
  }

  lemma IntervalCancelCommute(t: Timers, k: TimerKind, interval: nat)
    requires k != Wakeup
    ensures Cancel(SetInterval(t, k, interval), k) == SetInterval(Cancel(t, k), k, interval)
  {
  }

  /** Setting a period leaves its timer live exactly when the period is not zero, and the other alone. */
  lemma {:induction false} SetPeriodKeeps(m: Model, ks: set<TimerKind>, t: Timers, k: TimerKind, interval: nat)
    requires Good(m, t, ks) && k != Wakeup
    ensures var b := SetPeriod(m, t, k, interval);
      && Good(m, b, ks) && Interval(b, k) == interval && (ClassEvent(m, EventOf(k)) ==> (Live(b, k) <==> interval > 0))
      && b.now == t.now && b.epoch == t.epoch && b.heard == t.heard
    ensures var b := SetPeriod(m, t, k, interval);
      forall k' :: k' != k && k' != Wakeup ==> Interval(b, k') == Interval(t, k') && (Live(b, k') <==> Live(t, k'))
  {
    hide ClassEvent, Proper, Live;
    var c := SetInterval(Cancel(t, k), k, interval);
    if ClassEvent(m, EventOf(k)) {
      CancelKeeps(m, ks, t, k);
      IntervalKeeps(m, ks, Cancel(t, k), k, interval);
      IntervalCancelCommute(t, k, interval);
      if interval > 0 { ArmKeeps(m, ks, c, k, interval, None); }
    } else {
      if k in ks { NotDeclaredNotLive(m, ks, t, k); }
      IntervalKeeps(m, ks, t, k, interval);
    }
  }

  lemma NotDeclaredNotLive(m: Model, ks: set<TimerKind>, t: Timers, k: TimerKind)
    requires Good(m, t, ks) && k in ks && k != Wakeup && !ClassEvent(m, EventOf(k))
    ensures !Live(t, k)
  {
    hide ClassEvent, Proper;
    if Live(t, k) { RecordedKind(m, t, Recorded(t, k)); }
  }

  lemma SetAlarmKeeps(m: Model, ks: set<TimerKind>, t: Timers, delay: nat, event: Option<string>)
    requires Good(m, t, ks)
    ensures var b := SetAlarm(t, delay, event);
      && Good(m, b, ks) && b.now == t.now && b.epoch == t.epoch && b.heard == t.heard
      && forall k :: k != Wakeup ==> Interval(b, k) == Interval(t, k) && (Live(b, k) <==> Live(t, k))
  {
    hide ClassEvent, Proper;
    CancelKeeps(m, ks, t, Wakeup);
    ArmKeeps(m, ks, Cancel(t, Wakeup), Wakeup, delay, event);
  }

  // ---------------------------------------------------------------- what running actions does

  /** The interval last set among some engine calls. */
  function LastSet(calls: seq<Call>, k: TimerKind): Option<nat> {
    if calls == [] then None else
      match calls[|calls| - 1]
      case SetExpiry(interval) => if k == Expiry then Some(interval) else LastSet(calls[..|calls| - 1], k)
      case SetHeartbeat(interval) => if k == Heartbeat then Some(interval) else LastSet(calls[..|calls| - 1], k)
      case _ => LastSet(calls[..|calls| - 1], k)
  }

  /** Calls made from a to b: the last interval set decides whether a timer is live, if any was set. */
  ghost predicate Effect(m: Model, a: Engine, b: Engine, k: TimerKind) {
    a.calls <= b.calls
    && var last := LastSet(b.calls[|a.calls|..], k);
    if last.None? then
      Interval(b.timers, k) == Interval(a.timers, k) && (Live(b.timers, k) <==> Live(a.timers, k))
    else
      Interval(b.timers, k) == last.value && (ClassEvent(m, EventOf(k)) ==> (Live(b.timers, k) <==> last.value > 0))
  }

  /** What any stretch of execution keeps: histories grow, the outside world stands still. */
  ghost predicate Evolves(m: Model, ks: set<TimerKind>, a: Engine, b: Engine) {
    && a.log <= b.log && a.calls <= b.calls && a.moves <= b.moves && a.passes <= b.passes
    && b.timers.now == a.timers.now && b.timers.heard == a.timers.heard && b.timers.epoch == a.timers.epoch
    && b.terminated == a.terminated && (a.fsmStopped ==> b.fsmStopped) && (a.aborted ==> b.aborted)
    && (Good(m, a.timers, ks) ==> Good(m, b.timers, ks))
    && (Good(m, a.timers, ks) ==> Effect(m, a, b, Heartbeat) && Effect(m, a, b, Expiry))
  }

  lemma {:induction false} LastSetAppend(c: seq<Call>, d: seq<Call>, k: TimerKind)
    ensures LastSet(c + d, k) == if LastSet(d, k).Some? then LastSet(d, k) else LastSet(c, k)
  {
    if d == [] {
      assert c + d == c;
    } else {
      assert (c + d)[..|c + d| - 1] == c + d[..|d| - 1];
      LastSetAppend(c, d[..|d| - 1], k);
    }
  }

  lemma EffectTrans(m: Model, a: Engine, b: Engine, c: Engine, k: TimerKind)
    requires Effect(m, a, b, k) && Effect(m, b, c, k)
    ensures Effect(m, a, c, k)
  {
    hide Live, LastSet, ClassEvent, Interval;
    var x, y := b.calls[|a.calls|..], c.calls[|b.calls|..];
    assert c.calls[|a.calls|..] == x + y;
    LastSetAppend(x, y, k);
  }

  lemma EvolvesTrans(m: Model, ks: set<TimerKind>, a: Engine, b: Engine, c: Engine)
    requires Evolves(m, ks, a, b) && Evolves(m, ks, b, c)
    ensures Evolves(m, ks, a, c)
  {
    hide Effect, Good;
    if Good(m, a.timers, ks) {
      EffectTrans(m, a, b, c, Heartbeat);
      EffectTrans(m, a, b, c, Expiry);
    }
  }

  /** Steps that make no engine call and touch no timer. */
  lemma EvolvesQuietly(m: Model, ks: set<TimerKind>, a: Engine, b: Engine)
    requires a.log <= b.log && a.calls == b.calls && a.moves <= b.moves && a.passes <= b.passes
    requires b.timers == a.timers && b.terminated == a.terminated
    requires (a.fsmStopped ==> b.fsmStopped) && (a.aborted ==> b.aborted)
    ensures Evolves(m, ks, a, b)
  {
    hide Good;
    assert b.calls[|a.calls|..] == [];
  }

  lemma OneCall(a: Engine, call: Call, k: TimerKind)
    ensures (a.calls + [call])[|a.calls|..] == [call]
    ensures LastSet([call], k) == match call
      case SetExpiry(interval) => if k == Expiry then Some(interval) else None
      case SetHeartbeat(interval) => if k == Heartbeat then Some(interval) else None
      case _ => None
  {
    assert [call][..0] == [];
  }

  lemma EvolvesCall(m: Model, ks: set<TimerKind>, e: Engine, call: Call)
    ensures Evolves(m, ks, e, RunCall(m, e, call))
  {
    hide Good, ClassEvent, LastSet, Live, SetPeriod, SetAlarm;
    OneCall(e, call, Heartbeat);
    OneCall(e, call, Expiry);
    CallClock(m, e, call);
    if Good(m, e.timers, ks) {
      match call
      case SetWakeup(delay, event) => SetAlarmKeeps(m, ks, e.timers, delay, event);
      case SetHeartbeat(interval) => SetPeriodKeeps(m, ks, e.timers, Heartbeat, interval);
      case SetExpiry(interval) => SetPeriodKeeps(m, ks, e.timers, Expiry, interval);
      case _ =>
    }
  }

  predicate SameClock(t: Timers, b: Timers) {
    b.now == t.now && b.heard == t.heard && b.epoch == t.epoch
  }

  lemma PeriodClock(m: Model, t: Timers, k: TimerKind, interval: nat)
    ensures SameClock(t, SetPeriod(m, t, k, interval))
  {
    hide ClassEvent;
  }

  lemma CallClock(m: Model, e: Engine, call: Call)
    ensures SameClock(e.timers, RunCall(m, e, call).timers)
  {
    hide SetPeriod;
    PeriodClock(m, e.timers, Heartbeat, if call.SetHeartbeat? then call.interval else 0);
    PeriodClock(m, e.timers, Expiry, if call.SetExpiry? then call.interval else 0);
  }

  lemma {:induction false} EvolvesCalls(m: Model, ks: set<TimerKind>, e: Engine, calls: seq<Call>)
    ensures Evolves(m, ks, e, RunCalls(m, e, calls))
    decreases |calls|
  {
    hide Evolves, RunCall;
    if calls == [] {
      EvolvesQuietly(m, ks, e, e);
    } else {
      EvolvesCall(m, ks, e, calls[0]);
      EvolvesCalls(m, ks, RunCall(m, e, calls[0]), calls[1..]);
      EvolvesTrans(m, ks, e, RunCall(m, e, calls[0]), RunCalls(m, e, calls));
    }
  }

  lemma EvolvesAction(m: Model, ks: set<TimerKind>, w: World, e: Engine, ran: Ran)
    ensures Evolves(m, ks, e, RunAction(m, w, e, ran))
  {
    hide Evolves, RunCalls;
    var b := e.(log := e.log + [ran]);
    if ran.action.name == "send" {
      EvolvesQuietly(m, ks, e, b);
    } else if ran.action.name == "terminate" {
      EvolvesQuietly(m, ks, e, b.(fsmStopped := true));
    } else {
      var c := b.(invoked := b.invoked + 1);
      EvolvesQuietly(m, ks, e, c);
      EvolvesCalls(m, ks, c, w(b.invoked));
      EvolvesTrans(m, ks, e, c, RunAction(m, w, e, ran));
    }
  }

  lemma {:induction false} EvolvesActions(m: Model, ks: set<TimerKind>, w: World, e: Engine, list: seq<Ran>)
    ensures Evolves(m, ks, e, RunActions(m, w, e, list))
    decreases |list|
  {
    hide Evolves, RunAction;
    if list == [] {
      EvolvesQuietly(m, ks, e, e);
    } else {
      var b := if e.exception.None? then RunAction(m, w, e, list[0]) else e;
      if e.exception.None? { EvolvesAction(m, ks, w, e, list[0]); } else { EvolvesQuietly(m, ks, e, e); }
      EvolvesActions(m, ks, w, b, list[1..]);
      EvolvesTrans(m, ks, e, b, RunActions(m, w, e, list));
    }
  }

  lemma EvolvesBlock(m: Model, ks: set<TimerKind>, w: World, e: Engine, s: State, ev: Event)
    ensures Evolves(m, ks, e, RunBlock(m, w, e, s, ev))
  {
    hide Evolves, RunActions, Tag, BeforeOf;
    var b := RunActions(m, w, e, Tag(Body(s.name, ev.name), ev.actions));
    EvolvesActions(m, ks, w, e, Tag(Body(s.name, ev.name), ev.actions));
    if ev.next.Some? {
      var c := RunActions(m, w, b, Tag(After(s.name), s.after));
      EvolvesActions(m, ks, w, b, Tag(After(s.name), s.after));
      EvolvesTrans(m, ks, e, b, c);
      var d := if c.exception.Some? then c
               else c.(state := ev.next.value, moves := c.moves + [Move(s.name, ev.next.value)]);
      EvolvesQuietly(m, ks, c, d);
      EvolvesTrans(m, ks, e, c, d);
      var before := Tag(Before(ev.next.value), BeforeOf(m, ev.next.value));
      EvolvesActions(m, ks, w, d, before);
      EvolvesTrans(m, ks, e, d, RunActions(m, w, d, before));
    }
  }

  lemma {:induction false} EvolvesBlocks(
      m: Model, ks: set<TimerKind>, w: World, e: Engine, s: State, blocks: seq<Event>)
    ensures Evolves(m, ks, e, RunBlocks(m, w, e, s, blocks))
    decreases |blocks|
  {
    hide Evolves, RunBlock;
    if blocks == [] {
      EvolvesQuietly(m, ks, e, e);
    } else {
      var b := RunBlock(m, w, e, s, blocks[0]);
      EvolvesBlock(m, ks, w, e, s, blocks[0]);
      EvolvesBlocks(m, ks, w, b, s, blocks[1..]);
      EvolvesTrans(m, ks, e, b, RunBlocks(m, w, b, s, blocks[1..]));
    }
  }

  lemma EvolvesPass(m: Model, ks: set<TimerKind>, w: World, e: Engine)
    ensures Evolves(m, ks, e, Pass(m, w, e))
  {
    hide Evolves, RunBlocks, Chosen;
    var i, blocks := StateNamed(m, e.state), Chosen(m, e);
    EvolvesQuietly(m, ks, e, Begin(e));
    if i.None? || blocks == [] {
      EvolvesQuietly(m, ks, e, Pass(m, w, e));
    } else {
      var b := RunBlocks(m, w, Begin(e), m[i.value], blocks);
      EvolvesBlocks(m, ks, w, Begin(e), m[i.value], blocks);
      EvolvesTrans(m, ks, e, Begin(e), b);
      EvolvesQuietly(m, ks, b, Finish(b));
      EvolvesTrans(m, ks, e, b, Finish(b));
    }
  }

  lemma {:induction false} EvolvesLoop(m: Model, ks: set<TimerKind>, w: World, e: Engine, fuel: nat)
    ensures Evolves(m, ks, e, Loop(m, w, e, fuel))
    decreases fuel
  {
    hide Evolves, Pass;
    if fuel == 0 || !Running(e) {
      EvolvesQuietly(m, ks, e, e);
    } else {
      EvolvesPass(m, ks, w, e);
      EvolvesLoop(m, ks, w, Pass(m, w, e), fuel - 1);
      EvolvesTrans(m, ks, e, Pass(m, w, e), Loop(m, w, e, fuel));
    }
  }

  lemma PrepareKeeps(m: Model, ks: set<TimerKind>, e: Engine, event: Option<string>)
    requires Good(m, e.timers, ks)
    ensures var b := Prepare(e, event);
      && Good(m, b.timers, ks) && !Live(b.timers, Wakeup)
      && b.timers.now == e.timers.now && b.timers.heard == e.timers.heard && b.timers.epoch == e.timers.epoch + 1
      && Effect(m, e, b, Heartbeat) && Effect(m, e, b, Expiry)
  {
    hide ClassEvent, Proper, LastSet;
    var t := e.timers;
    CancelKeeps(m, ks, t, Wakeup);
    var c := Cancel(t, Wakeup);
    var b := Prepare(e, event).timers;
    assert b == c.(epoch := t.epoch + 1);
    forall id | id in b.live && b.live[id].kind in ks ensures Proper(m, b, id) {
      RecordedKind(m, c, id);
      EpochMatters(m, c, b, id);
    }
    assert e.calls[|e.calls|..] == [];
    NothingSet(Heartbeat);
    NothingSet(Expiry);
  }

  lemma NothingSet(k: TimerKind)
    ensures LastSet([], k) == None
  {
  }

  /** Only alarms care how many executions have begun. */
  lemma EpochMatters(m: Model, t: Timers, b: Timers, id: nat)
    requires id in t.live && Proper(m, t, id) && t.live[id].kind != Wakeup && b == t.(epoch := b.epoch)
    ensures Proper(m, b, id)
  {
    hide ClassEvent;
  }

  /** A whole execution keeps the timers in order, and its last calls decide which periodic ones are live. */
  lemma ExecuteKeeps(m: Model, ks: set<TimerKind>, w: World, e: Engine, event: Option<string>, fuel: nat)
    requires Good(m, e.timers, ks)
    ensures var b := Execute(m, w, e, event, fuel);
      && Good(m, b.timers, ks) && b.timers.now == e.timers.now && b.timers.heard == e.timers.heard
      && b.timers.epoch == e.timers.epoch + 1 && b.terminated == e.terminated
      && Effect(m, e, b, Heartbeat) && Effect(m, e, b, Expiry)
  {
    hide Good, Effect, Loop;
    var a := Prepare(e, event);
    PrepareKeeps(m, ks, e, event);
    EvolvesLoop(m, ks, w, a, fuel);
    var b := Loop(m, w, a, fuel);
    EffectTrans(m, e, a, b, Heartbeat);
    EffectTrans(m, e, a, b, Expiry);
  }
}
