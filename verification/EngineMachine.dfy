/**
 The engine against the documented machine: what one pass does, in terms of the model as written and
 of the calls its actions make; termination; before and after blocks over whole runs.
 */
module EngineMachine {
  import opened Options
  import opened Superstates
  import opened EngineSpec

  // ---------------------------------------------------------------- the documented effect of a list of actions

  /** The exception a series of engine calls leaves set. */
  function LastException(calls: seq<Call>, before: Option<string>): Option<string> {
    if calls == [] then before else
      match calls[|calls| - 1]
      case SetException(event) => event
      case _ => LastException(calls[..|calls| - 1], before)
  }

  /** The next event a series of engine calls leaves requested. */
  function LastNext(calls: seq<Call>, before: Option<string>): Option<string> {
    if calls == [] then before else
      match calls[|calls| - 1]
      case SetNextEvent(event) => event
      case _ => LastNext(calls[..|calls| - 1], before)
  }

  /** The connected flag a series of engine calls leaves. */
  function LastConnected(calls: seq<Call>, before: bool): bool {
    if calls == [] then before else
      match calls[|calls| - 1]
      case SetConnected(connected) => connected
      case _ => LastConnected(calls[..|calls| - 1], before)
  }

  function CallsOf(w: World, n: nat, a: Action): seq<Call> {
    if IsUser(a) then w(n) else []
  }

  function Users(list: seq<Ran>): nat {
    if list == [] then 0 else Users(list[..|list| - 1]) + (if IsUser(list[|list| - 1].action) then 1 else 0)
  }

  /** The calls made by the whole of a list of actions, the first application action being the n-th ever. */
  function AllCalls(w: World, n: nat, list: seq<Ran>): seq<Call> {
    if list == [] then [] else
      var init := list[..|list| - 1];
      AllCalls(w, n, init) + CallsOf(w, n + Users(init), list[|list| - 1].action)
  }

  /** The exception an action leaves set, run as the n-th application action if it is one. */
  function RaisedBy(w: World, n: nat, ran: Ran): Option<string> {
    LastException(CallsOf(w, n, ran.action), None)
  }

  /** The j-th action of the list leaves an exception set. */
  predicate RaisesAt(w: World, n: nat, list: seq<Ran>, j: nat)
    requires j < |list|
  {
    RaisedBy(w, n + Users(list[..j]), list[j]).Some?
  }

  predicate Terminates(list: seq<Ran>) {
    exists j :: 0 <= j < |list| && list[j].action.name == "terminate"
  }

  /**
   k actions of the list run: all of them, or those up to and including the first that leaves an
   exception set.
   */
  ghost predicate RunsPrefix(w: World, n: nat, list: seq<Ran>, k: nat, exception: Option<string>) {
    && k <= |list|
    && (forall j :: 0 <= j < k && (j < k - 1 || exception.None?) ==> !RaisesAt(w, n, list, j))
    && (exception.None? ==> k == |list|)
    && (exception.Some? ==> k > 0 && exception == RaisedBy(w, n + Users(list[..k - 1]), list[k - 1]))
  }

  // ---------------------------------------------------------------- what running actions does

  /** Engine calls touch only the requests, the exception, the timers and the connected flag. */
  ghost predicate SameFlow(a: Engine, b: Engine) {
    && a.state == b.state && a.moves == b.moves && a.event == b.event && a.passes == b.passes
    && a.raised == b.raised && a.terminated == b.terminated && a.aborted == b.aborted
  }

  lemma RunCallsLast(m: Model, e: Engine, calls: seq<Call>, last: Call)
    ensures RunCalls(m, e, calls + [last]) == RunCall(m, RunCalls(m, e, calls), last)
    decreases |calls|
  {
    hide RunCall;
    if calls == [] {
      assert ([] + [last])[1..] == [];
    } else {
      assert (calls + [last])[1..] == calls[1..] + [last];
      RunCallsLast(m, RunCall(m, e, calls[0]), calls[1..], last);
    }
  }

  lemma CallRun(m: Model, e: Engine, call: Call)
    ensures var b := RunCall(m, e, call);
      && SameFlow(e, b) && b.log == e.log && b.fsmStopped == e.fsmStopped && b.invoked == e.invoked
      && b.exception == (if call.SetException? then call.event else e.exception)
      && b.nextEvent == (if call.SetNextEvent? then call.event else e.nextEvent)
      && b.connected == (if call.SetConnected? then call.connected else e.connected)
      && b.calls == e.calls + [call]
  {
    hide SetPeriod, SetAlarm;
  }

  lemma {:induction false} CallsRun(m: Model, e: Engine, calls: seq<Call>)
    ensures var b := RunCalls(m, e, calls);
      && SameFlow(e, b) && b.log == e.log && b.fsmStopped == e.fsmStopped && b.invoked == e.invoked
      && b.exception == LastException(calls, e.exception) && b.nextEvent == LastNext(calls, e.nextEvent)
      && b.connected == LastConnected(calls, e.connected) && b.calls == e.calls + calls
    decreases |calls|
  {
    hide RunCall, RunCalls;
    if calls == [] {
      NoCalls(m, e);
    } else {
      var init, last := calls[..|calls| - 1], calls[|calls| - 1];
      assert calls == init + [last];
      CallsRun(m, e, init);
      CallRun(m, RunCalls(m, e, init), last);
      RunCallsLast(m, e, init, last);
    }
  }

  lemma NoCalls(m: Model, e: Engine)
    ensures RunCalls(m, e, []) == e
  {
  }

  lemma ActionRun(m: Model, w: World, e: Engine, ran: Ran)
    requires e.exception.None?
    ensures var b := RunAction(m, w, e, ran);
      var calls := CallsOf(w, e.invoked, ran.action);
      && SameFlow(e, b) && b.log == e.log + [ran]
      && b.fsmStopped == (e.fsmStopped || ran.action.name == "terminate")
      && b.invoked == e.invoked + (if IsUser(ran.action) then 1 else 0)
      && b.exception == RaisedBy(w, e.invoked, ran) && b.nextEvent == LastNext(calls, e.nextEvent)
      && b.connected == LastConnected(calls, e.connected) && b.calls == e.calls + calls
  {
    hide RunCalls;
    if IsUser(ran.action) {
      var c := e.(log := e.log + [ran], invoked := e.invoked + 1);
      CallsRun(m, c, w(e.invoked));
    }
  }

  lemma {:induction false} SkipActions(m: Model, w: World, e: Engine, list: seq<Ran>)
    requires e.exception.Some?
    ensures RunActions(m, w, e, list) == e
    decreases |list|
  {
    if list != [] { SkipActions(m, w, e, list[1..]); }
  }

  lemma RunActionsLast(m: Model, w: World, e: Engine, list: seq<Ran>, last: Ran)
    ensures var b := RunActions(m, w, e, list);
      RunActions(m, w, e, list + [last]) == if b.exception.None? then RunAction(m, w, b, last) else b
    decreases |list|
  {
    hide RunAction;
    if list == [] {
      assert ([] + [last])[1..] == [];
    } else {
      assert (list + [last])[1..] == list[1..] + [last];
      RunActionsLast(m, w, if e.exception.None? then RunAction(m, w, e, list[0]) else e, list[1..], last);
    }
  }

  lemma RunActionsAppend(m: Model, w: World, e: Engine, a: seq<Ran>, b: seq<Ran>)
    ensures RunActions(m, w, e, a + b) == RunActions(m, w, RunActions(m, w, e, a), b)
    decreases |a|
  {
    hide RunAction;
    if a == [] {
      assert a + b == b;
    } else {
      assert (a + b)[1..] == a[1..] + b;
      RunActionsAppend(m, w, if e.exception.None? then RunAction(m, w, e, a[0]) else e, a[1..], b);
    }
  }

  lemma PrefixExtends(w: World, n: nat, init: seq<Ran>, last: Ran, k: nat, exception: Option<string>)
    requires RunsPrefix(w, n, init, k, exception)
    ensures exception.Some? ==> RunsPrefix(w, n, init + [last], k, exception)
    ensures exception.None? ==> RunsPrefix(w, n, init + [last], k + 1, RaisedBy(w, n + Users(init), last))
  {
    hide RaisedBy, Users;
    var list := init + [last];
    forall j | 0 <= j < |init| ensures RaisesAt(w, n, list, j) == RaisesAt(w, n, init, j) {
      assert list[..j] == init[..j];
    }
    assert list[..|init|] == init;
    if exception.Some? { assert list[..k - 1] == init[..k - 1]; }
  }

  /** Running a list of actions is running the prefix up to the first exception. */
  lemma {:induction false} ActionsRun(m: Model, w: World, e: Engine, list: seq<Ran>) returns (k: nat)
    requires e.exception.None?
    ensures var b := RunActions(m, w, e, list);
      && SameFlow(e, b) && RunsPrefix(w, e.invoked, list, k, b.exception)
      && b.log == e.log + list[..k]
      && b.fsmStopped == (e.fsmStopped || Terminates(list[..k]))
      && b.invoked == e.invoked + Users(list[..k])
      && b.nextEvent == LastNext(AllCalls(w, e.invoked, list[..k]), e.nextEvent)
      && b.connected == LastConnected(AllCalls(w, e.invoked, list[..k]), e.connected)
      && b.calls == e.calls + AllCalls(w, e.invoked, list[..k])
    decreases |list|
  {
    hide RunAction, RunActions, RaisedBy, IsUser, RunsPrefix, CallsOf, AllCalls, LastNext, LastConnected, Users,
      Terminates;
    if list == [] {
      k := 0;
      NoActions(m, w, e);
    } else {
      var init, last := list[..|list| - 1], list[|list| - 1];
      assert list == init + [last];
      k := ActionsRun(m, w, e, init);
      var b := RunActions(m, w, e, init);
      RunActionsLast(m, w, e, init, last);
      PrefixExtends(w, e.invoked, init, last, k, b.exception);
      PrefixLength(w, e.invoked, init, k, b.exception);
      assert init[..k] == list[..k];
      if b.exception.None? {
        ActionRun(m, w, b, last);
        OneMore(w, e.invoked, init, last);
        LastNextAppend(AllCalls(w, e.invoked, init), CallsOf(w, b.invoked, last.action), e.nextEvent);
        LastConnectedAppend(AllCalls(w, e.invoked, init), CallsOf(w, b.invoked, last.action), e.connected);
        k := |list|;
        assert list[..k] == list && init[..|init|] == init;
      }
    }
  }

  lemma PrefixLength(w: World, n: nat, list: seq<Ran>, k: nat, exception: Option<string>)
    requires RunsPrefix(w, n, list, k, exception)
    ensures k <= |list| && (exception.None? ==> k == |list|)
  {
  }

  lemma NoActions(m: Model, w: World, e: Engine)
    ensures RunActions(m, w, e, []) == e
    ensures RunsPrefix(w, e.invoked, [], 0, None)
    ensures Users([]) == 0 && !Terminates([]) && AllCalls(w, e.invoked, []) == []
    ensures LastNext([], e.nextEvent) == e.nextEvent && LastConnected([], e.connected) == e.connected
  {
  }

  lemma OneMore(w: World, n: nat, init: seq<Ran>, last: Ran)
    ensures Users(init + [last]) == Users(init) + (if IsUser(last.action) then 1 else 0)
    ensures AllCalls(w, n, init + [last]) == AllCalls(w, n, init) + CallsOf(w, n + Users(init), last.action)
    ensures Terminates(init + [last]) <==> Terminates(init) || last.action.name == "terminate"
  {
    hide CallsOf, IsUser;
    var list := init + [last];
    assert list[..|list| - 1] == init;
    if Terminates(init) {
      var j :| 0 <= j < |init| && init[j].action.name == "terminate";
      assert list[j].action.name == "terminate";
    }
    if last.action.name == "terminate" { assert list[|init|].action.name == "terminate"; }
  }

  lemma {:induction false} LastNextAppend(c: seq<Call>, d: seq<Call>, before: Option<string>)
    ensures LastNext(c + d, before) == LastNext(d, LastNext(c, before))
  {
    if d == [] {
      assert c + d == c;
    } else {
      assert (c + d)[..|c + d| - 1] == c + d[..|d| - 1];
      LastNextAppend(c, d[..|d| - 1], before);
    }
  }

  lemma {:induction false} LastConnectedAppend(c: seq<Call>, d: seq<Call>, before: bool)
    ensures LastConnected(c + d, before) == LastConnected(d, LastConnected(c, before))
  {
    if d == [] {
      assert c + d == c;
    } else {
      assert (c + d)[..|c + d| - 1] == c + d[..|d| - 1];
      LastConnectedAppend(c, d[..|d| - 1], before);
    }
  }

  // ---------------------------------------------------------------- one pass

  /** The actions of the body and, for an event with a next state, the after block. */
  function Lead(s: State, ev: Event): seq<Ran> {
    Tag(Body(s.name, ev.name), ev.actions) + (if ev.next.Some? then Tag(After(s.name), s.after) else [])
  }

  /** The before block of the state of that name. */
  function Arrival(m: Model, name: string): seq<Ran> {
    match StateNamed(m, name)
    case Some(j) => Tag(Before(name), m[j].before)
    case None => []
  }

  lemma ArrivalIs(m: Model, name: string)
    ensures Tag(Before(name), BeforeOf(m, name)) == Arrival(m, name)
  {
  }

  /** Everything an event may run: the lead, then the next state's before block. */
  function Plan(m: Model, s: State, ev: Event): seq<Ran> {
    Lead(s, ev)
    + (if ev.next.Some? then Arrival(m, ev.next.value) else [])
  }

  /** Moving to another state does not change what actions do. */
  function Moved(e: Engine, move: Move): Engine {
    e.(state := move.to, moves := e.moves + [move])
  }

  lemma CallAfterMove(m: Model, e: Engine, call: Call, move: Move)
    ensures RunCall(m, Moved(e, move), call) == Moved(RunCall(m, e, call), move)
  {
    hide SetPeriod, SetAlarm;
    match call
    case SetNextEvent(_) =>
    case SetException(_) =>
    case SetWakeup(_, _) =>
    case SetHeartbeat(_) =>
    case SetExpiry(_) =>
    case SetConnected(_) =>
  }

  lemma CallsAfterMove(m: Model, e: Engine, calls: seq<Call>, move: Move)
    ensures RunCalls(m, Moved(e, move), calls) == Moved(RunCalls(m, e, calls), move)
    decreases |calls|
  {
    hide RunCall, Moved;
    if calls != [] {
      CallAfterMove(m, e, calls[0], move);
      CallsAfterMove(m, RunCall(m, e, calls[0]), calls[1..], move);
    }
  }

  lemma ActionAfterMove(m: Model, w: World, e: Engine, ran: Ran, move: Move)
    ensures RunAction(m, w, Moved(e, move), ran) == Moved(RunAction(m, w, e, ran), move)
  {
    hide RunCalls;
    CallsAfterMove(m, e.(log := e.log + [ran], invoked := e.invoked + 1), w(e.invoked), move);
  }

  lemma ActionsAfterMove(m: Model, w: World, e: Engine, list: seq<Ran>, move: Move)
    ensures RunActions(m, w, Moved(e, move), list) == Moved(RunActions(m, w, e, list), move)
    decreases |list|
  {
    hide RunAction;
    if list != [] {
      if e.exception.None? { ActionAfterMove(m, w, e, list[0], move); }
      ActionsAfterMove(m, w, if e.exception.None? then RunAction(m, w, e, list[0]) else e, list[1..], move);
    }
  }

  /** A block runs its plan as one list of actions, and moves when its lead raised nothing. */
  lemma BlockRuns(m: Model, w: World, e: Engine, s: State, ev: Event)
    requires e.exception.None?
    ensures var lead := RunActions(m, w, e, Lead(s, ev));
      var b := RunActions(m, w, e, Plan(m, s, ev));
      RunBlock(m, w, e, s, ev)
      == if ev.next.Some? && lead.exception.None? then Moved(b, Move(s.name, ev.next.value)) else b
  {
    hide RunActions, Tag, BeforeOf, Arrival;
    var body := Tag(Body(s.name, ev.name), ev.actions);
    if ev.next.Some? {
      var after, before := Tag(After(s.name), s.after), Tag(Before(ev.next.value), BeforeOf(m, ev.next.value));
      ArrivalIs(m, ev.next.value);
      RunActionsAppend(m, w, e, body, after);
      RunActionsAppend(m, w, e, body + after, before);
      var lead := RunActions(m, w, e, body + after);
      if lead.exception.None? {
        ActionsAfterMove(m, w, lead, before, Move(s.name, ev.next.value));
      }
    } else {
      assert body + [] == body;
    }
  }

  /** The lead raised an exception exactly when the plan stopped inside it. */
  lemma LeadRaises(m: Model, w: World, e: Engine, s: State, ev: Event, k: nat)
    requires e.exception.None?
    requires var b := RunActions(m, w, e, Plan(m, s, ev));
      RunsPrefix(w, e.invoked, Plan(m, s, ev), k, b.exception) && k <= |Plan(m, s, ev)|
      && b.log == e.log + Plan(m, s, ev)[..k]
    ensures var b := RunActions(m, w, e, Plan(m, s, ev));
      RunActions(m, w, e, Lead(s, ev)).exception.None? <==> !(b.exception.Some? && k <= |Lead(s, ev)|)
  {
    hide RunActions, Lead, Tag, Arrival, Users, RaisedBy, Terminates, AllCalls, LastNext, LastConnected;
    var lead := Lead(s, ev);
    var a := RunActions(m, w, e, lead);
    var rest := Plan(m, s, ev)[|lead|..];
    assert Plan(m, s, ev) == lead + rest;
    RunActionsAppend(m, w, e, lead, rest);
    var k1 := ActionsRun(m, w, e, lead);
    var b := RunActions(m, w, e, Plan(m, s, ev));
    if a.exception.Some? {
      SkipActions(m, w, a, rest);
      assert |b.log| == |e.log| + k && |a.log| == |e.log| + k1;
    } else {
      var k2 := ActionsRun(m, w, a, rest);
      assert |b.log| == |e.log| + |lead| + k2;
      if 0 < k <= |lead| {
        var plan := Plan(m, s, ev);
        assert lead[..k - 1] == plan[..k - 1];
        assert RaisesAt(w, e.invoked, lead, k - 1)
            == RaisedBy(w, e.invoked + Users(plan[..k - 1]), plan[k - 1]).Some?;
      }
    }
  }

  /** What a pass makes of the engine when k actions of the plan ran, leaving exception x. */
  ghost predicate PassDone(
      m: Model, w: World, e: Engine, b: Engine, s: State, ev: Event, k: nat, x: Option<string>)
  {
    var plan := Plan(m, s, ev);
    var moves := ev.next.Some? && !(x.Some? && k <= |Lead(s, ev)|);
    && k <= |plan| && RunsPrefix(w, e.invoked, plan, k, x)
    && b.log == e.log + plan[..k]
    && b.event == e.nextEvent && b.passes == e.passes + 1
    && b.state == (if moves then ev.next.value else e.state)
    && b.moves == (if moves then e.moves + [Move(s.name, ev.next.value)] else e.moves)
    && b.nextEvent == (if x.Some? then x else LastNext(AllCalls(w, e.invoked, plan[..k]), None))
    && b.raised == e.raised + (if x.Some? then 1 else 0)
    && b.fsmStopped == (e.fsmStopped || Terminates(plan[..k]))
    && b.connected == LastConnected(AllCalls(w, e.invoked, plan[..k]), e.connected)
    && b.calls == e.calls + AllCalls(w, e.invoked, plan[..k])
    && b.terminated == e.terminated && b.aborted == e.aborted
  }

  lemma PassRuns(m: Model, w: World, e: Engine, i: nat, ev: Event) returns (k: nat, x: Option<string>)
    requires StateNamed(m, e.state) == Some(i) && Chosen(m, e) == [ev]
    ensures PassDone(m, w, e, Pass(m, w, e), m[i], ev, k, x)
  {
    hide RunActions, Plan, Lead, Chosen, RunBlock, RunsPrefix, AllCalls, LastNext, LastConnected, Terminates, Users;
    var a := Begin(e);
    var plan := Plan(m, m[i], ev);
    k := ActionsRun(m, w, a, plan);
    var b := RunActions(m, w, a, plan);
    x := b.exception;
    PrefixLength(w, a.invoked, plan, k, x);
    LeadRaises(m, w, a, m[i], ev, k);
    BlockRuns(m, w, a, m[i], ev);
    assert [ev][1..] == [];
    assert RunBlocks(m, w, a, m[i], [ev]) == RunBlock(m, w, a, m[i], ev);
  }

  lemma {:induction false} FlattenNames(m: Model, f: Model, name: string)
    requires |f| == |m| && forall i :: 0 <= i < |m| ==> f[i].name == m[i].name
    ensures StateNamed(f, name) == StateNamed(m, name)
  {
    if m != [] && m[|m| - 1].name != name { FlattenNames(m[..|m| - 1], f[..|f| - 1], name); }
  }

  lemma FlattenedBefore(m: Model, name: string)
    ensures BeforeOf(Flatten(m), name) == BeforeOf(m, name) && StateNamed(Flatten(m), name) == StateNamed(m, name)
  {
    FlattenNames(m, Flatten(m), name);
  }

  /**
   One pass of the generated engine is one step of the documented machine on the model as written: the
   handler is looked up through the superstates; the actions of its body, the current state's after
   block and the next state's before block run in order up to the first that leaves an exception set;
   the state changes exactly when none before the before block did; the exception, if any, is the next
   event, in preference to any the actions requested. With no handler the engine aborts.
   */
  lemma {:induction false} PassRefinesDocumented(m: Model, w: World, e: Engine, i: nat, event: string)
      returns (k: nat, x: Option<string>)
    requires StateNamed(m, e.state) == Some(i) && e.nextEvent == Some(event) && Faithful(m, i, event)
    ensures var b := Pass(Flatten(m), w, e);
      match Documented(m, i, event)
      case None => b == Begin(e).(aborted := true)
      case Some(ev) => PassDone(m, w, e, b, m[i], ev, k, x)
  {
    hide FlatEvents, Faithful, Documented, PassDone, Blocks, RunBlocks;
    var f := Flatten(m);
    FlattenedBefore(m, e.state);
    BlocksAreDocumented(m, i, event);
    k, x := 0, None;
    if Documented(m, i, event).Some? {
      var ev := Documented(m, i, event).value;
      k, x := PassRuns(f, w, e, i, ev);
      SamePlan(m, w, e, i, ev, k, x);
    }
  }

  lemma SamePlan(m: Model, w: World, e: Engine, i: nat, ev: Event, k: nat, x: Option<string>)
    requires i < |m| && PassDone(Flatten(m), w, e, Pass(Flatten(m), w, e), Flatten(m)[i], ev, k, x)
    ensures PassDone(m, w, e, Pass(Flatten(m), w, e), m[i], ev, k, x)
  {
    hide Pass, RunsPrefix, AllCalls, LastNext, LastConnected, Terminates, FlatEvents, Tag, StateNamed;
    if ev.next.Some? { FlattenedBefore(m, ev.next.value); }
  }

  /**
   The same told from the model's own fields: a transition that raises nothing runs the event's actions,
   then those of the after block of the state it leaves, then those of the before block of the state it
   enters, each once and in order.
   */
  lemma TransitionRuns(m: Model, w: World, e: Engine, i: nat, j: nat, event: string)
    requires StateNamed(m, e.state) == Some(i) && e.nextEvent == Some(event) && Faithful(m, i, event)
    requires Documented(m, i, event).Some? && Documented(m, i, event).value.next.Some?
    requires StateNamed(m, Documented(m, i, event).value.next.value) == Some(j)
    requires Pass(Flatten(m), w, e).raised == e.raised
    ensures var b, ev := Pass(Flatten(m), w, e), Documented(m, i, event).value;
      var n, k := |ev.actions|, |m[i].after|;
      && b.state == m[j].name && |b.log| == |e.log| + n + k + |m[j].before| && e.log <= b.log
      && (forall q :: 0 <= q < n ==> b.log[|e.log| + q] == Ran(Body(e.state, ev.name), q, ev.actions[q]))
      && (forall q :: 0 <= q < k ==> b.log[|e.log| + n + q] == Ran(After(e.state), q, m[i].after[q]))
      && (forall q :: 0 <= q < |m[j].before| ==>
            b.log[|e.log| + n + k + q] == Ran(Before(m[j].name), q, m[j].before[q]))
  {
    hide Pass, Documented, Faithful, PassDone, Plan, Flatten, StateNamed;
    var b, ev := Pass(Flatten(m), w, e), Documented(m, i, event).value;
    var k, x := PassRefinesDocumented(m, w, e, i, event);
    PassDoneQuietly(m, w, e, b, m[i], ev, k, x);
    LaidOut(m, e.log, m[i], ev, j);
  }

  /** The plan of an event with a next state behind a log, action by action. */
  lemma LaidOut(m: Model, log: seq<Ran>, s: State, ev: Event, j: nat)
    requires ev.next.Some? && StateNamed(m, ev.next.value) == Some(j)
    ensures var l := log + Plan(m, s, ev);
      var n, k := |ev.actions|, |s.after|;
      && |l| == |log| + n + k + |m[j].before|
      && (forall q :: 0 <= q < n ==> l[|log| + q] == Ran(Body(s.name, ev.name), q, ev.actions[q]))
      && (forall q :: 0 <= q < k ==> l[|log| + n + q] == Ran(After(s.name), q, s.after[q]))
      && (forall q :: 0 <= q < |m[j].before| ==>
            l[|log| + n + k + q] == Ran(Before(ev.next.value), q, m[j].before[q]))
  {
    hide StateNamed;
    var t := log + Tag(Body(s.name, ev.name), ev.actions) + Tag(After(s.name), s.after);
    assert log + Plan(m, s, ev) == t + Tag(Before(ev.next.value), m[j].before);
  }

  lemma PassDoneQuietly(
      m: Model, w: World, e: Engine, b: Engine, s: State, ev: Event, k: nat, x: Option<string>)
    requires PassDone(m, w, e, b, s, ev, k, x) && b.raised == e.raised && ev.next.Some?
    ensures x.None? && b.state == ev.next.value && b.log == e.log + Plan(m, s, ev)
  {
    hide AllCalls, LastNext, LastConnected, Terminates, Plan, RaisedBy;
    assert Plan(m, s, ev)[..|Plan(m, s, ev)|] == Plan(m, s, ev);
  }

  /** A pass in a state whose wildcard comes first runs the block of the named event, then the wildcard's. */
  lemma UntidyPassRunsBoth(m: Model, w: World, e: Engine, i: nat, event: string)
    requires StateNamed(m, e.state) == Some(i) && e.nextEvent == Some(event) && event != WILDCARD
    requires m[i].events != [] && m[i].events[0].name == WILDCARD && Has(m[i].events, event)
    requires Pass(m, w, e).raised == e.raised
    ensures Pass(m, w, e).log
         == e.log + Plan(m, m[i], Find(m[i].events, event).value) + Plan(m, m[i], m[i].events[0])
  {
    hide Plan, RunBlock, StateNamed;
    var named, wild := Find(m[i].events, event).value, m[i].events[0];
    assert Find(m[i].events, WILDCARD) == Some(wild);
    assert Chosen(m, e) == [named, wild];
    var a := Begin(e);
    var b := RunBlock(m, w, a, m[i], named);
    assert [named, wild][1..] == [wild] && [wild][1..] == [];
    assert RunBlocks(m, w, a, m[i], [named, wild]) == RunBlocks(m, w, b, m[i], [wild])
        == RunBlock(m, w, b, m[i], wild);
    BlockKeepsRaised(m, w, a, m[i], named);
    BlockKeepsRaised(m, w, b, m[i], wild);
    QuietBlock(m, w, b, m[i], wild);
    QuietBlock(m, w, a, m[i], named);
  }

  lemma BlockKeepsRaised(m: Model, w: World, e: Engine, s: State, ev: Event)
    ensures RunBlock(m, w, e, s, ev).raised == e.raised
  {
    hide RunActions, Tag, BeforeOf;
    forall a, list ensures RunActions(m, w, a, list).raised == a.raised {
      if a.exception.Some? { SkipActions(m, w, a, list); } else { var k := ActionsRun(m, w, a, list); }
    }
  }

  /** A block that ends without an exception began without one and ran all of its plan. */
  lemma QuietBlock(m: Model, w: World, e: Engine, s: State, ev: Event)
    requires RunBlock(m, w, e, s, ev).exception.None?
    ensures e.exception.None? && RunBlock(m, w, e, s, ev).log == e.log + Plan(m, s, ev)
  {
    hide RunActions, Plan, Lead, AllCalls, LastNext, LastConnected, Terminates, Users, BeforeOf;
    if e.exception.Some? {
      SkipActions(m, w, e, Tag(Body(s.name, ev.name), ev.actions));
      SkipActions(m, w, e, Tag(After(s.name), s.after));
      if ev.next.Some? { SkipActions(m, w, e, Tag(Before(ev.next.value), BeforeOf(m, ev.next.value))); }
      assert false;
    } else {
      BlockRuns(m, w, e, s, ev);
      var plan := Plan(m, s, ev);
      var k := ActionsRun(m, w, e, plan);
      assert plan[..|plan|] == plan;
    }
  }
}
