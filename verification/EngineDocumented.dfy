/**
 The documented machine, which looks every event up through the superstates of the model as written, and
 the generated engine on the flattened model: the same engine states over whole runs.
 */
module EngineDocumented {
  import opened Options
  import opened Superstates
  import opened EngineSpec
  import opened EngineMachine
  import opened EngineHistory

  // ---------------------------------------------------------------- the documented machine

  ghost function DocumentedPass(m: Model, w: World, e: Engine): Engine {
    var i := StateNamed(m, e.state);
    if i.None? || e.nextEvent.None? then Begin(e).(aborted := true)
    else
      match Documented(m, i.value, e.nextEvent.value)
      case None => Begin(e).(aborted := true)
      case Some(ev) => Finish(RunBlock(m, w, Begin(e), m[i.value], ev))
  }

  ghost function DocumentedLoop(m: Model, w: World, e: Engine, fuel: nat): Engine
    decreases fuel
  {
    if fuel == 0 || !Running(e) then e else DocumentedLoop(m, w, DocumentedPass(m, w, e), fuel - 1)
  }

  /** What an input does before it is executed as an event, if it is one. */
  datatype Received = Received(engine: Engine, executes: bool, event: Option<string>)

  function Receive(m: Model, e: Engine, input: Input): Received
    requires Delivers(e, input)
  {
    match input
    case Tick(ms) => Received(e.(timers := e.timers.(now := e.timers.now + ms)), false, None)
    case Fire(id) =>
      var kind := e.timers.live[id].kind;
      var event := if kind == Wakeup then e.timers.wakeupEvent else Some(EventOf(kind));
      Received(e.(timers := EndTimer(e.timers, id)), true, event)
    case Command(Term) => Received(e.(terminated := true), false, None)
    case Command(Method(event)) => Received(e, true, Some(event))
    case Command(Other) => Received(e, false, None)
    case ServerMessage(event) =>
      Received(e.(timers := Hear(m, e.timers), terminated := e.terminated || event.None?), true, event)
    case Application(calls, executes, event) => Received(RunCalls(m, e, calls), executes, event)
  }

  /** What a callback does behind the execution: a periodic one arms its next timer. */
  function Conclude(e: Engine, input: Input, b: Engine): Engine
    requires Delivers(e, input)
  {
    if input.Fire? && e.timers.live[input.id].kind != Wakeup && !b.terminated
    then b.(timers := Rearm(b.timers, e.timers.live[input.id].kind))
    else b
  }

  ghost function DocumentedStep(m: Model, w: World, e: Engine, input: Input, fuel: nat): Engine {
    if !Delivers(e, input) then e else
      var r := Receive(m, e, input);
      Conclude(e, input, if r.executes then DocumentedLoop(m, w, Prepare(r.engine, r.event), fuel) else r.engine)
  }

  ghost function DocumentedRun(m: Model, w: World, e: Engine, stimuli: seq<Stimulus>): Engine {
    if stimuli == [] then e
    else
      var before := DocumentedRun(m, w, e, stimuli[..|stimuli| - 1]);
      DocumentedStep(m, w, before, stimuli[|stimuli| - 1].input, stimuli[|stimuli| - 1].fuel)
  }

  /** The reactor callbacks of the engine, taken apart in the same way. */
  lemma StepTakenApart(m: Model, w: World, e: Engine, input: Input, fuel: nat)
    requires Delivers(e, input)
    ensures var r := Receive(m, e, input);
      Step(m, w, e, input, fuel)
      == Conclude(e, input, if r.executes then Loop(m, w, Prepare(r.engine, r.event), fuel) else r.engine)
  {
    hide Loop, Hear, RunCalls, Cancel, Rearm;
  }

  // ---------------------------------------------------------------- flattening does not show elsewhere

  lemma FlattenedClass(m: Model, name: string)
    ensures ClassEvent(Flatten(m), name) == ClassEvent(m, name)
  {
    hide Has, Find, Visible, FindAlong, FlatEvents;
    if ClassEvent(m, name) {
      var i :| 0 <= i < |m| && Has(m[i].events, name);
      OwnEventReaches(m, i, name);
      DeclaredIsFound(m, i, name);
      assert Has(Flatten(m)[i].events, name);
    }
    if ClassEvent(Flatten(m), name) {
      var i :| 0 <= i < |m| && Has(Flatten(m)[i].events, name);
      DeclaredIsFound(m, i, name);
      var j := FirstAlong(m, Visible(m, i), name);
    }
  }

  lemma OwnEventReaches(m: Model, i: nat, name: string)
    requires i < |m| && Has(m[i].events, name)
    ensures Reaches(m, i, name)
  {
    hide Has, Find, Visible;
  }

  lemma FlattenedCall(m: Model, e: Engine, call: Call)
    ensures RunCall(Flatten(m), e, call) == RunCall(m, e, call)
  {
    hide ClassEvent, Flatten, Rearm, Cancel, SetAlarm;
    FlattenedClass(m, "heartbeat");
    FlattenedClass(m, "expired");
  }

  lemma FlattenedCalls(m: Model, e: Engine, calls: seq<Call>)
    ensures RunCalls(Flatten(m), e, calls) == RunCalls(m, e, calls)
    decreases |calls|
  {
    hide RunCall, Flatten;
    if calls != [] {
      FlattenedCall(m, e, calls[0]);
      FlattenedCalls(m, RunCall(m, e, calls[0]), calls[1..]);
    }
  }

  lemma FlattenedActions(m: Model, w: World, e: Engine, list: seq<Ran>)
    ensures RunActions(Flatten(m), w, e, list) == RunActions(m, w, e, list)
    decreases |list|
  {
    hide RunAction, Flatten;
    if list != [] {
      FlattenedAction(m, w, e, list[0]);
      FlattenedActions(m, w, if e.exception.None? then RunAction(m, w, e, list[0]) else e, list[1..]);
    }
  }

  lemma FlattenedAction(m: Model, w: World, e: Engine, ran: Ran)
    ensures RunAction(Flatten(m), w, e, ran) == RunAction(m, w, e, ran)
  {
    hide RunCalls, Flatten;
    FlattenedCalls(m, e.(log := e.log + [ran], invoked := e.invoked + 1), w(e.invoked));
  }

  lemma FlattenedBlock(m: Model, w: World, e: Engine, i: nat, ev: Event)
    requires i < |m|
    ensures RunBlock(Flatten(m), w, e, Flatten(m)[i], ev) == RunBlock(m, w, e, m[i], ev)
  {
    hide RunActions, Tag, BeforeOf, FlatEvents;
    forall e, list ensures RunActions(Flatten(m), w, e, list) == RunActions(m, w, e, list) {
      FlattenedActions(m, w, e, list);
    }
    if ev.next.Some? {
      FlattenedBefore(m, ev.next.value);
    }
  }

  lemma FlattenedReceive(m: Model, e: Engine, input: Input)
    requires Delivers(e, input)
    ensures Receive(Flatten(m), e, input) == Receive(m, e, input)
  {
    hide RunCalls, Flatten, ClassEvent, Rearm, Cancel;
    FlattenedClass(m, "expired");
    if input.Application? {
      FlattenedCalls(m, e, input.calls);
    }
  }

  // ---------------------------------------------------------------- passes, executions, runs

  /** The emitted chain is faithful about the event this pass handles. */
  ghost predicate PassFaithful(m: Model, e: Engine) {
    var i := StateNamed(m, e.state);
    i.Some? && e.nextEvent.Some? ==> Faithful(m, i.value, e.nextEvent.value)
  }

  lemma PassIsDocumented(m: Model, w: World, e: Engine)
    requires PassFaithful(m, e) && e.nextEvent.Some?
    ensures Pass(Flatten(m), w, e) == DocumentedPass(m, w, e)
  {
    hide FlatEvents, Faithful, Documented, Blocks, RunBlock;
    var f := Flatten(m);
    FlattenedBefore(m, e.state);
    var i := StateNamed(m, e.state);
    if i.Some? {
      var event := e.nextEvent.value;
      BlocksAreDocumented(m, i.value, event);
      assert Chosen(f, e) == Blocks(FlatEvents(m, i.value), event);
      if Documented(m, i.value, event).Some? {
        var ev := Documented(m, i.value, event).value;
        OneBlock(f, w, Begin(e), f[i.value], ev);
        FlattenedBlock(m, w, Begin(e), i.value, ev);
      }
    }
  }

  lemma OneBlock(m: Model, w: World, e: Engine, s: State, ev: Event)
    ensures RunBlocks(m, w, e, s, [ev]) == RunBlock(m, w, e, s, ev)
  {
    hide RunBlock;
    assert [ev][1..] == [];
    assert RunBlocks(m, w, RunBlock(m, w, e, s, ev), s, []) == RunBlock(m, w, e, s, ev);
  }

  ghost predicate LoopFaithful(m: Model, w: World, e: Engine, fuel: nat)
    decreases fuel
  {
    fuel > 0 && Running(e) ==> PassFaithful(m, e) && LoopFaithful(m, w, DocumentedPass(m, w, e), fuel - 1)
  }

  lemma {:induction false} LoopIsDocumented(m: Model, w: World, e: Engine, fuel: nat)
    requires LoopFaithful(m, w, e, fuel)
    ensures Loop(Flatten(m), w, e, fuel) == DocumentedLoop(m, w, e, fuel)
    decreases fuel
  {
    hide Pass, DocumentedPass, PassFaithful, Flatten;
    if fuel > 0 && Running(e) {
      PassIsDocumented(m, w, e);
      LoopIsDocumented(m, w, DocumentedPass(m, w, e), fuel - 1);
    }
  }

  ghost predicate StepFaithful(m: Model, w: World, e: Engine, input: Input, fuel: nat) {
    Delivers(e, input) && Receive(m, e, input).executes ==>
      var r := Receive(m, e, input);
      LoopFaithful(m, w, Prepare(r.engine, r.event), fuel)
  }

  lemma StepIsDocumented(m: Model, w: World, e: Engine, input: Input, fuel: nat)
    requires StepFaithful(m, w, e, input, fuel)
    ensures Step(Flatten(m), w, e, input, fuel) == DocumentedStep(m, w, e, input, fuel)
  {
    hide Loop, DocumentedLoop, LoopFaithful, Receive, Conclude, Prepare, Flatten;
    if Delivers(e, input) {
      StepTakenApart(Flatten(m), w, e, input, fuel);
      FlattenedReceive(m, e, input);
      var r := Receive(m, e, input);
      if r.executes {
        LoopIsDocumented(m, w, Prepare(r.engine, r.event), fuel);
      }
    } else {
      NotDelivered(Flatten(m), w, e, input, fuel);
    }
  }

  lemma NotDelivered(m: Model, w: World, e: Engine, input: Input, fuel: nat)
    requires !Delivers(e, input)
    ensures Step(m, w, e, input, fuel) == e
  {
  }

  /** The chain is faithful about every event the run handles. */
  ghost predicate RunFaithful(m: Model, w: World, e: Engine, stimuli: seq<Stimulus>) {
    forall n :: 0 <= n < |stimuli| ==>
      StepFaithful(m, w, DocumentedRun(m, w, e, stimuli[..n]), stimuli[n].input, stimuli[n].fuel)
  }

  /**
   Over whole runs, flattening preserves meaning: the generated engine on the flattened model goes through
   exactly the states of the documented machine on the model as written, whatever the actions do, as long
   as no event is handled about which the emitted chain is not faithful.
   */
  lemma {:induction false} RunIsDocumented(m: Model, w: World, e: Engine, stimuli: seq<Stimulus>)
    requires RunFaithful(m, w, e, stimuli)
    ensures Run(Flatten(m), w, e, stimuli) == DocumentedRun(m, w, e, stimuli)
  {
    hide Step, DocumentedStep, StepFaithful, Flatten;
    if stimuli != [] {
      var n := |stimuli| - 1;
      assert forall i :: 0 <= i < n ==> stimuli[..n][..i] == stimuli[..i] && stimuli[..n][i] == stimuli[i];
      RunIsDocumented(m, w, e, stimuli[..n]);
      StepIsDocumented(m, w, DocumentedRun(m, w, e, stimuli[..n]), stimuli[n].input, stimuli[n].fuel);
    }
  }

  // ---------------------------------------------------------------- models about which nothing goes wrong

  ghost predicate AllFaithful(m: Model) {
    forall i, e :: 0 <= i < |m| ==> Faithful(m, i, e)
  }

  /** The first event along a chain of states. */
  function FirstEvent(m: Model, chain: seq<nat>): Option<Event>
    requires forall k :: 0 <= k < |chain| ==> chain[k] < |m|
  {
    if chain == [] then None
    else if m[chain[0]].events != [] then Some(m[chain[0]].events[0])
    else FirstEvent(m, chain[1..])
  }

  /**
   Told from the model as written: no state whose first event, its own or else the first inherited one,
   is the wildcard has a named event of its own or inherited.
   */
  ghost predicate TidyAsWritten(m: Model) {
    forall i, name :: 0 <= i < |m| && name != WILDCARD && Reaches(m, i, name) ==>
      FirstEvent(m, Visible(m, i)).Some? && FirstEvent(m, Visible(m, i)).value.name != WILDCARD
  }

  lemma {:induction false} FirstOfMerge(own: seq<Event>, inherited: seq<Event>)
    ensures own != [] ==> Merge(own, inherited) != [] && Merge(own, inherited)[0] == own[0]
    ensures own == [] && inherited != [] ==> Merge(own, inherited) != [] && Merge(own, inherited)[0] == inherited[0]
    ensures own == [] && inherited == [] ==> Merge(own, inherited) == []
  {
    hide Has;
    if inherited != [] {
      var init := inherited[..|inherited| - 1];
      FirstOfMerge(own, init);
      if own == [] && init == [] {
        NothingToFind(inherited[0].name);
      }
    }
  }

  lemma NothingToFind(name: string)
    ensures !Has([], name)
  {
  }

  lemma {:induction false} FirstFlat(m: Model, i: nat)
    requires i < |m|
    ensures var events := FlatEvents(m, i);
      FirstEvent(m, Visible(m, i)) == if events == [] then None else Some(events[0])
  {
    hide Merge;
    match Parent(m, i)
    case None => assert [i][1..] == [];
    case Some(p) =>
      FirstOfMerge(m[i].events, if p < i then FlatEvents(m, p) else m[p].events);
      if p < i {
        FirstFlat(m, p);
        assert Visible(m, i)[1..] == Visible(m, p);
      } else {
        assert Visible(m, i)[1..] == [p] && [p][1..] == [];
        assert FirstEvent(m, []) == None;
        assert FirstEvent(m, [p]) == if m[p].events == [] then None else Some(m[p].events[0]);
      }
  }

  /** The flattened table puts no wildcard before a named event exactly when the model as written says so. */
  lemma FlattenedIsTidyExactly(m: Model)
    ensures Tidy(Flatten(m)) <==> TidyAsWritten(m)
  {
    hide FlatEvents, Visible, FirstEvent, Find, FindAlong, Parent;
    forall i | 0 <= i < |m|
      ensures Flatten(m)[i].events == FlatEvents(m, i)
      ensures var events := FlatEvents(m, i);
        FirstEvent(m, Visible(m, i)) == if events == [] then None else Some(events[0])
    {
      FirstFlat(m, i);
    }
    forall i, name | 0 <= i < |m|
      ensures Has(FlatEvents(m, i), name) <==> Reaches(m, i, name)
    {
      DeclaredIsFound(m, i, name);
    }
    if Tidy(Flatten(m)) {
      forall i, name | 0 <= i < |m| && name != WILDCARD && Reaches(m, i, name)
        ensures FirstEvent(m, Visible(m, i)).Some? && FirstEvent(m, Visible(m, i)).value.name != WILDCARD
      {
        assert Has(FlatEvents(m, i), name);
        var k :| 0 <= k < |FlatEvents(m, i)| && FlatEvents(m, i)[k].name == name;
        assert FlatEvents(m, i)[k] in Flatten(m)[i].events;
      }
    }
    if TidyAsWritten(m) {
      forall i, ev | 0 <= i < |m| && FlatEvents(m, i) != [] && FlatEvents(m, i)[0].name == WILDCARD
                     && ev in FlatEvents(m, i)
        ensures ev.name == WILDCARD
      {
        assert Has(FlatEvents(m, i), ev.name);
      }
    }
  }

  /** A state that only has a wildcard and inherits a named event: tidy as written alone, not when flattened. */
  lemma WildcardOnlyStateInheritsUntidily()
    ensures var m := [State("base", None, [Event("ping", None, [])], [], []),
                      State("heir", Some("base"), [Event(WILDCARD, None, [])], [], [])];
      Tidy(m) && !Tidy(Flatten(m))
  {
    var ping, wildcard := Event("ping", None, []), Event(WILDCARD, None, []);
    var m := [State("base", None, [ping], [], []), State("heir", Some("base"), [wildcard], [], [])];
    assert m[..1] == [m[0]];
    assert StateNamed(m[..1], "base") == Some(0);
    assert Parent(m, 1) == Some(0) && Parent(m, 0) == None;
    assert Visible(m, 1) == [1] + Visible(m, 0) && Visible(m, 0) == [0];
    assert Visible(m, 1)[1..] == [0];
    assert ping.name == "ping" && m[0].events[0].name == "ping";
    assert Has(m[0].events, "ping");
    assert !Has(m[1].events, "ping");
    assert FindAlong(m, Visible(m, 1), "ping").Some?;
    assert Reaches(m, 1, "ping");
    FlattenedIsTidyExactly(m);
  }

  /** The emitted chains are faithful throughout exactly for models that lose no event and are tidy as written. */
  lemma AllFaithfulExactly(m: Model)
    ensures AllFaithful(m) <==> (forall i :: 0 <= i < |m| ==> Complete(m, i)) && TidyAsWritten(m)
  {
    hide FlatEvents, Visible, FirstEvent, FindAlong, Declares;
    FlattenedIsTidyExactly(m);
    forall i | 0 <= i < |m|
      ensures Complete(m, i) <==> forall e :: Resolves(m, i, e)
    {
      CompleteResolves(m, i);
    }
    forall i | 0 <= i < |m|
      ensures Flatten(m)[i].events == FlatEvents(m, i)
    {
    }
    if AllFaithful(m) {
      forall i, ev | 0 <= i < |m| && FlatEvents(m, i) != [] && FlatEvents(m, i)[0].name == WILDCARD
                     && ev in FlatEvents(m, i)
        ensures ev.name == WILDCARD
      {
        assert Has(FlatEvents(m, i), ev.name);
        assert Faithful(m, i, ev.name);
      }
      forall i, e | 0 <= i < |m| ensures Resolves(m, i, e) {
        assert Faithful(m, i, e);
      }
    }
    if (forall i :: 0 <= i < |m| ==> Complete(m, i)) && Tidy(Flatten(m)) {
      forall i, e | 0 <= i < |m| ensures Faithful(m, i, e) {
        CompleteResolves(m, i);
        assert Resolves(m, i, e);
      }
    }
  }

  lemma CompleteResolves(m: Model, i: nat)
    requires i < |m|
    ensures Complete(m, i) <==> forall e :: Resolves(m, i, e)
  {
    hide Visible, FindAlong, Declares;
    if forall e :: Resolves(m, i, e) {
      forall k: nat, name | Declares(m, i, k, name) ensures FindAlong(m, Visible(m, i), name).Some? {
        assert Resolves(m, i, name);
      }
    }
  }

  lemma {:induction false} AllFaithfulLoop(m: Model, w: World, e: Engine, fuel: nat)
    requires AllFaithful(m)
    ensures LoopFaithful(m, w, e, fuel)
    decreases fuel
  {
    hide Faithful, DocumentedPass;
    if fuel > 0 && Running(e) {
      AllFaithfulLoop(m, w, DocumentedPass(m, w, e), fuel - 1);
    }
  }

  /** For those models every run of the generated engine is a run of the documented machine. */
  lemma RunsAsDocumented(m: Model, w: World, stimuli: seq<Stimulus>)
    requires m != [] && (forall i :: 0 <= i < |m| ==> Complete(m, i)) && TidyAsWritten(m)
    ensures Run(Flatten(m), w, Start(Flatten(m)), stimuli) == DocumentedRun(m, w, Start(m), stimuli)
  {
    hide LoopFaithful, Run, DocumentedRun, Receive, Prepare, Complete, TidyAsWritten, AllFaithful;
    AllFaithfulExactly(m);
    forall n | 0 <= n < |stimuli|
      ensures StepFaithful(m, w, DocumentedRun(m, w, Start(m), stimuli[..n]), stimuli[n].input, stimuli[n].fuel)
    {
      var e := DocumentedRun(m, w, Start(m), stimuli[..n]);
      if Delivers(e, stimuli[n].input) {
        var r := Receive(m, e, stimuli[n].input);
        AllFaithfulLoop(m, w, Prepare(r.engine, r.event), stimuli[n].fuel);
      }
    }
    RunIsDocumented(m, w, Start(m), stimuli);
  }

  /** Before and after blocks of the model as written stay bracketed in runs of the flattened one. */
  lemma BracketsAsWritten(m: Model, w: World, stimuli: seq<Stimulus>, k: nat, i: nat, j: nat)
    requires m != [] && TidyAsWritten(m) && Named(m, k) && i < |m[k].before| && j < |m[k].after|
    requires Run(Flatten(m), w, Start(Flatten(m)), stimuli).raised == 0
    ensures var e := Run(Flatten(m), w, Start(Flatten(m)), stimuli);
      CountRan(e.log, Before(m[k].name), i) - CountRan(e.log, After(m[k].name), j)
      == One(e.state == m[k].name) - One(m[0].name == m[k].name)
  {
    hide Run, TidyAsWritten, Tidy, FlatEvents, CountRan;
    FlattenedIsTidyExactly(m);
    FlattenedBefore(m, m[k].name);
    BeforeMinusAfter(Flatten(m), w, stimuli, k, i, j);
  }
}
