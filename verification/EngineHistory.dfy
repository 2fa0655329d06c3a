/**
 Whole runs of the engine: nothing runs after a terminate action, and before and after blocks bracket
 the time spent in each state.
 */
module EngineHistory {
  import opened Options
  import opened Superstates
  import opened EngineSpec
  import opened EngineMachine

  // ---------------------------------------------------------------- termination

  lemma TerminatesAppend(a: seq<Ran>, b: seq<Ran>)
    ensures Terminates(a + b) <==> Terminates(a) || Terminates(b)
  {
    if Terminates(a) {
      var j :| 0 <= j < |a| && a[j].action.name == "terminate";
      assert (a + b)[j].action.name == "terminate";
    }
    if Terminates(b) {
      var j :| 0 <= j < |b| && b[j].action.name == "terminate";
      assert (a + b)[|a| + j].action.name == "terminate";
    }
  }

  /** The stopped flag is set exactly when a terminate action has run. */
  ghost predicate StopsOnTerminate(e: Engine) {
    e.fsmStopped <==> Terminates(e.log)
  }

  lemma ActionsStop(m: Model, w: World, e: Engine, list: seq<Ran>)
    requires StopsOnTerminate(e)
    ensures StopsOnTerminate(RunActions(m, w, e, list))
  {
    hide Terminates, RunActions, RunsPrefix, AllCalls, LastNext, Users;
    if e.exception.Some? {
      SkipActions(m, w, e, list);
    } else {
      var k := ActionsRun(m, w, e, list);
      PrefixLength(w, e.invoked, list, k, RunActions(m, w, e, list).exception);
      TerminatesAppend(e.log, list[..k]);
    }
  }

  lemma BlockStops(m: Model, w: World, e: Engine, s: State, ev: Event)
    requires StopsOnTerminate(e)
    ensures StopsOnTerminate(RunBlock(m, w, e, s, ev))
  {
    hide Terminates, RunActions, Tag, BeforeOf;
    var body, after := Tag(Body(s.name, ev.name), ev.actions), Tag(After(s.name), s.after);
    ActionsStop(m, w, e, body);
    if ev.next.Some? {
      var b := RunActions(m, w, e, body);
      ActionsStop(m, w, b, after);
      var c := RunActions(m, w, b, after);
      var before := Tag(Before(ev.next.value), BeforeOf(m, ev.next.value));
      ActionsStop(m, w, if c.exception.Some? then c else Moved(c, Move(s.name, ev.next.value)), before);
    }
  }

  lemma {:induction false} BlocksStop(m: Model, w: World, e: Engine, s: State, blocks: seq<Event>)
    requires StopsOnTerminate(e)
    ensures StopsOnTerminate(RunBlocks(m, w, e, s, blocks))
    decreases |blocks|
  {
    hide Terminates, RunBlock;
    if blocks != [] {
      BlockStops(m, w, e, s, blocks[0]);
      BlocksStop(m, w, RunBlock(m, w, e, s, blocks[0]), s, blocks[1..]);
    }
  }

  lemma {:induction false} LoopStops(m: Model, w: World, e: Engine, fuel: nat)
    requires StopsOnTerminate(e)
    ensures StopsOnTerminate(Loop(m, w, e, fuel))
    decreases fuel
  {
    hide Terminates, RunBlocks, Chosen;
    if fuel > 0 && Running(e) {
      var i := StateNamed(m, e.state);
      if i.Some? { BlocksStop(m, w, Begin(e), m[i.value], Chosen(m, e)); }
      LoopStops(m, w, Pass(m, w, e), fuel - 1);
    }
  }

  lemma StepStops(m: Model, w: World, e: Engine, input: Input, fuel: nat)
    requires StopsOnTerminate(e)
    ensures StopsOnTerminate(Step(m, w, e, input, fuel))
  {
    hide Terminates, Loop, RunCalls, Hear, Cancel, Rearm, EndTimer;
    forall b: Engine, event | b.fsmStopped == e.fsmStopped && b.log == e.log
      ensures StopsOnTerminate(Execute(m, w, b, event, fuel))
    {
      LoopStops(m, w, Prepare(b, event), fuel);
    }
    if input.Application? { CallsRun(m, e, input.calls); }
  }

  lemma {:induction false} RunStops(m: Model, w: World, stimuli: seq<Stimulus>)
    requires m != []
    ensures StopsOnTerminate(Run(m, w, Start(m), stimuli))
  {
    hide Step;
    if stimuli != [] {
      var n := |stimuli| - 1;
      RunStops(m, w, stimuli[..n]);
      StepStops(m, w, Run(m, w, Start(m), stimuli[..n]), stimuli[n].input, stimuli[n].fuel);
    }
  }

  /** The machine's own progress: nothing a reactor callback does besides running passes touches it. */
  ghost predicate SameMachine(a: Engine, b: Engine) {
    b.state == a.state && b.log == a.log && b.moves == a.moves && b.passes == a.passes && b.raised == a.raised
  }

  lemma StoppedStep(m: Model, w: World, e: Engine, input: Input, fuel: nat)
    requires e.fsmStopped
    ensures var b := Step(m, w, e, input, fuel); b.fsmStopped && SameMachine(e, b)
  {
    hide Pass, RunCalls, Hear, Cancel, Rearm, EndTimer;
    if input.Application? { CallsRun(m, e, input.calls); }
  }

  lemma {:induction false} StoppedRun(m: Model, w: World, e: Engine, stimuli: seq<Stimulus>)
    requires e.fsmStopped
    ensures var b := Run(m, w, e, stimuli); b.fsmStopped && SameMachine(e, b)
  {
    hide Step;
    if stimuli != [] {
      var n := |stimuli| - 1;
      StoppedRun(m, w, e, stimuli[..n]);
      StoppedStep(m, w, Run(m, w, e, stimuli[..n]), stimuli[n].input, stimuli[n].fuel);
    }
  }

  lemma {:induction false} RunAppend(m: Model, w: World, e: Engine, a: seq<Stimulus>, b: seq<Stimulus>)
    ensures Run(m, w, e, a + b) == Run(m, w, Run(m, w, e, a), b)
  {
    if b == [] {
      assert a + b == a;
    } else {
      assert (a + b)[..|a + b| - 1] == a + b[..|b| - 1];
      RunAppend(m, w, e, a, b[..|b| - 1]);
    }
  }

  /** Once a terminate action has run, in any later callback no pass begins, nothing runs and the state stays. */
  lemma NothingAfterTerminate(m: Model, w: World, sofar: seq<Stimulus>, later: seq<Stimulus>)
    requires m != [] && Terminates(Run(m, w, Start(m), sofar).log)
    ensures SameMachine(Run(m, w, Start(m), sofar), Run(m, w, Start(m), sofar + later))
  {
    hide Run, Terminates;
    RunStops(m, w, sofar);
    RunAppend(m, w, Start(m), sofar, later);
    StoppedRun(m, w, Run(m, w, Start(m), sofar), later);
  }

  // ---------------------------------------------------------------- brackets

  /** How often the i-th action of a block has run. */
  function CountRan(log: seq<Ran>, block: Block, i: nat): nat {
    if log == [] then 0 else
      var last := log[|log| - 1];
      CountRan(log[..|log| - 1], block, i) + (if last.block == block && last.index == i then 1 else 0)
  }

  function Entered(moves: seq<Move>, name: string): nat {
    if moves == [] then 0 else
      Entered(moves[..|moves| - 1], name) + (if moves[|moves| - 1].to == name then 1 else 0)
  }

  function Left(moves: seq<Move>, name: string): nat {
    if moves == [] then 0 else
      Left(moves[..|moves| - 1], name) + (if moves[|moves| - 1].from == name then 1 else 0)
  }

  /** The j-th state is the one its name refers to. */
  predicate Named(m: Model, j: nat) {
    j < |m| && StateNamed(m, m[j].name) == Some(j)
  }

  /** Each action of a before block has run once per arrival, each of an after block once per departure. */
  ghost predicate Counted(m: Model, e: Engine) {
    && (forall j: nat, i :: Named(m, j) && 0 <= i < |m[j].before| ==>
          CountRan(e.log, Before(m[j].name), i) == Entered(e.moves, m[j].name))
    && (forall j: nat, i :: Named(m, j) && 0 <= i < |m[j].after| ==>
          CountRan(e.log, After(m[j].name), i) == Left(e.moves, m[j].name))
  }

  function One(b: bool): int { if b then 1 else 0 }

  /** Arrivals minus departures: one in the current state, less one for the state the machine started in. */
  ghost predicate Balanced(m: Model, e: Engine)
    requires m != []
  {
    forall name :: Entered(e.moves, name) - Left(e.moves, name) == One(e.state == name) - One(m[0].name == name)
  }

  ghost predicate Bracketed(m: Model, e: Engine)
    requires m != []
  {
    Balanced(m, e) && (e.raised == 0 ==> Counted(m, e))
  }

  /** No state's wildcard comes before a named event. */
  predicate Tidy(m: Model) {
    forall i :: 0 <= i < |m| && m[i].events != [] && m[i].events[0].name == WILDCARD ==>
      forall ev :: ev in m[i].events ==> ev.name == WILDCARD
  }

  lemma TidyChoosesOne(m: Model, e: Engine)
    requires Tidy(m)
    ensures |Chosen(m, e)| <= 1
  {
    hide Find, Has;
    var i := StateNamed(m, e.state);
    if i.Some? && e.nextEvent.Some? && e.nextEvent.value != WILDCARD {
      var named := Find(m[i.value].events, e.nextEvent.value);
      if named.Some? { assert named.value in m[i.value].events; }
    }
  }

  lemma {:induction false} CountAppend(a: seq<Ran>, b: seq<Ran>, block: Block, i: nat)
    ensures CountRan(a + b, block, i) == CountRan(a, block, i) + CountRan(b, block, i)
  {
    if b == [] {
      assert a + b == a;
    } else {
      assert (a + b)[..|a + b| - 1] == a + b[..|b| - 1];
      CountAppend(a, b[..|b| - 1], block, i);
    }
  }

  lemma {:induction false} CountTag(own: Block, actions: seq<Action>, block: Block, i: nat)
    ensures CountRan(Tag(own, actions), block, i) == One(own == block && i < |actions|)
  {
    if actions != [] {
      var n := |actions| - 1;
      assert Tag(own, actions)[..n] == Tag(own, actions[..n]);
      CountTag(own, actions[..n], block, i);
    }
  }

  lemma CountArrival(m: Model, name: string, block: Block, i: nat)
    ensures CountRan(Arrival(m, name), block, i) == One(block == Before(name) && i < |Arrival(m, name)|)
  {
    hide Tag;
    var j := StateNamed(m, name);
    if j.Some? {
      CountTag(Before(name), m[j.value].before, block, i);
    }
  }

  /** One run of a whole plan counts each before and after action of its transition once. */
  lemma CountPlan(m: Model, s: State, ev: Event, block: Block, i: nat)
    requires !block.Body?
    ensures CountRan(Plan(m, s, ev), block, i)
         == One(ev.next.Some? && block == After(s.name) && i < |s.after|)
          + One(ev.next.Some? && block == Before(ev.next.value) && i < |Arrival(m, ev.next.value)|)
  {
    hide Tag, Arrival, CountRan;
    var body := Tag(Body(s.name, ev.name), ev.actions);
    CountTag(Body(s.name, ev.name), ev.actions, block, i);
    if ev.next.Some? {
      var after, before := Tag(After(s.name), s.after), Arrival(m, ev.next.value);
      CountTag(After(s.name), s.after, block, i);
      CountArrival(m, ev.next.value, block, i);
      CountAppend(body, after, block, i);
      CountAppend(body + after, before, block, i);
    } else {
      assert body + [] + [] == body;
    }
  }

  lemma MoveCounts(moves: seq<Move>, move: Move, name: string)
    ensures Entered(moves + [move], name) == Entered(moves, name) + One(move.to == name)
    ensures Left(moves + [move], name) == Left(moves, name) + One(move.from == name)
  {
    assert (moves + [move])[..|moves|] == moves;
  }

  lemma PassBalances(m: Model, e: Engine, b: Engine, next: Option<string>)
    requires m != [] && Balanced(m, e)
    requires b.state == next.GetOr(e.state)
    requires b.moves == if next.Some? then e.moves + [Move(e.state, next.value)] else e.moves
    ensures Balanced(m, b)
  {
    hide Entered, Left;
    if next.Some? {
      forall name
        ensures Entered(b.moves, name) - Left(b.moves, name) == One(b.state == name) - One(m[0].name == name)
      {
        MoveCounts(e.moves, Move(e.state, next.value), name);
        assert Entered(e.moves, name) - Left(e.moves, name) == One(e.state == name) - One(m[0].name == name);
      }
    }
  }

  lemma PassCounts(m: Model, e: Engine, b: Engine, k: nat, ev: Event)
    requires Counted(m, e) && Named(m, k) && m[k].name == e.state
    requires b.log == e.log + Plan(m, m[k], ev)
    requires b.moves == if ev.next.Some? then e.moves + [Move(e.state, ev.next.value)] else e.moves
    ensures Counted(m, b)
  {
    hide Entered, Left, CountRan, Plan, StateNamed, Tag;
    forall j: nat, i | Named(m, j) && 0 <= i < |m[j].before|
      ensures CountRan(b.log, Before(m[j].name), i) == Entered(b.moves, m[j].name)
    {
      CountAppend(e.log, Plan(m, m[k], ev), Before(m[j].name), i);
      CountPlan(m, m[k], ev, Before(m[j].name), i);
      if ev.next.Some? {
        MoveCounts(e.moves, Move(e.state, ev.next.value), m[j].name);
        if ev.next.value == m[j].name { ArrivalLength(m, j); }
      }
    }
    forall j: nat, i | Named(m, j) && 0 <= i < |m[j].after|
      ensures CountRan(b.log, After(m[j].name), i) == Left(b.moves, m[j].name)
    {
      CountAppend(e.log, Plan(m, m[k], ev), After(m[j].name), i);
      CountPlan(m, m[k], ev, After(m[j].name), i);
      if ev.next.Some? { MoveCounts(e.moves, Move(e.state, ev.next.value), m[j].name); }
    }
  }

  lemma ArrivalLength(m: Model, j: nat)
    requires Named(m, j)
    ensures |Arrival(m, m[j].name)| == |m[j].before|
  {
  }

  lemma PassBrackets(m: Model, w: World, e: Engine)
    requires m != [] && Tidy(m) && Bracketed(m, e)
    ensures Bracketed(m, Pass(m, w, e))
  {
    hide Balanced, Counted, Tidy, Chosen, RunBlocks, Plan, AllCalls, LastNext, Terminates, Entered, Left, CountRan;
    var b := Pass(m, w, e);
    var i, blocks := StateNamed(m, e.state), Chosen(m, e);
    TidyChoosesOne(m, e);
    if i.None? || blocks == [] {
      SameMachineBrackets(m, e, b);
    } else {
      var s, ev := m[i.value], blocks[0];
      assert blocks == [ev];
      var k, x := PassRuns(m, w, e, i.value, ev);
      PassBalances(m, e, b, if ev.next.Some? && !(x.Some? && k <= |Lead(s, ev)|) then ev.next else None);
      if b.raised == 0 {
        assert Plan(m, s, ev)[..k] == Plan(m, s, ev);
        PassCounts(m, e, b, i.value, ev);
      }
    }
  }

  lemma SameMachineBrackets(m: Model, a: Engine, b: Engine)
    requires m != [] && Bracketed(m, a)
    requires b.state == a.state && b.log == a.log && b.moves == a.moves && b.raised == a.raised
    ensures Bracketed(m, b)
  {
  }

  lemma {:induction false} LoopBrackets(m: Model, w: World, e: Engine, fuel: nat)
    requires m != [] && Tidy(m) && Bracketed(m, e)
    ensures Bracketed(m, Loop(m, w, e, fuel))
    decreases fuel
  {
    hide Pass, Bracketed, Tidy;
    if fuel > 0 && Running(e) {
      PassBrackets(m, w, e);
      LoopBrackets(m, w, Pass(m, w, e), fuel - 1);
    }
  }

  lemma ExecuteBrackets(m: Model, w: World, e: Engine, event: Option<string>, fuel: nat)
    requires m != [] && Tidy(m) && Bracketed(m, e)
    ensures Bracketed(m, Execute(m, w, e, event, fuel))
  {
    hide Loop, Bracketed, Tidy, Cancel;
    SameMachineBrackets(m, e, Prepare(e, event));
    LoopBrackets(m, w, Prepare(e, event), fuel);
  }

  lemma StepBrackets(m: Model, w: World, e: Engine, input: Input, fuel: nat)
    requires m != [] && Tidy(m) && Bracketed(m, e)
    ensures Bracketed(m, Step(m, w, e, input, fuel))
  {
    hide Execute, RunCalls, Hear, Cancel, Rearm, EndTimer, Bracketed, Tidy;
    forall a: Engine, b: Engine | Bracketed(m, a) && b.state == a.state && b.log == a.log && b.moves == a.moves
                                  && b.raised == a.raised
      ensures Bracketed(m, b)
    {
      SameMachineBrackets(m, a, b);
    }
    forall b: Engine, event | Bracketed(m, b) ensures Bracketed(m, Execute(m, w, b, event, fuel)) {
      ExecuteBrackets(m, w, b, event, fuel);
    }
    if input.Application? { CallsRun(m, e, input.calls); }
  }

  lemma StartBrackets(m: Model)
    requires m != []
    ensures Bracketed(m, Start(m))
  {
  }

  /**
   At every pass boundary of every run, as long as no pass has ended in an exception: each action of a
   state's before block has run exactly once more often than each action of its after block while the
   machine is in that state, equally often while it is not; one less for the state it started in.
   */
  lemma {:induction false} BracketsOverRuns(m: Model, w: World, stimuli: seq<Stimulus>)
    requires m != [] && Tidy(m)
    ensures Bracketed(m, Run(m, w, Start(m), stimuli))
  {
    hide Step, Bracketed, Start, Tidy;
    if stimuli == [] {
      StartBrackets(m);
    } else {
      var n := |stimuli| - 1;
      BracketsOverRuns(m, w, stimuli[..n]);
      StepBrackets(m, w, Run(m, w, Start(m), stimuli[..n]), stimuli[n].input, stimuli[n].fuel);
    }
  }

  /** The same said of one pair of actions of a state of the model, counting the log alone. */
  lemma BeforeMinusAfter(m: Model, w: World, stimuli: seq<Stimulus>, k: nat, i: nat, j: nat)
    requires m != [] && Tidy(m) && Named(m, k) && i < |m[k].before| && j < |m[k].after|
    requires Run(m, w, Start(m), stimuli).raised == 0
    ensures var e := Run(m, w, Start(m), stimuli);
      CountRan(e.log, Before(m[k].name), i) - CountRan(e.log, After(m[k].name), j)
      == One(e.state == m[k].name) - One(m[0].name == m[k].name)
  {
    hide Run, Start, Tidy, CountRan, Entered, Left, StateNamed;
    BracketsOverRuns(m, w, stimuli);
    var e := Run(m, w, Start(m), stimuli);
    assert CountRan(e.log, Before(m[k].name), i) == Entered(e.moves, m[k].name);
    assert CountRan(e.log, After(m[k].name), j) == Left(e.moves, m[k].name);
  }
}
