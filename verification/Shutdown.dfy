/**
 The calling thread and the client actor, joined by two pipes: what happens to the messages the caller
 has sent when it destroys the client. The two threads take turns in any order: a run is any sequence
 of steps.
 */
module Shutdown {
  import opened Options

  type Message = string

  /** On the msgpipe, towards the actor. A name the actor does not know is thrown away. */
  datatype Item = Send(message: Message) | Unknown(name: string) | Flush

  datatype Command = Term | Request(name: string)

  /** On the cmdpipe, towards the caller. The actor's shim signals once more when the actor ends. */
  datatype Reply = FlushSignal | ExitSignal | Answer(name: string)

  /** On the dealer socket, towards the server. */
  datatype Output = FromCaller(message: Message) | FromEngine(message: Message)

  datatype Caller = Working | Waiting | Released(cause: Release) | Ending | Gone

  /** What let the caller through its wait for the flush. */
  datatype Release = ByFlush | ByExit | NoWait

  datatype Actor = Live | Stopping | Exited

  datatype System = System(
    sent: seq<Message>, caller: Caller, release: Option<Release>,
    msgpipe: seq<Item>, commands: seq<Command>, replies: seq<Reply>,
    actor: Actor, dealer: seq<Output>,
    // the caller has received the exit signal as if it were an answer
    exitTaken: bool)

  const START := System([], Working, None, [], [], [], Live, [], false)

  datatype Step =
    // the calling thread
    | SendMessage(message: Message) | SendUnknown(name: string) | SendRequest(name: string) | TakeReply
    | SendFlush | FlushRefused | Wait | SendTerm | TermRefused | WaitForExit
    // the actor thread
    | TakeItem | TakeCommand | Output(message: Message) | Reply(name: string) | Halt | Exit

  predicate Enabled(s: System, step: Step) {
    match step
    case SendMessage(_) => s.caller.Working?
    case SendUnknown(_) => s.caller.Working?
    // once released, the client's own destructor method may still call the actor
    case SendRequest(_) => s.caller.Working? || s.caller.Released?
    case TakeReply => (s.caller.Working? || s.caller.Released?) && s.replies != []
    case SendFlush => s.caller.Working?
    case FlushRefused => s.caller.Working? && s.actor.Exited?
    case Wait => s.caller.Waiting? && s.replies != []
    case SendTerm => s.caller.Released? && !s.actor.Exited?
    case TermRefused => s.caller.Released? && s.actor.Exited?
    case WaitForExit => s.caller.Ending? && s.replies != []
    case TakeItem => s.actor.Live? && s.msgpipe != []
    case TakeCommand => s.actor.Live? && s.commands != []
    case Output(_) => !s.actor.Exited?
    case Reply(_) => !s.actor.Exited?
    case Halt => s.actor.Live?
    case Exit => s.actor.Stopping?
  }

  /** One turn of the loop of s_client_handle_msgpipe. */
  function HandleItem(s: System, item: Item): System {
    match item
    case Send(message) => s.(dealer := s.dealer + [FromCaller(message)])
    case Unknown(_) => s
    case Flush => s.(replies := s.replies + [FlushSignal])
  }

  function IsSignal(r: Reply): bool {
    r.FlushSignal? || r.ExitSignal?
  }

  /** The wait throws away everything up to the first signal. */
  function WaitTurn(s: System): System
    requires s.replies != []
  {
    var t := s.(replies := s.replies[1..]);
    match s.replies[0]
    case FlushSignal => t.(caller := Released(ByFlush), release := Some(ByFlush))
    case ExitSignal => t.(caller := Released(ByExit), release := Some(ByExit))
    case Answer(_) => t
  }

  function Next(s: System, step: Step): System {
    if !Enabled(s, step) then s else
      match step
      case SendMessage(message) => s.(sent := s.sent + [message], msgpipe := s.msgpipe + [Send(message)])
      case SendUnknown(name) => s.(msgpipe := s.msgpipe + [Unknown(name)])
      case SendRequest(name) => s.(commands := s.commands + [Request(name)])
      case TakeReply =>
        s.(replies := s.replies[1..], exitTaken := s.exitTaken || s.replies[0].ExitSignal?)
      case SendFlush => s.(msgpipe := s.msgpipe + [Flush], caller := Waiting)
      case FlushRefused => s.(caller := Released(NoWait), release := Some(NoWait))
      case Wait => WaitTurn(s)
      case SendTerm => s.(commands := s.commands + [Term], caller := Ending)
      case TermRefused => s.(caller := Gone)
      case WaitForExit =>
        s.(replies := s.replies[1..], caller := if IsSignal(s.replies[0]) then Gone else Ending)
      case TakeItem => HandleItem(s.(msgpipe := s.msgpipe[1..]), s.msgpipe[0])
      case TakeCommand =>
        s.(commands := s.commands[1..], actor := if s.commands[0].Term? then Stopping else Live)
      case Output(message) => s.(dealer := s.dealer + [FromEngine(message)])
      case Reply(name) => s.(replies := s.replies + [Answer(name)])
      case Halt => s.(actor := Stopping)
      case Exit => s.(actor := Exited, replies := s.replies + [ExitSignal])
  }

  function Run(s: System, steps: seq<Step>): System
    decreases |steps|
  {
    if steps == [] then s else Run(Next(s, steps[0]), steps[1..])
  }

  // ---------------------------------------------------------------- the invariant

  /** The caller's messages on the dealer, and still on the msgpipe. */
  function Forwarded(dealer: seq<Output>): seq<Message> {
    if dealer == [] then []
    else
      var last := dealer[|dealer| - 1];
      Forwarded(dealer[..|dealer| - 1]) + if last.FromCaller? then [last.message] else []
  }

  function MessageIn(item: Item): seq<Message> {
    if item.Send? then [item.message] else []
  }

  function Pending(pipe: seq<Item>): seq<Message> {
    if pipe == [] then [] else MessageIn(pipe[0]) + Pending(pipe[1..])
  }

  lemma {:induction false} PendingAppend(pipe: seq<Item>, item: Item)
    ensures Pending(pipe + [item]) == Pending(pipe) + MessageIn(item)
  {
    hide MessageIn;
    if pipe == [] {
      assert [item][1..] == [];
      assert pipe + [item] == [item];
    } else {
      assert (pipe + [item])[1..] == pipe[1..] + [item];
      PendingAppend(pipe[1..], item);
      Assoc(MessageIn(pipe[0]), Pending(pipe[1..]), MessageIn(item));
    }
  }

  /** Nothing is lost, duplicated or reordered: forwarded first, then pending, are the messages sent. */
  predicate Conserved(s: System) {
    Forwarded(s.dealer) + Pending(s.msgpipe) == s.sent
  }

  predicate NoFlushIn(pipe: seq<Item>) {
    Flush !in pipe
  }

  /** The flush is still on its way: last on the msgpipe. */
  predicate FlushLast(pipe: seq<Item>) {
    |pipe| > 0 && pipe[|pipe| - 1] == Flush && NoFlushIn(pipe[..|pipe| - 1])
  }

  /** Where the one flush of the caller is. */
  predicate FlushPlaced(s: System) {
    if s.caller.Working? then NoFlushIn(s.msgpipe) && FlushSignal !in s.replies && s.release == None
    else if s.caller.Waiting? then
      s.release == None && (if FlushSignal in s.replies then s.msgpipe == [] else FlushLast(s.msgpipe))
    else s.release.Some? && (s.caller.Released? ==> s.release == Some(s.caller.cause))
  }

  /** How the wait ended says what became of the flush. */
  predicate ReleaseMeans(s: System) {
    match s.release
    case None => true
    case Some(ByFlush) => s.msgpipe == []
    case Some(ByExit) => s.actor.Exited? && FlushLast(s.msgpipe)
    case Some(NoWait) => s.actor.Exited?
  }

  /** The exit signal is the last thing the actor ever says: it is queued until someone takes it. */
  predicate ExitPlaced(s: System) {
    && (!s.actor.Exited? ==> ExitSignal !in s.replies && !s.exitTaken)
    && (s.exitTaken || s.release == Some(ByExit) ==> s.actor.Exited? && s.replies == [])
    && (s.actor.Exited? && s.release != Some(ByExit) && !s.caller.Gone? && !s.exitTaken ==> ExitLast(s.replies))
    && (s.caller.Ending? ==> s.release != Some(ByExit) && !s.exitTaken && (s.actor.Live? ==> Term in s.commands))
  }

  predicate ExitLast(replies: seq<Reply>) {
    |replies| > 0 && replies[|replies| - 1] == ExitSignal && ExitSignal !in replies[..|replies| - 1]
  }

  predicate Inv(s: System) {
    Conserved(s) && FlushPlaced(s) && ReleaseMeans(s) && ExitPlaced(s)
  }

  lemma SendConserves(s: System, item: Item)
    requires Conserved(s)
    ensures Forwarded(s.dealer) + Pending(s.msgpipe + [item]) == s.sent + MessageIn(item)
  {
    hide Forwarded, Pending, MessageIn;
    PendingAppend(s.msgpipe, item);
    Assoc(Forwarded(s.dealer), Pending(s.msgpipe), MessageIn(item));
  }

  lemma Assoc(a: seq<Message>, b: seq<Message>, c: seq<Message>)
    ensures (a + b) + c == a + (b + c)
  {
  }

  lemma NextConserves(s: System, step: Step)
    requires Conserved(s)
    ensures Conserved(Next(s, step))
  {
    hide Forwarded, Pending, Enabled, IsSignal, WaitTurn, HandleItem;
    match step
    case SendMessage(message) => SendConserves(s, Send(message));
    case SendUnknown(name) => SendConserves(s, Unknown(name));
    case SendFlush => SendConserves(s, Flush);
    case TakeItem =>
      if s.actor.Live? && s.msgpipe != [] {
        TakeItemConserves(s);
      } else {
        NothingTaken(s);
      }
    case Output(message) => ForwardedIgnores(s.dealer, message);
    case Wait => WaitTurnKeepsPipes(s);
    case _ =>
  }

  lemma NothingTaken(s: System)
    requires !s.actor.Live? || s.msgpipe == []
    ensures Next(s, TakeItem) == s
  {
  }

  lemma ForwardedIgnores(dealer: seq<Output>, message: Message)
    ensures Forwarded(dealer + [FromEngine(message)]) == Forwarded(dealer)
  {
    assert (dealer + [FromEngine(message)])[..|dealer|] == dealer;
  }

  lemma WaitTurnKeepsPipes(s: System)
    ensures Enabled(s, Wait) ==>
      var t := WaitTurn(s);
      t.dealer == s.dealer && t.msgpipe == s.msgpipe && t.sent == s.sent
  {
  }

  lemma ForwardedAppend(dealer: seq<Output>, message: Message)
    ensures Forwarded(dealer + [FromCaller(message)]) == Forwarded(dealer) + [message]
  {
    assert (dealer + [FromCaller(message)])[..|dealer|] == dealer;
  }

  /** Taking an item moves its message, if any, from the pipe to the dealer. */
  lemma TakeItemMoves(s: System)
    requires s.actor.Live? && s.msgpipe != []
    ensures var t := Next(s, TakeItem);
            && t.sent == s.sent && t.msgpipe == s.msgpipe[1..]
            && Forwarded(t.dealer) == Forwarded(s.dealer) + MessageIn(s.msgpipe[0])
  {
    hide Forwarded;
    var item := s.msgpipe[0];
    if item.Send? {
      ForwardedAppend(s.dealer, item.message);
    }
  }

  lemma TakeItemConserves(s: System)
    requires Conserved(s) && s.actor.Live? && s.msgpipe != []
    ensures Conserved(Next(s, TakeItem))
  {
    hide Forwarded, MessageIn, Next;
    TakeItemMoves(s);
    Assoc(Forwarded(s.dealer), MessageIn(s.msgpipe[0]), Pending(s.msgpipe[1..]));
  }

  lemma NextPlacesFlush(s: System, step: Step)
    requires Inv(s)
    ensures FlushPlaced(Next(s, step))
  {
    hide Conserved, Forwarded, Pending;
  }

  lemma NextKeepsRelease(s: System, step: Step)
    requires Inv(s)
    ensures ReleaseMeans(Next(s, step))
  {
    hide Conserved, Forwarded, Pending;
  }

  lemma NextPlacesExit(s: System, step: Step)
    requires Inv(s)
    ensures ExitPlaced(Next(s, step))
  {
    hide Conserved, Forwarded, Pending;
  }

  lemma {:induction false} RunKeeps(s: System, steps: seq<Step>)
    requires Inv(s)
    ensures Inv(Run(s, steps))
    decreases |steps|
  {
    hide Conserved, FlushPlaced, ReleaseMeans, ExitPlaced, Next;
    if steps != [] {
      NextConserves(s, steps[0]);
      NextPlacesFlush(s, steps[0]);
      NextKeepsRelease(s, steps[0]);
      NextPlacesExit(s, steps[0]);
      RunKeeps(Next(s, steps[0]), steps[1..]);
    }
  }

  // ---------------------------------------------------------------- nothing is lost

  /**
   In every interleaving: what has been forwarded is an in-order prefix of what was sent, the rest is
   still on the msgpipe, and all of it has been forwarded once the flush signal releases the caller.
   */
  lemma ShutdownLosesNothing(steps: seq<Step>)
    ensures var s := Run(START, steps);
            && s.sent == Forwarded(s.dealer) + Pending(s.msgpipe)
            && Forwarded(s.dealer) <= s.sent
            && (s.release == Some(ByFlush) ==> Forwarded(s.dealer) == s.sent)
  {
    RunKeeps(START, steps);
  }

  lemma NextAfterExit(s: System, step: Step)
    requires s.actor.Exited?
    ensures Next(s, step).actor.Exited? && Next(s, step).dealer == s.dealer
  {
  }

  lemma {:induction false} RunAfterExit(s: System, steps: seq<Step>)
    requires s.actor.Exited?
    ensures Run(s, steps).actor.Exited? && Run(s, steps).dealer == s.dealer
    decreases |steps|
  {
    hide Next;
    if steps != [] {
      NextAfterExit(s, steps[0]);
      RunAfterExit(Next(s, steps[0]), steps[1..]);
    }
  }

  lemma NextSends(s: System, step: Step)
    ensures s.sent <= Next(s, step).sent
  {
  }

  lemma {:induction false} RunSends(s: System, steps: seq<Step>)
    ensures s.sent <= Run(s, steps).sent
    decreases |steps|
  {
    hide Next;
    if steps != [] {
      NextSends(s, steps[0]);
      RunSends(Next(s, steps[0]), steps[1..]);
    }
  }

  /**
   Nothing is forwarded after the actor has ended, so what was pending when it ended, and what is sent
   later, is lost for good; nothing is lost exactly when there was neither.
   */
  lemma LostExactlyWhatWasPending(before: seq<Step>, later: seq<Step>)
    ensures var s := Run(START, before);
            var t := Run(s, later);
            s.actor.Exited? ==>
            && Forwarded(t.dealer) == Forwarded(s.dealer)
            && Forwarded(t.dealer) + Pending(s.msgpipe) <= t.sent
            && (Forwarded(t.dealer) == t.sent <==> Pending(s.msgpipe) == [] && t.sent == s.sent)
  {
    hide Conserved, FlushPlaced, ReleaseMeans, ExitPlaced, Next, Forwarded, Pending;
    var s := Run(START, before);
    StartsWell();
    RunKeeps(START, before);
    if s.actor.Exited? {
      RunAfterExit(s, later);
      RunSends(s, later);
      ConservedMeans(s, Run(s, later).sent);
    }
  }

  lemma StartsWell()
    ensures Inv(START)
  {
  }

  lemma ConservedMeans(s: System, sent: seq<Message>)
    requires Conserved(s) && s.sent <= sent
    ensures Forwarded(s.dealer) + Pending(s.msgpipe) <= sent
    ensures Forwarded(s.dealer) == sent <==> Pending(s.msgpipe) == [] && sent == s.sent
  {
    hide Forwarded, Pending;
    if Forwarded(s.dealer) == sent {
      assert |s.sent| == |Forwarded(s.dealer)| + |Pending(s.msgpipe)|;
    }
  }

  /** The handshake does not help when the actor ends by itself: the exit signal ends the wait as well. */
  lemma ExitSignalLosesAMessage()
    ensures var s := Run(START, [SendMessage("last"), SendFlush, Halt, Exit, Wait]);
            s.release == Some(ByExit) && s.sent == ["last"] && Forwarded(s.dealer) == []
  {
    var s1 := Next(START, SendMessage("last"));
    var s2 := Next(s1, SendFlush);
    var s3 := Next(s2, Halt);
    var s4 := Next(s3, Exit);
    var s5 := Next(s4, Wait);
    assert s5.release == Some(ByExit) && s5.dealer == [] && s5.sent == ["last"];
    RunFive(START, SendMessage("last"), SendFlush, Halt, Exit, Wait);
  }

  lemma RunFive(s: System, a: Step, b: Step, c: Step, d: Step, e: Step)
    ensures Run(s, [a, b, c, d, e]) == Next(Next(Next(Next(Next(s, a), b), c), d), e)
  {
    hide Next;
    RunFirst(s, a, [b, c, d, e]);
    RunFour(Next(s, a), b, c, d, e);
    assert [a, b, c, d, e] == [a] + [b, c, d, e];
  }

  /** After an empty flush the caller is released and nothing is under way. */
  lemma QuickRelease()
    ensures var s := Run(START, [SendFlush, TakeItem, Wait]);
            s == START.(caller := Released(ByFlush), release := Some(ByFlush))
  {
    RunThree(START, SendFlush, TakeItem, Wait, []);
    assert [SendFlush, TakeItem, Wait] + [] == [SendFlush, TakeItem, Wait];
  }

  /** A caller so released may still call the actor, which answers, and take the answer. */
  lemma DestructorMethodIsAnswered(request: string, reply: string)
    ensures var s := Run(START, [SendFlush, TakeItem, Wait]);
            && Run(s, [SendRequest(request)]).commands == [Request(request)]
            && Run(s, [SendRequest(request), TakeCommand, Reply(reply)]) == s.(replies := [Answer(reply)])
            && Run(s.(replies := [Answer(reply)]), [TakeReply]) == s
  {
    hide Next, Run;
    QuickRelease();
    var s := START.(caller := Released(ByFlush), release := Some(ByFlush));
    RequestAnswered(s, request, reply);
    RunThree(s, SendRequest(request), TakeCommand, Reply(reply), []);
    assert [SendRequest(request), TakeCommand, Reply(reply)] + [] == [SendRequest(request), TakeCommand, Reply(reply)];
    RunOne(s, SendRequest(request));
    RunOne(s.(replies := [Answer(reply)]), TakeReply);
    RunNone(Next(Next(Next(s, SendRequest(request)), TakeCommand), Reply(reply)));
  }

  lemma RequestAnswered(s: System, request: string, reply: string)
    requires s.caller.Released? && s.actor.Live? && s.commands == [] && s.replies == []
    ensures Next(s, SendRequest(request)).commands == [Request(request)]
    ensures Next(Next(Next(s, SendRequest(request)), TakeCommand), Reply(reply)) == s.(replies := [Answer(reply)])
    ensures Next(s.(replies := [Answer(reply)]), TakeReply) == s
  {
    assert Next(Next(s, SendRequest(request)), TakeCommand) == s;
  }

  lemma RunNone(s: System)
    ensures Run(s, []) == s
  {
  }

  /** An actor that is stopping still replies and speaks to the server, before its exit signal. */
  lemma StoppingActorStillSpeaks(reply: string, message: Message)
    ensures var s := Run(START, [Halt, Reply(reply), Output(message)] + [Exit]);
            s.replies == [Answer(reply), ExitSignal] && s.dealer == [FromEngine(message)] && s.actor.Exited?
  {
    var s3 := Next(Next(Next(START, Halt), Reply(reply)), Output(message));
    assert s3.replies == [Answer(reply)] && s3.dealer == [FromEngine(message)] && s3.actor.Stopping?;
    RunThree(START, Halt, Reply(reply), Output(message), [Exit]);
    RunOne(s3, Exit);
  }

  lemma RunThree(s: System, a: Step, b: Step, c: Step, rest: seq<Step>)
    ensures Run(s, [a, b, c] + rest) == Run(Next(Next(Next(s, a), b), c), rest)
  {
    hide Next;
    RunFirst(s, a, [b, c] + rest);
    RunFirst(Next(s, a), b, [c] + rest);
    RunFirst(Next(Next(s, a), b), c, rest);
    assert [a, b, c] + rest == [a] + ([b] + ([c] + rest));
    assert [b, c] + rest == [b] + ([c] + rest);
  }

  // ---------------------------------------------------------------- the destroying caller is not stuck

  /** A step that brings the destruction nearer to its end. */
  function Helpful(s: System): Step {
    if s.caller.Waiting? && s.replies != [] then Wait
    else if s.caller.Released? then if s.actor.Exited? then TermRefused else SendTerm
    else if s.caller.Ending? && s.replies != [] then WaitForExit
    else if s.actor.Stopping? then Exit
    else if s.caller.Waiting? then TakeItem
    else TakeCommand
  }

  predicate Destroying(s: System) {
    s.caller.Waiting? || s.caller.Released? || s.caller.Ending?
  }

  /** The caller waits for the flush, having taken the exit signal before. */
  predicate Stuck(s: System) {
    s.caller.Waiting? && s.exitTaken
  }

  function CallerRank(s: System): nat {
    match s.caller
    case Working => 4
    case Waiting => 3
    case Released(_) => 2
    case Ending => 1
    case Gone => 0
  }

  function ActorRank(s: System): nat {
    match s.actor
    case Live => 2
    case Stopping => 1
    case Exited => 0
  }

  /** What is left to do; handling an item may queue a reply, so items weigh more. */
  function Work(s: System): nat {
    2 * CallerRank(s) + 2 * ActorRank(s) + 2 * |s.msgpipe| + |s.commands| + |s.replies|
  }

  lemma HelpfulHelps(s: System)
    requires Inv(s) && Destroying(s) && !Stuck(s)
    ensures Enabled(s, Helpful(s)) && Work(Next(s, Helpful(s))) < Work(s)
  {
    hide Conserved, Forwarded, Pending;
  }

  /** Every step goes on with the destruction; only a reply or a request adds work, and only one unit. */
  lemma StepGoesOn(s: System, step: Step)
    requires Inv(s) && Destroying(s) && !Stuck(s)
    ensures var t := Next(s, step);
            && (t.caller.Gone? || (Destroying(t) && !Stuck(t)))
            && Work(t) <= Work(s) + Noise(step)
  {
    hide Conserved, Forwarded, Pending;
  }

  function Noise(step: Step): nat {
    if step.Reply? || step.SendRequest? then 1 else 0
  }

  /** There is a way to the end of a destruction. */
  lemma {:induction false} DestroyCanFinish(s: System)
    requires Inv(s) && Destroying(s) && !Stuck(s)
    ensures exists steps :: Run(s, steps).caller.Gone?
    decreases Work(s)
  {
    hide Conserved, FlushPlaced, ReleaseMeans, ExitPlaced, Next, Helpful, Work, Stuck;
    var step := Helpful(s);
    var t := Next(s, step);
    HelpfulHelps(s);
    StepGoesOn(s, step);
    RunOne(s, step);
    RunKeeps(s, [step]);
    if t.caller.Gone? {
      assert Run(s, [step]).caller.Gone?;
    } else {
      DestroyCanFinish(t);
      var rest :| Run(t, rest).caller.Gone?;
      RunFirst(s, step, rest);
      assert Run(s, [step] + rest).caller.Gone?;
    }
  }

  lemma RunOne(s: System, step: Step)
    ensures Run(s, [step]) == Next(s, step)
  {
    hide Next;
    assert [step][1..] == [];
  }

  lemma RunFirst(s: System, step: Step, rest: seq<Step>)
    ensures Run(s, [step] + rest) == Run(Next(s, step), rest)
  {
    hide Next;
    assert ([step] + rest)[1..] == rest;
  }

  lemma StuckNext(s: System, step: Step)
    requires Inv(s) && s.caller.Waiting? && s.exitTaken
    ensures Next(s, step) == s
  {
    hide Conserved, Forwarded, Pending;
  }

  lemma {:induction false} StuckRun(s: System, steps: seq<Step>)
    requires Inv(s) && s.caller.Waiting? && s.exitTaken
    ensures Run(s, steps) == s
    decreases |steps|
  {
    hide Conserved, FlushPlaced, ReleaseMeans, ExitPlaced, Next;
    if steps != [] {
      StuckNext(s, steps[0]);
      StuckRun(s, steps[1..]);
    }
  }

  /**
   The wait for the flush can never end exactly when the caller had already received the exit signal of
   an actor that ended by itself, as if it were an answer.
   */
  lemma WaitHangsExactly(before: seq<Step>)
    ensures var s := Run(START, before);
            s.caller.Waiting? ==> (s.exitTaken <==> forall steps :: Run(s, steps).caller.Waiting?)
  {
    hide Conserved, FlushPlaced, ReleaseMeans, ExitPlaced, Next;
    var s := Run(START, before);
    StartsWell();
    RunKeeps(START, before);
    if s.caller.Waiting? {
      if s.exitTaken {
        forall steps
          ensures Run(s, steps).caller.Waiting?
        {
          StuckRun(s, steps);
        }
      } else {
        DestroyCanFinish(s);
      }
    }
  }

  /** A destruction under way can be completed exactly when it is not stuck in that wait. */
  lemma DestroyFinishesExactly(before: seq<Step>)
    ensures var s := Run(START, before);
            Destroying(s) ==> (!Stuck(s) <==> exists steps :: Run(s, steps).caller.Gone?)
  {
    hide Conserved, FlushPlaced, ReleaseMeans, ExitPlaced, Next;
    var s := Run(START, before);
    StartsWell();
    RunKeeps(START, before);
    if Destroying(s) {
      if Stuck(s) {
        forall steps
          ensures !Run(s, steps).caller.Gone?
        {
          StuckRun(s, steps);
        }
      } else {
        DestroyCanFinish(s);
      }
    }
  }

  /** An actor ends by itself, a working caller reads its exit signal as an answer, then destroys the client. */
  lemma TakenExitSignalHangs(later: seq<Step>)
    ensures var s := Run(START, [Halt, Exit, TakeReply, SendFlush]);
            s.caller.Waiting? && s.exitTaken && Run(s, later).caller.Waiting?
  {
    var steps := [Halt, Exit, TakeReply, SendFlush];
    var s1 := Next(START, Halt);
    var s2 := Next(s1, Exit);
    var s3 := Next(s2, TakeReply);
    var s4 := Next(s3, SendFlush);
    RunFour(START, Halt, Exit, TakeReply, SendFlush);
    assert s2.replies == [ExitSignal] && s3.exitTaken;
    assert s4.caller.Waiting? && s4.exitTaken;
    WaitHangsExactly(steps);
    assert Run(s4, later).caller.Waiting?;
  }

  lemma RunFour(s: System, a: Step, b: Step, c: Step, d: Step)
    ensures Run(s, [a, b, c, d]) == Next(Next(Next(Next(s, a), b), c), d)
  {
    hide Next;
    RunFirst(s, a, [b, c, d]);
    RunFirst(Next(s, a), b, [c, d]);
    RunFirst(Next(Next(s, a), b), c, [d]);
    RunOne(Next(Next(Next(s, a), b), c), d);
    assert [a, b, c, d] == [a] + [b, c, d];
    assert [b, c, d] == [b] + [c, d];
    assert [c, d] == [c] + [d];
  }

  // ---------------------------------------------------------------- the actor's loop

  /** The actor's ends of the pipes, as s_client_handle_msgpipe uses them. */
  class ActorPipes {
    var msgpipe: seq<Item>
    var replies: seq<Reply>
    var dealer: seq<Output>

    constructor ()
      ensures msgpipe == [] && replies == [] && dealer == []
    {
      msgpipe, replies, dealer := [], [], [];
    }

    ghost predicate Shows(s: System)
      reads this
    {
      msgpipe == s.msgpipe && replies == s.replies && dealer == s.dealer
    }

    /**
     s_client_handle_msgpipe with nothing else happening meanwhile: as many turns as there are items.
     All messages are forwarded, in order.
     */
    method HandleMsgpipe(ghost s: System)
      requires Shows(s) && s.actor.Live?
      modifies this
      ensures Shows(Run(s, TakeAll(|s.msgpipe|)))
      ensures msgpipe == [] && Forwarded(dealer) == Forwarded(old(dealer)) + Pending(old(msgpipe))
      ensures Flush in old(msgpipe) ==> FlushSignal in replies
    {
      hide Next, Run, TakeAll, Forwarded, Pending;
      ghost var t := s;
      while msgpipe != []
        invariant Shows(t) && t.actor.Live?
        invariant Run(t, TakeAll(|msgpipe|)) == Run(s, TakeAll(|s.msgpipe|))
        invariant Forwarded(dealer) + Pending(msgpipe) == Forwarded(old(dealer)) + Pending(old(msgpipe))
        invariant Flush in old(msgpipe) ==> Flush in msgpipe || FlushSignal in replies
        decreases |msgpipe|
      {
        TakeAllTurn(t, |msgpipe|);
        TakeItemTurn(t);
        t := Next(t, TakeItem);
        var item := msgpipe[0];
        msgpipe := msgpipe[1..];
        match item
        case Flush => replies := replies + [FlushSignal];
        case Send(message) => dealer := dealer + [FromCaller(message)];
        case Unknown(_) =>
      }
      NothingToTake(t);
    }
  }

  lemma NothingToTake(s: System)
    ensures Run(s, TakeAll(0)) == s && Pending([]) == []
  {
    assert TakeAll(0) == [];
  }

  function TakeAll(n: nat): seq<Step> {
    seq(n, i => TakeItem)
  }

  lemma TakeAllTurn(s: System, n: nat)
    requires n > 0
    ensures Run(s, TakeAll(n)) == Run(Next(s, TakeItem), TakeAll(n - 1))
  {
    hide Next;
    assert TakeAll(n) == [TakeItem] + TakeAll(n - 1);
    RunFirst(s, TakeItem, TakeAll(n - 1));
  }

  lemma TakeItemTurn(s: System)
    requires s.actor.Live? && s.msgpipe != []
    ensures var t := Next(s, TakeItem);
            var item := s.msgpipe[0];
            && t.actor.Live?
            && t.msgpipe == s.msgpipe[1..]
            && t.dealer == (if item.Send? then s.dealer + [FromCaller(item.message)] else s.dealer)
            && t.replies == (if item.Flush? then s.replies + [FlushSignal] else s.replies)
            && Forwarded(t.dealer) + Pending(t.msgpipe) == Forwarded(s.dealer) + Pending(s.msgpipe)
  {
    TakeItemConserves(s.(sent := Forwarded(s.dealer) + Pending(s.msgpipe)));
  }
}
