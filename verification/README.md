# Verification of zproto

A Dafny model of the two parts of zproto that carry its hard guarantees: the client engine with its
model compiler, and the binary codec with its textual and Go counterparts. `dafny verify dfyconfig.toml`
checks everything.

## The client engine

- `Superstates`: the client model; the generator's in-place flattening of superstates (`Generator`); the
  if-else chain it emits; the documented meaning by lookup up the inherit chain, and when the two agree.
- `EngineSpec`: the engine as functions on its state. Application actions are arbitrary: a `World` says
  which engine calls the n-th application action ever run makes, so every result holds for all actions.
- `Client`: the generated engine as an object updated in place, each method proved against `EngineSpec`.
- `EngineMachine`: one pass against the documented machine, for any actions.
- `EngineDocumented`: the documented machine, which looks events up through the superstates of the model
  as written; the generated engine on the flattened model goes through the same states over whole runs.
- `EngineHistory`: whole runs: nothing after a terminate action; before and after blocks stay bracketed.
- `EngineTimers`, `EngineRuns`: the wakeup, heartbeat and expiry timers over whole runs of the reactor.
  A periodic callback is *clean* when its own actions do not set that timer's interval, or set it to
  zero last. Callbacks arm the next timer after running the event, so an unclean one leaves two timers
  live (`EngineRuns.RearmingLeavesTwoTimers`); `EngineRuns.OneLiveThroughoutExactly` shows that this is
  exactly when it happens, for each of the two kinds whatever the other does.
- `EngineAlarms`: an alarm is delivered when it was asked for. `EngineInputs`: what each input from the
  reactor does, and when an execution ends.
- `Shutdown`: the calling thread and the actor as a step machine over two FIFO pipes, all interleavings.
  `Destruction`: a destruction that is not stuck ends, under finite and under fair infinite schedules, and
  the actor ends before the caller is done.
- `AcceptReply`: the caller's wait for an accepted reply.

## The codec

- `Bytes`, `Wire`: the format for every schema, as functions: what is written and what is read.
- `Grammar`: the documented ABNF as a relation between octets and messages; the encoder writes the one
  frame it derives.
- `RoundTrip`, `Reading`, `CodecLaws`, `Truncation`: its laws, for every schema, message and received frame.
- `Refusals`: what a receiver refuses, and what a failed receive leaves in the object.
- `Buffers`, `Sockets`, `Codec`: the generated object in place: the macros moving a needle through an
  array, the sizing pass with its retained hash sizes, the writing pass, the frame countdown, the bounded
  reading pass. `Exchange` joins a sender and a receiver over a socket. `Lifetime`: the object over any
  sequence of calls.
- `CharArrays`: one char [256] field in place. `Zpl`: the textual form of the LOG message.
- `GoStructures`, `GoAccepted`: the Go implementation of STRUCTURES and its agreement with the C one, on
  encodings and on every frame C accepts.

The return code says little about a received frame: the GET macros leave it at 0. Results about
receiving are therefore stated by the exit taken (`Done`, `Truncated`, `Rejected`).

## Where code and documentation differ

The model follows the code.

- `recv` is documented to return -2 for a malformed message; a truncated one returns 0, unless the cut is
  inside a uuid or inside a chunk behind its length (`Truncation.TruncationReturnCode`; both at one
  frame: `Truncation.TruncationWitness`).
- A wildcard means "all other events"; in first place its block also runs for a named event
  (`Superstates.FirstWildcardRunsTwice`).
- An event declared only behind a reference to a later superstate is not inherited
  (`Superstates.ForwardChainLosesEvents`).
- The flush handshake is meant to keep all pending messages; an actor that ends by itself loses them
  (`Shutdown.ExitSignalLosesAMessage`), and a caller that took its exit signal as an answer waits for
  ever (`Shutdown.TakenExitSignalHangs`, `Shutdown.WaitHangsExactly`).
- An accepted reply without fields swallows the reply behind it, or blocks the call until one arrives
  (`AcceptReply.TakesOnlyExactly`).

## Model

| member | source | states |
|---|---|---|
| `Superstates.FlatteningPreservesMeaning` | src/zproto_client_c.gsl:83-92 | For every model, state and event: dispatch on the flattened table equals lookup up the inherit chain (nearest handler of the name, else nearest wildcard) if and only if no event name is declared only behind a reference to a later-declared superstate |
| `Superstates.EventKeepsMeaning` | src/zproto_client_c.gsl:83-92 | Event by event: dispatch on the flattened table is the documented one if and only if the declaration that decides (of that name on the chain, else the wildcard) reaches the state; other lost events do not matter |
| `Superstates.BlocksAreDocumented` | src/zproto_client_c.gsl:1017-1050 | The emitted chain runs exactly the documented block for an event in a state if and only if the declaration that decides reaches the state and the flattened state does not put its wildcard first and also name the event |
| `Superstates.DeclaredFirstIsComplete` | src/zproto_client_c.gsl:83-92 | If every superstate is declared before its heirs, or inherits nothing itself, no event name is declared only behind a reference to a later-declared superstate |
| `Superstates.ForwardChainLosesEvents` | src/zproto_client_c.gsl:83-92 | A three-state chain of forward references whose grandparent's event never reaches the grandchild |
| `Superstates.VisibleLookup` | src/zproto_client_c.gsl:83-92 | What the states reached by copying declare is resolved exactly as the full, possibly endless, inherit chain resolves it |
| `Superstates.BlocksAreDispatch` | src/zproto_client_c.gsl:1017-1050 | The emitted if-else chain runs exactly the one documented block if and only if the state does not put its wildcard first and also name the event |
| `Superstates.FirstWildcardRunsTwice` | src/zproto_client_c.gsl:1031-1036 | A state with its wildcard first runs two blocks for one named event |
| `Superstates.Generator.Inherit` | src/zproto_client_c.gsl:85-88 | The copying loop adds to a state, in order, every event of the superstate whose name it lacks so far, and changes no other state |
| `Superstates.Generator.ProcessSuperstates` | src/zproto_client_c.gsl:83-92 | The in-place pass in declaration order leaves the table in which earlier superstates were already flattened and later ones were not |
| `EngineMachine.PassRefinesDocumented` | src/zproto_client_c.gsl:995-1066 | One pass on the flattened model is one step of the documented machine on the model as written: handler by inheritance, the prefix of body, after(current), before(next) up to the first exception, move if and only if body and after raised none, the exception next in preference to any requested event; abort if there is no handler |
| `EngineMachine.TransitionRuns` | src/zproto_client_c.gsl:978-990 | A pass that raises nothing and moves to state j appends to the log exactly the actions of the event, then the after actions of the state left, then the before actions in m[j].before, each in order, and leaves the machine in m[j] |
| `EngineMachine.UntidyPassRunsBoth` | src/zproto_client_c.gsl:1017-1050 | In a state whose wildcard comes first, a pass for a named event that raises nothing runs everything of the event and then everything of the wildcard |
| `EngineDocumented.RunIsDocumented` | src/zproto_client_c.gsl:83-92 | Over whole runs with arbitrary actions and inputs the generated engine on the flattened model goes through exactly the states of the documented machine, which looks events up through the superstates, as long as every event handled is one about which the chain is faithful |
| `EngineDocumented.RunsAsDocumented` | src/zproto_client_c.gsl:995-1066 | For every model that loses no event and is tidy as written, every run of the generated engine is the run of the documented machine |
| `EngineDocumented.AllFaithfulExactly` | src/zproto_client_c.gsl:1017-1050 | The emitted chains are faithful for every state and event if and only if no event is lost and the model is tidy as written |
| `EngineDocumented.FlattenedIsTidyExactly` | src/zproto_client_c.gsl:83-92 | The flattened table puts no wildcard before a named event if and only if, as written, no state whose first own or else first inherited event is the wildcard has a named event of its own or inherited |
| `EngineDocumented.WildcardOnlyStateInheritsUntidily` | src/zproto_client_c.gsl:83-92 | A model tidy as written, state by state, and untidy once flattened |
| `EngineDocumented.BracketsAsWritten` | src/zproto_client_c.gsl:978-990 | For the model as written, each of its states k, each action i of m[k].before and j of m[k].after: over exception-free runs of the engine generated from its flattening, runs of the one minus runs of the other are [current state] minus [start state] |
| `EngineMachine.ActionsRun` | src/zproto_client_c.gsl:950-976 | A list of actions runs exactly its prefix up to and including the first action that leaves an exception set, whatever the actions do; requests and the stop flag come from that prefix alone |
| `EngineMachine.BlockRuns` | src/zproto_client_c.gsl:978-990 | Body, after and before blocks behave as one list of actions with the state change between after and before, which no action can observe |
| `EngineHistory.RunStops` | src/zproto_client_c.gsl:963-968 | In every run the machine is stopped if and only if a terminate action has run |
| `EngineHistory.NothingAfterTerminate` | src/zproto_client_c.gsl:1003-1007 | Once a terminate action has run, no later callback of any continuation begins a pass, runs an action or moves the state |
| `EngineHistory.BracketsOverRuns` | src/zproto_client_c.gsl:978-990 | In every run arrivals minus departures of each state is 1 for the current state less 1 for the start state; while no pass raised an exception every action of a state's own before field has run once per arrival in it and every one of its after field once per departure |
| `EngineHistory.BeforeMinusAfter` | src/zproto_client_c.gsl:737-739 | Runs of any action in the before field of a state minus runs of any in its after field are [current state] minus [start state] in every exception-free run |
| `EngineSpec.LargerBoundSame` | src/zproto_client_c.gsl:1003-1007 | An execution that ends within a bound on passes ends the same under every larger bound |
| `EngineRuns.AlarmsAreCurrent` | src/zproto_client_c.gsl:1106-1112 | At every moment of every run a live alarm is the recorded one, was armed after the latest execution began, and carries the event that will be delivered |
| `EngineRuns.ExecutionCancelsAlarm` | src/zproto_client_c.gsl:998-1002 | Beginning an execution cancels a pending alarm; afterwards only alarms armed since are live |
| `EngineRuns.ExpiryMeansIdle` | src/zproto_client_c.gsl:1089-1101 | In every run whose expiry callbacks are clean at most one expiry timer is live, and when it is due no server message was handled since it was armed a full interval earlier |
| `EngineRuns.HeartbeatEveryInterval` | src/zproto_client_c.gsl:1071-1083 | In every run whose heartbeat callbacks are clean the one live heartbeat timer is recorded and due exactly one interval after it was armed |
| `EngineRuns.OneLiveExactlyWhenClean` | src/zproto_client_c.gsl:1079-1083 | From a state in order, a periodic callback leaves two live timers of its kind if and only if the last interval its own actions set for that timer is not zero |
| `EngineRuns.OneLiveThroughoutExactly` | src/zproto_client_c.gsl:1089-1101 | For the heartbeat and the expiry timer each on its own: at no moment of a run are two of the kind live if and only if every callback of that kind was clean |
| `EngineRuns.RearmingLeavesTwoTimers` | src/zproto_client_c.gsl:864-880 | A model, actions and inputs with which an expiry callback that sets its own interval leaves two expiry timers live |
| `EngineRuns.RunKeeps` | src/zproto_client_c.gsl:817-880 | The timer invariant holds in every run, kind by kind: for alarms without condition, for a periodic kind if its own callbacks are clean |
| `EngineTimers.SetPeriodKeeps` | src/zproto_client_c.gsl:837-880 | Setting a heartbeat or expiry interval leaves its timer live exactly when the interval is not zero, and the other periodic timer as it was |
| `EngineTimers.ExecuteKeeps` | src/zproto_client_c.gsl:995-1066 | Over a whole execution with arbitrary actions the last interval set decides whether a periodic timer is live, and no alarm from before survives |
| `EngineAlarms.AlarmIsSet` | src/zproto_client_c.gsl:817-831 | After the call exactly one alarm is live: the recorded one, carrying its event, due at now + delay; all other timers are as they were |
| `EngineAlarms.AlarmIsDeliveredOnTime` | src/zproto_client_c.gsl:1106-1112 | After an alarm is set for a delay, and while no input begins an execution or sets it again, firing it does nothing before that many milliseconds have passed and from then on executes exactly its event |
| `EngineAlarms.AlarmsAreAsAsked` | src/zproto_client_c.gsl:817-831 | At every moment of every run a live alarm is the one asked for last: due its delay after it was armed, with its event |
| `EngineInputs.HearRestarts` | src/zproto_client_c.gsl:1243-1250 | With an expiry interval set and the event in the model, a server message leaves exactly one expiry timer live, armed now and due the interval from now; without, none |
| `EngineInputs.AlwaysArmed` | src/zproto_client_c.gsl:1071-1101 | In every run with clean callbacks of a periodic kind, whenever its interval is set the recorded timer of that kind is live and due the interval after it was armed |
| `EngineInputs.EndIsFinal` | src/zproto_client_c.gsl:1004-1006 | A terminated or aborted engine handles nothing more and stays as it is |
| `EngineInputs.LoopEndsExactly` | src/zproto_client_c.gsl:1004-1007 | An execution that ends before its bound ends because the engine was terminated, stopped or aborted or no event was left, and begins no pass in such a state |
| `EngineInputs.CommandsHandled` | src/zproto_client_c.gsl:1117-1161 | $TERM ends the engine and runs nothing; a method is executed as its event, from the state the machine was in; anything else changes nothing |
| `EngineInputs.TimersHandled` | src/zproto_client_c.gsl:1071-1112 | A due timer is executed as the recorded alarm event, or as heartbeat or expired, by its kind |
| `EngineInputs.TerminatedArmsNothing` | src/zproto_client_c.gsl:1079-1083 | A periodic callback that finds the engine terminated arms no timer |
| `EngineInputs.ServerMessagesHandled` | src/zproto_client_c.gsl:932-948 | A server message is executed as its event; an unknown one terminates the engine without running anything |
| `EngineInputs.StepCounts` | src/zproto_client_c.gsl:1264-1287 | Executions begun, server messages handled and the time advance exactly with the inputs that say so, and with nothing else |
| `EngineInputs.StartIsIdle` | src/zproto_client_c.gsl:729-763 | A new engine is in the first state, not connected, with no event, exception, interval or timer |
| `Client.Client.constructor` | src/zproto_client_c.gsl:729-763 | A new client is in the first state with no event, exception or timer |
| `Client.Client.EngineSetWakeupEvent` | src/zproto_client_c.gsl:817-831 | In place: the object does what the specification of the call says; that it leaves one alarm live, due the delay from now, is `EngineAlarms.AlarmIsSet` |
| `Client.Client.EngineSetHeartbeat` | src/zproto_client_c.gsl:837-853 | In place: interval set and, if the model has the event, the timer replaced or ended |
| `Client.Client.EngineSetExpiry` | src/zproto_client_c.gsl:864-880 | In place: interval set and, if the model has the event, the timer replaced or ended |
| `Client.Client.EngineCalls` | src/zproto_client_c.gsl:793-911 | Application code making any sequence of engine calls does to the object what the specification does |
| `Client.Client.PerformActions` | src/zproto_client_c.gsl:950-976 | The emitted action list, updating the object in place, does what the guarded list of the specification does |
| `Client.Client.PerformBlock` | src/zproto_client_c.gsl:978-990 | Body, after block, state change and before block on the object |
| `Client.Client.RunPass` | src/zproto_client_c.gsl:1006-1066 | One turn of the execution loop on the object is one pass of the specification, the unhandled event included |
| `Client.Client.Execute` | src/zproto_client_c.gsl:995-1066 | The execution loop on the object reaches the state the specification says, so every run-long result above holds of it |
| `Client.Client.HandleHeartbeat` | src/zproto_client_c.gsl:1071-1083 | The callback executes the event and arms the next timer after it, unless the engine has terminated |
| `Client.Client.HandleExpiry` | src/zproto_client_c.gsl:1089-1101 | The callback executes the event and arms the next timer after it, unless the engine has terminated |
| `Client.Client.HandleWakeup` | src/zproto_client_c.gsl:1106-1112 | The callback executes the recorded event |
| `Client.Client.HandleCmdpipe` | src/zproto_client_c.gsl:1117-1161 | $TERM terminates; an API method is executed as its event; other commands leave the machine alone |
| `Client.Client.HandleProtocol` | src/zproto_client_c.gsl:1228-1256 | A server message replaces the expiry timer before its event is executed; an unknown one terminates |
| `Client.Client.FireTimer` | src/zproto_client_c.gsl:1071-1112 | A due one-shot timer is gone before its callback runs, and its kind selects the callback |
| `Client.Client.React` | src/zproto_client_c.gsl:1264-1287 | A client fed any sequence of inputs by the reactor goes through exactly the states of the specification's runs, so every result on runs holds of the object |
| `Shutdown.ShutdownLosesNothing` | src/zproto_client_c.gsl:1166-1223 | In every interleaving the forwarded messages are an in-order prefix of those sent, the rest are still on the pipe, and all are forwarded once the flush signal has released the caller |
| `Shutdown.LostExactlyWhatWasPending` | src/zproto_client_c.gsl:1280-1283 | Once the actor has ended nothing more is forwarded: what was pending then and what is sent later is lost, and every message sent is forwarded if and only if there was neither |
| `Shutdown.ExitSignalLosesAMessage` | src/zproto_client_c.gsl:1350-1356 | An actor that ends by itself releases the waiting caller too, and a sent message is lost |
| `Shutdown.DestroyFinishesExactly` | src/zproto_client_c.gsl:1344-1369 | From a reachable state of a destruction some schedule completes it if and only if the caller is not waiting for the flush after having taken the exit signal |
| `Destruction.ActorEndsFirst` | src/zproto_client_c.gsl:1368 | In every interleaving the destroying caller is gone only once the actor has ended |
| `Destruction.ActorLivesUntilTold` | src/zproto_client_c.gsl:1344-1369 | An actor that does not halt by itself lives until the caller ends it; while it lives every wait for the flush ended by the flush, with everything sent forwarded |
| `Destruction.EnoughHelpEndsDestruction` | src/zproto_client_c.gsl:1344-1369 | From any reachable state of a destruction that is not stuck, a schedule ends it if its steps are the helpful one, in its turn, as often as there is work plus replies and requests to clear, whatever it does in between; taking only helpful steps, as many as there is work, is such a schedule |
| `Destruction.DestroyEndsUnderFairSchedules` | src/zproto_client_c.gsl:1344-1369 | Every infinite schedule ends it in which each helpful step is taken sooner or later and replies and requests come to an end |
| `Destruction.EndlessRepliesNeverEnd` | src/zproto_client_c.gsl:1355-1356 | A fair schedule in which the actor replies for ever and the wait for the flush never ends |
| `Destruction.FairSchedulesExist` | src/zproto_client_c.gsl:1344-1369 | From every state there is such a schedule |
| `Shutdown.TakenExitSignalHangs` | src/zproto_client_c.gsl:1355-1356 | Four steps lead to a wait that no continuation ends: the actor ends, the caller reads its exit signal as an answer and then destroys the client |
| `Shutdown.WaitHangsExactly` | src/zproto_client_c.gsl:1355-1356 | The wait for the flush can never end if and only if the caller had already received the exit signal as if it were an answer |
| `Shutdown.RunKeeps` | src/zproto_client_c.gsl:1344-1369 | Conservation, the place of the one flush, the meaning of the release and the place of the exit signal are kept by every step of either thread |
| `Shutdown.DestructorMethodIsAnswered` | src/zproto_client_c.gsl:1355-1359 | A caller released by the flush may still call the actor, which takes the request and answers |
| `Shutdown.StoppingActorStillSpeaks` | src/zproto_client_c.gsl:1280-1283 | An actor that is stopping may still reply and send to the server, before its exit signal |
| `Shutdown.ActorPipes.HandleMsgpipe` | src/zproto_client_c.gsl:1166-1223 | The loop over the message pipe forwards every pending message in order, signals the flush, and is a run of the step machine |
| `AcceptReply.Front.AcceptReply` | src/zproto_client_c.gsl:1432-1474 | For every series of replies up to an interruption: -1 with everything consumed and no property changed if none has an accepted name; else 0, and the first accepted one decides pipe, properties and whether the call blocks once more |
| `AcceptReply.TakesOnlyExactly` | src/zproto_client_c.gsl:1447-1461 | The call returns without waiting, the accepted reply alone consumed and loaded and later ones untouched, if and only if that reply is not a declared one without fields; else it blocks while nothing arrives and eats what does |
| `AcceptReply.FieldlessReplySwallowsNext` | src/zproto_client_c.gsl:1454-1458 | A fieldless accepted reply swallows the reply behind it, and blocks the call if there is none |
| `AcceptReply.LoadedMeans` | src/zproto_client_c.gsl:1447-1458 | Loading sets each field from the frame in its place and touches no other property |
| `AcceptReply.FirstDeclarationDecides` | src/zproto_client_c.gsl:1446-1460 | A reply has the fields of the first declaration of its name, and is unknown exactly when there is none |
| `AcceptReply.DestroyedMeans` | src/zproto_client_c.gsl:1446-1460 | Destroying unsets exactly the owned fields of the reply and leaves every other property |
| `AcceptReply.BlockedMeans` | src/zproto_client_c.gsl:1451-1458 | A call that blocks has unset the owned fields of the reply and loaded nothing |
| `AcceptReply.Front.LoadReply` | src/zproto_client_c.gsl:1447-1461 | The chain over declared replies picks the first with the name, destroys its owned fields and stores the frames |
| `CodecLaws.MessageRoundTrip` | src/zproto_codec_c.gsl:1649-1773 | For every schema and conforming message, with any trailing octets and frames: decoding gives the message with unset fields normalised and stops exactly at the end of the encoding |
| `CodecLaws.RoundTripExactly` | src/zproto_codec_c.gsl:1192-1282 | Among all messages an object can hold, exactly those within the length and count limits survive |
| `CodecLaws.PrefixFree` | src/zproto_bnf.gsl:92-155 | No encoding is a proper prefix of another, and equal encodings with equal frames are equal messages |
| `Grammar.EncodingIsDocumented` | src/zproto_bnf.gsl:45-155 | For every schema and conforming message the documented grammar, a relation that says nothing of how octets are computed, derives exactly one first frame, the one the encoder writes |
| `Grammar.FieldIs` | src/zproto_bnf.gsl:92-155 | Field by field, unset ones included, the octets the grammar derives are those written |
| `Grammar.NumberIs` | src/zproto_bnf.gsl:140-155 | The octets the grammar derives for a number of one, two, four or eight octets, in network byte order, are those written |
| `Truncation.StrictPrefixIsMalformed` | src/zproto_example.c:834-961 | Every strict prefix of an encoded first frame takes the malformed exit, with -2 if and only if the cut is inside its uuid or inside its chunk behind the length, and 0 otherwise |
| `CodecLaws.Extends` | src/zproto_example.c:834-961 | Octets behind an accepted frame change nothing that is decoded |
| `CodecLaws.ReceiveNormalises` | src/zproto_example.c:834-956 | For every accepted frame, with embedded NULs, duplicate keys and trailing octets: re-encoding in any hash order is no longer than what was read and decodes to exactly the same message |
| `Truncation.TruncationReturnCode` | src/zproto_example.c:834-961 | Every strict prefix of the octets read from any accepted frame, embedded NULs and duplicate keys included, takes the malformed exit, with -2 if and only if the cut is inside a uuid or inside a chunk behind its length, and 0 otherwise |
| `Truncation.TruncatedBinary` | src/zproto_example.c:898-935 | Any BINARY frame returns -2 when cut inside its uuid and 0 when cut before its chunk |
| `Truncation.TruncationWitness` | src/zproto_example.c:898-935 | One 29-octet BINARY frame: cut after 20 octets -2, cut after 2 octets 0 |
| `CodecLaws.ReceiveForgets` | src/zproto_codec_c.gsl:1649-1773 | What an object holds before a receive never matters: exit, octets and frames read are the same, and so is the message if it is accepted |
| `Refusals.HeaderDecides` | src/zproto_codec_c.gsl:1637-1772 | A frame is accepted only if it starts with 0xAAA0 plus the signature and the id of a message of the class; another signature or id is refused with -2 |
| `Refusals.FixedNumberExactly` | src/zproto_codec_c.gsl:1660-1670 | On arbitrary octets a fixed number is read if and only if they decode to its value; another value is refused with -2 |
| `Refusals.FixedStringExactly` | src/zproto_codec_c.gsl:1676-1686 | On arbitrary octets a fixed string is read if and only if a whole string stands there and is it up to its first NUL; another one is refused with -2 |
| `Refusals.OtherVersionIsRefused` | src/zproto_codec_c.gsl:1660-1686 | Two schemas that differ in one fixed number or string: a receiver of the one refuses with -2 every conforming message of the other, whatever follows it |
| `Refusals.OtherLogVersionIsRefused` | src/zproto_example.c:846-856 | A LOG message of any version but 3 is refused with -2, whatever its other fields hold |
| `Refusals.MissingFrameIsRefused` | src/zproto_codec_c.gsl:1744-1750 | A message with fewer frames behind the first than it has frame fields is refused with -2 |
| `Refusals.NormalMeans` | src/zproto_codec_c.gsl:1649-1768 | What a receiver holds for each kind of unset field; every set one arrives as it was |
| `Refusals.FailureLeaves` | src/zproto_codec_c.gsl:1649-1768 | After a failed receive the fields before the failing one hold what was read, those behind it what they held before |
| `Refusals.FailedListHoldsPrefix` | src/zproto_codec_c.gsl:1692-1705 | A list cut short holds exactly the strings read so far |
| `Refusals.FailedTableHoldsPrefix` | src/zproto_codec_c.gsl:1715-1730 | A hash cut short holds exactly the pairs read so far |
| `Refusals.FailedCollection` | src/zproto_codec_c.gsl:1692-1730 | A failed list or hash replaces the old one if and only if its count was read |
| `Refusals.FailedFieldIsKept` | src/zproto_codec_c.gsl:1649-1768 | A failed read of any other field leaves what was there |
| `Truncation.CutFields` | src/zproto_codec_c.gsl:1649-1773 | A field list cut short anywhere is left at the field the cut is in, with the code that field's reader sets |
| `CodecLaws.ListWorkIsLinear` | src/zproto_example.c:868-880 | Whatever count a frame claims, the list loop turns at most remaining/4 + 1 times |
| `CodecLaws.PairWorkIsLinear` | src/zproto_example.c:881-895 | Whatever count a frame claims, the hash loop turns at most remaining/5 + 1 times |
| `CodecLaws.TurnsAreReads` | src/zproto_example.c:868-895 | Each loop turns once for every string or pair it reads, and once more for a failure |
| `CodecLaws.MultipartIsExact` | src/zproto_example.c:898-935 | A BINARY message is its first frame, the address (empty if unset) and its content (one empty frame if unset), and receiving restores both |
| `Reading.FieldsRead` | src/zproto_codec_c.gsl:1649-1773 | Whatever is read from any frame can be held, is within the limits, is already normal, and needs no more octets than were consumed |
| `RoundTrip.FieldsRoundTrip` | src/zproto_codec_c.gsl:1192-1282 | Reading inverts writing over every field list, consuming exactly the octets and frames written |
| `Codec.Object.constructor` | src/zproto_example.c:270-275 | A new object holds zeroed fields and no retained hash size |
| `Codec.Object.Set` | src/zproto_example.c:1816-1823 | A setter replaces its field and leaves retained hash sizes |
| `Codec.Object.SetText` | src/zproto_example.c:1726-1735 | The setter of a char [256] field keeps at most 255 characters |
| `Codec.Object.Take` | src/zproto_example.c:1805-1811 | The getter hands the field over and leaves the null of its type, kind by kind; the retained hash size stays |
| `Codec.Object.FrameSize` | src/zproto_codec_c.gsl:1127-1190 | The sizing pass counts header and fields exactly, plus what unset hashes retain, and retains the size of every hash that is set |
| `Codec.Object.WriteFields` | src/zproto_codec_c.gsl:1208-1281 | The writing pass stays within the frame and moves the needle past exactly the encoding of the fields |
| `Codec.Object.Encode` | src/zproto_codec_c.gsl:1852-1869 | Over every state setters, getters and sends can reach: the needle stays in the frame and ends at the end of the encoding; what is left is exactly the retained size of unset hashes |
| `Codec.SizeIs` | src/zproto_codec_c.gsl:1127-1190 | Sizing agrees with writing for every field list, up to what unset hashes retain |
| `Exchange.SlackIsRetained` | src/zproto_example.c:1004-1014 | There is no slack if and only if no unset hash retains a size |
| `Codec.Object.CountFrames` | src/zproto_codec_c.gsl:1206-1276 | The frame count is 1, plus one per frame field, plus the frames of the msg field |
| `Codec.Object.Send` | src/zproto_codec_c.gsl:1795-1850 | All frames go out in order, MORE on each but the last, the first being the encoding and its slack |
| `Codec.PartsSplit` | src/zproto_codec_c.gsl:1815-1848 | The order the frames are sent in, frame fields and then the msg field, is the order of the field list |
| `Codec.Object.ReadList` | src/zproto_codec_c.gsl:1692-1705 | The list loop reads what the specification reads, in the counted number of turns |
| `Codec.Object.ReadTable` | src/zproto_codec_c.gsl:1715-1730 | The hash loop reads what the specification reads, the first value of a duplicate key kept |
| `Codec.Object.ReadFields` | src/zproto_codec_c.gsl:1649-1768 | Fields are read in order up to the first that fails; fields of other messages stay as they were |
| `Codec.Object.Recv` | src/zproto_codec_c.gsl:1582-1788 | For every frame sequence: the exit, the return code, the object, the needle and the frames left on the socket are those of the specification |
| `Exchange.SendAndReceive` | src/zproto_codec_c.gsl:1795-1850 | One object sends and another receives, whatever it held before: it ends with the message, and the socket is empty |
| `Lifetime.UseAll` | src/zproto_example.c:1718-1823 | Any sequence of setters, ownership-taking getters, encodes, sends and receives, failed ones included, leaves the object holding what the specification of the calls says |
| `Lifetime.UseThenEncode` | src/zproto_example.c:1004-1014 | After any such sequence the next encode stays in its frame, writes exactly the encoding, and its slack is the summed octets of the tables the unset hashes had when last sized |
| `Lifetime.RetainedIsLastSized` | src/zproto_example.c:1004-1014 | The retained table of a hash is the one it held at the last encode or send that found it set |
| `Lifetime.NeverSizedIsKept` | src/zproto_example.c:1004-1014 | Without such a call it is the one to begin with, empty for a new object |
| `Lifetime.TakenIsNull` | src/zproto_example.c:1805-1811 | After an ownership-taking getter the field is null, kind by kind; id, retained tables and other fields are as they were |
| `Lifetime.TakenHashLeavesSlack` | src/zproto_example.c:1004-1014 | A hash encoded as table t and then taken is null from then on while nothing sets or receives it, and the slack of every later frame of a message with it includes exactly the octets of t on its account |
| `Buffers.Writer.PutNum` | src/zproto_example.c:103-136 | The PUT_NUMBER macros write the value most significant octet first and advance the needle |
| `Buffers.Writer.PutText` | src/zproto_example.c:190-195 | PUT_STRING and PUT_LONGSTR write length and characters at the needle, inside the frame |
| `Buffers.Reader.GetText` | src/zproto_example.c:198-208 | GET_STRING and GET_LONGSTR never read past the ceiling, and fail exactly when they would |
| `Bytes.NumberRoundTrip` | src/zproto_example.c:103-187 | A number read back is the number written, modulo what its octets can hold |
| `Bytes.MostSignificantFirst` | src/zproto_example.c:103-136 | Numbers of one, two and four octets are written as the octets n/256^k, the most significant first |
| `CharArrays.CharArray.SetValue` | src/zproto_example.c:1726-1735 | In place: at most 255 characters are kept and the last is NUL |
| `CharArrays.CharArray.Strncpy` | src/zproto_example.c:451 | In place on an array ending in NUL: at most 255 characters, the rest NUL, so the string stays terminated |
| `CharArrays.CharArray.GetString` | src/zproto_example.c:198-208 | In place: the received characters up to the first NUL, or nothing written on failure |
| `CharArrays.CharArray.WriteAll` | src/zproto_example.c:198-208 | After any sequence of setters and receives, failed ones included, the string is terminated within its array and is the one the calls determine |
| `CharArrays.WrittenMeans` | src/zproto_example.c:1726-1735 | Character by character: a setter keeps the argument, a receive the string in the frame, up to the first NUL and at most 255 characters; a failed receive keeps what was there |
| `CharArrays.AlwaysSendable` | src/zproto_example.c:190-195 | After any such sequence the string is at most 255 long, so its length octet is not truncated and it reads back whole |
| `Zpl.ZplRoundTrip` | src/zproto_example.c:1405-1430 | Writing and reading back a LOG message gives the message if its data is set, and is refused if not |
| `Zpl.AcceptedSurvives` | src/zproto_example.c:326-461 | Whatever tree is accepted, and whatever sscanf makes of characters that are not hex digits, the message read from it survives being written and read again |
| `Zpl.UnsignedRoundTrip` | src/zproto_example.c:371-379 | Every unsigned 64-bit value survives printing as a signed long and strtoll with wrap-around |
| `Zpl.LongRoundTrip` | src/zproto_example.c:371-379 | Every signed 64-bit value survives printing and strtoll, all characters used; beyond that the value is clamped |
| `Zpl.SpacedNumber` | src/zproto_example.c:371-379 | A decimal behind any white space and a plus, a minus or no sign is read as that number with the whole text used, beyond a long as the longest one |
| `Zpl.HexRoundTrip` | src/zproto_example.c:239-275 | Printing octets as hex and parsing them is the identity |
| `Zpl.HexDigitsAre` | src/zproto_example.c:239-259 | The hex digits are 0-9, a-f and A-F, with the same value in either case |
| `Zpl.StrFromBytes` | src/zproto_example.c:263-275 | The printing loop writes two lower-case digits per octet |
| `Zpl.BytesFromStr` | src/zproto_example.c:239-259 | The parsing loop refuses text of odd length, rebuilds an octet from each pair of hex digits, takes what sscanf leaves for other pairs, and ends the process on a number above 0xff |
| `Zpl.NewZpl` | src/zproto_example.c:286-461 | Reading a tree refuses a missing or non-numeric field, odd hex text, a missing host or data; the routing id is judged before the content, so its failed assertion wins over a refusal there |
| `Zpl.AcceptsExactly` | src/zproto_example.c:286-461 | A tree is accepted if and only if it is a LOG message, its routing id is absent or even and scans, and its content has all six numbers as whole numerals, the host and the data |
| `Zpl.WholeNumeralExactly` | src/zproto_example.c:371-379 | A field passes as a number if and only if it is empty, or spaces, at most one sign and then digits to its end |
| `Zpl.NumberIsCut` | src/zproto_example.c:371-379 | A number too large for its field is cut to the field's octets, beyond a long after being clamped |
| `Zpl.WriteZpl` | src/zproto_example.c:1405-1430 | Writing puts every field under its name, data only if set |
| `Zpl.WrittenNames` | src/zproto_example.c:1405-1430 | The names written are those of the fields, data only if set, each with its own value in decimal |
| `Zpl.PrintedForms` | src/zproto_example.c:263-275 | Octets are printed as lower-case hex, high digit first, and decimals without leading zeros |
| `GoStructures.SameOctets` | src/go/zmq4/zproto/example/structures.go:38-83 | Go and C write identical octets for the same contents visited in the same order |
| `GoStructures.GoRecoversC` | src/go/zmq4/zproto/example/structures.go:86-127 | Whatever order C visits its table in, a fresh Go object recovers the contents, trailing octets ignored |
| `GoStructures.CRecoversGo` | src/go/zmq4/zproto/example/structures.go:38-83 | Whatever order Go ranges over its map in, C recovers the contents |
| `GoStructures.VisitRebuilds` | src/go/zmq4/zproto/example/structures.go:76-79 | A visit of a map in any order, assigned to an empty map, rebuilds it |
| `GoAccepted.GoReadsWhatCAccepts` | src/go/zmq4/zproto/example/structures.go:86-127 | For every STRUCTURES frame C accepts, trailing octets and NULs included: Go accepts it, and C's values are Go's with each string cut at its first NUL and the first value of a repeated key kept |
| `GoAccepted.SameContentsExactly` | src/go/zmq4/zproto/example/structures.go:111-124 | On such frames both have the same aliases if and only if those are free of NULs; and, for NUL-free header texts, a fresh Go object the same headers if and only if no key is repeated with a last value unlike its first |
| `GoStructures.Structures.Marshal` | src/go/zmq4/zproto/example/structures.go:38-83 | The serialising loops produce the octets of the message for the order the map is visited in |
| `GoStructures.Structures.Unmarshal` | src/go/zmq4/zproto/example/structures.go:86-127 | Refusals leave the object alone; otherwise aliases are appended to those there and later keys overwrite earlier ones |
| `GoStructures.RefusesExactly` | src/go/zmq4/zproto/example/structures.go:86-107 | Go refuses a message if and only if it has no frames or the first does not start with AA A0 and the id, with the error that says which |
| `GoStructures.ShortReadIsZeros` | src/go/zmq4/zproto/example/example.go:201-223 | A string read from a buffer too short for it has its full length, of zeros, and uses up the buffer |
| `GoStructures.ShortFrames` | src/go/zmq4/zproto/example/structures.go:108-124 | Short frames are not refused: one that ends before its sequence number leaves that alone, one that ends before a count has nothing there, and one that ends with the count of its aliases has that many empty ones |
| `GoStructures.ExhaustedReads` | src/go/zmq4/zproto/example/structures.go:111-124 | Whatever count a frame claims, an exhausted buffer yields that many empty strings or pairs |
| `GoStructures.Buffer.PutText` | src/go/zmq4/zproto/example/example.go:194-215 | putString and putLongString append a length and the characters |
| `GoStructures.Buffer.GetText` | src/go/zmq4/zproto/example/example.go:201-223 | getString and getLongString consume a length and as many octets, zeros standing for missing ones |

## Left out

- Client.Client.Execute: the execution loop takes a bound on its passes, because an engine whose actions always request another event never ends; results hold for every bound, and `EngineSpec.LargerBoundSame` shows that the bound does not matter to an execution that ends.
- EngineRuns.ExpiryMeansIdle: takes runs whose expiry callbacks are clean, because an unclean one really leaves a second expiry timer live (`EngineRuns.OneLiveThroughoutExactly`).
- EngineRuns.HeartbeatEveryInterval: takes runs whose heartbeat callbacks are clean, for the same reason.
- Destruction.DestroyEndsUnderFairSchedules: takes schedules in which the actor's own replies and the caller's requests come to an end, because an actor that replies for ever keeps the wait busy for ever (`Destruction.EndlessRepliesNeverEnd`).
- EngineDocumented.RunIsDocumented: takes runs that handle no event about which the emitted chain is not faithful, because there another block, or two, really run (`Superstates.BlocksAreDocumented`).
- EngineHistory.BracketsOverRuns: takes models in which no state puts a wildcard before a named event, because such a state runs two blocks in one pass; `EngineDocumented.FlattenedIsTidyExactly` says which models as written flatten to such ones.
- Superstates.Generator.ProcessSuperstates: takes models whose state names are distinct, since code generated for a repeated name does not compile; an undefined superstate copies nothing, and the error printed is not modelled.
- Zpl.BytesFromStr: what sscanf leaves for a pair of characters that are not two hex digits, an unset variable included, is an arbitrary parameter, because C leaves part of it open.
- GoStructures.Structures.Unmarshal: an empty but non-nil list of frames, which panics, is treated as nil.
- Codec.Object.Send: what the allocated frame holds behind the needle, when an unset hash retains a size, is unspecified.
- Czmq and ZeroMQ themselves: FIFO pipes and sockets that always accept, one-shot timers whose end takes effect at once, `zlist` as a sequence, `zhash` as insert-first pairs in some visiting order, `zmsg` as frames, `zconfig` as a map, `zactor` signalling once when its thread ends and closing its end of the pipe in the same step. Were these two steps, a caller released by the exit signal could still get its `$TERM` out in between and wait for a second signal that never comes; what is said about destructions ending rests on their being one.
- Interruption (return code -1) except where `AcceptReply` ends a wait; ROUTER routing frames on sending and receiving.
- Fields kept as plain `zmq_msg_t` (`use_zmq_msg`); the pubsub, virtual and version 1 codecs; `dup`, which does not copy octets fields.
- The textual form of messages other than LOG; in BINARY the reader assigns a pointer to an array.
- More than one msg field name in a class, which the generator does not support.
- Whether the application's destructor method gets its reply between the flush and the end of the actor; it may take replies or not.
- State, event and message names are taken as already in their C spelling.
- Pointer wrap-around in `needle + size`: offsets are natural numbers.
- The `$CONNECTED` and `SET VERBOSE` commands, application socket handlers beyond making engine calls and executing events, printing, tracing, memory release and plain getters.
- The server engine, the other language bindings, and the BNF and dot emitters.
