/**
 A destruction that is not stuck ends: under every finite schedule that takes enough helpful steps, and
 under every fair infinite one, whatever either thread does in between.
 */
module Destruction {
  import opened Options
  import opened Shutdown

  /** A destruction under way, at a state a run can reach, and not stuck. */
  predicate Sound(s: System) {
    Inv(s) && Destroying(s) && !Stuck(s)
  }

  lemma NextKeeps(s: System, step: Step)
    requires Inv(s)
    ensures Inv(Next(s, step))
  {
    hide Inv, Next;
    RunKeeps(s, [step]);
    RunOne(s, step);
  }

  /** A step leads on to a sound destruction or to its end, and adds no work but its noise. */
  lemma SoundNext(s: System, step: Step)
    requires Sound(s)
    ensures var t := Next(s, step);
            (t.caller.Gone? || Sound(t)) && Work(t) <= Work(s) + Noise(step)
  {
    hide Inv, Next, Work, Destroying, Stuck;
    NextKeeps(s, step);
    StepGoesOn(s, step);
  }

  /** The helpful step of a sound destruction can be taken, is not noise, and does some of the work. */
  lemma HelpfulWorks(s: System)
    requires Sound(s)
    ensures Enabled(s, Helpful(s)) && Noise(Helpful(s)) == 0
    ensures Work(Next(s, Helpful(s))) < Work(s)
  {
    hide Inv, Next, Work, Enabled;
    HelpfulHelps(s);
  }

  // ---------------------------------------------------------------- who ends first

  predicate OneFlush(replies: seq<Reply>) {
    forall i, j :: 0 <= i < j < |replies| ==> !(replies[i] == FlushSignal && replies[j] == FlushSignal)
  }

  predicate Past(s: System) {
    s.caller.Released? || s.caller.Ending? || s.caller.Gone?
  }

  /** No flush signal is left over from the wait for it that could be taken for the actor's end. */
  predicate Settled(s: System) {
    && Inv(s) && OneFlush(s.replies)
    && (Past(s) ==> FlushSignal !in s.replies && (s.release != Some(ByExit) ==> Flush !in s.msgpipe))
    && (s.caller.Gone? ==> s.actor.Exited?)
  }

  lemma NextSettles(s: System, step: Step)
    requires Settled(s)
    ensures Settled(Next(s, step))
  {
    hide Conserved, Forwarded, Pending, Inv;
    NextKeeps(s, step);
    NextOneFlush(s, step);
    if Past(Next(s, step)) { NextPast(s, step); }
    if Next(s, step).caller.Gone? { NextGone(s, step); }
  }

  lemma NextOneFlush(s: System, step: Step)
    requires Settled(s)
    ensures OneFlush(Next(s, step).replies)
  {
    hide Conserved, Forwarded, Pending;
  }

  lemma NextPast(s: System, step: Step)
    requires Settled(s) && Past(Next(s, step))
    ensures var t := Next(s, step);
            FlushSignal !in t.replies && (t.release != Some(ByExit) ==> Flush !in t.msgpipe)
  {
    hide Conserved, Forwarded, Pending;
  }

  lemma NextGone(s: System, step: Step)
    requires Settled(s) && Next(s, step).caller.Gone?
    ensures Next(s, step).actor.Exited?
  {
    hide Conserved, Forwarded, Pending;
  }

  lemma {:induction false} RunSettles(s: System, steps: seq<Step>)
    requires Settled(s)
    ensures Settled(Run(s, steps))
    decreases |steps|
  {
    hide Settled, Next;
    if steps != [] {
      NextSettles(s, steps[0]);
      RunSettles(Next(s, steps[0]), steps[1..]);
    }
  }

  /** In every interleaving the destroying caller is gone only after the actor has ended. */
  lemma ActorEndsFirst(steps: seq<Step>)
    ensures var s := Run(START, steps);
            s.caller.Gone? ==> s.actor.Exited?
  {
    hide Inv, Run;
    StartsWell();
    RunSettles(START, steps);
  }

  /** Only $TERM, sent by a caller whose wait for the flush is over, tells the actor to stop. */
  predicate Told(s: System) {
    && (Term in s.commands ==> s.caller.Ending? || s.caller.Gone?)
    && (s.actor.Live? || s.caller.Ending? || s.caller.Gone?)
  }

  lemma NextTold(s: System, step: Step)
    requires Told(s) && step != Halt
    ensures Told(Next(s, step))
  {
  }

  lemma {:induction false} RunTold(s: System, steps: seq<Step>)
    requires Told(s) && Halt !in steps
    ensures Told(Run(s, steps))
    decreases |steps|
  {
    hide Told, Next;
    if steps != [] {
      NextTold(s, steps[0]);
      RunTold(Next(s, steps[0]), steps[1..]);
    }
  }

  /** An actor that does not halt by itself stays alive until then, and every wait for a flush ends by the flush. */
  lemma ActorLivesUntilTold(steps: seq<Step>)
    requires Halt !in steps
    ensures var s := Run(START, steps);
            && (s.actor.Live? || s.caller.Ending? || s.caller.Gone?)
            && (s.release.Some? && s.actor.Live? ==> s.release == Some(ByFlush) && Forwarded(s.dealer) == s.sent)
  {
    hide Run, Told, Conserved, FlushPlaced, ExitPlaced, Forwarded, Pending;
    assert Told(START) by { StartIsTold(); }
    RunTold(START, steps);
    ToldMeans(Run(START, steps));
    StartsWell();
    RunKeeps(START, steps);
    ShutdownLosesNothing(steps);
  }

  lemma StartIsTold()
    ensures Told(START)
  {
  }

  lemma ToldMeans(s: System)
    requires Told(s)
    ensures s.actor.Live? || s.caller.Ending? || s.caller.Gone?
  {
  }

  // ---------------------------------------------------------------- finite schedules

  function Noises(steps: seq<Step>): nat {
    if steps == [] then 0 else Noise(steps[0]) + Noises(steps[1..])
  }

  /** The steps of a schedule that are helpful when their turn comes, or come after the end. */
  function Chances(s: System, steps: seq<Step>): nat
    decreases |steps|
  {
    if steps == [] then 0
    else (if s.caller.Gone? || steps[0] == Helpful(s) then 1 else 0) + Chances(Next(s, steps[0]), steps[1..])
  }

  lemma {:induction false} GoneStays(s: System, steps: seq<Step>)
    requires s.caller.Gone?
    ensures Run(s, steps).caller.Gone?
    decreases |steps|
  {
    hide Next;
    if steps != [] {
      GoneNext(s, steps[0]);
      GoneStays(Next(s, steps[0]), steps[1..]);
    }
  }

  lemma GoneNext(s: System, step: Step)
    requires s.caller.Gone?
    ensures Next(s, step).caller.Gone?
  {
  }

  /** As many helpful steps as there is work and noise end it. */
  lemma {:induction false} EnoughChancesEnd(s: System, steps: seq<Step>)
    requires Sound(s) && Chances(s, steps) >= Work(s) + Noises(steps)
    ensures Run(s, steps).caller.Gone?
    decreases |steps|
  {
    hide Sound, Next, Helpful, Work;
    HelpfulWorks(s);
    if steps != [] {
      var t := Next(s, steps[0]);
      SoundNext(s, steps[0]);
      if t.caller.Gone? {
        GoneStays(t, steps[1..]);
      } else {
        SoundIsNotGone(s);
        EnoughChancesEnd(t, steps[1..]);
      }
    }
  }

  lemma SoundIsNotGone(s: System)
    requires Sound(s)
    ensures !s.caller.Gone?
  {
  }

  /** The state after n helpful steps, and the schedule that takes them. */
  function Helped(s: System, n: nat): System {
    if n == 0 then s else
      var t := Helped(s, n - 1);
      Next(t, Helpful(t))
  }

  function HelpfulSteps(s: System, n: nat): (steps: seq<Step>)
    ensures |steps| == n
    decreases n
  {
    if n == 0 then [] else [Helpful(s)] + HelpfulSteps(Next(s, Helpful(s)), n - 1)
  }

  /** Schedules with any number of chances and no noise exist. */
  lemma {:induction false} HelpfulStepsAreChances(s: System, n: nat)
    ensures Chances(s, HelpfulSteps(s, n)) == n && Noises(HelpfulSteps(s, n)) == 0
    decreases n
  {
    hide Next, Helpful;
    if n > 0 {
      var steps := HelpfulSteps(s, n);
      assert steps[0] == Helpful(s) && steps[1..] == HelpfulSteps(Next(s, Helpful(s)), n - 1);
      HelpfulIsQuiet(s);
      HelpfulStepsAreChances(Next(s, Helpful(s)), n - 1);
    }
  }

  lemma HelpfulIsQuiet(s: System)
    ensures Noise(Helpful(s)) == 0
  {
  }

  /**
   At any moment of a run, for a destruction that is not stuck: a schedule ends it if the helpful step is
   taken, in its turn, as often as there is work and noise; and taking nothing else is such a schedule.
   */
  lemma EnoughHelpEndsDestruction(before: seq<Step>, steps: seq<Step>)
    ensures var s := Run(START, before);
            Destroying(s) && !Stuck(s) ==>
            && (Chances(s, steps) >= Work(s) + Noises(steps) ==> Run(s, steps).caller.Gone?)
            && Run(s, HelpfulSteps(s, Work(s))).caller.Gone?
  {
    hide Inv, Next, Helpful, Work, Stuck, Destroying, Chances, Noises;
    var s := Run(START, before);
    StartsWell();
    RunKeeps(START, before);
    if Destroying(s) && !Stuck(s) {
      if Chances(s, steps) >= Work(s) + Noises(steps) {
        EnoughChancesEnd(s, steps);
      }
      HelpfulStepsAreChances(s, Work(s));
      EnoughChancesEnd(s, HelpfulSteps(s, Work(s)));
    }
  }

  // ---------------------------------------------------------------- infinite schedules

  type Schedule = nat -> Step

  function At(s: System, schedule: Schedule, n: nat): System {
    if n == 0 then s else Next(At(s, schedule, n - 1), schedule(n - 1))
  }

  /** From some point on the actor sends no more replies of its own, and the caller no more requests. */
  ghost predicate QuietFrom(schedule: Schedule, from: nat) {
    forall n :: n >= from ==> Noise(schedule(n)) == 0
  }

  predicate TakenAt(s: System, schedule: Schedule, n: nat, m: nat) {
    n <= m && (At(s, schedule, m).caller.Gone? || schedule(m) == Helpful(At(s, schedule, n)))
  }

  /** The step that helps at time n is taken then or later, even if by then another would help. */
  ghost predicate Taken(s: System, schedule: Schedule, n: nat) {
    exists m: nat :: TakenAt(s, schedule, n, m)
  }

  ghost predicate Fair(s: System, schedule: Schedule) {
    forall n: nat :: Taken(s, schedule, n)
  }

  /** A step that is not noise does some of the work, or leaves the helpful step as it was. */
  lemma QuietStep(s: System, step: Step)
    requires Sound(s) && Noise(step) == 0
    ensures var t := Next(s, step);
            t.caller.Gone? || Work(t) < Work(s) || Helpful(t) == Helpful(s)
  {
    hide Conserved, Forwarded, Pending;
  }

  lemma {:induction false} SoundAt(s: System, schedule: Schedule, n: nat)
    requires Sound(s)
    ensures At(s, schedule, n).caller.Gone? || Sound(At(s, schedule, n))
  {
    hide Sound, Next;
    if n > 0 {
      var t := At(s, schedule, n - 1);
      SoundAt(s, schedule, n - 1);
      if t.caller.Gone? {
        GoneNext(t, schedule(n - 1));
      } else {
        SoundNext(t, schedule(n - 1));
      }
    }
  }

  /** From one time to a later one: it ends, some of the work is done, or the same step still helps. */
  lemma {:induction false} MeanwhileAt(s: System, schedule: Schedule, n: nat, m: nat)
    requires Sound(s) && QuietFrom(schedule, n) && n <= m
    ensures var a, b := At(s, schedule, n), At(s, schedule, m);
            b.caller.Gone? || Work(b) < Work(a) || (Work(b) <= Work(a) && Helpful(b) == Helpful(a))
    decreases m - n
  {
    hide Sound, Next, Work, Helpful, Noise;
    if n < m {
      var b := At(s, schedule, m - 1);
      MeanwhileAt(s, schedule, n, m - 1);
      SoundAt(s, schedule, m - 1);
      assert Noise(schedule(m - 1)) == 0;
      if b.caller.Gone? {
        GoneNext(b, schedule(m - 1));
      } else {
        SoundNext(b, schedule(m - 1));
        QuietStep(b, schedule(m - 1));
      }
    }
  }

  /** The step that helps at time n is taken at time m: by then, or with it, some of the work is done. */
  lemma TakenStepWorks(s: System, schedule: Schedule, n: nat, m: nat)
    requires Sound(s) && QuietFrom(schedule, n) && TakenAt(s, schedule, n, m)
    ensures At(s, schedule, m + 1).caller.Gone? || Work(At(s, schedule, m + 1)) < Work(At(s, schedule, n))
  {
    hide Sound, Next, Work, Helpful, Noise;
    var b := At(s, schedule, m);
    MeanwhileAt(s, schedule, n, m);
    SoundAt(s, schedule, m);
    if b.caller.Gone? {
      GoneNext(b, schedule(m));
    } else {
      assert Noise(schedule(m)) == 0;
      SoundNext(b, schedule(m));
      HelpfulWorks(b);
    }
  }

  lemma {:induction false} FairEnds(s: System, schedule: Schedule, n: nat)
    requires Sound(s) && QuietFrom(schedule, n) && Fair(s, schedule)
    ensures exists m: nat :: At(s, schedule, m).caller.Gone?
    decreases Work(At(s, schedule, n))
  {
    hide Sound, Next, Work, Helpful, Noise, TakenAt, At;
    assert Taken(s, schedule, n);
    var m: nat :| TakenAt(s, schedule, n, m);
    TakenStepWorks(s, schedule, n, m);
    TakenLater(s, schedule, n, m);
    if !At(s, schedule, m + 1).caller.Gone? {
      FairEnds(s, schedule, m + 1);
    }
  }

  lemma TakenLater(s: System, schedule: Schedule, n: nat, m: nat)
    requires TakenAt(s, schedule, n, m)
    ensures n <= m
  {
  }

  /**
   At any moment of a run, a destruction that is not stuck ends under every schedule that is fair to the
   helpful step and has, sooner or later, no more noise.
   */
  lemma DestroyEndsUnderFairSchedules(before: seq<Step>, schedule: Schedule, from: nat)
    requires QuietFrom(schedule, from)
    ensures var s := Run(START, before);
            Destroying(s) && !Stuck(s) && Fair(s, schedule) ==> exists n: nat :: At(s, schedule, n).caller.Gone?
  {
    hide Inv, Next, Helpful, Work, Stuck, Destroying, Fair, QuietFrom;
    var s := Run(START, before);
    StartsWell();
    RunKeeps(START, before);
    if Destroying(s) && !Stuck(s) && Fair(s, schedule) {
      FairEnds(s, schedule, from);
    }
  }

  /** The schedule that always takes the helpful step. */
  function HelpfulSchedule(s: System): Schedule {
    (n: nat) => Helpful(Helped(s, n))
  }

  /** Such schedules exist: this is one, from every state. */
  lemma FairSchedulesExist(s: System)
    ensures QuietFrom(HelpfulSchedule(s), 0) && Fair(s, HelpfulSchedule(s))
  {
    hide Next, Helpful, Noise;
    forall n: nat ensures Noise(HelpfulSchedule(s)(n)) == 0 {
      HelpfulIsQuiet(Helped(s, n));
    }
    forall n: nat ensures Taken(s, HelpfulSchedule(s), n) {
      HelpedAt(s, n);
      assert TakenAt(s, HelpfulSchedule(s), n, n);
    }
  }

  lemma {:induction false} HelpedAt(s: System, n: nat)
    ensures At(s, HelpfulSchedule(s), n) == Helped(s, n)
  {
    hide Next, Helpful;
    if n > 0 {
      HelpedAt(s, n - 1);
    }
  }

  // ---------------------------------------------------------------- without quiet, no end

  /** The caller waits for its flush, with one answer of the actor's before it. */
  function Chatting(): System {
    START.(caller := Waiting, msgpipe := [Flush], replies := [Answer("x")])
  }

  /** The actor adds an answer whenever the caller has thrown one away. */
  function Chatter(): Schedule {
    (n: nat) => if n % 2 == 0 then Reply("x") else Wait
  }

  lemma ChattingIsReached()
    ensures Run(START, [Reply("x"), SendFlush]) == Chatting()
  {
    var s1 := Next(START, Reply("x"));
    assert Next(s1, SendFlush) == Chatting();
    RunOne(s1, SendFlush);
    RunFirst(START, Reply("x"), [SendFlush]);
    assert [Reply("x"), SendFlush] == [Reply("x")] + [SendFlush];
  }

  function Overheard(): System {
    Chatting().(replies := [Answer("x"), Answer("x")])
  }

  lemma ChatterSteps()
    ensures Next(Chatting(), Reply("x")) == Overheard() && Next(Overheard(), Wait) == Chatting()
  {
    assert [Answer("x")] + [Answer("x")] == [Answer("x"), Answer("x")];
    assert [Answer("x"), Answer("x")][1..] == [Answer("x")];
  }

  lemma {:induction false} ChatterAt(n: nat)
    ensures At(Chatting(), Chatter(), n) == if n % 2 == 0 then Chatting() else Overheard()
  {
    hide Next, Chatting, Overheard;
    if n > 0 {
      ChatterAt(n - 1);
      ChatterSteps();
    }
  }

  /** An actor that replies for ever keeps the wait busy for ever, however fair the schedule. */
  lemma EndlessRepliesNeverEnd(n: nat)
    ensures var s := Run(START, [Reply("x"), SendFlush]);
            Sound(s) && Fair(s, Chatter()) && At(s, Chatter(), n).caller.Waiting?
  {
    hide Inv, Fair, At, Chatter;
    ChattingIsReached();
    StartsWell();
    RunKeeps(START, [Reply("x"), SendFlush]);
    ChatterAt(n);
    ChatterIsFair();
  }

  lemma ChatterIsFair()
    ensures Fair(Chatting(), Chatter())
  {
    hide At, Next;
    forall n: nat ensures Taken(Chatting(), Chatter(), n) {
      ChatterAt(n);
      assert TakenAt(Chatting(), Chatter(), n, if n % 2 == 0 then n + 1 else n);
    }
  }
}
