/**
 When the two background tasks of src/mining.rs trigger: the automine task exactly for an event that finds
 automine on and the pool non-empty, the interval task exactly once per completed interval. Steps of a run are
 counted by what they find, so the results hold for every interleaving with RPC calls, streams and the pool.
 */
module MiningTasks {
  import opened Words
  import opened MiningSystem
  import opened MiningTheorems

  /** How many of the first k steps are of a kind, in the states they are taken from. */
  ghost function Count(states: seq<Sys>, steps: seq<Step>, kind: (Sys, Step) -> bool, k: nat): nat
    requires k <= |steps| && k <= |states|
  {
    if k == 0 then 0
    else Count(states, steps, kind, k - 1) + Num(kind(states[k - 1], steps[k - 1]))
  }

  function Num(b: bool): nat { if b then 1 else 0 }

  lemma {:induction false} CountNone(states: seq<Sys>, steps: seq<Step>, kind: (Sys, Step) -> bool, k: nat)
    requires k <= |steps| && k <= |states|
    requires forall j :: 0 <= j < k ==> !kind(states[j], steps[j])
    ensures Count(states, steps, kind, k) == 0
  {
    if k > 0 { CountNone(states, steps, kind, k - 1); }
  }

  // ----- the automine task

  /** The task takes an event off the listener's queue. */
  predicate Receives(s: Sys, step: Step) { step.AutoStep? && s.auto.Receiving? }

  /** It holds an event and looks at the mode. */
  predicate FindsAutomine(s: Sys, step: Step) { step.AutoStep? && s.auto.Received? && s.mode.Automine? }
  predicate FindsOtherMode(s: Sys, step: Step) { step.AutoStep? && s.auto.Received? && !s.mode.Automine? }

  /** It has seen automine and looks at the pool. */
  predicate FindsPending(s: Sys, step: Step) { step.AutoStep? && s.auto.SawAutomine? && s.pool != map[] }
  predicate FindsNothing(s: Sys, step: Step) { step.AutoStep? && s.auto.SawAutomine? && s.pool == map[] }

  /** It triggers: the one place the task writes the counter. */
  predicate AutoTriggers(s: Sys, step: Step) { step.AutoStep? && s.auto.AutoAdd? }

  predicate Announces(s: Sys, step: Step) { step.Announce? }

  lemma CallsLeaveAuto(s: Sys, id: nat)
    requires Linked(s) && Enabled(s, RpcStep(id))
    ensures ApplyRpc(s, id).auto == s.auto && ApplyRpc(s, id).events == s.events
  {}

  lemma OthersLeaveAuto(s: Sys, step: Step)
    requires Linked(s) && Enabled(s, step) && !step.AutoStep?
    ensures Apply(s, step).auto == s.auto && |Apply(s, step).events| == |s.events| + Num(Announces(s, step))
  {
    if step.RpcStep? { CallsLeaveAuto(s, step.id); }
  }

  /** What each step of the run enters in the books below. */
  ghost predicate Booked(p: Sys, step: Step, q: Sys) {
    && Num(AutoTriggers(p, step)) + Num(q.auto.AutoAdd?) == Num(p.auto.AutoAdd?) + Num(FindsPending(p, step))
    && Num(FindsPending(p, step)) + Num(FindsNothing(p, step)) + Num(q.auto.SawAutomine?) ==
       Num(p.auto.SawAutomine?) + Num(FindsAutomine(p, step))
    && Num(FindsAutomine(p, step)) + Num(FindsOtherMode(p, step)) + Num(q.auto.Received?) ==
       Num(p.auto.Received?) + Num(Receives(p, step))
    && Num(Receives(p, step)) + |q.events| == |p.events| + Num(Announces(p, step))
  }

  lemma OwnStepIsBooked(s: Sys)
    requires Linked(s) && Enabled(s, AutoStep)
    ensures Booked(s, AutoStep, ApplyAuto(s))
  {}

  lemma StepIsBooked(p: Sys, step: Step, q: Sys)
    requires Moves(p, step, q)
    ensures Booked(p, step, q)
  {
    if step.AutoStep? { OwnStepIsBooked(p); } else { OthersLeaveAuto(p, step); }
  }

  /** The books of the automine task over any run: every announced event is received or still queued; every
      received one found automine or was dropped; every one that found automine found the pool non-empty or
      was dropped; and those that found both are exactly the ones that trigger (one may be on its way). */
  lemma {:induction false} AutomineTaskBooks(a: Sys, states: seq<Sys>, steps: seq<Step>, b: Sys, k: nat)
    requires Run(a, states, steps, b) && k <= |steps|
    ensures Count(states, steps, AutoTriggers, k) + Num(states[k].auto.AutoAdd?) ==
            Num(a.auto.AutoAdd?) + Count(states, steps, FindsPending, k)
    ensures Count(states, steps, FindsPending, k) + Count(states, steps, FindsNothing, k)
              + Num(states[k].auto.SawAutomine?) ==
            Num(a.auto.SawAutomine?) + Count(states, steps, FindsAutomine, k)
    ensures Count(states, steps, FindsAutomine, k) + Count(states, steps, FindsOtherMode, k)
              + Num(states[k].auto.Received?) ==
            Num(a.auto.Received?) + Count(states, steps, Receives, k)
    ensures Count(states, steps, Receives, k) + |states[k].events| ==
            |a.events| + Count(states, steps, Announces, k)
  {
    if k > 0 {
      AutomineTaskBooks(a, states, steps, b, k - 1);
      assert MovesAt(states, steps, k - 1);
      StepIsBooked(states[k - 1], steps[k - 1], states[k]);
    }
  }

  /** While automine is off the task issues no trigger, but for one whose mode check it had already passed. */
  lemma NoAutomineNoTrigger(a: Sys, states: seq<Sys>, steps: seq<Step>, b: Sys)
    requires Run(a, states, steps, b)
    requires forall k :: 0 <= k < |steps| ==> !states[k].mode.Automine?
    ensures Count(states, steps, AutoTriggers, |steps|) <= Num(a.auto.SawAutomine? || a.auto.AutoAdd?)
  {
    AutomineTaskBooks(a, states, steps, b, |steps|);
    CountNone(states, steps, FindsAutomine, |steps|);
  }

  /** While nothing is pending it issues none, but for one whose pool check it had already passed. */
  lemma EmptyPoolNoTrigger(a: Sys, states: seq<Sys>, steps: seq<Step>, b: Sys)
    requires Run(a, states, steps, b)
    requires forall k :: 0 <= k < |steps| ==> states[k].pool == map[]
    ensures Count(states, steps, AutoTriggers, |steps|) <= Num(a.auto.AutoAdd?)
  {
    AutomineTaskBooks(a, states, steps, b, |steps|);
    CountNone(states, steps, FindsPending, |steps|);
  }

  /** From boot it issues at most one trigger for each announced transaction. */
  lemma OneTriggerPerEvent(boot: Sys, states: seq<Sys>, steps: seq<Step>, b: Sys)
    requires Fresh(boot, |boot.mem.streams|) && Run(boot, states, steps, b)
    ensures Count(states, steps, AutoTriggers, |steps|) <= Count(states, steps, Announces, |steps|)
  {
    AutomineTaskBooks(boot, states, steps, b, |steps|);
  }

  /** With automine on throughout and the pool never empty, every announced event gets its trigger: none is
      missing once the queue is empty and the task waits. */
  lemma EveryEventTriggers(boot: Sys, states: seq<Sys>, steps: seq<Step>, b: Sys)
    requires Fresh(boot, |boot.mem.streams|) && Run(boot, states, steps, b)
    requires forall k :: 0 <= k < |steps| ==>
               !FindsOtherMode(states[k], steps[k]) && !FindsNothing(states[k], steps[k])
    requires b.events == [] && b.auto.Receiving?
    ensures Count(states, steps, AutoTriggers, |steps|) == Count(states, steps, Announces, |steps|)
  {
    AutomineTaskBooks(boot, states, steps, b, |steps|);
    CountNone(states, steps, FindsOtherMode, |steps|);
    CountNone(states, steps, FindsNothing, |steps|);
  }

  // ----- the interval task: which sleeps trigger

  /** A completed sleep finds interval mode. */
  predicate FindsInterval(s: Sys, step: Step) { step.TickStep? && s.tick.Woken? && s.mode.Interval? }

  lemma TickStepBooks(p: Sys, step: Step, q: Sys)
    requires Moves(p, step, q)
    ensures q.ticks + Owed(q) == p.ticks + Owed(p) + Num(FindsInterval(p, step))
  {
    if !step.TickStep? && !step.TickChanged? && !step.Elapse? { OthersLeaveTick(p, step); }
  }

  /** Interval triggers, over any run: one for each completed sleep that finds interval mode, and no other. */
  lemma {:induction false} IntervalTriggersExactly(a: Sys, states: seq<Sys>, steps: seq<Step>, b: Sys, k: nat)
    requires Run(a, states, steps, b) && k <= |steps|
    ensures states[k].ticks + Owed(states[k]) == a.ticks + Owed(a) + Count(states, steps, FindsInterval, k)
  {
    if k > 0 {
      IntervalTriggersExactly(a, states, steps, b, k - 1);
      assert MovesAt(states, steps, k - 1);
      TickStepBooks(states[k - 1], steps[k - 1], states[k]);
    }
  }

  // ----- the interval task: when

  function Elapsed(steps: seq<Step>, k: nat): nat
    requires k <= |steps|
  {
    if k == 0 then 0 else Elapsed(steps, k - 1) + (if steps[k - 1].Elapse? then steps[k - 1].secs else 0)
  }

  /** The clock of the system moves by what elapses, and only then. */
  lemma {:induction false} TimeIsElapsed(a: Sys, states: seq<Sys>, steps: seq<Step>, b: Sys, k: nat)
    requires Run(a, states, steps, b) && k <= |steps|
    ensures states[k].now == a.now + Elapsed(steps, k)
  {
    if k > 0 {
      TimeIsElapsed(a, states, steps, b, k - 1);
      assert MovesAt(states, steps, k - 1);
      StepTakesTime(states[k - 1], steps[k - 1]);
    }
  }

  lemma StepTakesTime(s: Sys, step: Step)
    requires Linked(s) && Enabled(s, step)
    ensures Apply(s, step).now == s.now + (if step.Elapse? then step.secs else 0)
  {
    if step.RpcStep? { CallsTakeNoTime(s, step.id); }
  }

  lemma CallsTakeNoTime(s: Sys, id: nat)
    requires Linked(s) && Enabled(s, RpcStep(id))
    ensures ApplyRpc(s, id).now == s.now
  {}

  /** Time passes only while the interval task has nothing to do, and not beyond its deadline. */
  predicate Prompt(s: Sys, step: Step) {
    step.Elapse? && step.secs > 0 ==>
      && !Enabled(s, TickStep) && !Enabled(s, TickChanged)
      && (s.tick.Sleeping? ==> s.now + step.secs <= s.tick.deadline)
  }

  /** No step of the run replaces the mode, and the task is prompt throughout. */
  ghost predicate Undisturbed(states: seq<Sys>, steps: seq<Step>)
    requires |states| == |steps| + 1
  {
    forall k :: 0 <= k < |steps| ==> UndisturbedAt(states, steps, k)
  }

  ghost predicate UndisturbedAt(states: seq<Sys>, steps: seq<Step>, k: nat)
    requires k < |steps| && k + 1 < |states|
  {
    states[k + 1].version == states[k].version && Prompt(states[k], steps[k])
  }

  /** A trigger of the task is due but not issued. */
  predicate Due(s: Sys) {
    s.tick.Woken? || s.tick.TickAdd? || (s.tick.Sleeping? && s.tick.deadline <= s.now)
  }

  /** The task's position since an interval of d seconds was set at t0, when c0 triggers had been issued: it
      has still to notice the change, or is on a schedule of one trigger every d seconds from t0. */
  ghost predicate OnSchedule(s: Sys, d: nat, t0: nat, c0: nat) {
    && s.mode == Interval(d) && s.seen <= s.version && c0 <= s.ticks
    && if s.seen < s.version then
         && s.now == t0 && s.ticks == c0
         && !Due(s) && s.tick != Got(Interval(0))
       else
         match s.tick
         case Top => s.now == t0 + SleepTime(s.ticks - c0, d)
         case Got(mode) => mode == Interval(d) && s.now == t0 + SleepTime(s.ticks - c0, d)
         case Sleeping(deadline) =>
           deadline == t0 + SleepTime(s.ticks - c0, d) + d && deadline - d <= s.now <= deadline
         case Woken => s.now == t0 + SleepTime(s.ticks - c0, d) + d
         case TickAdd => s.now == t0 + SleepTime(s.ticks - c0, d) + d
         case TickNotify => s.now == t0 + SleepTime(s.ticks - c0, d)
         case AwaitingChange => false
  }

  lemma TickKeepsSchedule(s: Sys, d: nat, t0: nat, c0: nat)
    requires Linked(s) && Enabled(s, TickStep) && OnSchedule(s, d, t0, c0)
    ensures OnSchedule(ApplyTick(s), d, t0, c0)
  {}

  lemma StepKeepsSchedule(p: Sys, step: Step, q: Sys, d: nat, t0: nat, c0: nat)
    requires Moves(p, step, q) && OnSchedule(p, d, t0, c0)
    requires q.version == p.version && Prompt(p, step)
    ensures OnSchedule(q, d, t0, c0)
  {
    match step
    case TickStep => TickKeepsSchedule(p, d, t0, c0);
    case TickChanged =>
    case Elapse(secs) =>
    case _ =>
      OthersLeaveTick(p, step);
      SameVersionSameMode(p, step);
  }

  lemma SameVersionSameMode(s: Sys, step: Step)
    requires Linked(s) && Enabled(s, step) && !step.TickStep? && !step.TickChanged?
    requires Apply(s, step).version == s.version
    ensures Apply(s, step).mode == s.mode && Apply(s, step).seen == s.seen
  {}

  ghost predicate KeepsAt(states: seq<Sys>, inv: Sys -> bool, k: nat)
    requires k + 1 < |states|
  {
    inv(states[k]) ==> inv(states[k + 1])
  }

  /** What every step keeps holds to the end. */
  lemma {:induction false} KeptThroughout(states: seq<Sys>, inv: Sys -> bool, k: nat)
    requires k < |states| && inv(states[0])
    requires forall j :: 0 <= j < k ==> KeepsAt(states, inv, j)
    ensures inv(states[k])
  {
    if k > 0 {
      KeptThroughout(states, inv, k - 1);
      assert KeepsAt(states, inv, k - 1);
    }
  }

  lemma RunKeepsSchedule(a: Sys, states: seq<Sys>, steps: seq<Step>, b: Sys, d: nat, t0: nat, c0: nat)
    requires Run(a, states, steps, b) && OnSchedule(a, d, t0, c0) && Undisturbed(states, steps)
    ensures OnSchedule(b, d, t0, c0)
  {
    ghost var inv: Sys -> bool := (s: Sys) => OnSchedule(s, d, t0, c0);
    forall k | 0 <= k < |steps| ensures KeepsAt(states, inv, k) {
      StepOfRun(a, states, steps, b, k);
      if inv(states[k]) { StepAtKeepsSchedule(states, steps, k, d, t0, c0); }
    }
    KeptThroughout(states, inv, |steps|);
  }

  lemma StepOfRun(a: Sys, states: seq<Sys>, steps: seq<Step>, b: Sys, k: nat)
    requires Run(a, states, steps, b) && Undisturbed(states, steps) && k < |steps|
    ensures MovesAt(states, steps, k) && UndisturbedAt(states, steps, k)
  {}

  lemma StepAtKeepsSchedule(states: seq<Sys>, steps: seq<Step>, k: nat, d: nat, t0: nat, c0: nat)
    requires k < |steps| && k + 1 < |states| && MovesAt(states, steps, k) && UndisturbedAt(states, steps, k)
    requires OnSchedule(states[k], d, t0, c0)
    ensures OnSchedule(states[k + 1], d, t0, c0)
  {
    StepKeepsSchedule(states[k], steps[k], states[k + 1], d, t0, c0);
  }

  lemma {:induction false} SleepTimeOver(n: nat, d: nat, t: nat)
    requires d >= 1 && SleepTime(n, d) <= t < SleepTime(n, d) + d
    ensures t / d == n
  {
    SleepsFit(n, d, t);
    SleepTimeIsProduct(n, d);
    UniqueQuotient(t, d, n, t - n * d);
  }

  lemma {:induction false} SleepTimeIsProduct(n: nat, d: nat)
    ensures SleepTime(n, d) == n * d
  {
    if n > 0 { SleepTimeIsProduct(n - 1, d); }
  }

  /** On schedule, the triggers issued and the one due are as many as whole intervals have passed. */
  lemma ScheduleRate(s: Sys, d: nat, t0: nat, c0: nat)
    requires d >= 1 && OnSchedule(s, d, t0, c0)
    ensures t0 <= s.now && s.ticks - c0 + Num(Due(s)) == (s.now - t0) / d
    ensures !Enabled(s, TickStep) && !Enabled(s, TickChanged) ==> s.tick.Sleeping? && s.now < s.tick.deadline
  {
    var n := s.ticks - c0 + Num(Due(s));
    assert SleepTime(n, d) <= s.now - t0 < SleepTime(n, d) + d;
    SleepTimeOver(n, d, s.now - t0);
  }

  /** Interval mining mines, on time: set an interval of d >= 1 seconds while no trigger of an earlier one is
      due. While no other call replaces the mode and the task is prompt, at every moment the triggers it has
      issued since, with the one due, are exactly the whole intervals elapsed since the call, and a task that
      has no step to take sleeps towards a later deadline. */
  lemma IntervalRateExact(s: Sys, d: nat, a: Sys, states: seq<Sys>, steps: seq<Step>, b: Sys)
    requires d >= 1 && !Due(s) && s.tick != Got(Interval(0))
    requires Moves(s, CallSetInterval(d), a) && Run(a, states, steps, b) && Undisturbed(states, steps)
    ensures a.mode == b.mode == Interval(d)
    ensures b.now == s.now + Elapsed(steps, |steps|)
    ensures b.ticks - s.ticks + Num(Due(b)) == Elapsed(steps, |steps|) / d
    ensures !Enabled(b, TickStep) && !Enabled(b, TickChanged) ==> b.tick.Sleeping? && b.now < b.tick.deadline
  {
    TimeIsElapsed(a, states, steps, b, |steps|);
    RunKeepsSchedule(a, states, steps, b, d, s.now, s.ticks);
    ScheduleRate(b, d, s.now, s.ticks);
  }

  /** Outside interval mode the task comes to rest: it reads the mode and waits for the next change. */
  lemma IdleTaskWaits(s: Sys)
    requires Linked(s) && s.tick.Top? && !s.mode.Interval?
    ensures var r := ApplyTick(s);
            && Linked(r) && r.tick.Got?
            && ApplyTick(r).tick.AwaitingChange? && ApplyTick(r).ticks == s.ticks
            && !Enabled(ApplyTick(r), TickStep) && !Enabled(ApplyTick(r), TickChanged)
  {
    TickKeepsLinked(s);
  }
}
