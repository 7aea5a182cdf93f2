/**
 What the RPC calls on mining control do (src/mining.rs:58-75 and src/anvil_api.rs:471-487), in every
 interleaving: when a call of `anvil_set_automine` triggers, that it takes effect, and what decides the mode.
 */
module MiningCalls {
  import opened Words
  import P = TriggerProtocol
  import opened MiningSystem
  import opened MiningTheorems
  import opened MiningTasks

  // ----- one call of anvil_set_automine

  function CallTriggers(id: nat): (Sys, Step) -> bool {
    (s: Sys, step: Step) => step == RpcStep(id) && id in s.rpcs && s.rpcs[id].RpcAdd?
  }

  function CallLooks(id: nat): (Sys, Step) -> bool {
    (s: Sys, step: Step) => step == RpcStep(id) && id in s.rpcs && s.rpcs[id].Counting?
  }

  function CallFindsPending(id: nat): (Sys, Step) -> bool {
    (s: Sys, step: Step) => step == RpcStep(id) && id in s.rpcs && s.rpcs[id].Counting? && s.pool != map[]
  }

  /** Where the call stands, with the looks it has taken at the pool, those that found a pending transaction,
      and the triggers it has issued. */
  predicate Progressed(s: Sys, id: nat, enabled: bool, looks: nat, found: nat, triggers: nat) {
    if id !in s.rpcs then
      looks == Num(enabled) && found <= looks && triggers == found
    else
      match s.rpcs[id]
      case Reading(e) => e == enabled && looks == found == triggers == 0
      case Replacing(e) => e == enabled && looks == found == triggers == 0
      case Counting => enabled && looks == found == triggers == 0
      case RpcAdd(left, goal) => enabled && left == 1 && goal.None? && looks == found == 1 && triggers == 0
      case RpcNotify(left, goal) => enabled && left == 1 && goal.None? && looks == found == triggers == 1
      case AwaitingHead(_) => false
  }

  lemma OwnStepProgresses(s: Sys, id: nat, enabled: bool, looks: nat, found: nat, triggers: nat)
    requires Linked(s) && Enabled(s, RpcStep(id)) && Progressed(s, id, enabled, looks, found, triggers)
    ensures Progressed(ApplyRpc(s, id), id, enabled,
                       looks + Num(CallLooks(id)(s, RpcStep(id))),
                       found + Num(CallFindsPending(id)(s, RpcStep(id))),
                       triggers + Num(CallTriggers(id)(s, RpcStep(id))))
  {}

  /** Calls are not affected by the steps of others, unless a new call takes the number. */
  lemma OthersLeaveCall(s: Sys, step: Step, id: nat)
    requires Linked(s) && Enabled(s, step) && step != RpcStep(id) && step != RpcTimeout(id) && !Reuses(step, id)
    ensures id in Apply(s, step).rpcs <==> id in s.rpcs
    ensures id in s.rpcs ==> Apply(s, step).rpcs[id] == s.rpcs[id]
  {
    if id in s.rpcs {
      CallsOf(s, step, id);
    } else if step.RpcStep? {
      NoNewCall(s, step.id, id);
    }
  }

  lemma NoNewCall(s: Sys, other: nat, id: nat)
    requires Linked(s) && Enabled(s, RpcStep(other)) && id !in s.rpcs
    ensures id !in ApplyRpc(s, other).rpcs
  {}

  lemma StepProgresses(p: Sys, step: Step, q: Sys, id: nat, enabled: bool, looks: nat, found: nat, triggers: nat)
    requires Moves(p, step, q) && !Reuses(step, id) && Progressed(p, id, enabled, looks, found, triggers)
    ensures Progressed(q, id, enabled, looks + Num(CallLooks(id)(p, step)),
                       found + Num(CallFindsPending(id)(p, step)), triggers + Num(CallTriggers(id)(p, step)))
  {
    if step == RpcStep(id) {
      OwnStepProgresses(p, id, enabled, looks, found, triggers);
    } else {
      OthersLeaveCall(p, step, id);
    }
  }

  lemma {:induction false} CallProgresses(a: Sys, states: seq<Sys>, steps: seq<Step>, b: Sys,
                                          id: nat, enabled: bool, k: nat)
    requires Run(a, states, steps, b) && id in a.rpcs && a.rpcs[id] == Reading(enabled) && k <= |steps|
    requires forall step :: step in steps ==> !Reuses(step, id)
    ensures Progressed(states[k], id, enabled, Count(states, steps, CallLooks(id), k),
                       Count(states, steps, CallFindsPending(id), k), Count(states, steps, CallTriggers(id), k))
  {
    if k > 0 {
      CallProgresses(a, states, steps, b, id, enabled, k - 1);
      assert MovesAt(states, steps, k - 1) && steps[k - 1] in steps;
      StepProgresses(states[k - 1], steps[k - 1], states[k], id, enabled,
                     Count(states, steps, CallLooks(id), k - 1),
                     Count(states, steps, CallFindsPending(id), k - 1),
                     Count(states, steps, CallTriggers(id), k - 1));
    }
  }

  /** A call of `anvil_set_automine` that has returned: an enabling one has looked at the pool exactly once and
      triggered once if it found a pending transaction and not otherwise; a disabling one did neither. */
  lemma SetAutomineTriggers(s: Sys, a: Sys, states: seq<Sys>, steps: seq<Step>, b: Sys, id: nat, enabled: bool)
    requires Moves(s, CallSetAutomine(id, enabled), a) && Run(a, states, steps, b) && id !in b.rpcs
    requires forall step :: step in steps ==> !Reuses(step, id)
    ensures Count(states, steps, CallLooks(id), |steps|) == Num(enabled)
    ensures Count(states, steps, CallTriggers(id), |steps|) == Count(states, steps, CallFindsPending(id), |steps|)
    ensures !enabled ==> Count(states, steps, CallTriggers(id), |steps|) == 0
  {
    CallProgresses(a, states, steps, b, id, enabled, |steps|);
  }

  // ----- its effect on the mode

  function CallReads(id: nat): (Sys, Step) -> bool {
    (s: Sys, step: Step) => step == RpcStep(id) && id in s.rpcs && s.rpcs[id].Reading?
  }

  /** The call reads a mode that it has to change. */
  function CallReadsOther(id: nat): (Sys, Step) -> bool {
    (s: Sys, step: Step) =>
      step == RpcStep(id) && id in s.rpcs && s.rpcs[id].Reading? && s.mode.Automine? != s.rpcs[id].enabled
  }

  function CallReplaces(id: nat): (Sys, Step) -> bool {
    (s: Sys, step: Step) => step == RpcStep(id) && id in s.rpcs && s.rpcs[id].Replacing?
  }

  predicate ModeProgressed(s: Sys, id: nat, enabled: bool, looked: nat, others: nat, replaced: nat) {
    if id in s.rpcs && s.rpcs[id].Reading? then
      s.rpcs[id].enabled == enabled && looked == others == replaced == 0
    else if id in s.rpcs && s.rpcs[id].Replacing? then
      s.rpcs[id].enabled == enabled && looked == others == 1 && replaced == 0
    else
      && looked == 1 && replaced == others <= 1
      && (id in s.rpcs ==> enabled && !s.rpcs[id].AwaitingHead?)
      && (id in s.rpcs && (s.rpcs[id].RpcAdd? || s.rpcs[id].RpcNotify?) ==>
            s.rpcs[id].left == 1 && s.rpcs[id].goal.None?)
  }

  lemma OwnStepReplaces(s: Sys, id: nat, enabled: bool, looked: nat, others: nat, replaced: nat)
    requires Linked(s) && Enabled(s, RpcStep(id)) && ModeProgressed(s, id, enabled, looked, others, replaced)
    ensures ModeProgressed(ApplyRpc(s, id), id, enabled,
                           looked + Num(CallReads(id)(s, RpcStep(id))),
                           others + Num(CallReadsOther(id)(s, RpcStep(id))),
                           replaced + Num(CallReplaces(id)(s, RpcStep(id))))
  {}

  lemma StepReplaces(p: Sys, step: Step, q: Sys, id: nat, enabled: bool, looked: nat, others: nat, replaced: nat)
    requires Moves(p, step, q) && !Reuses(step, id) && ModeProgressed(p, id, enabled, looked, others, replaced)
    ensures ModeProgressed(q, id, enabled, looked + Num(CallReads(id)(p, step)),
                           others + Num(CallReadsOther(id)(p, step)), replaced + Num(CallReplaces(id)(p, step)))
  {
    if step == RpcStep(id) {
      OwnStepReplaces(p, id, enabled, looked, others, replaced);
    } else {
      OthersLeaveCall(p, step, id);
    }
  }

  lemma {:induction false} CallModeProgresses(a: Sys, states: seq<Sys>, steps: seq<Step>, b: Sys,
                                              id: nat, enabled: bool, k: nat)
    requires Run(a, states, steps, b) && id in a.rpcs && a.rpcs[id] == Reading(enabled) && k <= |steps|
    requires forall step :: step in steps ==> !Reuses(step, id)
    ensures ModeProgressed(states[k], id, enabled, Count(states, steps, CallReads(id), k),
                           Count(states, steps, CallReadsOther(id), k), Count(states, steps, CallReplaces(id), k))
  {
    if k > 0 {
      CallModeProgresses(a, states, steps, b, id, enabled, k - 1);
      assert MovesAt(states, steps, k - 1) && steps[k - 1] in steps;
      StepReplaces(states[k - 1], steps[k - 1], states[k], id, enabled,
                   Count(states, steps, CallReads(id), k - 1),
                   Count(states, steps, CallReadsOther(id), k - 1),
                   Count(states, steps, CallReplaces(id), k - 1));
    }
  }

  /** A returned call has read the mode once, and has replaced it once if it read automine off when enabling or
      on when disabling, and not otherwise. */
  lemma SetAutomineReplaces(s: Sys, a: Sys, states: seq<Sys>, steps: seq<Step>, b: Sys, id: nat, enabled: bool)
    requires Moves(s, CallSetAutomine(id, enabled), a) && Run(a, states, steps, b) && id !in b.rpcs
    requires forall step :: step in steps ==> !Reuses(step, id)
    ensures Count(states, steps, CallReads(id), |steps|) == 1
    ensures Count(states, steps, CallReplaces(id), |steps|) == Count(states, steps, CallReadsOther(id), |steps|)
  {
    CallModeProgresses(a, states, steps, b, id, enabled, |steps|);
  }

  /** The call has not had its effect yet. */
  predicate BeforeEffect(s: Sys, id: nat, enabled: bool) {
    id in s.rpcs && (s.rpcs[id] == Reading(enabled) || s.rpcs[id] == Replacing(enabled))
  }

  lemma OwnStepTakesEffect(s: Sys, id: nat, enabled: bool)
    requires Linked(s) && BeforeEffect(s, id, enabled) && s.mode.Automine? != enabled
    ensures ApplyRpc(s, id).mode.Automine? != enabled ==> BeforeEffect(ApplyRpc(s, id), id, enabled)
  {}

  lemma StaysBeforeEffect(p: Sys, step: Step, q: Sys, id: nat, enabled: bool)
    requires Moves(p, step, q) && !Reuses(step, id) && BeforeEffect(p, id, enabled)
    requires p.mode.Automine? != enabled && q.mode.Automine? != enabled
    ensures BeforeEffect(q, id, enabled)
  {
    if step == RpcStep(id) {
      OwnStepTakesEffect(p, id, enabled);
    } else {
      OthersLeaveCall(p, step, id);
    }
  }

  lemma {:induction false} WaitsForEffect(a: Sys, states: seq<Sys>, steps: seq<Step>, b: Sys,
                                          id: nat, enabled: bool, k: nat)
    requires Run(a, states, steps, b) && id in a.rpcs && a.rpcs[id] == Reading(enabled) && k <= |steps|
    requires forall step :: step in steps ==> !Reuses(step, id)
    requires forall j :: 0 <= j <= k ==> states[j].mode.Automine? != enabled
    ensures BeforeEffect(states[k], id, enabled)
  {
    if k > 0 {
      WaitsForEffect(a, states, steps, b, id, enabled, k - 1);
      assert MovesAt(states, steps, k - 1) && steps[k - 1] in steps;
      StaysBeforeEffect(states[k - 1], steps[k - 1], states[k], id, enabled);
    }
  }

  /** A returned call took effect: at some moment since it began automine was on if it enabled, off if it
      disabled, whatever other calls did meanwhile. */
  lemma SetAutomineTakesEffect(s: Sys, a: Sys, states: seq<Sys>, steps: seq<Step>, b: Sys, id: nat, enabled: bool)
    requires Moves(s, CallSetAutomine(id, enabled), a) && Run(a, states, steps, b) && id !in b.rpcs
    requires forall step :: step in steps ==> !Reuses(step, id)
    ensures exists j :: 0 <= j <= |steps| && states[j].mode.Automine? == enabled
  {
    if forall j :: 0 <= j <= |steps| ==> states[j].mode.Automine? != enabled {
      WaitsForEffect(a, states, steps, b, id, enabled, |steps|);
    }
  }

  /** Its read and its replacement are two steps: an interval set between them is lost to a disabling call that
      had read Automine. */
  lemma DisableOverridesNewInterval(s: Sys, id: nat, d: nat)
    requires Linked(s) && id in s.rpcs && s.rpcs[id] == Reading(false) && s.mode.Automine? && d > 0
    ensures var read := ApplyRpc(s, id);
            && Enabled(s, RpcStep(id)) && Linked(read) && Enabled(read, CallSetInterval(d))
            && var set' := Apply(read, CallSetInterval(d));
            && set'.mode == Interval(d) && Linked(set') && Enabled(set', RpcStep(id))
            && ApplyRpc(set', id).mode == Manual
  {
    ApplyKeepsLinked(s, RpcStep(id));
    ApplyKeepsLinked(ApplyRpc(s, id), CallSetInterval(d));
  }

  // ----- one call of mine_blocks

  /** The wait ends because the head has reached the goal. */
  function CallReaches(id: nat, goal: nat): (Sys, Step) -> bool {
    (s: Sys, step: Step) => step == RpcStep(id) && id in s.rpcs && s.rpcs[id].AwaitingHead? && goal <= s.head
  }

  function CallTimesOut(id: nat): (Sys, Step) -> bool {
    (s: Sys, step: Step) => step == RpcTimeout(id)
  }

  /** Where the call stands, with its triggers so far and the ends of its wait. */
  predicate Mining(s: Sys, id: nat, goal: nat, blocks: nat, triggers: nat, reached: nat, late: nat) {
    if id !in s.rpcs then
      triggers == blocks && reached + late == 1
    else
      && reached == late == 0
      && match s.rpcs[id]
         case RpcAdd(left, g) => g == Some(goal) && left > 0 && triggers + left == blocks
         case RpcNotify(left, g) => g == Some(goal) && left > 0 && triggers + left == blocks + 1
         case AwaitingHead(height) => height == goal && triggers == blocks
         case _ => false
  }

  lemma OwnStepMines(s: Sys, id: nat, goal: nat, blocks: nat, triggers: nat, reached: nat, late: nat)
    requires Linked(s) && Enabled(s, RpcStep(id)) && Mining(s, id, goal, blocks, triggers, reached, late)
    ensures Mining(ApplyRpc(s, id), id, goal, blocks, triggers + Num(CallTriggers(id)(s, RpcStep(id))),
                   reached + Num(CallReaches(id, goal)(s, RpcStep(id))), late)
  {}

  lemma StepMines(p: Sys, step: Step, q: Sys, id: nat, goal: nat, blocks: nat, triggers: nat, reached: nat, late: nat)
    requires Moves(p, step, q) && !Reuses(step, id) && Mining(p, id, goal, blocks, triggers, reached, late)
    ensures Mining(q, id, goal, blocks, triggers + Num(CallTriggers(id)(p, step)),
                   reached + Num(CallReaches(id, goal)(p, step)), late + Num(CallTimesOut(id)(p, step)))
  {
    if step == RpcStep(id) {
      OwnStepMines(p, id, goal, blocks, triggers, reached, late);
    } else if step != RpcTimeout(id) {
      OthersLeaveCall(p, step, id);
    }
  }

  lemma {:induction false} CallMines(a: Sys, states: seq<Sys>, steps: seq<Step>, b: Sys,
                                     id: nat, goal: nat, blocks: nat, k: nat)
    requires Run(a, states, steps, b) && Mining(a, id, goal, blocks, 0, 0, 0) && k <= |steps|
    requires forall step :: step in steps ==> !Reuses(step, id)
    ensures Mining(states[k], id, goal, blocks, Count(states, steps, CallTriggers(id), k),
                   Count(states, steps, CallReaches(id, goal), k), Count(states, steps, CallTimesOut(id), k))
  {
    if k > 0 {
      CallMines(a, states, steps, b, id, goal, blocks, k - 1);
      assert MovesAt(states, steps, k - 1) && steps[k - 1] in steps;
      StepMines(states[k - 1], steps[k - 1], states[k], id, goal, blocks,
                Count(states, steps, CallTriggers(id), k - 1),
                Count(states, steps, CallReaches(id, goal), k - 1),
                Count(states, steps, CallTimesOut(id), k - 1));
    }
  }

  /** A call of `mine_blocks` that has returned issued exactly the triggers asked for, and returned either when
      it found the head at start + blocks (or the last number) or by a time-out, once. Asked for none it does
      nothing at all. */
  lemma MineCallReturns(s: Sys, id: nat, blocks: nat, a: Sys, states: seq<Sys>, steps: seq<Step>, b: Sys)
    requires Moves(s, CallMine(id, blocks), a) && Run(a, states, steps, b) && id !in b.rpcs
    requires forall step :: step in steps ==> !Reuses(step, id)
    ensures blocks == 0 ==> a == s
    ensures blocks > 0 ==>
              && Count(states, steps, CallTriggers(id), |steps|) == blocks
              && Count(states, steps, CallReaches(id, SatU64(s.head + blocks)), |steps|)
                 + Count(states, steps, CallTimesOut(id), |steps|) == 1
  {
    if blocks > 0 {
      CallMines(a, states, steps, b, id, SatU64(s.head + blocks), blocks, |steps|);
    }
  }

  // ----- what decides the mode

  /** The mode a step asks for, if it asks for one: an interval, none at all, or automine on or off. */
  function Asks(s: Sys, step: Step): Option<Mode> {
    match step
    case CallSetInterval(secs) => Some(if secs == 0 then Manual else Interval(secs))
    case RpcStep(id) =>
      if id in s.rpcs && s.rpcs[id].Replacing? then Some(if s.rpcs[id].enabled then Automine else Manual) else None
    case _ => None
  }

  /** The mode asked for last in the first k steps. */
  ghost function LastAsked(states: seq<Sys>, steps: seq<Step>, k: nat): Option<Mode>
    requires k <= |steps| && k <= |states|
  {
    if k == 0 then None
    else if Asks(states[k - 1], steps[k - 1]).Some? then Asks(states[k - 1], steps[k - 1])
    else LastAsked(states, steps, k - 1)
  }

  function Replaces(s: Sys, step: Step): bool { Asks(s, step).Some? }

  lemma CallSetsMode(s: Sys, id: nat)
    requires Linked(s) && Enabled(s, RpcStep(id))
    ensures var step := RpcStep(id);
            && ApplyRpc(s, id).mode == Asks(s, step).UnwrapOr(s.mode)
            && ApplyRpc(s, id).version == s.version + Num(Replaces(s, step))
  {}

  lemma StepSetsMode(p: Sys, step: Step, q: Sys)
    requires Moves(p, step, q)
    ensures q.mode == Asks(p, step).UnwrapOr(p.mode) && q.version == p.version + Num(Replaces(p, step))
  {
    if step.RpcStep? { CallSetsMode(p, step.id); }
  }

  /** The mode is the one asked for last, and the watch channel's version counts the replacements. */
  lemma {:induction false} ModeIsLastAsked(a: Sys, states: seq<Sys>, steps: seq<Step>, b: Sys, k: nat)
    requires Run(a, states, steps, b) && k <= |steps|
    ensures states[k].mode == LastAsked(states, steps, k).UnwrapOr(a.mode)
    ensures states[k].version == a.version + Count(states, steps, Replaces, k)
  {
    if k > 0 {
      ModeIsLastAsked(a, states, steps, b, k - 1);
      assert MovesAt(states, steps, k - 1);
      StepSetsMode(states[k - 1], steps[k - 1], states[k]);
    }
  }
}
