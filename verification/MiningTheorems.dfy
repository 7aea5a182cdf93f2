/** What mining control guarantees over whole runs of the system. */
module MiningTheorems {
  import opened Words
  import P = TriggerProtocol
  import T = TriggerTheorems
  import opened MiningSystem

  // ----- the automine handshake

  /** An RPC that is going to look at the pool with automine on, or is already going to trigger. */
  ghost predicate RpcWillAdd(s: Sys) {
    exists id: nat :: id in s.rpcs && (s.rpcs[id].Counting? || s.rpcs[id].RpcAdd?)
  }

  /** No trigger has been issued since tx arrived, but one will be, or automine is off. */
  ghost predicate Answered(s: Sys, tx: nat) {
    || !s.mode.Automine?
    || s.auto.SawAutomine? || s.auto.AutoAdd? || RpcWillAdd(s)
    || tx in s.unsent || tx in s.events || s.auto == Received(tx)
  }

  ghost predicate Handshake(s: Sys) {
    forall tx :: tx in s.pool ==> s.pool[tx] <= s.mem.adds && (s.pool[tx] == s.mem.adds ==> Answered(s, tx))
  }

  /** The step is the `fetch_add` of a trigger. */
  predicate Issues(s: Sys, step: Step) {
    match step
    case AutoStep => s.auto.AutoAdd?
    case TickStep => s.tick.TickAdd?
    case RpcStep(id) => id in s.rpcs && s.rpcs[id].RpcAdd?
    case _ => false
  }

  lemma IssuesAdds(s: Sys, step: Step)
    requires Linked(s) && Enabled(s, step)
    ensures Apply(s, step).mem.adds == s.mem.adds + (if Issues(s, step) then 1 else 0)
  {
    match step
    case AutoStep => AutoAdds(s);
    case TickStep => TickAdds(s);
    case RpcStep(id) => RpcAdds(s, id);
    case _ =>
  }

  lemma AutoAdds(s: Sys)
    requires Linked(s) && Enabled(s, AutoStep)
    ensures ApplyAuto(s).mem.adds == s.mem.adds + (if s.auto.AutoAdd? then 1 else 0)
  {}

  lemma TickAdds(s: Sys)
    requires Linked(s) && Enabled(s, TickStep)
    ensures ApplyTick(s).mem.adds == s.mem.adds + (if s.tick.TickAdd? then 1 else 0)
  {}

  lemma RpcAdds(s: Sys, id: nat)
    requires Linked(s) && Enabled(s, RpcStep(id))
    ensures ApplyRpc(s, id).mem.adds == s.mem.adds + (if s.rpcs[id].RpcAdd? then 1 else 0)
  {}

  lemma ArrivalsOnly(s: Sys, step: Step, tx: nat)
    requires Linked(s) && Enabled(s, step) && tx in Apply(s, step).pool && step != Insert(tx)
    ensures tx in s.pool && Apply(s, step).pool[tx] == s.pool[tx]
  {}

  lemma OtherCallsOf(s: Sys, other: nat, id: nat)
    requires Linked(s) && Enabled(s, RpcStep(other)) && id in s.rpcs && id != other
    ensures id in ApplyRpc(s, other).rpcs && ApplyRpc(s, other).rpcs[id] == s.rpcs[id]
  {}

  /** Steps of a call leave the other calls alone, and every other step leaves all calls alone. */
  lemma CallsOf(s: Sys, step: Step, id: nat)
    requires Linked(s) && Enabled(s, step) && id in s.rpcs && step != RpcStep(id) && step != RpcTimeout(id)
    ensures id in Apply(s, step).rpcs && Apply(s, step).rpcs[id] == s.rpcs[id]
  {
    match step
    case RpcStep(other) => OtherCallsOf(s, other, id);
    case _ =>
  }

  /** The promise of an RPC survives every step but the trigger that redeems it. */
  lemma RpcKeepsPromise(s: Sys, step: Step)
    requires Linked(s) && Enabled(s, step) && RpcWillAdd(s) && s.pool != map[]
    requires Apply(s, step).mem.adds == s.mem.adds
    ensures RpcWillAdd(Apply(s, step))
  {
    var id: nat :| id in s.rpcs && (s.rpcs[id].Counting? || s.rpcs[id].RpcAdd?);
    if step == RpcStep(id) {
      assert s.rpcs[id].Counting?;
      assert ApplyRpc(s, id).rpcs[id] == RpcAdd(1, None);
    } else {
      CallsOf(s, step, id);
    }
  }

  /** Steps of the automine task: an event it drops was answered by the mode being off. */
  lemma AutoKeepsAnswer(s: Sys, tx: nat)
    requires Linked(s) && Enabled(s, AutoStep) && tx in s.pool && Answered(s, tx)
    requires ApplyAuto(s).mem.adds == s.mem.adds
    ensures Answered(ApplyAuto(s), tx)
  {
    if s.auto.Receiving? && tx in s.events {
      var k :| 0 <= k < |s.events| && s.events[k] == tx;
      assert k > 0 ==> s.events[1..][k - 1] == tx;
    }
  }

  /** Steps of calls: the mode is set to Automine only by one that then counts the pool. */
  lemma CallsKeepAnswer(s: Sys, id: nat, tx: nat)
    requires Linked(s) && Enabled(s, RpcStep(id)) && Answered(s, tx) && !RpcWillAdd(s)
    ensures Answered(ApplyRpc(s, id), tx)
  {
    var s' := ApplyRpc(s, id);
    if !s.mode.Automine? && s'.mode.Automine? {
      assert s'.rpcs[id].Counting?;
    }
  }

  /** Every other step: in particular a transaction's event is queued before its arrival stops being
      unannounced. */
  lemma OthersKeepAnswer(s: Sys, step: Step, tx: nat)
    requires Linked(s) && Enabled(s, step) && Answered(s, tx) && !RpcWillAdd(s)
    requires !step.AutoStep? && !step.RpcStep?
    ensures Answered(Apply(s, step), tx)
  {
    if step == Announce(tx) {
      assert Apply(s, step).events[|s.events|] == tx;
    }
  }

  lemma ApplyKeepsAnswer(s: Sys, step: Step, tx: nat)
    requires Linked(s) && Enabled(s, step) && tx in s.pool && Answered(s, tx)
    requires Apply(s, step).mem.adds == s.mem.adds
    ensures Answered(Apply(s, step), tx)
  {
    if RpcWillAdd(s) {
      RpcKeepsPromise(s, step);
    } else if step.AutoStep? {
      AutoKeepsAnswer(s, tx);
    } else if step.RpcStep? {
      CallsKeepAnswer(s, step.id, tx);
    } else {
      OthersKeepAnswer(s, step, tx);
    }
  }

  lemma ApplyKeepsHandshake(s: Sys, step: Step)
    requires Linked(s) && Handshake(s) && Enabled(s, step)
    ensures Handshake(Apply(s, step))
  {
    var s' := Apply(s, step);
    IssuesAdds(s, step);
    forall tx | tx in s'.pool
      ensures s'.pool[tx] <= s'.mem.adds && (s'.pool[tx] == s'.mem.adds ==> Answered(s', tx))
    {
      if step != Insert(tx) {
        ArrivalsOnly(s, step, tx);
        if s'.pool[tx] == s'.mem.adds { ApplyKeepsAnswer(s, step, tx); }
      }
    }
  }

  lemma {:induction false} RunKeepsHandshake(a: Sys, states: seq<Sys>, steps: seq<Step>, b: Sys, k: nat)
    requires Run(a, states, steps, b) && Handshake(a) && k <= |steps|
    ensures Handshake(states[k])
  {
    if k > 0 {
      RunKeepsHandshake(a, states, steps, b, k - 1);
      assert MovesAt(states, steps, k - 1);
      ApplyKeepsHandshake(states[k - 1], steps[k - 1]);
    }
  }

  lemma SettledIsServed(s: Sys)
    requires Handshake(s) && Settled(s) && s.mode.Automine?
    ensures forall tx :: tx in s.pool ==> s.pool[tx] < s.mem.adds
  {
    forall tx | tx in s.pool ensures s.pool[tx] < s.mem.adds {
      assert !Answered(s, tx);
    }
  }

  /** No arrival is unannounced, the listener's queue is empty, the automine task waits, and no RPC is about
      to look at the pool or to trigger. */
  ghost predicate Settled(s: Sys) {
    && s.unsent == multiset{} && s.events == [] && s.auto.Receiving?
    && forall id :: id in s.rpcs ==> !s.rpcs[id].Counting? && !s.rpcs[id].RpcAdd?
  }

  /** In every interleaving of arrivals, automine task, mode changes and RPCs: once things settle with
      automine on, every transaction still pending has had a trigger issued after it arrived. */
  lemma AutomineHandshake(boot: Sys, states: seq<Sys>, steps: seq<Step>, s: Sys)
    requires Fresh(boot, |boot.mem.streams|) && Run(boot, states, steps, s)
    requires Settled(s) && s.mode.Automine?
    ensures forall tx :: tx in s.pool ==> s.pool[tx] < s.mem.adds
  {
    RunKeepsHandshake(boot, states, steps, s, |steps|);
    SettledIsServed(s);
  }

  // ----- the system runs the trigger protocol, and nothing else touches its memory

  lemma MemoryStep(s: Sys, step: Step) returns (a: Option<P.Action>)
    requires Linked(s) && Enabled(s, step)
    ensures match a
            case None => Apply(s, step).mem == s.mem
            case Some(x) => P.Enabled(s.mem, x) && Apply(s, step).mem == P.Apply(s.mem, x)
  {
    a := None;
    match step
    case StreamCall(i) => a := Some(P.Call(i));
    case StreamAdvance(i) => a := Some(P.Advance(i));
    case AutoStep =>
      if s.auto.AutoAdd? { a := Some(P.FetchAdd(P.AutomineTask)); }
      if s.auto.AutoNotify? { a := Some(P.NotifyOne(P.AutomineTask)); }
    case TickStep =>
      if s.tick.TickAdd? { a := Some(P.FetchAdd(P.IntervalTask)); }
      if s.tick.TickNotify? { a := Some(P.NotifyOne(P.IntervalTask)); }
    case RpcStep(id) =>
      if s.rpcs[id].RpcAdd? { a := Some(P.FetchAdd(P.Rpc(id))); }
      if s.rpcs[id].RpcNotify? { a := Some(P.NotifyOne(P.Rpc(id))); }
    case _ =>
  }

  /** Every run of the system projects to a run of the trigger protocol. */
  lemma {:induction false} Projection(a: Sys, states: seq<Sys>, steps: seq<Step>, b: Sys, k: nat)
    returns (acts: seq<P.Action>)
    requires Run(a, states, steps, b) && k <= |steps|
    ensures P.Run(a.mem, acts) == Some(states[k].mem)
  {
    acts := [];
    if k > 0 {
      acts := Projection(a, states, steps, b, k - 1);
      assert MovesAt(states, steps, k - 1);
      var x := MemoryStep(states[k - 1], steps[k - 1]);
      if x.Some? {
        P.RunSnoc(a.mem, acts, x.value);
        acts := acts + [x.value];
      }
    }
  }

  /** No lost trigger in the whole system, for any number of streams: while all of them are parked and
      un-notified, no permit is stored and pending triggers all belong to threads still to notify. */
  lemma ParkedStreamsMissNothing(boot: Sys, states: seq<Sys>, steps: seq<Step>, s: Sys)
    requires Fresh(boot, |boot.mem.streams|) && Run(boot, states, steps, s)
    requires s.mem.streams != [] && forall i :: 0 <= i < |s.mem.streams| ==> T.Asleep(s.mem, i)
    ensures !s.mem.permit && s.mem.pending <= |s.mem.between|
  {
    RunIsLinked(boot, states, steps, s, |steps|);
    var acts := Projection(boot, states, steps, s, |steps|);
    T.NoLostTrigger(|boot.mem.streams|, acts, s.mem);
  }

  /** Conservation in the whole system, for any number of streams: every trigger issued is pending, has a block
      under way or has its block on the chain, while the outstanding ones fit the counter. */
  lemma TriggersBecomeBlocks(boot: Sys, states: seq<Sys>, steps: seq<Step>, s: Sys)
    requires Fresh(boot, |boot.mem.streams|) && Run(boot, states, steps, s)
    requires s.mem.adds - s.mem.takes < P.USIZE
    ensures s.mem.adds == s.mem.pending + s.making + (s.head - boot.head)
  {
    RunIsLinked(boot, states, steps, s, |steps|);
    Balance(s);
  }

  /** End to end, for any number of streams (the node has one): once things settle with automine on, all
      streams are parked and un-notified and nothing is being built, all triggers are consumed, and for every
      transaction still pending more blocks have been built than triggers had been issued when it arrived:
      some block was built for a trigger that followed it. (Outstanding triggers are assumed to fit.) */
  lemma SettledAutomineServedThePool(boot: Sys, states: seq<Sys>, steps: seq<Step>, s: Sys)
    requires Fresh(boot, |boot.mem.streams|) && Run(boot, states, steps, s)
    requires Settled(s) && s.mode.Automine? && s.making == 0
    requires s.mem.between == {} && s.mem.adds - s.mem.takes < P.USIZE
    requires s.mem.streams != [] && forall i :: 0 <= i < |s.mem.streams| ==> T.Asleep(s.mem, i)
    ensures s.mem.adds == s.mem.takes && s.mem.pending == 0
    ensures forall tx :: tx in s.pool ==> s.pool[tx] < s.head - s.genesis
  {
    ParkedStreamsMissNothing(boot, states, steps, s);
    AutomineHandshake(boot, states, steps, s);
    RunIsLinked(boot, states, steps, s, |steps|);
    Balance(s);
  }

  // ----- interval mining

  /** The running interval, and the one the task has read, are at least d seconds. */
  predicate SlowerThan(s: Sys, d: nat) {
    && (s.mode.Interval? ==> d <= s.mode.secs)
    && (s.tick.Got? && s.tick.mode.Interval? ==> d <= s.tick.mode.secs)
  }

  predicate StartsInterval(step: Step) {
    step.CallSetInterval? && step.interval > 0
  }

  predicate SetsAtLeast(step: Step, d: nat) {
    StartsInterval(step) ==> d <= step.interval
  }

  /** The time n sleeps of d seconds take. */
  function SleepTime(n: nat, d: nat): nat {
    if n == 0 then 0 else SleepTime(n - 1, d) + d
  }

  lemma {:induction false} SleepsFit(n: nat, d: nat, t: nat)
    requires d >= 1 && SleepTime(n, d) <= t
    ensures n <= t / d
  {
    if n > 0 {
      SleepsFit(n - 1, d, t - d);
      OneMoreFits(t - d, d);
    }
  }

  lemma OneMoreFits(t: nat, d: nat)
    requires d >= 1
    ensures (t + d) / d == t / d + 1
  {
    assert t + d == (t / d + 1) * d + t % d;
    UniqueQuotient(t + d, d, t / d + 1, t % d);
  }

  lemma UniqueQuotient(t: nat, d: nat, q: nat, r: nat)
    requires d >= 1 && r < d && t == q * d + r
    ensures t / d == q
  {
    Monotone(q + 1, t / d, d);
    Monotone(t / d + 1, q, d);
  }

  lemma Monotone(a: nat, b: nat, d: nat)
    ensures a <= b ==> a * d <= b * d
  {}

  lemma SleepsFitWithOneMore(n: nat, d: nat, t: nat)
    requires d >= 1 && SleepTime(n, d) <= t + d
    ensures n <= t / d + 1
  {
    SleepsFit(n, d, t + d);
    OneMoreFits(t, d);
  }

  /** Since the instant (c0, t0) the task has kept to one trigger every d seconds, `slack` seconds aside,
      and the trigger it is preparing is paid for by its current sleep. */
  ghost predicate Paced(s: Sys, d: nat, c0: nat, t0: nat, slack: nat) {
    && c0 <= s.ticks && t0 <= s.now
    && SleepTime(s.ticks - c0, d) <= s.now - t0 + slack
    && (s.tick.Sleeping? ==> SleepTime(s.ticks - c0, d) + d <= Max(s.tick.deadline, s.now) - t0 + slack)
    && (s.tick.Woken? || s.tick.TickAdd? ==> SleepTime(s.ticks - c0, d) + d <= s.now - t0 + slack)
  }

  lemma TickKeepsPace(s: Sys, d: nat, c0: nat, t0: nat, slack: nat)
    requires Linked(s) && Enabled(s, TickStep) && SlowerThan(s, d) && Paced(s, d, c0, t0, slack)
    ensures SlowerThan(ApplyTick(s), d) && Paced(ApplyTick(s), d, c0, t0, slack)
  {}

  /** Apart from the interval task and the clock, steps leave the task alone, and only `CallSetInterval` starts
      an interval. */
  lemma OthersLeaveTick(s: Sys, step: Step)
    requires Linked(s) && Enabled(s, step) && !step.TickStep? && !step.TickChanged? && !step.Elapse?
    ensures var s' := Apply(s, step);
            && s'.tick == s.tick && s'.ticks == s.ticks && s'.now == s.now
            && (s'.mode.Interval? ==> s'.mode == s.mode || (StartsInterval(step) && s'.mode.secs == step.interval))
  {}

  lemma OthersKeepPace(s: Sys, step: Step, d: nat, c0: nat, t0: nat, slack: nat)
    requires Linked(s) && Enabled(s, step) && SlowerThan(s, d) && SetsAtLeast(step, d) && Paced(s, d, c0, t0, slack)
    requires !step.TickStep?
    ensures SlowerThan(Apply(s, step), d) && Paced(Apply(s, step), d, c0, t0, slack)
  {
    match step
    case TickChanged =>
    case Elapse(secs) =>
    case _ => OthersLeaveTick(s, step);
  }

  lemma {:induction false} RunKeepsPace(a: Sys, states: seq<Sys>, steps: seq<Step>, b: Sys,
                                        d: nat, c0: nat, t0: nat, slack: nat, k: nat)
    requires Run(a, states, steps, b) && k <= |steps|
    requires SlowerThan(a, d) && Paced(a, d, c0, t0, slack)
    requires forall step :: step in steps ==> SetsAtLeast(step, d)
    ensures SlowerThan(states[k], d) && Paced(states[k], d, c0, t0, slack)
  {
    if k > 0 {
      var p, step := states[k - 1], steps[k - 1];
      RunKeepsPace(a, states, steps, b, d, c0, t0, slack, k - 1);
      assert MovesAt(states, steps, k - 1) && step in steps;
      if step.TickStep? {
        TickKeepsPace(p, d, c0, t0, slack);
      } else {
        OthersKeepPace(p, step, d, c0, t0, slack);
      }
    }
  }

  lemma PacedNow(s: Sys, d: nat)
    ensures Paced(s, d, s.ticks, s.now, d)
  {}

  /** If every interval ever set is at least d seconds, the interval task issues at most T/d triggers in the
      first T seconds, whatever mode changes happen meanwhile. */
  lemma IntervalRateBound(boot: Sys, states: seq<Sys>, steps: seq<Step>, s: Sys, d: nat)
    requires Fresh(boot, |boot.mem.streams|) && Run(boot, states, steps, s)
    requires d >= 1 && forall step :: step in steps ==> SetsAtLeast(step, d)
    ensures boot.now <= s.now && s.ticks <= (s.now - boot.now) / d
  {
    RunKeepsPace(boot, states, steps, s, d, 0, boot.now, 0, |steps|);
    SleepsFit(s.ticks, d, s.now - boot.now);
  }

  /** Over any stretch of a run the bound is one trigger more, for a sleep already under way. */
  lemma IntervalRateWindow(a: Sys, states: seq<Sys>, steps: seq<Step>, b: Sys, d: nat)
    requires Run(a, states, steps, b) && SlowerThan(a, d)
    requires d >= 1 && forall step :: step in steps ==> SetsAtLeast(step, d)
    ensures a.now <= b.now && a.ticks <= b.ticks && b.ticks - a.ticks <= (b.now - a.now) / d + 1
  {
    PacedNow(a, d);
    RunKeepsPace(a, states, steps, b, d, a.ticks, a.now, d, |steps|);
    SleepsFitWithOneMore(b.ticks - a.ticks, d, b.now - a.now);
  }

  function Owed(s: Sys): nat { if s.tick.TickAdd? then 1 else 0 }

  lemma TickKeepsStopped(s: Sys)
    requires Linked(s) && !s.mode.Interval? && Enabled(s, TickStep)
    ensures !ApplyTick(s).mode.Interval?
    ensures ApplyTick(s).ticks + Owed(ApplyTick(s)) <= s.ticks + Owed(s)
  {}

  lemma OthersKeepStopped(s: Sys, step: Step)
    requires Linked(s) && !s.mode.Interval? && Enabled(s, step) && !StartsInterval(step) && !step.TickStep?
    ensures !Apply(s, step).mode.Interval?
    ensures Apply(s, step).ticks + Owed(Apply(s, step)) <= s.ticks + Owed(s)
  {
    match step
    case TickChanged =>
    case Elapse(secs) =>
    case _ => OthersLeaveTick(s, step);
  }

  lemma {:induction false} RunKeepsStopped(a: Sys, states: seq<Sys>, steps: seq<Step>, b: Sys, k: nat)
    requires Run(a, states, steps, b) && !a.mode.Interval? && k <= |steps|
    requires forall step :: step in steps ==> !StartsInterval(step)
    ensures !states[k].mode.Interval? && states[k].ticks + Owed(states[k]) <= a.ticks + Owed(a)
  {
    if k > 0 {
      RunKeepsStopped(a, states, steps, b, k - 1);
      assert MovesAt(states, steps, k - 1) && steps[k - 1] in steps;
      if steps[k - 1].TickStep? {
        TickKeepsStopped(states[k - 1]);
      } else {
        OthersKeepStopped(states[k - 1], steps[k - 1]);
      }
    }
  }

  /** Once the mode has left Interval and until it is set again, the interval task issues no trigger beyond
      the one whose mode check it had already passed. */
  lemma IntervalStop(a: Sys, states: seq<Sys>, steps: seq<Step>, b: Sys)
    requires Run(a, states, steps, b) && !a.mode.Interval?
    requires forall step :: step in steps ==> !StartsInterval(step)
    ensures b.ticks <= a.ticks + (if a.tick.TickAdd? then 1 else 0)
  {
    RunKeepsStopped(a, states, steps, b, |steps|);
  }

  // ----- mine_blocks

  predicate Reuses(step: Step, id: nat) {
    (step.CallMine? || step.CallSetAutomine?) && step.id == id
  }

  /** Triggers issued in the first k steps by anyone but call `id`. */
  function OtherTriggers(states: seq<Sys>, steps: seq<Step>, id: nat, k: nat): nat
    requires k <= |steps| && k <= |states|
  {
    if k == 0 then 0
    else
      OtherTriggers(states, steps, id, k - 1) + Foreign(states[k - 1], steps[k - 1], id)
  }

  function Foreign(s: Sys, step: Step, id: nat): nat {
    if step != RpcStep(id) && Issues(s, step) then 1 else 0
  }

  /** Call `id` of `mine_blocks` has issued what it has not still to issue: `adds` is the number of triggers
      issued before it, `others` those issued beside it. */
  predicate MineUnderWay(s: Sys, id: nat, start: nat, blocks: nat, adds: nat, others: nat) {
    id in s.rpcs ==>
      match s.rpcs[id]
      case RpcAdd(left, goal) => goal == Some(start + blocks) && s.mem.adds + left == adds + blocks + others
      case RpcNotify(left, goal) => goal == Some(start + blocks) && s.mem.adds + left == adds + blocks + others + 1
      case AwaitingHead(height) => height == start + blocks && s.mem.adds == adds + blocks + others
      case _ => false
  }

  lemma OwnStepKeepsMine(s: Sys, id: nat, start: nat, blocks: nat, adds: nat, others: nat)
    requires Linked(s) && Enabled(s, RpcStep(id)) && MineUnderWay(s, id, start, blocks, adds, others)
    ensures MineUnderWay(Apply(s, RpcStep(id)), id, start, blocks, adds, others)
  {
    assert RpcOk(s.rpcs[id]);
  }

  lemma OtherStepKeepsMine(s: Sys, step: Step, id: nat, start: nat, blocks: nat, adds: nat, others: nat)
    requires Linked(s) && Enabled(s, step) && step != RpcStep(id) && !Reuses(step, id)
    requires MineUnderWay(s, id, start, blocks, adds, others)
    ensures MineUnderWay(Apply(s, step), id, start, blocks, adds, others + (if Issues(s, step) then 1 else 0))
  {
    IssuesAdds(s, step);
  }

  /** Either kind of step, in terms of the states it joins. */
  lemma StepKeepsMine(p: Sys, step: Step, q: Sys, id: nat, start: nat, blocks: nat, adds: nat, others: nat)
    requires Moves(p, step, q) && !Reuses(step, id) && MineUnderWay(p, id, start, blocks, adds, others)
    ensures MineUnderWay(q, id, start, blocks, adds, others + Foreign(p, step, id))
  {
    if step == RpcStep(id) {
      OwnStepKeepsMine(p, id, start, blocks, adds, others);
    } else {
      OtherStepKeepsMine(p, step, id, start, blocks, adds, others);
    }
  }

  lemma StepAtKeepsMine(states: seq<Sys>, steps: seq<Step>, k: nat,
                        id: nat, start: nat, blocks: nat, adds: nat, others: nat)
    requires k < |steps| && k + 1 < |states| && MovesAt(states, steps, k) && !Reuses(steps[k], id)
    requires MineUnderWay(states[k], id, start, blocks, adds, others)
    ensures MineUnderWay(states[k + 1], id, start, blocks, adds, others + Foreign(states[k], steps[k], id))
  {
    StepKeepsMine(states[k], steps[k], states[k + 1], id, start, blocks, adds, others);
  }

  lemma {:induction false} RunKeepsMine(a: Sys, states: seq<Sys>, steps: seq<Step>, b: Sys,
                                        id: nat, start: nat, blocks: nat, adds: nat, k: nat)
    requires Run(a, states, steps, b) && MineUnderWay(a, id, start, blocks, adds, 0) && k <= |steps|
    requires forall step :: step in steps ==> !Reuses(step, id)
    ensures MineUnderWay(states[k], id, start, blocks, adds, OtherTriggers(states, steps, id, k))
  {
    if k > 0 {
      RunKeepsMine(a, states, steps, b, id, start, blocks, adds, k - 1);
      assert steps[k - 1] in steps;
      StepAtKeepsMine(states, steps, k - 1, id, start, blocks, adds, OtherTriggers(states, steps, id, k - 1));
    }
  }

  lemma MineStarts(s: Sys, id: nat, blocks: nat)
    requires Linked(s) && id !in s.rpcs && blocks > 0 && s.head + blocks <= U64_MAX
    ensures MineUnderWay(Apply(s, CallMine(id, blocks)), id, s.head, blocks, s.mem.adds, 0)
    ensures Apply(s, CallMine(id, blocks)).genesis == s.genesis
  {}

  lemma MineEnds(s: Sys, id: nat, start: nat, blocks: nat, adds: nat, others: nat)
    requires Linked(s) && MineUnderWay(s, id, start, blocks, adds, others)
    requires id in s.rpcs && s.rpcs[id].AwaitingHead? && start + blocks <= s.head
    requires start == s.genesis + adds
    ensures s.head <= start + blocks + others
    ensures others == 0 ==> s.head == start + blocks && s.making == 0 && s.mem.pending == 0
                            && s.mem.adds == s.mem.takes == adds + blocks
  {
    Balance(s);
  }

  /** `mine_blocks` called with nothing outstanding: its wait can succeed exactly when the head has reached
      `start + blocks`, and then has passed it by at most the triggers others issued meanwhile. If there were
      none, it is exactly there, every trigger has become one block, and nothing is outstanding. */
  lemma MineBlocksExact(s: Sys, id: nat, blocks: nat, a: Sys, states: seq<Sys>, steps: seq<Step>, b: Sys)
    requires Linked(s) && s.making == 0 && s.mem.adds == s.mem.takes && id !in s.rpcs
    requires blocks > 0 && s.head + blocks <= U64_MAX
    requires Moves(s, CallMine(id, blocks), a) && Run(a, states, steps, b)
    requires forall step :: step in steps ==> !Reuses(step, id)
    requires id in b.rpcs && b.rpcs[id].AwaitingHead?
    ensures Enabled(b, RpcStep(id)) <==> s.head + blocks <= b.head
    ensures Enabled(b, RpcStep(id)) ==> b.head <= s.head + blocks + OtherTriggers(states, steps, id, |steps|)
    ensures Enabled(b, RpcStep(id)) && OtherTriggers(states, steps, id, |steps|) == 0 ==>
              && b.head == s.head + blocks
              && b.making == 0 && b.mem.pending == 0
              && b.mem.adds == b.mem.takes == s.mem.adds + blocks
  {
    Balance(s);
    MineStarts(s, id, blocks);
    RunKeepsMine(a, states, steps, b, id, s.head, blocks, s.mem.adds, |steps|);
    RunIsLinked(a, states, steps, b, |steps|);
    if s.head + blocks <= b.head {
      MineEnds(b, id, s.head, blocks, s.mem.adds, OtherTriggers(states, steps, id, |steps|));
    }
  }
}
