/**
 The whole of mining control as one transition system: the trigger protocol, the watched mode, the automine
 task, the interval task, any number of RPC calls, transaction arrivals and block building, interleaved
 at the grain of single lock acquisitions and atomic operations (src/mining.rs with src/anvil_api.rs).
 */
module MiningSystem {
  import opened Words
  import P = TriggerProtocol

  datatype Mode = Automine | Manual | Interval(secs: nat)

  /** `run_automine_task`: between events, holding one, past the mode check, and in the two halves of `trigger`. */
  datatype AutoPc = Receiving | Received(tx: nat) | SawAutomine | AutoAdd | AutoNotify

  /** `run_interval_mining_task`; `Sleeping` and `AwaitingChange` also wait for a change of mode. */
  datatype TickPc =
    | Top | Got(mode: Mode) | AwaitingChange | Sleeping(deadline: nat) | Woken | TickAdd | TickNotify

  /** An RPC call in flight. `goal` is the head `mine_blocks` waits for; `anvil_set_automine` has none. */
  datatype RpcPc =
    | Reading(enabled: bool) | Replacing(enabled: bool) | Counting
    | RpcAdd(left: nat, goal: Option<nat>) | RpcNotify(left: nat, goal: Option<nat>) | AwaitingHead(height: nat)

  /** `version`/`seen` belong to the watch channel. `pool` maps each pending transaction to the number of
      triggers issued when it arrived; `unsent` are arrivals not yet announced to the listener, `events` the
      listener's queue; `making` are items taken from a stream whose block is not yet on the chain.
      `ticks` (triggers of the interval task) and `genesis` are history. */
  datatype Sys = Sys(
    mem: P.Memory, mode: Mode, version: nat, seen: nat,
    now: nat, ticks: nat,
    auto: AutoPc, tick: TickPc, rpcs: map<nat, RpcPc>,
    pool: map<nat, nat>, unsent: multiset<nat>, events: seq<nat>,
    making: nat, genesis: nat, head: nat)

  datatype Step =
    | StreamCall(i: nat) | StreamAdvance(i: nat) | Build(included: set<nat>)
    | Insert(tx: nat) | Announce(tx: nat) | Evict(gone: nat)
    | AutoStep
    | TickStep | TickChanged | Elapse(secs: nat)
    | CallSetAutomine(id: nat, enabled: bool) | CallMine(id: nat, blocks: nat) | CallSetInterval(interval: nat)
    | RpcStep(id: nat) | RpcTimeout(id: nat)

  function Boot(streams: nat, now: nat, genesis: nat): Sys {
    Sys(P.Start(streams), Automine, 0, 0, now, 0, Receiving, Top, map[], map[], multiset{}, [], 0, genesis, genesis)
  }

  /** A node as started, with n trigger streams. */
  predicate Fresh(s: Sys, n: nat) { s == Boot(n, s.now, s.genesis) }

  // ----- which steps are possible

  predicate Enabled(s: Sys, step: Step) {
    match step
    case StreamCall(i) => P.Enabled(s.mem, P.Call(i))
    case StreamAdvance(i) => P.Enabled(s.mem, P.Advance(i))
    case Build(_) => s.making > 0
    case Insert(tx) => tx !in s.pool
    case Announce(tx) => tx in s.unsent
    case Evict(tx) => tx in s.pool
    case AutoStep => s.auto.Receiving? ==> s.events != []
    case TickStep => !s.tick.AwaitingChange? && (s.tick.Sleeping? ==> s.tick.deadline <= s.now)
    case TickChanged => (s.tick.AwaitingChange? || s.tick.Sleeping?) && s.version != s.seen
    case Elapse(_) => true
    case CallSetAutomine(id, _) => id !in s.rpcs
    case CallMine(id, _) => id !in s.rpcs
    case CallSetInterval(_) => true
    case RpcStep(id) => id in s.rpcs && (s.rpcs[id].AwaitingHead? ==> s.rpcs[id].height <= s.head)
    case RpcTimeout(id) => id in s.rpcs && s.rpcs[id].AwaitingHead?
  }

  // ----- what each step does

  function Apply(s: Sys, step: Step): Sys
    requires Linked(s) && Enabled(s, step)
  {
    match step
    case StreamCall(i) => s.(mem := P.Apply(s.mem, P.Call(i)))
    case StreamAdvance(i) =>
      var mem := P.Apply(s.mem, P.Advance(i));
      s.(mem := mem, making := if mem.takes > s.mem.takes then s.making + 1 else s.making)
    case Build(included) => s.(making := s.making - 1, head := s.head + 1, pool := s.pool - included)
    case Insert(tx) => s.(pool := s.pool[tx := s.mem.adds], unsent := s.unsent + multiset{tx})
    case Announce(tx) => s.(unsent := s.unsent - multiset{tx}, events := s.events + [tx])
    case Evict(tx) => s.(pool := s.pool - {tx})
    case AutoStep => ApplyAuto(s)
    case TickStep => ApplyTick(s)
    case TickChanged => s.(seen := s.version, tick := Top)
    case Elapse(secs) => s.(now := s.now + secs)
    case CallSetAutomine(id, enabled) => s.(rpcs := s.rpcs[id := Reading(enabled)])
    case CallMine(id, blocks) =>
      if blocks == 0 then s else s.(rpcs := s.rpcs[id := RpcAdd(blocks, Some(SatU64(s.head + blocks)))])
    case CallSetInterval(secs) => Replace(s, if secs == 0 then Manual else Interval(secs))
    case RpcStep(id) => ApplyRpc(s, id)
    case RpcTimeout(id) => s.(rpcs := s.rpcs - {id})
  }

  /** `send_replace` on the watch channel. */
  function Replace(s: Sys, mode: Mode): Sys {
    s.(mode := mode, version := s.version + 1)
  }

  function ApplyAuto(s: Sys): Sys
    requires Linked(s) && Enabled(s, AutoStep)
  {
    match s.auto
    case Receiving => s.(auto := Received(s.events[0]), events := s.events[1..])
    case Received(_) => s.(auto := if s.mode.Automine? then SawAutomine else Receiving)
    case SawAutomine => s.(auto := if |s.pool| > 0 then AutoAdd else Receiving)
    case AutoAdd => s.(auto := AutoNotify, mem := P.Apply(s.mem, P.FetchAdd(P.AutomineTask)))
    case AutoNotify => s.(auto := Receiving, mem := P.Apply(s.mem, P.NotifyOne(P.AutomineTask)))
  }

  function ApplyTick(s: Sys): Sys
    requires Linked(s) && Enabled(s, TickStep)
  {
    match s.tick
    case Top => s.(tick := Got(s.mode), seen := s.version)
    case Got(mode) => s.(tick := if mode.Interval? then Sleeping(s.now + mode.secs) else AwaitingChange)
    case Sleeping(_) => s.(tick := Woken)
    case Woken => s.(tick := if s.mode.Interval? then TickAdd else Top)
    case TickAdd => s.(tick := TickNotify, ticks := s.ticks + 1, mem := P.Apply(s.mem, P.FetchAdd(P.IntervalTask)))
    case TickNotify => s.(tick := Top, mem := P.Apply(s.mem, P.NotifyOne(P.IntervalTask)))
  }

  function ApplyRpc(s: Sys, id: nat): Sys
    requires Linked(s) && Enabled(s, RpcStep(id))
  {
    var done := s.(rpcs := s.rpcs - {id});
    match s.rpcs[id]
    case Reading(true) => s.(rpcs := s.rpcs[id := if s.mode.Automine? then Counting else Replacing(true)])
    case Reading(false) => if s.mode.Automine? then s.(rpcs := s.rpcs[id := Replacing(false)]) else done
    case Replacing(true) => Replace(s, Automine).(rpcs := s.rpcs[id := Counting])
    case Replacing(false) => Replace(done, Manual)
    case Counting => if |s.pool| > 0 then s.(rpcs := s.rpcs[id := RpcAdd(1, None)]) else done
    case RpcAdd(left, goal) =>
      s.(rpcs := s.rpcs[id := RpcNotify(left, goal)], mem := P.Apply(s.mem, P.FetchAdd(P.Rpc(id))))
    case RpcNotify(left, goal) =>
      var rpcs :=
        if left > 1 then s.rpcs[id := RpcAdd(left - 1, goal)]
        else if goal.Some? then s.rpcs[id := AwaitingHead(goal.value)]
        else s.rpcs - {id};
      s.(rpcs := rpcs, mem := P.Apply(s.mem, P.NotifyOne(P.Rpc(id))))
    case AwaitingHead(_) => done
  }

  // ----- runs

  ghost predicate Moves(p: Sys, step: Step, q: Sys) {
    Linked(p) && Enabled(p, step) && q == Apply(p, step)
  }

  /** The steps lead from a to b through the listed states. */
  ghost predicate Run(a: Sys, states: seq<Sys>, steps: seq<Step>, b: Sys) {
    && |states| == |steps| + 1 && Linked(a)
    && states[0] == a && states[|steps|] == b
    && forall k :: 0 <= k < |steps| ==> MovesAt(states, steps, k)
  }

  ghost predicate MovesAt(states: seq<Sys>, steps: seq<Step>, k: nat)
    requires k < |steps| && k + 1 < |states|
  {
    Moves(states[k], steps[k], states[k + 1])
  }

  // ----- the invariant tying program counters, memory and chain together

  predicate RpcOk(pc: RpcPc) {
    pc.RpcAdd? || pc.RpcNotify? ==> pc.left > 0
  }

  /** Exactly the threads at the second half of `trigger` are between `fetch_add` and `notify_one`. */
  ghost predicate BetweenOk(s: Sys) {
    && (P.AutomineTask in s.mem.between <==> s.auto.AutoNotify?)
    && (P.IntervalTask in s.mem.between <==> s.tick.TickNotify?)
    && (forall id: nat :: P.Rpc(id) in s.mem.between <==> id in s.rpcs && s.rpcs[id].RpcNotify?)
  }

  ghost predicate Linked(s: Sys) {
    && P.Valid(s.mem)
    && BetweenOk(s)
    && (forall id :: id in s.rpcs ==> RpcOk(s.rpcs[id]))
    && s.seen <= s.version
    && s.head + s.making == s.genesis + s.mem.takes
  }

  /** A booted node, in automine with an empty pool, satisfies it, so a run from a fresh node takes no more
      than enabled steps. */
  lemma BootIsLinked(streams: nat, now: nat, genesis: nat)
    ensures Linked(Boot(streams, now, genesis))
    ensures Boot(streams, now, genesis).mode == Automine && Boot(streams, now, genesis).pool == map[]
  {
    assert P.Valid(P.Start(streams));
  }

  lemma MemoryAfter(m: P.Memory, a: P.Action)
    requires P.Valid(m) && P.Enabled(m, a)
    ensures var m' := P.Apply(m, a);
            && P.Valid(m') && |m'.streams| == |m.streams|
            && (a.FetchAdd? ==> m'.between == m.between + {a.thread} && m'.adds == m.adds + 1)
            && (a.NotifyOne? ==> m'.between == m.between - {a.thread})
            && (a.Call? || a.Advance? ==> m'.between == m.between)
            && (!a.FetchAdd? ==> m'.adds == m.adds)
            && m'.takes == m.takes + (if m'.takes > m.takes then 1 else 0)
            && (m'.takes > m.takes ==> a.Advance?)
  {
    P.ApplyKeepsValid(m, a);
  }

  lemma AutoFetchKeepsLinked(s: Sys)
    requires Linked(s) && s.auto.AutoAdd?
    ensures Linked(ApplyAuto(s)) && |ApplyAuto(s).mem.streams| == |s.mem.streams|
  {
    MemoryAfter(s.mem, P.FetchAdd(P.AutomineTask));
  }

  lemma AutoNotifyKeepsLinked(s: Sys)
    requires Linked(s) && s.auto.AutoNotify?
    ensures Linked(ApplyAuto(s)) && |ApplyAuto(s).mem.streams| == |s.mem.streams|
  {
    MemoryAfter(s.mem, P.NotifyOne(P.AutomineTask));
  }

  lemma AutoKeepsLinked(s: Sys)
    requires Linked(s) && Enabled(s, AutoStep)
    ensures Linked(ApplyAuto(s)) && |ApplyAuto(s).mem.streams| == |s.mem.streams|
  {
    match s.auto
    case AutoAdd => AutoFetchKeepsLinked(s);
    case AutoNotify => AutoNotifyKeepsLinked(s);
    case _ =>
  }

  lemma TickFetchKeepsLinked(s: Sys)
    requires Linked(s) && s.tick.TickAdd?
    ensures Linked(ApplyTick(s)) && |ApplyTick(s).mem.streams| == |s.mem.streams|
  {
    MemoryAfter(s.mem, P.FetchAdd(P.IntervalTask));
  }

  lemma TickNotifyKeepsLinked(s: Sys)
    requires Linked(s) && s.tick.TickNotify?
    ensures Linked(ApplyTick(s)) && |ApplyTick(s).mem.streams| == |s.mem.streams|
  {
    MemoryAfter(s.mem, P.NotifyOne(P.IntervalTask));
  }

  lemma TickKeepsLinked(s: Sys)
    requires Linked(s) && Enabled(s, TickStep)
    ensures Linked(ApplyTick(s)) && |ApplyTick(s).mem.streams| == |s.mem.streams|
  {
    match s.tick
    case TickAdd => TickFetchKeepsLinked(s);
    case TickNotify => TickNotifyKeepsLinked(s);
    case _ =>
  }

  lemma RpcFetchKeepsLinked(s: Sys, id: nat)
    requires Linked(s) && id in s.rpcs && s.rpcs[id].RpcAdd?
    ensures Linked(ApplyRpc(s, id)) && |ApplyRpc(s, id).mem.streams| == |s.mem.streams|
  {
    assert RpcOk(s.rpcs[id]) && P.Rpc(id) !in s.mem.between;
    MemoryAfter(s.mem, P.FetchAdd(P.Rpc(id)));
  }

  lemma RpcNotifyKeepsLinked(s: Sys, id: nat)
    requires Linked(s) && id in s.rpcs && s.rpcs[id].RpcNotify?
    ensures Linked(ApplyRpc(s, id)) && |ApplyRpc(s, id).mem.streams| == |s.mem.streams|
  {
    assert RpcOk(s.rpcs[id]) && P.Rpc(id) in s.mem.between;
    MemoryAfter(s.mem, P.NotifyOne(P.Rpc(id)));
  }

  lemma RpcKeepsLinked(s: Sys, id: nat)
    requires Linked(s) && Enabled(s, RpcStep(id))
    ensures Linked(ApplyRpc(s, id)) && |ApplyRpc(s, id).mem.streams| == |s.mem.streams|
  {
    match s.rpcs[id]
    case RpcAdd(_, _) => RpcFetchKeepsLinked(s, id);
    case RpcNotify(_, _) => RpcNotifyKeepsLinked(s, id);
    case _ =>
      assert P.Rpc(id) !in s.mem.between;
      assert ApplyRpc(s, id).mem == s.mem;
  }

  /** The books of a linked state. */
  lemma Balance(s: Sys)
    requires Linked(s)
    ensures s.head + s.making == s.genesis + s.mem.takes
    ensures s.mem.pending < P.USIZE && s.mem.adds == s.mem.takes + s.mem.pending + P.USIZE * s.mem.wraps
  {}

  lemma ApplyKeepsLinked(s: Sys, step: Step)
    requires Linked(s) && Enabled(s, step)
    ensures Linked(Apply(s, step)) && |Apply(s, step).mem.streams| == |s.mem.streams|
  {
    match step
    case StreamCall(i) => MemoryAfter(s.mem, P.Call(i));
    case StreamAdvance(i) => MemoryAfter(s.mem, P.Advance(i));
    case AutoStep => AutoKeepsLinked(s);
    case TickStep => TickKeepsLinked(s);
    case RpcStep(id) => RpcKeepsLinked(s, id);
    case _ =>
  }

  lemma {:induction false} RunIsLinked(a: Sys, states: seq<Sys>, steps: seq<Step>, b: Sys, k: nat)
    requires Run(a, states, steps, b) && k <= |steps|
    ensures Linked(states[k]) && |states[k].mem.streams| == |a.mem.streams| && states[k].genesis == a.genesis
  {
    if k > 0 {
      RunIsLinked(a, states, steps, b, k - 1);
      assert MovesAt(states, steps, k - 1);
      ApplyKeepsLinked(states[k - 1], steps[k - 1]);
      ApplyKeepsGenesis(states[k - 1], steps[k - 1]);
    }
  }

  lemma ApplyKeepsGenesis(s: Sys, step: Step)
    requires Linked(s) && Enabled(s, step)
    ensures Apply(s, step).genesis == s.genesis
  {}
}
