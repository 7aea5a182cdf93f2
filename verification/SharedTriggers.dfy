/**
 `MiningTriggers` and `MiningTriggerStream` of src/mining.rs as objects: shared fields changed in place, the
 two-step `trigger`, and the loop of `poll_next`. Other threads and streams act between any two atomic steps:
 a script says what they attempt at each scheduling point. Every execution is a run of the protocol.
 */
module SharedTriggers {
  import opened Words
  import opened TriggerProtocol
  import opened TriggerTheorems

  class TriggerCell {
    var pending: nat
    var permit: bool
    var queue: seq<nat>
    var streams: seq<Stream>
    /** Where the other threads stand: those about to execute `notify_one`. */
    var between: set<Thread>
    ghost var adds: nat
    ghost var takes: nat
    ghost var wraps: nat

    ghost function View(): Memory
      reads this
    {
      Memory(pending, permit, queue, streams, between, adds, takes, wraps)
    }

    constructor (n: nat)
      ensures View() == Start(n)
    {
      pending, permit, queue, between := 0, false, [], {};
      adds, takes, wraps := 0, 0, 0;
      streams := seq(n, _ => Stream(Idle, Absent, 0));
    }

    // ----- the atomic steps, on the fields

    method FetchAdd(t: Thread)
      requires Valid(View()) && t !in between
      modifies this
      ensures View() == Apply(old(View()), TriggerProtocol.FetchAdd(t))
    {
      if pending + 1 == USIZE {
        pending := 0;
        wraps := wraps + 1;
      } else {
        pending := pending + 1;
      }
      adds := adds + 1;
      between := between + {t};
    }

    method NotifyOne(t: Thread)
      requires Valid(View()) && t in between
      modifies this
      ensures View() == Apply(old(View()), TriggerProtocol.NotifyOne(t))
    {
      if queue == [] {
        permit := true;
      } else {
        SetWaiter(queue[0], Notified);
        queue := queue[1..];
      }
      between := between - {t};
    }

    method SetWaiter(i: nat, w: Waiter)
      requires i < |streams|
      modifies this`streams
      ensures streams == old(streams)[i := old(streams)[i].(waiter := w)]
    {
      streams := streams[i := streams[i].(waiter := w)];
    }

    method Goto(i: nat, pc: Pc)
      requires i < |streams|
      modifies this`streams
      ensures streams == old(streams)[i := old(streams)[i].(pc := pc)]
    {
      streams := streams[i := streams[i].(pc := pc)];
    }

    method BeginCall(i: nat)
      requires Valid(View()) && Enabled(View(), Call(i))
      modifies this
      ensures View() == Apply(old(View()), Call(i))
    {
      streams := streams[i := streams[i].(pc := Load, rounds := 0)];
    }

    method LoadPending(i: nat) returns (observed: nat)
      requires Valid(View()) && i < |streams| && streams[i].pc.Load?
      modifies this
      ensures View() == Apply(old(View()), Advance(i)) && observed == old(pending)
    {
      observed := pending;
      streams := streams[i := streams[i].(rounds := streams[i].rounds + 1)];
      Goto(i, if observed > 0 then Swap(observed) else Arm);
    }

    method CompareExchange(i: nat, expected: nat) returns (ok: bool)
      requires Valid(View()) && i < |streams| && streams[i].pc == Swap(expected)
      modifies this
      ensures View() == Apply(old(View()), Advance(i)) && ok == (old(pending) == expected)
    {
      assert StreamOk(streams[i]);
      ok := pending == expected;
      if ok {
        pending := expected - 1;
        takes := takes + 1;
        Goto(i, Idle);
      } else {
        Goto(i, Load);
      }
    }

    method CreateWaiter(i: nat)
      requires Valid(View()) && i < |streams| && streams[i].pc.Arm?
      modifies this
      ensures View() == Apply(old(View()), Advance(i))
    {
      if streams[i].waiter.Absent? {
        SetWaiter(i, Init);
      }
      Goto(i, Poll);
    }

    method PollStored(i: nat) returns (ready: bool)
      requires Valid(View()) && i < |streams| && streams[i].pc.Poll?
      modifies this
      ensures View() == Apply(old(View()), Advance(i)) && ready == streams[i].pc.Load?
      ensures ready ==> WakeUps(i) < old(WakeUps(i))
      ensures !ready ==> streams[i].waiter.Waiting?
    {
      assert StreamOk(streams[i]);
      if streams[i].waiter.Notified? {
        ready := true;
      } else if streams[i].waiter.Init? && permit {
        permit, ready := false, true;
      } else {
        ready := false;
        if streams[i].waiter.Init? {
          queue := queue + [i];
          SetWaiter(i, Waiting);
        }
      }
      if ready {
        SetWaiter(i, Absent);
        Goto(i, Load);
      } else {
        Goto(i, Parked);
      }
    }

    /** One step of some thread or stream, whichever it stands at. */
    method Do(a: Action)
      requires Valid(View()) && Enabled(View(), a)
      modifies this
      ensures View() == Apply(old(View()), a)
    {
      match a
      case FetchAdd(t) => FetchAdd(t);
      case NotifyOne(t) => NotifyOne(t);
      case Call(j) => BeginCall(j);
      case Advance(j) =>
        match streams[j].pc
        case Load => var _ := LoadPending(j);
        case Swap(seen) => var _ := CompareExchange(j, seen);
        case Arm => CreateWaiter(j);
        case Poll => var _ := PollStored(j);
    }

    // ----- interference

    /** Whether the step is enabled, on the fields. */
    predicate CanDo(a: Action)
      reads this
      ensures CanDo(a) <==> Enabled(View(), a)
    {
      match a
      case FetchAdd(t) => t !in between
      case NotifyOne(t) => t in between
      case Call(j) => j < |streams| && (streams[j].pc.Idle? || streams[j].pc.Parked?)
      case Advance(j) => j < |streams| && !streams[j].pc.Idle? && !streams[j].pc.Parked?
    }

    /** The others act: each attempted step that is enabled and is not stream i's own is executed. */
    method Interfere(i: nat, attempts: seq<Action>, ghost s: Memory, trace: seq<Action>) returns (trace': seq<Action>)
      requires Valid(s) && Run(s, trace) == Some(View()) && i < |streams| && Call(i) !in trace
      modifies this
      ensures trace' == trace + Attempt(old(View()), attempts, i)
      ensures Run(s, trace') == Some(View()) && Valid(View())
      ensures Call(i) !in trace' && |streams| == old(|streams|)
      ensures streams[i].pc == old(streams[i].pc) && streams[i].rounds == old(streams[i].rounds)
    {
      ghost var m := View();
      var done := [];
      assert trace + done == trace;
      for k := 0 to |attempts|
        invariant done == Attempt(m, attempts[..k], i) && Run(m, done) == Some(View())
        invariant Run(s, trace + done) == Some(View()) && Valid(View())
        invariant Call(i) !in trace + done && |streams| == old(|streams|)
        invariant streams[i].pc == old(streams[i].pc) && streams[i].rounds == old(streams[i].rounds)
      {
        assert attempts[..k + 1][..k] == attempts[..k];
        var a := attempts[k];
        if a != Call(i) && a != Advance(i) && CanDo(a) {
          RunSnoc(s, trace + done, a);
          RunSnoc(m, done, a);
          assert trace + done + [a] == trace + (done + [a]);
          ApplyKeepsValid(View(), a);
          OthersLeavePc(View(), a, i);
          Do(a);
          done := done + [a];
        }
      }
      assert attempts[..|attempts|] == attempts;
      trace' := trace + done;
    }

    /** A scheduling point: the next entry of the script, if any, is attempted. */
    method Yield(i: nat, script: seq<seq<Action>>, ghost s: Memory, trace: seq<Action>)
      returns (script': seq<seq<Action>>, trace': seq<Action>)
      requires Valid(s) && Run(s, trace) == Some(View()) && i < |streams| && Call(i) !in trace
      modifies this
      ensures Run(s, trace') == Some(View()) && Valid(View())
      ensures Call(i) !in trace' && |streams| == old(|streams|)
      ensures streams[i].pc == old(streams[i].pc) && streams[i].rounds == old(streams[i].rounds)
      ensures script == [] ==> script' == [] && View() == old(View()) && trace' == trace
      ensures script != [] ==> script' == script[1..] && trace' == trace + Attempt(old(View()), script[0], i)
    {
      script', trace' := script, trace;
      if script != [] {
        trace' := Interfere(i, script[0], s, trace);
        script' := script[1..];
      }
    }

    // ----- the two operations

    /** An uninterrupted `trigger` by thread t. */
    method Trigger(t: Thread)
      requires Valid(View()) && t !in between
      modifies this
      ensures Run(old(View()), [TriggerProtocol.FetchAdd(t), TriggerProtocol.NotifyOne(t)]) == Some(View())
      ensures between == old(between) && adds == old(adds) + 1
    {
      ghost var m, a, b := View(), TriggerProtocol.FetchAdd(t), TriggerProtocol.NotifyOne(t);
      FetchAdd(t);
      ApplyKeepsValid(m, a);
      RunSnoc(m, [], a);
      RunSnoc(m, [a], b);
      assert [] + [a] == [a] && [a] + [b] == [a, b];
      NotifyOne(t);
      assert between == old(between);
    }

    /** One call of `poll_next` by stream i under any script of interference. `trace` lists the atomic steps
        after the call began, its own and the others', and the call is the run of exactly those steps. */
    method PollNext(i: nat, script: seq<seq<Action>>) returns (ready: bool, trace: seq<Action>)
      requires Valid(View()) && Enabled(View(), Call(i))
      modifies this
      ensures Valid(View()) && Valid(Apply(old(View()), Call(i))) && |streams| == old(|streams|)
      ensures Run(Apply(old(View()), Call(i)), trace) == Some(View()) && Call(i) !in trace
      ensures ready ==> streams[i].pc.Idle?
      ensures !ready ==> streams[i].pc.Parked? && streams[i].waiter.Waiting? && !permit
      // the bound on the loop
      ensures streams[i].rounds <= 1 + (if old(permit) then 1 else 0) +
                                   (if old(streams[i].waiter.Notified?) then 1 else 0) + Noise(trace, i)
      // someone stays awake, and streams that have all parked have missed only triggers still in flight
      ensures SomeoneAwake(old(View())) ==> SomeoneAwake(View())
      ensures SomeoneAwake(old(View())) && (forall j :: 0 <= j < |streams| ==> Asleep(View(), j)) ==>
                pending <= |between|
      // left alone it takes a pending trigger at once, and parks when there is none
      ensures script == [] && old(pending) > 0 ==>
                ready && pending == old(pending) - 1 && takes == old(takes) + 1 && permit == old(permit)
      ensures script == [] && old(pending) == 0 ==> !ready && pending == 0 && takes == old(takes)
    {
      ghost var m := View();
      ApplyKeepsValid(m, Call(i));
      BeginCall(i);
      ghost var s := View();
      trace := [];
      var rest, result := script, None;
      while result.None?
        invariant Run(s, trace) == Some(View()) && Valid(View()) && Call(i) !in trace
        invariant |streams| == old(|streams|) && PcAfter(result, i)
        invariant script == [] ==> rest == []
        invariant script == [] && old(pending) > 0 ==>
                    if result.None? then pending == old(pending) && takes == old(takes) && permit == old(permit)
                    else result.value && pending == old(pending) - 1 && takes == old(takes) + 1 && permit == old(permit)
        invariant script == [] && old(pending) == 0 ==> result != Some(true) && pending == 0 && takes == old(takes)
        decreases result.None?, |rest|, WakeUps(i)
      {
        result, rest, trace := Round(i, rest, s, trace);
      }
      ready := result.value;
      PollRoundsBound(m, trace, View(), i);
      if SomeoneAwake(m) {
        ApplyKeepsSomeoneAwake(m, Call(i));
        RunKeepsSomeoneAwake(s, trace, View());
        if forall j :: 0 <= j < |streams| ==> Asleep(View(), j) { AllAsleep(View()); }
      }
    }

    /** The wake-ups stored for stream i. */
    function WakeUps(i: nat): nat
      requires i < |streams|
      reads this
    {
      (if permit then 1 else 0) + (if streams[i].waiter.Notified? then 1 else 0)
    }

    /** Where a round leaves stream i: going round again, or returned Ready (true) or Pending (false). */
    predicate PcAfter(result: Option<bool>, i: nat)
      requires i < |streams|
      reads this
    {
      match result
      case None => streams[i].pc.Load?
      case Some(true) => streams[i].pc.Idle?
      case Some(false) => streams[i].pc.Parked? && streams[i].waiter.Waiting? && !permit
    }

    /** The body of the loop. */
    method Round(i: nat, script: seq<seq<Action>>, ghost s: Memory, trace: seq<Action>)
      returns (result: Option<bool>, rest: seq<seq<Action>>, trace': seq<Action>)
      requires Valid(s) && Run(s, trace) == Some(View()) && Valid(View()) && Call(i) !in trace
      requires i < |streams| && streams[i].pc.Load?
      modifies this
      ensures Run(s, trace') == Some(View()) && Valid(View()) && Call(i) !in trace'
      ensures |streams| == old(|streams|) && PcAfter(result, i)
      ensures |rest| < |script| || rest == script == []
      ensures script == [] && old(pending) > 0 ==>
                result == Some(true) && pending == old(pending) - 1 && takes == old(takes) + 1 && permit == old(permit)
      ensures script == [] && old(pending) == 0 ==>
                result != Some(true) && pending == 0 && takes == old(takes)
                && (result.None? ==> WakeUps(i) < old(WakeUps(i)))
    {
      var observed: nat;
      observed, trace' := OwnLoad(i, s, trace);
      rest, trace' := Yield(i, script, s, trace');
      if observed > 0 {
        result, trace' := OwnSwap(i, observed, s, trace');
      } else {
        result, rest, trace' := PollFuture(i, rest, s, trace');
      }
      if result.None? {
        rest, trace' := Yield(i, rest, s, trace');
      }
    }

    /** The part of a round that has read zero: create the future unless one is stored, and poll it. */
    method PollFuture(i: nat, script: seq<seq<Action>>, ghost s: Memory, trace: seq<Action>)
      returns (result: Option<bool>, rest: seq<seq<Action>>, trace': seq<Action>)
      requires Valid(s) && Run(s, trace) == Some(View()) && Valid(View()) && Call(i) !in trace
      requires i < |streams| && streams[i].pc.Arm?
      modifies this
      ensures Run(s, trace') == Some(View()) && Valid(View()) && Call(i) !in trace'
      ensures |streams| == old(|streams|) && PcAfter(result, i) && result != Some(true)
      ensures |rest| < |script| || rest == script == []
      ensures script == [] ==> pending == old(pending) && takes == old(takes)
                               && (result.None? ==> WakeUps(i) < old(WakeUps(i)))
    {
      trace' := OwnArm(i, s, trace);
      rest, trace' := Yield(i, script, s, trace');
      result, trace' := OwnPoll(i, s, trace');
    }

    // ----- stream i's own steps, noted in the trace

    method OwnLoad(i: nat, ghost s: Memory, trace: seq<Action>) returns (observed: nat, trace': seq<Action>)
      requires Valid(s) && Run(s, trace) == Some(View()) && Call(i) !in trace
      requires i < |streams| && streams[i].pc.Load?
      modifies this
      ensures Run(s, trace') == Some(View()) && Valid(View()) && Call(i) !in trace' && |streams| == old(|streams|)
      ensures observed == old(pending) && streams[i].pc == if observed > 0 then Swap(observed) else Arm
      ensures pending == old(pending) && takes == old(takes) && WakeUps(i) == old(WakeUps(i)) && permit == old(permit)
    {
      trace' := Note(i, s, trace);
      observed := LoadPending(i);
    }

    method OwnSwap(i: nat, expected: nat, ghost s: Memory, trace: seq<Action>)
      returns (result: Option<bool>, trace': seq<Action>)
      requires Valid(s) && Run(s, trace) == Some(View()) && Call(i) !in trace
      requires i < |streams| && streams[i].pc == Swap(expected)
      modifies this
      ensures Run(s, trace') == Some(View()) && Valid(View()) && Call(i) !in trace' && |streams| == old(|streams|)
      ensures result == (if old(pending) == expected then Some(true) else None) && PcAfter(result, i)
      ensures result.Some? ==> pending == old(pending) - 1 && takes == old(takes) + 1 && permit == old(permit)
    {
      trace' := Note(i, s, trace);
      var ok := CompareExchange(i, expected);
      result := if ok then Some(true) else None;
    }

    method OwnArm(i: nat, ghost s: Memory, trace: seq<Action>) returns (trace': seq<Action>)
      requires Valid(s) && Run(s, trace) == Some(View()) && Call(i) !in trace
      requires i < |streams| && streams[i].pc.Arm?
      modifies this
      ensures Run(s, trace') == Some(View()) && Valid(View()) && Call(i) !in trace' && |streams| == old(|streams|)
      ensures streams[i].pc.Poll?
      ensures pending == old(pending) && takes == old(takes) && WakeUps(i) == old(WakeUps(i))
    {
      trace' := Note(i, s, trace);
      CreateWaiter(i);
    }

    method OwnPoll(i: nat, ghost s: Memory, trace: seq<Action>) returns (result: Option<bool>, trace': seq<Action>)
      requires Valid(s) && Run(s, trace) == Some(View()) && Call(i) !in trace
      requires i < |streams| && streams[i].pc.Poll?
      modifies this
      ensures Run(s, trace') == Some(View()) && Valid(View()) && Call(i) !in trace' && |streams| == old(|streams|)
      ensures PcAfter(result, i) && result != Some(true)
      ensures pending == old(pending) && takes == old(takes)
      ensures result.None? ==> WakeUps(i) < old(WakeUps(i))
    {
      trace' := Note(i, s, trace);
      var woken := PollStored(i);
      result := if woken then None else Some(false);
      if !woken {
        AsleepLeavesNoPermit(View(), i);
      }
    }

    /** Notes in the trace that stream i is about to take its own next step. */
    method Note(i: nat, ghost s: Memory, trace: seq<Action>) returns (trace': seq<Action>)
      requires Valid(s) && Run(s, trace) == Some(View()) && Enabled(View(), Advance(i)) && Call(i) !in trace
      ensures trace' == trace + [Advance(i)] && Call(i) !in trace'
      ensures Run(s, trace') == Some(Apply(View(), Advance(i))) && Valid(Apply(View(), Advance(i)))
      ensures |Apply(View(), Advance(i)).streams| == |streams|
    {
      trace' := trace + [Advance(i)];
      RunSnoc(s, trace, Advance(i));
      ApplyKeepsValid(View(), Advance(i));
    }
  }

  /** The attempted steps that are executed: those enabled where they stand and not stream i's own. */
  function Attempt(m: Memory, attempts: seq<Action>, i: nat): (done: seq<Action>)
    requires Valid(m)
    ensures Run(m, done).Some?
  {
    if attempts == [] then []
    else
      var done := Attempt(m, attempts[..|attempts| - 1], i);
      var a := attempts[|attempts| - 1];
      if a != Call(i) && a != Advance(i) && Enabled(Run(m, done).value, a) then
        RunSnoc(m, done, a);
        done + [a]
      else done
  }

  lemma OthersLeavePc(m: Memory, a: Action, i: nat)
    requires Valid(m) && Enabled(m, a) && i < |m.streams| && a != Call(i) && a != Advance(i)
    ensures |Apply(m, a).streams| == |m.streams|
    ensures Apply(m, a).streams[i].pc == m.streams[i].pc && Apply(m, a).streams[i].rounds == m.streams[i].rounds
  {}
}
