/**
 What the trigger protocol guarantees over whole runs: conservation of triggers, nothing missed while all
 streams sleep, no wake-up ever lost exactly when there is at most one stream, and a bound on the poll loop.
 */
module TriggerTheorems {
  import opened Words
  import opened TriggerProtocol

  // ----- conservation, for any number of threads and streams

  /** Every trigger issued is returned once or still pending, up to the width of the counter. */
  lemma Conservation(n: nat, acts: seq<Action>, m: Memory)
    requires Run(Start(n), acts) == Some(m)
    ensures m.takes <= m.adds
    ensures m.pending == (m.adds - m.takes) % USIZE
    ensures m.adds - m.takes < USIZE ==> m.adds == m.takes + m.pending
  {
    BooksOf(m);
  }

  lemma BooksOf(m: Memory)
    requires Valid(m)
    ensures m.takes <= m.adds
    ensures m.pending == (m.adds - m.takes) % USIZE
    ensures m.adds - m.takes < USIZE ==> m.adds == m.takes + m.pending
  {
    Remainder(m.adds - m.takes, m.wraps, m.pending);
  }

  lemma Remainder(x: nat, q: nat, r: nat)
    requires r < USIZE && x == r + USIZE * q
    ensures x % USIZE == r
    ensures x < USIZE ==> x == r
  {}

  /** The decrement of a compare-exchange about to succeed does not underflow, and the future a stream is
      about to poll is there. */
  lemma StepsAreSafe(n: nat, acts: seq<Action>, m: Memory, i: nat)
    requires Run(Start(n), acts) == Some(m) && i < n
    ensures m.streams[i].pc.Swap? && m.pending == m.streams[i].pc.seen ==> m.pending > 0
    ensures m.streams[i].pc.Poll? ==> !m.streams[i].waiter.Absent?
  {
    assert StreamOk(m.streams[i]) by { assert Valid(m); }
  }

  // ----- no lost wake-up, for any number of streams

  /** Stream i will look at the counter again without a further notification. */
  predicate Awake(m: Memory, i: nat)
    requires i < |m.streams|
  {
    var s := m.streams[i];
    s.pc.Idle? || s.pc.Load? || s.pc.Swap? || s.waiter.Notified? || ((s.pc.Arm? || s.pc.Poll?) && m.permit)
  }

  predicate Asleep(m: Memory, i: nat)
    requires i < |m.streams|
  {
    m.streams[i].pc.Parked? && !m.streams[i].waiter.Notified?
  }

  /** Some stream is awake, or every pending trigger has its `notify_one` still to come. */
  ghost predicate SomeoneAwake(m: Memory) {
    (exists i :: 0 <= i < |m.streams| && Awake(m, i)) || m.pending <= |m.between|
  }

  /** Whoever gets the wake-up, its receiver or the first stream on its way to the stored permit is awake. */
  lemma WakeWakesSomeone(m: Memory)
    requires Valid(m) && m.streams != []
    ensures exists i :: 0 <= i < |Wake(m).streams| && Awake(Wake(m), i)
  {
    if m.queue != [] {
      assert Awake(Wake(m), m.queue[0]);
    } else {
      assert StreamOk(m.streams[0]) && !m.streams[0].waiter.Waiting?;
      assert Awake(Wake(m), 0);
    }
  }

  /** A stream's own step: reading zero makes nothing pending, parking needs no wake-up stored for it. */
  lemma AdvanceKeepsSomeoneAwake(m: Memory, j: nat)
    requires Valid(m) && Enabled(m, Advance(j)) && SomeoneAwake(m)
    ensures SomeoneAwake(AdvanceStream(m, j))
  {
    var m' := AdvanceStream(m, j);
    assert StreamOk(m.streams[j]);
    if Awake(m', j) || m'.pending <= |m'.between| {
    } else {
      var i :| 0 <= i < |m.streams| && Awake(m, i);
      assert i != j by { if m.streams[j].waiter.Waiting? { assert j in m.queue; } }
      assert Awake(m', i);
    }
  }

  lemma ApplyKeepsSomeoneAwake(m: Memory, a: Action)
    requires Valid(m) && m.streams != [] && SomeoneAwake(m) && Enabled(m, a)
    ensures SomeoneAwake(Apply(m, a)) && |Apply(m, a).streams| == |m.streams|
  {
    match a
    case FetchAdd(t) =>
      if i :| 0 <= i < |m.streams| && Awake(m, i) { assert Awake(Apply(m, a), i); }
    case NotifyOne(t) =>
      WakeWakesSomeone(m);
      var i :| 0 <= i < |Wake(m).streams| && Awake(Wake(m), i);
      assert Awake(Apply(m, a), i);
    case Call(j) => assert Awake(Apply(m, a), j);
    case Advance(j) =>
      AdvanceKeepsSomeoneAwake(m, j);
      ApplyKeepsValid(m, a);
  }

  lemma {:induction false} RunKeepsSomeoneAwake(m: Memory, acts: seq<Action>, m': Memory)
    requires Valid(m) && m.streams != [] && SomeoneAwake(m) && Run(m, acts) == Some(m')
    ensures SomeoneAwake(m')
  {
    if acts != [] {
      var front := acts[..|acts| - 1];
      RunKeepsSomeoneAwake(m, front, Run(m, front).value);
      ApplyKeepsSomeoneAwake(Run(m, front).value, acts[|acts| - 1]);
    }
  }

  lemma StartedSomeoneAwake(n: nat, acts: seq<Action>, m: Memory)
    requires n >= 1 && Run(Start(n), acts) == Some(m)
    ensures Valid(m) && |m.streams| == n && SomeoneAwake(m)
  {
    assert Awake(Start(n), 0);
    RunKeepsSomeoneAwake(Start(n), acts, m);
  }

  /** A sleeping stream is registered, so no permit is stored. */
  lemma AsleepLeavesNoPermit(m: Memory, i: nat)
    requires Valid(m) && i < |m.streams| && Asleep(m, i)
    ensures m.streams[i].waiter.Waiting? && !m.permit
  {
    assert StreamOk(m.streams[i]);
    assert i in m.queue;
  }

  /** When all streams sleep, no permit is stored and only triggers still in flight are pending. */
  lemma AllAsleep(m: Memory)
    requires Valid(m) && m.streams != [] && SomeoneAwake(m)
    requires forall i :: 0 <= i < |m.streams| ==> Asleep(m, i)
    ensures !m.permit && m.pending <= |m.between|
  {
    AsleepLeavesNoPermit(m, 0);
    forall i | 0 <= i < |m.streams| ensures !Awake(m, i) { assert Asleep(m, i); }
  }

  /** In every interleaving of any number n >= 1 of streams: while all of them are parked and un-notified, no
      permit is stored and the pending triggers are at most those whose `notify_one` is still to come; so
      with none in flight there is nothing to take. With n == 1 this is about the one parked stream. */
  lemma NoLostTrigger(n: nat, acts: seq<Action>, m: Memory)
    requires n >= 1 && Run(Start(n), acts) == Some(m)
    requires forall i :: 0 <= i < n ==> Asleep(m, i)
    ensures !m.permit
    ensures m.pending <= |m.between|
    ensures m.between == {} ==> m.pending == 0
  {
    StartedSomeoneAwake(n, acts, m);
    AllAsleep(m);
  }

  // ----- a stream asleep beside others that have returned

  /** A trigger is pending and none is in flight, no permit is stored, and every stream sleeps un-notified or
      has returned from its call, at least one of them sleeping: nothing under way will look at the counter. */
  ghost predicate Loses(m: Memory) {
    && m.pending > 0 && m.between == {} && !m.permit
    && (forall i :: 0 <= i < |m.streams| ==> Asleep(m, i) || m.streams[i].pc.Idle?)
    && exists i :: 0 <= i < |m.streams| && Asleep(m, i)
  }

  ghost predicate SafeRun(n: nat, acts: seq<Action>) {
    match Run(Start(n), acts)
    case None => true
    case Some(m) => !Loses(m)
  }

  /** Extends a run by one enabled action. */
  lemma Push(s: Memory, acts: seq<Action>, m: Memory, a: Action) returns (acts': seq<Action>, m': Memory)
    requires Valid(s) && Run(s, acts) == Some(m) && Enabled(m, a)
    ensures Run(s, acts') == Some(m') && Valid(m') && m' == Apply(m, a)
  {
    acts' := acts + [a];
    RunSnoc(s, acts, a);
    m' := Apply(m, a);
  }

  // single steps of stream i, in a run

  lemma Calls(s: Memory, acts: seq<Action>, m: Memory, i: nat) returns (acts': seq<Action>, m': Memory)
    requires Valid(s) && Run(s, acts) == Some(m) && Enabled(m, Call(i))
    ensures Run(s, acts') == Some(m') && Valid(m')
    ensures m' == m.(streams := m.streams[i := Stream(Load, m.streams[i].waiter, 0)])
  {
    acts', m' := Push(s, acts, m, Call(i));
  }

  lemma ReadsZero(s: Memory, acts: seq<Action>, m: Memory, i: nat) returns (acts': seq<Action>, m': Memory)
    requires Valid(s) && Run(s, acts) == Some(m) && i < |m.streams| && m.streams[i].pc.Load? && m.pending == 0
    ensures Run(s, acts') == Some(m') && Valid(m')
    ensures m' == m.(streams := m.streams[i := Stream(Arm, m.streams[i].waiter, m.streams[i].rounds + 1)])
  {
    acts', m' := Push(s, acts, m, Advance(i));
  }

  lemma ReadsSome(s: Memory, acts: seq<Action>, m: Memory, i: nat) returns (acts': seq<Action>, m': Memory)
    requires Valid(s) && Run(s, acts) == Some(m) && i < |m.streams| && m.streams[i].pc.Load? && m.pending > 0
    ensures Run(s, acts') == Some(m') && Valid(m')
    ensures m' == m.(streams := m.streams[i := Stream(Swap(m.pending), m.streams[i].waiter, m.streams[i].rounds + 1)])
  {
    acts', m' := Push(s, acts, m, Advance(i));
  }

  lemma TakesOne(s: Memory, acts: seq<Action>, m: Memory, i: nat) returns (acts': seq<Action>, m': Memory)
    requires Valid(s) && Run(s, acts) == Some(m)
    requires i < |m.streams| && m.streams[i].pc == Swap(m.pending) && m.pending > 0
    ensures Run(s, acts') == Some(m') && Valid(m')
    ensures m' == m.(pending := m.pending - 1, takes := m.takes + 1,
                     streams := m.streams[i := Stream(Idle, m.streams[i].waiter, m.streams[i].rounds)])
  {
    acts', m' := Push(s, acts, m, Advance(i));
  }

  lemma MakesFuture(s: Memory, acts: seq<Action>, m: Memory, i: nat) returns (acts': seq<Action>, m': Memory)
    requires Valid(s) && Run(s, acts) == Some(m)
    requires i < |m.streams| && m.streams[i].pc.Arm? && m.streams[i].waiter.Absent?
    ensures Run(s, acts') == Some(m') && Valid(m')
    ensures m' == m.(streams := m.streams[i := Stream(Poll, Init, m.streams[i].rounds)])
  {
    acts', m' := Push(s, acts, m, Advance(i));
  }

  lemma KeepsFuture(s: Memory, acts: seq<Action>, m: Memory, i: nat) returns (acts': seq<Action>, m': Memory)
    requires Valid(s) && Run(s, acts) == Some(m)
    requires i < |m.streams| && m.streams[i].pc.Arm? && m.streams[i].waiter.Notified?
    ensures Run(s, acts') == Some(m') && Valid(m')
    ensures m' == m.(streams := m.streams[i := Stream(Poll, Notified, m.streams[i].rounds)])
  {
    acts', m' := Push(s, acts, m, Advance(i));
  }

  lemma Parks(s: Memory, acts: seq<Action>, m: Memory, i: nat) returns (acts': seq<Action>, m': Memory)
    requires Valid(s) && Run(s, acts) == Some(m)
    requires i < |m.streams| && m.streams[i] == Stream(Poll, Init, m.streams[i].rounds) && !m.permit
    ensures Run(s, acts') == Some(m') && Valid(m')
    ensures m' == m.(queue := m.queue + [i], streams := m.streams[i := Stream(Parked, Waiting, m.streams[i].rounds)])
  {
    acts', m' := Push(s, acts, m, Advance(i));
  }

  lemma DropsFuture(s: Memory, acts: seq<Action>, m: Memory, i: nat) returns (acts': seq<Action>, m': Memory)
    requires Valid(s) && Run(s, acts) == Some(m)
    requires i < |m.streams| && m.streams[i] == Stream(Poll, Notified, m.streams[i].rounds)
    ensures Run(s, acts') == Some(m') && Valid(m')
    ensures m' == m.(streams := m.streams[i := Stream(Load, Absent, m.streams[i].rounds)])
  {
    acts', m' := Push(s, acts, m, Advance(i));
  }

  // whole calls

  /** With nothing pending and no permit, a call of a stream without a future parks it at the queue's end. */
  lemma Park(s: Memory, acts: seq<Action>, m: Memory, i: nat) returns (acts': seq<Action>, m': Memory)
    requires Valid(s) && Run(s, acts) == Some(m) && Enabled(m, Call(i))
    requires m.pending == 0 && !m.permit && m.streams[i].waiter.Absent?
    ensures Run(s, acts') == Some(m') && Valid(m')
    ensures m' == m.(queue := m.queue + [i], streams := m.streams[i := Stream(Parked, Waiting, 1)])
  {
    acts', m' := Calls(s, acts, m, i);
    acts', m' := ReadsZero(s, acts', m', i);
    acts', m' := MakesFuture(s, acts', m', i);
    acts', m' := Parks(s, acts', m', i);
    assert m'.streams == m.streams[i := Stream(Parked, Waiting, 1)];
  }

  /** A notified stream with nothing pending drops its future, goes round once more and parks again. */
  lemma Repark(s: Memory, acts: seq<Action>, m: Memory, i: nat) returns (acts': seq<Action>, m': Memory)
    requires Valid(s) && Run(s, acts) == Some(m) && Enabled(m, Call(i))
    requires m.pending == 0 && !m.permit && m.streams[i].waiter.Notified?
    ensures Run(s, acts') == Some(m') && Valid(m')
    ensures m' == m.(queue := m.queue + [i], streams := m.streams[i := Stream(Parked, Waiting, 2)])
  {
    acts', m' := Calls(s, acts, m, i);
    acts', m' := ReadsZero(s, acts', m', i);
    acts', m' := KeepsFuture(s, acts', m', i);
    acts', m' := DropsFuture(s, acts', m', i);
    acts', m' := ReadsZero(s, acts', m', i);
    acts', m' := MakesFuture(s, acts', m', i);
    acts', m' := Parks(s, acts', m', i);
    assert m'.streams == m.streams[i := Stream(Parked, Waiting, 2)];
  }

  /** With a trigger pending, an uninterrupted call takes it at once and keeps any registered future. */
  lemma Take(s: Memory, acts: seq<Action>, m: Memory, i: nat) returns (acts': seq<Action>, m': Memory)
    requires Valid(s) && Run(s, acts) == Some(m) && Valid(m) && Enabled(m, Call(i)) && m.pending > 0
    ensures Run(s, acts') == Some(m') && Valid(m')
    ensures m' == m.(pending := m.pending - 1, takes := m.takes + 1,
                     streams := m.streams[i := Stream(Idle, m.streams[i].waiter, 1)])
  {
    acts', m' := Calls(s, acts, m, i);
    acts', m' := ReadsSome(s, acts', m', i);
    acts', m' := TakesOne(s, acts', m', i);
    assert m'.streams == m.streams[i := Stream(Idle, m.streams[i].waiter, 1)];
  }

  /** The streams of Start(n) with the first two as given. */
  function FirstTwo(n: nat, s0: Stream, s1: Stream): seq<Stream>
    requires n >= 2
  {
    Start(n).streams[0 := s0][1 := s1]
  }

  /** Streams 1 and 0 park, in that order. */
  lemma BothPark(n: nat) returns (acts: seq<Action>, m: Memory)
    requires n >= 2
    ensures Run(Start(n), acts) == Some(m) && Valid(m)
    ensures m == Memory(0, false, [1, 0],
                        FirstTwo(n, Stream(Parked, Waiting, 1), Stream(Parked, Waiting, 1)), {}, 0, 0, 0)
  {
    var s := Start(n);
    acts, m := Park(s, [], s, 1);
    acts, m := Park(s, acts, m, 0);
    assert m.queue == [1, 0];
    assert m.streams == FirstTwo(n, Stream(Parked, Waiting, 1), Stream(Parked, Waiting, 1));
  }

  /** Stream 0 takes a trigger, still in flight, although its own future is registered. */
  lemma TakeWhileRegistered(n: nat, t: Thread) returns (acts: seq<Action>, m: Memory)
    requires n >= 2
    ensures Run(Start(n), acts) == Some(m) && Valid(m)
    ensures m == Memory(0, false, [1, 0],
                        FirstTwo(n, Stream(Idle, Waiting, 1), Stream(Parked, Waiting, 1)), {t}, 1, 1, 0)
  {
    acts, m := BothPark(n);
    acts, m := Push(Start(n), acts, m, FetchAdd(t));
    acts, m := Take(Start(n), acts, m, 0);
    assert m.streams == FirstTwo(n, Stream(Idle, Waiting, 1), Stream(Parked, Waiting, 1));
  }

  /** The wake-up for that trigger goes to stream 1, which finds nothing and parks again. */
  lemma WakeTheOther(n: nat, t: Thread) returns (acts: seq<Action>, m: Memory)
    requires n >= 2
    ensures Run(Start(n), acts) == Some(m) && Valid(m)
    ensures m == Memory(0, false, [0, 1],
                        FirstTwo(n, Stream(Idle, Waiting, 1), Stream(Parked, Waiting, 2)), {}, 1, 1, 0)
  {
    acts, m := TakeWhileRegistered(n, t);
    acts, m := Push(Start(n), acts, m, NotifyOne(t));
    assert m.queue == [0] && m.between == {};
    acts, m := Repark(Start(n), acts, m, 1);
    assert m.queue == [0, 1];
    assert m.streams == FirstTwo(n, Stream(Idle, Waiting, 1), Stream(Parked, Waiting, 2));
  }

  /** With two or more streams the future stream 0 left registered when it returned absorbs the next wake-up:
      stream 1 sleeps on beside the only outstanding trigger, and nothing else is inside a call. */
  lemma SeveralStreamsCanLoseAWakeUp(n: nat) returns (acts: seq<Action>, m: Memory)
    requires n >= 2
    ensures Run(Start(n), acts) == Some(m) && Loses(m)
    ensures m.streams[0].pc.Idle? && m.streams[0].waiter.Notified? && Asleep(m, 1)
    ensures m.pending == 1 && m.adds == 2 && m.takes == 1
  {
    acts, m := WakeTheOther(n, IntervalTask);
    acts, m := Push(Start(n), acts, m, FetchAdd(IntervalTask));
    acts, m := Push(Start(n), acts, m, NotifyOne(IntervalTask));
    assert m.between == {} && Asleep(m, 1);
    assert m.streams == FirstTwo(n, Stream(Idle, Notified, 1), Stream(Parked, Waiting, 2));
  }

  /** Some stream sleeps beside a pending trigger that is not in flight, whatever the others do. */
  ghost predicate SleepsThrough(m: Memory) {
    m.pending > 0 && m.between == {} && exists i :: 0 <= i < |m.streams| && Asleep(m, i)
  }

  /** At most one stream never sleeps through a trigger: alone, it is all of them. */
  lemma LoneStreamSleepsThroughNothing(m: Memory)
    requires Valid(m) && |m.streams| <= 1 && (m.streams != [] ==> SomeoneAwake(m))
    ensures !SleepsThrough(m)
  {
    if |m.streams| == 1 && Asleep(m, 0) { AllAsleep(m); }
  }

  lemma OneStreamSleepsThroughNothing(n: nat, acts: seq<Action>, m: Memory)
    requires n <= 1 && Run(Start(n), acts) == Some(m)
    ensures !SleepsThrough(m)
  {
    if n == 1 { StartedSomeoneAwake(n, acts, m); }
    LoneStreamSleepsThroughNothing(m);
  }

  /** Every run of n streams is free of a lost wake-up if and only if there is at most one stream. */
  lemma WakeUpsAreSafeExactly(n: nat)
    ensures (forall acts :: SafeRun(n, acts)) <==> n <= 1
  {
    if n <= 1 {
      forall acts, m | Run(Start(n), acts) == Some(m) ensures !Loses(m) {
        OneStreamSleepsThroughNothing(n, acts, m);
      }
    } else {
      var acts, m := SeveralStreamsCanLoseAWakeUp(n);
      assert !SafeRun(n, acts);
    }
  }

  // ----- the poll loop

  /** Actions of anyone else that can send stream i round its loop again. */
  function Noise(acts: seq<Action>, i: nat): nat {
    if acts == [] then 0
    else
      Noise(acts[..|acts| - 1], i) +
      match acts[|acts| - 1]
      case FetchAdd(_) => 1
      case NotifyOne(_) => 1
      case Call(_) => 0
      case Advance(j) => if j == i then 0 else 1
  }

  /** The rounds stream i can still be sent on by what memory already holds. */
  function Credit(m: Memory, i: nat): nat
    requires i < |m.streams|
  {
    var s := m.streams[i];
    (if m.permit then 1 else 0) + (if s.waiter.Notified? then 1 else 0) +
    (if s.pc.Load? then 1 else 0) + (if s.pc.Swap? && s.pc.seen != m.pending then 1 else 0)
  }

  lemma WakeAddsOneCredit(m: Memory, i: nat)
    requires Valid(m) && i < |m.streams|
    ensures |Wake(m).streams| == |m.streams|
    ensures Wake(m).streams[i].rounds == m.streams[i].rounds
    ensures Credit(Wake(m), i) <= Credit(m, i) + 1
  {}

  lemma AdvanceSpendsCredit(m: Memory, j: nat, i: nat)
    requires Valid(m) && Enabled(m, Advance(j)) && i < |m.streams|
    ensures |AdvanceStream(m, j).streams| == |m.streams|
    ensures AdvanceStream(m, j).streams[i].rounds + Credit(AdvanceStream(m, j), i) <=
            m.streams[i].rounds + Credit(m, i) + (if i == j then 0 else 1)
  {
    assert StreamOk(m.streams[j]);
  }

  lemma ApplySpendsCredit(m: Memory, a: Action, i: nat)
    requires Valid(m) && Enabled(m, a) && i < |m.streams| && a != Call(i)
    ensures |Apply(m, a).streams| == |m.streams|
    ensures Apply(m, a).streams[i].rounds + Credit(Apply(m, a), i) <=
            m.streams[i].rounds + Credit(m, i) + Noise([a], i)
  {
    assert Noise([], i) == 0 && [a][..0] == [];
    match a
    case NotifyOne(t) => WakeAddsOneCredit(m, i);
    case Advance(j) => AdvanceSpendsCredit(m, j, i);
    case Call(j) =>
    case FetchAdd(t) =>
  }

  lemma {:induction false} RunSpendsCredit(m: Memory, acts: seq<Action>, m': Memory, i: nat)
    requires Valid(m) && i < |m.streams| && Run(m, acts) == Some(m') && Call(i) !in acts
    ensures m'.streams[i].rounds + Credit(m', i) <= m.streams[i].rounds + Credit(m, i) + Noise(acts, i)
  {
    if acts != [] {
      var front, a := acts[..|acts| - 1], acts[|acts| - 1];
      var p := Run(m, front).value;
      RunSpendsCredit(m, front, p, i);
      ApplySpendsCredit(p, a, i);
      assert Noise([a], i) == Noise(acts, i) - Noise(front, i) by { assert [a][..0] == []; }
    }
  }

  /** One call of `poll_next` begins at most one round more than the wake-ups stored at its start plus the
      steps of others during it; without interference that is at most three rounds. */
  lemma PollRoundsBound(m: Memory, acts: seq<Action>, m': Memory, i: nat)
    requires Valid(m) && Enabled(m, Call(i)) && Valid(Apply(m, Call(i)))
    requires Run(Apply(m, Call(i)), acts) == Some(m') && Call(i) !in acts
    ensures m'.streams[i].rounds <=
            1 + (if m.permit then 1 else 0) + (if m.streams[i].waiter.Notified? then 1 else 0) + Noise(acts, i)
    ensures Noise(acts, i) == 0 ==> m'.streams[i].rounds <= 3
  {
    RunSpendsCredit(Apply(m, Call(i)), acts, m', i);
  }
}
