/**
 The trigger protocol of src/mining.rs: any number of threads run `trigger` (a `fetch_add` followed, in a
 separate atomic step, by `notify_one`) while any number of streams run the load / compare-exchange / park
 loop of `poll_next`. A run is a sequence of atomic actions, so every interleaving is a run.

 Tokio's `Notify` is a trusted primitive: one stored permit, a first-in first-out queue of registered
 waiters, and `notify_one` hands its wake-up to the first registered waiter or else stores the permit.
 */
module TriggerProtocol {
  import opened Words

  /** `AtomicUsize` wraps; the node is built for 64-bit targets. */
  const USIZE: nat := 0x1_0000_0000_0000_0000

  datatype Thread = AutomineTask | IntervalTask | Rpc(id: nat)

  /** The future a stream keeps in its `notified` field. */
  datatype Waiter = Absent | Init | Waiting | Notified

  /** Where a stream is: outside a call (`Idle` after Ready, `Parked` after Pending) or at an atomic step. */
  datatype Pc = Idle | Load | Swap(seen: nat) | Arm | Poll | Parked

  /** `rounds` is history: the loop iterations begun by the current or latest call. */
  datatype Stream = Stream(pc: Pc, waiter: Waiter, rounds: nat)

  /** Shared memory. `between` holds the threads after `fetch_add` and before `notify_one`; the rest is
      history: `fetch_add`s executed, Ready(Some) results returned, and wrap-arounds of `pending`. */
  datatype Memory = Memory(
    pending: nat, permit: bool, queue: seq<nat>, streams: seq<Stream>,
    between: set<Thread>, adds: nat, takes: nat, wraps: nat)

  datatype Action = FetchAdd(thread: Thread) | NotifyOne(thread: Thread) | Call(id: nat) | Advance(id: nat)

  // ----- the atomic steps

  function Start(n: nat): Memory {
    Memory(0, false, [], seq(n, _ => Stream(Idle, Absent, 0)), {}, 0, 0, 0)
  }

  predicate Enabled(m: Memory, a: Action) {
    match a
    case FetchAdd(t) => t !in m.between
    case NotifyOne(t) => t in m.between
    case Call(i) => i < |m.streams| && (m.streams[i].pc.Idle? || m.streams[i].pc.Parked?)
    case Advance(i) => i < |m.streams| && !m.streams[i].pc.Idle? && !m.streams[i].pc.Parked?
  }

  function Apply(m: Memory, a: Action): Memory
    requires Valid(m) && Enabled(m, a)
  {
    match a
    case FetchAdd(t) =>
      var added := m.(adds := m.adds + 1, between := m.between + {t});
      if m.pending + 1 == USIZE then added.(pending := 0, wraps := m.wraps + 1)
      else added.(pending := m.pending + 1)
    case NotifyOne(t) => Wake(m).(between := m.between - {t})
    case Call(i) => m.(streams := m.streams[i := m.streams[i].(pc := Load, rounds := 0)])
    case Advance(i) => AdvanceStream(m, i)
  }

  function Wake(m: Memory): Memory
    requires Valid(m)
  {
    if m.queue == [] then m.(permit := true)
    else
      var w := m.queue[0];
      m.(queue := m.queue[1..], streams := m.streams[w := m.streams[w].(waiter := Notified)])
  }

  /** One atomic step of `poll_next`. A call of the compare-exchange never fails spuriously. */
  function AdvanceStream(m: Memory, i: nat): Memory
    requires Valid(m) && Enabled(m, Advance(i))
  {
    var s := m.streams[i];
    match s.pc
    case Load =>
      var next := if m.pending > 0 then Swap(m.pending) else Arm;
      m.(streams := m.streams[i := s.(pc := next, rounds := s.rounds + 1)])
    case Swap(seen) =>
      if m.pending == seen then
        m.(pending := seen - 1, takes := m.takes + 1, streams := m.streams[i := s.(pc := Idle)])
      else
        m.(streams := m.streams[i := s.(pc := Load)])
    case Arm =>
      m.(streams := m.streams[i := s.(pc := Poll, waiter := if s.waiter.Absent? then Init else s.waiter)])
    case Poll => PollWaiter(m, i)
    case Idle => m
    case Parked => m
  }

  /** Polling the stored future: ready consumes the permit or the hand-over and drops the future. */
  function PollWaiter(m: Memory, i: nat): Memory
    requires Valid(m) && i < |m.streams| && m.streams[i].pc.Poll?
  {
    var s := m.streams[i];
    if s.waiter.Notified? then
      m.(streams := m.streams[i := s.(pc := Load, waiter := Absent)])
    else if s.waiter.Init? && m.permit then
      m.(permit := false, streams := m.streams[i := s.(pc := Load, waiter := Absent)])
    else if s.waiter.Init? then
      m.(queue := m.queue + [i], streams := m.streams[i := s.(pc := Parked, waiter := Waiting)])
    else
      m.(streams := m.streams[i := s.(pc := Parked)])
  }

  // ----- runs

  /** The state after the actions, or None when one of them is not enabled where it stands. */
  function Run(m: Memory, acts: seq<Action>): (r: Option<Memory>)
    requires Valid(m)
    ensures r.Some? ==> Valid(r.value) && |r.value.streams| == |m.streams|
  {
    if acts == [] then Some(m)
    else
      match Run(m, acts[..|acts| - 1])
      case None => None
      case Some(p) =>
        var a := acts[|acts| - 1];
        if Enabled(p, a) then
          ApplyKeepsValid(p, a);
          Some(Apply(p, a))
        else None
  }

  lemma RunSnoc(m: Memory, acts: seq<Action>, a: Action)
    requires Valid(m)
    ensures Run(m, acts + [a]) ==
            match Run(m, acts)
            case None => None
            case Some(p) => if Enabled(p, a) then Some(Apply(p, a)) else None
  {
    assert (acts + [a])[..|acts|] == acts;
  }

  // ----- what every step keeps, for any number of streams

  predicate StreamOk(s: Stream) {
    && (s.pc.Parked? ==> s.waiter.Waiting? || s.waiter.Notified?)
    && (s.waiter.Init? ==> s.pc.Poll?)
    && (s.pc.Poll? ==> !s.waiter.Absent?)
    && (s.pc.Swap? ==> 0 < s.pc.seen)
  }

  ghost predicate QueueOk(m: Memory) {
    && (forall k :: 0 <= k < |m.queue| ==> m.queue[k] < |m.streams| && m.streams[m.queue[k]].waiter.Waiting?)
    && (forall i :: 0 <= i < |m.streams| && m.streams[i].waiter.Waiting? ==> i in m.queue)
    && (forall j, k :: 0 <= j < k < |m.queue| ==> m.queue[j] != m.queue[k])
    && (m.permit ==> m.queue == [])
  }

  ghost predicate Counted(m: Memory) {
    && m.pending < USIZE
    && m.adds == m.takes + m.pending + USIZE * m.wraps
  }

  ghost predicate Valid(m: Memory) {
    && QueueOk(m)
    && Counted(m)
    && forall i :: 0 <= i < |m.streams| ==> StreamOk(m.streams[i])
  }

  lemma WakeKeepsQueue(m: Memory)
    requires Valid(m)
    ensures QueueOk(Wake(m))
  {
    var m' := Wake(m);
    if m.queue != [] {
      forall i | 0 <= i < |m'.streams| && m'.streams[i].waiter.Waiting?
        ensures i in m'.queue
      {
        var k :| 0 <= k < |m.queue| && m.queue[k] == i;
        assert m'.queue[k - 1] == i;
      }
    }
  }

  lemma ParkKeepsQueue(m: Memory, i: nat)
    requires Valid(m) && i < |m.streams| && m.streams[i].pc.Poll?
    ensures QueueOk(PollWaiter(m, i))
  {
    var m' := PollWaiter(m, i);
    var s := m.streams[i];
    if s.waiter.Init? && !m.permit {
      assert m'.queue[|m.queue|] == i;
      forall j | 0 <= j < |m'.streams| && m'.streams[j].waiter.Waiting?
        ensures j in m'.queue
      {
        if j != i { assert j in m.queue; }
      }
    }
  }

  /** A step that leaves the queue, the permit and who is waiting alone keeps the queue invariant. */
  lemma SameWaitersKeepQueue(m: Memory, m': Memory)
    requires QueueOk(m) && m'.queue == m.queue && m'.permit == m.permit && |m'.streams| == |m.streams|
    requires forall i :: 0 <= i < |m.streams| ==> (m'.streams[i].waiter.Waiting? <==> m.streams[i].waiter.Waiting?)
    ensures QueueOk(m')
  {}

  lemma ApplyKeepsQueue(m: Memory, a: Action)
    requires Valid(m) && Enabled(m, a)
    ensures QueueOk(Apply(m, a)) && |Apply(m, a).streams| == |m.streams|
  {
    match a
    case NotifyOne(t) => WakeKeepsQueue(m);
    case Advance(i) =>
      if m.streams[i].pc.Poll? {
        ParkKeepsQueue(m, i);
      } else {
        SameWaitersKeepQueue(m, Apply(m, a));
      }
    case Call(i) => SameWaitersKeepQueue(m, Apply(m, a));
    case FetchAdd(t) =>
  }

  lemma ApplyKeepsCount(m: Memory, a: Action)
    requires Valid(m) && Enabled(m, a)
    ensures Counted(Apply(m, a))
  {}

  lemma ApplyKeepsStreams(m: Memory, a: Action)
    requires Valid(m) && Enabled(m, a)
    ensures var m' := Apply(m, a);
            forall i :: 0 <= i < |m'.streams| ==> StreamOk(m'.streams[i])
  {
    var m' := Apply(m, a);
    forall i | 0 <= i < |m'.streams| ensures StreamOk(m'.streams[i]) {
      assert StreamOk(m.streams[i]);
    }
  }

  lemma ApplyKeepsValid(m: Memory, a: Action)
    requires Valid(m) && Enabled(m, a)
    ensures Valid(Apply(m, a)) && |Apply(m, a).streams| == |m.streams|
  {
    ApplyKeepsQueue(m, a);
    ApplyKeepsCount(m, a);
    ApplyKeepsStreams(m, a);
  }
}
