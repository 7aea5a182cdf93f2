/**
 The block clock of src/time.rs. `Clock` is the state behind the locks; each public method is one step on it,
 at a wall-clock reading `now` in whole seconds that the caller supplies.
 */
module BlockClock {
  import opened Words

  datatype Clock = Clock(offset: i128, last: u64, exact: Option<u64>, interval: Option<u64>)

  // ----- the steps

  function AfterReset(c: Clock, start: u64, now: u64): Clock {
    c.(last := start, offset := start - now, exact := None)
  }

  function AfterIncrease(c: Clock, seconds: u64): Clock {
    c.(offset := SatI128(c.offset + seconds))
  }

  /** What the clock proposes when no exact time is pending; the cast of a wide value keeps its low 64 bits. */
  function Proposal(c: Clock, now: u64): u64 {
    match c.interval
    case Some(i) => SatU64(c.last + i)
    case None => (SatI128(now + c.offset) % TWO_64) as u64
  }

  /** `compute_next_timestamp`, the timestamp. */
  function NextStamp(c: Clock, now: u64): u64 {
    match c.exact
    case Some(e) => if e < c.last then SatU64(c.last + 1) else e
    case None => if Proposal(c, now) <= c.last then SatU64(c.last + 1) else Proposal(c, now)
  }

  /** `next_timestamp`, the state it leaves. */
  function AfterBlock(c: Clock, now: u64): Clock {
    var next := NextStamp(c, now);
    Clock(if c.exact.Some? then next - now else c.offset, next, None, c.interval)
  }

  class TimeManager {
    var offset: i128
    var lastTimestamp: u64
    var nextExactTimestamp: Option<u64>
    var interval: Option<u64>

    function View(): Clock
      reads this
    {
      Clock(offset, lastTimestamp, nextExactTimestamp, interval)
    }

    constructor (start: u64, now: u64)
      ensures View() == AfterReset(Clock(0, 0, None, None), start, now)
      ensures offset == start - now && lastTimestamp == start
      ensures nextExactTimestamp == None && interval == None
    {
      offset, lastTimestamp, nextExactTimestamp, interval := start - now, start, None, None;
    }

    method Reset(start: u64, now: u64)
      modifies this
      ensures View() == AfterReset(old(View()), start, now)
      ensures offset == start - now && lastTimestamp == start
      ensures nextExactTimestamp == None && interval == old(interval)
    {
      lastTimestamp := start;
      offset := start - now;
      nextExactTimestamp := None;
    }

    method IncreaseTime(seconds: u64) returns (total: i128)
      modifies this`offset
      ensures View() == AfterIncrease(old(View()), seconds)
      ensures total == offset == Min(old(offset) + seconds, I128_MAX)
    {
      offset := SatI128(offset + seconds);
      total := offset;
    }

    method SetNextBlockTimestamp(timestamp: u64) returns (ok: bool)
      modifies this`nextExactTimestamp
      ensures ok <==> old(lastTimestamp) <= timestamp
      ensures View() == if ok then old(View()).(exact := Some(timestamp)) else old(View())
    {
      if timestamp < lastTimestamp {
        return false;
      }
      nextExactTimestamp := Some(timestamp);
      return true;
    }

    method SetBlockTimestampInterval(seconds: u64)
      modifies this`interval
      ensures View() == old(View()).(interval := Some(seconds))
    {
      interval := Some(seconds);
    }

    method RemoveBlockTimestampInterval() returns (removed: bool)
      modifies this`interval
      ensures View() == old(View()).(interval := None) && removed == old(interval).Some?
    {
      removed := interval.Some?;
      interval := None;
    }

    method ComputeNextTimestamp(now: u64) returns (next: u64, nextOffset: Option<i128>)
      ensures next == NextStamp(View(), now)
      ensures nextOffset == if nextExactTimestamp.Some? then Some(next - now) else None
    {
      var exact := false;
      if nextExactTimestamp.Some? {
        next, exact := nextExactTimestamp.value, true;
      } else if interval.Some? {
        next := SatU64(lastTimestamp + interval.value);
      } else {
        next := SatI128(now + offset) % TWO_64;
      }
      if exact {
        if next < lastTimestamp {
          next := SatU64(lastTimestamp + 1);
        }
      } else if next <= lastTimestamp {
        next := SatU64(lastTimestamp + 1);
      }
      nextOffset := if exact then Some(next - now) else None;
    }

    method NextTimestamp(now: u64) returns (next: u64)
      modifies this
      ensures next == NextStamp(old(View()), now) && View() == AfterBlock(old(View()), now)
    {
      var nextOffset;
      next, nextOffset := ComputeNextTimestamp(now);
      nextExactTimestamp := None;
      if nextOffset.Some? {
        offset := nextOffset.value;
      }
      lastTimestamp := next;
    }

    /** `anvil_set_time`: millisecond inputs are scaled down; the reply is how far the clock moved forward. */
    method SetTime(timestamp: u64, now: u64, later: u64) returns (forward: u64)
      modifies this
      ensures View() == AfterReset(old(View()), Normalized(timestamp), later)
      ensures lastTimestamp == Normalized(timestamp)
      ensures forward == Max(0, Normalized(timestamp) - NextStamp(old(View()), now))
    {
      var seconds := Normalized(timestamp);
      var current, _ := ComputeNextTimestamp(now);
      Reset(seconds, later);
      forward := if seconds < current then 0 else seconds - current;
    }
  }

  function Normalized(timestamp: u64): u64 {
    if timestamp > 1_000_000_000_000 then timestamp / 1000 else timestamp
  }

  /** Up to 10^12 the input counts seconds; above, milliseconds, of which the whole seconds are taken. */
  lemma NormalizedUnits(timestamp: u64)
    ensures timestamp <= 1_000_000_000_000 ==> Normalized(timestamp) == timestamp
    ensures timestamp > 1_000_000_000_000 ==> 0 <= timestamp - 1000 * Normalized(timestamp) < 1000
  {}

  // ----- runs

  datatype Op =
    | Reset(start: u64) | Increase(seconds: u64) | SetExact(timestamp: u64)
    | SetInterval(spacing: u64) | RemoveInterval | Block

  datatype Event = Event(op: Op, now: u64)

  /** A block as built: its timestamp, and whether it was asked for an exact one. */
  datatype Stamp = Stamp(time: u64, exact: Option<u64>)

  function Apply(c: Clock, e: Event): Clock {
    match e.op
    case Reset(start) => AfterReset(c, start, e.now)
    case Increase(seconds) => AfterIncrease(c, seconds)
    case SetExact(t) => if t < c.last then c else c.(exact := Some(t))
    case SetInterval(i) => c.(interval := Some(i))
    case RemoveInterval => c.(interval := None)
    case Block => AfterBlock(c, e.now)
  }

  function Run(c: Clock, events: seq<Event>): Clock {
    if events == [] then c else Apply(Run(c, events[..|events| - 1]), events[|events| - 1])
  }

  function Stamps(c: Clock, events: seq<Event>): seq<Stamp> {
    if events == [] then []
    else
      var front, e := events[..|events| - 1], events[|events| - 1];
      var p := Run(c, front);
      Stamps(c, front) + (if e.op.Block? then [Stamp(NextStamp(p, e.now), p.exact)] else [])
  }

  /** The block timestamps alone. */
  function Times(stamps: seq<Stamp>): seq<u64> {
    seq(|stamps|, k requires 0 <= k < |stamps| => stamps[k].time)
  }

  lemma RunSnoc(c: Clock, events: seq<Event>, e: Event)
    ensures Run(c, events + [e]) == Apply(Run(c, events), e)
    ensures !e.op.Block? ==> Stamps(c, events + [e]) == Stamps(c, events)
    ensures e.op.Block? ==>
              Times(Stamps(c, events + [e])) == Times(Stamps(c, events)) + [NextStamp(Run(c, events), e.now)]
  {
    assert (events + [e])[..|events|] == events;
  }

  // ----- order

  /** A pending exact timestamp is never below the last block's. */
  predicate ExactAhead(c: Clock) {
    c.exact.Some? ==> c.last <= c.exact.value
  }

  /** The timestamp block k had to follow. */
  function Before(first: u64, stamps: seq<Stamp>, k: nat): u64
    requires k < |stamps|
  {
    if k == 0 then first else stamps[k - 1].time
  }

  /** A timestamp does not fall below the one it follows, an exact request is met to the second, and without
      one the timestamp rises strictly until the last representable second. */
  predicate Follows(before: u64, s: Stamp) {
    && before <= s.time
    && (s.exact.Some? ==> s.time == s.exact.value)
    && (s.exact.None? && before < U64_MAX ==> before < s.time)
  }

  ghost predicate InOrder(first: u64, stamps: seq<Stamp>) {
    forall k :: 0 <= k < |stamps| ==> Follows(Before(first, stamps, k), stamps[k])
  }

  lemma OrderSnoc(first: u64, stamps: seq<Stamp>, s: Stamp)
    requires InOrder(first, stamps) && Follows(LastTime(first, stamps), s)
    ensures InOrder(first, stamps + [s])
  {
    var after := stamps + [s];
    forall k | 0 <= k < |after| ensures Follows(Before(first, after, k), after[k]) {
      if k < |stamps| {
        assert Follows(Before(first, stamps, k), stamps[k]);
      }
    }
  }

  function LastTime(first: u64, stamps: seq<Stamp>): u64 {
    if stamps == [] then first else stamps[|stamps| - 1].time
  }

  /** Between two resets, for any wall clock and any mix of calls, block timestamps are in order, the last one
      is the clock's `last`, and a pending exact timestamp stays ahead of it. */
  lemma {:induction false} TimestampOrder(c: Clock, events: seq<Event>)
    requires ExactAhead(c)
    requires forall e :: e in events ==> !e.op.Reset?
    ensures ExactAhead(Run(c, events)) && InOrder(c.last, Stamps(c, events))
    ensures Run(c, events).last == LastTime(c.last, Stamps(c, events))
  {
    if events != [] {
      var front, e := events[..|events| - 1], events[|events| - 1];
      assert e in events;
      TimestampOrder(c, front);
      var p := Run(c, front);
      if e.op.Block? {
        OrderSnoc(c.last, Stamps(c, front), Stamp(NextStamp(p, e.now), p.exact));
      } else {
        assert Stamps(c, events) == Stamps(c, front);
      }
    }
  }

  /** Order spelled out for any two blocks of a run. */
  lemma {:induction false} InOrderIsSorted(first: u64, stamps: seq<Stamp>, j: nat, k: nat)
    requires InOrder(first, stamps) && j <= k < |stamps|
    ensures stamps[j].time <= stamps[k].time
    ensures j < k && stamps[k].exact.None? && stamps[k - 1].time < U64_MAX ==> stamps[j].time < stamps[k].time
    decreases k
  {
    if j < k {
      InOrderIsSorted(first, stamps, j, k - 1);
      assert Follows(stamps[k - 1].time, stamps[k]) by { assert Follows(Before(first, stamps, k), stamps[k]); }
    }
  }

  /** Every reachable clock keeps a pending exact timestamp ahead, resets included. */
  lemma {:induction false} ReachableExactAhead(start: u64, now: u64, events: seq<Event>)
    ensures ExactAhead(Run(AfterReset(Clock(0, 0, None, None), start, now), events))
  {
    if events != [] {
      ReachableExactAhead(start, now, events[..|events| - 1]);
    }
  }

  // ----- what the history says of last timestamp and exact time, resets included

  /** The time of the latest block or the start of the latest reset, whichever came last. */
  function LatestPin(c: Clock, events: seq<Event>): u64 {
    if events == [] then c.last
    else
      match events[|events| - 1].op
      case Reset(start) => start
      case Block => LastTime(c.last, Stamps(c, events))
      case _ => LatestPin(c, events[..|events| - 1])
  }

  /** The latest exact time that was not below the last timestamp of its moment, unless a block or a reset
      followed it. */
  function PendingExact(c: Clock, events: seq<Event>): Option<u64> {
    if events == [] then c.exact
    else
      var front := events[..|events| - 1];
      match events[|events| - 1].op
      case Reset(_) => None
      case Block => None
      case SetExact(t) => if LatestPin(c, front) <= t then Some(t) else PendingExact(c, front)
      case _ => PendingExact(c, front)
  }

  /** Over every run the last timestamp, the pending exact time and the interval are what its history says. */
  lemma {:induction false} ClockIsHistory(c: Clock, events: seq<Event>)
    ensures Run(c, events).last == LatestPin(c, events)
    ensures Run(c, events).exact == PendingExact(c, events)
    ensures Run(c, events).interval == LastSetting(events).UnwrapOr(c.interval)
  {
    IntervalIsLastSetting(c, events);
    if events != [] {
      ClockIsHistory(c, events[..|events| - 1]);
    }
  }

  /** A reset forgets the past, backwards moves included: whatever the clock was before, all that follows is
      the same, and starts from the reset's second. */
  lemma {:induction false} ResetForgets(c: Clock, d: Clock, start: u64, now: u64, events: seq<Event>)
    requires c.interval == d.interval
    ensures Run(AfterReset(c, start, now), events) == Run(AfterReset(d, start, now), events)
    ensures Stamps(AfterReset(c, start, now), events) == Stamps(AfterReset(d, start, now), events)
    ensures AfterReset(c, start, now).last == start
  {
    if events != [] {
      ResetForgets(c, d, start, now, events[..|events| - 1]);
    }
  }

  /** The block right after a reset, at the same wall reading, is one second past the reset's, whatever the
      clock was before; with an interval it is one spacing past it. */
  lemma BlockAfterReset(c: Clock, start: u64, now: u64)
    ensures c.interval == None ==> NextStamp(AfterReset(c, start, now), now) == SatU64(start + 1)
    ensures c.interval.Some? ==>
              NextStamp(AfterReset(c, start, now), now) == SatU64(start + Spacing(c.interval.value))
  {
    assert c.interval == None ==> Proposal(AfterReset(c, start, now), now) == start by { SmallRemainder(start); }
  }

  // ----- the virtual clock

  /** The latest instant at which the clock was pinned, by a reset or by a block at an exact timestamp, and
      the seconds added by `increase_time` since. */
  datatype Anchor = Anchor(time: u64, wall: u64, added: nat)

  function Reanchor(a: Anchor, c: Clock, e: Event): Anchor {
    match e.op
    case Reset(start) => Anchor(start, e.now, 0)
    case Increase(seconds) => a.(added := a.added + seconds)
    case Block => if c.exact.Some? then Anchor(NextStamp(c, e.now), e.now, 0) else a
    case _ => a
  }

  function AnchorOf(a: Anchor, c: Clock, events: seq<Event>): Anchor {
    if events == [] then a
    else
      var front := events[..|events| - 1];
      Reanchor(AnchorOf(a, c, front), Run(c, front), events[|events| - 1])
  }

  /** The time the anchor, the increases and the wall clock alone would give. */
  function Ideal(a: Anchor, now: u64): int {
    a.time + a.added + now - a.wall
  }

  /** The wall clock, read at every event, never goes back. */
  predicate WallMonotone(first: u64, events: seq<Event>) {
    events != [] ==>
      var front := events[..|events| - 1];
      WallMonotone(first, front) && WallAfter(first, front) <= events[|events| - 1].now
  }

  function WallAfter(first: u64, events: seq<Event>): u64 {
    if events == [] then first else events[|events| - 1].now
  }

  /** The stored offset is the anchor's, capped at the largest i128. */
  predicate Anchored(c: Clock, a: Anchor, wall: u64) {
    a.wall <= wall && c.offset == Min(I128_MAX, a.time - a.wall + a.added)
  }

  lemma {:induction false} RunStaysAnchored(c: Clock, a: Anchor, wall: u64, events: seq<Event>)
    requires Anchored(c, a, wall) && WallMonotone(wall, events)
    ensures Anchored(Run(c, events), AnchorOf(a, c, events), WallAfter(wall, events))
  {
    if events != [] {
      var front := events[..|events| - 1];
      RunStaysAnchored(c, a, wall, front);
    }
  }

  /** The ideal time as the code computes it: capped at the largest i128, then cut to its low 64 bits. */
  function CutIdeal(a: Anchor, now: u64): int {
    Min(Ideal(a, now), I128_MAX) % TWO_64
  }

  /** What an anchored clock gives the next block when no exact time and no interval is set. */
  lemma PlainBlock(c: Clock, a: Anchor, wall: u64, now: u64)
    requires Anchored(c, a, wall) && wall <= now
    ensures 0 <= now + c.offset && 0 <= Ideal(a, now)
    ensures c.exact.None? && c.interval.None? ==> NextStamp(c, now) == Max(SatU64(c.last + 1), CutIdeal(a, now))
    ensures c.exact.None? && c.interval.None? ==>
              (NextStamp(c, now) == Max(SatU64(c.last + 1), Ideal(a, now)) <==> Ideal(a, now) < TWO_64)
  {
    var v := Ideal(a, now);
    assert SatI128(now + c.offset) == Min(v, I128_MAX);
    if v < TWO_64 {
      assert v % TWO_64 == v by { SmallRemainder(v); }
    } else {
      assert Max(SatU64(c.last + 1), v) > U64_MAX;
    }
  }

  lemma SmallRemainder(v: nat)
    requires v < TWO_64
    ensures v % TWO_64 == v
  {}

  /** With a wall clock that never goes back, in every reachable state: clock plus offset is not negative, and
      a block with no exact time and no interval gets the later of the next second and the low 64 bits of the
      (capped) ideal time; that is the ideal time itself exactly while it fits 64 bits. */
  lemma VirtualClock(start: u64, wall: u64, events: seq<Event>, now: u64, c0: Clock, c: Clock, a: Anchor)
    requires WallMonotone(wall, events) && WallAfter(wall, events) <= now
    requires c0 == AfterReset(Clock(0, 0, None, None), start, wall)
    requires c == Run(c0, events) && a == AnchorOf(Anchor(start, wall, 0), c0, events)
    ensures 0 <= now + c.offset && 0 <= Ideal(a, now)
    ensures c.exact.None? && c.interval.None? ==> NextStamp(c, now) == Max(SatU64(c.last + 1), CutIdeal(a, now))
    ensures c.exact.None? && c.interval.None? ==>
              (NextStamp(c, now) == Max(SatU64(c.last + 1), Ideal(a, now)) <==> Ideal(a, now) < TWO_64)
  {
    RunStaysAnchored(c0, Anchor(start, wall, 0), wall, events);
    PlainBlock(c, a, WallAfter(wall, events), now);
  }

  /** The bound is reached whatever the wall clock reads: a clock started at second 0 and moved forward by
      2^64 - 1 seconds overflows one second later, and the block gets second 1 instead of 2^64. */
  lemma CastDropsHighBits(wall: u64)
    requires wall < U64_MAX
    ensures var c0 := AfterReset(Clock(0, 0, None, None), 0, wall);
            var events := [Event(Increase(U64_MAX), wall)];
            && Ideal(AnchorOf(Anchor(0, wall, 0), c0, events), wall + 1) == TWO_64
            && NextStamp(Run(c0, events), wall + 1) == 1
  {
    var c0, events := AfterReset(Clock(0, 0, None, None), 0, wall), [Event(Increase(U64_MAX), wall)];
    assert events[..0] == [] && Run(c0, events) == AfterIncrease(c0, U64_MAX);
    assert AnchorOf(Anchor(0, wall, 0), c0, events) == Anchor(0, wall, U64_MAX);
  }

  // ----- batches at a fixed interval

  /** The spacing an interval gives: an interval of zero still moves one second per block. */
  function Spacing(i: u64): u64 { Max(i, 1) }

  /** Timestamp of the k-th block (from 1) of a batch begun with clock c at spacing s. */
  function BatchStamp(c: Clock, s: u64, k: nat): u64
    requires k >= 1
  {
    match c.exact
    case Some(e) => SatU64(e + (k - 1) * s)
    case None => SatU64(c.last + k * s)
  }

  /** The clock after k blocks of the batch is at the closed form's timestamp. */
  predicate MidBatch(c0: Clock, i: u64, k: nat, c: Clock) {
    && c.interval == Some(i)
    && (k == 0 ==> c.exact == c0.exact && c.last == c0.last)
    && (k > 0 ==> c.exact == None && c.last == BatchStamp(c0, Spacing(i), k))
  }

  /** Whatever the wall clock says, the next block of a batch continues the closed form. */
  lemma NextOfBatch(c0: Clock, i: u64, k: nat, c: Clock, now: u64)
    requires ExactAhead(c0) && MidBatch(c0, i, k, c)
    ensures NextStamp(c, now) == BatchStamp(c0, Spacing(i), k + 1)
    ensures MidBatch(c0, i, k + 1, AfterBlock(c, now))
  {
    var s := Spacing(i);
    assert (k + 1) * s == k * s + s;
    if k > 0 { assert k * s == (k - 1) * s + s; }
  }

  /** The blocks of an undisturbed batch: only the clock offset is touched between them. */
  predicate Undisturbed(events: seq<Event>) {
    forall e :: e in events ==> e.op.Block? || e.op.Increase?
  }

  /** A whole batch follows the closed form, whatever the wall clock and however time is increased meanwhile. */
  lemma {:induction false} BatchFollowsClosedForm(c0: Clock, i: u64, events: seq<Event>)
    requires ExactAhead(c0) && c0.interval == Some(i) && Undisturbed(events)
    ensures MidBatch(c0, i, |Stamps(c0, events)|, Run(c0, events))
    ensures forall k :: 0 <= k < |Stamps(c0, events)| ==>
              Times(Stamps(c0, events))[k] == BatchStamp(c0, Spacing(i), k + 1)
  {
    if events != [] {
      var front, e := events[..|events| - 1], events[|events| - 1];
      assert e in events;
      BatchFollowsClosedForm(c0, i, front);
      if e.op.Block? {
        NextOfBatch(c0, i, |Stamps(c0, front)|, Run(c0, front), e.now);
      }
      assert front + [e] == events;
      RunSnoc(c0, front, e);
    }
  }

  // ----- the interval setting

  /** The last interval asked for: Some(Some(i)) when it was set, Some(None) when it was removed. */
  function LastSetting(events: seq<Event>): Option<Option<u64>> {
    if events == [] then None
    else
      match events[|events| - 1].op
      case SetInterval(i) => Some(Some(i))
      case RemoveInterval => Some(None)
      case _ => LastSetting(events[..|events| - 1])
  }

  /** The interval in force is the last one asked for; nothing else moves it. */
  lemma {:induction false} IntervalIsLastSetting(c: Clock, events: seq<Event>)
    ensures Run(c, events).interval == LastSetting(events).UnwrapOr(c.interval)
  {
    if events != [] {
      IntervalIsLastSetting(c, events[..|events| - 1]);
    }
  }
}
