/**
 `mine_blocks`, its wait, and `anvil_mine` of src/anvil_api.rs, against a dev node whose miner turns each
 outstanding trigger into one block with one call of the timestamp hook. The miner and other callers act in
 the background: `pace(k)` lists what they attempt at the k-th scheduling point, where a `Block` event is the
 miner trying to build and any other one is a call on the clock by somebody else. `readable(k)` says whether
 the provider answers the k-th read of the head.
 */
module BatchMining {
  import opened Words
  import opened BlockClock

  const POLLS: nat := 200

  /** `Failed` is a read of the head that fails, `Panicked` an integer conversion or addition that does not fit. */
  datatype MineResult = Mined(numbers: seq<nat>) | TimedOut | Failed | Panicked

  datatype Wait = Reached | Expired | Unreadable

  /** The block numbers first..=last. */
  function Numbers(first: nat, last: nat): seq<nat>
    decreases last + 1 - first
  {
    if last < first then [] else [first] + Numbers(first + 1, last)
  }

  lemma {:induction false} NumbersAreConsecutive(first: nat, last: nat)
    requires first <= last + 1
    ensures |Numbers(first, last)| == last + 1 - first
    ensures forall k :: 0 <= k < |Numbers(first, last)| ==> Numbers(first, last)[k] == first + k
    decreases last + 1 - first
  {
    if first <= last {
      NumbersAreConsecutive(first + 1, last);
    }
  }

  // ----- the background

  function Builds(events: seq<Event>): nat {
    if events == [] then 0
    else Builds(events[..|events| - 1]) + (if events[|events| - 1].op.Block? then 1 else 0)
  }

  /** What happens of the attempted events when the miner can build at most `room` blocks. */
  function Executed(events: seq<Event>, room: nat): seq<Event> {
    if events == [] then []
    else
      var front, e := events[..|events| - 1], events[|events| - 1];
      Executed(front, room) + (if e.op.Block? && Builds(front) >= room then [] else [e])
  }

  lemma OneMoreAttempt(events: seq<Event>, k: nat, room: nat)
    requires k < |events|
    ensures Builds(events[..k + 1]) == Builds(events[..k]) + (if events[k].op.Block? then 1 else 0)
    ensures Executed(events[..k + 1], room) ==
            Executed(events[..k], room) +
            (if events[k].op.Block? && Builds(events[..k]) >= room then [] else [events[k]])
  {
    assert events[..k + 1][..k] == events[..k];
  }

  /** Everything that happened was in the script. */
  ghost predicate Drawn(done: seq<Event>, pace: nat -> seq<Event>) {
    forall e :: e in done ==> exists k: nat :: e in pace(k)
  }

  lemma {:induction false} ExecutedAreAttempted(events: seq<Event>, room: nat)
    ensures forall e :: e in Executed(events, room) ==> e in events
  {
    if events != [] {
      ExecutedAreAttempted(events[..|events| - 1], room);
    }
  }

  function CallsOf(events: seq<Event>): seq<Event> {
    if events == [] then []
    else
      var e := events[|events| - 1];
      CallsOf(events[..|events| - 1]) + (if e.op.Block? then [] else [e])
  }

  /** All calls of others go through, in order, and as many blocks as attempts and room allow. */
  lemma {:induction false} ExecutedExactly(events: seq<Event>, room: nat)
    ensures CallsOf(Executed(events, room)) == CallsOf(events)
    ensures Builds(Executed(events, room)) == Min(Builds(events), room)
  {
    if events != [] {
      var front, e := events[..|events| - 1], events[|events| - 1];
      ExecutedExactly(front, room);
      var done := Executed(front, room);
      assert (done + [e])[..|done|] == done && done + [] == done;
    }
  }

  // ----- how far the head gets

  /** Attempts to build at the j scheduling points from `from` on. */
  function BuildsThrough(pace: nat -> seq<Event>, from: nat, j: nat): nat {
    if j == 0 then 0 else BuildsThrough(pace, from, j - 1) + Builds(pace(from + (j - 1)))
  }

  /** The head after k triggers have been issued, one before each of the first k scheduling points. */
  function HeadAfterTriggers(pace: nat -> seq<Event>, head: u64, outstanding: nat, k: nat): (h: u64)
    ensures head <= h <= head + outstanding + k
  {
    if k == 0 then head
    else
      var h := HeadAfterTriggers(pace, head, outstanding, k - 1);
      h + Min(Builds(pace(k - 1)), Min(head + outstanding + k - h, U64_MAX - h))
  }

  /** The head at the j-th poll of a wait begun at `met`, which triggers and numbers let rise to `limit`. */
  function HeadAtPoll(pace: nat -> seq<Event>, from: nat, met: nat, limit: nat, j: nat): int {
    Min(met + BuildsThrough(pace, from, j), limit)
  }

  /** The i-th poll, which is the read after i + 1 others, succeeds and finds the head too low. */
  predicate FindsTooLow(pace: nat -> seq<Event>, readable: nat -> bool,
                        from: nat, met: nat, limit: nat, expected: nat, i: nat)
  {
    readable(i + 1) && HeadAtPoll(pace, from, met, limit, i) < expected
  }

  ghost predicate Waiting(pace: nat -> seq<Event>, readable: nat -> bool,
                          from: nat, met: nat, limit: nat, expected: nat, j: nat)
  {
    forall i: nat :: i < j ==> FindsTooLow(pace, readable, from, met, limit, expected, i)
  }

  /** The wait ends after n scheduling points as w, with the head at head'. */
  ghost predicate EndsAt(pace: nat -> seq<Event>, readable: nat -> bool, from: nat, met: nat, limit: nat,
                         expected: nat, n: nat, w: Wait, head': nat)
  {
    && n <= POLLS && head' == HeadAtPoll(pace, from, met, limit, n)
    && Waiting(pace, readable, from, met, limit, expected, n)
    && match w
       case Reached => n < POLLS && readable(n + 1) && expected <= head'
       case Unreadable => n < POLLS && !readable(n + 1)
       case Expired => n == POLLS
  }

  // ----- what a call of mine_blocks comes to

  /** `head` and `outstanding` before and after; the second line conserves triggers and blocks. */
  ghost predicate MineOutcome(blocks: nat, pace: nat -> seq<Event>, readable: nat -> bool,
                              head: nat, outstanding: nat, head': nat, outstanding': nat, r: MineResult)
  {
    && head <= head'
    && head' + outstanding' == head + outstanding + (if readable(0) then blocks else 0)
    && (r.Panicked? <==> blocks > 0 && head == U64_MAX && readable(0) && readable(1))
    && (r.Mined? ==> r.numbers == if blocks == 0 then [] else Numbers(head + 1, SatU64(head + blocks)))
    && (r.Mined? && blocks > 0 ==> readable(0) && SatU64(head + blocks) <= head')
    && (r.Failed? ==> blocks > 0 && exists j :: 0 <= j <= POLLS && !readable(j))
    && (r.TimedOut? ==> forall j :: 0 <= j <= POLLS ==> readable(j))
    && (blocks > 0 && !readable(0) ==> r.Failed? && head' == head)
    && (outstanding + blocks <= Builds(pace(blocks)) ==>
          if readable(0) && readable(1) && readable(2) then r.Mined? || r.Panicked? else !r.TimedOut?)
    && (blocks > 0 && readable(0) && head <= U64_MAX ==>
          exists n: nat, w ::
            r == Concluded(w, head, blocks) && MineEndsAt(pace, readable, blocks, head, outstanding, n, w, head'))
  }

  /** The wait of a call that has issued its triggers ends after n scheduling points as w. */
  ghost predicate MineEndsAt(pace: nat -> seq<Event>, readable: nat -> bool, blocks: nat,
                             head: u64, outstanding: nat, n: nat, w: Wait, head': nat)
  {
    EndsAt(pace, readable, blocks, HeadAfterTriggers(pace, head, outstanding, blocks),
           Min(head + outstanding + blocks, U64_MAX), SatU64(head + blocks), n, w, head')
  }

  /** From nothing outstanding and short of the last block number, success is exactly the blocks asked for. */
  lemma SuccessIsExact(blocks: u64, pace: nat -> seq<Event>, readable: nat -> bool,
                       head: nat, head': u64, outstanding': nat, r: MineResult)
    requires MineOutcome(blocks, pace, readable, head, 0, head', outstanding', r)
    requires r.Mined? && head + blocks <= U64_MAX
    ensures head' == head + blocks && outstanding' == 0 && |r.numbers| == blocks
    ensures forall k :: 0 <= k < |r.numbers| ==> r.numbers[k] == head + 1 + k
  {
    if blocks > 0 { NumbersAreConsecutive(head + 1, head + blocks); }
  }

  /** The end of `mine_blocks`: a failed or expired wait is an error, and so is a list beyond the last number. */
  function Concluded(w: Wait, start: nat, blocks: nat): MineResult {
    match w
    case Unreadable => Failed
    case Expired => TimedOut
    case Reached => if start >= U64_MAX then Panicked else Mined(Numbers(start + 1, SatU64(start + blocks)))
  }

  /** All that MineOutcome says follows from where the wait ends. */
  lemma OutcomeOfWait(blocks: u64, pace: nat -> seq<Event>, readable: nat -> bool,
                      head: u64, outstanding: nat, head': u64, outstanding': nat, n: nat, w: Wait)
    requires blocks > 0 && readable(0)
    requires MineEndsAt(pace, readable, blocks, head, outstanding, n, w, head')
    requires head' + outstanding' == head + outstanding + blocks
    ensures MineOutcome(blocks, pace, readable, head, outstanding, head', outstanding', Concluded(w, head, blocks))
  {
    var met, limit := HeadAfterTriggers(pace, head, outstanding, blocks), Min(head + outstanding + blocks, U64_MAX);
    WaitBegins(pace, blocks, met, limit);
    if w.Expired? {
      forall j | 0 <= j <= POLLS ensures readable(j) {
        assert j > 0 ==> FindsTooLow(pace, readable, blocks, met, limit, SatU64(head + blocks), j - 1);
      }
    }
    assert n > 0 ==> FindsTooLow(pace, readable, blocks, met, limit, SatU64(head + blocks), 0);
    assert n > 1 ==> FindsTooLow(pace, readable, blocks, met, limit, SatU64(head + blocks), 1);
  }

  lemma WaitBegins(pace: nat -> seq<Event>, from: nat, met: nat, limit: nat)
    requires met <= limit
    ensures HeadAtPoll(pace, from, met, limit, 0) == met
    ensures HeadAtPoll(pace, from, met, limit, 1) == Min(met + Builds(pace(from)), limit)
  {
    assert BuildsThrough(pace, from, 1) == BuildsThrough(pace, from, 0) + Builds(pace(from + 0));
  }

  lemma {:induction false} MoreAttempts(pace: nat -> seq<Event>, from: nat, i: nat, j: nat)
    requires i <= j
    ensures BuildsThrough(pace, from, i) <= BuildsThrough(pace, from, j)
  {
    if i < j { MoreAttempts(pace, from, i, j - 1); }
  }

  /** The wait is 200 polls long: with every read answered a call times out exactly if the head is still short
      at the last of them, 199 scheduling points after the wait began, and otherwise succeeds (or, at the last
      block number, panics). */
  lemma TimesOutExactly(blocks: u64, pace: nat -> seq<Event>, readable: nat -> bool,
                        head: u64, outstanding: nat, head': nat, outstanding': nat, r: MineResult)
    requires MineOutcome(blocks, pace, readable, head, outstanding, head', outstanding', r)
    requires blocks > 0 && forall j :: 0 <= j <= 200 ==> readable(j)
    ensures r.TimedOut? <==> HeadAfterTriggers(pace, head, outstanding, blocks) + BuildsThrough(pace, blocks, 199)
                             < SatU64(head + blocks)
    ensures !r.Failed?
  {
    var met, limit := HeadAfterTriggers(pace, head, outstanding, blocks), Min(head + outstanding + blocks, U64_MAX);
    var end := SatU64(head + blocks);
    var n: nat, w :|
      r == Concluded(w, head, blocks) && MineEndsAt(pace, readable, blocks, head, outstanding, n, w, head');
    if r.TimedOut? {
      assert FindsTooLow(pace, readable, blocks, met, limit, end, 199);
    } else {
      MoreAttempts(pace, blocks, n, 199);
    }
  }

  class DevNode {
    const time: TimeManager
    var outstanding: nat
    var head: u64
    var stamps: seq<u64>

    constructor (time: TimeManager, genesis: u64)
      ensures this.time == time && outstanding == 0 && head == genesis && stamps == []
    {
      this.time := time;
      outstanding, head, stamps := 0, genesis, [];
    }

    /** Clock and chain are where the events `done` take a clock c and a chain with timestamps `before`. */
    ghost predicate Since(c: Clock, before: seq<u64>, done: seq<Event>)
      reads this, time
    {
      time.View() == Run(c, done) && stamps == before + Times(Stamps(c, done))
    }

    /** Triggers and blocks are conserved, and one timestamp is recorded per block. */
    ghost predicate Conserves(start: nat, total: nat, base: nat)
      reads this
    {
      && head + outstanding == start + total && start <= head
      && |stamps| == base + (head - start)
    }

    /** The background's work at one scheduling point: each call of others, and a block per outstanding trigger
        as far as the attempts go. */
    method Background(events: seq<Event>, ghost c: Clock, ghost before: seq<u64>, ghost done: seq<Event>,
                      ghost start: nat, ghost total: nat) returns (ghost done': seq<Event>)
      requires Since(c, before, done) && Conserves(start, total, |before|)
      modifies this, time
      ensures Since(c, before, done') && Conserves(start, total, |before|)
      ensures done' == done + Executed(events, Min(old(outstanding), U64_MAX - old(head)))
      ensures head == old(head) + Min(Builds(events), Min(old(outstanding), U64_MAX - old(head)))
    {
      ghost var room := Min(outstanding, U64_MAX - head);
      done' := done;
      for k := 0 to |events|
        invariant Since(c, before, done') && Conserves(start, total, |before|)
        invariant done' == done + Executed(events[..k], room)
        invariant head == old(head) + Min(Builds(events[..k]), room)
      {
        OneMoreAttempt(events, k, room);
        done' := Attempt(events[k], c, before, done', start, total);
      }
      assert events[..|events|] == events;
    }

    /** A call of somebody else goes through; a block is built if there is a trigger and a number for it. */
    method Attempt(e: Event, ghost c: Clock, ghost before: seq<u64>, ghost done: seq<Event>,
                   ghost start: nat, ghost total: nat) returns (ghost done': seq<Event>)
      requires Since(c, before, done) && Conserves(start, total, |before|)
      modifies this, time
      ensures Since(c, before, done') && Conserves(start, total, |before|)
      ensures var built := e.op.Block? && old(outstanding) > 0 && old(head) < U64_MAX;
              && done' == done + (if e.op.Block? && !built then [] else [e])
              && head == old(head) + (if built then 1 else 0)
    {
      done' := done;
      if !e.op.Block? {
        done' := Perform(e, c, before, done);
      } else if outstanding > 0 && head < U64_MAX {
        done' := BuildOne(e.now, c, before, done);
      }
    }

    method BuildOne(now: u64, ghost c: Clock, ghost before: seq<u64>, ghost done: seq<Event>)
      returns (ghost done': seq<Event>)
      requires Since(c, before, done) && outstanding > 0 && head < U64_MAX
      modifies this, time
      ensures done' == done + [Event(Block, now)] && Since(c, before, done')
      ensures stamps == old(stamps) + [NextStamp(old(time.View()), now)]
      ensures outstanding == old(outstanding) - 1 && head == old(head) + 1
    {
      done' := done + [Event(Block, now)];
      RunSnoc(c, done, Event(Block, now));
      var stamp := time.NextTimestamp(now);
      stamps := stamps + [stamp];
      outstanding, head := outstanding - 1, head + 1;
    }

    /** A call on the clock by somebody else. */
    method Perform(e: Event, ghost c: Clock, ghost before: seq<u64>, ghost done: seq<Event>)
      returns (ghost done': seq<Event>)
      requires Since(c, before, done) && !e.op.Block?
      modifies time
      ensures done' == done + [e] && Since(c, before, done')
    {
      done' := done + [e];
      RunSnoc(c, done, e);
      match e.op
      case Reset(start) => time.Reset(start, e.now);
      case Increase(seconds) => var _ := time.IncreaseTime(seconds);
      case SetExact(timestamp) => var _ := time.SetNextBlockTimestamp(timestamp);
      case SetInterval(spacing) => time.SetBlockTimestampInterval(spacing);
      case RemoveInterval => var _ := time.RemoveBlockTimestampInterval();
    }

    /** The polls are the reads after the first; n counts the scheduling points they waited for. */
    method WaitForBlockNumber(expected: nat, pace: nat -> seq<Event>, from: nat, readable: nat -> bool,
                              ghost c: Clock, ghost before: seq<u64>, ghost done: seq<Event>,
                              ghost start: nat, ghost total: nat)
      returns (w: Wait, ghost n: nat, ghost done': seq<Event>)
      requires Since(c, before, done) && Drawn(done, pace) && Conserves(start, total, |before|)
      modifies this, time
      ensures Since(c, before, done') && Drawn(done', pace) && Conserves(start, total, |before|)
      ensures old(head) <= head && (n == 0 ==> done' == done)
      ensures EndsAt(pace, readable, from, old(head), Min(old(head) + old(outstanding), U64_MAX), expected, n, w, head)
    {
      ghost var met, limit := head, Min(head + outstanding, U64_MAX);
      done', n := done, 0;
      for j := 0 to POLLS
        invariant n == j && (j == 0 ==> done' == done)
        invariant Since(c, before, done') && Drawn(done', pace) && Conserves(start, total, |before|)
        invariant head == HeadAtPoll(pace, from, met, limit, j) && head + outstanding == met + old(outstanding)
        invariant Waiting(pace, readable, from, met, limit, expected, j)
      {
        if !readable(j + 1) {
          return Unreadable, n, done';
        }
        if head >= expected {
          return Reached, n, done';
        }
        assert FindsTooLow(pace, readable, from, met, limit, expected, j);
        done' := Step(from + j, pace, c, before, done', start, total);
        n := n + 1;
      }
      return Expired, n, done';
    }

    /** The k-th scheduling point. */
    method Step(k: nat, pace: nat -> seq<Event>, ghost c: Clock, ghost before: seq<u64>, ghost done: seq<Event>,
                ghost start: nat, ghost total: nat) returns (ghost done': seq<Event>)
      requires Since(c, before, done) && Drawn(done, pace) && Conserves(start, total, |before|)
      modifies this, time
      ensures Since(c, before, done') && Drawn(done', pace) && Conserves(start, total, |before|)
      ensures head == old(head) + Min(Builds(pace(k)), Min(old(outstanding), U64_MAX - old(head)))
      ensures head + outstanding == old(head) + old(outstanding)
    {
      ghost var room := Min(outstanding, U64_MAX - head);
      done' := Background(pace(k), c, before, done, start, total);
      ExecutedAreAttempted(pace(k), room);
    }

    /** The loop of triggers, each followed by a scheduling point. */
    method TriggerAll(blocks: u64, pace: nat -> seq<Event>, ghost c: Clock, ghost before: seq<u64>, ghost total: nat)
      returns (ghost done: seq<Event>)
      requires Since(c, before, []) && total == outstanding && |before| == |stamps|
      modifies this, time
      ensures Since(c, before, done) && Drawn(done, pace)
      ensures Conserves(old(head), total + blocks, |before|)
      ensures head == HeadAfterTriggers(pace, old(head), total, blocks)
    {
      done := [];
      for k := 0 to blocks
        invariant Since(c, before, done) && Drawn(done, pace) && Conserves(old(head), total + k, |before|)
        invariant head == HeadAfterTriggers(pace, old(head), total, k)
      {
        outstanding := outstanding + 1;
        done := Step(k, pace, c, before, done, old(head), total + k + 1);
      }
    }

    /** `done` lists what happened on the clock during the call: blocks built and calls of others. */
    method MineBlocks(blocks: u64, pace: nat -> seq<Event>, readable: nat -> bool)
      returns (r: MineResult, ghost done: seq<Event>)
      modifies this, time
      ensures Since(old(time.View()), old(stamps), done) && Drawn(done, pace)
      ensures |stamps| - |old(stamps)| == head - old(head)
      ensures blocks == 0 || !readable(0) ==> done == []
      ensures MineOutcome(blocks, pace, readable, old(head), old(outstanding), head, outstanding, r)
    {
      ghost var c, before, total := time.View(), stamps, outstanding;
      done := [];
      if blocks == 0 {
        return Mined([]), done;
      }
      if !readable(0) {
        return Failed, done;
      }
      var start := head;
      done := TriggerAll(blocks, pace, c, before, total);
      var end := SatU64(start + blocks);
      var w;
      ghost var n;
      w, n, done := WaitForBlockNumber(end, pace, blocks, readable, c, before, done, start, total + blocks);
      r := Concluded(w, start, blocks);
      OutcomeOfWait(blocks, pace, readable, start, total, head, outstanding, n, w);
    }

    /** `mine_blocks` between setting an interval and putting the former one back. Whatever others asked for
        meanwhile, the former interval returns, unless the call panics and leaves the last one asked for. */
    method MineAtInterval(blocks: u64, seconds: u64, pace: nat -> seq<Event>, readable: nat -> bool)
      returns (r: MineResult, ghost done: seq<Event>)
      modifies this, time
      ensures var during := old(time.View()).(interval := Some(seconds));
              && time.View() == AfterCall(old(time.View()), during, done, r.Panicked?)
              && stamps == old(stamps) + Times(Stamps(during, done))
      ensures Drawn(done, pace) && |stamps| - |old(stamps)| == head - old(head)
      ensures blocks == 0 || !readable(0) ==> done == []
      ensures MineOutcome(blocks, pace, readable, old(head), old(outstanding), head, outstanding, r)
    {
      var previous := time.interval;
      time.SetBlockTimestampInterval(seconds);
      r, done := MineBlocks(blocks, pace, readable);
      if r.Panicked? {
        return;
      }
      if previous.Some? {
        time.SetBlockTimestampInterval(previous.value);
      } else {
        var _ := time.RemoveBlockTimestampInterval();
      }
    }

    /** `anvil_mine`. Oversized arguments change nothing; otherwise the outcome is that of `mine_blocks`. From
        zero outstanding triggers and short of the last block number, success means exactly the blocks asked
        for, nothing left over. With an interval every block of an undisturbed call has the closed form's
        timestamp, and the former interval is put back but for the panic at the last block number; that is what
        the clock would hold without the call if and only if the last setting made meanwhile, if any, was it. */
    method AnvilMine(numBlocks: Option<u256>, interval: Option<u256>, pace: nat -> seq<Event>, readable: nat -> bool)
      returns (r: MineResult, ghost done: seq<Event>)
      modifies this, time
      ensures numBlocks.UnwrapOr(1) > U64_MAX || interval.UnwrapOr(0) > U64_MAX ==>
                && r.Panicked? && done == [] && time.View() == old(time.View())
                && head == old(head) && outstanding == old(outstanding) && stamps == old(stamps)
      ensures numBlocks.UnwrapOr(1) <= U64_MAX && interval.UnwrapOr(0) <= U64_MAX ==>
                MineOutcome(numBlocks.UnwrapOr(1), pace, readable, old(head), old(outstanding), head, outstanding, r)
      ensures Drawn(done, pace) && |stamps| - |old(stamps)| == head - old(head)
      ensures r.Mined? && old(outstanding) == 0 && old(head) + numBlocks.UnwrapOr(1) <= U64_MAX ==>
                && head == old(head) + numBlocks.UnwrapOr(1) && outstanding == 0
                && |r.numbers| == numBlocks.UnwrapOr(1)
                && forall k :: 0 <= k < |r.numbers| ==> r.numbers[k] == old(head) + 1 + k
      ensures interval.UnwrapOr(0) == 0 ==> Since(old(time.View()), old(stamps), done)
      ensures numBlocks.UnwrapOr(1) <= U64_MAX && 0 < interval.UnwrapOr(0) <= U64_MAX ==>
                && (ExactAhead(old(time.View())) && Undisturbed(done) ==>
                      StampedFrom(stamps, |old(stamps)|, old(time.View()), interval.UnwrapOr(0)))
                && time.interval ==
                     (if r.Panicked? then LastSetting(done).UnwrapOr(Some(interval.value)) else old(time.interval))
                && (!r.Panicked? ==> (time.interval == Run(old(time.View()), done).interval <==>
                                      LastSetting(done).UnwrapOr(old(time.interval)) == old(time.interval)))
    {
      done := [];
      var blocks := numBlocks.UnwrapOr(1);
      if blocks > U64_MAX || interval.UnwrapOr(0) > U64_MAX {
        return Panicked, done;
      }
      if interval.UnwrapOr(0) != 0 {
        ghost var c, before := time.View(), stamps;
        r, done := MineAtInterval(blocks, interval.value, pace, readable);
        CallAtInterval(before, c, interval.value, done, r.Panicked?);
      } else {
        r, done := MineBlocks(blocks, pace, readable);
      }
      if r.Mined? && old(outstanding) == 0 && old(head) + blocks <= U64_MAX {
        SuccessIsExact(blocks, pace, readable, old(head), head, outstanding, r);
      }
    }
  }

  /** The clock a call leaves, if it was c before and `during` once its interval was set. */
  function AfterCall(c: Clock, during: Clock, done: seq<Event>, panicked: bool): Clock {
    if panicked then Run(during, done) else Run(during, done).(interval := c.interval)
  }

  /** The blocks from index `base` on have the closed form's timestamps, counted from 1. */
  ghost predicate StampedFrom(stamps: seq<u64>, base: nat, c: Clock, seconds: u64) {
    forall k :: 1 <= k <= |stamps| - base ==> stamps[base + k - 1] == BatchStamp(c, seconds, k)
  }

  /** What a call at an interval leaves: the timestamps of an undisturbed batch, the interval in force, and
      when putting the former one back gives what the same events without the call would have. */
  lemma CallAtInterval(before: seq<u64>, c: Clock, seconds: u64, done: seq<Event>, panicked: bool)
    requires seconds > 0
    ensures var during := c.(interval := Some(seconds));
            && (ExactAhead(c) && Undisturbed(done) ==>
                  StampedFrom(before + Times(Stamps(during, done)), |before|, c, seconds))
            && AfterCall(c, during, done, panicked).interval ==
                 (if panicked then LastSetting(done).UnwrapOr(Some(seconds)) else c.interval)
    ensures c.interval == Run(c, done).interval <==> LastSetting(done).UnwrapOr(c.interval) == c.interval
  {
    IntervalIsLastSetting(c, done);
    IntervalIsLastSetting(c.(interval := Some(seconds)), done);
    if ExactAhead(c) && Undisturbed(done) {
      StampsByPosition(before, c, seconds, done);
    }
  }

  lemma StampsByPosition(before: seq<u64>, c: Clock, seconds: u64, done: seq<Event>)
    requires seconds > 0 && ExactAhead(c) && Undisturbed(done)
    ensures StampedFrom(before + Times(Stamps(c.(interval := Some(seconds)), done)), |before|, c, seconds)
  {
    var during := c.(interval := Some(seconds));
    BatchFollowsClosedForm(during, seconds, done);
    var times := Times(Stamps(during, done));
    forall k | 1 <= k <= |times| ensures (before + times)[|before| + k - 1] == BatchStamp(c, seconds, k) {
      assert times[k - 1] == BatchStamp(during, Spacing(seconds), k);
    }
  }

  /** Two overlapping calls can leave an interval nobody wants: one begun inside another reads that one's
      interval as the former one, and ending last puts it back after the other has removed it. */
  lemma OverlapLeavesStaleInterval(c: Clock, outer: u64, inner: u64, now: u64)
    requires c.interval == None
    ensures var met := c.(interval := Some(outer));
            var done := [Event(RemoveInterval, now)];
            && AfterCall(met, met.(interval := Some(inner)), done, false).interval == Some(outer)
            && Run(met, done).interval == None
  {
    var met, done := c.(interval := Some(outer)), [Event(RemoveInterval, now)];
    IntervalIsLastSetting(met, done);
  }
}
