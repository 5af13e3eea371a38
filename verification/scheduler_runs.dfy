/** Which dispatches poll which channel, over whole runs of the scheduler. */
module SchedulerRuns {
  import opened Schedulers

  /** The period slot, counted from configure time, that an instant falls in. */
  function Slot(start: int, period: Period, t: int): int {
    (t - start) / period
  }

  predicate ClockRun(start: int, clock: seq<int>) {
    && (forall k | 0 <= k < |clock| :: start <= clock[k])
    && (forall j, k | 0 <= j <= k < |clock| :: clock[j] <= clock[k])
  }

  /** The schedule after one dispatch at every clock reading. */
  function DispatchAll(channels: seq<ChannelState>, clock: seq<int>): (after: seq<ChannelState>)
    ensures |after| == |channels|
  {
    if clock == [] then channels
    else Dispatched(DispatchAll(channels, clock[..|clock| - 1]), clock[|clock| - 1])
  }

  /** Whether channel `c` of a schedule is polled by the `k`th dispatch of a run. */
  predicate PolledAt(channels: seq<ChannelState>, clock: seq<int>, c: nat, k: nat)
    requires c < |channels| && k < |clock|
  {
    IsDue(DispatchAll(channels, clock[..k])[c], clock[k])
  }

  ghost predicate FirstInSlot(start: int, period: Period, clock: seq<int>, k: nat)
    requires k < |clock|
  {
    forall j | 0 <= j < k :: Slot(start, period, clock[j]) != Slot(start, period, clock[k])
  }

  lemma SlotBounds(start: int, period: Period, t: int)
    ensures start + Slot(start, period, t) * period <= t < start + (Slot(start, period, t) + 1) * period
  {
    var q, r := (t - start) / period, (t - start) % period;
    assert t - start == q * period + r;
  }

  lemma SlotMonotone(start: int, period: Period, s: int, t: int)
    requires s <= t
    ensures Slot(start, period, s) <= Slot(start, period, t)
  {
    SlotBounds(start, period, s);
    SlotBounds(start, period, t);
    if Slot(start, period, t) < Slot(start, period, s) {
      MulLe(Slot(start, period, t) + 1, Slot(start, period, s), period);
    }
  }

  /** Being due at the boundary that follows slot `s` means being in a later slot. */
  lemma DueAfterSlot(start: int, period: Period, s: int, t: int)
    ensures start + (s + 1) * period <= t <==> s < Slot(start, period, t)
  {
    SlotBounds(start, period, t);
    if s < Slot(start, period, t) {
      MulLe(s + 1, Slot(start, period, t), period);
    } else {
      MulLe(Slot(start, period, t) + 1, s + 1, period);
    }
  }

  /** From a grid point not after `t`, the next slot is the boundary that follows the slot of `t`. */
  lemma NextSlotOfGrid(start: int, period: Period, n: int, t: int)
    requires start + n * period <= t
    ensures NextSlot(start + n * period, period, t) == start + (Slot(start, period, t) + 1) * period
  {
    SlotBounds(start, period, t);
    var s := Slot(start, period, t);
    assert (s + 1 - n) * period == (s + 1) * period - n * period;
    assert (s + 1 - n - 1) * period == s * period - n * period;
    NextSlotOnGrid(start + n * period, period, t, s + 1 - n);
  }

  /** After a run, the deadline is the boundary that follows the slot of the last dispatch. */
  lemma {:induction false} DeadlineAfterRun(channels: seq<ChannelState>, start: int, clock: seq<int>, c: nat)
    requires c < |channels| && channels[c].nextDeadline == start && ClockRun(start, clock)
    ensures var channel := DispatchAll(channels, clock)[c];
            && channel.channelId == channels[c].channelId
            && channel.period == channels[c].period
            && channel.nextDeadline ==
               if clock == [] then start
               else start + (Slot(start, channel.period, clock[|clock| - 1]) + 1) * channel.period
  {
    if clock != [] {
      var earlier, now := clock[..|clock| - 1], clock[|clock| - 1];
      var period := channels[c].period;
      DeadlineAfterRun(channels, start, earlier, c);
      if earlier == [] {
        NextSlotOfGrid(start, period, 0, now);
      } else {
        var s := Slot(start, period, earlier[|earlier| - 1]);
        SlotMonotone(start, period, earlier[|earlier| - 1], now);
        DueAfterSlot(start, period, s, now);
        if s < Slot(start, period, now) {
          NextSlotOfGrid(start, period, s + 1, now);
        }
      }
    }
  }

  /**
   * Exact polling: a channel is polled by precisely the first dispatch in each of its period
   * slots that contains a dispatch at all.
   */
  lemma PolledOncePerSlot(channels: seq<ChannelState>, start: int, clock: seq<int>, c: nat, k: nat)
    requires c < |channels| && k < |clock|
    requires channels[c].nextDeadline == start && ClockRun(start, clock)
    ensures PolledAt(channels, clock, c, k) <==> FirstInSlot(start, channels[c].period, clock, k)
  {
    var period, earlier := channels[c].period, clock[..k];
    DeadlineAfterRun(channels, start, earlier, c);
    if k > 0 {
      var last := clock[k - 1];
      DueAfterSlot(start, period, Slot(start, period, last), clock[k]);
      SlotMonotone(start, period, last, clock[k]);
      forall j | 0 <= j < k ensures Slot(start, period, clock[j]) <= Slot(start, period, last) {
        SlotMonotone(start, period, clock[j], last);
      }
    }
  }

  function PollCount(channels: seq<ChannelState>, clock: seq<int>, c: nat, k: nat): nat
    requires c < |channels| && k <= |clock|
  {
    if k == 0 then 0
    else PollCount(channels, clock, c, k - 1) + if PolledAt(channels, clock, c, k - 1) then 1 else 0
  }

  ghost function SlotsVisited(start: int, period: Period, clock: seq<int>, k: nat): set<int>
    requires k <= |clock|
  {
    set j | 0 <= j < k :: Slot(start, period, clock[j])
  }

  /** The number of polls of a channel is the number of distinct slots its dispatches fall in. */
  lemma {:induction false} PollsCountSlots(channels: seq<ChannelState>, start: int, clock: seq<int>, c: nat, k: nat)
    requires c < |channels| && k <= |clock|
    requires channels[c].nextDeadline == start && ClockRun(start, clock)
    ensures PollCount(channels, clock, c, k) == |SlotsVisited(start, channels[c].period, clock, k)|
  {
    var period := channels[c].period;
    if k == 0 {
      assert SlotsVisited(start, period, clock, 0) == {};
    } else {
      PollsCountSlots(channels, start, clock, c, k - 1);
      PolledOncePerSlot(channels, start, clock, c, k - 1);
      SlotsGrow(start, period, clock, k - 1);
    }
  }

  lemma SlotsGrow(start: int, period: Period, clock: seq<int>, k: nat)
    requires k < |clock|
    ensures |SlotsVisited(start, period, clock, k + 1)|
         == |SlotsVisited(start, period, clock, k)| + if FirstInSlot(start, period, clock, k) then 1 else 0
  {
    var before, slot := SlotsVisited(start, period, clock, k), Slot(start, period, clock[k]);
    assert SlotsVisited(start, period, clock, k + 1) == before + {slot};
    assert slot in before <==> !FirstInSlot(start, period, clock, k);
  }
}
