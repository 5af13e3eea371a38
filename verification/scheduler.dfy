/** The deadline scheduler: one next deadline per channel, in nanoseconds, with skip-ahead on overrun. */
module Schedulers {
  import opened Clocks
  import opened Options

  type Period = n: int | 0 < n witness 1

  datatype ScheduleEntry = ScheduleEntry(channelId: string, sampleRateHz: real)

  datatype ChannelState = ChannelState(channelId: string, period: Period, nextDeadline: int)

  /** The nanosecond period of a rate, truncated; rates that are not positive get one second. */
  function PeriodFromHz(sampleRateHz: real): int {
    if sampleRateHz <= 0.0 then NANOS_PER_SECOND
    else (NANOS_PER_SECOND as real / sampleRateHz).Floor
  }

  /** Rates above 1 GHz truncate to a period of zero, which the catch-up loop never gets past. */
  predicate Schedulable(entries: seq<ScheduleEntry>) {
    forall e | e in entries :: e.sampleRateHz <= NANOS_PER_SECOND as real
  }

  lemma PeriodIsPositive(sampleRateHz: real)
    ensures PeriodFromHz(sampleRateHz) >= 1 <==> sampleRateHz <= NANOS_PER_SECOND as real
    ensures PeriodFromHz(sampleRateHz) >= 0
  {
    if sampleRateHz > 0.0 {
      var quotient := NANOS_PER_SECOND as real / sampleRateHz;
      assert quotient * sampleRateHz == NANOS_PER_SECOND as real;
      if quotient < 1.0 {
        assert quotient * sampleRateHz < 1.0 * sampleRateHz;
      } else {
        assert quotient * sampleRateHz >= 1.0 * sampleRateHz;
      }
    }
  }

  /** The period is the number of whole nanoseconds between samples at this rate. */
  predicate IsPeriodOf(period: int, sampleRateHz: real) {
    period as real * sampleRateHz <= 1_000_000_000.0 < (period + 1) as real * sampleRateHz
  }

  lemma Between(low: real, quotient: real, high: real, rate: real, total: real)
    requires rate > 0.0 && low <= quotient < high && quotient * rate == total
    ensures low * rate <= total < high * rate
  {
    assert (high - quotient) * rate > 0.0;
    assert (quotient - low) * rate >= 0.0;
  }

  lemma BracketIsPeriod(period: int, quotient: real, rate: real)
    requires rate > 0.0 && quotient * rate == 1_000_000_000.0 && period as real <= quotient < (period + 1) as real
    ensures IsPeriodOf(period, rate)
  {
    Between(period as real, quotient, (period + 1) as real, rate, 1_000_000_000.0);
  }

  lemma QuotientTimes(a: real, b: real)
    requires b != 0.0
    ensures a / b * b == a
  {
  }

  /** The period of every rate, and of the rates that are not positive. */
  lemma PeriodOfRate(sampleRateHz: real)
    ensures sampleRateHz > 0.0 ==> IsPeriodOf(PeriodFromHz(sampleRateHz), sampleRateHz)
    ensures sampleRateHz <= 0.0 ==> PeriodFromHz(sampleRateHz) == 1_000_000_000
  {
    hide IsPeriodOf;
    if sampleRateHz > 0.0 {
      QuotientTimes(1_000_000_000.0, sampleRateHz);
      var quotient := 1_000_000_000.0 / sampleRateHz;
      BracketIsPeriod(quotient.Floor, quotient, sampleRateHz);
    }
  }

  predicate IsDue(channel: ChannelState, now: int) {
    channel.nextDeadline <= now
  }

  /** Least point of the grid `deadline + n * period` that lies after `now`. */
  function NextSlot(deadline: int, period: Period, now: int): int {
    deadline + ((now - deadline) / period + 1) * period
  }

  function Advance(channel: ChannelState, now: int): ChannelState {
    if IsDue(channel, now) then
      channel.(nextDeadline := NextSlot(channel.nextDeadline, channel.period, now))
    else channel
  }

  function Dispatched(channels: seq<ChannelState>, now: int): seq<ChannelState> {
    seq(|channels|, c requires 0 <= c < |channels| => Advance(channels[c], now))
  }

  /** The channels polled by a dispatch, in schedule order. */
  function Due(channels: seq<ChannelState>, now: int): seq<string> {
    if channels == [] then []
    else
      var last := channels[|channels| - 1];
      Due(channels[..|channels| - 1], now) + if IsDue(last, now) then [last.channelId] else []
  }

  /** The ids from position `k` on whose deadline has come, first channel first. */
  function IdsDue(channels: seq<ChannelState>, now: int, k: nat): seq<string>
    requires k <= |channels|
    decreases |channels| - k
  {
    if k == |channels| then []
    else (if channels[k].nextDeadline <= now then [channels[k].channelId] else []) + IdsDue(channels, now, k + 1)
  }

  lemma {:induction false} IdsDueSnoc(channels: seq<ChannelState>, now: int, k: nat)
    requires k < |channels|
    ensures var n := |channels| - 1;
            IdsDue(channels, now, k)
            == IdsDue(channels[..n], now, k) + if channels[n].nextDeadline <= now then [channels[n].channelId] else []
    decreases |channels| - k
  {
    if k < |channels| - 1 {
      IdsDueSnoc(channels, now, k + 1);
    }
  }

  /** A dispatch polls the channels whose deadline has come, all of them and in schedule order. */
  lemma {:induction false} DueInOrder(channels: seq<ChannelState>, now: int)
    ensures Due(channels, now) == IdsDue(channels, now, 0)
  {
    if channels != [] {
      hide IdsDue;
      DueInOrder(channels[..|channels| - 1], now);
      IdsDueSnoc(channels, now, 0);
    }
  }

  function Scheduled(entries: seq<ScheduleEntry>, now: int): (channels: seq<ChannelState>)
    requires Schedulable(entries)
    ensures |channels| == |entries|
  {
    seq(|entries|, c requires 0 <= c < |entries| =>
      PeriodIsPositive(entries[c].sampleRateHz);
      ChannelState(entries[c].channelId, PeriodFromHz(entries[c].sampleRateHz), now))
  }

  ghost predicate IsEarliest(channels: seq<ChannelState>, deadline: int) {
    && (exists c | 0 <= c < |channels| :: channels[c].nextDeadline == deadline)
    && (forall c | 0 <= c < |channels| :: deadline <= channels[c].nextDeadline)
  }

  function Earliest(channels: seq<ChannelState>): (deadline: Option<int>)
    ensures deadline == None <==> channels == []
    ensures deadline.Some? ==> IsEarliest(channels, deadline.value)
  {
    if channels == [] then None
    else
      var last := channels[|channels| - 1].nextDeadline;
      match Earliest(channels[..|channels| - 1])
      case None => Some(last)
      case Some(earlier) => Some(if last < earlier then last else earlier)
  }

  lemma QuotientIs(x: int, period: Period, q: int)
    requires q * period <= x < (q + 1) * period
    ensures x / period == q
  {
    var quotient := x / period;
    assert x == quotient * period + x % period;
    if quotient < q {
      MulLe(quotient + 1, q, period);
    } else if q < quotient {
      MulLe(q + 1, quotient, period);
    }
  }

  /** A point one period past the clock on the grid of a deadline is the next slot. */
  lemma NextSlotOnGrid(deadline: int, period: Period, now: int, steps: int)
    requires deadline + (steps - 1) * period <= now < deadline + steps * period
    ensures deadline + steps * period == NextSlot(deadline, period, now)
  {
    QuotientIs(now - deadline, period, steps - 1);
  }

  lemma MulLe(a: int, b: int, c: nat)
    requires a <= b
    ensures a * c <= b * c
  {
    assert (b - a) * c >= 0;
  }

  /** Closed form of the catch-up loop: the least grid point strictly after the clock. */
  lemma NextSlotIsLeast(deadline: int, period: Period, now: int, n: int)
    ensures NextSlot(deadline, period, now) > now
    ensures deadline + n * period > now ==> deadline + n * period >= NextSlot(deadline, period, now)
    ensures deadline <= now ==> NextSlot(deadline, period, now) > deadline
  {
    var quotient, rest := (now - deadline) / period, (now - deadline) % period;
    assert now - deadline == quotient * period + rest;
    if n <= quotient {
      MulLe(n, quotient, period);
    } else {
      MulLe(quotient + 1, n, period);
    }
  }

  /** For a due channel the catch-up loop can end exactly when the rate is at most 1 GHz. */
  lemma CatchUpEndsIff(deadline: int, sampleRateHz: real, now: int)
    requires deadline <= now
    ensures (exists n: nat :: CaughtUp(deadline, PeriodFromHz(sampleRateHz), now, n))
            <==> sampleRateHz <= NANOS_PER_SECOND as real
  {
    var period := PeriodFromHz(sampleRateHz);
    PeriodIsPositive(sampleRateHz);
    if period >= 1 {
      MulLe(1, period, now - deadline + 1);
      assert CaughtUp(deadline, period, now, now - deadline + 1);
    }
  }

  predicate CaughtUp(deadline: int, period: int, now: int, steps: nat) {
    deadline + steps * period > now
  }

  /** The schedule while a dispatch has dealt with the first `c` channels. */
  ghost function PartlyDispatched(channels: seq<ChannelState>, now: int, c: nat): seq<ChannelState>
    requires c <= |channels|
  {
    Dispatched(channels, now)[..c] + channels[c..]
  }

  lemma PartlyDispatchedStep(channels: seq<ChannelState>, now: int, c: nat)
    requires c < |channels|
    ensures PartlyDispatched(channels, now, c)[c] == channels[c]
    ensures PartlyDispatched(channels, now, c)[c := Advance(channels[c], now)] == PartlyDispatched(channels, now, c + 1)
    ensures PartlyDispatched(channels, now, 0) == channels
    ensures PartlyDispatched(channels, now, |channels|) == Dispatched(channels, now)
  {
  }

  class Scheduler {
    var channels: seq<ChannelState>

    constructor ()
      ensures channels == []
    {
      channels := [];
    }

    method Configure(entries: seq<ScheduleEntry>, now: int)
      requires Schedulable(entries)
      modifies this
      ensures channels == Scheduled(entries, now)
    {
      channels := [];
      for c := 0 to |entries|
        invariant channels == Scheduled(entries, now)[..c]
      {
        var entry := entries[c];
        assert entry in entries;
        PeriodIsPositive(entry.sampleRateHz);
        channels := channels + [ChannelState(entry.channelId, PeriodFromHz(entry.sampleRateHz), now)];
      }
    }

    /** Advances every due channel and returns their ids, in order, for polling. */
    method DispatchDue(now: int) returns (due: seq<string>)
      modifies this
      ensures due == Due(old(channels), now)
      ensures channels == Dispatched(old(channels), now)
    {
      due := [];
      ghost var was := channels;
      for c := 0 to |channels|
        invariant |channels| == |was|
        invariant channels == PartlyDispatched(was, now, c)
        invariant due == Due(was[..c], now)
      {
        hide NextSlot;
        PartlyDispatchedStep(was, now, c);
        assert was[..c + 1][..c] == was[..c];
        var channel := channels[c];
        if channel.nextDeadline <= now {
          due := due + [channel.channelId];
          var next := CatchUp(channel.nextDeadline, channel.period, now);
          channels := channels[c := channel.(nextDeadline := next)];
        }
      }
      assert was[..|was|] == was;
    }

    /** The catch-up loop of one due channel. */
    method CatchUp(deadline: int, period: Period, now: int) returns (next: int)
      requires deadline <= now
      ensures next == NextSlot(deadline, period, now)
    {
      next := deadline + period;
      ghost var steps := 1;
      while next <= now
        invariant next == deadline + steps * period
        invariant deadline + (steps - 1) * period <= now
        decreases now - next
      {
        next := next + period;
        steps := steps + 1;
      }
      NextSlotOnGrid(deadline, period, now, steps);
      NextSlotIsLeast(deadline, period, now, 0);
      if next <= deadline {
        // The branch for a period that does not advance is dead code.
        assert false;
      }
    }

    method NextDeadline() returns (deadline: Option<int>)
      ensures deadline == Earliest(channels)
    {
      deadline := None;
      for c := 0 to |channels|
        invariant deadline == Earliest(channels[..c])
      {
        assert channels[..c + 1][..c] == channels[..c];
        var candidate := channels[c].nextDeadline;
        if deadline == None || candidate < deadline.value {
          deadline := Some(candidate);
        }
      }
      assert channels[..|channels|] == channels;
    }
  }
}
