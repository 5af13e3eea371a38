/** When buffered samples are due for upload: per-channel sync modes and what has been seen since the last flush. */
module UploadPolicies {
  import opened Samples

  /** Per-channel parameters; the remote interval is in nanoseconds. */
  datatype ChannelSyncState = ChannelSyncState(channelId: string, mode: SyncMode, priority: Priority,
                                               remoteInterval: int, onChangeThreshold: real,
                                               destinationRemote: bool)

  datatype RuntimeState = RuntimeState(config: ChannelSyncState, lastFlush: int, lastUploadedValue: real,
                                       hasUploadedValue: bool, pendingRealtime: bool, pendingOnChange: bool)

  datatype Policy = Policy(channels: map<string, RuntimeState>, anyPendingRealtime: bool, anyPendingOnChange: bool)

  function EmptyPolicy(): Policy {
    Policy(map[], false, false)
  }

  function Configured(policy: Policy, config: ChannelSyncState, now: int): Policy {
    policy.(channels := policy.channels[config.channelId := RuntimeState(config, now, 0.0, false, false, false)])
  }

  predicate Exceeds(value: real, base: real, threshold: real) {
    (if value < base then base - value else value - base) > threshold
  }

  /** Whether a sample value counts as a change for the channel. */
  predicate Triggers(state: RuntimeState, value: real) {
    !state.hasUploadedValue || Exceeds(value, state.lastUploadedValue, state.config.onChangeThreshold)
  }

  function Sampled(policy: Policy, channelId: string, value: real): Policy {
    if channelId !in policy.channels || !policy.channels[channelId].config.destinationRemote then policy
    else
      var state := policy.channels[channelId];
      match state.config.mode
      case Realtime =>
        policy.(channels := policy.channels[channelId := state.(pendingRealtime := true)],
                anyPendingRealtime := true)
      case OnChange =>
        if Triggers(state, value) then
          policy.(channels := policy.channels[channelId := state.(pendingOnChange := true, lastUploadedValue := value,
                                                                  hasUploadedValue := true)],
                  anyPendingOnChange := true)
        else policy
      case Batch => policy
  }

  predicate IntervalElapsed(state: RuntimeState, now: int) {
    && state.config.destinationRemote
    && state.config.mode.Batch?
    && now - state.lastFlush >= state.config.remoteInterval
  }

  predicate AnyIntervalElapsed(policy: Policy, now: int) {
    exists id | id in policy.channels :: IntervalElapsed(policy.channels[id], now)
  }

  predicate ShouldFlush(policy: Policy, now: int, bufferedCount: nat, maxBatchSize: nat) {
    && bufferedCount > 0
    && (|| (maxBatchSize > 0 && bufferedCount >= maxBatchSize)
        || policy.anyPendingRealtime || policy.anyPendingOnChange
        || AnyIntervalElapsed(policy, now))
  }

  function Restarted(state: RuntimeState, now: int): RuntimeState {
    state.(lastFlush := now, pendingRealtime := false, pendingOnChange := false)
  }

  function Flushed(policy: Policy, now: int): Policy {
    Policy(map id | id in policy.channels :: Restarted(policy.channels[id], now), false, false)
  }

  class UploadPolicy {
    var channels: map<string, RuntimeState>
    var anyPendingRealtime: bool
    var anyPendingOnChange: bool

    ghost function View(): Policy
      reads this
    {
      Policy(channels, anyPendingRealtime, anyPendingOnChange)
    }

    constructor ()
      ensures View() == EmptyPolicy()
    {
      channels, anyPendingRealtime, anyPendingOnChange := map[], false, false;
    }

    method ConfigureChannel(config: ChannelSyncState, now: int)
      modifies this
      ensures View() == Configured(old(View()), config, now)
    {
      var runtime := RuntimeState(config, now, 0.0, false, false, false);
      channels := channels[config.channelId := runtime];
    }

    method Clear()
      modifies this
      ensures View() == EmptyPolicy()
    {
      channels := map[];
      anyPendingRealtime := false;
      anyPendingOnChange := false;
    }

    method OnSample(channelId: string, value: real, now: int)
      modifies this
      ensures View() == Sampled(old(View()), channelId, value)
    {
      if channelId !in channels {
        return;
      }
      var state := channels[channelId];
      if !state.config.destinationRemote {
        return;
      }
      match state.config.mode {
        case Realtime =>
          channels := channels[channelId := state.(pendingRealtime := true)];
          anyPendingRealtime := true;
        case OnChange =>
          if !state.hasUploadedValue
             || Exceeds(value, state.lastUploadedValue, state.config.onChangeThreshold) {
            channels := channels[channelId := state.(pendingOnChange := true, lastUploadedValue := value,
                                                     hasUploadedValue := true)];
            anyPendingOnChange := true;
          }
        case Batch =>
      }
    }

    method QueryFlush(now: int, bufferedCount: nat, maxBatchSize: nat) returns (flush: bool)
      ensures flush == ShouldFlush(View(), now, bufferedCount, maxBatchSize)
    {
      if bufferedCount == 0 {
        return false;
      }
      if maxBatchSize > 0 && bufferedCount >= maxBatchSize {
        return true;
      }
      if anyPendingRealtime || anyPendingOnChange {
        return true;
      }
      var rest := channels.Keys;
      while rest != {}
        invariant rest <= channels.Keys
        invariant forall id | id in channels && id !in rest :: !IntervalElapsed(channels[id], now)
        decreases |rest|
      {
        var id :| id in rest;
        rest := rest - {id};
        var state := channels[id];
        if state.config.destinationRemote && state.config.mode.Batch?
           && now - state.lastFlush >= state.config.remoteInterval {
          assert IntervalElapsed(channels[id], now);
          return true;
        }
      }
      return false;
    }

    method MarkFlushed(now: int)
      modifies this
      ensures View() == Flushed(old(View()), now)
    {
      anyPendingRealtime := false;
      anyPendingOnChange := false;
      ghost var was := channels;
      var rest := channels.Keys;
      while rest != {}
        invariant !anyPendingRealtime && !anyPendingOnChange
        invariant channels.Keys == was.Keys && rest <= was.Keys
        invariant forall id | id in was ::
          channels[id] == if id in rest then was[id] else Restarted(was[id], now)
        decreases |rest|
      {
        var id :| id in rest;
        rest := rest - {id};
        var state := channels[id];
        channels := channels[id := state.(lastFlush := now, pendingRealtime := false, pendingOnChange := false)];
      }
      assert channels == Flushed(old(View()), now).channels;
    }
  }
}
