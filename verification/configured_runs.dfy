/** What a configuration establishes for the ticks that follow it, whether it succeeds or fails. */
module ConfiguredRuns {
  import opened Options
  import opened Schedulers
  import opened UploadPolicies
  import opened RingBuffers
  import opened SchedulerRuns
  import opened LocalStores
  import opened Protocol
  import opened Traces
  import opened Pipelines
  import opened EdgeRuns
  import opened TickGuarantees

  // ----- After a successful configuration -----

  /** The clock readings that the dispatches of some ticks take. */
  function Clock(inputs: seq<TickInput>): seq<int> {
    seq(|inputs|, k requires 0 <= k < |inputs| => inputs[k].now)
  }

  /** Ticks move the schedule only by dispatching at their clock readings. */
  lemma {:induction false} TicksDispatch(e: Edge, inputs: seq<TickInput>)
    requires e.bindings != map[]
    ensures var after := TickAll(e, inputs);
            after.bindings == e.bindings && after.schedule == DispatchAll(e.schedule, Clock(inputs))
  {
    hide TickAll;
    TickAllStep(e, inputs);
    if inputs != [] {
      var n := |inputs| - 1;
      TicksDispatch(e, inputs[..n]);
      TickDispatches(TickAll(e, inputs[..n]), inputs[n]);
      assert Clock(inputs)[..n] == Clock(inputs[..n]);
      assert Clock(inputs)[n] == inputs[n].now;
    }
  }

  /** A dispatch polls an id exactly when some channel with that id is due. */
  lemma {:induction false} DueIds(channels: seq<ChannelState>, now: int, id: string)
    ensures id in Due(channels, now) <==>
            exists c :: 0 <= c < |channels| && channels[c].channelId == id && IsDue(channels[c], now)
  {
    if channels != [] {
      var n := |channels| - 1;
      DueIds(channels[..n], now, id);
      assert forall c | 0 <= c < n :: channels[..n][c] == channels[c];
    }
  }

  predicate DistinctIds(channels: seq<ChannelState>) {
    forall c, d | 0 <= c < d < |channels| :: channels[c].channelId != channels[d].channelId
  }

  /**
   * Exact polling by the runtime: after a successful configuration with distinct ids, whatever the
   * drivers, the network and the store do, a tick polls a channel exactly when it is the first tick
   * in its period slot, counted from configure time.
   */
  lemma RuntimePollsOncePerSlot(e: Edge, config: Config, found: ConfigureInput, inputs: seq<TickInput>, c: nat, k: nat)
    requires ValidConfig(config, found) && ConfigureSucceeds(config, found)
    requires var configured := Reconfigure(e, config, found);
             && DistinctIds(configured.schedule) && c < |configured.schedule| && k < |inputs|
             && ClockRun(found.scheduleAt, Clock(inputs))
    ensures var configured := Reconfigure(e, config, found);
            var before := TickAll(configured, inputs[..k]);
            configured.schedule[c].channelId in Due(before.schedule, inputs[k].now)
            <==> FirstInSlot(found.scheduleAt, configured.schedule[c].period, Clock(inputs), k)
    ensures var channel := Reconfigure(e, config, found).schedule[c];
            exists i :: 0 <= i < |config.channels| && Enabled(config.channels[i])
                        && config.channels[i].id == channel.channelId
                        && IsPeriodOf(channel.period, config.channels[i].sampleRateHz)
  {
    var configured := Reconfigure(e, config, found);
    ConfigureEstablishes(e, config, found);
    TicksDispatch(configured, inputs[..k]);
    PollsAtSlot(configured.schedule, found.scheduleAt, Clock(inputs), c, k);
    assert Clock(inputs)[..k] == Clock(inputs[..k]);
    ScheduledAtRate(e, config, found, c);
  }

  lemma {:induction false} EntriesAreEnabled(channels: seq<ChannelConfig>, at: seq<int>, c: nat) returns (i: nat)
    requires |at| == |channels| && c < |SetUpChannels(channels, at).entries|
    ensures i < |channels| && Enabled(channels[i])
    ensures SetUpChannels(channels, at).entries[c] == ScheduleEntry(channels[i].id, channels[i].sampleRateHz)
  {
    hide SyncOf, Configured;
    var n := |channels| - 1;
    if c < |SetUpChannels(channels[..n], at[..n]).entries| {
      i := EntriesAreEnabled(channels[..n], at[..n], c);
    } else {
      i := n;
    }
  }

  /** A scheduled channel is an enabled one, at the period of its configured rate. */
  lemma ScheduledAtRate(e: Edge, config: Config, found: ConfigureInput, c: nat)
    requires ValidConfig(config, found) && ConfigureSucceeds(config, found)
    requires c < |Reconfigure(e, config, found).schedule|
    ensures var channel := Reconfigure(e, config, found).schedule[c];
            exists i :: 0 <= i < |config.channels| && Enabled(config.channels[i])
                        && config.channels[i].id == channel.channelId
                        && IsPeriodOf(channel.period, config.channels[i].sampleRateHz)
  {
    hide SetUpChannels, IsPeriodOf, PeriodFromHz;
    var i := EntriesAreEnabled(config.channels, found.channelAt, c);
    PeriodOfRate(config.channels[i].sampleRateHz);
  }

  lemma PollsAtSlot(channels: seq<ChannelState>, start: int, clock: seq<int>, c: nat, k: nat)
    requires c < |channels| && k < |clock| && ClockRun(start, clock) && DistinctIds(channels)
    requires forall d | 0 <= d < |channels| :: channels[d].nextDeadline == start
    ensures channels[c].channelId in Due(DispatchAll(channels, clock[..k]), clock[k])
            <==> FirstInSlot(start, channels[c].period, clock, k)
  {
    PolledOncePerSlot(channels, start, clock, c, k);
    var before := DispatchAll(channels, clock[..k]);
    forall d | 0 <= d < |channels| ensures before[d].channelId == channels[d].channelId {
      IdsKept(channels, clock[..k], d);
    }
    DueAlone(before, clock[k], c);
  }

  lemma {:induction false} IdsKept(channels: seq<ChannelState>, clock: seq<int>, d: nat)
    requires d < |channels|
    ensures DispatchAll(channels, clock)[d].channelId == channels[d].channelId
  {
    if clock != [] {
      IdsKept(channels, clock[..|clock| - 1], d);
    }
  }

  lemma DueAlone(channels: seq<ChannelState>, now: int, c: nat)
    requires c < |channels| && DistinctIds(channels)
    ensures channels[c].channelId in Due(channels, now) <==> IsDue(channels[c], now)
  {
    DueIds(channels, now, channels[c].channelId);
    forall d | 0 <= d < |channels| && channels[d].channelId == channels[c].channelId ensures d == c {
      assert !(c < d) && !(d < c);
    }
  }

  /** A successful configuration makes every scheduled channel due at once and clears the backoff. */
  lemma ConfigureEstablishes(e: Edge, config: Config, found: ConfigureInput)
    requires ValidConfig(config, found) && ConfigureSucceeds(config, found)
    ensures var after := Reconfigure(e, config, found);
            && (after.bindings == map[] <==> after.schedule == [])
            && (forall c | 0 <= c < |after.schedule| :: after.schedule[c].nextDeadline == found.scheduleAt)
            && after.target == (if config.serverUrl == "" then None else Some(Target(config.nodeId, config.apiKey)))
            && after.maxBatchSize == config.maxBatchSize
            && after.ring.capacity == (if config.maxBatchSize > 0 then config.maxBatchSize else 500)
            && (after.storeOpen <==> config.storePath != "")
            && (after.storeOpen ==> after.store == Store(true, found.file))
            && after.retryAttempt == 0 && after.accepted == 0 && after.ring.items == []
  {
    var setup := SetUpChannels(config.channels, found.channelAt);
    var schedule := Scheduled(setup.entries, found.scheduleAt);
    assert |schedule| == |setup.entries|;
  }

  predicate Enabled(c: ChannelConfig) {
    c.sampleRateHz > 0.0
  }

  /**
   * The loop of configure binds the driver of every enabled channel at the channel's priority,
   * schedules it at its rate and shows the policy its parameters, when ids are distinct.
   */
  lemma {:induction false} SetUpRegisters(channels: seq<ChannelConfig>, at: seq<int>, k: nat)
    requires |at| == |channels| && k < |channels| && Enabled(channels[k]) && SetUpChannels(channels, at).ok
    requires forall i, j | 0 <= i < j < |channels| :: channels[i].id != channels[j].id
    ensures var setup, c := SetUpChannels(channels, at), channels[k];
            && c.id in setup.bindings && setup.bindings[c.id] == c.priority
            && c.id in setup.policy.channels
            && setup.policy.channels[c.id].config ==
                 ChannelSyncState(c.id, c.mode, c.priority, c.remoteIntervalSeconds * 1_000_000_000,
                                  c.onChangeThreshold, c.destinationRemote)
            && setup.policy.channels[c.id].lastFlush == at[k] && !setup.policy.channels[c.id].hasUploadedValue
            && !setup.policy.channels[c.id].pendingRealtime && !setup.policy.channels[c.id].pendingOnChange
            && ScheduleEntry(c.id, c.sampleRateHz) in setup.entries
  {
    var n := |channels| - 1;
    if k < n {
      hide SyncOf;
      SyncFields(channels[n]);
      SetUpRegisters(channels[..n], at[..n], k);
    } else {
      NotYetBound(channels[..n], at[..n], channels[n].id);
    }
  }

  lemma SyncFields(c: ChannelConfig)
    ensures SyncOf(c).channelId == c.id
  {
  }

  lemma {:induction false} NotYetBound(channels: seq<ChannelConfig>, at: seq<int>, id: string)
    requires |at| == |channels| && forall i | 0 <= i < |channels| :: channels[i].id != id
    ensures id !in SetUpChannels(channels, at).bindings
  {
    if channels != [] {
      NotYetBound(channels[..|channels| - 1], at[..|channels| - 1], id);
    }
  }

  // ----- After a failed configuration -----

  predicate IsSend(event: Event) {
    event.Posted? || event.EmptyRetry?
  }

  function SendCount(trace: seq<Event>): nat {
    if trace == [] then 0
    else SendCount(trace[..|trace| - 1]) + if IsSend(trace[|trace| - 1]) then 1 else 0
  }

  lemma {:induction false} NoSends(trace: seq<Event>, events: seq<Event>)
    requires forall j | 0 <= j < |events| :: !IsSend(events[j])
    ensures SendCount(trace + events) == SendCount(trace)
  {
    if events == [] {
      assert trace + events == trace;
    } else {
      NoSends(trace, events[..|events| - 1]);
      assert (trace + events)[..|trace + events| - 1] == trace + events[..|events| - 1];
    }
  }

  lemma PollSendsNothing(e: Edge, id: string, priority: Samples.Priority, sample: Samples.Sample)
    ensures SendCount(PolledSample(e, id, priority, sample).trace) == SendCount(e.trace)
  {
    hide Samples.FromSample, Enqueued, Sampled;
    var stored := Samples.FromSample(sample, priority);
    NoSends(e.trace, [Polled(id, stored)] + OverflowEvents(e.ring, stored));
  }

  /** Without an uploader no tick sends anything or touches the queue. */
  lemma {:induction false} SilentWithoutUploader(e: Edge, inputs: seq<TickInput>)
    requires e.target == None
    ensures var after := TickAll(e, inputs);
            after.target == None && SendCount(after.trace) == SendCount(e.trace) && after.store == e.store
  {
    hide TickAll;
    TickAllStep(e, inputs);
    if inputs != [] {
      var n := |inputs| - 1;
      SilentWithoutUploader(e, inputs[..n]);
      var before, input := TickAll(e, inputs[..n]), inputs[n];
      if before.bindings != map[] {
        AfterPollsOnly(before, input);
        forall f: Edge, id, priority, sample | SendCount(f.trace) == SendCount(before.trace)
          ensures SendCount(PolledSample(f, id, priority, sample).trace) == SendCount(before.trace)
        {
          PollSendsNothing(f, id, priority, sample);
        }
        PollPhaseKeeps((f: Edge) => SendCount(f.trace) == SendCount(before.trace), before, input);
      }
    }
  }

  /**
   * A failed configuration keeps the old schedule but has no uploader: the ticks that follow send
   * nothing and leave the pending rows alone, until the next configuration.
   */
  lemma FailedConfigureIsSilent(e: Edge, config: Config, found: ConfigureInput, inputs: seq<TickInput>)
    requires ValidConfig(config, found) && !ConfigureSucceeds(config, found)
    ensures var failed := Reconfigure(e, config, found);
            && failed.schedule == e.schedule
            && SendCount(TickAll(failed, inputs).trace) == SendCount(e.trace)
            && TickAll(failed, inputs).store == failed.store
  {
    ReconfigureShape(e, config, found);
    NoSends(e.trace, [Reconfigured(e.ring.items)]);
    SilentWithoutUploader(Reconfigure(e, config, found), inputs);
  }

  // ----- When a failed configuration leaves nothing but a schedule -----

  predicate DriverWorks(c: ChannelConfig) {
    c.driverKnown && c.driverConfigures
  }

  /** The first enabled channel has a driver that is unknown or refuses its parameters. */
  ghost predicate FirstEnabledFails(channels: seq<ChannelConfig>) {
    exists k | 0 <= k < |channels| ::
      Enabled(channels[k]) && !DriverWorks(channels[k]) && NoneEnabled(channels[..k])
  }

  predicate NoneEnabled(channels: seq<ChannelConfig>) {
    forall j | 0 <= j < |channels| :: !Enabled(channels[j])
  }

  lemma FirstEnabledFailsStep(channels: seq<ChannelConfig>)
    requires channels != []
    ensures var init, last := channels[..|channels| - 1], channels[|channels| - 1];
            && (NoneEnabled(channels) <==> NoneEnabled(init) && !Enabled(last))
            && (FirstEnabledFails(channels) <==>
                  FirstEnabledFails(init) || (NoneEnabled(init) && Enabled(last) && !DriverWorks(last)))
  {
    hide Enabled, DriverWorks;
    var n := |channels| - 1;
    forall k | 0 <= k < n ensures channels[..n][..k] == channels[..k] && channels[..n][k] == channels[k] {
    }
    hide NoneEnabled;
  }

  lemma {:induction false} NothingIsBoundIff(channels: seq<ChannelConfig>, at: seq<int>)
    requires |at| == |channels|
    ensures var setup := SetUpChannels(channels, at);
            && (setup.bindings == map[] && setup.ok <==> NoneEnabled(channels))
            && (setup.bindings == map[] && !setup.ok <==> FirstEnabledFails(channels))
  {
    if channels != [] {
      hide SyncOf, Configured, NoneEnabled, FirstEnabledFails;
      NothingIsBoundIff(channels[..|channels| - 1], at[..|channels| - 1]);
      FirstEnabledFailsStep(channels);
    }
  }

  /**
   * A reload leaves the runtime with deadlines and no driver exactly when there were deadlines before
   * and it fails before it binds a channel: the store does not open, or the first enabled channel's
   * driver is bad. From then on, until the next reload, no tick does anything and the wake-up stays
   * where it is.
   */
  lemma ReloadFreezesIff(e: Edge, config: Config, found: ConfigureInput, inputs: seq<TickInput>, countOk: bool)
    requires ValidConfig(config, found)
    ensures var after := Reconfigure(e, config, found);
            && (after.bindings == map[] && after.schedule != []
                <==> e.schedule != []
                     && ((config.storePath != "" && !found.openOk) || FirstEnabledFails(config.channels)))
            && (after.bindings == map[] && after.schedule != [] ==>
                  && TickAll(after, inputs) == after && NextWake(after, countOk) == Earliest(e.schedule))
  {
    hide TickAll, FirstEnabledFails, SetUpChannels;
    var after := Reconfigure(e, config, found);
    NothingIsBoundIff(config.channels, found.channelAt);
    if after.bindings == map[] {
      UnboundIsStuck(after, inputs);
    }
  }
}
