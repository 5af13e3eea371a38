/** The runtime's flush decisions, read off what it has polled and posted since its configuration. */
module PolicyRuns {
  import opened Options
  import opened Samples
  import opened RingBuffers
  import opened Schedulers
  import opened PolicyHistory
  import opened LocalStores
  import opened Protocol
  import opened Traces
  import opened HttpUploaders
  import opened Pipelines
  import opened EdgeRuns

  /** What one event of the edge means to the policy: a sample, or a flush that was not a transient failure. */
  function PolicyMeaning(event: Event): seq<PolicyEvent> {
    match event
    case Polled(channel, sample) => [PolicyEvent.Sample(channel, sample.value)]
    case Posted(FlushPost, _, _, _, at, _) => if ResultOf(event).TransientFailure? then [] else [Flush(at)]
    case _ => []
  }

  function PolicyEvents(trace: seq<Event>): seq<PolicyEvent> {
    if trace == [] then []
    else PolicyEvents(trace[..|trace| - 1]) + PolicyMeaning(trace[|trace| - 1])
  }

  lemma {:induction false} PolicyEventsAppend(a: seq<Event>, b: seq<Event>)
    ensures PolicyEvents(a + b) == PolicyEvents(a) + PolicyEvents(b)
  {
    if b == [] {
      assert a + b == a;
    } else {
      assert (a + b)[..|a + b| - 1] == a + b[..|b| - 1];
      PolicyEventsAppend(a, b[..|b| - 1]);
    }
  }

  lemma {:induction false} NoMeaning(events: seq<Event>)
    requires forall j | 0 <= j < |events| :: PolicyMeaning(events[j]) == []
    ensures PolicyEvents(events) == []
  {
    if events != [] {
      NoMeaning(events[..|events| - 1]);
    }
  }

  lemma {:induction false} RunFromAppend(policy: UploadPolicies.Policy, a: seq<PolicyEvent>, b: seq<PolicyEvent>)
    ensures RunFrom(policy, a + b) == RunFrom(RunFrom(policy, a), b)
  {
    if b == [] {
      assert a + b == a;
    } else {
      assert (a + b)[..|a + b| - 1] == a + b[..|b| - 1];
      RunFromAppend(policy, a, b[..|b| - 1]);
    }
  }

  /** `after` extends the trace of `e`, and its policy is what the new events make of the old one. */
  ghost predicate Follows(e: Edge, after: Edge) {
    && e.trace <= after.trace
    && after.policy == RunFrom(e.policy, PolicyEvents(after.trace[|e.trace|..]))
  }

  lemma FollowsTwice(a: Edge, b: Edge, c: Edge)
    requires Follows(a, b) && Follows(b, c)
    ensures Follows(a, c)
  {
    var first, second := b.trace[|a.trace|..], c.trace[|b.trace|..];
    assert c.trace[|a.trace|..] == first + second;
    PolicyEventsAppend(first, second);
    RunFromAppend(a.policy, PolicyEvents(first), PolicyEvents(second));
  }

  lemma FollowsBy(e: Edge, after: Edge, events: seq<Event>)
    requires after.trace == e.trace + events && after.policy == RunFrom(e.policy, PolicyEvents(events))
    ensures Follows(e, after)
  {
    assert after.trace[|e.trace|..] == events;
  }

  lemma OneMeaning(event: Event)
    ensures PolicyEvents([event]) == PolicyMeaning(event)
  {
    assert [event][..0] == [];
  }

  lemma OneStep(policy: UploadPolicies.Policy, event: PolicyEvent)
    ensures RunFrom(policy, [event]) == PolicyHistory.Apply(policy, event)
  {
    assert [event][..0] == [];
  }

  lemma PollMeans(id: string, stored: StoredSample, ring: Ring)
    ensures PolicyEvents([Polled(id, stored)] + OverflowEvents(ring, stored)) == [PolicyEvent.Sample(id, stored.value)]
  {
    var overflow := OverflowEvents(ring, stored);
    NoMeaning(overflow);
    OneMeaning(Polled(id, stored));
    PolicyEventsAppend([Polled(id, stored)], overflow);
  }

  lemma PollMeansSample(e: Edge, id: string, priority: Priority, sample: Samples.Sample)
    ensures Follows(e, PolledSample(e, id, priority, sample))
  {
    hide Truncated, Enqueued, OverflowEvents;
    var stored := FromSample(sample, priority);
    PollMeans(id, stored, e.ring);
    OneStep(e.policy, PolicyEvent.Sample(id, sample.value));
    FollowsBy(e, PolledSample(e, id, priority, sample), [Polled(id, stored)] + OverflowEvents(e.ring, stored));
  }

  lemma AfterPollsFollow(e: Edge, input: TickInput)
    ensures Follows(e, AfterPolls(e, input))
  {
    hide Follows, PolledSample;
    var dispatched := e.(schedule := Dispatched(e.schedule, input.now));
    FollowsBy(e, dispatched, []);
    forall f, id, priority, sample | Follows(e, f) ensures Follows(e, PolledSample(f, id, priority, sample)) {
      PollMeansSample(f, id, priority, sample);
      FollowsTwice(e, f, PolledSample(f, id, priority, sample));
    }
    PollPhaseKeeps(f => Follows(e, f), e, input);
  }

  lemma FlushShape(e: Edge, i: FlushInput)
    requires Flushes(e, i)
    ensures var attempt, after := FlushAttempt(e, i), AfterFlush(e, i);
            && after.trace == e.trace + attempt.step.events
            && after.policy == if attempt.result.TransientFailure? then e.policy
                               else UploadPolicies.Flushed(e.policy, i.at)
  {
    hide UploadAttempt, UploadPolicies.ShouldFlush, UploadPolicies.Flushed, BackoffDelay, FlushBatch;
  }

  lemma FlushPostMeaning(batch: seq<StoredSample>, request: Request, outcome: PostOutcome, at: int, failedAt: int)
    ensures PolicyMeaning(Posted(FlushPost, batch, request, outcome, at, failedAt))
         == if InterpretResponse(outcome.response).TransientFailure? then [] else [Flush(at)]
  {
  }

  /** The policy is told of a flush exactly when its POST is accepted or rejected. */
  lemma FlushFollows(e: Edge, i: FlushInput)
    requires Sound(e)
    ensures Follows(e, AfterFlush(e, i))
  {
    hide Follows, PolicyMeaning, InterpretResponse, RequestOf, FlushBatch, Sound, UploadPolicies.Flushed, FlushAttempt;
    if Flushes(e, i) {
      hide AfterFlush;
      FlushIsAttempt(e, i);
      FlushShape(e, i);
      var events := FlushAttempt(e, i).step.events;
      AttemptMeaning(events, FlushPost);
      FlushPostMeaning(FlushBatch(e), RequestOf(e.target.value, FlushBatch(e)), i.outcome, i.at, i.failedAt);
      OneStep(e.policy, Flush(i.at));
      FollowsBy(e, AfterFlush(e, i), events);
    } else {
      FollowsBy(e, e, []);
    }
  }

  lemma RetryFollows(e: Edge, i: RetryInput)
    requires Sound(e)
    ensures Follows(e, AfterRetry(e, i))
  {
    hide RequestOf, BackoffDelay, RetryAttempt, Sound, Peeked;
    if Retries(e, i) {
      RetryIsAttempt(e, i);
      var events := RetryOf(e, i).step.events;
      AttemptMeaning(events, RetryPost);
      assert PolicyMeaning(events[0]) == [];
      FollowsBy(e, AfterRetry(e, i), events);
    } else {
      FollowsBy(e, e, []);
    }
  }

  lemma BookkeepingMeansNothing(event: Event)
    requires IsPersistence(event) || event.Deleted?
    ensures PolicyMeaning(event) == []
  {
  }

  lemma AttemptMeaning(events: seq<Event>, kind: PostKind)
    requires |events| > 0
    requires forall j | 1 <= j < |events| :: IsPersistence(events[j]) || events[j].Deleted?
    ensures PolicyEvents(events) == PolicyMeaning(events[0])
  {
    hide PolicyMeaning, InterpretResponse;
    var rest := events[1..];
    assert events == [events[0]] + rest;
    forall j | 0 <= j < |rest| ensures PolicyMeaning(rest[j]) == [] {
      BookkeepingMeansNothing(events[j + 1]);
    }
    NoMeaning(rest);
    OneMeaning(events[0]);
    PolicyEventsAppend([events[0]], rest);
  }

  lemma TickFollows(e: Edge, input: TickInput)
    requires Sound(e)
    ensures Follows(e, Tick(e, input))
  {
    if e.bindings == map[] {
      FollowsBy(e, e, []);
    } else {
      hide AfterPolls, AfterFlush, AfterRetry, Follows, Sound;
      var polled := AfterPolls(e, input);
      var flushed := AfterFlush(polled, input.flush);
      TickKeepsSound(e, input);
      AfterPollsFollow(e, input);
      FlushFollows(polled, input.flush);
      RetryFollows(flushed, input.retry);
      FollowsTwice(e, polled, flushed);
      FollowsTwice(e, flushed, Tick(e, input));
    }
  }

  lemma {:induction false} TicksFollow(e: Edge, inputs: seq<TickInput>)
    requires Sound(e)
    ensures Sound(TickAll(e, inputs)) && Follows(e, TickAll(e, inputs))
  {
    hide TickAll;
    TickAllStep(e, inputs);
    if inputs == [] {
      FollowsBy(e, e, []);
    } else {
      hide Tick, Follows, Sound;
      var n := |inputs| - 1;
      TicksFollow(e, inputs[..n]);
      TickKeepsSound(TickAll(e, inputs[..n]), inputs[n]);
      TickFollows(TickAll(e, inputs[..n]), inputs[n]);
      FollowsTwice(e, TickAll(e, inputs[..n]), TickAll(e, inputs));
    }
  }

  /** The configuration of the enabled channels, as policy events. */
  function ConfigureEvents(channels: seq<ChannelConfig>, at: seq<int>): seq<PolicyEvent>
    requires |at| == |channels|
  {
    if channels == [] then []
    else
      var n := |channels| - 1;
      ConfigureEvents(channels[..n], at[..n])
      + if channels[n].sampleRateHz > 0.0 then [Configure(SyncOf(channels[n]), at[n])] else []
  }

  lemma {:induction false} SetUpIsRun(channels: seq<ChannelConfig>, at: seq<int>)
    requires |at| == |channels| && SetUpChannels(channels, at).ok
    ensures SetUpChannels(channels, at).policy == PolicyHistory.Run(ConfigureEvents(channels, at))
  {
    if channels != [] {
      var n := |channels| - 1;
      SetUpIsRun(channels[..n], at[..n]);
      if channels[n].sampleRateHz > 0.0 {
        var event := Configure(SyncOf(channels[n]), at[n]);
        RunFromAppend(UploadPolicies.EmptyPolicy(), ConfigureEvents(channels[..n], at[..n]), [event]);
        OneStep(PolicyHistory.Run(ConfigureEvents(channels[..n], at[..n])), event);
      } else {
        assert ConfigureEvents(channels, at) == ConfigureEvents(channels[..n], at[..n]);
      }
    }
  }

  /** Everything the policy has been told when the flush phase of a tick begins. */
  ghost function HistoryAt(configured: Edge, config: Config, found: ConfigureInput, polled: Edge): seq<PolicyEvent>
    requires ValidConfig(config, found) && configured.trace <= polled.trace
  {
    ConfigureEvents(config.channels, found.channelAt) + PolicyEvents(polled.trace[|configured.trace|..])
  }

  /** Of the enabled channels with its id, channel `c` is the last. */
  ghost predicate InUse(channels: seq<ChannelConfig>, c: nat) {
    && c < |channels| && channels[c].sampleRateHz > 0.0
    && forall d | c < d < |channels| && channels[d].sampleRateHz > 0.0 :: channels[d].id != channels[c].id
  }

  /** The clock reading of the last flush POST of a trace that was not a transient failure. */
  function LastFlushed(trace: seq<Event>, start: int): int {
    if trace == [] then start
    else
      var last := trace[|trace| - 1];
      if last.Posted? && last.kind.FlushPost? && !ResultOf(last).TransientFailure? then last.at
      else LastFlushed(trace[..|trace| - 1], start)
  }

  /** A remote batch channel's configured seconds have passed since `start` or the last such flush. */
  predicate SecondsPassed(channel: ChannelConfig, trace: seq<Event>, start: int, now: int) {
    && channel.destinationRemote && channel.mode.Batch?
    && now - LastFlushed(trace, start) >= channel.remoteIntervalSeconds * 1_000_000_000
  }

  lemma ConfigureSnoc(history: seq<PolicyEvent>, config: UploadPolicies.ChannelSyncState, at: int, id: string)
    ensures var longer, mine := history + [Configure(config, at)], config.channelId == id;
            && InForce(longer, id) == (if mine then Some(config) else InForce(history, id))
            && LastReset(longer, id) == if mine then at else LastReset(history, id)
  {
    assert (history + [Configure(config, at)])[..|history|] == history;
  }

  /** The configured parameters of a channel in force after configure are those of the last enabled one with its id. */
  lemma {:induction false} ConfiguredInForce(channels: seq<ChannelConfig>, at: seq<int>, id: string)
    returns (c: Option<nat>)
    requires |at| == |channels|
    ensures var history := ConfigureEvents(channels, at);
            match c
            case None =>
              InForce(history, id) == None
              && forall d | 0 <= d < |channels| && channels[d].sampleRateHz > 0.0 :: channels[d].id != id
            case Some(c) =>
              && InUse(channels, c) && channels[c].id == id
              && InForce(history, id) == Some(SyncOf(channels[c])) && LastReset(history, id) == at[c]
  {
    if channels == [] {
      c := None;
    } else {
      hide SyncOf, InForce, LastReset;
      var n := |channels| - 1;
      c := ConfiguredInForce(channels[..n], at[..n], id);
      assert forall d | 0 <= d < n :: channels[..n][d] == channels[d] && at[..n][d] == at[d];
      if channels[n].sampleRateHz > 0.0 {
        SyncKeepsId(channels[n]);
        ConfigureSnoc(ConfigureEvents(channels[..n], at[..n]), SyncOf(channels[n]), at[n], id);
        if channels[n].id == id {
          c := Some(n);
        }
      } else {
        assert ConfigureEvents(channels, at) == ConfigureEvents(channels[..n], at[..n]);
      }
    }
  }

  lemma SyncKeepsId(channel: ChannelConfig)
    ensures SyncOf(channel).channelId == channel.id
  {
  }

  lemma MeaningSnoc(history: seq<PolicyEvent>, event: Event, id: string)
    ensures var longer := history + PolicyMeaning(event);
            && InForce(longer, id) == InForce(history, id)
            && LastReset(longer, id) ==
                 if event.Posted? && event.kind.FlushPost? && !ResultOf(event).TransientFailure? then event.at
                 else LastReset(history, id)
  {
    hide InterpretResponse;
    var meaning := PolicyMeaning(event);
    if meaning == [] {
      assert history + meaning == history;
    } else {
      assert (history + meaning)[..|history|] == history;
    }
  }

  /** Samples and flushes leave the parameters alone, and a flush restarts every interval. */
  lemma {:induction false} TicksInForce(setup: seq<PolicyEvent>, trace: seq<Event>, id: string)
    ensures InForce(setup + PolicyEvents(trace), id) == InForce(setup, id)
    ensures LastReset(setup + PolicyEvents(trace), id) == LastFlushed(trace, LastReset(setup, id))
  {
    hide InForce, LastReset, PolicyMeaning, InterpretResponse;
    if trace == [] {
      assert setup + [] == setup;
    } else {
      var init, last := trace[..|trace| - 1], trace[|trace| - 1];
      TicksInForce(setup, init, id);
      MeaningSnoc(setup + PolicyEvents(init), last, id);
      assert setup + PolicyEvents(trace) == setup + PolicyEvents(init) + PolicyMeaning(last);
    }
  }

  lemma OverdueOf(channels: seq<ChannelConfig>, at: seq<int>, trace: seq<Event>, now: int, c: nat)
    requires c < |channels| == |at| && InUse(channels, c)
    ensures Overdue(ConfigureEvents(channels, at) + PolicyEvents(trace), channels[c].id, now)
            <==> SecondsPassed(channels[c], trace, at[c], now)
  {
    hide ConfigureEvents, PolicyEvents, InForce, LastReset, LastFlushed;
    var d := ConfiguredInForce(channels, at, channels[c].id);
    TicksInForce(ConfigureEvents(channels, at), trace, channels[c].id);
    assert d == Some(c);
  }

  lemma OverdueHasChannel(channels: seq<ChannelConfig>, at: seq<int>, trace: seq<Event>, now: int, id: string)
    returns (c: nat)
    requires |at| == |channels| && Overdue(ConfigureEvents(channels, at) + PolicyEvents(trace), id, now)
    ensures c < |channels| && InUse(channels, c) && channels[c].id == id
  {
    hide ConfigureEvents, PolicyEvents, InForce, LastReset;
    var d := ConfiguredInForce(channels, at, id);
    TicksInForce(ConfigureEvents(channels, at), trace, id);
    c := d.value;
  }

  /** Overdue, in terms of the configuration. */
  lemma OverdueIff(channels: seq<ChannelConfig>, at: seq<int>, trace: seq<Event>, now: int)
    requires |at| == |channels|
    ensures (exists id :: Overdue(ConfigureEvents(channels, at) + PolicyEvents(trace), id, now))
            <==> exists c: nat :: c < |channels| && InUse(channels, c) && SecondsPassed(channels[c], trace, at[c], now)
  {
    hide SecondsPassed, ConfigureEvents, PolicyEvents, Overdue, InUse;
    var history := ConfigureEvents(channels, at) + PolicyEvents(trace);
    if id :| Overdue(history, id, now) {
      var c := OverdueHasChannel(channels, at, trace, now, id);
      OverdueOf(channels, at, trace, now, c);
    }
    if c: nat :| c < |channels| && InUse(channels, c) && SecondsPassed(channels[c], trace, at[c], now) {
      OverdueOf(channels, at, trace, now, c);
    }
  }

  /**
   * When the runtime flushes: after a successful configuration with an uploader and any ticks, the
   * flush phase posts exactly when samples are buffered and the batch is full, or a realtime sample
   * or a change was polled that no accepted or rejected flush has followed, or the configured seconds
   * of a remote batch channel have passed since it was configured or such a flush.
   */
  lemma RuntimeFlushDecision(e: Edge, config: Config, found: ConfigureInput, inputs: seq<TickInput>, input: TickInput)
    requires Sound(e) && ValidConfig(config, found) && WellKeyed(found.file) && ConfigureSucceeds(config, found)
    requires config.serverUrl != ""
    ensures var configured := Reconfigure(e, config, found);
            var polled := AfterPolls(TickAll(configured, inputs), input);
            && configured.trace <= polled.trace
            && var history, since := HistoryAt(configured, config, found, polled), polled.trace[|configured.trace|..];
               Flushes(polled, input.flush) <==>
                 && polled.ring.items != []
                 && (|| |polled.ring.items| >= (if config.maxBatchSize < 1 then 1 else config.maxBatchSize)
                     || (exists k: nat | k < |history| :: RealtimeWaiting(history, k) || ChangeWaiting(history, k))
                     || (exists c: nat :: c < |config.channels| && InUse(config.channels, c)
                           && SecondsPassed(config.channels[c], since, found.channelAt[c], input.flush.at)))
  {
    hide IsRealtime, IsChange, InForce, Overdue, RealtimeWaiting, ChangeWaiting, SetUpChannels, PolledAll, Tick;
    hide SecondsPassed, InUse;
    var configured := Reconfigure(e, config, found);
    ReconfigureKeepsSound(e, config, found);
    TicksFollow(configured, inputs);
    AfterPollsFollow(TickAll(configured, inputs), input);
    var polled := AfterPolls(TickAll(configured, inputs), input);
    FollowsTwice(configured, TickAll(configured, inputs), polled);
    SetUpIsRun(config.channels, found.channelAt);
    var setup := ConfigureEvents(config.channels, found.channelAt);
    var since := polled.trace[|configured.trace|..];
    RunFromAppend(UploadPolicies.EmptyPolicy(), setup, PolicyEvents(since));
    FlushDecision(setup + PolicyEvents(since), input.flush.at, |polled.ring.items|, MaxBatch(config.maxBatchSize));
    OverdueIff(config.channels, found.channelAt, since, input.flush.at);
    TicksKeepSetup(configured, inputs);
    AfterPollsOnly(TickAll(configured, inputs), input);
    assert polled.policy == PolicyHistory.Run(setup + PolicyEvents(since));
    assert HistoryAt(configured, config, found, polled) == setup + PolicyEvents(since);
    assert MaxBatch(config.maxBatchSize) == if config.maxBatchSize < 1 then 1 else config.maxBatchSize;
    assert polled.maxBatchSize == config.maxBatchSize && polled.hasBuffer && polled.target.Some?;
  }

  /** Ticks never change the uploader, the buffer or the batch size. */
  lemma {:induction false} TicksKeepSetup(e: Edge, inputs: seq<TickInput>)
    ensures var after := TickAll(e, inputs);
            after.target == e.target && after.hasBuffer == e.hasBuffer && after.maxBatchSize == e.maxBatchSize
  {
    hide TickAll;
    TickAllStep(e, inputs);
    if inputs != [] {
      var n := |inputs| - 1;
      TicksKeepSetup(e, inputs[..n]);
      TickKeepsSetup(TickAll(e, inputs[..n]), inputs[n]);
    }
  }

  /** Flushing and retrying leave the setup alone and change the policy at most by a flush. */
  lemma SendingKeepsSetup(e: Edge, flush: FlushInput, retry: RetryInput)
    ensures var after := AfterRetry(AfterFlush(e, flush), retry);
            && after.target == e.target && after.hasBuffer == e.hasBuffer && after.maxBatchSize == e.maxBatchSize
            && (after.policy == e.policy || after.policy == UploadPolicies.Flushed(e.policy, flush.at))
  {
    hide UploadAttempt, RetryAttempt, UploadPolicies.ShouldFlush, BackoffDelay, PendingCount, FlushBatch;
  }

  lemma TickKeepsSetup(e: Edge, input: TickInput)
    ensures var after := Tick(e, input);
            after.target == e.target && after.hasBuffer == e.hasBuffer && after.maxBatchSize == e.maxBatchSize
  {
    hide AfterPolls, AfterFlush, AfterRetry;
    AfterPollsOnly(e, input);
    SendingKeepsSetup(AfterPolls(e, input), input.flush, input.retry);
  }

  // ----- The cached flags of the runtime -----

  ghost predicate PendingFree(policy: UploadPolicies.Policy) {
    && !policy.anyPendingRealtime && !policy.anyPendingOnChange
    && forall id | id in policy.channels ::
         !policy.channels[id].pendingRealtime && !policy.channels[id].pendingOnChange
  }

  lemma {:induction false} SetUpIsPendingFree(channels: seq<ChannelConfig>, at: seq<int>)
    requires |at| == |channels|
    ensures PendingFree(SetUpChannels(channels, at).policy)
  {
    if channels != [] {
      SetUpIsPendingFree(channels[..|channels| - 1], at[..|channels| - 1]);
    }
  }

  lemma TickKeepsFlags(e: Edge, input: TickInput)
    requires FlagsAgree(e.policy)
    ensures FlagsAgree(Tick(e, input).policy)
  {
    hide FlagsAgree, AfterPolls, AfterFlush, AfterRetry, FromSample, Enqueued, OverflowEvents;
    forall f: Edge, id, priority, sample: Samples.Sample | FlagsAgree(f.policy)
      ensures FlagsAgree(PolledSample(f, id, priority, sample).policy)
    {
      StepKeepsAgreement(f.policy, PolicyEvent.Sample(id, sample.value));
    }
    PollPhaseKeeps((f: Edge) => FlagsAgree(f.policy), e, input);
    var polled := AfterPolls(e, input);
    SendingKeepsSetup(polled, input.flush, input.retry);
    StepKeepsAgreement(polled.policy, Flush(input.flush.at));
  }

  lemma ReconfigureMakesAgree(e: Edge, config: Config, found: ConfigureInput)
    requires ValidConfig(config, found)
    ensures FlagsAgree(Reconfigure(e, config, found).policy)
  {
    hide SetUpChannels, Scheduled;
    SetUpIsPendingFree(config.channels, found.channelAt);
  }

  /**
   * The runtime never gets a cached flag with nothing behind it, because configure clears the policy
   * before it registers channels: in every reachable state the cached flags are the disjunctions.
   */
  lemma {:induction false} RuntimeFlagsConsistent(disk: LocalStores.Table, steps: seq<Step>)
    requires ValidSteps(steps)
    ensures FlagsAgree(EdgeRuns.Run(Constructed(disk), steps).policy)
  {
    hide Reconfigure, Tick;
    if steps != [] {
      var n := |steps| - 1;
      RuntimeFlagsConsistent(disk, steps[..n]);
      var before := EdgeRuns.Run(Constructed(disk), steps[..n]);
      match steps[n]
      case Ticked(input) => TickKeepsFlags(before, input);
      case Reloaded(config, found) => ReconfigureMakesAgree(before, config, found);
    }
  }
}
