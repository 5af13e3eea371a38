/** What the runtime reads and posts after a configuration, in terms of that configuration. */
module ConfiguredPosts {
  import opened Options
  import opened Samples
  import opened Schedulers
  import opened LocalStores
  import opened Protocol
  import opened Traces
  import opened HttpUploaders
  import opened Workers
  import opened Pipelines
  import opened EdgeRuns
  import opened TickGuarantees
  import opened ConfiguredRuns
  import opened PolicyRuns
  import opened BatchLogs

  // ----- The samples of a poll phase, in order -----

  function StoredAt(priority: Priority, samples: seq<Sample>): seq<StoredSample> {
    seq(|samples|, k requires 0 <= k < |samples| => FromSample(samples[k], priority))
  }

  /** The readings of the polls from the `k`th on whose channel has a driver, first poll first. */
  function ReadInOrder(bindings: map<string, Priority>, ids: seq<string>, readings: seq<Reading>, k: nat)
    : seq<StoredSample>
    requires k <= |ids|
    decreases |ids| - k
  {
    if k == |ids| then []
    else
      (if ids[k] in bindings then StoredAt(bindings[ids[k]], ReadingOf(readings, k).samples) else [])
      + ReadInOrder(bindings, ids, readings, k + 1)
  }

  lemma {:induction false} ReadInOrderSnoc(bindings: map<string, Priority>, ids: seq<string>, readings: seq<Reading>,
                                           k: nat)
    requires k < |ids|
    ensures var n := |ids| - 1;
            ReadInOrder(bindings, ids, readings, k)
            == ReadInOrder(bindings, ids[..n], readings, k)
               + if ids[n] in bindings then StoredAt(bindings[ids[n]], ReadingOf(readings, n).samples) else []
    decreases |ids| - k
  {
    hide StoredAt, ReadingOf;
    if k < |ids| - 1 {
      ReadInOrderSnoc(bindings, ids, readings, k + 1);
    }
  }

  /** `after` continues `before` with polls of these samples. */
  ghost predicate Polls(before: Edge, after: Edge, samples: seq<StoredSample>) {
    && before.trace <= after.trace && after.bindings == before.bindings
    && PolledIn(after.trace[|before.trace|..]) == samples
  }

  lemma PollsSample(e: Edge, f: Edge, read: seq<StoredSample>, id: string, priority: Priority, sample: Sample)
    requires Polls(e, f, read)
    ensures Polls(e, PolledSample(f, id, priority, sample), read + [FromSample(sample, priority)])
  {
    hide FromSample, OverflowEvents, PolledIn;
    var stored := FromSample(sample, priority);
    var events, since := [Polled(id, stored)] + OverflowEvents(f.ring, stored), f.trace[|e.trace|..];
    OnePoll(id, stored, f.ring);
    PolledInAppend(since, events);
    assert (f.trace + events)[|e.trace|..] == since + events;
  }

  lemma {:induction false} PollsSamples(e: Edge, f: Edge, read: seq<StoredSample>, id: string, priority: Priority,
                                        samples: seq<Sample>)
    requires Polls(e, f, read)
    ensures Polls(e, PolledSamples(f, id, priority, samples), read + StoredAt(priority, samples))
  {
    hide FromSample, Polls, PolledSample;
    if samples == [] {
      assert read + StoredAt(priority, samples) == read;
    } else {
      var n := |samples| - 1;
      PollsSamples(e, f, read, id, priority, samples[..n]);
      PollsSample(e, PolledSamples(f, id, priority, samples[..n]), read + StoredAt(priority, samples[..n]), id, priority,
                  samples[n]);
      assert read + StoredAt(priority, samples[..n]) + [FromSample(samples[n], priority)]
             == read + StoredAt(priority, samples);
    }
  }

  lemma {:induction false} PollsAll(e: Edge, ids: seq<string>, readings: seq<Reading>)
    ensures Polls(e, PolledAll(e, ids, readings), ReadInOrder(e.bindings, ids, readings, 0))
  {
    if ids != [] {
      hide StoredAt, PolledSamples, ReadInOrder, PolledIn;
      var n := |ids| - 1;
      var before, read := PolledAll(e, ids[..n], readings), ReadInOrder(e.bindings, ids[..n], readings, 0);
      PollsAll(e, ids[..n], readings);
      ReadInOrderSnoc(e.bindings, ids, readings, 0);
      if ids[n] in e.bindings {
        PollsSamples(e, before, read, ids[n], e.bindings[ids[n]], ReadingOf(readings, n).samples);
      } else {
        assert read + [] == read;
      }
    } else {
      assert e.trace[|e.trace|..] == [];
    }
  }

  /** A poll phase reads the due channels that have a driver in schedule order, each reading in its own order. */
  lemma PollPhaseReadsInOrder(e: Edge, input: TickInput)
    ensures var polled := AfterPolls(e, input);
            && e.trace <= polled.trace
            && PolledIn(polled.trace[|e.trace|..])
               == ReadInOrder(e.bindings, Due(e.schedule, input.now), input.readings, 0)
  {
    PollsAll(e.(schedule := Dispatched(e.schedule, input.now)), Due(e.schedule, input.now), input.readings);
  }

  // ----- Every event after a configuration -----

  /** What one event may be, given the drivers and the uploader. */
  predicate Expected(bindings: map<string, Priority>, target: Option<Target>, event: Event) {
    match event
    case Polled(channel, sample) => channel in bindings && sample.priority == bindings[channel]
    case Posted(_, batch, request, _, _, _) => target.Some? && request == RequestOf(target.value, batch)
    case _ => true
  }

  ghost predicate Continues(bindings: map<string, Priority>, target: Option<Target>, a: seq<Event>, b: seq<Event>) {
    a <= b && forall j | |a| <= j < |b| :: Expected(bindings, target, b[j])
  }

  lemma ContinuesTwice(bindings: map<string, Priority>, target: Option<Target>, a: seq<Event>, b: seq<Event>,
                       c: seq<Event>)
    requires Continues(bindings, target, a, b) && Continues(bindings, target, b, c)
    ensures Continues(bindings, target, a, c)
  {
    hide Expected;
    forall j | |a| <= j < |c| ensures Expected(bindings, target, c[j]) {
      if j < |b| {
        assert c[j] == b[j];
      }
    }
  }

  lemma ContinuesBy(bindings: map<string, Priority>, target: Option<Target>, a: seq<Event>, events: seq<Event>)
    requires forall j | 0 <= j < |events| :: Expected(bindings, target, events[j])
    ensures Continues(bindings, target, a, a + events)
  {
    hide Expected;
    forall j | |a| <= j < |a + events| ensures Expected(bindings, target, (a + events)[j]) {
      assert (a + events)[j] == events[j - |a|];
    }
  }

  /** The bindings and the target are those of `e`, and the trace continues its own as they say. */
  ghost predicate GoesOn(e: Edge, f: Edge) {
    f.bindings == e.bindings && f.target == e.target && Continues(e.bindings, e.target, e.trace, f.trace)
  }

  lemma SampleGoesOn(e: Edge, f: Edge, id: string, sample: Sample)
    requires GoesOn(e, f) && id in e.bindings
    ensures GoesOn(e, PolledSample(f, id, e.bindings[id], sample))
  {
    hide Continues, OverflowEvents;
    var stored := FromSample(sample, e.bindings[id]);
    StoredFields(sample, e.bindings[id]);
    hide FromSample;
    OverflowIsExpected(e.bindings, e.target, f.ring, stored);
    ContinuesBy(e.bindings, e.target, f.trace, [Polled(id, stored)] + OverflowEvents(f.ring, stored));
    ContinuesTwice(e.bindings, e.target, e.trace, f.trace, PolledSample(f, id, e.bindings[id], sample).trace);
  }

  lemma OverflowIsExpected(bindings: map<string, Priority>, target: Option<Target>, ring: RingBuffers.Ring, stored: StoredSample)
    ensures forall j | 0 <= j < |OverflowEvents(ring, stored)| :: Expected(bindings, target, OverflowEvents(ring, stored)[j])
  {
  }

  lemma {:induction false} SamplesGoOn(e: Edge, f: Edge, id: string, samples: seq<Sample>)
    requires GoesOn(e, f) && id in e.bindings
    ensures GoesOn(e, PolledSamples(f, id, e.bindings[id], samples))
  {
    hide GoesOn, PolledSample;
    if samples != [] {
      var n := |samples| - 1;
      SamplesGoOn(e, f, id, samples[..n]);
      SampleGoesOn(e, PolledSamples(f, id, e.bindings[id], samples[..n]), id, samples[n]);
    }
  }

  lemma {:induction false} PollsGoOn(e: Edge, f: Edge, ids: seq<string>, readings: seq<Reading>)
    requires GoesOn(e, f)
    ensures GoesOn(e, PolledAll(f, ids, readings))
  {
    hide Continues, PolledSamples;
    if ids != [] {
      var n := |ids| - 1;
      PollsGoOn(e, f, ids[..n], readings);
      if ids[n] in e.bindings {
        SamplesGoOn(e, PolledAll(f, ids[..n], readings), ids[n], ReadingOf(readings, n).samples);
      }
    }
  }

  lemma FlushGoesOn(e: Edge, i: FlushInput)
    requires Sound(e)
    ensures Continues(e.bindings, e.target, e.trace, AfterFlush(e, i).trace)
  {
    hide UploadAttempt, BackoffDelay, RequestOf, FlushBatch, Continues;
    var events := if Flushes(e, i) then FlushAttempt(e, i).step.events else [];
    if Flushes(e, i) {
      FlushIsAttempt(e, i);
    } else {
      assert e.trace + events == e.trace;
    }
    ContinuesBy(e.bindings, e.target, e.trace, events);
  }

  lemma RetryGoesOn(e: Edge, i: RetryInput)
    requires Sound(e)
    ensures Continues(e.bindings, e.target, e.trace, AfterRetry(e, i).trace)
  {
    hide RetryAttempt, BackoffDelay, RequestOf, SampleOf, Continues;
    var events := if Retries(e, i) then RetryOf(e, i).step.events else [];
    if Retries(e, i) {
      RetryIsAttempt(e, i);
    } else {
      assert e.trace + events == e.trace;
    }
    ContinuesBy(e.bindings, e.target, e.trace, events);
  }

  lemma TickGoesOn(e: Edge, input: TickInput)
    requires Sound(e)
    ensures GoesOn(e, Tick(e, input))
  {
    hide AfterPolls, AfterFlush, AfterRetry, Continues, Sound;
    ContinuesBy(e.bindings, e.target, e.trace, []);
    assert e.trace + [] == e.trace;
    if e.bindings != map[] {
      var polled := AfterPolls(e, input);
      var flushed := AfterFlush(polled, input.flush);
      TickKeepsSound(e, input);
      PollPhaseGoesOn(e, input);
      TickDispatches(e, input);
      TickKeepsSetup(e, input);
      SendingKeepsBindings(polled, input.flush);
      FlushGoesOn(polled, input.flush);
      RetryGoesOn(flushed, input.retry);
      ContinuesTwice(e.bindings, e.target, e.trace, polled.trace, flushed.trace);
      ContinuesTwice(e.bindings, e.target, e.trace, flushed.trace, Tick(e, input).trace);
    }
  }

  lemma PollPhaseGoesOn(e: Edge, input: TickInput)
    ensures GoesOn(e, AfterPolls(e, input))
  {
    hide Continues, PolledAll;
    var dispatched := e.(schedule := Dispatched(e.schedule, input.now));
    ContinuesBy(e.bindings, e.target, e.trace, []);
    assert e.trace + [] == e.trace;
    PollsGoOn(e, dispatched, Due(e.schedule, input.now), input.readings);
  }

  lemma SendingKeepsBindings(e: Edge, i: FlushInput)
    ensures AfterFlush(e, i).bindings == e.bindings && AfterFlush(e, i).target == e.target
  {
    hide UploadAttempt, BackoffDelay, FlushBatch;
  }

  lemma {:induction false} TicksGoOn(e: Edge, inputs: seq<TickInput>)
    requires Sound(e)
    ensures Sound(TickAll(e, inputs)) && GoesOn(e, TickAll(e, inputs))
  {
    hide TickAll, Tick, Sound, Continues;
    TickAllStep(e, inputs);
    if inputs == [] {
      ContinuesBy(e.bindings, e.target, e.trace, []);
      assert e.trace + [] == e.trace;
    } else {
      var n := |inputs| - 1;
      var before := TickAll(e, inputs[..n]);
      TicksGoOn(e, inputs[..n]);
      TickKeepsSound(before, inputs[n]);
      TickGoesOn(before, inputs[n]);
      ContinuesTwice(e.bindings, e.target, e.trace, before.trace, TickAll(e, inputs).trace);
    }
  }

  // ----- In the words of the configuration -----

  /** Of the enabled channels with its id, channel `c` is the first. */
  ghost predicate FirstEnabled(channels: seq<ChannelConfig>, c: nat) {
    && c < |channels| && channels[c].sampleRateHz > 0.0
    && forall d | 0 <= d < c && channels[d].sampleRateHz > 0.0 :: channels[d].id != channels[c].id
  }

  /** A driver is bound at the priority of the first enabled channel with its id. */
  lemma {:induction false} BoundAtPriority(channels: seq<ChannelConfig>, at: seq<int>, id: string) returns (c: nat)
    requires |at| == |channels|
    ensures id in SetUpChannels(channels, at).bindings ==>
              && FirstEnabled(channels, c) && channels[c].id == id
              && SetUpChannels(channels, at).bindings[id] == channels[c].priority
    ensures id !in SetUpChannels(channels, at).bindings && SetUpChannels(channels, at).ok ==>
              forall d | 0 <= d < |channels| && channels[d].sampleRateHz > 0.0 :: channels[d].id != id
  {
    hide SyncOf, UploadPolicies.Configured;
    c := 0;
    if channels != [] {
      var n := |channels| - 1;
      c := BoundAtPriority(channels[..n], at[..n], id);
      if id !in SetUpChannels(channels[..n], at[..n]).bindings {
        c := n;
      }
    }
  }

  /** The authorization header for a key. */
  function BearerOf(apiKey: string): Option<string> {
    if apiKey == "" then None else Some("Bearer " + apiKey)
  }

  /**
   * After a successful configuration and any ticks: every sample polled since was read for an enabled
   * channel and has that channel's priority; and there is a POST only if there is a URL, it carries its
   * batch for the configured node, and its token is the configured key, which decides whether the
   * Worker refuses it with 401.
   */
  lemma EventsAreAsConfigured(e: Edge, config: Config, found: ConfigureInput, inputs: seq<TickInput>, j: nat,
                              database: Database)
    requires Sound(e) && ValidConfig(config, found) && WellKeyed(found.file) && ConfigureSucceeds(config, found)
    requires var configured := Reconfigure(e, config, found);
             |configured.trace| <= j < |TickAll(configured, inputs).trace|
    ensures var event := TickAll(Reconfigure(e, config, found), inputs).trace[j];
            && (event.Polled? ==>
                  exists c: nat :: FirstEnabled(config.channels, c) && config.channels[c].id == event.channel
                                   && event.sample.priority == config.channels[c].priority)
            && (event.Posted? ==>
                  && config.serverUrl != ""
                  && event.request.authorization == BearerOf(config.apiKey)
                  && (Status(event.request, database) == 401 <==> config.apiKey == "")
                  && event.request.body.Json? && event.request.body.nodeId == config.nodeId
                  && event.request.body.samples.Some? && |event.request.body.samples.value| == |event.batch|
                  && forall k | 0 <= k < |event.batch| :: event.request.body.samples.value[k] == WireOf(event.batch[k]))
  {
    hide TickAll, Sound, SetUpChannels, WireOf, StatementsOf;
    var configured := Reconfigure(e, config, found);
    ReconfigureKeepsSound(e, config, found);
    TicksGoOn(configured, inputs);
    ConfigureEstablishes(e, config, found);
    var event := TickAll(configured, inputs).trace[j];
    assert Expected(configured.bindings, configured.target, event);
    match event
    case Polled(channel, sample) =>
      var c := BoundAtPriority(config.channels, found.channelAt, channel);
    case Posted(_, batch, request, _, _, _) =>
      RequestFields(configured.target.value, batch);
      if config.apiKey != "" {
        assert ("Bearer " + config.apiKey)[..7] == "Bearer ";
      }
    case _ =>
  }
}
