/** Exactly how much the ring gives up, over one poll phase and over whole runs. */
module Overruns {
  import opened Samples
  import opened RingBuffers
  import opened Schedulers
  import opened LocalStores
  import opened Protocol
  import opened Traces
  import opened HttpUploaders
  import opened Pipelines
  import opened EdgeRuns
  import opened Conservation

  // ----- One tick -----

  /** How many samples a poll phase reads: those of the polls whose channel has a driver. */
  function SamplesRead(bindings: map<string, Priority>, ids: seq<string>, readings: seq<Reading>): nat {
    if ids == [] then 0
    else
      var n := |ids| - 1;
      SamplesRead(bindings, ids[..n], readings) + if ids[n] in bindings then |ReadingOf(readings, n).samples| else 0
  }

  function Excess(count: nat, capacity: nat): nat {
    if count > capacity then count - capacity else 0
  }

  /** How many samples a trace gives up because the ring is full. */
  function OverrunCount(trace: seq<Event>): nat {
    GoneBy(Overrun, All(), trace)
  }

  /** `after` is `e` with `count` more samples offered to the ring: what does not fit is given up. */
  ghost predicate Offered(e: Edge, after: Edge, count: nat) {
    var total := |e.ring.items| + count;
    && after.ring.capacity == e.ring.capacity && after.bindings == e.bindings
    && |after.ring.items| == Min(total, e.ring.capacity)
    && OverrunCount(after.trace) == OverrunCount(e.trace) + Excess(total, e.ring.capacity)
    && after.ring.drops == e.ring.drops + Excess(total, e.ring.capacity)
  }

  lemma OverrunAppend(a: seq<Event>, b: seq<Event>)
    ensures OverrunCount(a + b) == OverrunCount(a) + OverrunCount(b)
  {
    FateAppend(Overrun, All(), a, b);
  }

  lemma PollEventsOverrun(id: string, ring: Ring, stored: StoredSample)
    ensures OverrunCount([Polled(id, stored)] + OverflowEvents(ring, stored))
         == if |ring.items| < ring.capacity then 0 else 1
  {
    var poll, overflow := [Polled(id, stored)], OverflowEvents(ring, stored);
    OverrunAppend(poll, overflow);
    OneEventFate(Overrun, All(), poll[0]);
    if overflow != [] {
      OneEventFate(Overrun, All(), overflow[0]);
    }
  }

  lemma PollOffers(e: Edge, f: Edge, count: nat, id: string, priority: Priority, sample: Sample)
    requires |e.ring.items| <= e.ring.capacity && Offered(e, f, count)
    ensures Offered(e, PolledSample(f, id, priority, sample), count + 1)
  {
    hide FromSample, OverrunCount, OverflowEvents, DropOffset;
    var stored := FromSample(sample, priority);
    PollEventsOverrun(id, f.ring, stored);
    OverrunAppend(f.trace, [Polled(id, stored)] + OverflowEvents(f.ring, stored));
  }

  lemma {:induction false} SamplesOffer(e: Edge, f: Edge, count: nat, id: string, priority: Priority, samples: seq<Sample>)
    requires |e.ring.items| <= e.ring.capacity && Offered(e, f, count)
    ensures Offered(e, PolledSamples(f, id, priority, samples), count + |samples|)
  {
    hide PolledSample, Offered;
    if samples != [] {
      var n := |samples| - 1;
      SamplesOffer(e, f, count, id, priority, samples[..n]);
      PollOffers(e, PolledSamples(f, id, priority, samples[..n]), count + n, id, priority, samples[n]);
    }
  }

  lemma {:induction false} PollsOffer(e: Edge, ids: seq<string>, readings: seq<Reading>)
    requires |e.ring.items| <= e.ring.capacity
    ensures Offered(e, PolledAll(e, ids, readings), SamplesRead(e.bindings, ids, readings))
  {
    hide OverrunCount, PolledSamples;
    if ids != [] {
      var n := |ids| - 1;
      var before, count := PolledAll(e, ids[..n], readings), SamplesRead(e.bindings, ids[..n], readings);
      PollsOffer(e, ids[..n], readings);
      if ids[n] in e.bindings {
        SamplesOffer(e, before, count, ids[n], e.bindings[ids[n]], ReadingOf(readings, n).samples);
      }
    }
  }

  /** The samples that a tick reads. */
  function TickReads(e: Edge, input: TickInput): nat {
    SamplesRead(e.bindings, Due(e.schedule, input.now), input.readings)
  }

  /**
   * The poll phase gives up exactly as many samples as the residents and what it reads exceed the
   * capacity, counts each in the drop counter, and otherwise keeps them all.
   */
  lemma PollPhaseOverruns(e: Edge, input: TickInput)
    requires Sound(e)
    ensures Offered(e, AfterPolls(e, input), TickReads(e, input))
  {
    PollsOffer(e.(schedule := Dispatched(e.schedule, input.now)), Due(e.schedule, input.now), input.readings);
  }

  lemma FlushOverrunsNothing(e: Edge, i: FlushInput)
    requires Sound(e)
    ensures OverrunCount(AfterFlush(e, i).trace) == OverrunCount(e.trace) && AfterFlush(e, i).ring.drops == e.ring.drops
  {
    hide UploadAttempt, BackoffDelay, RequestOf, FlushBatch, OverrunCount;
    if Flushes(e, i) {
      var events := FlushAttempt(e, i).step.events;
      FlushIsAttempt(e, i);
      PostingOverrunsNothing(events);
      OverrunAppend(e.trace, events);
    }
  }

  lemma RetryOverrunsNothing(e: Edge, i: RetryInput)
    requires Sound(e)
    ensures OverrunCount(AfterRetry(e, i).trace) == OverrunCount(e.trace) && AfterRetry(e, i).ring.drops == e.ring.drops
  {
    hide RetryAttempt, BackoffDelay, RequestOf, SampleOf, OverrunCount;
    if Retries(e, i) {
      var events := RetryOf(e, i).step.events;
      RetryIsAttempt(e, i);
      PostingOverrunsNothing(events);
      OverrunAppend(e.trace, events);
    }
  }

  lemma PostingOverrunsNothing(events: seq<Event>)
    requires forall j | 0 <= j < |events| ::
               events[j].Posted? || events[j].EmptyRetry? || events[j].Deleted? || IsPersistence(events[j])
    ensures OverrunCount(events) == 0
  {
    NoSuchFate(Overrun, All(), events);
  }

  // ----- Whole runs -----

  /** How far a tick exceeds the capacity. */
  function TickOverrun(e: Edge, input: TickInput): nat {
    if e.bindings == map[] then 0 else Excess(|e.ring.items| + TickReads(e, input), e.ring.capacity)
  }

  lemma TickOverruns(e: Edge, input: TickInput)
    requires Sound(e)
    ensures var after := Tick(e, input);
            && OverrunCount(after.trace) == OverrunCount(e.trace) + TickOverrun(e, input)
            && after.ring.drops == e.ring.drops + TickOverrun(e, input)
  {
    hide AfterPolls, AfterFlush, AfterRetry, Sound, OverrunCount, TickReads;
    PollPhaseOverruns(e, input);
    TickKeepsSound(e, input);
    FlushOverrunsNothing(AfterPolls(e, input), input.flush);
    RetryOverrunsNothing(AfterFlush(AfterPolls(e, input), input.flush), input.retry);
  }

  function RunOverrun(e: Edge, steps: seq<Step>): nat
    requires ValidSteps(steps)
  {
    if steps == [] then 0
    else
      var n := |steps| - 1;
      RunOverrun(e, steps[..n]) + if steps[n].Ticked? then TickOverrun(Run(e, steps[..n]), steps[n].input) else 0
  }

  /** No tick of the run finds, with what it reads, more samples than the ring can hold. */
  predicate NeverExceeds(e: Edge, steps: seq<Step>)
    requires ValidSteps(steps)
  {
    steps == []
    || (var n := |steps| - 1;
        var before := Run(e, steps[..n]);
        && NeverExceeds(e, steps[..n])
        && (steps[n].Ticked? && before.bindings != map[] ==>
              |before.ring.items| + TickReads(before, steps[n].input) <= before.ring.capacity))
  }

  lemma {:induction false} RunOverrunNoneIff(e: Edge, steps: seq<Step>)
    requires ValidSteps(steps)
    ensures RunOverrun(e, steps) == 0 <==> NeverExceeds(e, steps)
  {
    hide Apply, TickReads;
    if steps != [] {
      RunOverrunNoneIff(e, steps[..|steps| - 1]);
    }
  }

  lemma ReconfigureOverrunsNothing(e: Edge, config: Config, found: ConfigureInput)
    requires ValidConfig(config, found)
    ensures OverrunCount(Reconfigure(e, config, found).trace) == OverrunCount(e.trace)
  {
    hide Reconfigure, OverrunCount;
    ReconfigureShape(e, config, found);
    OverrunAppend(e.trace, [Reconfigured(e.ring.items)]);
    ReconfiguredIsNoOverrun(e.ring.items);
  }

  lemma ReconfiguredIsNoOverrun(items: seq<StoredSample>)
    ensures OverrunCount([Reconfigured(items)]) == 0
  {
    OneEventFate(Overrun, All(), Reconfigured(items));
  }

  lemma {:induction false} RunOverruns(e: Edge, steps: seq<Step>)
    requires Sound(e) && ValidSteps(steps) && KeyedFiles(steps)
    ensures OverrunCount(Run(e, steps).trace) == OverrunCount(e.trace) + RunOverrun(e, steps)
  {
    hide Sound, Tick, Reconfigure, TickOverrun, OverrunCount;
    if steps != [] {
      var n := |steps| - 1;
      RunOverruns(e, steps[..n]);
      RunKeepsSound(e, steps[..n]);
      match steps[n]
      case Ticked(input) => TickOverruns(Run(e, steps[..n]), input);
      case Reloaded(config, found) => ReconfigureOverrunsNothing(Run(e, steps[..n]), config, found);
    }
  }

  /**
   * Overrun over every run from construction: what the ring gives up is exactly by how much each tick
   * exceeds its capacity, so nothing is given up iff no tick does.
   */
  lemma NothingIsOverrunIff(disk: Table, steps: seq<Step>)
    requires WellKeyed(disk) && ValidSteps(steps) && KeyedFiles(steps)
    ensures var trace := Run(Constructed(disk), steps).trace;
            && OverrunCount(trace) == RunOverrun(Constructed(disk), steps)
            && (OverrunCount(trace) == 0 <==> NeverExceeds(Constructed(disk), steps))
  {
    hide Run;
    RunOverruns(Constructed(disk), steps);
    RunOverrunNoneIff(Constructed(disk), steps);
  }

  // ----- The drop counter -----

  /** The samples given up since the last configuration. */
  function OverrunSince(trace: seq<Event>): nat {
    if trace == [] || trace[|trace| - 1].Reconfigured? then 0
    else OverrunSince(trace[..|trace| - 1]) + if trace[|trace| - 1].Overflowed? then 1 else 0
  }

  /** Between configurations both counts move together. */
  lemma {:induction false} OverrunSinceGrows(trace: seq<Event>, events: seq<Event>)
    requires forall j | 0 <= j < |events| :: !events[j].Reconfigured?
    ensures OverrunSince(trace + events) == OverrunSince(trace) + OverrunCount(events)
  {
    if events == [] {
      assert trace + events == trace;
    } else {
      assert (trace + events)[..|trace + events| - 1] == trace + events[..|events| - 1];
      OverrunSinceGrows(trace, events[..|events| - 1]);
    }
  }

  lemma TickCountsDrops(e: Edge, input: TickInput)
    requires Sound(e) && e.ring.drops == OverrunSince(e.trace)
    ensures Tick(e, input).ring.drops == OverrunSince(Tick(e, input).trace)
  {
    hide Tick, Sound, OverrunCount, OverrunSince, TickOverrun;
    var events := TickEvents(e, input);
    TickOverruns(e, input);
    OverrunAppend(e.trace, events);
    OverrunSinceGrows(e.trace, events);
  }

  /** What a tick appends to the trace; it is never a configuration. */
  lemma TickEvents(e: Edge, input: TickInput) returns (events: seq<Event>)
    requires Sound(e)
    ensures Tick(e, input).trace == e.trace + events
    ensures forall j | 0 <= j < |events| :: !events[j].Reconfigured?
  {
    hide AfterPolls, AfterFlush, AfterRetry, Sound;
    if e.bindings == map[] {
      events := [];
    } else {
      var polled := AfterPolls(e, input);
      var flushed := AfterFlush(polled, input.flush);
      TickKeepsSound(e, input);
      var polls := PollEvents(e, input);
      var posts := FlushEvents(polled, input.flush);
      var resends := RetryEvents(flushed, input.retry);
      events := polls + posts + resends;
      assert e.trace + polls + posts + resends == e.trace + events;
    }
  }

  ghost predicate Continues(e: Edge, after: Edge) {
    && e.trace <= after.trace
    && forall j | |e.trace| <= j < |after.trace| :: !after.trace[j].Reconfigured?
  }

  lemma PollEvents(e: Edge, input: TickInput) returns (events: seq<Event>)
    ensures AfterPolls(e, input).trace == e.trace + events
    ensures forall j | 0 <= j < |events| :: !events[j].Reconfigured?
  {
    hide AfterPolls, FromSample, Enqueued;
    PollPhaseKeeps(f => Continues(e, f), e, input);
    events := AfterPolls(e, input).trace[|e.trace|..];
  }

  lemma FlushEvents(e: Edge, i: FlushInput) returns (events: seq<Event>)
    requires Sound(e)
    ensures AfterFlush(e, i).trace == e.trace + events
    ensures forall j | 0 <= j < |events| :: !events[j].Reconfigured?
  {
    hide UploadAttempt, BackoffDelay, RequestOf;
    if Flushes(e, i) {
      FlushIsAttempt(e, i);
      events := FlushAttempt(e, i).step.events;
    } else {
      events := [];
    }
  }

  lemma RetryEvents(e: Edge, i: RetryInput) returns (events: seq<Event>)
    requires Sound(e)
    ensures AfterRetry(e, i).trace == e.trace + events
    ensures forall j | 0 <= j < |events| :: !events[j].Reconfigured?
  {
    hide RetryAttempt, BackoffDelay, RequestOf, SampleOf;
    if Retries(e, i) {
      RetryIsAttempt(e, i);
      events := RetryOf(e, i).step.events;
    } else {
      events := [];
    }
  }

  lemma ReconfigureClearsDrops(e: Edge, config: Config, found: ConfigureInput)
    requires ValidConfig(config, found)
    ensures Reconfigure(e, config, found).ring.drops == 0 == OverrunSince(Reconfigure(e, config, found).trace)
  {
    hide SetUpChannels;
    ReconfigureShape(e, config, found);
  }

  /** The drop counter of the ring is the number of samples given up since the last configuration, in every run. */
  lemma {:induction false} DropCounterCounts(disk: Table, steps: seq<Step>)
    requires WellKeyed(disk) && ValidSteps(steps) && KeyedFiles(steps)
    ensures var e := Run(Constructed(disk), steps);
            e.ring.drops == OverrunSince(e.trace)
  {
    hide Tick, Reconfigure, Sound, OverrunSince;
    if steps != [] {
      var n := |steps| - 1;
      DropCounterCounts(disk, steps[..n]);
      RunKeepsSound(Constructed(disk), steps[..n]);
      match steps[n]
      case Ticked(input) => TickCountsDrops(Run(Constructed(disk), steps[..n]), input);
      case Reloaded(config, found) => ReconfigureClearsDrops(Run(Constructed(disk), steps[..n]), config, found);
    } else {
      NothingYet();
    }
  }

  lemma NothingYet()
    ensures OverrunSince([]) == 0
  {
  }
}
