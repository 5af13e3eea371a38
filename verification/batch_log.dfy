/** What the ring holds and what every POST carries, as statements about the trace of a run. */
module BatchLogs {
  import opened Samples
  import opened RingBuffers
  import opened RingBufferRuns
  import opened LocalStores
  import opened Protocol
  import opened Traces
  import opened HttpUploaders
  import opened Pipelines
  import opened EdgeRuns
  import opened TickGuarantees

  // ----- One poll phase -----

  /** The samples that a stretch of the trace polled, in order. */
  function PolledIn(events: seq<Event>): seq<StoredSample> {
    if events == [] then []
    else
      var last := events[|events| - 1];
      PolledIn(events[..|events| - 1]) + if last.Polled? then [last.sample] else []
  }

  lemma {:induction false} PolledInAppend(a: seq<Event>, b: seq<Event>)
    ensures PolledIn(a + b) == PolledIn(a) + PolledIn(b)
  {
    if b == [] {
      assert a + b == a;
    } else {
      assert (a + b)[..|a + b| - 1] == a + b[..|b| - 1];
      PolledInAppend(a, b[..|b| - 1]);
    }
  }

  lemma OnePoll(id: string, stored: StoredSample, ring: Ring)
    ensures PolledIn([Polled(id, stored)] + OverflowEvents(ring, stored)) == [stored]
  {
    var poll, overflow := [Polled(id, stored)], OverflowEvents(ring, stored);
    PolledInAppend(poll, overflow);
    assert poll[..0] == [];
    assert overflow != [] ==> overflow[..0] == [];
  }

  /** What `e` has become by polling: the new samples went through its ring, in order. */
  ghost predicate Enqueues(e: Edge, after: Edge) {
    && e.trace <= after.trace
    && after.ring == EnqueueAll(e.ring, PolledIn(after.trace[|e.trace|..]))
  }

  lemma PollEnqueues(e: Edge, f: Edge, id: string, priority: Priority, sample: Sample)
    requires Enqueues(e, f)
    ensures Enqueues(e, PolledSample(f, id, priority, sample))
  {
    hide FromSample, Enqueued, OverflowEvents, PolledIn;
    var stored := FromSample(sample, priority);
    var events := [Polled(id, stored)] + OverflowEvents(f.ring, stored);
    var since := f.trace[|e.trace|..];
    OnePoll(id, stored, f.ring);
    PolledInAppend(since, events);
    assert (f.trace + events)[|e.trace|..] == since + events;
    assert (PolledIn(since) + [stored])[..|PolledIn(since)|] == PolledIn(since);
  }

  /** The poll phase leaves in the ring exactly the best of what it held and what was polled. */
  lemma PollPhaseKeepsBest(e: Edge, input: TickInput)
    requires Sound(e)
    ensures var polled := AfterPolls(e, input);
            && e.trace <= polled.trace
            && polled.ring.items == Best(e.ring.items + PolledIn(polled.trace[|e.trace|..]), e.ring.capacity)
  {
    hide PolledSample, AfterPolls, Best;
    var dispatched := e.(schedule := Schedulers.Dispatched(e.schedule, input.now));
    assert dispatched.trace[|e.trace|..] == [];
    forall f, id, priority, sample | Enqueues(e, f) ensures Enqueues(e, PolledSample(f, id, priority, sample)) {
      PollEnqueues(e, f, id, priority, sample);
    }
    PollPhaseKeeps(f => Enqueues(e, f), e, input);
    StreamingTopK(e.ring, PolledIn(AfterPolls(e, input).trace[|e.trace|..]));
  }

  // ----- Whole runs -----

  /** The samples polled since the last flush POST or configuration. */
  function PolledSince(trace: seq<Event>): seq<StoredSample> {
    if trace == [] then []
    else
      match trace[|trace| - 1]
      case Polled(_, sample) => PolledSince(trace[..|trace| - 1]) + [sample]
      case Posted(FlushPost, _, _, _, _, _) => []
      case Reconfigured(_) => []
      case _ => PolledSince(trace[..|trace| - 1])
  }

  /**
   * A POST is of admissible size, and a flush POST carries exactly the best of what was polled since
   * the previous one, as far as the ring can hold it.
   */
  ghost predicate BatchAt(trace: seq<Event>, j: nat, maxBatchSize: int)
    requires j < |trace|
  {
    trace[j].Posted? ==>
      && 1 <= |trace[j].batch| <= (if maxBatchSize < 1 then 1 else maxBatchSize)
      && (trace[j].kind.FlushPost? && maxBatchSize > 0 ==>
            trace[j].batch == Best(PolledSince(trace[..j]), maxBatchSize))
  }

  /** That holds of every POST since the last configuration. */
  ghost predicate Logged(trace: seq<Event>, maxBatchSize: int) {
    trace == [] || trace[|trace| - 1].Reconfigured?
    || (Logged(trace[..|trace| - 1], maxBatchSize) && BatchAt(trace, |trace| - 1, maxBatchSize))
  }

  /** The ring holds what enqueueing into an empty one would have left. */
  ghost predicate Accumulates(e: Edge) {
    e.ring.items == EnqueueAll(EmptyRing(e.ring.capacity), PolledSince(e.trace)).items
  }

  ghost predicate Logs(e: Edge) {
    (e.maxBatchSize > 0 ==> Accumulates(e)) && Logged(e.trace, e.maxBatchSize)
  }

  predicate Silent(event: Event) {
    !event.Polled? && !event.Posted? && !event.Reconfigured?
  }

  lemma {:induction false} SilentEvents(trace: seq<Event>, events: seq<Event>, maxBatchSize: int)
    requires forall j | 0 <= j < |events| :: Silent(events[j])
    ensures PolledSince(trace + events) == PolledSince(trace)
    ensures Logged(trace, maxBatchSize) ==> Logged(trace + events, maxBatchSize)
  {
    if events == [] {
      assert trace + events == trace;
    } else {
      assert Silent(events[|events| - 1]);
      assert (trace + events)[..|trace + events| - 1] == trace + events[..|events| - 1];
      SilentEvents(trace, events[..|events| - 1], maxBatchSize);
    }
  }

  lemma {:induction false} EnqueueAllCapacity(ring: Ring, arrivals: seq<StoredSample>)
    ensures EnqueueAll(ring, arrivals).capacity == ring.capacity
  {
    if arrivals != [] {
      EnqueueAllCapacity(ring, arrivals[..|arrivals| - 1]);
    }
  }

  lemma SameResidents(a: Ring, b: Ring, sample: StoredSample)
    requires a.items == b.items && a.capacity == b.capacity
    ensures Enqueued(a, sample).items == Enqueued(b, sample).items
  {
  }

  lemma PollLogs(e: Edge, id: string, priority: Priority, sample: Sample)
    requires Logs(e)
    ensures Logs(PolledSample(e, id, priority, sample))
  {
    hide FromSample, Enqueued, Logged, PolledSince;
    var stored := FromSample(sample, priority);
    var history := PolledSince(e.trace);
    PollEvent(e.trace, id, stored, e.maxBatchSize);
    SilentEvents(e.trace + [Polled(id, stored)], OverflowEvents(e.ring, stored), e.maxBatchSize);
    assert e.trace + [Polled(id, stored)] + OverflowEvents(e.ring, stored)
           == e.trace + ([Polled(id, stored)] + OverflowEvents(e.ring, stored));
    if e.maxBatchSize > 0 {
      EnqueueAllCapacity(EmptyRing(e.ring.capacity), history);
      SameResidents(e.ring, EnqueueAll(EmptyRing(e.ring.capacity), history), stored);
      assert (history + [stored])[..|history|] == history;
      SameCapacity(e.ring, stored);
    }
  }

  lemma SameCapacity(ring: Ring, sample: StoredSample)
    ensures Enqueued(ring, sample).capacity == ring.capacity
  {
  }

  lemma PollEvent(trace: seq<Event>, id: string, stored: StoredSample, maxBatchSize: int)
    ensures PolledSince(trace + [Polled(id, stored)]) == PolledSince(trace) + [stored]
    ensures Logged(trace, maxBatchSize) ==> Logged(trace + [Polled(id, stored)], maxBatchSize)
  {
    assert (trace + [Polled(id, stored)])[..|trace|] == trace;
  }

  lemma PostEvent(trace: seq<Event>, posted: Event, maxBatchSize: int)
    requires posted.Posted? && Logged(trace, maxBatchSize) && 1 <= |posted.batch| <= MaxBatch(maxBatchSize)
    requires posted.kind.FlushPost? && maxBatchSize > 0 ==>
               posted.batch == Best(PolledSince(trace), Capacity(maxBatchSize))
    ensures Logged(trace + [posted], maxBatchSize)
    ensures PolledSince(trace + [posted]) == if posted.kind.FlushPost? then [] else PolledSince(trace)
  {
    hide Best;
    assert (trace + [posted])[..|trace|] == trace;
  }

  /** A POST of an attempt is logged, and the bookkeeping after it is silent. */
  lemma AttemptLogs(trace: seq<Event>, attempt: Attempt, kind: PostKind, batch: seq<StoredSample>, request: Request,
                    outcome: PostOutcome, at: int, failedAt: int, maxBatchSize: int)
    requires IsAttempt(attempt, kind, batch, request, outcome, at, failedAt)
    requires Logged(trace, maxBatchSize) && 1 <= |batch| <= MaxBatch(maxBatchSize)
    requires kind.FlushPost? && maxBatchSize > 0 ==> batch == Best(PolledSince(trace), Capacity(maxBatchSize))
    ensures Logged(trace + attempt.step.events, maxBatchSize)
    ensures PolledSince(trace + attempt.step.events) == if kind.FlushPost? then [] else PolledSince(trace)
  {
    hide Best, Logged, PolledSince;
    var events := attempt.step.events;
    var rest := events[1..];
    forall j | 0 <= j < |rest| ensures Silent(rest[j]) {
      assert rest[j] == events[j + 1];
    }
    PostEvent(trace, events[0], maxBatchSize);
    SilentEvents(trace + [events[0]], rest, maxBatchSize);
    assert trace + [events[0]] + rest == trace + events;
  }

  /** An accumulating ring holds the best of what was polled since it was last emptied. */
  lemma AccumulatesBest(e: Edge)
    requires Accumulates(e)
    ensures e.ring.items == Best(PolledSince(e.trace), e.ring.capacity)
  {
    hide Best, PolledSince;
    StreamingTopK(EmptyRing(e.ring.capacity), PolledSince(e.trace));
    assert [] + PolledSince(e.trace) == PolledSince(e.trace);
  }

  lemma FlushLogs(e: Edge, i: FlushInput)
    requires Sound(e) && Logs(e)
    ensures Logs(AfterFlush(e, i))
  {
    hide UploadAttempt, Best, Logged, PolledSince, RequestOf, BackoffDelay, PersistedAll;
    if Flushes(e, i) {
      var batch, attempt := FlushBatch(e), FlushAttempt(e, i);
      FlushIsAttempt(e, i);
      if e.maxBatchSize > 0 {
        AccumulatesBest(e);
        FlushSendsRing(e, i);
      }
      AttemptLogs(e.trace, attempt, FlushPost, batch, RequestOf(e.target.value, batch), i.outcome, i.at, i.failedAt,
                  e.maxBatchSize);
    }
  }

  lemma RetryLogs(e: Edge, i: RetryInput)
    requires Sound(e) && Logs(e)
    ensures Logs(AfterRetry(e, i))
  {
    hide RetryAttempt, Best, Logged, PolledSince, RequestOf, BackoffDelay, SampleOf;
    if Retries(e, i) {
      var batch, attempt := SamplesOf(RetryRows(e, i)), RetryOf(e, i);
      RetryIsAttempt(e, i);
      if batch == [] {
        SilentEvents(e.trace, attempt.step.events, e.maxBatchSize);
      } else {
        AttemptLogs(e.trace, attempt, RetryPost, batch, RequestOf(e.target.value, batch), i.outcome, i.at, i.failedAt,
                    e.maxBatchSize);
      }
    }
  }

  lemma TickLogs(e: Edge, input: TickInput)
    requires Sound(e) && Logs(e)
    ensures Logs(Tick(e, input))
  {
    hide AfterPolls, AfterFlush, AfterRetry, Sound, Accumulates, Logged, PolledSample;
    if e.bindings != map[] {
      TickKeepsSound(e, input);
      DispatchLogs(e, input.now);
      forall f, id, priority, sample | Logs(f) ensures Logs(PolledSample(f, id, priority, sample)) {
        PollLogs(f, id, priority, sample);
      }
      PollPhaseKeeps(f => Logs(f), e, input);
      FlushLogs(AfterPolls(e, input), input.flush);
      RetryLogs(AfterFlush(AfterPolls(e, input), input.flush), input.retry);
    }
  }

  lemma DispatchLogs(e: Edge, now: int)
    requires Logs(e)
    ensures Logs(e.(schedule := Schedulers.Dispatched(e.schedule, now)))
  {
  }

  lemma ReconfigureLogs(e: Edge, config: Config, found: ConfigureInput)
    requires ValidConfig(config, found)
    ensures Logs(Reconfigure(e, config, found))
  {
    hide Reconfigure;
    ReconfigureShape(e, config, found);
  }

  lemma {:induction false} RunLogs(disk: Table, steps: seq<Step>)
    requires WellKeyed(disk) && ValidSteps(steps) && KeyedFiles(steps)
    ensures Logs(Run(Constructed(disk), steps))
  {
    if steps != [] {
      hide Logs, Tick, Reconfigure, Sound;
      var n := |steps| - 1;
      var before := Run(Constructed(disk), steps[..n]);
      RunLogs(disk, steps[..n]);
      RunKeepsSound(Constructed(disk), steps[..n]);
      match steps[n]
      case Ticked(input) => TickLogs(before, input);
      case Reloaded(config, found) => ReconfigureLogs(before, config, found);
    }
  }

  /** Nothing happens before the first configuration, and from then on there is a buffer. */
  lemma {:induction false} BufferFromStart(disk: Table, steps: seq<Step>)
    requires WellKeyed(disk) && ValidSteps(steps) && KeyedFiles(steps)
    ensures var e := Run(Constructed(disk), steps);
            e.hasBuffer || (e.trace == [] && e.ring.items == [])
  {
    hide AfterPolls, AfterFlush, AfterRetry, WellKeyed, SetUpChannels;
    if steps != [] {
      var n := |steps| - 1;
      var before := Run(Constructed(disk), steps[..n]);
      BufferFromStart(disk, steps[..n]);
      RunKeepsSound(Constructed(disk), steps[..n]);
      if steps[n].Ticked? && before.bindings != map[] {
        TickKeepsSound(before, steps[n].input);
        TickDispatches(before, steps[n].input);
      }
    }
  }

  lemma {:induction false} LoggedAt(trace: seq<Event>, j: nat, maxBatchSize: int)
    requires Logged(trace, maxBatchSize) && j < |trace| && forall k | j <= k < |trace| :: !trace[k].Reconfigured?
    ensures BatchAt(trace, j, maxBatchSize)
  {
    if j < |trace| - 1 {
      var init := trace[..|trace| - 1];
      LoggedAt(init, j, maxBatchSize);
      assert init[..j] == trace[..j];
    }
  }

  lemma NothingPolledYet(capacity: nat)
    ensures Best(PolledSince([]), capacity) == []
  {
  }

  /**
   * The batch log of every run from construction: with a positive batch size, the ring holds exactly
   * the best of the samples polled since the last flush POST or configuration; and every POST since
   * the last configuration is of admissible size and, if a flush, carried exactly the best of the
   * samples polled between the previous flush POST and itself.
   */
  lemma BatchLog(disk: Table, steps: seq<Step>, j: nat)
    requires WellKeyed(disk) && ValidSteps(steps) && KeyedFiles(steps)
    ensures var e := Run(Constructed(disk), steps);
            && (e.maxBatchSize > 0 ==> e.ring.items == Best(PolledSince(e.trace), e.maxBatchSize))
            && (j < |e.trace| && (forall k | j <= k < |e.trace| :: !e.trace[k].Reconfigured?) ==>
                  BatchAt(e.trace, j, e.maxBatchSize))
  {
    hide Run, Best, PolledSince, BatchAt;
    RunLogs(disk, steps);
    RunKeepsSound(Constructed(disk), steps);
    BufferFromStart(disk, steps);
    var e := Run(Constructed(disk), steps);
    if e.maxBatchSize > 0 {
      AccumulatesBest(e);
      if e.trace == [] {
        NothingPolledYet(e.maxBatchSize);
      }
    }
    if j < |e.trace| && forall k | j <= k < |e.trace| :: !e.trace[k].Reconfigured? {
      LoggedAt(e.trace, j, e.maxBatchSize);
    }
  }
}
