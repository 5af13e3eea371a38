/** What holds after a tick: drained buffers, a wake-up in the future, and a shrinking backlog. */
module TickGuarantees {
  import opened Options
  import opened Samples
  import opened RingBuffers
  import opened Schedulers
  import opened UploadPolicies
  import opened LocalStores
  import opened Protocol
  import opened Traces
  import opened HttpUploaders
  import opened Pipelines
  import opened EdgeRuns

  // ----- The buffer after a tick -----

  /** A flush sends the whole ring, in order, as one batch of admissible size. */
  lemma FlushSendsRing(e: Edge, i: FlushInput)
    requires Sound(e) && e.maxBatchSize > 0 && Flushes(e, i)
    ensures FlushBatch(e) == e.ring.items && 1 <= |FlushBatch(e)| <= e.maxBatchSize
    ensures AfterFlush(e, i).ring.items == []
  {
    assert e.ring.items[..|e.ring.items|] == e.ring.items;
  }

  /** A retry sends the oldest pending rows, in order, as one batch of admissible size. */
  lemma RetrySendsOldest(e: Edge, i: RetryInput)
    requires Sound(e) && Retries(e, i) && RetryOf(e, i).step.events != [EmptyRetry]
    ensures var batch, rows := SamplesOf(RetryRows(e, i)), e.store.table.rows;
            && RetryOf(e, i).step.events[0]
                 == Posted(RetryPost, batch, RequestOf(e.target.value, batch), i.outcome, i.at, i.failedAt)
            && 1 <= |batch| <= MaxBatch(e.maxBatchSize) && |batch| <= |rows|
            && forall k | 0 <= k < |batch| :: batch[k] == SampleOf(rows[k])
  {
    RetryIsAttempt(e, i);
  }

  /**
   * With an uploader, a tick leaves fewer than a full batch in the buffer, and if it leaves any
   * sample then nothing is waiting for a flush and no batch interval has elapsed.
   */
  lemma BufferAfterTick(e: Edge, input: TickInput)
    requires Sound(e) && e.maxBatchSize > 0 && e.bindings != map[] && e.target.Some?
    ensures var after := Tick(e, input);
            && |after.ring.items| < e.maxBatchSize
            && (after.ring.items == []
                || (!after.policy.anyPendingRealtime && !after.policy.anyPendingOnChange
                    && !AnyIntervalElapsed(after.policy, input.flush.at)))
  {
    AfterPollsOnly(e, input);
    TickKeepsSound(e, input);
    var polled := AfterPolls(e, input);
    if Flushes(polled, input.flush) {
      FlushSendsRing(polled, input.flush);
    }
  }

  /** Polling sets flags and never clears them, and never changes what a channel is configured to do. */
  ghost predicate FlagsKept(p: Policy, q: Policy) {
    && (p.anyPendingRealtime ==> q.anyPendingRealtime)
    && p.channels.Keys == q.channels.Keys
    && forall id | id in p.channels :: q.channels[id].config == p.channels[id].config
  }

  predicate RealtimeChannel(p: Policy, id: string) {
    id in p.channels && p.channels[id].config.destinationRemote && p.channels[id].config.mode.Realtime?
  }

  lemma {:induction false} SamplesRaiseFlag(e: Edge, id: string, priority: Priority, samples: seq<Sample>)
    ensures var after := PolledSamples(e, id, priority, samples);
            && after.bindings == e.bindings
            && FlagsKept(e.policy, after.policy)
            && (samples != [] && RealtimeChannel(e.policy, id) ==> after.policy.anyPendingRealtime)
  {
    if samples != [] {
      hide FromSample, Enqueued, OverflowEvents, Sampled;
      var n := |samples| - 1;
      SamplesRaiseFlag(e, id, priority, samples[..n]);
      SampleRaisesFlag(PolledSamples(e, id, priority, samples[..n]).policy, id, samples[n].value);
    }
  }

  lemma SampleRaisesFlag(p: Policy, id: string, value: real)
    ensures FlagsKept(p, Sampled(p, id, value))
    ensures RealtimeChannel(p, id) ==> Sampled(p, id, value).anyPendingRealtime
  {
  }

  lemma {:induction false} PollsRaiseFlag(e: Edge, ids: seq<string>, readings: seq<Reading>, k: nat)
    ensures var after := PolledAll(e, ids, readings);
            && after.bindings == e.bindings
            && FlagsKept(e.policy, after.policy)
            && (k < |ids| && ids[k] in e.bindings && RealtimeChannel(e.policy, ids[k]) ==>
                  ReadingOf(readings, k).samples != [] ==> after.policy.anyPendingRealtime)
  {
    if ids != [] {
      var n := |ids| - 1;
      PollsRaiseFlag(e, ids[..n], readings, k);
      var before := PolledAll(e, ids[..n], readings);
      if ids[n] in before.bindings {
        SamplesRaiseFlag(before, ids[n], before.bindings[ids[n]], ReadingOf(readings, n).samples);
      }
    }
  }

  /** A tick that polls a sample from a realtime remote channel leaves the buffer empty. */
  lemma RealtimeLeavesNothing(e: Edge, input: TickInput, k: nat)
    requires Sound(e) && e.maxBatchSize > 0 && e.target.Some? && k < |Due(e.schedule, input.now)|
    requires var id := Due(e.schedule, input.now)[k]; id in e.bindings && RealtimeChannel(e.policy, id)
    requires ReadingOf(input.readings, k).samples != []
    ensures Tick(e, input).ring.items == []
  {
    hide PolledAll, AnyIntervalElapsed, FlushBatch, UploadAttempt, RetryAttempt, BackoffDelay, Sound, RealtimeChannel;
    var dispatched := e.(schedule := Dispatched(e.schedule, input.now));
    PollsRaiseFlag(dispatched, Due(e.schedule, input.now), input.readings, k);
    AfterPollsOnly(e, input);
    TickKeepsSound(e, input);
    var polled := AfterPolls(e, input);
    if Flushes(polled, input.flush) {
      FlushSendsRing(polled, input.flush);
    }
  }

  // ----- The next wake-up -----

  lemma DeadlinesAfterDispatch(channels: seq<ChannelState>, now: int)
    ensures LaterDeadlines(Dispatched(channels, now), now)
  {
    forall c | 0 <= c < |channels| ensures Dispatched(channels, now)[c].nextDeadline > now {
      NextSlotIsLeast(channels[c].nextDeadline, channels[c].period, now, 0);
    }
  }

  /** Rows are waiting, the backoff is over, and this tick could not see it because its count query failed. */
  predicate MissedRetry(flushed: Edge, input: TickInput) {
    && !input.retry.countOk
    && flushed.storeOpen && PendingCount(flushed.store, true) > 0
    && flushed.retryAttempt > 0 && flushed.nextRetryAt <= input.now
  }

  lemma {:induction false} SomethingIsDueIff(channels: seq<ChannelState>, t: int)
    ensures Due(channels, t) != [] <==> Earliest(channels).Some? && Earliest(channels).value <= t
  {
    if channels != [] {
      SomethingIsDueIff(channels[..|channels| - 1], t);
    }
  }

  /** Rows are pending, failures are counted, and the backoff is over at `t`. */
  predicate RetryIsDue(e: Edge, countOk: bool, t: int) {
    e.storeOpen && PendingCount(e.store, countOk) > 0 && e.retryAttempt > 0 && e.nextRetryAt <= t
  }

  /**
   * Waking in time: the wake-up is the first instant at which some channel is due for a poll or a
   * retry that was held back may go, and there is none if that never happens.
   */
  lemma WakesInTime(e: Edge, countOk: bool, t: int)
    ensures NextWake(e, countOk).Some? && NextWake(e, countOk).value <= t
            <==> Due(e.schedule, t) != [] || RetryIsDue(e, countOk, t)
  {
    SomethingIsDueIff(e.schedule, t);
  }

  predicate LaterDeadlines(channels: seq<ChannelState>, now: int) {
    forall c | 0 <= c < |channels| :: channels[c].nextDeadline > now
  }

  /** The wake-up, if there is one, is later than an instant. */
  predicate WakesAfter(wake: Option<int>, now: int) {
    wake.Some? ==> wake.value > now
  }

  lemma TickDispatches(e: Edge, input: TickInput)
    requires e.bindings != map[]
    ensures var after := Tick(e, input);
            after.bindings == e.bindings && after.schedule == Dispatched(e.schedule, input.now)
  {
    hide UploadAttempt, RetryAttempt, ShouldFlush, AfterPolls, BackoffDelay, FlushBatch, Dispatched;
    AfterPollsOnly(e, input);
  }

  /** The wake-up after the retry phase, from any state the flush phase leaves. */
  lemma WakeAfterRetry(flushed: Edge, input: TickInput, countOk: bool)
    requires Sound(flushed) && input.now <= input.retry.at <= input.retry.failedAt
    requires LaterDeadlines(flushed.schedule, input.now)
    ensures WakesAfter(NextWake(AfterRetry(flushed, input.retry), countOk), input.now)
            <==> !(countOk && MissedRetry(flushed, input))
  {
    hide SampleOf, RowOf, WireAll, BackoffDelay;
    if Retries(flushed, input.retry) {
      RetryIsAttempt(flushed, input.retry);
      assert AfterRetry(flushed, input.retry).schedule == flushed.schedule;
    }
  }

  lemma BoundWakesLater(e: Edge, input: TickInput, countOk: bool)
    requires Sound(e) && Monotone(input) && e.bindings != map[]
    ensures var flushed := AfterFlush(AfterPolls(e, input), input.flush);
            WakesAfter(NextWake(Tick(e, input), countOk), input.now) <==> !(countOk && MissedRetry(flushed, input))
  {
    hide NextWake, AfterRetry, MissedRetry, AfterPolls, UploadAttempt;
    var flushed := AfterFlush(AfterPolls(e, input), input.flush);
    AfterPollsOnly(e, input);
    DeadlinesAfterDispatch(e.schedule, input.now);
    TickKeepsSound(e, input);
    assert flushed.schedule == Dispatched(e.schedule, input.now);
    WakeAfterRetry(flushed, input, countOk);
  }

  /** While nothing is bound, no failures are counted. */
  predicate Calm(e: Edge) {
    e.bindings == map[] ==> e.retryAttempt == 0
  }

  lemma {:induction false} RunIsCalm(disk: Table, steps: seq<Step>)
    requires ValidSteps(steps)
    ensures Calm(Run(Constructed(disk), steps))
  {
    hide AfterPolls, AfterFlush, AfterRetry, SetUpChannels;
    if steps != [] {
      var n := |steps| - 1;
      var before := Run(Constructed(disk), steps[..n]);
      RunIsCalm(disk, steps[..n]);
      if steps[n].Ticked? && before.bindings != map[] {
        TickDispatches(before, steps[n].input);
      }
    }
  }

  /** The cause of a wake-up in the past: a schedule without drivers, or a due retry that could not be seen. */
  predicate SleepsInPast(e: Edge, input: TickInput, countOk: bool) {
    if e.bindings == map[] then Due(e.schedule, input.now) != []
    else countOk && MissedRetry(AfterFlush(AfterPolls(e, input), input.flush), input)
  }

  /**
   * No busy waiting, in every reachable state: the wake-up asked for after a tick is later than the
   * clock reading of its dispatch, unless nothing is bound and the schedule of an earlier
   * configuration has fallen due, or the tick missed a due retry because its count query failed.
   */
  lemma WakesLater(disk: Table, steps: seq<Step>, input: TickInput, countOk: bool)
    requires WellKeyed(disk) && ValidSteps(steps) && KeyedFiles(steps) && Monotone(input)
    ensures var e := Run(Constructed(disk), steps);
            && (WakesAfter(NextWake(Tick(e, input), countOk), input.now) <==> !SleepsInPast(e, input, countOk))
            && (e.schedule != [] ==> NextWake(Tick(e, input), countOk).Some?)
  {
    hide Run, AfterPolls, AfterFlush, AfterRetry, MissedRetry;
    var e := Run(Constructed(disk), steps);
    RunKeepsSound(Constructed(disk), steps);
    RunIsCalm(disk, steps);
    if e.bindings == map[] {
      SomethingIsDueIff(e.schedule, input.now);
    } else {
      BoundWakesLater(e, input, countOk);
      TickDispatches(e, input);
    }
  }

  /** Without a binding ticks do nothing, however many follow. */
  lemma {:induction false} UnboundIsStuck(e: Edge, inputs: seq<TickInput>)
    requires e.bindings == map[]
    ensures TickAll(e, inputs) == e
  {
    hide TickAll;
    TickAllStep(e, inputs);
    if inputs != [] {
      UnboundIsStuck(e, inputs[..|inputs| - 1]);
    }
  }

  // ----- Draining the backlog -----

  predicate AllTrue(oks: seq<bool>) {
    forall k | 0 <= k < |oks| :: oks[k]
  }

  /** Everything the tick tries to send is accepted, and the database does what it is asked. */
  predicate Healthy(e: Edge, input: TickInput) {
    && InterpretResponse(input.flush.outcome.response).Accepted?
    && InterpretResponse(input.retry.outcome.response).Accepted?
    && input.retry.countOk && AllTrue(input.retry.deleteOk)
    && input.retry.stepped >= MaxBatch(e.maxBatchSize)
  }

  lemma DropOldest(rows: seq<Row>, nextId: int, n: nat)
    requires WellKeyed(Table(rows, nextId)) && n < |rows|
    ensures WithoutId(rows[n..], rows[n].id) == rows[n + 1..]
  {
    hide WithoutId;
    var rest := rows[n..];
    assert WellKeyed(Table(rest, nextId));
    WithoutIdAt(rest, nextId, 0);
    assert rest[0] == rows[n] && rest[1..] == rows[n + 1..];
    assert rest[..0] + rest[1..] == rest[1..];
  }

  /** Deleting the oldest rows by key leaves the others. */
  lemma {:induction false} AcknowledgePrefix(store: Store, rows: seq<PendingRow>, deleteOk: seq<bool>)
    requires WellKeyed(store.table) && store.isOpen && |rows| <= |store.table.rows| && AllTrue(deleteOk)
    requires forall k | 0 <= k < |rows| :: rows[k].id == store.table.rows[k].id
    ensures AcknowledgedAll(store, rows, deleteOk).store
         == Some(Store(true, Table(store.table.rows[|rows|..], store.table.nextId)))
  {
    if rows == [] {
      assert store.table.rows[0..] == store.table.rows;
    } else {
      var n := |rows| - 1;
      AcknowledgePrefix(store, rows[..n], deleteOk);
      DropOldest(store.table.rows, store.table.nextId, n);
      assert rows[n].id == store.table.rows[n].id;
    }
  }

  predicate ReadyToRetry(e: Edge, input: TickInput) {
    e.retryAttempt > 0 && e.store.table.rows != [] ==> e.nextRetryAt <= input.retry.at
  }

  predicate SameSetup(e: Edge, after: Edge) {
    && after.maxBatchSize == e.maxBatchSize && after.bindings == e.bindings && after.target == e.target
    && after.storeOpen == e.storeOpen
  }

  lemma HealthyFlush(e: Edge, i: FlushInput)
    requires InterpretResponse(i.outcome.response).Accepted?
    ensures var after := AfterFlush(e, i);
            && SameSetup(e, after) && after.store == e.store
            && (after.retryAttempt == 0
                || (after.retryAttempt == e.retryAttempt && after.nextRetryAt == e.nextRetryAt))
  {
  }

  lemma HealthyRetry(e: Edge, input: TickInput)
    requires Sound(e) && e.target.Some? && e.storeOpen && Healthy(e, input) && ReadyToRetry(e, input)
    ensures var after, rows := AfterRetry(e, input.retry), e.store.table.rows;
            && SameSetup(e, after)
            && after.store.table.rows == rows[Min(|rows|, MaxBatch(e.maxBatchSize))..]
            && (rows != [] || e.retryAttempt == 0 ==> after.retryAttempt == 0)
  {
    if Retries(e, input.retry) {
      var rows := RetryRows(e, input.retry);
      AcknowledgePrefix(e.store, rows, input.retry.deleteOk);
    } else {
      assert e.store.table.rows[0..] == e.store.table.rows;
    }
  }

  /** A healthy tick removes one batch of the oldest rows, or all of them, and ends the backoff. */
  lemma HealthyTick(e: Edge, input: TickInput)
    requires Sound(e) && e.bindings != map[] && e.target.Some? && e.storeOpen
    requires Healthy(e, input) && ReadyToRetry(e, input)
    ensures var after, rows := Tick(e, input), e.store.table.rows;
            && SameSetup(e, after)
            && after.store.table.rows == rows[Min(|rows|, MaxBatch(e.maxBatchSize))..]
            && (rows != [] || e.retryAttempt == 0 ==> after.retryAttempt == 0)
  {
    AfterPollsOnly(e, input);
    TickKeepsSound(e, input);
    HealthyFlush(AfterPolls(e, input), input.flush);
    HealthyRetry(AfterFlush(AfterPolls(e, input), input.flush), input);
  }

  /** How many of `total` rows `n` batches remove. */
  function Removed(total: nat, n: nat, size: Positive): (gone: nat)
    ensures gone <= total
    ensures gone == total <==> n * size >= total
    ensures n * size < total ==> gone == n * size
  {
    if n == 0 then 0
    else
      var before := Removed(total, n - 1, size);
      assert n * size == (n - 1) * size + size;
      before + Min(total - before, size)
  }

  /** `after` is `e` with `n` batches of the oldest rows removed and the backoff over. */
  ghost predicate DrainedBy(e: Edge, after: Edge, n: nat) {
    var rows := e.store.table.rows;
    && after.store.table.rows == rows[Removed(|rows|, n, MaxBatch(e.maxBatchSize))..]
    && Sound(after)
    && after.maxBatchSize == e.maxBatchSize && after.bindings == e.bindings && after.target == e.target
    && after.storeOpen && (n > 0 && rows != [] ==> after.retryAttempt == 0)
  }

  lemma DrainStep(e: Edge, before: Edge, n: nat, input: TickInput)
    requires e.bindings != map[] && e.target.Some? && DrainedBy(e, before, n)
    requires Healthy(e, input) && ReadyToRetry(before, input)
    ensures DrainedBy(e, Tick(before, input), n + 1)
  {
    hide Tick, Sound, ReadyToRetry;
    var rows, size := e.store.table.rows, MaxBatch(e.maxBatchSize);
    HealthyTick(before, input);
    TickKeepsSound(before, input);
    DropTwice(rows, Removed(|rows|, n, size), size);
  }

  /** After the first healthy tick the backoff is over, so that later ones are ready too. */
  lemma StaysReady(e: Edge, before: Edge, n: nat, first: TickInput, next: TickInput)
    requires DrainedBy(e, before, n) && ReadyToRetry(e, first) && (n == 0 ==> before == e && next == first)
    ensures ReadyToRetry(before, next)
  {
    hide Sound;
  }

  lemma NothingDrained(e: Edge)
    requires Sound(e) && e.storeOpen
    ensures DrainedBy(e, e, 0)
  {
    hide Sound;
    assert e.store.table.rows[0..] == e.store.table.rows;
  }

  /**
   * Draining: from any backlog, once ticks are healthy and the first one comes after the backoff,
   * each removes exactly one batch of the oldest rows until none is left.
   */
  lemma {:induction false} BacklogDrains(e: Edge, inputs: seq<TickInput>)
    requires Sound(e) && e.bindings != map[] && e.target.Some? && e.storeOpen
    requires forall k | 0 <= k < |inputs| :: Healthy(e, inputs[k])
    requires inputs != [] ==> ReadyToRetry(e, inputs[0])
    ensures DrainedBy(e, TickAll(e, inputs), |inputs|)
  {
    hide TickAll, Sound, Healthy, ReadyToRetry, DrainedBy, Tick;
    TickAllStep(e, inputs);
    if inputs == [] {
      NothingDrained(e);
    } else {
      var n := |inputs| - 1;
      var init := inputs[..n];
      BacklogDrains(e, init);
      TickAllStep(e, init);
      StaysReady(e, TickAll(e, init), n, inputs[0], inputs[n]);
      DrainStep(e, TickAll(e, init), n, inputs[n]);
    }
  }

  lemma DropTwice(rows: seq<Row>, gone: nat, size: nat)
    requires gone <= |rows|
    ensures rows[gone..][Min(|rows[gone..]|, size)..] == rows[gone + Min(|rows| - gone, size)..]
  {
  }

  /** A backlog of P rows is gone after n healthy ticks exactly when n batches can hold it. */
  lemma BacklogGoneIff(e: Edge, inputs: seq<TickInput>)
    requires Sound(e) && e.bindings != map[] && e.target.Some? && e.storeOpen
    requires forall k | 0 <= k < |inputs| :: Healthy(e, inputs[k])
    requires inputs != [] ==> ReadyToRetry(e, inputs[0])
    ensures TickAll(e, inputs).store.table.rows == []
            <==> |inputs| * MaxBatch(e.maxBatchSize) >= |e.store.table.rows|
  {
    BacklogDrains(e, inputs);
    var total := |e.store.table.rows|;
    assert |TickAll(e, inputs).store.table.rows| == total - Removed(total, |inputs|, MaxBatch(e.maxBatchSize));
  }
}
