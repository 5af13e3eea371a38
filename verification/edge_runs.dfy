/** Whole runs of the edge: configurations, successful or not, and ticks, in any order. */
module EdgeRuns {
  import opened Options
  import opened Samples
  import opened Schedulers
  import opened LocalStores
  import opened Protocol
  import opened Traces
  import opened HttpUploaders
  import opened Pipelines

  datatype Step = Ticked(input: TickInput) | Reloaded(config: Config, found: ConfigureInput)

  predicate ValidStep(step: Step) {
    step.Reloaded? ==> ValidConfig(step.config, step.found)
  }

  predicate ValidSteps(steps: seq<Step>) {
    forall i | 0 <= i < |steps| :: ValidStep(steps[i])
  }

  function Apply(e: Edge, step: Step): Edge
    requires ValidStep(step)
  {
    match step
    case Ticked(input) => Tick(e, input)
    case Reloaded(config, found) => Reconfigure(e, config, found)
  }

  function Run(e: Edge, steps: seq<Step>): Edge
    requires ValidSteps(steps)
  {
    if steps == [] then e else Apply(Run(e, steps[..|steps| - 1]), steps[|steps| - 1])
  }

  /** A run of ticks alone. */
  function Ticks(inputs: seq<TickInput>): (steps: seq<Step>)
    ensures ValidSteps(steps)
  {
    seq(|inputs|, k requires 0 <= k < |inputs| => Ticked(inputs[k]))
  }

  function TickAll(e: Edge, inputs: seq<TickInput>): Edge {
    Run(e, Ticks(inputs))
  }

  lemma TickAllStep(e: Edge, inputs: seq<TickInput>)
    ensures inputs == [] ==> TickAll(e, inputs) == e
    ensures inputs != [] ==>
              var n := |inputs| - 1; TickAll(e, inputs) == Tick(TickAll(e, inputs[..n]), inputs[n])
  {
    hide Tick;
    if inputs != [] {
      var n := |inputs| - 1;
      assert Ticks(inputs)[..n] == Ticks(inputs[..n]);
    }
  }

  // ----- Structure that every reachable state has -----

  ghost predicate Sound(e: Edge) {
    && |e.ring.items| <= e.ring.capacity
    && (e.hasBuffer ==> e.ring.capacity == Capacity(e.maxBatchSize))
    && (e.bindings != map[] ==> e.hasBuffer)
    && WellKeyed(e.store.table)
    && (e.storeOpen ==> e.store.isOpen)
    && (e.target == None ==> e.retryAttempt == 0)
  }

  /** Polling changes only the ring, the policy and the trace, and the ring stays within capacity. */
  ghost predicate OnlyPolled(e: Edge, after: Edge) {
    && after == e.(ring := after.ring, policy := after.policy, trace := after.trace)
    && after.ring.capacity == e.ring.capacity
    && (|e.ring.items| <= e.ring.capacity ==> |after.ring.items| <= e.ring.capacity)
  }

  /** A property of the edge that every polled sample keeps. */
  ghost predicate KeptByPoll(inv: Edge -> bool) {
    forall e: Edge, id: string, priority: Priority, sample: Sample ::
      inv(e) ==> inv(PolledSample(e, id, priority, sample))
  }

  lemma {:induction false} SamplesKeep(inv: Edge -> bool, e: Edge, id: string, priority: Priority, samples: seq<Sample>)
    requires inv(e) && KeptByPoll(inv)
    ensures inv(PolledSamples(e, id, priority, samples))
  {
    hide PolledSample;
    if samples != [] {
      SamplesKeep(inv, e, id, priority, samples[..|samples| - 1]);
    }
  }

  lemma {:induction false} PollsKeep(inv: Edge -> bool, e: Edge, ids: seq<string>, readings: seq<Reading>)
    requires inv(e) && KeptByPoll(inv)
    ensures inv(PolledAll(e, ids, readings))
  {
    hide PolledSamples, KeptByPoll;
    if ids != [] {
      var n := |ids| - 1;
      PollsKeep(inv, e, ids[..n], readings);
      var before := PolledAll(e, ids[..n], readings);
      if ids[n] in before.bindings {
        SamplesKeep(inv, before, ids[n], before.bindings[ids[n]], ReadingOf(readings, n).samples);
      }
    }
  }

  /** Induction over the poll phase: what dispatching leaves and every polled sample keeps holds after it. */
  lemma PollPhaseKeeps(inv: Edge -> bool, e: Edge, input: TickInput)
    requires inv(e.(schedule := Dispatched(e.schedule, input.now))) && KeptByPoll(inv)
    ensures inv(AfterPolls(e, input))
  {
    PollsKeep(inv, e.(schedule := Dispatched(e.schedule, input.now)), Due(e.schedule, input.now), input.readings);
  }

  lemma AfterPollsOnly(e: Edge, input: TickInput)
    ensures OnlyPolled(e.(schedule := Dispatched(e.schedule, input.now)), AfterPolls(e, input))
  {
    hide FromSample, OverflowEvents, Dispatched;
    PollPhaseKeeps(f => OnlyPolled(e.(schedule := Dispatched(e.schedule, input.now)), f), e, input);
  }

  /** No phase of a tick rewrites the trace. */
  lemma TickExtends(e: Edge, input: TickInput)
    ensures var polled := AfterPolls(e, input);
            var flushed := AfterFlush(polled, input.flush);
            e.trace <= polled.trace <= flushed.trace <= AfterRetry(flushed, input.retry).trace
  {
    hide FromSample, OverflowEvents, UploadAttempt, RetryAttempt, BackoffDelay, PendingCount, FlushBatch;
    PollPhaseKeeps((f: Edge) => e.trace <= f.trace, e, input);
  }

  // ----- What a batch of inserts and a batch of deletes do to the table -----

  predicate IsPersistence(event: Event) {
    event.Persisted? || event.NotPersisted?
  }

  /** The rows that a stretch of the trace inserted. */
  function InsertedRows(events: seq<Event>): seq<Row> {
    if events == [] then []
    else
      var last := events[|events| - 1];
      InsertedRows(events[..|events| - 1]) + if last.Persisted? then [last.stored] else []
  }

  lemma {:induction false} InsertedRowsAppend(a: seq<Event>, b: seq<Event>)
    ensures InsertedRows(a + b) == InsertedRows(a) + InsertedRows(b)
  {
    if b == [] {
      assert a + b == a;
    } else {
      assert (a + b)[..|a + b| - 1] == a + b[..|b| - 1];
      InsertedRowsAppend(a, b[..|b| - 1]);
    }
  }

  /** `after` is `before` with some rows appended, under new keys. */
  ghost predicate GrewBy(before: Option<Store>, after: Option<Store>, rows: seq<Row>) {
    if before == None then after == None && rows == []
    else
      && after.Some? && after.value.isOpen == before.value.isOpen
      && after.value.table.rows == before.value.table.rows + rows
      && (WellKeyed(before.value.table) ==> WellKeyed(after.value.table))
  }

  lemma PersistOneGrows(store: Option<Store>, sample: StoredSample, sqlOk: bool)
    ensures var step := PersistOne(store, sample, sqlOk);
            |step.events| == 1 && IsPersistence(step.events[0]) && GrewBy(store, step.store, InsertedRows(step.events))
  {
  }

  lemma GrewByTwice(a: Option<Store>, b: Option<Store>, c: Option<Store>, first: seq<Row>, second: seq<Row>)
    requires GrewBy(a, b, first) && GrewBy(b, c, second)
    ensures GrewBy(a, c, first + second)
  {
    if a.Some? {
      assert a.value.table.rows + first + second == a.value.table.rows + (first + second);
    }
  }

  lemma {:induction false} PersistedAllGrows(store: Option<Store>, samples: seq<StoredSample>, insertOk: seq<bool>)
    ensures var step := PersistedAll(store, samples, insertOk);
            && GrewBy(store, step.store, InsertedRows(step.events))
            && forall j | 0 <= j < |step.events| :: IsPersistence(step.events[j])
  {
    if samples == [] {
      assert store.Some? ==> store.value.table.rows + [] == store.value.table.rows;
    } else {
      var n := |samples| - 1;
      var before := PersistedAll(store, samples[..n], insertOk);
      var last := PersistOne(before.store, samples[n], Succeeds(insertOk, n));
      PersistedAllGrows(store, samples[..n], insertOk);
      PersistOneGrows(before.store, samples[n], Succeeds(insertOk, n));
      GrewByTwice(store, before.store, last.store, InsertedRows(before.events), InsertedRows(last.events));
      InsertedRowsAppend(before.events, last.events);
    }
  }

  lemma {:induction false} AcknowledgedAllKeys(store: Store, rows: seq<PendingRow>, deleteOk: seq<bool>)
    requires WellKeyed(store.table)
    ensures var step := AcknowledgedAll(store, rows, deleteOk);
            && WellKeyed(step.store.value.table)
            && forall e | e in step.events :: e.Deleted? && e.row in rows
  {
    if rows != [] {
      var n := |rows| - 1;
      AcknowledgedAllKeys(store, rows[..n], deleteOk);
      var before := AcknowledgedAll(store, rows[..n], deleteOk).store.value;
      WithoutIdKeepsKeys(before.table.rows, before.table.nextId, rows[n].id);
    }
  }

  /** What an attempt to post adds to the trace: the POST, then only bookkeeping of the store. */
  ghost predicate IsAttempt(attempt: Attempt, kind: PostKind, batch: seq<StoredSample>, request: Request,
                            outcome: PostOutcome, at: int, failedAt: int)
  {
    && |attempt.step.events| > 0
    && attempt.step.events[0] == Posted(kind, batch, request, outcome, at, failedAt)
    && attempt.result == InterpretResponse(outcome.response)
    && forall j | 1 <= j < |attempt.step.events| ::
         if kind.FlushPost? then IsPersistence(attempt.step.events[j])
         else
           && attempt.result.Accepted?
           && attempt.step.events[j].Deleted? && attempt.step.events[j].row.sample in batch
  }

  lemma UploadIsAttempt(target: Target, store: Option<Store>, samples: seq<StoredSample>, outcome: PostOutcome,
                        insertOk: seq<bool>, at: int, failedAt: int)
    requires samples != []
    ensures var attempt := UploadAttempt(target, store, samples, outcome, insertOk, at, failedAt);
            && IsAttempt(attempt, FlushPost, samples, RequestOf(target, samples), outcome, at, failedAt)
            && attempt.step.store.Some? == store.Some?
            && (store.Some? && WellKeyed(store.value.table) ==>
                  && WellKeyed(attempt.step.store.value.table)
                  && attempt.step.store.value.isOpen == store.value.isOpen)
  {
    hide WireAll, RowOf, WellKeyed, RequestOf, PersistedAll, InsertedRows;
    if InterpretResponse(outcome.response).TransientFailure? {
      PersistedAllGrows(store, samples, insertOk);
    }
  }

  lemma FlushIsAttempt(e: Edge, i: FlushInput)
    requires Sound(e) && Flushes(e, i)
    ensures FlushBatch(e) != []
    ensures IsAttempt(FlushAttempt(e, i), FlushPost, FlushBatch(e), RequestOf(e.target.value, FlushBatch(e)),
                      i.outcome, i.at, i.failedAt)
    ensures var step := FlushAttempt(e, i).step;
            step.store.Some? ==> WellKeyed(step.store.value.table) && step.store.value.isOpen == e.store.isOpen
  {
    assert |FlushBatch(e)| > 0;
    UploadIsAttempt(e.target.value, AttachedStore(e), FlushBatch(e), i.outcome, i.insertOk, i.at, i.failedAt);
  }

  function RetryRows(e: Edge, i: RetryInput): seq<PendingRow> {
    Peeked(e.store, MaxBatch(e.maxBatchSize), i.stepped)
  }

  lemma RetryIsAttempt(e: Edge, i: RetryInput)
    requires Sound(e) && Retries(e, i)
    ensures var batch := SamplesOf(RetryRows(e, i));
            if batch == [] then RetryOf(e, i) == Attempt(Accepted, StoreStep(AttachedStore(e), [EmptyRetry]))
            else IsAttempt(RetryOf(e, i), RetryPost, batch, RequestOf(e.target.value, batch), i.outcome, i.at, i.failedAt)
    ensures var step := RetryOf(e, i).step;
            step.store.Some? && WellKeyed(step.store.value.table) && step.store.value.isOpen == e.store.isOpen
  {
    var rows := RetryRows(e, i);
    if rows != [] && InterpretResponse(i.outcome.response).Accepted? {
      AcknowledgedAllKeys(e.store, rows, i.deleteOk);
      var events := RetryOf(e, i).step.events;
      forall j | 1 <= j < |events| ensures events[j].Deleted? && events[j].row.sample in SamplesOf(rows) {
        assert events[j] in AcknowledgedAll(e.store, rows, i.deleteOk).events;
        var k :| 0 <= k < |rows| && rows[k] == events[j].row;
        assert SamplesOf(rows)[k] == events[j].row.sample;
      }
    }
  }

  lemma TickKeepsSound(e: Edge, input: TickInput)
    requires Sound(e)
    ensures Sound(AfterPolls(e, input))
    ensures Sound(AfterFlush(AfterPolls(e, input), input.flush))
    ensures Sound(Tick(e, input))
  {
    AfterPollsOnly(e, input);
    var polled := AfterPolls(e, input);
    FlushKeepsSound(polled, input.flush);
    RetryKeepsSound(AfterFlush(polled, input.flush), input.retry);
  }

  lemma FlushKeepsSound(e: Edge, i: FlushInput)
    requires Sound(e)
    ensures Sound(AfterFlush(e, i))
  {
    if Flushes(e, i) {
      FlushIsAttempt(e, i);
    }
  }

  lemma RetryKeepsSound(e: Edge, i: RetryInput)
    requires Sound(e)
    ensures Sound(AfterRetry(e, i))
  {
    if Retries(e, i) {
      RetryIsAttempt(e, i);
    }
  }

  lemma ReconfigureKeepsSound(e: Edge, config: Config, found: ConfigureInput)
    requires Sound(e) && ValidConfig(config, found) && WellKeyed(found.file)
    ensures Sound(Reconfigure(e, config, found))
  {
  }

  /** Whether or not it succeeds, a configuration empties the ring and records what it discards. */
  lemma ReconfigureShape(e: Edge, config: Config, found: ConfigureInput)
    requires ValidConfig(config, found)
    ensures var after := Reconfigure(e, config, found);
            && after.trace == e.trace + [Reconfigured(e.ring.items)]
            && after.ring.items == []
            && after.store.table == if config.storePath != "" && found.openOk then found.file else e.store.table
  {
  }

  lemma StepExtends(e: Edge, step: Step)
    requires ValidStep(step)
    ensures e.trace <= Apply(e, step).trace
  {
    hide AfterPolls, AfterFlush, AfterRetry, Reconfigure;
    match step
    case Ticked(input) => TickExtends(e, input);
    case Reloaded(config, found) => ReconfigureShape(e, config, found);
  }

  lemma StepKeepsSound(e: Edge, step: Step)
    requires Sound(e) && ValidStep(step) && (step.Reloaded? ==> WellKeyed(step.found.file))
    ensures Sound(Apply(e, step))
  {
    hide Sound, Tick, Reconfigure;
    match step
    case Ticked(input) => TickKeepsSound(e, input);
    case Reloaded(config, found) => ReconfigureKeepsSound(e, config, found);
  }

  /** Database files are keyed by SQLite. */
  ghost predicate KeyedFiles(steps: seq<Step>) {
    forall i | 0 <= i < |steps| && steps[i].Reloaded? :: WellKeyed(steps[i].found.file)
  }

  lemma {:induction false} RunKeepsSound(e: Edge, steps: seq<Step>)
    requires Sound(e) && ValidSteps(steps) && KeyedFiles(steps)
    ensures Sound(Run(e, steps))
  {
    if steps != [] {
      var n := |steps| - 1;
      RunKeepsSound(e, steps[..n]);
      StepKeepsSound(Run(e, steps[..n]), steps[n]);
    }
  }
}
