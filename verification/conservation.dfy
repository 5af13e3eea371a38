/** Every sample that enters a run of the edge is accounted for at every later point of it. */
module Conservation {
  import opened Options
  import opened Samples
  import opened RingBuffers
  import opened UploadPolicies
  import opened LocalStores
  import opened Protocol
  import opened Traces
  import opened HttpUploaders
  import opened Pipelines
  import opened EdgeRuns

  /** A property of samples; the counts below say how many samples of a collection have it. */
  type Property = StoredSample -> bool

  /** The property cannot tell a sample from what the store gives back for it. */
  ghost predicate StoreBlind(p: Property) {
    forall sample, id :: p(SampleOf(RowOf(id, sample))) == p(sample)
  }

  function One(p: Property, sample: StoredSample): nat {
    if p(sample) then 1 else 0
  }

  function Count(p: Property, samples: seq<StoredSample>): nat {
    if samples == [] then 0
    else Count(p, samples[..|samples| - 1]) + One(p, samples[|samples| - 1])
  }

  function CountRows(p: Property, rows: seq<Row>): nat {
    if rows == [] then 0
    else CountRows(p, rows[..|rows| - 1]) + One(p, SampleOf(rows[|rows| - 1]))
  }

  /** The ways in which a sample leaves the edge. */
  datatype Fate = Delivered | Refused | Overrun | Lost | Discarded

  function FateOf(event: Event): Option<Fate> {
    match event
    case Posted(FlushPost, _, _, _, _, _) =>
      if ResultOf(event).Accepted? then Some(Delivered)
      else if ResultOf(event).Rejected? then Some(Refused)
      else None
    case Deleted(_) => Some(Delivered)
    case Overflowed(_) => Some(Overrun)
    case NotPersisted(_) => Some(Lost)
    case Reconfigured(_) => Some(Discarded)
    case _ => None
  }

  function Content(p: Property, event: Event): nat {
    match event
    case Posted(_, batch, _, _, _, _) => Count(p, batch)
    case Deleted(row) => One(p, row.sample)
    case Overflowed(sample) => One(p, sample)
    case NotPersisted(sample) => One(p, sample)
    case Reconfigured(discarded) => Count(p, discarded)
    case Polled(_, sample) => One(p, sample)
    case _ => 0
  }

  /** How much a trace reads from drivers. */
  function Read(p: Property, trace: seq<Event>): nat {
    if trace == [] then 0
    else
      var last := trace[|trace| - 1];
      Read(p, trace[..|trace| - 1]) + if last.Polled? then Content(p, last) else 0
  }

  /** How much a trace lets go, by whatever fate. */
  function Gone(p: Property, trace: seq<Event>): nat {
    if trace == [] then 0
    else
      var last := trace[|trace| - 1];
      Gone(p, trace[..|trace| - 1]) + if FateOf(last).Some? then Content(p, last) else 0
  }

  function GoneBy(fate: Fate, p: Property, trace: seq<Event>): nat {
    if trace == [] then 0
    else
      var last := trace[|trace| - 1];
      GoneBy(fate, p, trace[..|trace| - 1]) + if FateOf(last) == Some(fate) then Content(p, last) else 0
  }

  lemma {:induction false} GoneSplits(p: Property, trace: seq<Event>)
    ensures Gone(p, trace) == GoneBy(Delivered, p, trace) + GoneBy(Refused, p, trace) + GoneBy(Overrun, p, trace)
                              + GoneBy(Lost, p, trace) + GoneBy(Discarded, p, trace)
  {
    if trace != [] {
      GoneSplits(p, trace[..|trace| - 1]);
    }
  }

  lemma {:induction false} CountAppend(p: Property, a: seq<StoredSample>, b: seq<StoredSample>)
    ensures Count(p, a + b) == Count(p, a) + Count(p, b)
  {
    if b == [] {
      assert a + b == a;
    } else {
      CountAppend(p, a, b[..|b| - 1]);
      assert (a + b)[..|a + b| - 1] == a + b[..|b| - 1];
    }
  }

  lemma {:induction false} CountRowsAppend(p: Property, a: seq<Row>, b: seq<Row>)
    ensures CountRows(p, a + b) == CountRows(p, a) + CountRows(p, b)
  {
    hide SampleOf, RowOf;
    if b == [] {
      assert a + b == a;
    } else {
      CountRowsAppend(p, a, b[..|b| - 1]);
      assert (a + b)[..|a + b| - 1] == a + b[..|b| - 1];
    }
  }

  lemma {:induction false} TraceAppend(p: Property, a: seq<Event>, b: seq<Event>)
    ensures Read(p, a + b) == Read(p, a) + Read(p, b)
    ensures Gone(p, a + b) == Gone(p, a) + Gone(p, b)
  {
    if b == [] {
      assert a + b == a;
    } else {
      TraceAppend(p, a, b[..|b| - 1]);
      assert (a + b)[..|a + b| - 1] == a + b[..|b| - 1];
    }
  }

  lemma {:induction false} FateAppend(fate: Fate, p: Property, a: seq<Event>, b: seq<Event>)
    ensures GoneBy(fate, p, a + b) == GoneBy(fate, p, a) + GoneBy(fate, p, b)
  {
    if b == [] {
      assert a + b == a;
    } else {
      FateAppend(fate, p, a, b[..|b| - 1]);
      assert (a + b)[..|a + b| - 1] == a + b[..|b| - 1];
    }
  }

  lemma OneEventTotals(p: Property, event: Event)
    ensures Read(p, [event]) == if event.Polled? then Content(p, event) else 0
    ensures Gone(p, [event]) == if FateOf(event).Some? then Content(p, event) else 0
  {
    assert [event][..0] == [];
  }

  lemma OneEventFate(fate: Fate, p: Property, event: Event)
    ensures GoneBy(fate, p, [event]) == if FateOf(event) == Some(fate) then Content(p, event) else 0
  {
    assert [event][..0] == [];
  }

  // ----- The ring -----

  lemma CountWithout(p: Property, items: seq<StoredSample>, d: nat)
    requires d < |items|
    ensures Count(p, items) == Count(p, Without(items, d)) + One(p, items[d])
  {
    hide Count, One;
    var before, after := items[..d], items[d + 1..];
    assert items == before + [items[d]] + after;
    CountAppend(p, before + [items[d]], after);
    CountSnoc(p, before, items[d]);
    CountAppend(p, before, after);
  }

  lemma CountRowsSnoc(p: Property, rows: seq<Row>, row: Row)
    ensures CountRows(p, rows + [row]) == CountRows(p, rows) + One(p, SampleOf(row))
  {
    hide SampleOf;
    assert (rows + [row])[..|rows|] == rows;
  }

  lemma CountSnoc(p: Property, items: seq<StoredSample>, sample: StoredSample)
    ensures Count(p, items + [sample]) == Count(p, items) + One(p, sample)
  {
    assert (items + [sample])[..|items|] == items;
  }

  /** An enqueue keeps the sample or gives up exactly one. */
  lemma EnqueueBalance(p: Property, ring: Ring, sample: StoredSample)
    ensures Count(p, Enqueued(ring, sample).items) + Gone(p, OverflowEvents(ring, sample))
         == Count(p, ring.items) + One(p, sample)
    ensures Read(p, OverflowEvents(ring, sample)) == 0
  {
    match Victim(ring, sample)
    case None =>
      CountSnoc(p, ring.items, sample);
    case Some(victim) =>
      OneEventTotals(p, Overflowed(victim));
      var d := DropOffset(ring.items);
      if !LowerThan(sample, ring.items[d]) {
        CountWithout(p, ring.items, d);
        CountSnoc(p, Without(ring.items, d), sample);
      }
  }

  // ----- The store -----

  function CountStore(p: Property, store: Option<Store>): nat {
    if store.Some? then CountRows(p, store.value.table.rows) else 0
  }

  lemma PersistOneBalance(p: Property, store: Option<Store>, sample: StoredSample, sqlOk: bool)
    requires StoreBlind(p)
    ensures var step := PersistOne(store, sample, sqlOk);
            && CountStore(p, step.store) + Gone(p, step.events) == CountStore(p, store) + One(p, sample)
            && Read(p, step.events) == 0
  {
    OneEventTotals(p, PersistOne(store, sample, sqlOk).events[0]);
    if store.Some? && store.value.isOpen && sqlOk {
      var table := store.value.table;
      var row := RowOf(table.nextId, sample);
      assert (table.rows + [row])[..|table.rows|] == table.rows;
      assert p(SampleOf(row)) == p(sample);
    }
  }

  /** Persisting a batch moves each sample into the table or loses it. */
  lemma {:induction false} PersistedAllBalance(p: Property, store: Option<Store>, samples: seq<StoredSample>,
                                               insertOk: seq<bool>)
    requires StoreBlind(p)
    ensures var step := PersistedAll(store, samples, insertOk);
            && CountStore(p, step.store) + Gone(p, step.events) == CountStore(p, store) + Count(p, samples)
            && Read(p, step.events) == 0
  {
    hide SampleOf, RowOf;
    if samples != [] {
      var n := |samples| - 1;
      var before := PersistedAll(store, samples[..n], insertOk);
      PersistedAllBalance(p, store, samples[..n], insertOk);
      PersistOneBalance(p, before.store, samples[n], Succeeds(insertOk, n));
      TraceAppend(p, before.events, PersistOne(before.store, samples[n], Succeeds(insertOk, n)).events);
    }
  }

  predicate Holds(rows: seq<Row>, i: nat, row: PendingRow)
    requires i < |rows|
  {
    rows[i].id == row.id && SampleOf(rows[i]) == row.sample
  }

  ghost predicate Present(rows: seq<Row>, row: PendingRow) {
    exists i: nat :: i < |rows| && Holds(rows, i, row)
  }

  /** Deleting a present row takes exactly that row out of the table. */
  lemma DeleteBalance(p: Property, rows: seq<Row>, nextId: int, row: PendingRow)
    requires WellKeyed(Table(rows, nextId)) && Present(rows, row)
    ensures CountRows(p, WithoutId(rows, row.id)) + One(p, row.sample) == CountRows(p, rows)
  {
    hide SampleOf, RowOf;
    hide CountRows, One;
    var i: nat :| i < |rows| && Holds(rows, i, row);
    WithoutIdAt(rows, nextId, i);
    var before, after := rows[..i], rows[i + 1..];
    assert rows == before + [rows[i]] + after;
    CountRowsAppend(p, before + [rows[i]], after);
    CountRowsSnoc(p, before, rows[i]);
    CountRowsAppend(p, before, after);
  }

  lemma DeleteKeepsOthers(rows: seq<Row>, nextId: int, id: int, other: PendingRow)
    requires WellKeyed(Table(rows, nextId)) && other.id != id && Present(rows, other)
    ensures Present(WithoutId(rows, id), other)
  {
    hide SampleOf, RowOf;
    var j: nat :| j < |rows| && Holds(rows, j, other);
    if i :| 0 <= i < |rows| && rows[i].id == id {
      WithoutIdAt(rows, nextId, i);
      assert Holds(WithoutId(rows, id), if j < i then j else j - 1, other);
    } else {
      WithoutAbsentId(rows, id);
    }
  }

  ghost predicate Distinct(rows: seq<PendingRow>) {
    forall j, k | 0 <= j < k < |rows| :: rows[j].id != rows[k].id
  }

  lemma {:induction false} AcknowledgedAllKeepsOthers(store: Store, rows: seq<PendingRow>, deleteOk: seq<bool>,
                                                      other: PendingRow)
    requires WellKeyed(store.table) && Present(store.table.rows, other)
    requires forall k | 0 <= k < |rows| :: rows[k].id != other.id
    ensures Present(AcknowledgedAll(store, rows, deleteOk).store.value.table.rows, other)
  {
    hide SampleOf, RowOf;
    if rows != [] {
      var n := |rows| - 1;
      AcknowledgedAllKeepsOthers(store, rows[..n], deleteOk, other);
      AcknowledgedAllKeys(store, rows[..n], deleteOk);
      var table := AcknowledgedAll(store, rows[..n], deleteOk).store.value.table;
      DeleteKeepsOthers(table.rows, table.nextId, rows[n].id, other);
    }
  }

  lemma AcknowledgeOneBalance(p: Property, store: Store, row: PendingRow, sqlOk: bool)
    requires WellKeyed(store.table) && Present(store.table.rows, row)
    ensures var step := AcknowledgeOne(store, row, sqlOk);
            && CountStore(p, step.store) + Gone(p, step.events) == CountRows(p, store.table.rows)
            && Read(p, step.events) == 0
  {
    hide SampleOf, RowOf;
    DeleteBalance(p, store.table.rows, store.table.nextId, row);
    OneEventTotals(p, Deleted(row));
  }

  lemma AcknowledgeNextBalance(p: Property, before: StoreStep, row: PendingRow, sqlOk: bool, total: nat)
    requires before.store.Some? && WellKeyed(before.store.value.table)
    requires Present(before.store.value.table.rows, row)
    requires CountStore(p, before.store) + Gone(p, before.events) == total && Read(p, before.events) == 0
    ensures var last := AcknowledgeOne(before.store.value, row, sqlOk);
            && CountStore(p, last.store) + Gone(p, before.events + last.events) == total
            && Read(p, before.events + last.events) == 0
  {
    AcknowledgeOneBalance(p, before.store.value, row, sqlOk);
    TraceAppend(p, before.events, AcknowledgeOne(before.store.value, row, sqlOk).events);
  }

  /** Acknowledging rows takes each out of the table or leaves it there. */
  lemma {:induction false} AcknowledgedAllBalance(p: Property, store: Store, rows: seq<PendingRow>, deleteOk: seq<bool>)
    requires WellKeyed(store.table) && Distinct(rows)
    requires forall k | 0 <= k < |rows| :: Present(store.table.rows, rows[k])
    ensures var step := AcknowledgedAll(store, rows, deleteOk);
            && CountStore(p, step.store) + Gone(p, step.events) == CountRows(p, store.table.rows)
            && Read(p, step.events) == 0
  {
    if rows != [] {
      var n := |rows| - 1;
      AcknowledgedAllBalance(p, store, rows[..n], deleteOk);
      AcknowledgedAllKeepsOthers(store, rows[..n], deleteOk, rows[n]);
      AcknowledgedAllKeys(store, rows[..n], deleteOk);
      AcknowledgeNextBalance(p, AcknowledgedAll(store, rows[..n], deleteOk), rows[n], Succeeds(deleteOk, n),
                             CountRows(p, store.table.rows));
    }
  }

  // ----- The state machine -----

  /** What came from files, `base` in all, and everything read is held or accounted for. */
  ghost predicate Balanced(p: Property, e: Edge, base: int) {
    base + Read(p, e.trace) == Count(p, e.ring.items) + CountRows(p, e.store.table.rows) + Gone(p, e.trace)
  }

  /** What a stretch of events must satisfy to keep the balance. */
  lemma BalanceAfter(p: Property, e: Edge, after: Edge, events: seq<Event>, base: int)
    requires Balanced(p, e, base) && after.trace == e.trace + events
    requires Count(p, after.ring.items) + CountRows(p, after.store.table.rows) + Gone(p, events)
          == Count(p, e.ring.items) + CountRows(p, e.store.table.rows) + Read(p, events)
    ensures Balanced(p, after, base)
  {
    TraceAppend(p, e.trace, events);
  }

  lemma PolledSampleBalance(p: Property, e: Edge, id: string, priority: Priority, sample: Sample, base: int)
    requires Balanced(p, e, base)
    ensures Balanced(p, PolledSample(e, id, priority, sample), base)
  {
    var stored := FromSample(sample, priority);
    var overflow := OverflowEvents(e.ring, stored);
    EnqueueBalance(p, e.ring, stored);
    OneEventTotals(p, Polled(id, stored));
    TraceAppend(p, [Polled(id, stored)], overflow);
    TraceAppend(p, e.trace, [Polled(id, stored)] + overflow);
  }

  /** A flush delivers its batch, has it refused, or moves it to the store. */
  lemma UploadBalance(p: Property, target: Target, store: Option<Store>, samples: seq<StoredSample>,
                      outcome: PostOutcome, insertOk: seq<bool>, at: int, failedAt: int)
    requires samples != [] && StoreBlind(p)
    ensures var step := UploadAttempt(target, store, samples, outcome, insertOk, at, failedAt).step;
            && CountStore(p, step.store) + Gone(p, step.events) == CountStore(p, store) + Count(p, samples)
            && Read(p, step.events) == 0 && step.store.Some? == store.Some?
  {
    var posted := Posted(FlushPost, samples, RequestOf(target, samples), outcome, at, failedAt);
    OneEventTotals(p, posted);
    if InterpretResponse(outcome.response).TransientFailure? {
      PersistedAllBalance(p, store, samples, insertOk);
      PersistedAllGrows(store, samples, insertOk);
      TraceAppend(p, [posted], PersistedAll(store, samples, insertOk).events);
    }
  }

  lemma DrainBalance(p: Property, e: Edge)
    ensures Count(p, e.ring.items) == Count(p, FlushBatch(e)) + Count(p, Drained(e).ring.items)
  {
    var batch := FlushBatch(e);
    CountAppend(p, batch, e.ring.items[|batch|..]);
    assert e.ring.items == batch + e.ring.items[|batch|..];
  }

  lemma FlushBalance(p: Property, e: Edge, i: FlushInput, base: int)
    requires Sound(e) && Balanced(p, e, base) && StoreBlind(p)
    ensures Balanced(p, AfterFlush(e, i), base)
  {
    hide UploadAttempt, InterpretResponse, BackoffDelay, Count, CountRows, Gone, Read;
    if Flushes(e, i) {
      var step := FlushAttempt(e, i).step;
      assert FlushBatch(e) != [];
      UploadBalance(p, e.target.value, AttachedStore(e), FlushBatch(e), i.outcome, i.insertOk, i.at, i.failedAt);
      DrainBalance(p, e);
      BalanceAfter(p, e, AfterFlush(e, i), step.events, base);
    }
  }

  lemma PeekedIsPresent(store: Store, maxCount: nat, stepped: nat)
    requires WellKeyed(store.table)
    ensures var rows := Peeked(store, maxCount, stepped);
            Distinct(rows) && forall k | 0 <= k < |rows| :: Present(store.table.rows, rows[k])
  {
    var rows := Peeked(store, maxCount, stepped);
    forall k | 0 <= k < |rows| ensures Present(store.table.rows, rows[k]) {
      assert Holds(store.table.rows, k, rows[k]);
    }
  }

  /** A retry delivers the rows it deletes. */
  lemma ResendBalance(p: Property, e: Edge, i: RetryInput)
    requires Sound(e) && Retries(e, i)
    ensures var step := RetryOf(e, i).step;
            && step.store.Some?
            && CountStore(p, step.store) + Gone(p, step.events) == CountRows(p, e.store.table.rows)
            && Read(p, step.events) == 0
  {
    hide SampleOf, RowOf, WireAll;
    var rows, events := RetryRows(e, i), RetryOf(e, i).step.events;
    OneEventTotals(p, events[0]);
    if rows != [] && InterpretResponse(i.outcome.response).Accepted? {
      PeekedIsPresent(e.store, MaxBatch(e.maxBatchSize), i.stepped);
      AcknowledgedAllBalance(p, e.store, rows, i.deleteOk);
      TraceAppend(p, [events[0]], AcknowledgedAll(e.store, rows, i.deleteOk).events);
    }
  }

  lemma RetryBalance(p: Property, e: Edge, i: RetryInput, base: int)
    requires Sound(e) && Balanced(p, e, base)
    ensures Balanced(p, AfterRetry(e, i), base)
  {
    hide RetryAttempt, InterpretResponse, BackoffDelay, Count, CountRows, Gone, Read;
    if Retries(e, i) {
      ResendBalance(p, e, i);
      TraceAppend(p, e.trace, RetryOf(e, i).step.events);
    }
  }

  lemma PollPhaseBalance(p: Property, e: Edge, input: TickInput, base: int)
    requires Balanced(p, e, base)
    ensures Balanced(p, AfterPolls(e, input), base)
  {
    hide PolledSample, AfterPolls, Gone, Read, Count, CountRows;
    forall f, id, priority, sample | Balanced(p, f, base) ensures Balanced(p, PolledSample(f, id, priority, sample), base) {
      PolledSampleBalance(p, f, id, priority, sample, base);
    }
    PollPhaseKeeps(f => Balanced(p, f, base), e, input);
  }

  lemma TickBalance(p: Property, e: Edge, input: TickInput, base: int)
    requires Sound(e) && Balanced(p, e, base) && StoreBlind(p)
    ensures Balanced(p, Tick(e, input), base)
  {
    PollPhaseBalance(p, e, input, base);
    TickKeepsSound(e, input);
    FlushBalance(p, AfterPolls(e, input), input.flush, base);
    RetryBalance(p, AfterFlush(AfterPolls(e, input), input.flush), input.retry, base);
  }

  predicate Opens(step: Step) {
    step.Reloaded? && step.config.storePath != "" && step.found.openOk
  }

  /** The rows that openings of the store bring in: those of the files they find. */
  function Found(p: Property, steps: seq<Step>): nat {
    if steps == [] then 0
    else
      var n := |steps| - 1;
      Found(p, steps[..n]) + if Opens(steps[n]) then CountRows(p, steps[n].found.file.rows) else 0
  }

  /** The rows that openings of the store leave behind: those pending in the table they replace. */
  function Left(p: Property, e: Edge, steps: seq<Step>): nat
    requires ValidSteps(steps)
  {
    if steps == [] then 0
    else
      var n := |steps| - 1;
      Left(p, e, steps[..n]) + if Opens(steps[n]) then CountRows(p, Run(e, steps[..n]).store.table.rows) else 0
  }

  /** What a step adds to the rows that came from files, less what it leaves behind. */
  function Exchanged(p: Property, e: Edge, step: Step): int {
    if Opens(step) then CountRows(p, step.found.file.rows) - CountRows(p, e.store.table.rows) else 0
  }

  lemma ExchangeBalance(p: Property, e: Edge, after: Edge, base: int, exchanged: int)
    requires Balanced(p, e, base) && after.trace == e.trace + [Reconfigured(e.ring.items)] && after.ring.items == []
    requires CountRows(p, after.store.table.rows) == CountRows(p, e.store.table.rows) + exchanged
    ensures Balanced(p, after, base + exchanged)
  {
    OneEventTotals(p, Reconfigured(e.ring.items));
    TraceAppend(p, e.trace, [Reconfigured(e.ring.items)]);
  }

  lemma ReconfigureBalance(p: Property, e: Edge, config: Config, found: ConfigureInput, base: int)
    requires Balanced(p, e, base) && ValidConfig(config, found)
    ensures Balanced(p, Reconfigure(e, config, found), base + Exchanged(p, e, Reloaded(config, found)))
  {
    hide Balanced, CountRows, Reset, SetUpChannels;
    ReconfigureShape(e, config, found);
    ExchangeBalance(p, e, Reconfigure(e, config, found), base, Exchanged(p, e, Reloaded(config, found)));
  }

  lemma StepBalance(p: Property, e: Edge, step: Step, base: int)
    requires Sound(e) && Balanced(p, e, base) && StoreBlind(p) && ValidStep(step)
    ensures Balanced(p, Apply(e, step), base + Exchanged(p, e, step))
  {
    hide Balanced, StoreBlind, Sound, Tick, Reconfigure, CountRows;
    match step
    case Ticked(input) => TickBalance(p, e, input, base);
    case Reloaded(config, found) => ReconfigureBalance(p, e, config, found, base);
  }

  lemma {:induction false} RunBalance(p: Property, e: Edge, steps: seq<Step>, base: int)
    requires Sound(e) && Balanced(p, e, base) && StoreBlind(p)
    requires ValidSteps(steps) && KeyedFiles(steps)
    ensures Balanced(p, Run(e, steps), base + Found(p, steps) - Left(p, e, steps))
  {
    hide Balanced, StoreBlind, Sound, Apply, CountRows;
    if steps != [] {
      var n := |steps| - 1;
      RunBalance(p, e, steps[..n], base);
      RunKeepsSound(e, steps[..n]);
      StepBalance(p, Run(e, steps[..n]), steps[n], base + Found(p, steps[..n]) - Left(p, e, steps[..n]));
    }
  }

  lemma StartsBalanced(p: Property, disk: Table)
    requires WellKeyed(disk)
    ensures Sound(Constructed(disk)) && Balanced(p, Constructed(disk), CountRows(p, disk.rows))
  {
  }

  /**
   * Conservation over every run from construction, whatever the network and the database do: for
   * any property that survives the store, the rows of the files that were opened plus everything read
   * have it as often as what is resident in the ring, pending in the table, left behind in other
   * files, delivered, refused, overrun, lost and discarded taken together.
   */
  lemma SamplesAreConserved(p: Property, disk: Table, steps: seq<Step>)
    requires StoreBlind(p)
    requires WellKeyed(disk) && ValidSteps(steps) && KeyedFiles(steps)
    ensures var e := Run(Constructed(disk), steps);
            CountRows(p, disk.rows) + Found(p, steps) + Read(p, e.trace)
            == Count(p, e.ring.items) + CountRows(p, e.store.table.rows) + Left(p, Constructed(disk), steps)
               + GoneBy(Delivered, p, e.trace) + GoneBy(Refused, p, e.trace) + GoneBy(Overrun, p, e.trace)
               + GoneBy(Lost, p, e.trace) + GoneBy(Discarded, p, e.trace)
  {
    hide Run, Constructed, Sound, StoreBlind, Count, CountRows, Read, Gone, GoneBy, Found, Left;
    StartsBalanced(p, disk);
    RunBalance(p, Constructed(disk), steps, CountRows(p, disk.rows));
    GoneSplits(p, Run(Constructed(disk), steps).trace);
  }

  // ----- Files that only the edge writes -----

  /** Database files by path, and the path whose table the store holds. */
  datatype Disk = Disk(files: map<string, Table>, path: string)

  /** The files once the table that the store holds is written back. */
  function Synced(disk: Disk, table: Table): map<string, Table> {
    disk.files[disk.path := table]
  }

  /** Each opening writes the table back and turns to the file at its own path. */
  function DiskAfter(disk: Disk, e: Edge, steps: seq<Step>): Disk
    requires ValidSteps(steps)
  {
    if steps == [] then disk
    else
      var n := |steps| - 1;
      var before := DiskAfter(disk, e, steps[..n]);
      if Opens(steps[n]) then Disk(Synced(before, Run(e, steps[..n]).store.table), steps[n].config.storePath) else before
  }

  /** Every opening finds at its path what the run last left there, or what was there at the start. */
  predicate FilesPersist(disk: Disk, e: Edge, steps: seq<Step>)
    requires ValidSteps(steps)
  {
    steps == []
    || (var n := |steps| - 1;
        && FilesPersist(disk, e, steps[..n])
        && (Opens(steps[n]) ==>
              var files := Synced(DiskAfter(disk, e, steps[..n]), Run(e, steps[..n]).store.table);
              steps[n].config.storePath in files && files[steps[n].config.storePath] == steps[n].found.file))
  }

  ghost function CountFiles(p: Property, files: map<string, Table>): nat
    decreases |files|
  {
    if files == map[] then 0
    else
      var path :| path in files;
      CountRows(p, files[path].rows) + CountFiles(p, files - {path})
  }

  lemma {:induction false} CountFilesAt(p: Property, files: map<string, Table>, path: string)
    requires path in files
    ensures CountFiles(p, files) == CountRows(p, files[path].rows) + CountFiles(p, files - {path})
    decreases |files|
  {
    var first :| first in files && CountFiles(p, files) == CountRows(p, files[first].rows) + CountFiles(p, files - {first});
    if first != path {
      CountFilesAt(p, files - {first}, path);
      CountFilesAt(p, files - {path}, first);
      assert files - {first} - {path} == files - {path} - {first};
    }
  }

  /** The rows in the files whose table the store does not hold. */
  ghost function Elsewhere(p: Property, disk: Disk): nat {
    CountFiles(p, disk.files - {disk.path})
  }

  lemma OpeningMovesRows(p: Property, disk: Disk, table: Table, path: string)
    requires path in Synced(disk, table)
    ensures var files := Synced(disk, table);
            Elsewhere(p, Disk(files, path)) + CountRows(p, files[path].rows) == Elsewhere(p, disk) + CountRows(p, table.rows)
  {
    var files := Synced(disk, table);
    CountFilesAt(p, files, path);
    CountFilesAt(p, files, disk.path);
    assert files - {disk.path} == disk.files - {disk.path};
  }

  lemma {:induction false} FilesTelescope(p: Property, disk: Disk, e: Edge, steps: seq<Step>)
    requires ValidSteps(steps) && FilesPersist(disk, e, steps)
    ensures Elsewhere(p, DiskAfter(disk, e, steps)) + Found(p, steps) == Elsewhere(p, disk) + Left(p, e, steps)
  {
    hide Elsewhere, Apply;
    if steps != [] {
      var n := |steps| - 1;
      FilesTelescope(p, disk, e, steps[..n]);
      if Opens(steps[n]) {
        OpeningMovesRows(p, DiskAfter(disk, e, steps[..n]), Run(e, steps[..n]).store.table, steps[n].config.storePath);
      }
    }
  }

  /**
   * Conservation across database files: as long as nobody else writes them, the rows of all files at
   * the start plus everything read are the rows of all files now plus what is in the ring or gone,
   * whichever paths the configurations name and however often they change.
   */
  lemma FilesAreConserved(p: Property, disk: Disk, steps: seq<Step>)
    requires StoreBlind(p) && disk.path in disk.files && WellKeyed(disk.files[disk.path])
    requires ValidSteps(steps) && KeyedFiles(steps)
    requires FilesPersist(disk, Constructed(disk.files[disk.path]), steps)
    ensures var start := Constructed(disk.files[disk.path]);
            var e, now := Run(start, steps), DiskAfter(disk, start, steps);
            CountFiles(p, disk.files) + Read(p, e.trace)
            == Count(p, e.ring.items) + CountFiles(p, Synced(now, e.store.table)) + Gone(p, e.trace)
  {
    hide Run;
    var start := Constructed(disk.files[disk.path]);
    var e, now := Run(start, steps), DiskAfter(disk, start, steps);
    RunBalance(p, start, steps, CountRows(p, start.store.table.rows));
    FilesTelescope(p, disk, start, steps);
    CountFilesAt(p, disk.files, disk.path);
    CountFilesAt(p, Synced(now, e.store.table), now.path);
    assert Synced(now, e.store.table) - {now.path} == now.files - {now.path};
  }

  // ----- Identity -----

  /** Being one particular sample, up to what the store keeps, is such a property. */
  lemma IdentityIsStoreBlind(x: StoredSample)
    ensures StoreBlind(Identity(x))
  {
    hide Canonical, SampleOf, RowOf;
    forall sample, id ensures Identity(x)(SampleOf(RowOf(id, sample))) == Identity(x)(sample) {
      CanonicalOfStored(sample, id);
    }
  }

  function Identity(x: StoredSample): Property {
    sample => Canonical(sample) == x
  }

  lemma CanonicalOfStored(sample: StoredSample, id: int)
    ensures Canonical(SampleOf(RowOf(id, sample))) == Canonical(sample)
  {
    StoreRoundTrip(sample, id);
  }

  // ----- What is lost, exactly -----

  /** How many samples of a batch are not inserted. */
  function Unsaved(p: Property, samples: seq<StoredSample>, open: bool, insertOk: seq<bool>): nat {
    if samples == [] then 0
    else
      var n := |samples| - 1;
      Unsaved(p, samples[..n], open, insertOk) + if open && Succeeds(insertOk, n) then 0 else One(p, samples[n])
  }

  lemma PersistOneLoss(p: Property, store: Option<Store>, sample: StoredSample, sqlOk: bool)
    ensures var step := PersistOne(store, sample, sqlOk);
            && GoneBy(Lost, p, step.events)
               == (if store.Some? && store.value.isOpen && sqlOk then 0 else One(p, sample))
            && step.store.Some? == store.Some? && (store.Some? ==> step.store.value.isOpen == store.value.isOpen)
  {
    OneEventFate(Lost, p, PersistOne(store, sample, sqlOk).events[0]);
  }

  lemma {:induction false} PersistLoss(p: Property, store: Option<Store>, samples: seq<StoredSample>,
                                       insertOk: seq<bool>)
    ensures var step := PersistedAll(store, samples, insertOk);
            && GoneBy(Lost, p, step.events)
               == Unsaved(p, samples, store.Some? && store.value.isOpen, insertOk)
            && step.store.Some? == store.Some? && (store.Some? ==> step.store.value.isOpen == store.value.isOpen)
  {
    if samples != [] {
      var n := |samples| - 1;
      var before := PersistedAll(store, samples[..n], insertOk);
      PersistLoss(p, store, samples[..n], insertOk);
      PersistOneLoss(p, before.store, samples[n], Succeeds(insertOk, n));
      FateAppend(Lost, p, before.events, PersistOne(before.store, samples[n], Succeeds(insertOk, n)).events);
    }
  }

  lemma UploadLoss(p: Property, target: Target, store: Option<Store>, samples: seq<StoredSample>,
                   outcome: PostOutcome, insertOk: seq<bool>, at: int, failedAt: int)
    requires samples != []
    ensures GoneBy(Lost, p, UploadAttempt(target, store, samples, outcome, insertOk, at, failedAt).step.events)
         == if InterpretResponse(outcome.response).TransientFailure?
            then Unsaved(p, samples, store.Some? && store.value.isOpen, insertOk) else 0
  {
    var posted := Posted(FlushPost, samples, RequestOf(target, samples), outcome, at, failedAt);
    OneEventFate(Lost, p, posted);
    if InterpretResponse(outcome.response).TransientFailure? {
      PersistLoss(p, store, samples, insertOk);
      FateAppend(Lost, p, [posted], PersistedAll(store, samples, insertOk).events);
    }
  }

  /** A flush loses something only by failing transiently, and then exactly the samples it cannot insert. */
  lemma FlushLoss(p: Property, e: Edge, i: FlushInput)
    requires Sound(e)
    ensures GoneBy(Lost, p, AfterFlush(e, i).trace)
         == GoneBy(Lost, p, e.trace)
            + if Flushes(e, i) && InterpretResponse(i.outcome.response).TransientFailure?
              then Unsaved(p, FlushBatch(e), e.storeOpen, i.insertOk) else 0
  {
    if Flushes(e, i) {
      assert FlushBatch(e) != [];
      UploadLoss(p, e.target.value, AttachedStore(e), FlushBatch(e), i.outcome, i.insertOk, i.at, i.failedAt);
      FateAppend(Lost, p, e.trace, FlushAttempt(e, i).step.events);
      assert AfterFlush(e, i).trace == e.trace + FlushAttempt(e, i).step.events;
    }
  }

  // ----- What a whole run loses -----

  lemma {:induction false} NoSuchFate(fate: Fate, p: Property, events: seq<Event>)
    requires forall j | 0 <= j < |events| :: FateOf(events[j]) != Some(fate)
    ensures GoneBy(fate, p, events) == 0
  {
    if events != [] {
      NoSuchFate(fate, p, events[..|events| - 1]);
    }
  }

  lemma PollLosesNothing(p: Property, e: Edge, id: string, priority: Priority, sample: Sample)
    ensures GoneBy(Lost, p, PolledSample(e, id, priority, sample).trace) == GoneBy(Lost, p, e.trace)
  {
    hide FromSample, Enqueued;
    var stored := FromSample(sample, priority);
    var events := [Polled(id, stored)] + OverflowEvents(e.ring, stored);
    NoSuchFate(Lost, p, events);
    FateAppend(Lost, p, e.trace, events);
  }

  lemma RetryEventsLoseNothing(events: seq<Event>)
    requires forall j | 0 <= j < |events| ::
               events[j].EmptyRetry? || events[j].Deleted? || (events[j].Posted? && events[j].kind.RetryPost?)
    ensures forall j | 0 <= j < |events| :: FateOf(events[j]) != Some(Lost)
  {
  }

  lemma RetryLosesNothing(p: Property, e: Edge, i: RetryInput)
    requires Sound(e)
    ensures GoneBy(Lost, p, AfterRetry(e, i).trace) == GoneBy(Lost, p, e.trace)
  {
    hide RetryAttempt, InterpretResponse, BackoffDelay, RequestOf, GoneBy, SampleOf, FateOf;
    if Retries(e, i) {
      RetryIsAttempt(e, i);
      RetryEventsLoseNothing(RetryOf(e, i).step.events);
      NoSuchFate(Lost, p, RetryOf(e, i).step.events);
      FateAppend(Lost, p, e.trace, RetryOf(e, i).step.events);
    }
  }

  /** What a tick loses: the samples that a transiently failing flush cannot insert. */
  function TickLoss(p: Property, e: Edge, input: TickInput): nat {
    var polled := AfterPolls(e, input);
    if e.bindings != map[] && Flushes(polled, input.flush)
       && InterpretResponse(input.flush.outcome.response).TransientFailure? then
      Unsaved(p, FlushBatch(polled), polled.storeOpen, input.flush.insertOk)
    else 0
  }

  lemma TickLoses(p: Property, e: Edge, input: TickInput)
    requires Sound(e)
    ensures GoneBy(Lost, p, Tick(e, input).trace) == GoneBy(Lost, p, e.trace) + TickLoss(p, e, input)
  {
    hide AfterPolls, AfterFlush, AfterRetry, PolledSample, Sound, GoneBy, Flushes, Unsaved;
    forall f: Edge, id, priority, sample | GoneBy(Lost, p, f.trace) == GoneBy(Lost, p, e.trace)
      ensures GoneBy(Lost, p, PolledSample(f, id, priority, sample).trace) == GoneBy(Lost, p, e.trace)
    {
      PollLosesNothing(p, f, id, priority, sample);
    }
    PollPhaseKeeps((f: Edge) => GoneBy(Lost, p, f.trace) == GoneBy(Lost, p, e.trace), e, input);
    TickKeepsSound(e, input);
    FlushLoss(p, AfterPolls(e, input), input.flush);
    RetryLosesNothing(p, AfterFlush(AfterPolls(e, input), input.flush), input.retry);
  }

  function RunLoss(p: Property, e: Edge, steps: seq<Step>): nat
    requires ValidSteps(steps)
  {
    if steps == [] then 0
    else
      var n := |steps| - 1;
      RunLoss(p, e, steps[..n]) + if steps[n].Ticked? then TickLoss(p, Run(e, steps[..n]), steps[n].input) else 0
  }

  lemma {:induction false} RunLoses(p: Property, e: Edge, steps: seq<Step>)
    requires Sound(e) && ValidSteps(steps) && KeyedFiles(steps)
    ensures GoneBy(Lost, p, Run(e, steps).trace) == GoneBy(Lost, p, e.trace) + RunLoss(p, e, steps)
  {
    hide Sound, Tick, Reconfigure, TickLoss, GoneBy;
    if steps != [] {
      var n := |steps| - 1;
      RunLoses(p, e, steps[..n]);
      RunKeepsSound(e, steps[..n]);
      var before := Run(e, steps[..n]);
      match steps[n]
      case Ticked(input) => TickLoses(p, before, input);
      case Reloaded(config, found) =>
        ReconfigureShape(before, config, found);
        OneEventFate(Lost, p, Reconfigured(before.ring.items));
        FateAppend(Lost, p, before.trace, [Reconfigured(before.ring.items)]);
    }
  }

  function All(): Property {
    sample => true
  }

  /** A flush of the tick that fails transiently finds an open store, and every insert of its batch succeeds. */
  predicate Saves(e: Edge, input: TickInput) {
    var polled := AfterPolls(e, input);
    e.bindings != map[] && Flushes(polled, input.flush)
    && InterpretResponse(input.flush.outcome.response).TransientFailure? ==>
      polled.storeOpen && forall k | 0 <= k < |FlushBatch(polled)| :: Succeeds(input.flush.insertOk, k)
  }

  /** Every tick of the run does. */
  predicate AlwaysSaves(e: Edge, steps: seq<Step>)
    requires ValidSteps(steps)
  {
    steps == []
    || (var n := |steps| - 1;
        AlwaysSaves(e, steps[..n]) && (steps[n].Ticked? ==> Saves(Run(e, steps[..n]), steps[n].input)))
  }

  lemma {:induction false} UnsavedNoneIff(samples: seq<StoredSample>, open: bool, insertOk: seq<bool>)
    ensures Unsaved(All(), samples, open, insertOk) == 0
            <==> samples == [] || (open && forall k | 0 <= k < |samples| :: Succeeds(insertOk, k))
  {
    if samples != [] {
      UnsavedNoneIff(samples[..|samples| - 1], open, insertOk);
    }
  }

  lemma {:induction false} RunLossNoneIff(e: Edge, steps: seq<Step>)
    requires ValidSteps(steps)
    ensures RunLoss(All(), e, steps) == 0 <==> AlwaysSaves(e, steps)
  {
    hide Apply, AfterPolls, All;
    if steps != [] {
      var n := |steps| - 1;
      RunLossNoneIff(e, steps[..n]);
      if steps[n].Ticked? {
        var polled := AfterPolls(Run(e, steps[..n]), steps[n].input);
        UnsavedNoneIff(FlushBatch(polled), polled.storeOpen, steps[n].input.flush.insertOk);
      }
    }
  }

  /**
   * Loss over every run from construction: what is lost with a property is exactly what transiently
   * failing flushes could not insert, so nothing at all is lost iff each of them found an open store
   * and every insert succeeded.
   */
  lemma NothingIsLostIff(p: Property, disk: Table, steps: seq<Step>)
    requires WellKeyed(disk) && ValidSteps(steps) && KeyedFiles(steps)
    ensures var trace := Run(Constructed(disk), steps).trace;
            && GoneBy(Lost, p, trace) == RunLoss(p, Constructed(disk), steps)
            && (GoneBy(Lost, All(), trace) == 0 <==> AlwaysSaves(Constructed(disk), steps))
  {
    hide Run, All;
    RunLoses(p, Constructed(disk), steps);
    RunLoses(All(), Constructed(disk), steps);
    RunLossNoneIff(Constructed(disk), steps);
  }

  // ----- What a refusal takes off the edge -----

  /** What the ring and the table hold. */
  function Held(p: Property, e: Edge): nat {
    Count(p, e.ring.items) + CountRows(p, e.store.table.rows)
  }

  /** A flush answered 400 forgets its batch: it leaves the ring and is not written to the store. */
  lemma RefusedFlush(e: Edge, i: FlushInput)
    requires Sound(e) && Flushes(e, i) && InterpretResponse(i.outcome.response).Rejected?
    ensures var batch := FlushBatch(e);
            && batch != [] && (e.maxBatchSize > 0 ==> batch == e.ring.items)
            && AfterFlush(e, i) ==
                 e.(ring := e.ring.(items := e.ring.items[|batch|..]), policy := Flushed(e.policy, i.at),
                    trace := e.trace + [Posted(FlushPost, batch, RequestOf(e.target.value, batch), i.outcome, i.at,
                                               i.failedAt)])
  {
    hide Restarted, BackoffDelay, RequestOf, ShouldFlush;
    FlushNeedsSamples(e, i);
    if e.maxBatchSize > 0 {
      assert e.ring.items[..|e.ring.items|] == e.ring.items;
    }
  }

  lemma FlushNeedsSamples(e: Edge, i: FlushInput)
    requires Flushes(e, i)
    ensures |e.ring.items| > 0
  {
  }

  /** A retry answered 400 keeps its rows and counts as one more failure. */
  lemma RefusedRetry(e: Edge, i: RetryInput)
    requires Sound(e) && Retries(e, i) && i.stepped > 0 && InterpretResponse(i.outcome.response).Rejected?
    ensures var batch := SamplesOf(RetryRows(e, i));
            && batch != []
            && AfterRetry(e, i) ==
                 e.(retryAttempt := e.retryAttempt + 1, nextRetryAt := i.failedAt + BackoffDelay(e.retryAttempt + 1),
                    trace := e.trace + [Posted(RetryPost, batch, RequestOf(e.target.value, batch), i.outcome, i.at,
                                               i.failedAt)])
  {
    hide SampleOf, BackoffDelay, RequestOf;
  }

  /** A POST answered 400 takes its batch off the edge exactly when it is a flush. */
  lemma RefusalDropsIffFlush(e: Edge, kind: PostKind, flush: FlushInput, retry: RetryInput)
    requires Sound(e)
    requires kind.FlushPost? ==> Flushes(e, flush) && InterpretResponse(flush.outcome.response).Rejected?
    requires kind.RetryPost? ==>
               Retries(e, retry) && retry.stepped > 0 && InterpretResponse(retry.outcome.response).Rejected?
    ensures var after := if kind.FlushPost? then AfterFlush(e, flush) else AfterRetry(e, retry);
            Held(All(), after) < Held(All(), e) <==> kind.FlushPost?
  {
    hide AfterFlush, AfterRetry, Flushes, Retries, Sound, CountRows, RequestOf;
    match kind
    case FlushPost =>
      RefusedFlush(e, flush);
      DrainBalance(All(), e);
    case RetryPost =>
      RefusedRetry(e, retry);
  }
}
