/** The order of the offline queue over whole runs in which deletions succeed. */
module RetryQueue {
  import opened Options
  import opened Samples
  import opened UploadPolicies
  import opened RingBuffers
  import opened LocalStores
  import opened Protocol
  import opened Traces
  import opened HttpUploaders
  import opened Pipelines
  import opened EdgeRuns
  import opened TickGuarantees
  import opened Conservation

  /** The rows that a trace deleted, in order. */
  function DeletedRows(trace: seq<Event>): seq<PendingRow> {
    if trace == [] then []
    else
      var last := trace[|trace| - 1];
      DeletedRows(trace[..|trace| - 1]) + if last.Deleted? then [last.row] else []
  }

  lemma {:induction false} DeletedRowsAppend(a: seq<Event>, b: seq<Event>)
    ensures DeletedRows(a + b) == DeletedRows(a) + DeletedRows(b)
  {
    if b == [] {
      assert a + b == a;
    } else {
      assert (a + b)[..|a + b| - 1] == a + b[..|b| - 1];
      DeletedRowsAppend(a, b[..|b| - 1]);
    }
  }

  function AsPending(rows: seq<Row>): (pending: seq<PendingRow>)
    ensures |pending| == |rows|
  {
    seq(|rows|, k requires 0 <= k < |rows| => PendingRow(rows[k].id, SampleOf(rows[k])))
  }

  /** Every row ever in the table, in insertion order. */
  function EverInserted(base: seq<Row>, trace: seq<Event>): seq<Row> {
    base + InsertedRows(trace)
  }

  /**
   * The pending rows are the insertion history without a prefix, that prefix is in order what was
   * deleted, and keys increase along the whole history.
   */
  ghost predicate FifoOf(history: seq<Row>, deleted: seq<PendingRow>, table: Table) {
    && |deleted| <= |history|
    && table.rows == history[|deleted|..]
    && deleted == AsPending(history[..|deleted|])
    && WellKeyed(Table(history, table.nextId))
  }

  ghost predicate Fifo(base: seq<Row>, trace: seq<Event>, table: Table) {
    FifoOf(EverInserted(base, trace), DeletedRows(trace), table)
  }

  predicate MovesNoRow(event: Event) {
    !event.Persisted? && !event.Deleted?
  }

  lemma {:induction false} NoRowMoved(events: seq<Event>)
    requires forall j | 0 <= j < |events| :: MovesNoRow(events[j])
    ensures InsertedRows(events) == [] && DeletedRows(events) == []
  {
    if events != [] {
      assert MovesNoRow(events[|events| - 1]);
      NoRowMoved(events[..|events| - 1]);
    }
  }

  lemma {:induction false} NoRowDeleted(events: seq<Event>)
    requires forall j | 0 <= j < |events| :: IsPersistence(events[j])
    ensures DeletedRows(events) == []
  {
    if events != [] {
      assert IsPersistence(events[|events| - 1]);
      NoRowDeleted(events[..|events| - 1]);
    }
  }

  lemma QuietKeepsFifo(base: seq<Row>, trace: seq<Event>, events: seq<Event>, table: Table)
    requires Fifo(base, trace, table) && InsertedRows(events) == [] && DeletedRows(events) == []
    ensures Fifo(base, trace + events, table)
  {
    hide FifoOf;
    InsertedRowsAppend(trace, events);
    DeletedRowsAppend(trace, events);
    assert EverInserted(base, trace + events) == EverInserted(base, trace);
    assert DeletedRows(trace) + [] == DeletedRows(trace);
  }

  // ----- Insertions -----

  /** New rows carry increasing keys from the old next key up. */
  ghost predicate NewKeys(from: int, rows: seq<Row>, to: int) {
    && from <= to
    && WellKeyed(Table(rows, to))
    && forall k | 0 <= k < |rows| :: from <= rows[k].id
  }

  function NextId(store: Option<Store>): int {
    if store.Some? then store.value.table.nextId else 0
  }

  lemma NewKeysAppend(from: int, first: seq<Row>, middle: int, second: seq<Row>, to: int)
    requires NewKeys(from, first, middle) && NewKeys(middle, second, to)
    ensures NewKeys(from, first + second, to)
  {
  }

  lemma PersistOneKeys(store: Option<Store>, sample: StoredSample, sqlOk: bool)
    ensures var step := PersistOne(store, sample, sqlOk);
            step.store.Some? == store.Some? && NewKeys(NextId(store), InsertedRows(step.events), NextId(step.store))
  {
    assert PersistOne(store, sample, sqlOk).events[..0] == [];
  }

  lemma {:induction false} PersistedAllKeys(store: Option<Store>, samples: seq<StoredSample>, insertOk: seq<bool>)
    ensures var step := PersistedAll(store, samples, insertOk);
            step.store.Some? == store.Some? && NewKeys(NextId(store), InsertedRows(step.events), NextId(step.store))
  {
    if samples != [] {
      hide PersistOne, NewKeys;
      var n := |samples| - 1;
      var before := PersistedAll(store, samples[..n], insertOk);
      var last := PersistOne(before.store, samples[n], Succeeds(insertOk, n));
      PersistedAllKeys(store, samples[..n], insertOk);
      PersistOneKeys(before.store, samples[n], Succeeds(insertOk, n));
      InsertedRowsAppend(before.events, last.events);
      NewKeysAppend(NextId(store), InsertedRows(before.events), NextId(before.store), InsertedRows(last.events),
                    NextId(last.store));
    }
  }

  lemma FifoInsert(history: seq<Row>, deleted: seq<PendingRow>, table: Table, inserted: seq<Row>, nextId: int)
    requires FifoOf(history, deleted, table) && NewKeys(table.nextId, inserted, nextId)
    ensures FifoOf(history + inserted, deleted, Table(table.rows + inserted, nextId))
  {
    hide SampleOf;
    var d := |deleted|;
    assert (history + inserted)[d..] == history[d..] + inserted;
    assert (history + inserted)[..d] == history[..d];
  }

  lemma InsertKeepsFifo(base: seq<Row>, trace: seq<Event>, events: seq<Event>, table: Table, after: Table)
    requires Fifo(base, trace, table) && DeletedRows(events) == []
    requires after.rows == table.rows + InsertedRows(events)
    requires NewKeys(table.nextId, InsertedRows(events), after.nextId)
    ensures Fifo(base, trace + events, after)
  {
    hide FifoOf, NewKeys, InsertedRows, DeletedRows;
    InsertedRowsAppend(trace, events);
    DeletedRowsAppend(trace, events);
    FifoInsert(EverInserted(base, trace), DeletedRows(trace), table, InsertedRows(events), after.nextId);
    assert EverInserted(base, trace + events) == EverInserted(base, trace) + InsertedRows(events);
    assert DeletedRows(trace) + [] == DeletedRows(trace);
  }

  lemma PersistKeepsFifo(base: seq<Row>, trace: seq<Event>, store: Option<Store>, samples: seq<StoredSample>,
                         insertOk: seq<bool>, table: Table)
    requires Fifo(base, trace, table) && (store.Some? ==> store.value.table == table)
    ensures var step := PersistedAll(store, samples, insertOk);
            && step.store.Some? == store.Some?
            && Fifo(base, trace + step.events, if step.store.Some? then step.store.value.table else table)
  {
    var step := PersistedAll(store, samples, insertOk);
    PersistedAllGrows(store, samples, insertOk);
    PersistedAllKeys(store, samples, insertOk);
    NoRowDeleted(step.events);
    if store.Some? {
      InsertKeepsFifo(base, trace, step.events, table, step.store.value.table);
    } else {
      QuietKeepsFifo(base, trace, step.events, table);
    }
  }

  lemma UploadKeepsFifo(base: seq<Row>, trace: seq<Event>, target: Target, store: Option<Store>,
                        samples: seq<StoredSample>, outcome: PostOutcome, insertOk: seq<bool>, at: int, failedAt: int,
                        table: Table)
    requires samples != [] && Fifo(base, trace, table) && (store.Some? ==> store.value.table == table)
    ensures var step := UploadAttempt(target, store, samples, outcome, insertOk, at, failedAt).step;
            && step.store.Some? == store.Some?
            && Fifo(base, trace + step.events, if step.store.Some? then step.store.value.table else table)
  {
    hide Fifo, PersistedAll, RequestOf, InsertedRows, DeletedRows;
    var posted := Posted(FlushPost, samples, RequestOf(target, samples), outcome, at, failedAt);
    NoRowMoved([posted]);
    QuietKeepsFifo(base, trace, [posted], table);
    if InterpretResponse(outcome.response).TransientFailure? {
      PersistKeepsFifo(base, trace + [posted], store, samples, insertOk, table);
      var events := PersistedAll(store, samples, insertOk).events;
      assert trace + [posted] + events == trace + ([posted] + events);
    }
  }

  // ----- Deletions -----

  lemma DeletionAppended(events: seq<Event>, row: PendingRow)
    ensures DeletedRows(events + [Deleted(row)]) == DeletedRows(events) + [row]
    ensures InsertedRows(events + [Deleted(row)]) == InsertedRows(events)
  {
    assert (events + [Deleted(row)])[..|events|] == events;
    assert InsertedRows(events) + [] == InsertedRows(events);
  }

  lemma NextDeletion(store: Store, rows: seq<PendingRow>, deleteOk: seq<bool>)
    requires store.isOpen && AllTrue(deleteOk) && rows != []
    ensures var n := |rows| - 1;
            AcknowledgedAll(store, rows, deleteOk).events
            == AcknowledgedAll(store, rows[..n], deleteOk).events + [Deleted(rows[n])]
  {
  }

  lemma {:induction false} AcknowledgedAllDeletes(store: Store, rows: seq<PendingRow>, deleteOk: seq<bool>)
    requires store.isOpen && AllTrue(deleteOk)
    ensures DeletedRows(AcknowledgedAll(store, rows, deleteOk).events) == rows
    ensures InsertedRows(AcknowledgedAll(store, rows, deleteOk).events) == []
  {
    if rows != [] {
      hide DeletedRows, InsertedRows, AcknowledgedAll, AllTrue;
      var init, last := rows[..|rows| - 1], rows[|rows| - 1];
      AcknowledgedAllDeletes(store, init, deleteOk);
      DeletionAppended(AcknowledgedAll(store, init, deleteOk).events, last);
      NextDeletion(store, rows, deleteOk);
      assert rows == init + [last];
    }
  }

  lemma FifoDelete(history: seq<Row>, deleted: seq<PendingRow>, table: Table, n: nat)
    requires FifoOf(history, deleted, table) && n <= |table.rows|
    ensures FifoOf(history, deleted + AsPending(table.rows[..n]), table.(rows := table.rows[n..]))
  {
    hide SampleOf;
    var d := |deleted|;
    assert history[d..][n..] == history[d + n..];
    assert history[..d + n] == history[..d] + table.rows[..n];
    assert AsPending(history[..d + n]) == AsPending(history[..d]) + AsPending(table.rows[..n]);
  }

  lemma DeleteKeepsFifo(base: seq<Row>, trace: seq<Event>, events: seq<Event>, table: Table, n: nat)
    requires Fifo(base, trace, table) && n <= |table.rows|
    requires InsertedRows(events) == [] && DeletedRows(events) == AsPending(table.rows[..n])
    ensures Fifo(base, trace + events, table.(rows := table.rows[n..]))
  {
    hide FifoOf, AsPending, InsertedRows, DeletedRows;
    InsertedRowsAppend(trace, events);
    DeletedRowsAppend(trace, events);
    FifoDelete(EverInserted(base, trace), DeletedRows(trace), table, n);
    assert EverInserted(base, trace + events) == EverInserted(base, trace);
  }

  /** If the POST of the retry is accepted, every deletion that follows succeeds. */
  predicate DeletionsSucceed(i: RetryInput) {
    InterpretResponse(i.outcome.response).Accepted? ==> AllTrue(i.deleteOk)
  }

  /**
   * A retry that is not accepted, a 400 included, leaves the table as it was; one that is accepted and
   * whose deletions succeed keeps the queue first in, first out.
   */
  lemma ResendKeepsFifo(base: seq<Row>, e: Edge, i: RetryInput)
    requires Sound(e) && Retries(e, i)
    ensures RetryOf(e, i).step.store.Some?
    ensures !RetryOf(e, i).result.Accepted? ==> RetryOf(e, i).step.store.value == e.store
    ensures var step := RetryOf(e, i).step;
            Fifo(base, e.trace, e.store.table) && DeletionsSucceed(i) ==>
              Fifo(base, e.trace + step.events, step.store.value.table)
  {
    hide SampleOf, WireAll, Fifo, InsertedRows, DeletedRows, AcknowledgedAll;
    var rows, step := RetryRows(e, i), RetryOf(e, i).step;
    NoRowMoved([step.events[0]]);
    if Fifo(base, e.trace, e.store.table) {
      if rows == [] || !InterpretResponse(i.outcome.response).Accepted? {
        QuietKeepsFifo(base, e.trace, step.events, e.store.table);
      } else if AllTrue(i.deleteOk) {
        AcknowledgePrefix(e.store, rows, i.deleteOk);
        AcknowledgedAllDeletes(e.store, rows, i.deleteOk);
        var deletions := AcknowledgedAll(e.store, rows, i.deleteOk).events;
        InsertedRowsAppend([step.events[0]], deletions);
        DeletedRowsAppend([step.events[0]], deletions);
        assert rows == AsPending(e.store.table.rows[..|rows|]);
        assert step.store == Some(e.store.(table := e.store.table.(rows := e.store.table.rows[|rows|..])));
        DeleteKeepsFifo(base, e.trace, step.events, e.store.table, |rows|);
      }
    }
  }

  // ----- Runs -----

  ghost predicate Queued(base: seq<Row>, e: Edge) {
    Fifo(base, e.trace, e.store.table)
  }

  lemma PollMovesNoRow(id: string, ring: Ring, stored: StoredSample)
    ensures var events := [Polled(id, stored)] + OverflowEvents(ring, stored);
            InsertedRows(events) == [] && DeletedRows(events) == []
  {
    NoRowMoved([Polled(id, stored)] + OverflowEvents(ring, stored));
  }

  lemma PollQueue(base: seq<Row>, e: Edge, id: string, priority: Priority, sample: Sample)
    requires Queued(base, e)
    ensures Queued(base, PolledSample(e, id, priority, sample))
  {
    hide FromSample, Enqueued, Sampled, Fifo, OverflowEvents;
    var stored := FromSample(sample, priority);
    PollMovesNoRow(id, e.ring, stored);
    QuietKeepsFifo(base, e.trace, [Polled(id, stored)] + OverflowEvents(e.ring, stored), e.store.table);
  }

  lemma TickQueue(base: seq<Row>, e: Edge, input: TickInput)
    requires Sound(e) && Queued(base, e) && DeletionsSucceed(input.retry)
    ensures Queued(base, Tick(e, input))
  {
    forall f, id, priority, sample | Queued(base, f) ensures Queued(base, PolledSample(f, id, priority, sample)) {
      PollQueue(base, f, id, priority, sample);
    }
    PollPhaseKeeps(f => Queued(base, f), e, input);
    TickKeepsSound(e, input);
    FlushQueue(base, AfterPolls(e, input), input.flush);
    RetryQueues(base, AfterFlush(AfterPolls(e, input), input.flush), input.retry);
  }

  lemma FlushQueue(base: seq<Row>, e: Edge, i: FlushInput)
    requires Sound(e) && Queued(base, e)
    ensures Queued(base, AfterFlush(e, i))
  {
    if Flushes(e, i) {
      assert FlushBatch(e) != [];
      UploadKeepsFifo(base, e.trace, e.target.value, AttachedStore(e), FlushBatch(e), i.outcome, i.insertOk, i.at,
                      i.failedAt, e.store.table);
    }
  }

  lemma RetryQueues(base: seq<Row>, e: Edge, i: RetryInput)
    requires Sound(e) && Queued(base, e) && DeletionsSucceed(i)
    ensures Queued(base, AfterRetry(e, i))
  {
    if Retries(e, i) {
      ResendKeepsFifo(base, e, i);
    }
  }

  predicate AllDeletionsSucceed(steps: seq<Step>) {
    forall k | 0 <= k < |steps| && steps[k].Ticked? :: DeletionsSucceed(steps[k].input.retry)
  }

  /** Every configuration that opens the store finds the table that the run left in the file. */
  predicate SameFile(e: Edge, steps: seq<Step>)
    requires ValidSteps(steps)
  {
    steps == []
    || (var n := |steps| - 1;
        && SameFile(e, steps[..n])
        && (Opens(steps[n]) ==> steps[n].found.file == Run(e, steps[..n]).store.table))
  }

  lemma ReconfigureQueue(base: seq<Row>, e: Edge, config: Config, found: ConfigureInput)
    requires Queued(base, e) && ValidConfig(config, found)
    requires Opens(Reloaded(config, found)) ==> found.file == e.store.table
    ensures Queued(base, Reconfigure(e, config, found))
  {
    var events := [Reconfigured(e.ring.items)];
    NoRowMoved(events);
    QuietKeepsFifo(base, e.trace, events, e.store.table);
    ReconfigureShape(e, config, found);
    var after := Reconfigure(e, config, found);
    assert after.trace == e.trace + events && after.store.table == e.store.table;
  }

  lemma {:induction false} RunQueue(base: seq<Row>, e: Edge, steps: seq<Step>)
    requires Sound(e) && Queued(base, e) && ValidSteps(steps) && KeyedFiles(steps) && SameFile(e, steps)
    requires AllDeletionsSucceed(steps)
    ensures Queued(base, Run(e, steps))
  {
    if steps != [] {
      var n := |steps| - 1;
      RunQueue(base, e, steps[..n]);
      RunKeepsSound(e, steps[..n]);
      match steps[n]
      case Ticked(input) => TickQueue(base, Run(e, steps[..n]), input);
      case Reloaded(config, found) => ReconfigureQueue(base, Run(e, steps[..n]), config, found);
    }
  }

  /**
   * First in, first out, over every run from construction whose deletions succeed: the pending rows
   * are the insertion history (what the file held, then every insert) without a prefix, and that
   * prefix is, row by row, what was deleted.
   */
  lemma QueueIsFifo(disk: Table, steps: seq<Step>)
    requires WellKeyed(disk) && ValidSteps(steps) && KeyedFiles(steps) && SameFile(Constructed(disk), steps)
    requires AllDeletionsSucceed(steps)
    ensures var e := Run(Constructed(disk), steps);
            Fifo(disk.rows, e.trace, e.store.table)
  {
    assert disk.rows + [] == disk.rows && disk.rows[0..] == disk.rows;
    RunQueue(disk.rows, Constructed(disk), steps);
  }
}
