/** From any reachable backlog, enough healthy ticks bring every pending row to the Worker's log. */
module EventualDelivery {
  import opened Samples
  import opened LocalStores
  import opened Protocol
  import opened Traces
  import opened HttpUploaders
  import opened Workers
  import opened Pipelines
  import opened EdgeRuns
  import opened TickGuarantees
  import opened Systems
  import opened Deliveries
  import opened OneReadings

  /** An accepted POST of the trace for the node has the sample. */
  ghost predicate Sent(trace: seq<Event>, node: string, sample: StoredSample) {
    exists j: nat :: j < |trace| && IsAccepted(trace[j]) && NodeOf(trace[j].request) == node && sample in trace[j].batch
  }

  lemma SentLater(small: seq<Event>, large: seq<Event>, node: string, sample: StoredSample)
    requires small <= large && Sent(small, node, sample)
    ensures Sent(large, node, sample)
  {
    var j: nat :| j < |small| && IsAccepted(small[j]) && NodeOf(small[j].request) == node && sample in small[j].batch;
    assert large[j] == small[j];
  }

  /** The sample of one of the oldest rows is in the batch read back. */
  lemma OldestAreRead(store: Store, maxCount: nat, stepped: nat, k: nat)
    requires store.isOpen && stepped >= maxCount && k < |store.table.rows| && k < maxCount
    ensures SampleOf(store.table.rows[k]) in SamplesOf(Peeked(store, maxCount, stepped))
  {
    hide SampleOf;
    assert SamplesOf(Peeked(store, maxCount, stepped))[k] == SampleOf(store.table.rows[k]);
  }

  /** A healthy retry sends each of the rows that it removes. */
  lemma HealthyRetrySends(e: Pipelines.Edge, input: TickInput, k: nat)
    requires Sound(e) && e.target.Some? && e.storeOpen && Healthy(e, input) && ReadyToRetry(e, input)
    requires k < |e.store.table.rows| && k < MaxBatch(e.maxBatchSize)
    ensures Sent(AfterRetry(e, input.retry).trace, e.target.value.nodeId, SampleOf(e.store.table.rows[k]))
  {
    hide SampleOf, RetryAttempt, BackoffDelay, WireAll, Peeked;
    var i := input.retry;
    assert Retries(e, i);
    OldestAreRead(e.store, MaxBatch(e.maxBatchSize), i.stepped, k);
    RetryIsAttempt(e, i);
    var trace, events := AfterRetry(e, i).trace, RetryOf(e, i).step.events;
    assert trace == e.trace + events && trace[|e.trace|] == events[0];
  }

  lemma HealthyTickSends(e: Pipelines.Edge, input: TickInput, k: nat)
    requires Sound(e) && e.bindings != map[] && e.target.Some? && e.storeOpen
    requires Healthy(e, input) && ReadyToRetry(e, input)
    requires k < |e.store.table.rows| && k < MaxBatch(e.maxBatchSize)
    ensures Sent(Tick(e, input).trace, e.target.value.nodeId, SampleOf(e.store.table.rows[k]))
  {
    hide AfterPolls, AfterFlush, AfterRetry, Sound, Sent;
    AfterPollsOnly(e, input);
    TickKeepsSound(e, input);
    HealthyFlush(AfterPolls(e, input), input.flush);
    HealthyRetrySends(AfterFlush(AfterPolls(e, input), input.flush), input, k);
  }

  /** After n healthy ticks each of the oldest rows that n batches hold has been sent. */
  lemma {:induction false} HealthyTicksSend(e: Pipelines.Edge, inputs: seq<TickInput>, k: nat)
    requires Sound(e) && e.bindings != map[] && e.target.Some? && e.storeOpen
    requires forall n | 0 <= n < |inputs| :: Healthy(e, inputs[n])
    requires inputs != [] ==> ReadyToRetry(e, inputs[0])
    requires k < Removed(|e.store.table.rows|, |inputs|, MaxBatch(e.maxBatchSize))
    ensures Sent(TickAll(e, inputs).trace, e.target.value.nodeId, SampleOf(e.store.table.rows[k]))
  {
    hide Sound, Tick, Sent, SampleOf;
    var n := |inputs| - 1;
    var before, rows := TickAll(e, inputs[..n]), e.store.table.rows;
    var gone := Removed(|rows|, n, MaxBatch(e.maxBatchSize));
    assert inputs[..n] != [] ==> inputs[..n][0] == inputs[0];
    BacklogDrains(e, inputs[..n]);
    TickAllStep(e, inputs);
    if k < gone {
      HealthyTicksSend(e, inputs[..n], k);
      StepExtends(before, Ticked(inputs[n]));
      SentLater(before.trace, TickAll(e, inputs).trace, e.target.value.nodeId, SampleOf(rows[k]));
    } else {
      TickAllStep(e, inputs[..n]);
      StaysReady(e, before, n, inputs[0], inputs[n]);
      HealthyTickSends(before, inputs[n], k - gone);
      assert before.store.table.rows[k - gone] == rows[k];
    }
  }

  lemma SentIsRecordedIff(s: System, node: string, sample: StoredSample)
    requires Consistent(false, s) && TableIsFirst(s.cloud) && AllHonest(s.edge.trace)
    requires Sent(s.edge.trace, node, sample)
    ensures WellFormed(WireOf(sample)) <==> Recorded(s.cloud, node, sample)
  {
    hide WireOf, Recorded, Sound, Vouched, AllHonest;
    var j: nat :| j < |s.edge.trace| && IsAccepted(s.edge.trace[j]) && NodeOf(s.edge.trace[j].request) == node
                  && sample in s.edge.trace[j].batch;
    AcceptedIff(s, j);
  }

  /**
   * Eventual delivery: in any reachable state of the system with an uploader and an open store, let
   * n healthy ticks follow over an honest network, the first one after the backoff, with anything
   * arriving at the Worker in between. Then each of the oldest pending rows that n batches hold has
   * left the queue and is in the Worker's log exactly when it is well-formed; the queue is empty if
   * n batches hold them all.
   */
  lemma BacklogIsDelivered(disk: Table, actions: seq<Action>, more: seq<Action>, inputs: seq<TickInput>, k: nat)
    requires WellKeyed(disk) && ValidActions(actions) && KeyedActions(actions) && ValidActions(more)
    requires StepsOf(more) == Ticks(inputs)
    requires var e := Play(Start(disk), actions).edge;
             && e.bindings != map[] && e.target.Some? && e.storeOpen
             && (forall n | 0 <= n < |inputs| :: Healthy(e, inputs[n]))
             && (inputs != [] ==> ReadyToRetry(e, inputs[0]))
             && k < |e.store.table.rows| && k < |inputs| * MaxBatch(e.maxBatchSize)
    requires AllHonest(Play(Play(Start(disk), actions), more).edge.trace)
    ensures var before := Play(Start(disk), actions);
            var after := Play(before, more);
            var rows, removed := before.edge.store.table.rows, |inputs| * MaxBatch(before.edge.maxBatchSize);
            && after.edge.store.table.rows == rows[Min(|rows|, removed)..]
            && (WellFormed(WireOf(SampleOf(rows[k])))
                <==> Recorded(after.cloud, before.edge.target.value.nodeId, SampleOf(rows[k])))
  {
    hide Play, WireOf, SampleOf, Recorded, Sent, AllHonest, Healthy, Run, Attested, AcceptedRecorded, Ticks;
    hide WellKeyed, KeyedActions;
    var before, after := Play(Start(disk), actions), Play(Play(Start(disk), actions), more);
    PlayConsistent(false, disk, actions);
    PlayGrows(Start(disk), actions);
    PlayGrows(before, more);
    TicksAreKeyed(more, inputs);
    PlayKeepsConsistent(false, before, more);
    EdgeOfPlay(before, more);
    BacklogDrains(before.edge, inputs);
    HealthyTicksSend(before.edge, inputs, k);
    SentIsRecordedIff(after, before.edge.target.value.nodeId, SampleOf(before.edge.store.table.rows[k]));
  }

  // ----- The drained rows in the table -----

  lemma {:induction false} StepsOfAppend(a: seq<Action>, b: seq<Action>)
    ensures StepsOf(a + b) == StepsOf(a) + StepsOf(b)
  {
    if b == [] {
      assert a + b == a;
    } else {
      assert (a + b)[..|a + b| - 1] == a + b[..|b| - 1];
      StepsOfAppend(a, b[..|b| - 1]);
    }
  }

  lemma {:induction false} PlayAppend(s: System, a: seq<Action>, b: seq<Action>)
    requires ValidActions(a) && ValidActions(b)
    ensures ValidActions(a + b) && Play(s, a + b) == Play(Play(s, a), b)
  {
    hide Act;
    if b == [] {
      assert a + b == a;
    } else {
      assert (a + b)[..|a + b| - 1] == a + b[..|b| - 1];
      PlayAppend(s, a, b[..|b| - 1]);
    }
  }

  lemma KeyedTogether(a: seq<Action>, b: seq<Action>)
    requires KeyedActions(a) && KeyedActions(b)
    ensures KeyedActions(a + b)
  {
    hide WellKeyed, StepsOf;
    StepsOfAppend(a, b);
  }

  /** A sample sent for a node in a run with one reading per channel and second and no other client. */
  lemma SentIsCarriedIff(disk: Table, actions: seq<Action>, node: string, sample: StoredSample)
    requires WellKeyed(disk) && ValidActions(actions) && KeyedActions(actions) && ValidSteps(StepsOf(actions))
    requires var trace := Play(Start(disk), actions).edge.trace;
             && AllHonest(trace) && OneReadingPerSecond(disk, StepsOf(actions), trace)
             && Sent(trace, node, sample) && OnlyClient(node, Start(disk), actions)
    ensures Carried(Play(Start(disk), actions).cloud, node, sample) <==> WellFormed(WireOf(sample))
  {
    hide Play, WireOf, Carried, OneReadingPerSecond, AllHonest, OnlyClient;
    var trace := Play(Start(disk), actions).edge.trace;
    var j: nat :| j < |trace| && IsAccepted(trace[j]) && NodeOf(trace[j].request) == node && sample in trace[j].batch;
    OneReadingIsCarried(disk, actions, j, sample);
  }

  /**
   * Eventual delivery as read: if, besides, nothing enters the edge twice for one channel and second
   * with different contents and nobody else posts for the node, then after the healthy ticks the table
   * carries each drained row, with its own value, unit and quality, exactly when it is well-formed.
   */
  lemma BacklogIsCarried(disk: Table, actions: seq<Action>, more: seq<Action>, inputs: seq<TickInput>, k: nat)
    requires WellKeyed(disk) && ValidActions(actions) && KeyedActions(actions) && ValidActions(more)
    requires StepsOf(more) == Ticks(inputs) && ValidActions(actions + more) && ValidSteps(StepsOf(actions + more))
    requires var e := Play(Start(disk), actions).edge;
             && e.bindings != map[] && e.target.Some? && e.storeOpen
             && (forall n | 0 <= n < |inputs| :: Healthy(e, inputs[n]))
             && (inputs != [] ==> ReadyToRetry(e, inputs[0]))
             && k < |e.store.table.rows| && k < |inputs| * MaxBatch(e.maxBatchSize)
             && OnlyClient(e.target.value.nodeId, Start(disk), actions + more)
    requires var trace := Play(Start(disk), actions + more).edge.trace;
             AllHonest(trace) && OneReadingPerSecond(disk, StepsOf(actions + more), trace)
    ensures var e := Play(Start(disk), actions).edge;
            var sample := SampleOf(e.store.table.rows[k]);
            Carried(Play(Start(disk), actions + more).cloud, e.target.value.nodeId, sample)
            <==> WellFormed(WireOf(sample))
  {
    hide Play, WireOf, SampleOf, Carried, Sent, AllHonest, Healthy, Run, OneReadingPerSecond, OnlyClient, Attested;
    hide WellKeyed, KeyedActions, AcceptedRecorded;
    var before := Play(Start(disk), actions);
    PlayConsistent(false, disk, actions);
    PlayAppend(Start(disk), actions, more);
    TicksAreKeyed(more, inputs);
    KeyedTogether(actions, more);
    EdgeOfPlay(before, more);
    HealthyTicksSend(before.edge, inputs, k);
    SentIsCarriedIff(disk, actions + more, before.edge.target.value.nodeId, SampleOf(before.edge.store.table.rows[k]));
  }

  lemma TicksAreKeyed(more: seq<Action>, inputs: seq<TickInput>)
    requires StepsOf(more) == Ticks(inputs)
    ensures KeyedActions(more)
  {
  }
}
