/**
 * When the Worker's table carries every accepted sample as it was read: one reading per channel and
 * second, and no other client for the node.
 */
module OneReadings {
  import opened Samples
  import opened RingBuffers
  import opened LocalStores
  import opened Protocol
  import opened Traces
  import opened HttpUploaders
  import opened Workers
  import opened Pipelines
  import opened EdgeRuns
  import opened Conservation
  import opened Systems
  import opened Deliveries

  // ----- Nothing is posted that was not read or found -----

  /** How often a trace posts samples with the property, whatever becomes of the POSTs. */
  function Posts(p: Property, trace: seq<Event>): nat {
    if trace == [] then 0
    else
      var last := trace[|trace| - 1];
      Posts(p, trace[..|trace| - 1]) + if last.Posted? then Count(p, last.batch) else 0
  }

  lemma {:induction false} PostsAppend(p: Property, a: seq<Event>, b: seq<Event>)
    ensures Posts(p, a + b) == Posts(p, a) + Posts(p, b)
  {
    if b == [] {
      assert a + b == a;
    } else {
      PostsAppend(p, a, b[..|b| - 1]);
      assert (a + b)[..|a + b| - 1] == a + b[..|b| - 1];
    }
  }

  lemma {:induction false} PostsNothing(p: Property, events: seq<Event>)
    requires forall j | 0 <= j < |events| :: !events[j].Posted?
    ensures Posts(p, events) == 0
  {
    if events != [] {
      PostsNothing(p, events[..|events| - 1]);
    }
  }

  lemma AttemptPosts(p: Property, attempt: Attempt, kind: PostKind, batch: seq<StoredSample>, request: Request,
                     outcome: PostOutcome, at: int, failedAt: int)
    requires IsAttempt(attempt, kind, batch, request, outcome, at, failedAt)
    ensures Posts(p, attempt.step.events) == Count(p, batch)
  {
    var events := attempt.step.events;
    var rest := events[1..];
    forall j | 0 <= j < |rest| ensures !rest[j].Posted? {
      assert rest[j] == events[j + 1];
    }
    PostsNothing(p, rest);
    PostsAppend(p, [events[0]], rest);
    assert events == [events[0]] + rest && [events[0]][..0] == [];
  }

  lemma PollPostsNothing(p: Property, e: Pipelines.Edge, input: TickInput)
    ensures Posts(p, AfterPolls(e, input).trace) == Posts(p, e.trace)
  {
    hide AfterPolls, Posts, FromSample, Enqueued;
    forall f: Pipelines.Edge, id, priority, sample | Posts(p, f.trace) == Posts(p, e.trace)
      ensures Posts(p, PolledSample(f, id, priority, sample).trace) == Posts(p, e.trace)
    {
      var events := [Polled(id, FromSample(sample, priority))] + OverflowEvents(f.ring, FromSample(sample, priority));
      PostsNothing(p, events);
      PostsAppend(p, f.trace, events);
    }
    PollPhaseKeeps((f: Pipelines.Edge) => Posts(p, f.trace) == Posts(p, e.trace), e, input);
  }

  lemma FlushPosts(p: Property, e: Pipelines.Edge, i: FlushInput)
    requires Sound(e) && Count(p, e.ring.items) == 0
    ensures Posts(p, AfterFlush(e, i).trace) == Posts(p, e.trace)
  {
    hide UploadAttempt, Count, Posts, RequestOf, BackoffDelay;
    if Flushes(e, i) {
      var batch, attempt := FlushBatch(e), FlushAttempt(e, i);
      FlushIsAttempt(e, i);
      AttemptPosts(p, attempt, FlushPost, batch, RequestOf(e.target.value, batch), i.outcome, i.at, i.failedAt);
      PostsAppend(p, e.trace, attempt.step.events);
      DrainBalance(p, e);
    }
  }

  /** Rows read back have the property as often as the rows of the table they come from, at most. */
  lemma {:induction false} PeekedCount(p: Property, store: Store, maxCount: nat, stepped: nat)
    ensures Count(p, SamplesOf(Peeked(store, maxCount, stepped))) <= CountRows(p, store.table.rows)
    decreases |store.table.rows|
  {
    hide SampleOf;
    var rows := store.table.rows;
    var peeked := SamplesOf(Peeked(store, maxCount, stepped));
    if rows != [] {
      var n := |rows| - 1;
      var shorter := store.(table := store.table.(rows := rows[..n]));
      PeekedCount(p, shorter, maxCount, stepped);
      if |peeked| == |rows| {
        assert peeked[..n] == SamplesOf(Peeked(shorter, maxCount, stepped));
      } else {
        assert peeked == SamplesOf(Peeked(shorter, maxCount, stepped));
      }
    }
  }

  lemma RetryPosts(p: Property, e: Pipelines.Edge, i: RetryInput)
    requires Sound(e) && CountRows(p, e.store.table.rows) == 0
    ensures Posts(p, AfterRetry(e, i).trace) == Posts(p, e.trace)
  {
    hide RetryAttempt, Count, CountRows, Posts, RequestOf, BackoffDelay, Peeked;
    if Retries(e, i) {
      var batch, attempt := SamplesOf(RetryRows(e, i)), RetryOf(e, i);
      RetryIsAttempt(e, i);
      if batch == [] {
        PostsNothing(p, attempt.step.events);
      } else {
        PeekedCount(p, e.store, MaxBatch(e.maxBatchSize), i.stepped);
        AttemptPosts(p, attempt, RetryPost, batch, RequestOf(e.target.value, batch), i.outcome, i.at, i.failedAt);
      }
      PostsAppend(p, e.trace, attempt.step.events);
    }
  }

  lemma ReadGrows(p: Property, a: seq<Event>, b: seq<Event>)
    requires a <= b
    ensures Read(p, a) <= Read(p, b)
  {
    TraceAppend(p, a, b[|a|..]);
    assert b == a + b[|a|..];
  }

  /** A tick that starts with nothing of the property, in all, and reads none of it posts none of it. */
  lemma TickPosts(p: Property, e: Pipelines.Edge, input: TickInput, base: int)
    requires Sound(e) && StoreBlind(p) && Balanced(p, e, base) && base <= 0
    requires Read(p, Tick(e, input).trace) == 0
    ensures Posts(p, Tick(e, input).trace) == Posts(p, e.trace)
  {
    hide AfterPolls, AfterFlush, AfterRetry, Sound, StoreBlind, Posts, Count, CountRows, Read, Gone;
    if e.bindings != map[] {
      var polled := AfterPolls(e, input);
      var flushed := AfterFlush(polled, input.flush);
      TickStages(p, e, input, base);
      PollPostsNothing(p, e, input);
      FlushPosts(p, polled, input.flush);
      RetryPosts(p, flushed, input.retry);
    }
  }

  /** The phases of a tick, all balanced and each reading at most what the tick reads. */
  lemma TickStages(p: Property, e: Pipelines.Edge, input: TickInput, base: int)
    requires Sound(e) && StoreBlind(p) && Balanced(p, e, base) && e.bindings != map[]
    ensures var polled := AfterPolls(e, input);
            var flushed := AfterFlush(polled, input.flush);
            && Sound(polled) && Balanced(p, polled, base) && Read(p, polled.trace) <= Read(p, Tick(e, input).trace)
            && Sound(flushed) && Balanced(p, flushed, base) && Read(p, flushed.trace) <= Read(p, Tick(e, input).trace)
  {
    hide AfterPolls, AfterFlush, AfterRetry, Sound, StoreBlind, Balanced, Read, PolledSample;
    var polled := AfterPolls(e, input);
    var flushed := AfterFlush(polled, input.flush);
    TickKeepsSound(e, input);
    PollPhaseBalance(p, e, input, base);
    FlushBalance(p, polled, input.flush, base);
    TickExtends(e, input);
    ReadGrows(p, polled.trace, Tick(e, input).trace);
    ReadGrows(p, flushed.trace, Tick(e, input).trace);
  }

  /** How often samples with the property have entered the edge, from files and from drivers. */
  function Entered(p: Property, disk: Table, steps: seq<Step>, trace: seq<Event>): nat {
    CountRows(p, disk.rows) + Found(p, steps) + Read(p, trace)
  }

  /** What has never entered the edge has never been posted. */
  lemma {:induction false} NeverEnteredNeverPosted(p: Property, disk: Table, steps: seq<Step>)
    requires StoreBlind(p) && WellKeyed(disk) && ValidSteps(steps) && KeyedFiles(steps)
    requires Entered(p, disk, steps, Run(Constructed(disk), steps).trace) == 0
    ensures Posts(p, Run(Constructed(disk), steps).trace) == 0
  {
    hide Sound, StoreBlind, Tick, Reconfigure, Posts, Read, CountRows, Balanced;
    if steps != [] {
      var n := |steps| - 1;
      var before := Run(Constructed(disk), steps[..n]);
      RunKeepsSound(Constructed(disk), steps[..n]);
      StepExtends(before, steps[n]);
      ReadGrows(p, before.trace, Apply(before, steps[n]).trace);
      NeverEnteredNeverPosted(p, disk, steps[..n]);
      match steps[n]
      case Ticked(input) =>
        StartsBalanced(p, disk);
        RunBalance(p, Constructed(disk), steps[..n], CountRows(p, disk.rows));
        TickPosts(p, before, input, CountRows(p, disk.rows) + Found(p, steps[..n]) - Left(p, Constructed(disk), steps[..n]));
      case Reloaded(config, found) =>
        ReconfigureShape(before, config, found);
        PostsNothing(p, [Reconfigured(before.ring.items)]);
        PostsAppend(p, before.trace, [Reconfigured(before.ring.items)]);
    } else {
      PostsNothing(p, []);
    }
  }

  // ----- Everything in the log under a node was posted for it -----

  /** Some POST of the trace for the node has a sample of which this is the entry. */
  ghost predicate PostedAs(trace: seq<Event>, node: string, entry: Entry) {
    exists j: nat, sample ::
      && j < |trace| && trace[j].Posted? && NodeOf(trace[j].request) == node && sample in trace[j].batch
      && IsEntryOf(entry, node, sample)
  }

  ghost predicate OwnLog(trace: seq<Event>, node: string, log: seq<Entry>) {
    forall i | 0 <= i < |log| && log[i].key.nodeId == node :: PostedAs(trace, node, log[i])
  }

  lemma StatementIsPosted(trace: seq<Event>, j: nat, node: string, now: int)
    requires j < |trace| && AttestedAt(false, trace, j) && trace[j].Posted?
    ensures OwnLog(trace, node, StatementsOf(trace[j].request, now))
  {
    hide Statements, WireOf;
    var request, batch := trace[j].request, trace[j].batch;
    var entries := StatementsOf(request, now);
    StatementsAreOfNode(request, now);
    forall i | 0 <= i < |entries| && entries[i].key.nodeId == node ensures PostedAs(trace, node, entries[i]) {
      assert entries[i] in entries;
      StatementsCover(node, WireAll(batch), now);
      var k :| 0 <= k < |batch| && WellFormed(WireAll(batch)[k]) && entries[i] == EntryOf(node, WireAll(batch)[k], now);
      EntryOfWire(node, batch[k], now);
      assert batch[k] in batch && IsEntryOf(entries[i], node, batch[k]);
    }
  }

  lemma EntryOfWire(node: string, sample: StoredSample, now: int)
    requires WellFormed(WireOf(sample))
    ensures EntryOf(node, WireOf(sample), now) == EntryFor(node, sample, now)
  {
  }

  lemma {:induction false} ServeAllIsPosted(trace: seq<Event>, j: nat, node: string, cloud: Cloud, deliveries: seq<Delivery>)
    requires j < |trace| && AttestedAt(false, trace, j) && trace[j].Posted? && OwnLog(trace, node, cloud.log)
    ensures OwnLog(trace, node, ServeAll(cloud, trace[j].request, deliveries).log)
  {
    hide PostedAs, StatementsOf, AttestedAt, Handled;
    if deliveries != [] {
      var n := |deliveries| - 1;
      ServeAllIsPosted(trace, j, node, cloud, deliveries[..n]);
      StatementIsPosted(trace, j, node, deliveries[n].receivedAt);
    }
  }

  lemma {:induction false} ServeEventsIsPosted(trace: seq<Event>, node: string, cloud: Cloud, from: nat, n: nat)
    requires Attested(false, trace) && OwnLog(trace, node, cloud.log) && from + n <= |trace|
    ensures OwnLog(trace, node, ServeEvents(cloud, trace[from..from + n]).log)
  {
    hide OwnLog, AttestedAt, ServeAll;
    if n > 0 {
      var events, last := trace[from..from + n], trace[from + n - 1];
      assert events[..n - 1] == trace[from..from + n - 1] && events[n - 1] == last;
      ServeEventsIsPosted(trace, node, cloud, from, n - 1);
      assert AttestedAt(false, trace, from + n - 1);
      if last.Posted? {
        ServeAllIsPosted(trace, from + n - 1, node, ServeEvents(cloud, events[..n - 1]), last.outcome.deliveries);
      }
    }
  }

  lemma OwnLogLater(small: seq<Event>, large: seq<Event>, node: string, log: seq<Entry>)
    requires small <= large && OwnLog(small, node, log)
    ensures OwnLog(large, node, log)
  {
    hide IsEntryOf;
    forall i | 0 <= i < |log| && log[i].key.nodeId == node ensures PostedAs(large, node, log[i]) {
      var j: nat, sample :| j < |small| && small[j].Posted? && NodeOf(small[j].request) == node && sample in small[j].batch
                            && IsEntryOf(log[i], node, sample);
      assert small[j] == large[j];
    }
  }

  /** An arriving request for the node repeats one that the edge has posted. */
  ghost predicate Repeats(trace: seq<Event>, node: string, action: Action) {
    action.Arrive? && NodeOf(action.request) == node ==>
      exists j: nat :: j < |trace| && trace[j].Posted? && trace[j].request == action.request
  }

  /** No other client posts for the node: whatever arrives for it is a late or repeated POST of this edge. */
  ghost predicate OnlyClient(node: string, s: System, actions: seq<Action>)
    requires ValidActions(actions)
  {
    forall k | 0 <= k < |actions| :: Repeats(Play(s, actions[..k]).edge.trace, node, actions[k])
  }

  lemma ArriveIsPosted(s: System, node: string, request: Request, delivery: Delivery)
    requires Attested(false, s.edge.trace) && OwnLog(s.edge.trace, node, s.cloud.log)
    requires Repeats(s.edge.trace, node, Arrive(request, delivery))
    ensures OwnLog(s.edge.trace, node, Serve(s.cloud, request, delivery).log)
  {
    hide PostedAs, StatementsOf, AttestedAt, Handled;
    if NodeOf(request) == node {
      var j: nat :| j < |s.edge.trace| && s.edge.trace[j].Posted? && s.edge.trace[j].request == request;
      assert AttestedAt(false, s.edge.trace, j);
      StatementIsPosted(s.edge.trace, j, node, delivery.receivedAt);
    } else {
      var entries := StatementsOf(request, delivery.receivedAt);
      StatementsAreOfNode(request, delivery.receivedAt);
      assert forall i | 0 <= i < |entries| :: entries[i] in entries;
    }
  }

  lemma StepIsPosted(s: System, node: string, step: Step)
    requires Consistent(false, s) && ValidStep(step) && OwnLog(s.edge.trace, node, s.cloud.log)
    ensures var after := Act(s, Action.Edge(step));
            OwnLog(after.edge.trace, node, after.cloud.log)
  {
    hide Sound, Attested, OwnLog, Apply, AllHonest;
    var after := EdgeRuns.Apply(s.edge, step);
    StepVouched(false, s.edge, step);
    StepExtends(s.edge, step);
    OwnLogLater(s.edge.trace, after.trace, node, s.cloud.log);
    ServeEventsIsPosted(after.trace, node, s.cloud, |s.edge.trace|, |after.trace| - |s.edge.trace|);
    assert after.trace[|s.edge.trace|..] == after.trace[|s.edge.trace|..|s.edge.trace| + (|after.trace| - |s.edge.trace|)];
  }

  lemma OnlyClientPrefix(node: string, s: System, actions: seq<Action>)
    requires actions != [] && ValidActions(actions) && OnlyClient(node, s, actions)
    ensures var n := |actions| - 1;
            OnlyClient(node, s, actions[..n]) && Repeats(Play(s, actions[..n]).edge.trace, node, actions[n])
  {
    hide Play, Repeats;
    var init := actions[..|actions| - 1];
    forall k | 0 <= k < |init| ensures Repeats(Play(s, init[..k]).edge.trace, node, init[k]) {
      assert init[..k] == actions[..k] && init[k] == actions[k];
    }
  }

  lemma {:induction false} PlayIsPosted(disk: Table, actions: seq<Action>, node: string)
    requires WellKeyed(disk) && ValidActions(actions) && KeyedActions(actions) && OnlyClient(node, Start(disk), actions)
    ensures var s := Play(Start(disk), actions);
            OwnLog(s.edge.trace, node, s.cloud.log)
  {
    if actions != [] {
      hide OwnLog, Attested, KeyedActions, Sound, AllHonest, Repeats, Act, OnlyClient;
      var n := |actions| - 1;
      KeyedPrefix(actions);
      OnlyClientPrefix(node, Start(disk), actions);
      PlayIsPosted(disk, actions[..n], node);
      PlayConsistent(false, disk, actions[..n]);
      ActIsPosted(Play(Start(disk), actions[..n]), node, actions[n]);
    }
  }

  lemma ActIsPosted(s: System, node: string, action: Action)
    requires Consistent(false, s) && OwnLog(s.edge.trace, node, s.cloud.log) && Repeats(s.edge.trace, node, action)
    requires action.Edge? ==> ValidStep(action.step)
    ensures var after := Act(s, action);
            OwnLog(after.edge.trace, node, after.cloud.log)
  {
    hide OwnLog, Attested, Sound, AllHonest, Repeats, Apply;
    match action
    case Edge(step) => StepIsPosted(s, node, step);
    case Arrive(request, delivery) => ArriveIsPosted(s, node, request, delivery);
  }

  // ----- One reading per channel and second -----

  function IsWire(wire: WireSample): Property {
    sample => WireOf(sample) == wire
  }

  lemma WireIsStoreBlind(wire: WireSample)
    ensures StoreBlind(IsWire(wire))
  {
    hide WireOf, SampleOf, RowOf;
    forall sample, id ensures IsWire(wire)(SampleOf(RowOf(id, sample))) == IsWire(wire)(sample) {
      ReplayKeepsWire(sample, id);
    }
  }

  /** Everything that has entered the edge for one channel and second is the same on the wire. */
  ghost predicate OneReadingPerSecond(disk: Table, steps: seq<Step>, trace: seq<Event>) {
    forall a, b | Entered(IsWire(a), disk, steps, trace) > 0 && Entered(IsWire(b), disk, steps, trace) > 0
                  && a.channelId == b.channelId && a.timestamp == b.timestamp :: a == b
  }

  lemma {:induction false} MemberCounts(p: Property, samples: seq<StoredSample>, sample: StoredSample)
    requires sample in samples && p(sample)
    ensures Count(p, samples) > 0
  {
    if sample != samples[|samples| - 1] {
      MemberCounts(p, samples[..|samples| - 1], sample);
    }
  }

  lemma {:induction false} PostCounts(p: Property, trace: seq<Event>, j: nat)
    requires j < |trace| && trace[j].Posted? && Count(p, trace[j].batch) > 0
    ensures Posts(p, trace) > 0
  {
    if j < |trace| - 1 {
      PostCounts(p, trace[..|trace| - 1], j);
    }
  }

  /** A posted sample has entered the edge. */
  lemma PostedHasEntered(disk: Table, steps: seq<Step>, j: nat, sample: StoredSample)
    requires WellKeyed(disk) && ValidSteps(steps) && KeyedFiles(steps)
    requires var trace := Run(Constructed(disk), steps).trace;
             j < |trace| && trace[j].Posted? && sample in trace[j].batch
    ensures Entered(IsWire(WireOf(sample)), disk, steps, Run(Constructed(disk), steps).trace) > 0
  {
    hide Run, WireOf, StoreBlind, Entered;
    var p, trace := IsWire(WireOf(sample)), Run(Constructed(disk), steps).trace;
    WireIsStoreBlind(WireOf(sample));
    MemberCounts(p, trace[j].batch, sample);
    PostCounts(p, trace, j);
    if Entered(p, disk, steps, trace) == 0 {
      NeverEnteredNeverPosted(p, disk, steps);
    }
  }

  /** The first entry of a posted sample's key agrees with it. */
  lemma FirstIsOwn(disk: Table, steps: seq<Step>, node: string, cloud: Cloud, j: nat, sample: StoredSample)
    requires WellKeyed(disk) && ValidSteps(steps) && KeyedFiles(steps)
    requires var trace := Run(Constructed(disk), steps).trace;
             && j < |trace| && trace[j].Posted? && sample in trace[j].batch
             && OneReadingPerSecond(disk, steps, trace) && OwnLog(trace, node, cloud.log)
    ensures FirstAgrees(cloud, node, sample)
  {
    hide Run, Entered, IsFirst;
    var trace, log := Run(Constructed(disk), steps).trace, cloud.log;
    forall i: nat | i < |log| && log[i].key == EntryFor(node, sample, 0).key ensures IsEntryOf(log[i], node, sample) {
      assert PostedAs(trace, node, log[i]);
      var k: nat, other :| k < |trace| && trace[k].Posted? && NodeOf(trace[k].request) == node && other in trace[k].batch
                           && IsEntryOf(log[i], node, other);
      PostedHasEntered(disk, steps, j, sample);
      PostedHasEntered(disk, steps, k, other);
      assert WireOf(other) == WireOf(sample);
    }
  }

  /**
   * Exactly as read: over an honest network, if nothing enters the edge twice for one channel and
   * second with different contents, and nobody else posts for the node, then in every reachable state
   * the table carries a sample of an accepted POST for the node, with its own value, unit and
   * quality, exactly when it is well-formed.
   */
  lemma OneReadingIsCarried(disk: Table, actions: seq<Action>, j: nat, sample: StoredSample)
    requires WellKeyed(disk) && ValidActions(actions) && KeyedActions(actions) && ValidSteps(StepsOf(actions))
    requires var trace := Play(Start(disk), actions).edge.trace;
             && AllHonest(trace) && OneReadingPerSecond(disk, StepsOf(actions), trace)
             && j < |trace| && IsAccepted(trace[j]) && sample in trace[j].batch
             && OnlyClient(NodeOf(trace[j].request), Start(disk), actions)
    ensures var s := Play(Start(disk), actions);
            Carried(s.cloud, NodeOf(s.edge.trace[j].request), sample) <==> WellFormed(WireOf(sample))
  {
    hide Play, WireOf, Carried, FirstAgrees, OneReadingPerSecond, AllHonest, OnlyClient;
    var s := Play(Start(disk), actions);
    var node := NodeOf(s.edge.trace[j].request);
    AcceptedIsCarriedIff(disk, actions, j);
    EdgeOfPlay(Start(disk), actions);
    PlayIsPosted(disk, actions, node);
    FirstIsOwn(disk, StepsOf(actions), node, s.cloud, j, sample);
  }
}
