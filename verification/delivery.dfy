/** What an accepted POST means at the Worker, in every reachable state of edge, network and Worker. */
module Deliveries {
  import opened Options
  import opened Samples
  import opened LocalStores
  import opened Protocol
  import opened Traces
  import opened HttpUploaders
  import opened Workers
  import opened Pipelines
  import opened EdgeRuns
  import opened Conservation
  import opened Systems

  // ----- What the edge's trace vouches for -----

  /** The node that a request is for. */
  function NodeOf(request: Request): string {
    if request.body.Json? then request.body.nodeId else ""
  }

  predicate IsAccepted(event: Event) {
    event.Posted? && ResultOf(event).Accepted?
  }

  /** An accepted POST of sample `row.sample` comes before event `j`. */
  ghost predicate SentBefore(trace: seq<Event>, j: nat, row: PendingRow)
    requires j <= |trace|
  {
    exists i: nat :: i < j && IsAccepted(trace[i]) && row.sample in trace[i].batch
  }

  /** POSTs carry their batch, for a named node if `named`, and rows are deleted only after an accepted POST of theirs. */
  ghost predicate AttestedAt(named: bool, trace: seq<Event>, j: nat)
    requires j < |trace|
  {
    match trace[j]
    case Posted(_, batch, request, _, _, _) =>
      request.body == Json(NodeOf(request), Some(WireAll(batch))) && (named ==> NodeOf(request) != "")
    case Deleted(row) => SentBefore(trace, j, row)
    case _ => true
  }

  ghost predicate Attested(named: bool, trace: seq<Event>) {
    forall j: nat | j < |trace| :: AttestedAt(named, trace, j)
  }

  lemma AttestedPrefix(named: bool, a: seq<Event>, b: seq<Event>)
    requires Attested(named, a + b)
    ensures Attested(named, a)
  {
    hide WireAll;
    var c := a + b;
    forall j: nat | j < |a| ensures AttestedAt(named, a, j) {
      assert c[j] == a[j] && AttestedAt(named, c, j);
      assert forall i: nat | i < j :: c[i] == a[i];
    }
  }

  lemma AttestedTogether(named: bool, a: seq<Event>, b: seq<Event>)
    requires Attested(named, a) && Attested(named, b)
    ensures Attested(named, a + b)
  {
    hide WireAll;
    var c := a + b;
    forall j: nat | j < |c| ensures AttestedAt(named, c, j) {
      if j < |a| {
        assert c[j] == a[j] && AttestedAt(named, a, j);
        assert forall i: nat | i < j :: c[i] == a[i];
      } else {
        assert c[j] == b[j - |a|] && AttestedAt(named, b, j - |a|);
        assert forall i: nat | i < j - |a| :: c[|a| + i] == b[i];
      }
    }
  }

  lemma AttemptAttested(named: bool, attempt: Attempt, kind: PostKind, batch: seq<StoredSample>, request: Request,
                        outcome: PostOutcome, at: int, failedAt: int)
    requires IsAttempt(attempt, kind, batch, request, outcome, at, failedAt)
    requires request.body == Json(NodeOf(request), Some(WireAll(batch))) && (named ==> NodeOf(request) != "")
    ensures Attested(named, attempt.step.events)
  {
    hide WireAll;
    var events := attempt.step.events;
    forall j: nat | j < |events| ensures AttestedAt(named, events, j) {
      if j > 0 && events[j].Deleted? {
        assert IsAccepted(events[0]);
      }
    }
  }

  /** The trace is attested and, if nodes are named, so is the current one. */
  ghost predicate Vouched(named: bool, e: Pipelines.Edge) {
    (named && e.target.Some? ==> e.target.value.nodeId != "") && Attested(named, e.trace)
  }

  lemma PollVouched(named: bool, e: Pipelines.Edge, id: string, priority: Priority, sample: Sample)
    requires Attested(named, e.trace)
    ensures Attested(named, PolledSample(e, id, priority, sample).trace)
  {
    hide FromSample, WireAll;
    var stored := FromSample(sample, priority);
    AttestedTogether(named, e.trace, [Polled(id, stored)] + OverflowEvents(e.ring, stored));
  }

  lemma PollPhaseVouched(named: bool, e: Pipelines.Edge, input: TickInput)
    requires Attested(named, e.trace)
    ensures Attested(named, AfterPolls(e, input).trace)
  {
    hide PolledSample, AfterPolls, Attested;
    forall f: Pipelines.Edge, id, priority, sample | Attested(named, f.trace)
      ensures Attested(named, PolledSample(f, id, priority, sample).trace)
    {
      PollVouched(named, f, id, priority, sample);
    }
    PollPhaseKeeps((f: Pipelines.Edge) => Attested(named, f.trace), e, input);
  }

  lemma FlushVouched(named: bool, e: Pipelines.Edge, i: FlushInput)
    requires Sound(e) && Vouched(named, e)
    ensures Vouched(named, AfterFlush(e, i))
  {
    hide WireAll, Attested, UploadAttempt, BackoffDelay;
    if Flushes(e, i) {
      var batch, attempt := FlushBatch(e), FlushAttempt(e, i);
      FlushIsAttempt(e, i);
      AttemptAttested(named, attempt, FlushPost, batch, RequestOf(e.target.value, batch), i.outcome, i.at, i.failedAt);
      AttestedTogether(named, e.trace, attempt.step.events);
    }
  }

  lemma RetryVouched(named: bool, e: Pipelines.Edge, i: RetryInput)
    requires Sound(e) && Vouched(named, e)
    ensures Vouched(named, AfterRetry(e, i))
  {
    hide WireAll, Attested, RetryAttempt, BackoffDelay, RetryRows;
    if Retries(e, i) {
      var batch, attempt := SamplesOf(RetryRows(e, i)), RetryOf(e, i);
      RetryIsAttempt(e, i);
      if batch == [] {
        EmptyRetryAttested(named);
      } else {
        AttemptAttested(named, attempt, RetryPost, batch, RequestOf(e.target.value, batch), i.outcome, i.at, i.failedAt);
      }
      AttestedTogether(named, e.trace, attempt.step.events);
    }
  }

  lemma EmptyRetryAttested(named: bool)
    ensures Attested(named, [EmptyRetry])
  {
  }

  predicate Named(step: Step) {
    step.Reloaded? ==> step.config.nodeId != ""
  }

  lemma TickVouched(named: bool, e: Pipelines.Edge, input: TickInput)
    requires Sound(e) && Vouched(named, e)
    ensures Vouched(named, Tick(e, input))
  {
    hide AfterPolls, AfterFlush, AfterRetry, Attested, Sound;
    if e.bindings != map[] {
      PollPhaseVouched(named, e, input);
      AfterPollsOnly(e, input);
      TickKeepsSound(e, input);
      FlushVouched(named, AfterPolls(e, input), input.flush);
      RetryVouched(named, AfterFlush(AfterPolls(e, input), input.flush), input.retry);
    }
  }

  lemma ReconfigureVouched(named: bool, e: Pipelines.Edge, config: Config, found: ConfigureInput)
    requires Vouched(named, e) && ValidConfig(config, found) && (named ==> config.nodeId != "")
    ensures Vouched(named, Reconfigure(e, config, found))
  {
    ReconfigureShape(e, config, found);
    AttestedTogether(named, e.trace, [Reconfigured(e.ring.items)]);
  }

  lemma StepVouched(named: bool, e: Pipelines.Edge, step: Step)
    requires Sound(e) && Vouched(named, e) && ValidStep(step) && (named ==> Named(step))
    ensures Vouched(named, EdgeRuns.Apply(e, step))
  {
    hide Vouched, Tick, Reconfigure, Sound;
    match step
    case Ticked(input) => TickVouched(named, e, input);
    case Reloaded(config, found) => ReconfigureVouched(named, e, config, found);
  }

  // ----- An honest network -----

  /**
   * The answers 200, 202 and 400 are the Worker's: a client that sees one without a transport error
   * sees the Worker's answer to a delivery of that very request. Everything else may be made up.
   */
  predicate Honest(event: Event) {
    event.Posted? && event.outcome.response.error == "" && event.outcome.response.statusCode in {200, 202, 400} ==>
      exists d | 0 <= d < |event.outcome.deliveries| ::
        Status(event.request, event.outcome.deliveries[d].database) == event.outcome.response.statusCode
  }

  predicate AllHonest(trace: seq<Event>) {
    forall j | 0 <= j < |trace| :: Honest(trace[j])
  }

  // ----- The log -----

  /** The entry of its own that a sample makes at the Worker. */
  function EntryFor(node: string, sample: StoredSample, receivedAt: int): Entry {
    var wire := WireOf(sample);
    Entry(Key(node, wire.channelId, wire.timestamp.value), Point(wire.value.value, wire.unit, wire.quality, receivedAt))
  }

  /** The entry is this sample's: key, value, unit and quality. */
  predicate IsEntryOf(entry: Entry, node: string, sample: StoredSample) {
    entry == EntryFor(node, sample, entry.point.receivedAt)
  }

  /** The Worker has an entry of the sample's own in its log. */
  ghost predicate Recorded(cloud: Cloud, node: string, sample: StoredSample) {
    exists i: nat | i < |cloud.log| :: IsEntryOf(cloud.log[i], node, sample)
  }

  /** Only complete entries are logged, so an ill-formed sample never is. */
  lemma RecordedIsWellFormed(cloud: Cloud, node: string, sample: StoredSample)
    requires TableIsFirst(cloud) && Recorded(cloud, node, sample)
    ensures WellFormed(WireOf(sample))
  {
    var i: nat :| i < |cloud.log| && IsEntryOf(cloud.log[i], node, sample);
    assert Complete(cloud.log[i]);
  }

  ghost predicate EventRecorded(cloud: Cloud, event: Event) {
    IsAccepted(event) ==>
      forall sample | sample in event.batch && WellFormed(WireOf(sample)) :: Recorded(cloud, NodeOf(event.request), sample)
  }

  /** Every well-formed sample of every accepted POST of a trace is recorded. */
  ghost predicate AcceptedRecorded(cloud: Cloud, trace: seq<Event>) {
    forall j | 0 <= j < |trace| :: EventRecorded(cloud, trace[j])
  }

  lemma RecordedPersists(small: Cloud, large: Cloud, trace: seq<Event>)
    requires Extends(small, large) && AcceptedRecorded(small, trace)
    ensures AcceptedRecorded(large, trace)
  {
    hide IsEntryOf, WireOf;
    forall j, sample | 0 <= j < |trace| && IsAccepted(trace[j]) && sample in trace[j].batch && WellFormed(WireOf(sample))
      ensures Recorded(large, NodeOf(trace[j].request), sample)
    {
      assert EventRecorded(small, trace[j]);
      var i: nat :| i < |small.log| && IsEntryOf(small.log[i], NodeOf(trace[j].request), sample);
      assert small.log[i] == large.log[i];
    }
  }

  lemma StatementOfSample(node: string, batch: seq<StoredSample>, sample: StoredSample, now: int)
    requires sample in batch && WellFormed(WireOf(sample))
    ensures EntryFor(node, sample, now) in Statements(node, WireAll(batch), now)
  {
    hide Statements;
    var k :| 0 <= k < |batch| && batch[k] == sample;
    assert WireAll(batch)[k] == WireOf(sample);
    StatementsCover(node, WireAll(batch), now);
  }

  /** An accepted POST has been served before its answer arrives. */
  lemma AcceptedIsServed(cloud: Cloud, event: Event, sample: StoredSample)
    requires IsAccepted(event) && Honest(event)
    requires event.request.body == Json(NodeOf(event.request), Some(WireAll(event.batch)))
    requires sample in event.batch && WellFormed(WireOf(sample))
    ensures Recorded(ServeAll(cloud, event.request, event.outcome.deliveries), NodeOf(event.request), sample)
  {
    hide WireOf, WireAll, Statements;
    var deliveries, node := event.outcome.deliveries, NodeOf(event.request);
    var d :| 0 <= d < |deliveries|
             && Status(event.request, deliveries[d].database) == event.outcome.response.statusCode;
    ServeAllGrows(cloud, event.request, deliveries);
    StatementOfSample(node, event.batch, sample, deliveries[d].receivedAt);
    var entry, after := EntryFor(node, sample, deliveries[d].receivedAt), ServeAll(cloud, event.request, deliveries);
    assert entry in after.log;
    var i :| 0 <= i < |after.log| && after.log[i] == entry;
    assert IsEntryOf(after.log[i], node, sample);
  }

  lemma EventIsServed(before: Cloud, trace: seq<Event>, last: Event)
    requires AcceptedRecorded(before, trace) && Honest(last)
    requires last.Posted? ==> last.request.body == Json(NodeOf(last.request), Some(WireAll(last.batch)))
    ensures AcceptedRecorded(if last.Posted? then ServeAll(before, last.request, last.outcome.deliveries) else before,
                             trace + [last])
  {
    hide WireAll, WireOf, Recorded, Honest, Extends;
    if last.Posted? {
      var after := ServeAll(before, last.request, last.outcome.deliveries);
      ServeAllGrows(before, last.request, last.outcome.deliveries);
      RecordedPersists(before, after, trace);
      forall sample | IsAccepted(last) && sample in last.batch && WellFormed(WireOf(sample))
        ensures Recorded(after, NodeOf(last.request), sample)
      {
        AcceptedIsServed(before, last, sample);
      }
    }
  }

  lemma {:induction false} EventsAreServed(cloud: Cloud, trace: seq<Event>, events: seq<Event>)
    requires AcceptedRecorded(cloud, trace)
    requires Attested(false, trace + events) && AllHonest(trace + events)
    ensures AcceptedRecorded(ServeEvents(cloud, events), trace + events)
  {
    hide AcceptedRecorded, Honest, ServeAll, WireAll;
    if events == [] {
      assert trace + events == trace;
    } else {
      var n := |events| - 1;
      var longer, init := trace + events, trace + events[..n];
      assert longer == init + [events[n]];
      AttestedPrefix(false, init, [events[n]]);
      assert forall j | 0 <= j < |init| :: init[j] == longer[j];
      EventsAreServed(cloud, trace, events[..n]);
      assert longer[|init|] == events[n] && AttestedAt(false, longer, |init|) && Honest(longer[|init|]);
      EventIsServed(ServeEvents(cloud, events[..n]), init, events[n]);
    }
  }

  // ----- Every reachable state -----

  ghost predicate KeyedActions(actions: seq<Action>) {
    KeyedFiles(StepsOf(actions))
  }

  predicate AllNamed(actions: seq<Action>) {
    forall i | 0 <= i < |actions| && actions[i].Edge? :: Named(actions[i].step)
  }

  /** Everything the edge relies on about the cloud. */
  ghost predicate Consistent(named: bool, s: System) {
    && Sound(s.edge) && Vouched(named, s.edge) && Vouched(false, s.edge)
    && (AllHonest(s.edge.trace) ==> AcceptedRecorded(s.cloud, s.edge.trace))
  }

  lemma ArriveConsistent(named: bool, s: System, request: Request, delivery: Delivery)
    requires Consistent(named, s)
    ensures Consistent(named, s.(cloud := Serve(s.cloud, request, delivery)))
  {
    hide Sound, Vouched, Serve, AcceptedRecorded, Extends;
    ServeGrows(s.cloud, request, delivery);
    if AllHonest(s.edge.trace) {
      RecordedPersists(s.cloud, Serve(s.cloud, request, delivery), s.edge.trace);
    }
  }

  lemma StepConsistent(named: bool, s: System, step: Step)
    requires Consistent(named, s) && ValidStep(step) && (named ==> Named(step))
    requires step.Reloaded? ==> WellKeyed(step.found.file)
    ensures Consistent(named, Act(s, Action.Edge(step)))
  {
    hide Sound, Attested, Tick, Reconfigure, AcceptedRecorded, Honest;
    var after := EdgeRuns.Apply(s.edge, step);
    StepVouched(named, s.edge, step);
    StepVouched(false, s.edge, step);
    StepKeepsSound(s.edge, step);
    StepExtends(s.edge, step);
    var events := after.trace[|s.edge.trace|..];
    assert after.trace == s.edge.trace + events;
    if AllHonest(after.trace) {
      assert forall j | 0 <= j < |s.edge.trace| :: s.edge.trace[j] == after.trace[j];
      EventsAreServed(s.cloud, s.edge.trace, events);
    }
  }

  lemma {:induction false} KeyedPrefix(actions: seq<Action>)
    requires actions != [] && KeyedActions(actions)
    ensures KeyedActions(actions[..|actions| - 1])
    ensures var last := actions[|actions| - 1];
            last.Edge? && last.step.Reloaded? ==> WellKeyed(last.step.found.file)
  {
    var n := |actions| - 1;
    var steps, init := StepsOf(actions), StepsOf(actions[..n]);
    assert forall i | 0 <= i < |init| :: init[i] == steps[i];
    if actions[n].Edge? {
      assert steps[|init|] == actions[n].step;
    }
  }

  lemma {:induction false} PlayKeepsConsistent(named: bool, s: System, actions: seq<Action>)
    requires Consistent(named, s)
    requires ValidActions(actions) && KeyedActions(actions) && (named ==> AllNamed(actions))
    ensures Consistent(named, Play(s, actions))
  {
    if actions != [] {
      hide Consistent, KeyedActions, Act;
      var n := |actions| - 1;
      KeyedPrefix(actions);
      PlayKeepsConsistent(named, s, actions[..n]);
      var before := Play(s, actions[..n]);
      match actions[n]
      case Edge(step) => StepConsistent(named, before, step);
      case Arrive(request, delivery) => ArriveConsistent(named, before, request, delivery);
    }
  }

  lemma PlayConsistent(named: bool, disk: Table, actions: seq<Action>)
    requires WellKeyed(disk) && ValidActions(actions) && KeyedActions(actions) && (named ==> AllNamed(actions))
    ensures Consistent(named, Play(Start(disk), actions))
  {
    hide Play, KeyedActions, AllNamed;
    assert Consistent(named, Start(disk));
    PlayKeepsConsistent(named, Start(disk), actions);
  }

  /**
   * Over an honest network, in every reachable state: a sample of an accepted POST is in the Worker's
   * log, as an entry of its own under the POST's node, exactly when it is well-formed; and the row of
   * a sample is deleted only after an accepted POST of it, so that the same holds for it.
   */
  lemma AcceptedMeansRecorded(disk: Table, actions: seq<Action>, j: nat)
    requires WellKeyed(disk) && ValidActions(actions) && KeyedActions(actions)
    requires AllHonest(Play(Start(disk), actions).edge.trace) && j < |Play(Start(disk), actions).edge.trace|
    ensures var s := Play(Start(disk), actions);
            var trace := s.edge.trace;
            && (IsAccepted(trace[j]) ==> forall sample | sample in trace[j].batch ::
                  WellFormed(WireOf(sample)) <==> Recorded(s.cloud, NodeOf(trace[j].request), sample))
            && (trace[j].Deleted? ==> exists i: nat ::
                  && i < j && IsAccepted(trace[i]) && trace[j].row.sample in trace[i].batch
                  && (WellFormed(WireOf(trace[j].row.sample))
                      <==> Recorded(s.cloud, NodeOf(trace[i].request), trace[j].row.sample)))
  {
    hide Play, WireOf, Recorded, Extends;
    PlayConsistent(false, disk, actions);
    PlayGrows(Start(disk), actions);
    var s := Play(Start(disk), actions);
    AcceptedIff(s, j);
    if s.edge.trace[j].Deleted? {
      assert AttestedAt(false, s.edge.trace, j);
      var i: nat :| i < j && IsAccepted(s.edge.trace[i]) && s.edge.trace[j].row.sample in s.edge.trace[i].batch;
      AcceptedIff(s, i);
    }
  }

  lemma AcceptedIff(s: System, j: nat)
    requires Consistent(false, s) && TableIsFirst(s.cloud) && AllHonest(s.edge.trace) && j < |s.edge.trace|
    ensures IsAccepted(s.edge.trace[j]) ==> forall sample | sample in s.edge.trace[j].batch ::
              WellFormed(WireOf(sample)) <==> Recorded(s.cloud, NodeOf(s.edge.trace[j].request), sample)
  {
    hide WireOf, Recorded;
    var event := s.edge.trace[j];
    assert EventRecorded(s.cloud, event);
    forall sample | IsAccepted(event) && sample in event.batch && Recorded(s.cloud, NodeOf(event.request), sample)
      ensures WellFormed(WireOf(sample))
    {
      RecordedIsWellFormed(s.cloud, NodeOf(event.request), sample);
    }
  }

  // ----- The table -----

  /** The table row of the sample's channel and second has the sample's own value, unit and quality. */
  predicate Carried(cloud: Cloud, node: string, sample: StoredSample) {
    var key := EntryFor(node, sample, 0).key;
    key in cloud.tables.points && IsEntryOf(Entry(key, cloud.tables.points[key]), node, sample)
  }

  /** The first entry that the Worker logged for the sample's channel and second, if any, agrees with it. */
  ghost predicate FirstAgrees(cloud: Cloud, node: string, sample: StoredSample) {
    forall i: nat | i < |cloud.log| && IsFirst(cloud.log, i) && cloud.log[i].key == EntryFor(node, sample, 0).key ::
      IsEntryOf(cloud.log[i], node, sample)
  }

  lemma CarriedIff(cloud: Cloud, node: string, sample: StoredSample)
    requires TableIsFirst(cloud) && (WellFormed(WireOf(sample)) <==> Recorded(cloud, node, sample))
    ensures Carried(cloud, node, sample) <==> WellFormed(WireOf(sample)) && FirstAgrees(cloud, node, sample)
  {
    hide IsFirst, WireOf;
    var key, log, points := EntryFor(node, sample, 0).key, cloud.log, cloud.tables.points;
    if key in points {
      var i: nat :| i < |log| && IsFirst(log, i) && log[i].key == key;
      assert log[i] == Entry(key, points[key]);
      OnlyOneFirst(log, key, i);
      assert IsEntryOf(log[i], node, sample) ==> Recorded(cloud, node, sample);
    } else if Recorded(cloud, node, sample) {
      var i: nat :| i < |log| && IsEntryOf(log[i], node, sample);
      var first := EveryKeyHasFirst(log, i);
    }
  }

  lemma OnlyOneFirst(log: seq<Entry>, key: Key, i: nat)
    requires i < |log| && IsFirst(log, i) && log[i].key == key
    ensures forall k: nat | k < |log| && IsFirst(log, k) && log[k].key == key :: k == i
  {
  }

  /**
   * Over an honest network, in every reachable state: the table carries a sample of an accepted POST
   * with its own value, unit and quality exactly when the sample is well-formed and the first entry
   * of its channel and second agrees with it.
   */
  lemma AcceptedIsCarriedIff(disk: Table, actions: seq<Action>, j: nat)
    requires WellKeyed(disk) && ValidActions(actions) && KeyedActions(actions)
    requires AllHonest(Play(Start(disk), actions).edge.trace) && j < |Play(Start(disk), actions).edge.trace|
    ensures var s := Play(Start(disk), actions);
            var event := s.edge.trace[j];
            IsAccepted(event) ==> forall sample | sample in event.batch ::
              Carried(s.cloud, NodeOf(event.request), sample)
              <==> WellFormed(WireOf(sample)) && FirstAgrees(s.cloud, NodeOf(event.request), sample)
  {
    hide Play, WireOf, Recorded, Carried, FirstAgrees, Extends;
    AcceptedMeansRecorded(disk, actions, j);
    PlayGrows(Start(disk), actions);
    var s := Play(Start(disk), actions);
    var event := s.edge.trace[j];
    forall sample | IsAccepted(event) && sample in event.batch
      ensures Carried(s.cloud, NodeOf(event.request), sample)
              <==> WellFormed(WireOf(sample)) && FirstAgrees(s.cloud, NodeOf(event.request), sample)
    {
      CarriedIff(s.cloud, NodeOf(event.request), sample);
    }
  }

  // ----- Nothing vanishes on the way -----

  /** A batch that has a sample with the property contains one. */
  lemma {:induction false} CountedMember(p: Property, samples: seq<StoredSample>) returns (sample: StoredSample)
    requires Count(p, samples) > 0
    ensures sample in samples && p(sample)
  {
    var n := |samples| - 1;
    if p(samples[n]) {
      sample := samples[n];
    } else {
      sample := CountedMember(p, samples[..n]);
    }
  }

  /** Whatever was delivered with the property was in an accepted POST. */
  lemma {:induction false} DeliveredWasAccepted(p: Property, trace: seq<Event>) returns (i: nat, sample: StoredSample)
    requires Attested(false, trace) && GoneBy(Delivered, p, trace) > 0
    ensures i < |trace| && IsAccepted(trace[i]) && sample in trace[i].batch && p(sample)
  {
    hide WireAll;
    var n := |trace| - 1;
    var init, last := trace[..n], trace[n];
    assert AttestedAt(false, trace, n);
    assert trace == init + [last];
    if FateOf(last) == Some(Delivered) && Content(p, last) > 0 {
      if last.Posted? {
        i := n;
        sample := CountedMember(p, last.batch);
      } else {
        i :| 0 <= i < n && IsAccepted(trace[i]) && last.row.sample in trace[i].batch;
        sample := last.row.sample;
      }
    } else {
      AttestedPrefix(false, init, [last]);
      i, sample := DeliveredWasAccepted(p, init);
    }
  }

  lemma {:induction false} NamedIsNotRefused(p: Property, trace: seq<Event>)
    requires Attested(true, trace) && AllHonest(trace)
    ensures GoneBy(Refused, p, trace) == 0
  {
    hide WireAll;
    if trace != [] {
      var n := |trace| - 1;
      var init, last := trace[..n], trace[n];
      assert AttestedAt(true, trace, n) && Honest(last);
      assert trace == init + [last];
      AttestedPrefix(true, init, [last]);
      NamedIsNotRefused(p, init);
    }
  }

  /** An honest network never shows the edge a 400, as long as every configuration names its node. */
  lemma NothingRefused(p: Property, disk: Table, actions: seq<Action>)
    requires WellKeyed(disk) && ValidActions(actions) && KeyedActions(actions) && AllNamed(actions)
    requires AllHonest(Play(Start(disk), actions).edge.trace)
    ensures GoneBy(Refused, p, Play(Start(disk), actions).edge.trace) == 0
  {
    PlayConsistent(true, disk, actions);
    NamedIsNotRefused(p, Play(Start(disk), actions).edge.trace);
  }

  /** The event is an accepted POST whose batch has the sample, up to what the store keeps of it. */
  ghost predicate Sends(event: Event, x: StoredSample) {
    IsAccepted(event) && exists sample :: sample in event.batch && Canonical(sample) == Canonical(x)
  }

  /** What the store keeps of a sample determines its entry. */
  lemma SameWire(a: StoredSample, b: StoredSample)
    requires Canonical(a) == Canonical(b)
    ensures WireOf(a) == WireOf(b)
  {
    hide WireOf, Canonical;
    ReplayKeepsWire(a, 0);
    ReplayKeepsWire(b, 0);
  }

  lemma SentIsRecorded(s: System, i: nat, sample: StoredSample, x: StoredSample)
    requires Consistent(false, s) && TableIsFirst(s.cloud) && AllHonest(s.edge.trace) && i < |s.edge.trace|
    requires IsAccepted(s.edge.trace[i]) && sample in s.edge.trace[i].batch && Canonical(sample) == Canonical(x)
    ensures Sends(s.edge.trace[i], x)
    ensures WellFormed(WireOf(x)) <==> Recorded(s.cloud, NodeOf(s.edge.trace[i].request), x)
  {
    hide WireOf, Canonical;
    AcceptedIff(s, i);
    SameWire(sample, x);
    assert forall node, at :: EntryFor(node, sample, at) == EntryFor(node, x, at);
  }

  lemma DeliveredIsRecorded(s: System, x: StoredSample)
    requires Consistent(false, s) && TableIsFirst(s.cloud) && AllHonest(s.edge.trace)
    requires GoneBy(Delivered, Identity(Canonical(x)), s.edge.trace) > 0
    ensures exists i: nat ::
              && i < |s.edge.trace| && Sends(s.edge.trace[i], x)
              && (WellFormed(WireOf(x)) <==> Recorded(s.cloud, NodeOf(s.edge.trace[i].request), x))
  {
    hide WireOf, Recorded, Sends, Canonical, GoneBy, Honest, AcceptedRecorded;
    var i, sample := DeliveredWasAccepted(Identity(Canonical(x)), s.edge.trace);
    SentIsRecorded(s, i, sample, x);
  }

  /**
   * At least once: over an honest network, if a sample came from files and drivers more often than it
   * is held in the ring or the queue, left behind in another file, refused, overrun, lost for want of
   * a store, or discarded by a configuration, then an accepted POST had it, and it is in the Worker's
   * log exactly when it is well-formed.
   */
  lemma NothingVanishes(disk: Table, actions: seq<Action>, x: StoredSample)
    requires WellKeyed(disk) && ValidActions(actions) && KeyedActions(actions) && ValidSteps(StepsOf(actions))
    requires AllHonest(Play(Start(disk), actions).edge.trace)
    ensures var s, p := Play(Start(disk), actions), Identity(Canonical(x));
            var trace := s.edge.trace;
            CountRows(p, disk.rows) + Found(p, StepsOf(actions)) + Read(p, trace)
            > Count(p, s.edge.ring.items) + CountRows(p, s.edge.store.table.rows)
              + Left(p, Constructed(disk), StepsOf(actions)) + GoneBy(Refused, p, trace) + GoneBy(Overrun, p, trace)
              + GoneBy(Lost, p, trace) + GoneBy(Discarded, p, trace)
            ==> exists i: nat ::
                  && i < |trace| && Sends(trace[i], x)
                  && (WellFormed(WireOf(x)) <==> Recorded(s.cloud, NodeOf(trace[i].request), x))
  {
    hide Play, WireOf, Recorded, Sends, Canonical, Extends, StoreBlind, Run, GoneBy, Count, CountRows, Read, Found, Left;
    hide Consistent, AllHonest, Identity;
    var s, p := Play(Start(disk), actions), Identity(Canonical(x));
    EdgeOfPlay(Start(disk), actions);
    IdentityIsStoreBlind(Canonical(x));
    SamplesAreConserved(p, disk, StepsOf(actions));
    PlayConsistent(false, disk, actions);
    PlayGrows(Start(disk), actions);
    if GoneBy(Delivered, p, s.edge.trace) > 0 {
      DeliveredIsRecorded(s, x);
    }
  }
}
