/** The Worker's tables read off everything it has handled, in order. */
module WorkerHistory {
  import opened Protocol
  import opened Traces
  import opened LocalStores
  import opened Workers
  import opened EdgeRuns
  import opened Systems

  /** One request handled by the Worker. */
  datatype Handling = Handling(request: Request, delivery: Delivery)

  function HandlingsOfPost(request: Request, deliveries: seq<Delivery>): seq<Handling> {
    seq(|deliveries|, i requires 0 <= i < |deliveries| => Handling(request, deliveries[i]))
  }

  /** What the Worker handles while a stretch of the edge's trace happens. */
  function HandlingsOf(events: seq<Event>): seq<Handling> {
    if events == [] then []
    else
      var last := events[|events| - 1];
      HandlingsOf(events[..|events| - 1])
      + if last.Posted? then HandlingsOfPost(last.request, last.outcome.deliveries) else []
  }

  /** What the Worker handles in a run of the system: POSTs of the edge and whatever else arrives. */
  function Handlings(s: System, actions: seq<Action>): seq<Handling>
    requires ValidActions(actions)
  {
    if actions == [] then []
    else
      var before := Play(s, actions[..|actions| - 1]);
      Handlings(s, actions[..|actions| - 1])
      + match actions[|actions| - 1]
        case Edge(step) => HandlingsOf(Apply(before.edge, step).trace[EventsFrom(before.edge, step)..])
        case Arrive(request, delivery) => [Handling(request, delivery)]
  }

  /** Where the events of a step begin in its trace. */
  function EventsFrom(e: Pipelines.Edge, step: Step): (n: nat)
    requires ValidStep(step)
    ensures n <= |Apply(e, step).trace|
  {
    StepExtends(e, step);
    |e.trace|
  }

  function ServeEach(cloud: Cloud, handlings: seq<Handling>): Cloud {
    if handlings == [] then cloud
    else
      var last := handlings[|handlings| - 1];
      Serve(ServeEach(cloud, handlings[..|handlings| - 1]), last.request, last.delivery)
  }

  lemma {:induction false} ServeEachAppend(cloud: Cloud, a: seq<Handling>, b: seq<Handling>)
    ensures ServeEach(cloud, a + b) == ServeEach(ServeEach(cloud, a), b)
  {
    hide Serve;
    if b == [] {
      assert a + b == a;
    } else {
      assert (a + b)[..|a + b| - 1] == a + b[..|b| - 1];
      ServeEachAppend(cloud, a, b[..|b| - 1]);
    }
  }

  lemma {:induction false} PostIsServed(cloud: Cloud, request: Request, deliveries: seq<Delivery>)
    ensures ServeAll(cloud, request, deliveries) == ServeEach(cloud, HandlingsOfPost(request, deliveries))
  {
    hide Serve;
    if deliveries != [] {
      var n := |deliveries| - 1;
      PostIsServed(cloud, request, deliveries[..n]);
      assert HandlingsOfPost(request, deliveries)[..n] == HandlingsOfPost(request, deliveries[..n]);
    }
  }

  lemma {:induction false} EventsAreServed(cloud: Cloud, events: seq<Event>)
    ensures ServeEvents(cloud, events) == ServeEach(cloud, HandlingsOf(events))
  {
    hide ServeEach, ServeAll, HandlingsOfPost;
    if events == [] {
      NothingServed(cloud);
    } else {
      var n := |events| - 1;
      var before := HandlingsOf(events[..n]);
      EventsAreServed(cloud, events[..n]);
      if events[n].Posted? {
        PostIsServed(ServeEach(cloud, before), events[n].request, events[n].outcome.deliveries);
        ServeEachAppend(cloud, before, HandlingsOfPost(events[n].request, events[n].outcome.deliveries));
      } else {
        assert before + [] == before;
      }
    }
  }

  lemma NothingServed(cloud: Cloud)
    ensures ServeEach(cloud, []) == cloud
  {
  }

  lemma OneServed(cloud: Cloud, request: Request, delivery: Delivery)
    ensures ServeEach(cloud, [Handling(request, delivery)]) == Serve(cloud, request, delivery)
  {
    assert [Handling(request, delivery)][..0] == [];
  }

  lemma {:induction false} PlayServesEach(s: System, actions: seq<Action>)
    requires ValidActions(actions)
    ensures Play(s, actions).cloud == ServeEach(s.cloud, Handlings(s, actions))
  {
    hide ServeEach, HandlingsOf, ServeEvents, Serve, Apply;
    if actions == [] {
      NothingServed(s.cloud);
    } else {
      var n := |actions| - 1;
      var before, served := Play(s, actions[..n]), Handlings(s, actions[..n]);
      PlayServesEach(s, actions[..n]);
      match actions[n]
      case Edge(step) =>
        StepExtends(before.edge, step);
        var events := Apply(before.edge, step).trace[|before.edge.trace|..];
        EventsAreServed(before.cloud, events);
        ServeEachAppend(s.cloud, served, HandlingsOf(events));
      case Arrive(request, delivery) =>
        OneServed(before.cloud, request, delivery);
        ServeEachAppend(s.cloud, served, [Handling(request, delivery)]);
    }
  }

  // ----- Status codes -----

  predicate HasBearer(request: Request) {
    request.authorization.Some? && |request.authorization.value| >= 7 && request.authorization.value[..7] == "Bearer "
  }

  predicate NamesNodeAndSamples(request: Request) {
    request.body.Json? && request.body.nodeId != "" && request.body.samples.Some?
  }

  predicate Admits(request: Request) {
    HasBearer(request) && NamesNodeAndSamples(request)
  }

  predicate CompleteSample(sample: WireSample) {
    sample.channelId != "" && sample.timestamp.Some? && sample.value.Some? && sample.unit != ""
  }

  lemma AuthorizedIff(request: Request)
    ensures Authorized(request) <==> HasBearer(request)
  {
    if request.authorization.Some? {
      var header := request.authorization.value;
      if |header| >= 7 && header[..7] == "Bearer " {
        assert header == "Bearer " + header[7..];
      }
    }
  }

  /** Which answer the Worker gives to which request, for every behaviour of its database. */
  lemma StatusCodes(request: Request, database: Database)
    ensures Status(request, database) in {202, 400, 401, 500}
    ensures Status(request, database) == 401 <==> !HasBearer(request)
    ensures Status(request, database) == 400 <==> HasBearer(request) && !NamesNodeAndSamples(request)
    ensures Status(request, database) == 500 <==>
              && Admits(request)
              && (|| database.NodeFailed?
                  || (database.BatchFailed? && exists k | 0 <= k < |request.body.samples.value| ::
                        CompleteSample(request.body.samples.value[k])))
  {
    AuthorizedIff(request);
    if Authorized(request) && HasBatch(request.body) {
      var node, samples := request.body.nodeId, request.body.samples.value;
      StatementsCover(node, samples, 0);
      if Statements(node, samples, 0) != [] {
        assert Statements(node, samples, 0)[0] in Statements(node, samples, 0);
      }
      if k :| 0 <= k < |samples| && CompleteSample(samples[k]) {
        assert EntryOf(node, samples[k], 0) in Statements(node, samples, 0);
      }
    }
  }

  // ----- The node table -----

  /** The handling upserts the node: admitted, for this node, and the upsert does not fail. */
  predicate Touches(handling: Handling, node: string) {
    Admits(handling.request) && handling.request.body.nodeId == node && !handling.delivery.database.NodeFailed?
  }

  ghost predicate FirstTouch(handlings: seq<Handling>, node: string, i: nat) {
    i < |handlings| && Touches(handlings[i], node) && forall j | 0 <= j < i :: !Touches(handlings[j], node)
  }

  ghost predicate LastTouch(handlings: seq<Handling>, node: string, i: nat) {
    i < |handlings| && Touches(handlings[i], node) && forall j | i < j < |handlings| :: !Touches(handlings[j], node)
  }

  lemma ServeTouches(cloud: Cloud, handling: Handling, node: string)
    ensures var before, after := cloud.tables.nodes, Serve(cloud, handling.request, handling.delivery).tables.nodes;
            if Touches(handling, node) then
              && node in after && after[node].lastSeenAt == handling.delivery.receivedAt
              && after[node].createdAt == if node in before then before[node].createdAt else handling.delivery.receivedAt
            else (node in after <==> node in before) && (node in before ==> after[node] == before[node])
  {
    hide InsertAll, StatementsOf;
    AuthorizedIff(handling.request);
  }

  lemma TouchStep(handlings: seq<Handling>, node: string, i: nat)
    requires handlings != []
    ensures var n := |handlings| - 1; var init := handlings[..n];
            && (LastTouch(handlings, node, i) <==>
                  (i == n && Touches(handlings[n], node)) || (LastTouch(init, node, i) && !Touches(handlings[n], node)))
            && (FirstTouch(handlings, node, i) <==>
                  || FirstTouch(init, node, i)
                  || (i == n && Touches(handlings[n], node) && forall j | 0 <= j < n :: !Touches(init[j], node)))
  {
    hide Touches;
    var n := |handlings| - 1;
    assert forall j | 0 <= j < n :: handlings[j] == handlings[..n][j];
  }

  lemma {:induction false} NodesAreTouched(handlings: seq<Handling>, node: string)
    ensures var nodes := ServeEach(EmptyCloud(), handlings).tables.nodes;
            && (node in nodes <==> exists i | 0 <= i < |handlings| :: Touches(handlings[i], node))
            && (forall i: nat | FirstTouch(handlings, node, i) ::
                  node in nodes && nodes[node].createdAt == handlings[i].delivery.receivedAt)
            && (forall i: nat | LastTouch(handlings, node, i) ::
                  node in nodes && nodes[node].lastSeenAt == handlings[i].delivery.receivedAt)
  {
    hide Touches, Serve;
    if handlings != [] {
      var n := |handlings| - 1;
      var init := handlings[..n];
      NodesAreTouched(init, node);
      ServeTouches(ServeEach(EmptyCloud(), init), handlings[n], node);
      assert forall j | 0 <= j < n :: handlings[j] == init[j];
      forall i: nat
        ensures FirstTouch(handlings, node, i) <==>
                  || FirstTouch(init, node, i)
                  || (i == n && Touches(handlings[n], node) && forall j | 0 <= j < n :: !Touches(init[j], node))
        ensures LastTouch(handlings, node, i) <==>
                  (i == n && Touches(handlings[n], node)) || (LastTouch(init, node, i) && !Touches(handlings[n], node))
      {
        TouchStep(handlings, node, i);
      }
      hide FirstTouch, LastTouch;
    }
  }

  /**
   * The node table in every run of the system, with no assumption on the network: a node is in it iff
   * some admitted request for it was handled without a node failure; it was created when the first of
   * these was received and last seen when the latest was.
   */
  lemma NodesAreFirstAndLast(disk: Table, actions: seq<Action>, node: string)
    requires ValidActions(actions)
    ensures var nodes, handled := Play(Start(disk), actions).cloud.tables.nodes, Handlings(Start(disk), actions);
            && (node in nodes <==> exists i | 0 <= i < |handled| :: Touches(handled[i], node))
            && (forall i: nat | FirstTouch(handled, node, i) ::
                  node in nodes && nodes[node].createdAt == handled[i].delivery.receivedAt)
            && (forall i: nat | LastTouch(handled, node, i) ::
                  node in nodes && nodes[node].lastSeenAt == handled[i].delivery.receivedAt)
  {
    hide Play, Handlings, ServeEach, Touches;
    PlayServesEach(Start(disk), actions);
    NodesAreTouched(Handlings(Start(disk), actions), node);
  }

  // ----- The log -----

  /** The row of one sample, with the default quality. */
  function RowOfSample(node: string, sample: WireSample, receivedAt: int): Entry
    requires CompleteSample(sample)
  {
    Entry(Key(node, sample.channelId, sample.timestamp.value),
          Point(sample.value.value, sample.unit, if sample.quality == "" then "good" else sample.quality, receivedAt))
  }

  function RowsOfSamples(node: string, samples: seq<WireSample>, receivedAt: int): seq<Entry> {
    if samples == [] then []
    else
      (if CompleteSample(samples[0]) then [RowOfSample(node, samples[0], receivedAt)] else [])
      + RowsOfSamples(node, samples[1..], receivedAt)
  }

  /** The rows of everything admitted and committed, first handling first. */
  function RowsOf(handlings: seq<Handling>): seq<Entry> {
    if handlings == [] then []
    else
      var first := handlings[0];
      (if Admits(first.request) && first.delivery.database.Committed? then
         RowsOfSamples(first.request.body.nodeId, first.request.body.samples.value, first.delivery.receivedAt)
       else [])
      + RowsOf(handlings[1..])
  }

  lemma {:induction false} StatementsAreRows(node: string, samples: seq<WireSample>, receivedAt: int)
    ensures Statements(node, samples, receivedAt) == RowsOfSamples(node, samples, receivedAt)
  {
    if samples != [] {
      StatementsAreRows(node, samples[1..], receivedAt);
      StatementsInOrder(node, samples[..1], samples[1..], receivedAt);
      assert samples == samples[..1] + samples[1..];
      assert samples[..1][..0] == [];
      OneStatement(node, samples[0], receivedAt);
      assert samples[..1] == [samples[0]];
    }
  }

  lemma OneStatement(node: string, sample: WireSample, receivedAt: int)
    ensures Statements(node, [sample], receivedAt)
         == if CompleteSample(sample) then [RowOfSample(node, sample, receivedAt)] else []
  {
    assert [sample][..0] == [];
  }

  lemma {:induction false} RowsOfAppend(a: seq<Handling>, b: seq<Handling>)
    ensures RowsOf(a + b) == RowsOf(a) + RowsOf(b)
  {
    hide RowsOfSamples, Admits;
    if a == [] {
      assert a + b == b;
    } else {
      assert (a + b)[1..] == a[1..] + b;
      RowsOfAppend(a[1..], b);
    }
  }

  lemma ServeLogs(cloud: Cloud, handling: Handling)
    ensures Serve(cloud, handling.request, handling.delivery).log == cloud.log + RowsOf([handling])
  {
    hide RowsOfSamples, Statements, Handled;
    AuthorizedIff(handling.request);
    assert [handling][1..] == [];
    if Admits(handling.request) {
      StatementsAreRows(handling.request.body.nodeId, handling.request.body.samples.value, handling.delivery.receivedAt);
    }
  }

  lemma {:induction false} LogIsRows(cloud: Cloud, handlings: seq<Handling>)
    ensures ServeEach(cloud, handlings).log == cloud.log + RowsOf(handlings)
  {
    hide Serve;
    if handlings == [] {
      assert cloud.log + [] == cloud.log;
    } else {
      hide RowsOf;
      var n := |handlings| - 1;
      LogIsRows(cloud, handlings[..n]);
      ServeLogs(ServeEach(cloud, handlings[..n]), handlings[n]);
      RowsOfAppend(handlings[..n], [handlings[n]]);
      assert handlings == handlings[..n] + [handlings[n]];
    }
  }

  /**
   * The log in every run of the system is, in order, the rows of the complete samples of everything
   * the Worker admitted and committed, field by field.
   */
  lemma LogIsWhatWasHandled(disk: Table, actions: seq<Action>)
    requires ValidActions(actions)
    ensures Play(Start(disk), actions).cloud.log == RowsOf(Handlings(Start(disk), actions))
  {
    hide Play, Handlings, ServeEach, RowsOf;
    PlayServesEach(Start(disk), actions);
    LogIsRows(EmptyCloud(), Handlings(Start(disk), actions));
    assert [] + RowsOf(Handlings(Start(disk), actions)) == RowsOf(Handlings(Start(disk), actions));
  }
}
