/** The edge and the Worker as one system: every action of either, with any network in between. */
module Systems {
  import opened Protocol
  import opened Traces
  import opened LocalStores
  import opened Workers
  import opened Pipelines
  import opened EdgeRuns

  // ----- The cloud -----

  /** The Worker's tables and every entry it has ever inserted or found present. */
  datatype Cloud = Cloud(tables: Tables, log: seq<Entry>)

  function EmptyCloud(): Cloud {
    Cloud(Tables(map[], map[]), [])
  }

  function Serve(cloud: Cloud, request: Request, delivery: Delivery): Cloud {
    Cloud(Handled(cloud.tables, request, delivery),
          cloud.log + if delivery.database.Committed? then StatementsOf(request, delivery.receivedAt) else [])
  }

  function ServeAll(cloud: Cloud, request: Request, deliveries: seq<Delivery>): Cloud {
    if deliveries == [] then cloud
    else Serve(ServeAll(cloud, request, deliveries[..|deliveries| - 1]), request, deliveries[|deliveries| - 1])
  }

  /** What the POSTs in a stretch of the edge's trace do to the cloud before they are answered. */
  function ServeEvents(cloud: Cloud, events: seq<Event>): Cloud {
    if events == [] then cloud
    else
      var before, last := ServeEvents(cloud, events[..|events| - 1]), events[|events| - 1];
      if last.Posted? then ServeAll(before, last.request, last.outcome.deliveries) else before
  }

  // ----- The system -----

  /** A step of the edge, or the arrival of any request at all: a late duplicate or another client's. */
  datatype Action = Edge(step: Step) | Arrive(request: Request, delivery: Delivery)

  datatype System = System(edge: Pipelines.Edge, cloud: Cloud)

  function StepsOf(actions: seq<Action>): seq<Step> {
    if actions == [] then []
    else
      var last := actions[|actions| - 1];
      StepsOf(actions[..|actions| - 1]) + if last.Edge? then [last.step] else []
  }

  predicate ValidActions(actions: seq<Action>) {
    forall i | 0 <= i < |actions| && actions[i].Edge? :: ValidStep(actions[i].step)
  }

  function Act(s: System, action: Action): System
    requires action.Edge? ==> ValidStep(action.step)
  {
    match action
    case Edge(step) =>
      var after := EdgeRuns.Apply(s.edge, step);
      System(after, if |s.edge.trace| <= |after.trace| then ServeEvents(s.cloud, after.trace[|s.edge.trace|..]) else s.cloud)
    case Arrive(request, delivery) => s.(cloud := Serve(s.cloud, request, delivery))
  }

  function Play(s: System, actions: seq<Action>): System
    requires ValidActions(actions)
  {
    if actions == [] then s else Act(Play(s, actions[..|actions| - 1]), actions[|actions| - 1])
  }

  function Start(disk: Table): System {
    System(Constructed(disk), EmptyCloud())
  }

  lemma {:induction false} StepsAreValid(actions: seq<Action>)
    requires ValidActions(actions)
    ensures ValidSteps(StepsOf(actions))
  {
    if actions != [] {
      StepsAreValid(actions[..|actions| - 1]);
    }
  }

  lemma {:induction false} EdgeOfPlay(s: System, actions: seq<Action>)
    requires ValidActions(actions)
    ensures ValidSteps(StepsOf(actions)) && Play(s, actions).edge == Run(s.edge, StepsOf(actions))
  {
    StepsAreValid(actions);
    if actions != [] {
      var n := |actions| - 1;
      EdgeOfPlay(s, actions[..n]);
      if actions[n].Edge? {
        assert StepsOf(actions)[..|StepsOf(actions)| - 1] == StepsOf(actions[..n]);
      } else {
        assert StepsOf(actions) == StepsOf(actions[..n]);
      }
    }
  }

  // ----- The table of points -----

  /** The log has only grown, no row of `small` has changed in `large`, and no node has lost its creation time. */
  ghost predicate Extends(small: Cloud, large: Cloud) {
    && small.log <= large.log
    && (forall k | k in small.tables.points ::
          k in large.tables.points && large.tables.points[k] == small.tables.points[k])
    && (forall n | n in small.tables.nodes ::
          n in large.tables.nodes && large.tables.nodes[n].createdAt == small.tables.nodes[n].createdAt)
  }

  predicate Complete(entry: Entry) {
    entry.key.nodeId != "" && entry.key.channelId != "" && entry.point.unit != ""
  }

  /** The table holds the first entry per key, only for registered nodes, and all entries are complete. */
  ghost predicate TableIsFirst(cloud: Cloud) {
    && FirstOccurrences(cloud.tables.points, cloud.log)
    && (forall k | k in cloud.tables.points :: k.nodeId in cloud.tables.nodes)
    && (forall i | 0 <= i < |cloud.log| :: Complete(cloud.log[i]))
  }

  lemma StatementsAreOfNode(request: Request, now: int)
    ensures forall e | e in StatementsOf(request, now) ::
              Authorized(request) && HasBatch(request.body) && e.key.nodeId == request.body.nodeId && Complete(e)
  {
    if Authorized(request) && HasBatch(request.body) {
      StatementsCover(request.body.nodeId, request.body.samples.value, now);
    }
  }

  lemma ServeKeepsFirst(cloud: Cloud, request: Request, delivery: Delivery)
    requires TableIsFirst(cloud)
    ensures TableIsFirst(Serve(cloud, request, delivery))
  {
    hide StatementsOf, FirstOccurrences, InsertAll;
    var entries := StatementsOf(request, delivery.receivedAt);
    InsertAllGrows(cloud.tables.points, entries);
    InsertAllKeepsFirst(cloud.tables.points, cloud.log, entries);
    StatementsAreOfNode(request, delivery.receivedAt);
    assert cloud.log + [] == cloud.log;
    if !Authorized(request) || !HasBatch(request.body) {
      NoStatements(request, delivery.receivedAt);
    } else if delivery.database.NodeFailed? {
      assert Serve(cloud, request, delivery).tables == cloud.tables;
    }
  }

  lemma NoStatements(request: Request, now: int)
    requires !Authorized(request) || !HasBatch(request.body)
    ensures StatementsOf(request, now) == []
  {
  }

  lemma ServeGrows(cloud: Cloud, request: Request, delivery: Delivery)
    ensures Extends(cloud, Serve(cloud, request, delivery))
    ensures TableIsFirst(cloud) ==> TableIsFirst(Serve(cloud, request, delivery))
    ensures Status(request, delivery.database) == 202 ==>
              forall e | e in StatementsOf(request, delivery.receivedAt) :: e in Serve(cloud, request, delivery).log
  {
    InsertAllGrows(cloud.tables.points, StatementsOf(request, delivery.receivedAt));
    if TableIsFirst(cloud) {
      ServeKeepsFirst(cloud, request, delivery);
    }
    if Authorized(request) && HasBatch(request.body) {
      StatementsIgnoreClock(request.body.nodeId, request.body.samples.value, delivery.receivedAt, 0);
    }
  }

  lemma {:induction false} ServeAllGrows(cloud: Cloud, request: Request, deliveries: seq<Delivery>)
    ensures var after := ServeAll(cloud, request, deliveries);
            && Extends(cloud, after)
            && (TableIsFirst(cloud) ==> TableIsFirst(after))
            && forall d, e | 0 <= d < |deliveries| && Status(request, deliveries[d].database) == 202
                             && e in StatementsOf(request, deliveries[d].receivedAt) ::
                 e in after.log
  {
    if deliveries != [] {
      var n := |deliveries| - 1;
      ServeAllGrows(cloud, request, deliveries[..n]);
      ServeGrows(ServeAll(cloud, request, deliveries[..n]), request, deliveries[n]);
    }
  }

  lemma {:induction false} ServeEventsGrows(cloud: Cloud, events: seq<Event>)
    ensures var after := ServeEvents(cloud, events);
            Extends(cloud, after) && (TableIsFirst(cloud) ==> TableIsFirst(after))
  {
    if events != [] {
      var n := |events| - 1;
      ServeEventsGrows(cloud, events[..n]);
      if events[n].Posted? {
        ServeAllGrows(ServeEvents(cloud, events[..n]), events[n].request, events[n].outcome.deliveries);
      }
    }
  }

  lemma {:induction false} PlayGrows(s: System, actions: seq<Action>)
    requires ValidActions(actions)
    ensures Extends(s.cloud, Play(s, actions).cloud)
    ensures TableIsFirst(s.cloud) ==> TableIsFirst(Play(s, actions).cloud)
  {
    if actions != [] {
      var n := |actions| - 1;
      PlayGrows(s, actions[..n]);
      var before := Play(s, actions[..n]);
      match actions[n]
      case Edge(step) =>
        var after := EdgeRuns.Apply(before.edge, step);
        if |before.edge.trace| <= |after.trace| {
          ServeEventsGrows(before.cloud, after.trace[|before.edge.trace|..]);
        }
      case Arrive(request, delivery) =>
        ServeGrows(before.cloud, request, delivery);
    }
  }

  /**
   * Exactly-once effect, with no assumption about the network at all: after any actions the table
   * holds, for each key, exactly the first entry the Worker ever handled, every row belongs to a
   * registered node, and no row written before has changed.
   */
  lemma TableHoldsFirstOccurrences(disk: Table, actions: seq<Action>, more: seq<Action>)
    requires ValidActions(actions) && ValidActions(more)
    ensures var now, later := Play(Start(disk), actions), Play(Play(Start(disk), actions), more);
            && FirstOccurrences(later.cloud.tables.points, later.cloud.log)
            && (forall k | k in later.cloud.tables.points :: k.nodeId in later.cloud.tables.nodes)
            && Extends(now.cloud, later.cloud)
  {
    PlayGrows(Start(disk), actions);
    PlayGrows(Play(Start(disk), actions), more);
  }
}
