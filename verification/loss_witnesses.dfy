/** Concrete runs over an honest network in which an accepted sample does not reach the Worker's table. */
module LossWitnesses {
  import opened Options
  import opened Samples
  import opened LocalStores
  import opened Protocol
  import opened Traces
  import opened HttpUploaders
  import opened Workers
  import opened Pipelines
  import opened EdgeRuns
  import opened Systems
  import opened Deliveries
  import opened Witnesses

  const SERVED := Delivery(0, Committed)
  const SERVED_POST := PostOutcome([SERVED], HttpResponse(202, ""))

  function ServedTick(samples: seq<Sample>): TickInput {
    TickAt(0, samples, SERVED_POST, true, 0)
  }

  function ServedRequest(samples: seq<Sample>): Request {
    RequestOf(Target("n", "key"), StoredAll(samples))
  }

  function ServedEvent(samples: seq<Sample>): Event {
    Posted(FlushPost, StoredAll(samples), ServedRequest(samples), SERVED_POST, 0, 0)
  }

  /** The first tick sends what it polls and forgets it. */
  lemma FirstFlushServed(samples: seq<Sample>)
    requires 1 <= |samples| <= 10
    ensures var e := Tick(Begun(), ServedTick(samples));
            && e.ring.items == [] && e.store.table.rows == []
            && e.trace == [Reconfigured([])] + Polls(samples) + [ServedEvent(samples)]
  {
    hide RequestOf, FromSample, AfterPolls;
    var input := ServedTick(samples);
    var polled := AfterPolls(Begun(), input);
    FirstPolls(input, samples);
    assert FlushAttempt(polled, input.flush) == Attempt(Accepted, StoreStep(Some(polled.store), [ServedEvent(samples)]));
    var flushed := AfterFlush(polled, input.flush);
    assert flushed.ring.items == [] && flushed.store == Store(true, NO_ROWS);
    assert !Retries(flushed, input.retry);
  }

  function Actions(samples: seq<Sample>): seq<Action> {
    [Action.Edge(Reloaded(CONFIG, FOUND)), Action.Edge(Ticked(ServedTick(samples)))]
  }

  lemma {:induction false} PollsServeNothing(cloud: Cloud, samples: seq<Sample>)
    ensures ServeEvents(cloud, Polls(samples)) == cloud
  {
    if samples != [] {
      assert Polls(samples)[..|samples| - 1] == Polls(samples[..|samples| - 1]);
      PollsServeNothing(cloud, samples[..|samples| - 1]);
    }
  }

  /** What the system is after the two actions. */
  function Outcome(samples: seq<Sample>): System {
    System(Tick(Begun(), ServedTick(samples)), Serve(EmptyCloud(), ServedRequest(samples), SERVED))
  }

  lemma ActionsServe(samples: seq<Sample>)
    requires 1 <= |samples| <= 10
    ensures ValidActions(Actions(samples)) && Play(Start(NO_ROWS), Actions(samples)) == Outcome(samples)
  {
    hide Tick, Reconfigure, FromSample, RequestOf, Serve, ServedTick;
    BegunIs();
    FirstFlushServed(samples);
    var actions := Actions(samples);
    var configured := System(Begun(), EmptyCloud());
    assert actions[..1][..0] == [] && actions[..1][0] == actions[0];
    assert Act(Start(NO_ROWS), actions[0]) == configured by {
      assert Begun().trace[0..] == [Reconfigured([])];
      assert [Reconfigured([])][..0] == [];
    }
    assert Play(Start(NO_ROWS), actions[..1]) == configured;
    ServesOnePost(samples);
  }

  lemma ServesOnePost(samples: seq<Sample>)
    requires 1 <= |samples| <= 10
    ensures Act(System(Begun(), EmptyCloud()), Action.Edge(Ticked(ServedTick(samples)))) == Outcome(samples)
  {
    hide Tick, FromSample, RequestOf, Serve, ServedTick;
    FirstFlushServed(samples);
    var after := Tick(Begun(), ServedTick(samples));
    var since := after.trace[1..];
    assert since == Polls(samples) + [ServedEvent(samples)];
    assert since[..|samples|] == Polls(samples) && since[|samples|] == ServedEvent(samples);
    PollsServeNothing(EmptyCloud(), samples);
    assert SERVED_POST.deliveries[..0] == [];
    assert ServeAll(EmptyCloud(), ServedRequest(samples), SERVED_POST.deliveries)
           == Serve(EmptyCloud(), ServedRequest(samples), SERVED);
  }

  lemma ServedIsHonest(samples: seq<Sample>)
    requires 1 <= |samples| <= 10
    ensures var s := Outcome(samples);
            && AllHonest(s.edge.trace) && |s.edge.trace| == |samples| + 2
            && s.edge.trace[|samples| + 1] == ServedEvent(samples) && IsAccepted(ServedEvent(samples))
            && s.edge.ring.items == [] && s.edge.store.table.rows == []
  {
    hide Tick, FromSample, WireOf, Serve;
    FirstFlushServed(samples);
    assert Status(ServedRequest(samples), SERVED_POST.deliveries[0].database) == 202;
  }

  /** The wire form of a reading with a channel id and a unit that fit. */
  lemma WireOfReading(sample: Sample)
    requires |sample.channelId| < 64 && '\0' !in sample.channelId
    requires |sample.unit| < 32 && '\0' !in sample.unit
    ensures WireOf(FromSample(sample, Normal))
         == WireSample(sample.channelId, Some(TruncDiv(sample.timestamp, SECOND)), Some(sample.value), sample.unit,
                       QualityToString(sample.quality))
  {
    CopyOfShortText(Blank(64), sample.channelId);
    CopyOfShortText(Blank(32), sample.unit);
  }

  const UNITLESS := Sample("t", 20.0, 0, "", Good)

  /** A sample without a unit: its POST is answered 202 and the edge forgets it, but the Worker skips it. */
  lemma UnitlessIsSkipped()
    ensures ValidActions(Actions([UNITLESS]))
    ensures var s, sample := Play(Start(NO_ROWS), Actions([UNITLESS])), FromSample(UNITLESS, Normal);
            && AllHonest(s.edge.trace) && |s.edge.trace| == 3
            && IsAccepted(s.edge.trace[2]) && sample in s.edge.trace[2].batch
            && s.edge.ring.items == [] && s.edge.store.table.rows == []
            && s.cloud.log == [] && s.cloud.tables.points == map[]
  {
    hide Tick, FromSample, Play, WireOf;
    var batch := StoredAll([UNITLESS]);
    ActionsServe([UNITLESS]);
    ServedIsHonest([UNITLESS]);
    WireOfReading(UNITLESS);
    assert batch[0] == FromSample(UNITLESS, Normal) && batch[0] in batch;
    assert WireAll(batch)[..0] == [] && WireAll(batch)[0] == WireOf(batch[0]);
    assert Statements("n", WireAll(batch), 0) == [];
  }

  const EARLY := Sample("t", 20.0, 0, "C", Good)
  const LATE := Sample("t", 21.0, 500_000_000, "C", Good)

  /** The entries of two readings of one channel within one second have one key. */
  lemma StatementsCollide()
    ensures var batch, key := StoredAll([EARLY, LATE]), Key("n", "t", 0);
            Statements("n", WireAll(batch), 0)
            == [Entry(key, Point(20.0, "C", "good", 0)), Entry(key, Point(21.0, "C", "good", 0))]
  {
    hide FromSample, WireOf;
    var wires := WireAll(StoredAll([EARLY, LATE]));
    WireOfReading(EARLY);
    WireOfReading(LATE);
    assert wires[0] == WireOf(FromSample(EARLY, Normal)) && wires[1] == WireOf(FromSample(LATE, Normal));
    assert wires[..1][..0] == [] && wires[..1][0] == wires[0];
    assert Statements("n", wires[..1][..0], 0) == [];
    assert Statements("n", wires[..1], 0) == [EntryOf("n", wires[0], 0)];
  }

  /**
   * Two readings of one channel within a second, as any rate above 1 Hz gives: the POST is answered
   * 202 and the edge forgets both, both are logged, but the table carries only the first.
   */
  lemma SameSecondIsLost()
    ensures ValidActions(Actions([EARLY, LATE]))
    ensures var s := Play(Start(NO_ROWS), Actions([EARLY, LATE]));
            var first, second := FromSample(EARLY, Normal), FromSample(LATE, Normal);
            && AllHonest(s.edge.trace) && |s.edge.trace| == 4
            && IsAccepted(s.edge.trace[3]) && s.edge.trace[3].batch == [first, second]
            && s.edge.ring.items == [] && s.edge.store.table.rows == []
            && Carried(s.cloud, "n", first)
            && Recorded(s.cloud, "n", second) && !Carried(s.cloud, "n", second)
  {
    hide Tick, FromSample, Play, WireOf, Statements;
    ActionsServe([EARLY, LATE]);
    ServedIsHonest([EARLY, LATE]);
    StatementsCollide();
    WireOfReading(EARLY);
    WireOfReading(LATE);
    var batch, key := StoredAll([EARLY, LATE]), Key("n", "t", 0);
    var cloud := Outcome([EARLY, LATE]).cloud;
    var entries := Statements("n", WireAll(batch), 0);
    assert StatementsOf(ServedRequest([EARLY, LATE]), 0) == entries;
    assert cloud.log == entries;
    assert InsertAll(map[], entries[..1][..0]) == map[];
    assert InsertAll(map[], entries[..1]) == map[key := entries[0].point];
    assert cloud.tables.points == map[key := entries[0].point];
    assert IsEntryOf(cloud.log[1], "n", FromSample(LATE, Normal));
  }
}
