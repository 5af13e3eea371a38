/** The ingress Worker: node upsert and insert-if-absent of a batch into the two D1 tables. */
module Workers {
  import opened Options
  import opened Protocol

  datatype Node = Node(createdAt: int, lastSeenAt: int)

  datatype Key = Key(nodeId: string, channelId: string, timestamp: int)

  datatype Point = Point(value: real, unit: string, quality: string, receivedAt: int)

  /** A row offered to `telemetry_points`. */
  datatype Entry = Entry(key: Key, point: Point)

  datatype Tables = Tables(nodes: map<string, Node>, points: map<Key, Point>)

  predicate WellFormed(sample: WireSample) {
    sample.channelId != "" && sample.timestamp.Some? && sample.value.Some? && sample.unit != ""
  }

  function KeyOf(nodeId: string, sample: WireSample): Key
    requires WellFormed(sample)
  {
    Key(nodeId, sample.channelId, sample.timestamp.value)
  }

  function EntryOf(nodeId: string, sample: WireSample, receivedAt: int): Entry
    requires WellFormed(sample)
  {
    Entry(KeyOf(nodeId, sample),
          Point(sample.value.value, sample.unit, if sample.quality == "" then "good" else sample.quality, receivedAt))
  }

  /** The statements that a batch of samples turns into; ill-formed samples are skipped. */
  function Statements(nodeId: string, samples: seq<WireSample>, receivedAt: int): seq<Entry> {
    if samples == [] then []
    else
      var last := samples[|samples| - 1];
      Statements(nodeId, samples[..|samples| - 1], receivedAt)
      + if WellFormed(last) then [EntryOf(nodeId, last, receivedAt)] else []
  }

  predicate Authorized(request: Request) {
    request.authorization.Some? && "Bearer " <= request.authorization.value
  }

  predicate HasBatch(body: Body) {
    body.Json? && body.nodeId != "" && body.samples.Some?
  }

  function StatementsOf(request: Request, receivedAt: int): seq<Entry> {
    if Authorized(request) && HasBatch(request.body) then
      Statements(request.body.nodeId, request.body.samples.value, receivedAt)
    else []
  }

  /** The status the Worker answers with; an exception of the database surfaces as 500. */
  function Status(request: Request, database: Database): int {
    if !Authorized(request) then 401
    else if !HasBatch(request.body) then 400
    else if database.NodeFailed? then 500
    else if database.BatchFailed? && StatementsOf(request, 0) != [] then 500
    else 202
  }

  function InsertAbsent(points: map<Key, Point>, entry: Entry): map<Key, Point> {
    if entry.key in points then points else points[entry.key := entry.point]
  }

  function InsertAll(points: map<Key, Point>, entries: seq<Entry>): map<Key, Point> {
    if entries == [] then points
    else InsertAbsent(InsertAll(points, entries[..|entries| - 1]), entries[|entries| - 1])
  }

  function Upserted(nodes: map<string, Node>, nodeId: string, now: int): map<string, Node> {
    nodes[nodeId := Node(if nodeId in nodes then nodes[nodeId].createdAt else now, now)]
  }

  function Handled(tables: Tables, request: Request, delivery: Delivery): Tables {
    if !Authorized(request) || !HasBatch(request.body) || delivery.database.NodeFailed? then tables
    else
      var entries := StatementsOf(request, delivery.receivedAt);
      Tables(Upserted(tables.nodes, request.body.nodeId, delivery.receivedAt),
             if delivery.database.Committed? then InsertAll(tables.points, entries) else tables.points)
  }

  // ----- First occurrences -----

  /** Entry `i` is the first of the log with its key. */
  ghost predicate IsFirst(log: seq<Entry>, i: nat)
    requires i < |log|
  {
    forall j | 0 <= j < i :: log[j].key != log[i].key
  }

  /** The table holds exactly the first entry of the log for each key. */
  ghost predicate FirstOccurrences(points: map<Key, Point>, log: seq<Entry>) {
    && (forall i: nat | i < |log| && IsFirst(log, i) :: log[i].key in points && points[log[i].key] == log[i].point)
    && (forall k | k in points :: exists i: nat :: i < |log| && IsFirst(log, i) && log[i].key == k)
  }

  lemma {:induction false} EveryKeyHasFirst(log: seq<Entry>, i: nat) returns (first: nat)
    requires i < |log|
    ensures first <= i && log[first].key == log[i].key && IsFirst(log, first)
    decreases i
  {
    if IsFirst(log, i) {
      first := i;
    } else {
      var j :| 0 <= j < i && log[j].key == log[i].key;
      first := EveryKeyHasFirst(log, j);
    }
  }

  lemma FirstInPrefix(log: seq<Entry>, entry: Entry, i: nat)
    requires i < |log|
    ensures IsFirst(log + [entry], i) <==> IsFirst(log, i)
  {
    var longer := log + [entry];
    assert longer[i] == log[i] && forall j | 0 <= j < i :: longer[j] == log[j];
  }

  /** A new entry is the first with its key exactly when the table does not hold the key. */
  lemma NewIsFirst(points: map<Key, Point>, log: seq<Entry>, entry: Entry)
    requires FirstOccurrences(points, log)
    ensures IsFirst(log + [entry], |log|) <==> entry.key !in points
  {
    var longer := log + [entry];
    if entry.key in points {
      var i: nat :| i < |log| && IsFirst(log, i) && log[i].key == entry.key;
      assert longer[i].key == longer[|log|].key;
    } else {
      forall j: nat | j < |log| ensures log[j].key != entry.key {
        var first := EveryKeyHasFirst(log, j);
      }
    }
  }

  lemma InsertKeepsFirst(points: map<Key, Point>, log: seq<Entry>, entry: Entry)
    requires FirstOccurrences(points, log)
    ensures FirstOccurrences(InsertAbsent(points, entry), log + [entry])
  {
    hide IsFirst;
    var longer, after := log + [entry], InsertAbsent(points, entry);
    NewIsFirst(points, log, entry);
    forall i: nat | i < |longer| && IsFirst(longer, i)
      ensures longer[i].key in after && after[longer[i].key] == longer[i].point
    {
      if i < |log| {
        FirstInPrefix(log, entry, i);
      }
    }
    forall k | k in after ensures exists i: nat :: i < |longer| && IsFirst(longer, i) && longer[i].key == k {
      if k in points {
        var i: nat :| i < |log| && IsFirst(log, i) && log[i].key == k;
        FirstInPrefix(log, entry, i);
        assert IsFirst(longer, i) && longer[i].key == k;
      } else {
        assert IsFirst(longer, |log|) && longer[|log|].key == k;
      }
    }
  }

  lemma {:induction false} InsertAllKeepsFirst(points: map<Key, Point>, log: seq<Entry>, entries: seq<Entry>)
    requires FirstOccurrences(points, log)
    ensures FirstOccurrences(InsertAll(points, entries), log + entries)
  {
    hide FirstOccurrences, InsertAbsent;
    if entries == [] {
      assert log + entries == log;
    } else {
      var n := |entries| - 1;
      InsertAllKeepsFirst(points, log, entries[..n]);
      InsertKeepsFirst(InsertAll(points, entries[..n]), log + entries[..n], entries[n]);
      assert log + entries[..n] + [entries[n]] == log + entries;
    }
  }

  lemma {:induction false} InsertAllGrows(points: map<Key, Point>, entries: seq<Entry>)
    ensures forall k | k in points :: k in InsertAll(points, entries) && InsertAll(points, entries)[k] == points[k]
    ensures forall e | e in entries :: e.key in InsertAll(points, entries)
    ensures forall k | k in InsertAll(points, entries) :: k in points || exists e :: e in entries && e.key == k
  {
    if entries != [] {
      var n := |entries| - 1;
      InsertAllGrows(points, entries[..n]);
      assert entries == entries[..n] + [entries[n]];
      forall k | k in InsertAll(points, entries) && k !in points ensures exists e :: e in entries && e.key == k {
        if k in InsertAll(points, entries[..n]) {
          var e :| e in entries[..n] && e.key == k;
          assert e in entries;
        } else {
          assert entries[n] in entries && entries[n].key == k;
        }
      }
    }
  }

  class Worker {
    var nodes: map<string, Node>
    var points: map<Key, Point>

    ghost function View(): Tables
      reads this
    {
      Tables(nodes, points)
    }

    method HandleTelemetry(request: Request, delivery: Delivery) returns (status: int)
      modifies this
      ensures status == Status(request, delivery.database)
      ensures View() == Handled(old(View()), request, delivery)
    {
      if request.authorization == None || !("Bearer " <= request.authorization.value) {
        return 401;
      }
      if request.body.Malformed? {
        return 400;
      }
      var nodeId, payload := request.body.nodeId, request.body.samples;
      if nodeId == "" || payload == None {
        return 400;
      }
      if delivery.database.NodeFailed? {
        return 500;
      }
      var now := delivery.receivedAt;
      nodes := nodes[nodeId := Node(if nodeId in nodes then nodes[nodeId].createdAt else now, now)];

      var samples := payload.value;
      var statements := [];
      for i := 0 to |samples|
        invariant statements == Statements(nodeId, samples[..i], now)
      {
        assert samples[..i + 1][..i] == samples[..i];
        var sample := samples[i];
        if !(sample.channelId == "" || sample.timestamp == None || sample.value == None || sample.unit == "") {
          statements := statements + [EntryOf(nodeId, sample, now)];
        }
      }
      assert samples[..|samples|] == samples;
      StatementsIgnoreClock(nodeId, samples, now, 0);
      assert statements == StatementsOf(request, now);
      assert nodes == Upserted(old(nodes), nodeId, now);
      if |statements| > 0 {
        if delivery.database.BatchFailed? {
          return 500;
        }
        for i := 0 to |statements|
          invariant nodes == Upserted(old(nodes), nodeId, now)
          invariant points == InsertAll(old(points), statements[..i])
        {
          assert statements[..i + 1][..i] == statements[..i];
          if statements[i].key !in points {
            points := points[statements[i].key := statements[i].point];
          }
        }
        assert statements[..|statements|] == statements;
      }
      return 202;
    }
  }

  /** Whether there is anything to insert does not depend on the clock. */
  lemma {:induction false} StatementsIgnoreClock(nodeId: string, samples: seq<WireSample>, a: int, b: int)
    ensures |Statements(nodeId, samples, a)| == |Statements(nodeId, samples, b)|
  {
    if samples != [] {
      StatementsIgnoreClock(nodeId, samples[..|samples| - 1], a, b);
    }
  }

  /** The statements of a batch are those of its well-formed samples. */
  lemma {:induction false} StatementsCover(nodeId: string, samples: seq<WireSample>, now: int)
    ensures forall i | 0 <= i < |samples| && WellFormed(samples[i]) ::
              EntryOf(nodeId, samples[i], now) in Statements(nodeId, samples, now)
    ensures forall e | e in Statements(nodeId, samples, now) ::
              exists i :: 0 <= i < |samples| && WellFormed(samples[i]) && e == EntryOf(nodeId, samples[i], now)
  {
    if samples != [] {
      var n := |samples| - 1;
      var init := samples[..n];
      StatementsCover(nodeId, init, now);
      forall e | e in Statements(nodeId, samples, now)
        ensures exists i :: 0 <= i < |samples| && WellFormed(samples[i]) && e == EntryOf(nodeId, samples[i], now)
      {
        if e in Statements(nodeId, init, now) {
          var i :| 0 <= i < |init| && WellFormed(init[i]) && e == EntryOf(nodeId, init[i], now);
          assert samples[i] == init[i];
        } else {
          assert WellFormed(samples[n]) && e == EntryOf(nodeId, samples[n], now);
        }
      }
      forall i | 0 <= i < |samples| && WellFormed(samples[i])
        ensures EntryOf(nodeId, samples[i], now) in Statements(nodeId, samples, now)
      {
        if i < n {
          assert samples[i] == init[i];
        }
      }
    }
  }

  /** The statements of two batches are those of the first, then those of the second. */
  lemma {:induction false} StatementsInOrder(nodeId: string, a: seq<WireSample>, b: seq<WireSample>, now: int)
    ensures Statements(nodeId, a + b, now) == Statements(nodeId, a, now) + Statements(nodeId, b, now)
  {
    if b == [] {
      assert a + b == a;
    } else {
      assert (a + b)[..|a + b| - 1] == a + b[..|b| - 1];
      StatementsInOrder(nodeId, a, b[..|b| - 1], now);
    }
  }
}
