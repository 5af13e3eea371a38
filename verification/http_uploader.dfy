/** What travels between the edge and the Worker. */
module Protocol {
  import opened Clocks
  import opened Options
  import opened Samples
  import opened LocalStores

  /**
   * A sample of a JSON payload. Missing or falsy members are "" or None; a timestamp, an ISO text
   * of whole seconds, is modelled by those seconds.
   */
  datatype WireSample = WireSample(channelId: string, timestamp: Option<int>, value: Option<real>,
                                   unit: string, quality: string)

  /** A request body: no JSON at all, or an object whose `samples` member may not be an array. */
  datatype Body = Malformed | Json(nodeId: string, samples: Option<seq<WireSample>>)

  datatype Request = Request(authorization: Option<string>, body: Body)

  datatype HttpResponse = HttpResponse(statusCode: int, error: string)

  /** How the database of the Worker behaves while one request is handled. */
  datatype Database = Committed | NodeFailed | BatchFailed

  /** One arrival of a request at the Worker. */
  datatype Delivery = Delivery(receivedAt: int, database: Database)

  /**
   * What becomes of a POST: the deliveries that happen before the client has its answer (none when
   * the request is lost) and that answer, whatever it is.
   */
  datatype PostOutcome = PostOutcome(deliveries: seq<Delivery>, response: HttpResponse)

  datatype UploadResult = Accepted | Rejected | TransientFailure

  function InterpretResponse(response: HttpResponse): (result: UploadResult)
    ensures result.Accepted? <==> response.error == "" && response.statusCode in {200, 202}
    ensures result.Rejected? <==> response.error == "" && response.statusCode == 400
  {
    if response.error != "" || response.statusCode == 0 then TransientFailure
    else if response.statusCode == 202 || response.statusCode == 200 then Accepted
    else if response.statusCode == 400 then Rejected
    else if response.statusCode == 401 || response.statusCode == 503 || response.statusCode >= 500 then
      TransientFailure
    else TransientFailure
  }

  /** Where an uploader sends its batches. */
  datatype Target = Target(nodeId: string, apiKey: string)

  function WireOf(sample: StoredSample): WireSample {
    WireSample(CString(sample.channelId), Some(TruncDiv(sample.timestamp, NANOS_PER_SECOND)), Some(sample.value),
               CString(sample.unit), QualityToString(sample.quality))
  }

  function WireAll(samples: seq<StoredSample>): seq<WireSample> {
    seq(|samples|, i requires 0 <= i < |samples| => WireOf(samples[i]))
  }

  function RequestOf(target: Target, samples: seq<StoredSample>): Request {
    Request(if target.apiKey == "" then None else Some("Bearer " + target.apiKey),
            Json(target.nodeId, Some(WireAll(samples))))
  }

  /** The whole seconds of a timestamp, cut toward the epoch. */
  predicate InSeconds(seconds: int, timestamp: int) {
    if timestamp >= 0 then seconds * 1_000_000_000 <= timestamp < (seconds + 1) * 1_000_000_000
    else (seconds - 1) * 1_000_000_000 < timestamp <= seconds * 1_000_000_000
  }

  /** What a payload says of a sample. */
  lemma WireFields(sample: StoredSample)
    ensures var wire := WireOf(sample);
            && wire.channelId == CString(sample.channelId) && wire.unit == CString(sample.unit)
            && wire.value == Some(sample.value)
            && wire.timestamp.Some? && InSeconds(wire.timestamp.value, sample.timestamp)
            && wire.quality == (match sample.quality case Good => "good" case Uncertain => "uncertain" case Bad => "bad")
  {
    var magnitude := if sample.timestamp >= 0 then sample.timestamp else -sample.timestamp;
    assert magnitude == magnitude / 1_000_000_000 * 1_000_000_000 + magnitude % 1_000_000_000;
  }

  /** A request names the node, carries one wire sample per sample in order, and the key as a bearer token. */
  lemma RequestFields(target: Target, samples: seq<StoredSample>)
    ensures var request := RequestOf(target, samples);
            && request.body.Json? && request.body.nodeId == target.nodeId && request.body.samples.Some?
            && |request.body.samples.value| == |samples|
            && (forall k | 0 <= k < |samples| :: request.body.samples.value[k] == WireOf(samples[k]))
            && request.authorization == if target.apiKey == "" then None else Some("Bearer " + target.apiKey)
  {
    hide WireOf;
  }

  /** A sample sent directly and the same sample sent from the store are the same on the wire. */
  lemma ReplayKeepsWire(sample: StoredSample, id: int)
    ensures WireOf(SampleOf(RowOf(id, sample))) == WireOf(sample)
    ensures WireOf(Canonical(sample)) == WireOf(sample)
  {
    StoreRoundTrip(sample, id);
    StoreRoundTrip(sample, 0);
  }
}

/** Everything observable that a run of the edge does, in order. */
module Traces {
  import opened Samples
  import opened LocalStores
  import opened Protocol

  datatype PostKind = FlushPost | RetryPost

  datatype Event =
    /** A sample read for a channel of the schedule; its own id need not be that channel's. */
    | Polled(channel: string, sample: StoredSample)
    | Overflowed(sample: StoredSample)
    /** A POST begun at clock reading `at`; `failedAt` is the reading taken if it fails. */
    | Posted(kind: PostKind, batch: seq<StoredSample>, request: Request, outcome: PostOutcome, at: int, failedAt: int)
    | Persisted(stored: Row)
    | NotPersisted(sample: StoredSample)
    | Deleted(row: PendingRow)
    /** A retry that found nothing to read and reports success without a POST. */
    | EmptyRetry
    | Reconfigured(discarded: seq<StoredSample>)

  function ResultOf(event: Event): UploadResult
    requires event.Posted?
  {
    InterpretResponse(event.outcome.response)
  }
}

/** Posts batches and falls back on the local store. */
module HttpUploaders {
  import opened Options
  import opened Samples
  import opened LocalStores
  import opened Protocol
  import opened Traces

  /** Outcome of a statement of a batch; statements past the end of the list succeed. */
  predicate Succeeds(outcomes: seq<bool>, k: nat) {
    k < |outcomes| ==> outcomes[k]
  }

  /** A store, possibly absent, after some statements, and what they did. */
  datatype StoreStep = StoreStep(store: Option<Store>, events: seq<Event>)

  function PersistOne(store: Option<Store>, sample: StoredSample, sqlOk: bool): StoreStep {
    if store.Some? && store.value.isOpen && sqlOk then
      StoreStep(Some(Inserted(store.value, sample)), [Persisted(RowOf(store.value.table.nextId, sample))])
    else StoreStep(store, [NotPersisted(sample)])
  }

  function PersistedAll(store: Option<Store>, samples: seq<StoredSample>, insertOk: seq<bool>): StoreStep {
    if samples == [] then StoreStep(store, [])
    else
      var n := |samples| - 1;
      var before := PersistedAll(store, samples[..n], insertOk);
      var last := PersistOne(before.store, samples[n], Succeeds(insertOk, n));
      StoreStep(last.store, before.events + last.events)
  }

  function AcknowledgeOne(store: Store, row: PendingRow, sqlOk: bool): StoreStep {
    if store.isOpen && sqlOk then StoreStep(Some(Acknowledged(store, row.id)), [Deleted(row)])
    else StoreStep(Some(store), [])
  }

  function AcknowledgedAll(store: Store, rows: seq<PendingRow>, deleteOk: seq<bool>): (step: StoreStep)
    ensures step.store.Some? && step.store.value.isOpen == store.isOpen
  {
    if rows == [] then StoreStep(Some(store), [])
    else
      var n := |rows| - 1;
      var before := AcknowledgedAll(store, rows[..n], deleteOk);
      var last := AcknowledgeOne(before.store.value, rows[n], Succeeds(deleteOk, n));
      StoreStep(last.store, before.events + last.events)
  }

  /** An upload attempt: its result, the store after it, and what happened. */
  datatype Attempt = Attempt(result: UploadResult, step: StoreStep)

  function UploadAttempt(target: Target, store: Option<Store>, samples: seq<StoredSample>, outcome: PostOutcome,
                  insertOk: seq<bool>, at: int, failedAt: int): Attempt
  {
    if samples == [] then Attempt(Accepted, StoreStep(store, []))
    else
      var posted := Posted(FlushPost, samples, RequestOf(target, samples), outcome, at, failedAt);
      match InterpretResponse(outcome.response)
      case Accepted => Attempt(Accepted, StoreStep(store, [posted]))
      case Rejected => Attempt(Rejected, StoreStep(store, [posted]))
      case TransientFailure =>
        var step := PersistedAll(store, samples, insertOk);
        Attempt(TransientFailure, step.(events := [posted] + step.events))
  }

  function SamplesOf(rows: seq<PendingRow>): seq<StoredSample> {
    seq(|rows|, i requires 0 <= i < |rows| => rows[i].sample)
  }

  function RetryAttempt(target: Target, store: Option<Store>, maxBatch: nat, stepped: nat, outcome: PostOutcome,
                        deleteOk: seq<bool>, at: int, failedAt: int): Attempt
  {
    if store == None then Attempt(Accepted, StoreStep(store, [EmptyRetry]))
    else
      var rows := Peeked(store.value, maxBatch, stepped);
      if rows == [] then Attempt(Accepted, StoreStep(store, [EmptyRetry]))
      else
        var samples := SamplesOf(rows);
        var posted := Posted(RetryPost, samples, RequestOf(target, samples), outcome, at, failedAt);
        var result := InterpretResponse(outcome.response);
        if !result.Accepted? then Attempt(result, StoreStep(store, [posted]))
        else
          var step := AcknowledgedAll(store.value, rows, deleteOk);
          Attempt(Accepted, step.(events := [posted] + step.events))
  }

  class HttpUploader {
    const store: LocalStore?
    const target: Target

    ghost function StoreView(): Option<Store>
      reads store
    {
      if store == null then None else Some(store.View())
    }

    constructor (store: LocalStore?, target: Target)
      ensures this.store == store && this.target == target
    {
      this.store, this.target := store, target;
    }

    method BuildRequest(samples: seq<StoredSample>) returns (request: Request)
      ensures request == RequestOf(target, samples)
    {
      var wire := [];
      for i := 0 to |samples|
        invariant wire == WireAll(samples)[..i]
      {
        wire := wire + [WireOf(samples[i])];
      }
      assert wire == WireAll(samples);
      var authorization := None;
      if target.apiKey != "" {
        authorization := Some("Bearer " + target.apiKey);
      }
      request := Request(authorization, Json(target.nodeId, Some(wire)));
    }

    method PersistAll(samples: seq<StoredSample>, insertOk: seq<bool>) returns (ok: bool, ghost events: seq<Event>)
      modifies store
      ensures StoreStep(StoreView(), events) == PersistedAll(old(StoreView()), samples, insertOk)
    {
      if store == null {
        NothingPersisted(samples, insertOk);
        return false, PersistedAll(None, samples, insertOk).events;
      }
      ok, events := true, [];
      ghost var was := StoreView();
      for i := 0 to |samples|
        invariant StoreStep(StoreView(), events) == PersistedAll(was, samples[..i], insertOk)
      {
        assert samples[..i + 1][..i] == samples[..i];
        ghost var step := PersistOne(StoreView(), samples[i], Succeeds(insertOk, i));
        var stored := store.Enqueue(samples[i], i < |insertOk| ==> insertOk[i]);
        events := events + step.events;
        if !stored {
          ok := false;
        }
      }
      assert samples[..|samples|] == samples;
    }

    method Upload(samples: seq<StoredSample>, outcome: PostOutcome, insertOk: seq<bool>, ghost at: int, ghost failedAt: int)
      returns (result: UploadResult, ghost events: seq<Event>)
      modifies store
      ensures Attempt(result, StoreStep(StoreView(), events))
           == UploadAttempt(target, old(StoreView()), samples, outcome, insertOk, at, failedAt)
    {
      if samples == [] {
        return Accepted, [];
      }
      var request := BuildRequest(samples);
      events := [Posted(FlushPost, samples, request, outcome, at, failedAt)];
      result := InterpretResponse(outcome.response);
      if result.Accepted? || result.Rejected? {
        return;
      }
      var ok; ghost var more;
      ok, more := PersistAll(samples, insertOk);
      events := events + more;
    }

    method RetryPending(maxBatch: nat, stepped: nat, outcome: PostOutcome, deleteOk: seq<bool>, ghost at: int, ghost failedAt: int)
      returns (result: UploadResult, ghost events: seq<Event>)
      modifies store
      ensures Attempt(result, StoreStep(StoreView(), events))
           == RetryAttempt(target, old(StoreView()), maxBatch, stepped, outcome, deleteOk, at, failedAt)
    {
      if store == null {
        return Accepted, [EmptyRetry];
      }
      var rows := store.PeekBatch(maxBatch, stepped);
      if rows == [] {
        return Accepted, [EmptyRetry];
      }
      var samples := [];
      for i := 0 to |rows|
        invariant samples == SamplesOf(rows)[..i]
      {
        samples := samples + [rows[i].sample];
      }
      assert samples == SamplesOf(rows);
      var request := BuildRequest(samples);
      events := [Posted(RetryPost, samples, request, outcome, at, failedAt)];
      result := InterpretResponse(outcome.response);
      if !result.Accepted? {
        return;
      }
      ghost var deletions := AcknowledgeRows(rows, deleteOk);
      events := events + deletions;
    }

    /** Deletes the rows of an accepted batch one by one, whatever becomes of each deletion. */
    method AcknowledgeRows(rows: seq<PendingRow>, deleteOk: seq<bool>) returns (ghost events: seq<Event>)
      requires store != null
      modifies store
      ensures StoreStep(StoreView(), events) == AcknowledgedAll(old(store.View()), rows, deleteOk)
    {
      events := [];
      for i := 0 to |rows|
        invariant StoreStep(StoreView(), events) == AcknowledgedAll(old(store.View()), rows[..i], deleteOk)
      {
        assert rows[..i + 1][..i] == rows[..i];
        ghost var step := AcknowledgeOne(store.View(), rows[i], Succeeds(deleteOk, i));
        var done := store.Acknowledge(rows[i].id, i < |deleteOk| ==> deleteOk[i]);
        events := events + step.events;
      }
      assert rows[..|rows|] == rows;
    }
  }

  /** Without a store nothing is written. */
  lemma {:induction false} NothingPersisted(samples: seq<StoredSample>, insertOk: seq<bool>)
    ensures PersistedAll(None, samples, insertOk).store == None
  {
    if samples != [] {
      NothingPersisted(samples[..|samples| - 1], insertOk);
    }
  }
}
