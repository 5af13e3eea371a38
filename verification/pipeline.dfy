/**
 * The edge pipeline as a state machine: what configure and tick do to the schedule, the ring
 * buffer, the upload policy, the offline store and the retry backoff, for every behaviour of the
 * clock, the drivers, the network and the database.
 */
module Pipelines {
  import opened Clocks
  import opened Options
  import opened Samples
  import opened RingBuffers
  import opened Schedulers
  import opened UploadPolicies
  import opened LocalStores
  import opened Protocol
  import opened Traces
  import opened HttpUploaders

  // ----- Environment -----

  /** What a driver returns and the clock reading taken after it. */
  datatype Reading = Reading(samples: seq<Sample>, at: int)

  /** What the `k`th poll of a tick reads; a poll past the end of the list reads nothing. */
  function ReadingOf(readings: seq<Reading>, k: nat): Reading {
    if k < |readings| then readings[k] else Reading([], 0)
  }

  /** Clock, network and database while a flush may happen. */
  datatype FlushInput = FlushInput(at: int, outcome: PostOutcome, insertOk: seq<bool>, failedAt: int)

  /** Clock, network and database while a retry may happen. */
  datatype RetryInput = RetryInput(countOk: bool, at: int, stepped: nat, outcome: PostOutcome,
                                   deleteOk: seq<bool>, failedAt: int)

  datatype TickInput = TickInput(now: int, readings: seq<Reading>, flush: FlushInput, retry: RetryInput)

  /** The clock does not run backwards within a tick. */
  predicate Monotone(input: TickInput) {
    input.now <= input.flush.at <= input.flush.failedAt <= input.retry.at <= input.retry.failedAt
  }

  // ----- State -----

  datatype Edge = Edge(maxBatchSize: int, bindings: map<string, Priority>, schedule: seq<ChannelState>,
                       hasBuffer: bool, ring: Ring, policy: Policy, storeOpen: bool, store: Store,
                       target: Option<Target>, retryAttempt: nat, nextRetryAt: int, accepted: nat,
                       trace: seq<Event>)

  /** A runtime that has not been configured, next to a database file that holds `disk`. */
  function Constructed(disk: Table): Edge {
    Edge(500, map[], [], false, EmptyRing(1), EmptyPolicy(), false, Store(false, disk), None, 0, 0, 0, [])
  }

  function MaxBatch(maxBatchSize: int): Positive {
    if maxBatchSize < 1 then 1 else maxBatchSize
  }

  function Capacity(maxBatchSize: int): Positive {
    if maxBatchSize > 0 then maxBatchSize else 500
  }

  const DELAYS_SECONDS: seq<int> := [5, 10, 30, 60, 300]

  function BackoffDelay(attempt: int): (delay: int)
    ensures delay >= 5 * NANOS_PER_SECOND
  {
    var index := if attempt - 1 < 0 then 0 else if attempt - 1 > 4 then 4 else attempt - 1;
    DELAYS_SECONDS[index] * NANOS_PER_SECOND
  }

  function AttachedStore(e: Edge): Option<Store> {
    if e.storeOpen then Some(e.store) else None
  }

  function WithStore(e: Edge, step: StoreStep): Edge {
    e.(store := if step.store.Some? then step.store.value else e.store, trace := e.trace + step.events)
  }

  function Succeeded(e: Edge): Edge {
    e.(retryAttempt := 0, nextRetryAt := 0, accepted := e.accepted + 1)
  }

  function Failed(e: Edge, at: int): Edge {
    e.(retryAttempt := e.retryAttempt + 1, nextRetryAt := at + BackoffDelay(e.retryAttempt + 1))
  }

  // ----- Polling -----

  function OverflowEvents(ring: Ring, sample: StoredSample): seq<Event> {
    match Victim(ring, sample)
    case None => []
    case Some(victim) => [Overflowed(victim)]
  }

  function PolledSample(e: Edge, id: string, priority: Priority, sample: Sample): Edge {
    var stored := FromSample(sample, priority);
    e.(ring := Enqueued(e.ring, stored),
       policy := Sampled(e.policy, id, sample.value),
       trace := e.trace + ([Polled(id, stored)] + OverflowEvents(e.ring, stored)))
  }

  function PolledSamples(e: Edge, id: string, priority: Priority, samples: seq<Sample>): Edge {
    if samples == [] then e
    else PolledSample(PolledSamples(e, id, priority, samples[..|samples| - 1]), id, priority, samples[|samples| - 1])
  }

  function PolledChannel(e: Edge, id: string, reading: Reading): Edge {
    if id in e.bindings then PolledSamples(e, id, e.bindings[id], reading.samples) else e
  }

  function PolledAll(e: Edge, ids: seq<string>, readings: seq<Reading>): Edge {
    if ids == [] then e
    else
      var n := |ids| - 1;
      PolledChannel(PolledAll(e, ids[..n], readings), ids[n], ReadingOf(readings, n))
  }

  // ----- Flush and retry -----

  predicate Flushes(e: Edge, i: FlushInput) {
    && e.target.Some? && e.hasBuffer
    && ShouldFlush(e.policy, i.at, |e.ring.items|, MaxBatch(e.maxBatchSize))
  }

  function FlushBatch(e: Edge): seq<StoredSample> {
    e.ring.items[..Min(|e.ring.items|, MaxBatch(e.maxBatchSize))]
  }

  function FlushAttempt(e: Edge, i: FlushInput): Attempt
    requires e.target.Some?
  {
    UploadAttempt(e.target.value, AttachedStore(e), FlushBatch(e), i.outcome, i.insertOk, i.at, i.failedAt)
  }

  function Drained(e: Edge): Edge {
    e.(ring := e.ring.(items := e.ring.items[|FlushBatch(e)|..]))
  }

  function Concluded(e: Edge, result: UploadResult, i: FlushInput): Edge {
    match result
    case Accepted => Succeeded(e.(policy := Flushed(e.policy, i.at)))
    case Rejected => e.(policy := Flushed(e.policy, i.at))
    case TransientFailure => Failed(e, i.failedAt)
  }

  function AfterFlush(e: Edge, i: FlushInput): Edge {
    if !Flushes(e, i) then e
    else
      var attempt := FlushAttempt(e, i);
      Concluded(WithStore(Drained(e), attempt.step), attempt.result, i)
  }

  predicate Retries(e: Edge, i: RetryInput) {
    && e.target.Some? && e.storeOpen
    && PendingCount(e.store, i.countOk) > 0
    && !(e.retryAttempt > 0 && i.at < e.nextRetryAt)
  }

  function RetryOf(e: Edge, i: RetryInput): Attempt
    requires e.target.Some?
  {
    RetryAttempt(e.target.value, AttachedStore(e), MaxBatch(e.maxBatchSize), i.stepped, i.outcome, i.deleteOk,
                 i.at, i.failedAt)
  }

  function Retried(e: Edge, result: UploadResult, i: RetryInput): Edge {
    if result.Accepted? then Succeeded(e) else Failed(e, i.failedAt)
  }

  function AfterRetry(e: Edge, i: RetryInput): Edge {
    if !Retries(e, i) then e
    else
      var attempt := RetryOf(e, i);
      Retried(WithStore(e, attempt.step), attempt.result, i)
  }

  function AfterPolls(e: Edge, input: TickInput): Edge {
    PolledAll(e.(schedule := Dispatched(e.schedule, input.now)), Due(e.schedule, input.now), input.readings)
  }

  /** One pipeline step: poll due channels, maybe flush, maybe retry. */
  function Tick(e: Edge, input: TickInput): Edge {
    if e.bindings == map[] then e
    else AfterRetry(AfterFlush(AfterPolls(e, input), input.flush), input.retry)
  }

  function NextWake(e: Edge, countOk: bool): Option<int> {
    var wake := Earliest(e.schedule);
    if e.storeOpen && PendingCount(e.store, countOk) > 0 && e.retryAttempt > 0
       && (wake == None || e.nextRetryAt < wake.value) then Some(e.nextRetryAt)
    else wake
  }

  // ----- Configuration -----

  datatype ChannelConfig = ChannelConfig(id: string, sampleRateHz: real, priority: Priority, mode: SyncMode,
                                         remoteIntervalSeconds: int, onChangeThreshold: real,
                                         destinationRemote: bool, driverKnown: bool, driverConfigures: bool)

  datatype Config = Config(nodeId: string, apiKey: string, serverUrl: string, maxBatchSize: int, storePath: string,
                           channels: seq<ChannelConfig>)

  /** What configure finds: the database file, and the clock when each channel and the schedule are set up. */
  datatype ConfigureInput = ConfigureInput(file: Table, openOk: bool, channelAt: seq<int>, scheduleAt: int)

  predicate ValidConfig(config: Config, input: ConfigureInput) {
    && |input.channelAt| == |config.channels|
    && forall c | 0 <= c < |config.channels| :: config.channels[c].sampleRateHz <= NANOS_PER_SECOND as real
  }

  /** Progress of the loop over the configured channels; `ok` turns false at the first bad driver. */
  datatype Setup = Setup(policy: Policy, entries: seq<ScheduleEntry>, bindings: map<string, Priority>, ok: bool)

  function SyncOf(c: ChannelConfig): ChannelSyncState {
    ChannelSyncState(c.id, c.mode, c.priority, c.remoteIntervalSeconds * NANOS_PER_SECOND, c.onChangeThreshold,
                     c.destinationRemote)
  }

  function SetUpChannel(s: Setup, c: ChannelConfig, at: int): Setup {
    if !s.ok || c.sampleRateHz <= 0.0 then s
    else if !c.driverKnown || !c.driverConfigures then s.(ok := false)
    else
      Setup(Configured(s.policy, SyncOf(c), at), s.entries + [ScheduleEntry(c.id, c.sampleRateHz)],
            if c.id in s.bindings then s.bindings else s.bindings[c.id := c.priority], true)
  }

  function SetUpChannels(channels: seq<ChannelConfig>, at: seq<int>): (s: Setup)
    requires |at| == |channels|
    ensures (forall c | 0 <= c < |channels| :: channels[c].sampleRateHz <= NANOS_PER_SECOND as real)
            ==> Schedulable(s.entries)
    ensures s.bindings == map[] <==> s.entries == []
  {
    if channels == [] then Setup(EmptyPolicy(), [], map[], true)
    else
      var n := |channels| - 1;
      SetUpChannel(SetUpChannels(channels[..n], at[..n]), channels[n], at[n])
  }

  /** The state once everything that configure discards or resets is gone. */
  function Emptied(e: Edge, config: Config): Edge {
    e.(maxBatchSize := config.maxBatchSize, bindings := map[], hasBuffer := true,
       ring := EmptyRing(Capacity(config.maxBatchSize)), policy := EmptyPolicy(), target := None,
       retryAttempt := 0, nextRetryAt := 0, accepted := 0, trace := e.trace + [Reconfigured(e.ring.items)])
  }

  function Reopened(e: Edge, config: Config, input: ConfigureInput): Edge {
    if config.storePath == "" then e.(storeOpen := false)
    else if input.openOk then e.(storeOpen := true, store := Store(true, input.file))
    else e.(storeOpen := false, store := e.store.(isOpen := false))
  }

  function Reset(e: Edge, config: Config, input: ConfigureInput): Edge {
    Reopened(Emptied(e, config), config, input)
  }

  predicate StoreFails(config: Config, input: ConfigureInput) {
    config.storePath != "" && !input.openOk
  }

  predicate ConfigureSucceeds(config: Config, input: ConfigureInput)
    requires ValidConfig(config, input)
  {
    !StoreFails(config, input) && SetUpChannels(config.channels, input.channelAt).ok
  }

  function Reconfigure(e: Edge, config: Config, input: ConfigureInput): Edge
    requires ValidConfig(config, input)
  {
    var cleared := Reset(e, config, input);
    if StoreFails(config, input) then cleared
    else
      var setup := SetUpChannels(config.channels, input.channelAt);
      var bound := cleared.(policy := setup.policy, bindings := setup.bindings);
      if !setup.ok then bound
      else
        bound.(schedule := Scheduled(setup.entries, input.scheduleAt),
               target := if config.serverUrl == "" then None else Some(Target(config.nodeId, config.apiKey)))
  }
}
