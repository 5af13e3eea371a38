/** The runtime that wires configuration, drivers, scheduler, ring buffer, policy, store and uploader. */
module TelemetryRuntimes {
  import opened Options
  import opened Samples
  import opened RingBuffers
  import opened Schedulers
  import opened UploadPolicies
  import opened LocalStores
  import opened Protocol
  import opened Traces
  import opened HttpUploaders
  import opened Pipelines

  class TelemetryRuntime {
    const scheduler: Scheduler
    const policy: UploadPolicy
    const store: LocalStore
    var buffer: RingBuffer?
    var uploader: HttpUploader?
    var maxBatchSize: int
    var channels: map<string, Priority>
    var retryAttempt: nat
    var nextRetryAt: int
    var acceptedUploadCount: nat
    var storeOpen: bool
    /** Everything observable that has happened so far. */
    ghost var trace: seq<Event>

    /** The slots of the current buffer, if there is one. */
    ghost function Slots(): set<object>
      reads this
    {
      if buffer == null then {} else {buffer.slots}
    }

    ghost predicate Valid()
      reads this, buffer, Slots()
    {
      && (buffer != null ==> buffer.Valid())
      && (channels != map[] ==> buffer != null)
      && (uploader != null ==> uploader.store == if storeOpen then store else null)
    }

    ghost function View(): Edge
      reads this, scheduler, policy, store, buffer
    {
      Edge(maxBatchSize, channels, scheduler.channels, buffer != null,
           if buffer == null then EmptyRing(1) else buffer.View(), policy.View(), storeOpen, store.View(),
           if uploader == null then None else Some(uploader.target), retryAttempt, nextRetryAt, acceptedUploadCount,
           trace)
    }

    constructor (disk: Table)
      ensures Valid() && buffer == null && fresh({scheduler, policy, store})
      ensures View() == Constructed(disk)
    {
      scheduler := new Scheduler();
      policy := new UploadPolicy();
      store := new LocalStore(disk);
      buffer, uploader := null, null;
      maxBatchSize, channels, storeOpen := 500, map[], false;
      retryAttempt, nextRetryAt, acceptedUploadCount := 0, 0, 0;
      trace := [];
    }

    method Configure(config: Config, input: ConfigureInput) returns (ok: bool)
      requires Valid() && ValidConfig(config, input)
      modifies this, scheduler, policy, store
      ensures Valid() && fresh(buffer) && fresh(buffer.slots)
      ensures View() == Reconfigure(old(View()), config, input)
      ensures ok == ConfigureSucceeds(config, input)
    {
      hide Reset, SetUpChannel, Scheduled, StoreFails;
      var stored := Prepare(config, input);
      if !stored {
        return false;
      }
      var schedule;
      ok, schedule := SetUp(config.channels, input.channelAt);
      if !ok {
        return false;
      }
      Start(config, schedule, input.scheduleAt);
      return true;
    }

    /** Drops the old pipeline and reopens the store. */
    method Prepare(config: Config, input: ConfigureInput) returns (ok: bool)
      requires Valid()
      modifies this, policy, store
      ensures Valid() && fresh(buffer) && fresh(buffer.slots)
      ensures View() == Reset(old(View()), config, input) && ok == !StoreFails(config, input)
      ensures channels == map[] && policy.View() == EmptyPolicy() && uploader == null
    {
      hide StoreFails;
      Discard(config);
      AllocateBuffer();
      ok := OpenStore(config, input);
    }

    /** Installs the schedule and, if there is somewhere to send to, an uploader. */
    method Start(config: Config, schedule: seq<ScheduleEntry>, now: int)
      requires Valid() && uploader == null && Schedulable(schedule)
      modifies this`uploader, scheduler
      ensures Valid()
      ensures View() == old(View()).(schedule := Scheduled(schedule, now),
                                     target := if config.serverUrl == "" then None
                                               else Some(Target(config.nodeId, config.apiKey)))
    {
      hide Scheduled;
      scheduler.Configure(schedule, now);
      if config.serverUrl != "" {
        uploader := new HttpUploader(if storeOpen then store else null, Target(config.nodeId, config.apiKey));
      }
    }

    /** Clears everything that a configuration replaces, except the buffer. */
    method Discard(config: Config)
      requires Valid()
      modifies this`trace, this`maxBatchSize, this`channels, this`uploader, this`retryAttempt, this`nextRetryAt
      modifies this`acceptedUploadCount, policy
      ensures Valid() && channels == map[]
      ensures View() == Emptied(old(View()), config).(hasBuffer := buffer != null, ring := old(View()).ring)
    {
      hide RingBuffer.Items;
      trace := trace + [Reconfigured(View().ring.items)];
      maxBatchSize := config.maxBatchSize;
      channels := map[];
      policy.Clear();
      uploader := null;
      acceptedUploadCount := 0;
      ResetBackoff();
    }

    method AllocateBuffer()
      requires Valid() && channels == map[]
      modifies this`buffer
      ensures Valid() && fresh(buffer) && fresh(buffer.slots)
      ensures View() == old(View()).(hasBuffer := true, ring := EmptyRing(Capacity(maxBatchSize)))
    {
      var capacity := if maxBatchSize > 0 then maxBatchSize else 500;
      buffer := new RingBuffer(capacity);
    }

    method OpenStore(config: Config, input: ConfigureInput) returns (ok: bool)
      requires Valid() && uploader == null
      modifies this`storeOpen, store
      ensures Valid() && ok == !StoreFails(config, input)
      ensures View() == Reopened(old(View()), config, input)
    {
      if config.storePath != "" {
        storeOpen := store.Open(config.storePath, input.file, input.openOk);
        return storeOpen;
      }
      storeOpen := false;
      return true;
    }

    /** The loop of configure over the configured channels, which stops at the first bad driver. */
    method SetUp(configs: seq<ChannelConfig>, at: seq<int>) returns (ok: bool, schedule: seq<ScheduleEntry>)
      requires Valid() && buffer != null && |at| == |configs|
      requires channels == map[] && policy.View() == EmptyPolicy()
      modifies this`channels, policy
      ensures Valid() && Setup(policy.View(), schedule, channels, ok) == SetUpChannels(configs, at)
    {
      hide SetUpChannel;
      ok, schedule := true, [];
      for c := 0 to |configs|
        invariant Valid() && ok
        invariant Setup(policy.View(), schedule, channels, ok) == SetUpChannels(configs[..c], at[..c])
      {
        assert configs[..c + 1][..c] == configs[..c] && at[..c + 1][..c] == at[..c];
        ok, schedule := SetUpOne(configs[c], at[c], schedule);
        if !ok {
          FailureIsFinal(configs, at, c + 1);
          return;
        }
      }
      assert configs[..|configs|] == configs && at[..|at|] == at;
    }

    /** The body of that loop: the policy learns the channel and its driver is bound, unless the id is taken. */
    method SetUpOne(config: ChannelConfig, now: int, entries: seq<ScheduleEntry>)
      returns (ok: bool, schedule: seq<ScheduleEntry>)
      requires Valid() && buffer != null
      modifies this`channels, policy
      ensures Valid()
      ensures Setup(policy.View(), schedule, channels, ok)
           == SetUpChannel(Setup(old(policy.View()), entries, old(channels), true), config, now)
    {
      ok, schedule := true, entries;
      if config.sampleRateHz <= 0.0 {
        return;
      }
      if !config.driverKnown || !config.driverConfigures {
        ok := false;
        return;
      }
      policy.ConfigureChannel(SyncOf(config), now);
      schedule := schedule + [ScheduleEntry(config.id, config.sampleRateHz)];
      if config.id !in channels {
        channels := channels[config.id := config.priority];
      }
    }

    method ResetBackoff()
      modifies this`retryAttempt, this`nextRetryAt
      ensures retryAttempt == 0 && nextRetryAt == 0
    {
      retryAttempt, nextRetryAt := 0, 0;
    }

    method AdvanceBackoff(now: int)
      modifies this`retryAttempt, this`nextRetryAt
      ensures retryAttempt == old(retryAttempt) + 1
      ensures nextRetryAt == now + BackoffDelay(old(retryAttempt) + 1)
    {
      retryAttempt := retryAttempt + 1;
      nextRetryAt := now + BackoffDelay(retryAttempt);
    }

    /** The body of the polling loop: one sample goes to the buffer, then to the policy. */
    method PollSample(channelId: string, priority: Priority, sample: Sample, now: int)
      requires Valid() && buffer != null
      modifies this`trace, policy, buffer, Slots()
      ensures Valid()
      ensures View() == PolledSample(old(View()), channelId, priority, sample)
    {
      hide RingBuffer.Items, FromSample;
      var stored := CopySample(sample, priority);
      trace := trace + ([Polled(channelId, stored)] + OverflowEvents(buffer.View(), stored));
      var retained := buffer.Enqueue(stored);
      policy.OnSample(channelId, sample.value, now);
    }

    method PollChannel(channelId: string, reading: Reading)
      requires Valid()
      modifies this`trace, policy, buffer, Slots()
      ensures Valid()
      ensures View() == PolledChannel(old(View()), channelId, reading)
    {
      hide PolledSample;
      if channelId !in channels {
        return;
      }
      var priority, samples := channels[channelId], reading.samples;
      ghost var was := View();
      for i := 0 to |samples|
        invariant Valid() && buffer != null
        invariant View() == PolledSamples(was, channelId, priority, samples[..i])
      {
        assert samples[..i + 1][..i] == samples[..i];
        PollSample(channelId, priority, samples[i], reading.at);
      }
      assert samples[..|samples|] == samples;
    }

    /** Takes up to `maxBatch` samples out of the buffer, oldest first. */
    method Drain(maxBatch: Positive) returns (batch: seq<StoredSample>)
      requires Valid() && buffer != null && maxBatch == MaxBatch(maxBatchSize)
      modifies buffer
      ensures Valid() && batch == FlushBatch(old(View()))
      ensures View() == Drained(old(View()))
    {
      hide RingBuffer.Items;
      batch := [];
      ghost var items := buffer.contents;
      while |batch| < maxBatch
        invariant buffer.Valid() && |batch| <= Min(|items|, maxBatch) && batch == items[..|batch|]
        invariant buffer.View() == old(buffer.View()).(items := items[|batch|..])
        decreases maxBatch - |batch|
      {
        var sample := buffer.Dequeue();
        if sample == None {
          break;
        }
        batch := batch + [sample.value];
      }
    }

    /** Runs the uploader on a batch. */
    method Send(batch: seq<StoredSample>, i: FlushInput) returns (result: UploadResult)
      requires Valid() && uploader != null
      modifies this`trace, store
      ensures Valid()
      ensures var attempt := UploadAttempt(uploader.target, AttachedStore(old(View())), batch, i.outcome, i.insertOk,
                                           i.at, i.failedAt);
              result == attempt.result && View() == WithStore(old(View()), attempt.step)
    {
      ghost var events;
      result, events := uploader.Upload(batch, i.outcome, i.insertOk, i.at, i.failedAt);
      trace := trace + events;
    }

    /** Books the result of a flush. */
    method Conclude(result: UploadResult, i: FlushInput)
      requires Valid()
      modifies this`retryAttempt, this`nextRetryAt, this`acceptedUploadCount, policy
      ensures Valid() && View() == Concluded(old(View()), result, i)
    {
      hide BackoffDelay, Restarted, Flushed, RingBuffer.Items;
      match result {
        case Accepted =>
          policy.MarkFlushed(i.at);
          ResetBackoff();
          acceptedUploadCount := acceptedUploadCount + 1;
        case Rejected =>
          policy.MarkFlushed(i.at);
        case TransientFailure =>
          AdvanceBackoff(i.failedAt);
      }
    }

    method MaybeFlush(i: FlushInput)
      requires Valid()
      modifies this`trace, this`retryAttempt, this`nextRetryAt, this`acceptedUploadCount, policy, store, buffer
      ensures Valid()
      ensures View() == AfterFlush(old(View()), i)
    {
      hide Concluded, UploadAttempt, ShouldFlush, RingBuffer.Items;
      if uploader == null || buffer == null {
        return;
      }
      var maxBatch := if maxBatchSize < 1 then 1 else maxBatchSize;
      var flush := policy.QueryFlush(i.at, buffer.size, maxBatch);
      if !flush {
        return;
      }
      var batch := Drain(maxBatch);
      var result := Send(batch, i);
      Conclude(result, i);
    }

    /** Runs the uploader on the oldest pending rows. */
    method Resend(maxBatch: Positive, i: RetryInput) returns (result: UploadResult)
      requires Valid() && uploader != null && maxBatch == MaxBatch(maxBatchSize)
      modifies this`trace, store
      ensures Valid()
      ensures var attempt := RetryOf(old(View()), i);
              result == attempt.result && View() == WithStore(old(View()), attempt.step)
    {
      ghost var events;
      result, events := uploader.RetryPending(maxBatch, i.stepped, i.outcome, i.deleteOk, i.at, i.failedAt);
      trace := trace + events;
    }

    method MaybeRetry(i: RetryInput)
      requires Valid()
      modifies this`trace, this`retryAttempt, this`nextRetryAt, this`acceptedUploadCount, store
      ensures Valid()
      ensures View() == AfterRetry(old(View()), i)
    {
      if uploader == null || !storeOpen {
        return;
      }
      var pending := store.CountPending(i.countOk);
      if pending == 0 {
        return;
      }
      if retryAttempt > 0 && i.at < nextRetryAt {
        return;
      }
      var maxBatch := if maxBatchSize < 1 then 1 else maxBatchSize;
      var result := Resend(maxBatch, i);
      ConcludeRetry(result, i);
    }

    /** Books the result of a retry. */
    method ConcludeRetry(result: UploadResult, i: RetryInput)
      requires Valid()
      modifies this`retryAttempt, this`nextRetryAt, this`acceptedUploadCount
      ensures Valid() && View() == Retried(old(View()), result, i)
    {
      hide BackoffDelay;
      if result.Accepted? {
        ResetBackoff();
        acceptedUploadCount := acceptedUploadCount + 1;
        return;
      }
      AdvanceBackoff(i.failedAt);
    }

    method RunTick(input: TickInput)
      requires Valid()
      modifies this`trace, this`retryAttempt, this`nextRetryAt, this`acceptedUploadCount
      modifies scheduler, policy, store, buffer, Slots()
      ensures Valid()
      ensures View() == Tick(old(View()), input)
    {
      if channels == map[] {
        return;
      }
      PollDue(input);
      MaybeFlush(input.flush);
      MaybeRetry(input.retry);
    }

    /** Polls every due channel. */
    method PollDue(input: TickInput)
      requires Valid()
      modifies this`trace, scheduler, policy, buffer, Slots()
      ensures Valid()
      ensures View() == AfterPolls(old(View()), input)
    {
      hide PolledChannel, Dispatched, Due;
      var due := scheduler.DispatchDue(input.now);
      ghost var dispatched := View();
      for k := 0 to |due|
        invariant Valid()
        invariant View() == PolledAll(dispatched, due[..k], input.readings)
      {
        assert due[..k + 1][..k] == due[..k];
        PollChannel(due[k], ReadingOf(input.readings, k));
      }
      assert due[..|due|] == due;
    }

    method QueryNextWake(countOk: bool) returns (wake: Option<int>)
      requires Valid()
      ensures wake == NextWake(View(), countOk)
    {
      wake := scheduler.NextDeadline();
      if storeOpen {
        var pending := store.CountPending(countOk);
        if pending > 0 && retryAttempt > 0 {
          if wake == None || nextRetryAt < wake.value {
            wake := Some(nextRetryAt);
          }
        }
      }
    }
  }

  /** Once a channel has failed to set up, the rest of the loop changes nothing. */
  lemma {:induction false} FailureIsFinal(configs: seq<ChannelConfig>, at: seq<int>, n: nat)
    requires n <= |configs| == |at| && !SetUpChannels(configs[..n], at[..n]).ok
    ensures SetUpChannels(configs, at) == SetUpChannels(configs[..n], at[..n])
  {
    if n == |configs| {
      assert configs[..n] == configs && at[..n] == at;
    } else {
      var last := |configs| - 1;
      assert configs[..last][..n] == configs[..n] && at[..last][..n] == at[..n];
      FailureIsFinal(configs[..last], at[..last], n);
    }
  }
}
