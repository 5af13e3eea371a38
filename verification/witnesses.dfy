/** Concrete runs in which the code falls short of what it is for. */
module Witnesses {
  import opened Clocks
  import opened Options
  import opened Samples
  import opened RingBuffers
  import opened Schedulers
  import opened UploadPolicies
  import opened LocalStores
  import opened Protocol
  import opened Traces
  import opened HttpUploaders
  import opened Pipelines
  import opened EdgeRuns
  import opened TickGuarantees
  import opened BackoffRuns

  // ----- One realtime channel -----

  const CHANNEL := ChannelConfig("t", 1.0, Normal, Realtime, 1, 0.0, true, true, true)
  const CONFIG := Config("n", "key", "url", 10, "file", [CHANNEL])
  const NO_ROWS := Table([], 1)
  const FOUND := ConfigureInput(NO_ROWS, true, [0], 0)

  /** The runtime after its configuration. */
  function Begun(): (e: Pipelines.Edge)
    ensures e == Apply(Constructed(NO_ROWS), Reloaded(CONFIG, FOUND))
  {
    BegunIs();
    Pipelines.Edge(10, map["t" := Normal], [ChannelState("t", NANOS_PER_SECOND, 0)], true, EmptyRing(10),
                   Policy(map["t" := RuntimeState(SyncOf(CHANNEL), 0, 0.0, false, false, false)], false, false),
                   true, Store(true, NO_ROWS), Some(Target("n", "key")), 0, 0, 0, [Reconfigured([])])
  }

  lemma BegunIs()
    ensures ValidConfig(CONFIG, FOUND)
    ensures Reconfigure(Constructed(NO_ROWS), CONFIG, FOUND)
         == Pipelines.Edge(10, map["t" := Normal], [ChannelState("t", NANOS_PER_SECOND, 0)], true, EmptyRing(10),
                           Policy(map["t" := RuntimeState(SyncOf(CHANNEL), 0, 0.0, false, false, false)], false, false),
                           true, Store(true, NO_ROWS), Some(Target("n", "key")), 0, 0, 0, [Reconfigured([])])
  {
    var channels, at := [CHANNEL], [0];
    var setup := SetUpChannels(channels, at);
    assert SetUpChannels(channels[..0], at[..0]) == Setup(EmptyPolicy(), [], map[], true);
    assert setup == SetUpChannel(Setup(EmptyPolicy(), [], map[], true), CHANNEL, 0);
    assert PeriodFromHz(1.0) == NANOS_PER_SECOND;
    assert Scheduled(setup.entries, 0) == [ChannelState("t", NANOS_PER_SECOND, 0)];
  }

  // ----- Ticks -----

  function Moved(e: Pipelines.Edge, now: int): Pipelines.Edge {
    e.(schedule := Dispatched(e.schedule, now))
  }

  lemma {:induction false} ReadsNoSample(e: Pipelines.Edge, ids: seq<string>)
    ensures PolledAll(e, ids, []) == e
  {
    if ids != [] {
      ReadsNoSample(e, ids[..|ids| - 1]);
    }
  }

  /** A tick that reads nothing into an empty ring goes straight to its retry. */
  lemma IdleTick(e: Pipelines.Edge, input: TickInput)
    requires e.bindings != map[] && e.ring.items == [] && input.readings == []
    ensures AfterFlush(AfterPolls(e, input), input.flush) == Moved(e, input.now)
    ensures Tick(e, input) == AfterRetry(Moved(e, input.now), input.retry)
  {
    hide AfterRetry, Dispatched, UploadAttempt;
    ReadsNoSample(Moved(e, input.now), Due(e.schedule, input.now));
  }

  function StoredAll(samples: seq<Sample>): (stored: seq<StoredSample>)
    ensures |stored| == |samples|
  {
    seq(|samples|, k requires 0 <= k < |samples| => FromSample(samples[k], Normal))
  }

  function Polls(samples: seq<Sample>): seq<Event> {
    seq(|samples|, k requires 0 <= k < |samples| => Polled("t", FromSample(samples[k], Normal)))
  }

  /** With room in the ring, polling appends. */
  lemma PollAppends(e: Pipelines.Edge, sample: Sample)
    requires |e.ring.items| < e.ring.capacity
    ensures var stored := FromSample(sample, Normal);
            PolledSample(e, "t", Normal, sample)
            == e.(ring := e.ring.(items := e.ring.items + [stored]), policy := Sampled(e.policy, "t", sample.value),
                  trace := e.trace + [Polled("t", stored)])
  {
    hide FromSample, Sampled;
    assert OverflowEvents(e.ring, FromSample(sample, Normal)) == [];
  }

  lemma {:induction false} PollsAppend(e: Pipelines.Edge, samples: seq<Sample>)
    requires |e.ring.items| + |samples| <= e.ring.capacity
    ensures var after := PolledSamples(e, "t", Normal, samples);
            after == e.(ring := e.ring.(items := e.ring.items + StoredAll(samples)), policy := after.policy,
                        trace := e.trace + Polls(samples))
  {
    hide FromSample, Sampled, PolledSample;
    if samples == [] {
      assert e.ring.items + [] == e.ring.items && e.trace + [] == e.trace;
    } else {
      var n := |samples| - 1;
      PollsAppend(e, samples[..n]);
      PollAppends(PolledSamples(e, "t", Normal, samples[..n]), samples[n]);
      assert e.ring.items + StoredAll(samples[..n]) + [FromSample(samples[n], Normal)]
             == e.ring.items + (StoredAll(samples[..n]) + [FromSample(samples[n], Normal)]);
      assert e.trace + Polls(samples[..n]) + [Polled("t", FromSample(samples[n], Normal))]
             == e.trace + (Polls(samples[..n]) + [Polled("t", FromSample(samples[n], Normal))]);
      assert StoredAll(samples) == StoredAll(samples[..n]) + [FromSample(samples[n], Normal)];
      assert Polls(samples) == Polls(samples[..n]) + [Polled("t", FromSample(samples[n], Normal))];
    }
  }

  /** A tick at one instant. */
  function TickAt(now: int, samples: seq<Sample>, outcome: PostOutcome, countOk: bool, stepped: nat): TickInput {
    TickInput(now, if samples == [] then [] else [Reading(samples, now)], FlushInput(now, outcome, [], now),
              RetryInput(countOk, now, stepped, outcome, [], now))
  }

  function Deadlines(next: int): seq<ChannelState> {
    [ChannelState("t", NANOS_PER_SECOND, next)]
  }

  /** The one channel is due at once. */
  lemma FirstDispatch()
    ensures Due(Deadlines(0), 0) == ["t"] && Dispatched(Deadlines(0), 0) == Deadlines(NANOS_PER_SECOND)
  {
    assert Due(Deadlines(0)[..0], 0) == [];
  }

  lemma OneChannelPolled(e: Pipelines.Edge, reading: Reading)
    requires "t" in e.bindings && e.bindings["t"] == Normal
    ensures PolledAll(e, ["t"], [reading]) == PolledSamples(e, "t", Normal, reading.samples)
  {
    hide PolledSamples;
    var ids := ["t"];
    assert PolledAll(e, ids[..0], [reading]) == e;
  }

  /** The first tick polls its samples and sees them flushed. */
  lemma FirstPolls(input: TickInput, samples: seq<Sample>)
    requires 1 <= |samples| <= 10 && input.now == 0 && input.readings == [Reading(samples, 0)]
    ensures var e, polled := Begun(), AfterPolls(Begun(), input);
            && polled == e.(schedule := Deadlines(NANOS_PER_SECOND), ring := e.ring.(items := StoredAll(samples)),
                            policy := polled.policy, trace := [Reconfigured([])] + Polls(samples))
            && Flushes(polled, input.flush) && FlushBatch(polled) == StoredAll(samples)
  {
    hide Due, Dispatched, PolledAll, PolledSamples, FromSample;
    var moved := Begun().(schedule := Deadlines(NANOS_PER_SECOND));
    FirstDispatch();
    OneChannelPolled(moved, Reading(samples, 0));
    PollsAppend(moved, samples);
    assert [] + StoredAll(samples) == StoredAll(samples) && StoredAll(samples)[..|samples|] == StoredAll(samples);
    SamplesRaiseFlag(moved, "t", Normal, samples);
  }

  // ----- A flush that fails -----

  const READING := Sample("t", 20.0, 0, "C", Good)
  const LOST_POST := PostOutcome([], HttpResponse(0, "timeout"))

  function Saved(): StoredSample {
    FromSample(READING, Normal)
  }

  function FailedPost(kind: PostKind, batch: seq<StoredSample>, at: int): Event {
    Posted(kind, batch, RequestOf(Target("n", "key"), batch), LOST_POST, at, at)
  }

  function FirstTick(): TickInput {
    TickAt(0, [READING], LOST_POST, true, 0)
  }

  /** The edge in the middle of a streak: one row is pending, the ring is empty. */
  function Pending(attempt: nat, retryAt: int, accepted: nat, next: int, policy: Policy, trace: seq<Event>): Pipelines.Edge {
    Begun().(schedule := Deadlines(next), store := Store(true, Table([RowOf(1, Saved())], 2)), policy := policy,
             retryAttempt := attempt, nextRetryAt := retryAt, accepted := accepted, trace := trace)
  }

  function TraceAfterFlush(): seq<Event> {
    [Reconfigured([]), Polled("t", Saved()), FailedPost(FlushPost, [Saved()], 0), Persisted(RowOf(1, Saved()))]
  }

  lemma OneSaved(sample: StoredSample)
    ensures PersistedAll(Some(Store(true, NO_ROWS)), [sample], [])
         == StoreStep(Some(Store(true, Table([RowOf(1, sample)], 2))), [Persisted(RowOf(1, sample))])
  {
    hide RowOf;
    var store, batch := Some(Store(true, NO_ROWS)), [sample];
    assert PersistedAll(store, batch[..0], []) == StoreStep(store, []);
    assert [] + [RowOf(1, sample)] == [RowOf(1, sample)];
  }

  /** The first flush fails and its sample becomes a pending row; the retry waits for five seconds. */
  lemma FirstFlushFails()
    ensures var policy := Tick(Begun(), FirstTick()).policy;
            Tick(Begun(), FirstTick())
            == Pending(1, 5 * NANOS_PER_SECOND, 0, NANOS_PER_SECOND, policy, TraceAfterFlush())
  {
    hide FromSample, RequestOf, RowOf, PersistedAll, AfterPolls;
    var input := FirstTick();
    var polled := AfterPolls(Begun(), input);
    FirstPolls(input, [READING]);
    var batch := [Saved()];
    assert StoredAll([READING]) == batch && Polls([READING]) == [Polled("t", Saved())];
    OneSaved(Saved());
    var flushed := AfterFlush(polled, input.flush);
    assert flushed.trace == TraceAfterFlush();
    assert flushed.ring.items == [];
    assert !Retries(flushed, input.retry);
  }

  // ----- A retry that reads nothing -----

  const SECOND: int := NANOS_PER_SECOND

  function EmptyTick(): TickInput {
    TickAt(6 * SECOND, [], LOST_POST, true, 0)
  }

  function FailingTick(now: int): TickInput {
    TickAt(now, [], LOST_POST, true, 1)
  }

  lemma NextDeadlineIs(next: int, now: int)
    requires next <= now && next % SECOND == 0 && now % SECOND == 0
    ensures Dispatched(Deadlines(next), now) == Deadlines(now + SECOND)
  {
    assert (now - next) / SECOND * SECOND == now - next;
  }

  /** The retry is due and counts the row, but the SELECT yields none. */
  lemma ReadsNone(policy: Policy, trace: seq<Event>)
    ensures Tick(Pending(1, 5 * SECOND, 0, SECOND, policy, trace), EmptyTick())
         == Pending(0, 0, 1, 7 * SECOND, policy, trace + [EmptyRetry])
  {
    hide Saved, RowOf;
    var e := Pending(1, 5 * SECOND, 0, SECOND, policy, trace);
    IdleTick(e, EmptyTick());
    NextDeadlineIs(SECOND, 6 * SECOND);
    assert Retries(Moved(e, 6 * SECOND), EmptyTick().retry);
  }

  function Again(): StoredSample {
    SampleOf(RowOf(1, Saved()))
  }

  /** A retry that reads the row and fails. */
  lemma RetryFails(attempt: nat, retryAt: int, next: int, now: int, policy: Policy, trace: seq<Event>)
    requires next <= now && next % SECOND == 0 && now % SECOND == 0 && (attempt > 0 ==> retryAt <= now)
    ensures Tick(Pending(attempt, retryAt, 1, next, policy, trace), FailingTick(now))
         == Pending(attempt + 1, now + BackoffDelay(attempt + 1), 1, now + SECOND, policy,
                    trace + [FailedPost(RetryPost, [Again()], now)])
  {
    hide Saved, RowOf, SampleOf, RequestOf, BackoffDelay;
    var e := Pending(attempt, retryAt, 1, next, policy, trace);
    IdleTick(e, FailingTick(now));
    NextDeadlineIs(next, now);
    var moved := Moved(e, now);
    assert Retries(moved, FailingTick(now).retry);
    assert SamplesOf(Peeked(moved.store, 10, 1)) == [Again()];
  }

  function ForgettingSteps(): seq<Step> {
    [Reloaded(CONFIG, FOUND), Ticked(FirstTick()), Ticked(EmptyTick())]
  }

  function HastySteps(): seq<Step> {
    ForgettingSteps() + [Ticked(FailingTick(7 * SECOND)), Ticked(FailingTick(12 * SECOND))]
  }

  function TraceAfterEmpty(): seq<Event> {
    TraceAfterFlush() + [EmptyRetry]
  }

  function TraceAfterHaste(): seq<Event> {
    TraceAfterEmpty() + [FailedPost(RetryPost, [Again()], 7 * SECOND)] + [FailedPost(RetryPost, [Again()], 12 * SECOND)]
  }

  lemma RunSnoc(e: Pipelines.Edge, steps: seq<Step>, step: Step)
    requires ValidSteps(steps) && ValidStep(step)
    ensures ValidSteps(steps + [step]) && Run(e, steps + [step]) == Apply(Run(e, steps), step)
  {
    hide Apply;
    assert (steps + [step])[..|steps|] == steps;
  }

  lemma FirstSteps() returns (policy: Policy)
    ensures var steps := [Reloaded(CONFIG, FOUND), Ticked(FirstTick())];
            && ValidSteps(steps)
            && Run(Constructed(NO_ROWS), steps)
               == Pending(1, 5 * SECOND, 0, SECOND, policy, TraceAfterFlush())
  {
    hide Tick, Reconfigure, FirstTick;
    BegunIs();
    var none: seq<Step>, configured := [], Reloaded(CONFIG, FOUND);
    RunSnoc(Constructed(NO_ROWS), none, configured);
    RunSnoc(Constructed(NO_ROWS), none + [configured], Ticked(FirstTick()));
    assert none + [configured] + [Ticked(FirstTick())] == [configured, Ticked(FirstTick())];
    assert Begun() == Apply(Constructed(NO_ROWS), configured);
    FirstFlushFails();
    policy := Tick(Begun(), FirstTick()).policy;
  }

  lemma ForgettingRun() returns (policy: Policy)
    ensures ValidSteps(ForgettingSteps())
    ensures Run(Constructed(NO_ROWS), ForgettingSteps()) == Pending(0, 0, 1, 7 * SECOND, policy, TraceAfterEmpty())
  {
    hide Tick, Reconfigure, FirstTick, EmptyTick, Pending, Run;
    policy := FirstSteps();
    var steps := [Reloaded(CONFIG, FOUND), Ticked(FirstTick())];
    RunSnoc(Constructed(NO_ROWS), steps, Ticked(EmptyTick()));
    assert steps + [Ticked(EmptyTick())] == ForgettingSteps();
    ReadsNone(policy, TraceAfterFlush());
  }

  lemma HastyRun() returns (policy: Policy)
    ensures ValidSteps(HastySteps())
    ensures Run(Constructed(NO_ROWS), HastySteps())
         == Pending(2, 22 * SECOND, 1, 13 * SECOND, policy, TraceAfterHaste())
  {
    hide Tick, Reconfigure, FailingTick, Pending, Run, FailedPost, ForgettingSteps, TraceAfterEmpty, BackoffDelay, Again;
    hide ValidConfig;
    DelaysGrow(1, 2);
    policy := ForgettingRun();
    var first, second := Ticked(FailingTick(7 * SECOND)), Ticked(FailingTick(12 * SECOND));
    RunSnoc(Constructed(NO_ROWS), ForgettingSteps(), first);
    RunSnoc(Constructed(NO_ROWS), ForgettingSteps() + [first], second);
    assert ForgettingSteps() + [first] + [second] == HastySteps();
    RetryFails(0, 0, 7 * SECOND, 7 * SECOND, policy, TraceAfterEmpty());
    RetryFails(1, 12 * SECOND, 8 * SECOND, 12 * SECOND, policy,
               TraceAfterEmpty() + [FailedPost(RetryPost, [Again()], 7 * SECOND)]);
  }

  lemma CountsAfterEmpty()
    ensures var trace := TraceAfterEmpty();
            Streak(trace) == 1 && AcceptedPosts(trace) == 0 && LastFailure(trace) == 0
  {
    hide Saved, RowOf, RequestOf;
    var t0: seq<Event>, t1 := [], [Reconfigured([])];
    var t2, t3 := t1 + [Polled("t", Saved())], t1 + [Polled("t", Saved())] + [FailedPost(FlushPost, [Saved()], 0)];
    var t4 := t3 + [Persisted(RowOf(1, Saved()))];
    assert t4 == TraceAfterFlush() && t0 + [Reconfigured([])] == t1;
    OneEvent(t0, Reconfigured([]));
    OneEvent(t1, Polled("t", Saved()));
    OneEvent(t2, FailedPost(FlushPost, [Saved()], 0));
    OneEvent(t3, Persisted(RowOf(1, Saved())));
    OneEvent(t4, EmptyRetry);
    assert LastFailure(t0) == 0;
  }

  /**
   * The counters after an empty retry, in a run from construction: the backoff counter is cleared and
   * an upload is counted, although the one POST so far failed and its sample is still pending.
   */
  lemma EmptyRetryClearsBackoff()
    ensures ValidSteps(ForgettingSteps())
    ensures var e := Run(Constructed(NO_ROWS), ForgettingSteps());
            && e.retryAttempt == 0 && Streak(e.trace) == 1
            && e.accepted == 1 && AcceptedPosts(e.trace) == 0
            && |e.store.table.rows| == 1
  {
    hide Run, TraceAfterEmpty, Saved, RowOf;
    var policy := ForgettingRun();
    CountsAfterEmpty();
  }

  /** Some failures later a retry POST goes out five seconds after the second of a streak, instead of ten. */
  lemma EmptyRetryBreaksLadder()
    ensures ValidSteps(HastySteps())
    ensures var trace := Run(Constructed(NO_ROWS), HastySteps()).trace;
            && |trace| == 7 && Streak(trace[..6]) == 2
            && trace[6].Posted? && trace[6].kind.RetryPost?
            && trace[6].at == LastFailure(trace[..6]) + BackoffDelay(1)
            && !Waited(trace, 6, Streak(trace[..6]))
  {
    hide Run, Saved, RowOf, SampleOf, RequestOf, Streak, LastFailure;
    var policy := HastyRun();
    CountsAfterEmpty();
    var failed := FailedPost(RetryPost, [Again()], 7 * SECOND);
    OneEvent(TraceAfterEmpty(), failed);
    assert TraceAfterHaste()[..6] == TraceAfterEmpty() + [failed];
  }

  // ----- A count query that fails -----

  function BlindTick(): TickInput {
    TickAt(6 * SECOND, [], LOST_POST, false, 0)
  }

  /** A reachable state and a tick after which the wake-up asked for lies in the past. */
  lemma MissedRetryWakesInPast()
    ensures var steps := [Reloaded(CONFIG, FOUND), Ticked(FirstTick())];
            && ValidSteps(steps)
            && var e := Run(Constructed(NO_ROWS), steps);
               && Monotone(BlindTick())
               && MissedRetry(AfterFlush(AfterPolls(e, BlindTick()), BlindTick().flush), BlindTick())
               && NextWake(Tick(e, BlindTick()), true) == Some(5 * SECOND) && 5 * SECOND < BlindTick().now
  {
    hide Run, Saved, RowOf, AfterPolls, AfterFlush, Tick;
    var policy := FirstSteps();
    var e := Pending(1, 5 * SECOND, 0, SECOND, policy, TraceAfterFlush());
    IdleTick(e, BlindTick());
    NextDeadlineIs(SECOND, 6 * SECOND);
    var after := Tick(e, BlindTick());
    assert after == Moved(e, 6 * SECOND);
    assert after.schedule[..0] == [] && Earliest(after.schedule[..0]) == None;
  }

  // ----- A reload that fails -----

  const NOT_OPENED := ConfigureInput(NO_ROWS, false, [0], 0)

  function LaterTick(): TickInput {
    TickAt(8 * SECOND, [], LOST_POST, true, 1)
  }

  /** The store does not open: everything goes except the schedule. */
  lemma FailedReload(policy: Policy)
    ensures ValidConfig(CONFIG, NOT_OPENED)
    ensures var e := Pending(1, 5 * SECOND, 0, SECOND, policy, TraceAfterFlush());
            var after := Reconfigure(e, CONFIG, NOT_OPENED);
            after.bindings == map[] && after.schedule == Deadlines(SECOND)
  {
    hide SetUpChannels;
  }

  /**
   * A run in which a reload fails because the store does not open, and a tick whose count query works
   * and after which the wake-up asked for lies in the past; so it does after any number of ticks more.
   */
  lemma FailedReloadWakesInPast(inputs: seq<TickInput>)
    ensures var steps := [Reloaded(CONFIG, FOUND), Ticked(FirstTick()), Reloaded(CONFIG, NOT_OPENED)];
            && ValidSteps(steps)
            && var e := Run(Constructed(NO_ROWS), steps);
               && Monotone(LaterTick()) && LaterTick().retry.countOk
               && TickAll(e, inputs) == e && Tick(e, LaterTick()) == e
               && NextWake(e, true) == Some(SECOND) && SECOND < LaterTick().now
  {
    hide Run, Reconfigure, Pending, TickAll, FirstTick;
    var policy := FirstSteps();
    var steps, reload := [Reloaded(CONFIG, FOUND), Ticked(FirstTick())], Reloaded(CONFIG, NOT_OPENED);
    FailedReload(policy);
    RunSnoc(Constructed(NO_ROWS), steps, reload);
    assert steps + [reload] == [Reloaded(CONFIG, FOUND), Ticked(FirstTick()), reload];
    var e := Run(Constructed(NO_ROWS), steps + [reload]);
    UnboundIsStuck(e, inputs);
    RunIsCalm(NO_ROWS, steps + [reload]);
    assert e.schedule[..0] == [] && Earliest(e.schedule[..0]) == None;
  }
}
