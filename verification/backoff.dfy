/** The retry backoff and the upload counter, read off the trace of a run. */
module BackoffRuns {
  import opened Clocks
  import opened Samples
  import opened RingBuffers
  import opened LocalStores
  import opened Protocol
  import opened Traces
  import opened HttpUploaders
  import opened Pipelines
  import opened EdgeRuns

  // ----- Streaks of failures -----

  /** A streak of failures ends with an accepted POST or with a configuration. */
  predicate EndsStreak(event: Event) {
    event.Reconfigured? || (event.Posted? && ResultOf(event).Accepted?)
  }

  /** A flush that fails transiently, or a retry that is not accepted. */
  predicate Fails(event: Event) {
    event.Posted? && if event.kind.FlushPost? then ResultOf(event).TransientFailure? else !ResultOf(event).Accepted?
  }

  /** The number of failures since the last accepted POST or configuration. */
  function Streak(trace: seq<Event>): nat {
    if trace == [] || EndsStreak(trace[|trace| - 1]) then 0
    else Streak(trace[..|trace| - 1]) + if Fails(trace[|trace| - 1]) then 1 else 0
  }

  /** Some retry of the current streak came up empty after a failure. */
  predicate Interrupted(trace: seq<Event>) {
    && trace != [] && !EndsStreak(trace[|trace| - 1])
    && (Interrupted(trace[..|trace| - 1])
        || (trace[|trace| - 1].EmptyRetry? && Streak(trace[..|trace| - 1]) > 0))
  }

  /** The failures that the runtime still counts: it also forgets them when a retry comes up empty. */
  function Remembered(trace: seq<Event>): nat {
    if trace == [] || EndsStreak(trace[|trace| - 1]) || trace[|trace| - 1].EmptyRetry? then 0
    else Remembered(trace[..|trace| - 1]) + if Fails(trace[|trace| - 1]) then 1 else 0
  }

  /** The clock reading taken after the latest failure. */
  function LastFailure(trace: seq<Event>): int {
    if trace == [] then 0
    else if Fails(trace[|trace| - 1]) then trace[|trace| - 1].failedAt
    else LastFailure(trace[..|trace| - 1])
  }

  /** POSTs answered 200 or 202 without a transport error, since the last configuration. */
  function AcceptedPosts(trace: seq<Event>): nat {
    if trace == [] || trace[|trace| - 1].Reconfigured? then 0
    else
      AcceptedPosts(trace[..|trace| - 1])
      + if trace[|trace| - 1].Posted? && ResultOf(trace[|trace| - 1]).Accepted? then 1 else 0
  }

  /** Retries that read no rows although some were counted, since the last configuration. */
  function EmptyRetries(trace: seq<Event>): nat {
    if trace == [] || trace[|trace| - 1].Reconfigured? then 0
    else EmptyRetries(trace[..|trace| - 1]) + if trace[|trace| - 1].EmptyRetry? then 1 else 0
  }

  /** If event `j` is a retry POST after `failures` failures, it waits for the delay they ask for. */
  predicate Waited(trace: seq<Event>, j: nat, failures: nat)
    requires j < |trace|
  {
    trace[j].Posted? && trace[j].kind.RetryPost? && failures > 0 ==>
      trace[j].at >= LastFailure(trace[..j]) + BackoffDelay(failures)
  }

  predicate AllWaited(trace: seq<Event>) {
    trace == []
    || (AllWaited(trace[..|trace| - 1]) && Waited(trace, |trace| - 1, Remembered(trace[..|trace| - 1])))
  }

  /** The runtime counts a whole streak exactly when no retry in it has come up empty. */
  lemma {:induction false} RemembersStreakIff(trace: seq<Event>)
    ensures Remembered(trace) <= Streak(trace)
    ensures Remembered(trace) == Streak(trace) <==> !Interrupted(trace)
  {
    if trace != [] {
      RemembersStreakIff(trace[..|trace| - 1]);
    }
  }

  // ----- What events do to the counts -----

  ghost predicate SameCounts(a: seq<Event>, b: seq<Event>) {
    && Streak(a) == Streak(b) && Remembered(a) == Remembered(b) && Interrupted(a) == Interrupted(b)
    && LastFailure(a) == LastFailure(b)
    && AcceptedPosts(a) == AcceptedPosts(b) && EmptyRetries(a) == EmptyRetries(b)
    && AllWaited(a) == AllWaited(b)
  }

  predicate Quiet(event: Event) {
    !event.Posted? && !event.EmptyRetry? && !event.Reconfigured?
  }

  /** Events that are neither posts nor resets leave every count alone. */
  lemma {:induction false} QuietEvents(trace: seq<Event>, events: seq<Event>)
    requires forall j | 0 <= j < |events| :: Quiet(events[j])
    ensures SameCounts(trace, trace + events)
  {
    if events == [] {
      assert trace + events == trace;
    } else {
      var init, last := events[..|events| - 1], events[|events| - 1];
      QuietEvents(trace, init);
      assert Quiet(last);
      assert (trace + events)[..|trace + events| - 1] == trace + init;
    }
  }

  lemma OneEvent(trace: seq<Event>, event: Event)
    ensures var longer := trace + [event];
            && Streak(longer) == (if EndsStreak(event) then 0 else Streak(trace) + if Fails(event) then 1 else 0)
            && Remembered(longer) == (if EndsStreak(event) || event.EmptyRetry? then 0
                                      else Remembered(trace) + if Fails(event) then 1 else 0)
            && (Interrupted(longer) <==>
                  !EndsStreak(event) && (Interrupted(trace) || (event.EmptyRetry? && Streak(trace) > 0)))
            && LastFailure(longer) == (if Fails(event) then event.failedAt else LastFailure(trace))
            && AcceptedPosts(longer) == (if event.Reconfigured? then 0 else
                 AcceptedPosts(trace) + if event.Posted? && ResultOf(event).Accepted? then 1 else 0)
            && EmptyRetries(longer) == (if event.Reconfigured? then 0 else
                 EmptyRetries(trace) + if event.EmptyRetry? then 1 else 0)
            && (AllWaited(longer) <==>
                 AllWaited(trace) && (event.Posted? && event.kind.RetryPost? && Remembered(trace) > 0 ==>
                                        event.at >= LastFailure(trace) + BackoffDelay(Remembered(trace))))
  {
    assert (trace + [event])[..|trace|] == trace;
  }

  /** A post followed by bookkeeping counts like the post alone. */
  lemma AttemptEvents(trace: seq<Event>, attempt: Attempt, kind: PostKind, batch: seq<StoredSample>, request: Request,
                      outcome: PostOutcome, at: int, failedAt: int)
    requires IsAttempt(attempt, kind, batch, request, outcome, at, failedAt)
    ensures SameCounts(trace + [attempt.step.events[0]], trace + attempt.step.events)
  {
    hide SameCounts;
    var events := attempt.step.events;
    var rest := events[1..];
    forall j | 0 <= j < |rest| ensures Quiet(rest[j]) {
      assert rest[j] == events[j + 1];
    }
    QuietEvents(trace + [events[0]], rest);
    assert trace + [events[0]] + rest == trace + events;
  }

  // ----- Every step keeps the counters -----

  /** The counters of the runtime are those of its trace. */
  ghost predicate Counts(e: Edge) {
    && e.retryAttempt == Remembered(e.trace)
    && (e.retryAttempt > 0 ==> e.nextRetryAt == LastFailure(e.trace) + BackoffDelay(e.retryAttempt))
    && e.accepted == AcceptedPosts(e.trace) + EmptyRetries(e.trace)
    && AllWaited(e.trace)
  }

  lemma PollKeepsCounts(e: Edge, id: string, priority: Priority, sample: Sample)
    ensures SameCounts(e.trace, PolledSample(e, id, priority, sample).trace)
  {
    hide FromSample, Enqueued, SameCounts;
    var stored := FromSample(sample, priority);
    QuietEvents(e.trace, [Polled(id, stored)] + OverflowEvents(e.ring, stored));
  }

  lemma PollPhaseKeepsCounts(e: Edge, input: TickInput)
    ensures SameCounts(e.trace, AfterPolls(e, input).trace)
    ensures Counts(e) ==> Counts(AfterPolls(e, input))
  {
    hide PolledSample, AfterPolls;
    forall f: Edge, id, priority, sample | SameCounts(e.trace, f.trace)
      ensures SameCounts(e.trace, PolledSample(f, id, priority, sample).trace)
    {
      PollKeepsCounts(f, id, priority, sample);
    }
    PollPhaseKeeps((f: Edge) => SameCounts(e.trace, f.trace), e, input);
    AfterPollsOnly(e, input);
  }

  lemma FlushKeepsCounts(e: Edge, i: FlushInput)
    requires Sound(e) && Counts(e)
    ensures Counts(AfterFlush(e, i))
    ensures EmptyRetries(AfterFlush(e, i).trace) == EmptyRetries(e.trace)
    ensures Interrupted(AfterFlush(e, i).trace) ==> Interrupted(e.trace)
  {
    hide UploadAttempt, Sound, BackoffDelay, Streak, Remembered, Interrupted, LastFailure, AcceptedPosts, EmptyRetries;
    hide AllWaited;
    if Flushes(e, i) {
      var batch, attempt := FlushBatch(e), FlushAttempt(e, i);
      FlushIsAttempt(e, i);
      AttemptEvents(e.trace, attempt, FlushPost, batch, RequestOf(e.target.value, batch), i.outcome, i.at, i.failedAt);
      OneEvent(e.trace, attempt.step.events[0]);
    }
  }

  /** A retry is due and counts rows, but reads none. */
  predicate ReadsNothing(e: Edge, i: RetryInput) {
    Retries(e, i) && i.stepped == 0
  }

  lemma RetryKeepsCounts(e: Edge, i: RetryInput)
    requires Sound(e) && Counts(e)
    ensures Counts(AfterRetry(e, i))
    ensures EmptyRetries(AfterRetry(e, i).trace) == EmptyRetries(e.trace) + if ReadsNothing(e, i) then 1 else 0
    ensures !Interrupted(e.trace) ==>
              (Interrupted(AfterRetry(e, i).trace) <==> ReadsNothing(e, i) && e.retryAttempt > 0)
  {
    hide RetryAttempt, BackoffDelay, SampleOf, RequestOf, Streak, Remembered, Interrupted, LastFailure, AcceptedPosts;
    hide EmptyRetries, AllWaited;
    if Retries(e, i) {
      var rows, attempt := RetryRows(e, i), RetryOf(e, i);
      RemembersStreakIff(e.trace);
      RetryIsAttempt(e, i);
      OneEvent(e.trace, attempt.step.events[0]);
      if rows != [] {
        AttemptEvents(e.trace, attempt, RetryPost, SamplesOf(rows), RequestOf(e.target.value, SamplesOf(rows)), i.outcome,
                      i.at, i.failedAt);
      }
    }
  }

  /** The retry phase of a tick reads nothing although it is due. */
  predicate TickReadsNothing(e: Edge, input: TickInput) {
    e.bindings != map[] && ReadsNothing(AfterFlush(AfterPolls(e, input), input.flush), input.retry)
  }

  /** It does so while failures are being counted. */
  predicate ForgetsStreak(e: Edge, input: TickInput) {
    TickReadsNothing(e, input) && AfterFlush(AfterPolls(e, input), input.flush).retryAttempt > 0
  }

  lemma TickKeepsCounts(e: Edge, input: TickInput)
    requires Sound(e) && Counts(e)
    ensures Counts(Tick(e, input))
    ensures EmptyRetries(Tick(e, input).trace) == EmptyRetries(e.trace) + if TickReadsNothing(e, input) then 1 else 0
    ensures !Interrupted(e.trace) ==> (Interrupted(Tick(e, input).trace) <==> ForgetsStreak(e, input))
  {
    hide Counts, Sound, AfterPolls, AfterFlush, AfterRetry, ReadsNothing, EmptyRetries, Interrupted;
    PollPhaseKeepsCounts(e, input);
    TickKeepsSound(e, input);
    FlushKeepsCounts(AfterPolls(e, input), input.flush);
    RetryKeepsCounts(AfterFlush(AfterPolls(e, input), input.flush), input.retry);
  }

  lemma ReconfigureKeepsCounts(e: Edge, config: Config, found: ConfigureInput)
    requires Counts(e) && ValidConfig(config, found)
    ensures var after := Reconfigure(e, config, found);
            Counts(after) && EmptyRetries(after.trace) == 0
  {
    hide SetUpChannels, Streak, Remembered, Interrupted, LastFailure, AcceptedPosts, EmptyRetries, AllWaited;
    ReconfigureShape(e, config, found);
    OneEvent(e.trace, Reconfigured(e.ring.items));
  }

  lemma {:induction false} RunKeepsCounts(e: Edge, steps: seq<Step>)
    requires Sound(e) && Counts(e) && ValidSteps(steps) && KeyedFiles(steps)
    ensures Counts(Run(e, steps))
  {
    hide Counts, Sound;
    if steps != [] {
      var n := |steps| - 1;
      RunKeepsCounts(e, steps[..n]);
      RunKeepsSound(e, steps[..n]);
      match steps[n]
      case Ticked(input) => TickKeepsCounts(Run(e, steps[..n]), input);
      case Reloaded(config, found) => ReconfigureKeepsCounts(Run(e, steps[..n]), config, found);
    }
  }

  // ----- Backoff -----

  /**
   * A tick in which the counter agrees with the streak leaves them in agreement unless its retry is
   * due during the streak and reads no row.
   */
  lemma TickKeepsStreakIff(e: Edge, input: TickInput)
    requires Sound(e) && Counts(e) && e.retryAttempt == Streak(e.trace)
    ensures var after := Tick(e, input);
            after.retryAttempt == Streak(after.trace) <==> !ForgetsStreak(e, input)
  {
    hide Sound, Tick, ForgetsStreak;
    TickKeepsCounts(e, input);
    RemembersStreakIff(e.trace);
    RemembersStreakIff(Tick(e, input).trace);
  }

  lemma {:induction false} WaitedAt(trace: seq<Event>, j: nat)
    requires AllWaited(trace) && j < |trace|
    ensures Waited(trace, j, Remembered(trace[..j]))
  {
    if j < |trace| - 1 {
      var init := trace[..|trace| - 1];
      WaitedAt(init, j);
      assert init[..j] == trace[..j];
    }
  }

  /** The next retry is held back for the delay that the whole streak asks for. */
  ghost predicate HeldBack(e: Edge) {
    e.retryAttempt > 0 && e.nextRetryAt == LastFailure(e.trace) + BackoffDelay(Streak(e.trace))
  }

  /**
   * Backoff over every run from construction. The attempt counter is at most the number of failures
   * since the last accepted POST or configuration, and equal to it exactly when no retry has come up
   * empty in between; until then every retry POST waits for the delay of the whole streak, and in any
   * case for that of the failures still counted. During a streak the next retry is held back for the
   * streak's delay exactly when the counter is right or has reached the cap again.
   */
  lemma BackoffRespected(disk: Table, steps: seq<Step>, j: nat)
    requires WellKeyed(disk) && ValidSteps(steps) && KeyedFiles(steps)
    ensures var e := Run(Constructed(disk), steps);
            && e.retryAttempt <= Streak(e.trace)
            && (e.retryAttempt == Streak(e.trace) <==> !Interrupted(e.trace))
            && (Streak(e.trace) > 0 ==>
                  (HeldBack(e) <==> e.retryAttempt == Streak(e.trace) || e.retryAttempt >= 5))
            && (j < |e.trace| ==>
                  && Waited(e.trace, j, Remembered(e.trace[..j]))
                  && (!Interrupted(e.trace[..j]) ==> Waited(e.trace, j, Streak(e.trace[..j]))))
  {
    hide Run, BackoffDelay;
    RunKeepsCounts(Constructed(disk), steps);
    var e := Run(Constructed(disk), steps);
    RemembersStreakIff(e.trace);
    if e.retryAttempt > 0 {
      SameDelayIff(e.retryAttempt, Streak(e.trace));
    }
    if j < |e.trace| {
      WaitedAt(e.trace, j);
      RemembersStreakIff(e.trace[..j]);
    }
  }

  lemma SameDelayIff(j: nat, k: nat)
    requires 0 < j <= k
    ensures BackoffDelay(j) == BackoffDelay(k) <==> j == k || j >= 5
  {
  }

  /** The ladder of delays: 5, 10, 30, 60 seconds, then 300 seconds from the fifth failure on. */
  lemma DelaysGrow(j: nat, k: nat)
    requires 0 < j < k
    ensures BackoffDelay(1) == 5 * NANOS_PER_SECOND
    ensures BackoffDelay(2) == 10 * NANOS_PER_SECOND && BackoffDelay(3) == 30 * NANOS_PER_SECOND
    ensures BackoffDelay(4) == 60 * NANOS_PER_SECOND
    ensures k >= 5 <==> BackoffDelay(k) == 300 * NANOS_PER_SECOND
    ensures if j < 5 then BackoffDelay(j) < BackoffDelay(k) else BackoffDelay(j) == BackoffDelay(k)
  {
  }

  // ----- The upload counter -----

  /** Since the last configuration, every retry that was due read at least one row. */
  predicate ReadsYield(e: Edge, steps: seq<Step>)
    requires ValidSteps(steps)
  {
    steps == []
    || match steps[|steps| - 1]
       case Reloaded(_, _) => true
       case Ticked(input) =>
         var before := steps[..|steps| - 1];
         ReadsYield(e, before) && !TickReadsNothing(Run(e, before), input)
  }

  lemma {:induction false} EmptyRetriesIff(e: Edge, steps: seq<Step>)
    requires Sound(e) && Counts(e) && EmptyRetries(e.trace) == 0 && ValidSteps(steps) && KeyedFiles(steps)
    ensures EmptyRetries(Run(e, steps).trace) == 0 <==> ReadsYield(e, steps)
  {
    hide Counts, Sound, EmptyRetries;
    if steps != [] {
      var n := |steps| - 1;
      EmptyRetriesIff(e, steps[..n]);
      RunKeepsSound(e, steps[..n]);
      RunKeepsCounts(e, steps[..n]);
      match steps[n]
      case Ticked(input) => TickKeepsCounts(Run(e, steps[..n]), input);
      case Reloaded(config, found) => ReconfigureKeepsCounts(Run(e, steps[..n]), config, found);
    }
  }

  /**
   * The upload counter is the number of POSTs accepted since the last configuration exactly when
   * every retry that was due since then read at least one row.
   */
  lemma CounterCountsPosts(disk: Table, steps: seq<Step>)
    requires WellKeyed(disk) && ValidSteps(steps) && KeyedFiles(steps)
    ensures var e := Run(Constructed(disk), steps);
            && e.accepted == AcceptedPosts(e.trace) + EmptyRetries(e.trace)
            && (e.accepted == AcceptedPosts(e.trace) <==> ReadsYield(Constructed(disk), steps))
  {
    RunKeepsCounts(Constructed(disk), steps);
    EmptyRetriesIff(Constructed(disk), steps);
  }
}
