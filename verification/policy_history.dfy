/** The upload policy read as a statement about the history of samples, flushes and reconfigurations. */
module PolicyHistory {
  import opened Options
  import opened Samples
  import opened UploadPolicies

  datatype PolicyEvent =
    | Configure(config: ChannelSyncState, at: int)
    | Sample(channelId: string, value: real)
    | Flush(at: int)
    | Clear

  function Apply(policy: Policy, event: PolicyEvent): Policy {
    match event
    case Configure(config, at) => Configured(policy, config, at)
    case Sample(channelId, value) => Sampled(policy, channelId, value)
    case Flush(at) => Flushed(policy, at)
    case Clear => EmptyPolicy()
  }

  /** Fold of a history over a policy. */
  function RunFrom(policy: Policy, history: seq<PolicyEvent>): Policy {
    if history == [] then policy
    else Apply(RunFrom(policy, history[..|history| - 1]), history[|history| - 1])
  }

  function Run(history: seq<PolicyEvent>): Policy {
    RunFrom(EmptyPolicy(), history)
  }

  // ----- Notions that only mention the history -----

  /** The latest configuration of a channel since the last clear. */
  function InForce(history: seq<PolicyEvent>, id: string): Option<ChannelSyncState> {
    if history == [] then None
    else
      match history[|history| - 1]
      case Configure(config, _) =>
        if config.channelId == id then Some(config) else InForce(history[..|history| - 1], id)
      case Clear => None
      case _ => InForce(history[..|history| - 1], id)
  }

  /** When a channel was last configured or flushed. */
  function LastReset(history: seq<PolicyEvent>, id: string): int {
    if history == [] then 0
    else
      match history[|history| - 1]
      case Configure(config, at) =>
        if config.channelId == id then at else LastReset(history[..|history| - 1], id)
      case Flush(at) => at
      case _ => LastReset(history[..|history| - 1], id)
  }

  /** The value of a channel's latest change since it was last configured. */
  function Base(history: seq<PolicyEvent>, id: string): Option<real>
    decreases |history|, 0
  {
    if history == [] then None
    else
      var earlier := history[..|history| - 1];
      match history[|history| - 1]
      case Configure(config, _) => if config.channelId == id then None else Base(earlier, id)
      case Clear => None
      case Sample(channel, value) =>
        if channel == id && IsChange(earlier, id, value) then Some(value) else Base(earlier, id)
      case Flush(_) => Base(earlier, id)
  }

  /** A value that differs from the latest change of a remote on-change channel by more than its threshold. */
  predicate IsChange(history: seq<PolicyEvent>, id: string, value: real)
    decreases |history|, 1
  {
    && InForce(history, id).Some?
    && InForce(history, id).value.destinationRemote
    && InForce(history, id).value.mode.OnChange?
    && (Base(history, id) == None
        || value > Base(history, id).value + InForce(history, id).value.onChangeThreshold
        || value < Base(history, id).value - InForce(history, id).value.onChangeThreshold)
  }

  predicate IsRealtime(history: seq<PolicyEvent>, id: string) {
    && InForce(history, id).Some?
    && InForce(history, id).value.destinationRemote
    && InForce(history, id).value.mode.Realtime?
  }

  predicate Resets(event: PolicyEvent) {
    event.Flush? || event.Clear?
  }

  /** Event `i` is a realtime sample that no flush has followed. */
  ghost predicate RealtimeWaiting(history: seq<PolicyEvent>, i: nat)
    requires i < |history|
  {
    && history[i].Sample? && IsRealtime(history[..i], history[i].channelId)
    && forall j | i < j < |history| :: !Resets(history[j])
  }

  /** Event `i` is a change on an on-change channel that no flush has followed. */
  ghost predicate ChangeWaiting(history: seq<PolicyEvent>, i: nat)
    requires i < |history|
  {
    && history[i].Sample? && IsChange(history[..i], history[i].channelId, history[i].value)
    && forall j | i < j < |history| :: !Resets(history[j])
  }

  predicate Overdue(history: seq<PolicyEvent>, id: string, now: int) {
    && InForce(history, id).Some?
    && InForce(history, id).value.destinationRemote
    && InForce(history, id).value.mode.Batch?
    && now - LastReset(history, id) >= InForce(history, id).value.remoteInterval
  }

  // ----- The policy state is a summary of the history -----

  ghost predicate ChannelSummary(policy: Policy, history: seq<PolicyEvent>, id: string) {
    && (id in policy.channels <==> InForce(history, id).Some?)
    && (id in policy.channels ==>
          var state := policy.channels[id];
          && state.config == InForce(history, id).value
          && state.lastFlush == LastReset(history, id)
          && (state.hasUploadedValue <==> Base(history, id).Some?)
          && (state.hasUploadedValue ==> state.lastUploadedValue == Base(history, id).value))
  }

  lemma {:induction false} ChannelIsSummary(history: seq<PolicyEvent>, id: string)
    ensures ChannelSummary(Run(history), history, id)
  {
    if history != [] {
      ChannelIsSummary(history[..|history| - 1], id);
    }
  }

  /** What a sample does to the flags. */
  lemma SampleRaises(history: seq<PolicyEvent>, id: string, value: real)
    ensures var policy := Run(history);
            && (Sampled(policy, id, value).anyPendingRealtime <==> policy.anyPendingRealtime || IsRealtime(history, id))
            && (Sampled(policy, id, value).anyPendingOnChange
                <==> policy.anyPendingOnChange || IsChange(history, id, value))
    ensures var before, after := Run(history).channels, Sampled(Run(history), id, value).channels;
            && after.Keys == before.Keys
            && (IsRealtime(history, id) || IsChange(history, id, value) ==> id in before)
            && forall other | other in before ::
                 && (after[other].pendingRealtime <==>
                       before[other].pendingRealtime || (other == id && IsRealtime(history, id)))
                 && (after[other].pendingOnChange <==>
                       before[other].pendingOnChange || (other == id && IsChange(history, id, value)))
  {
    hide RunFrom, InForce, Base;
    ChannelIsSummary(history, id);
  }

  ghost predicate SomeRealtimeWaits(history: seq<PolicyEvent>) {
    exists i: nat | i < |history| :: RealtimeWaiting(history, i)
  }

  ghost predicate SomeChangeWaits(history: seq<PolicyEvent>) {
    exists i: nat | i < |history| :: ChangeWaiting(history, i)
  }

  lemma SomeWaitsStep(history: seq<PolicyEvent>)
    requires history != []
    ensures var earlier, last := history[..|history| - 1], history[|history| - 1];
            && (SomeRealtimeWaits(history) <==>
                  (SomeRealtimeWaits(earlier) && !Resets(last)) || (last.Sample? && IsRealtime(earlier, last.channelId)))
            && (SomeChangeWaits(history) <==>
                  (SomeChangeWaits(earlier) && !Resets(last))
                  || (last.Sample? && IsChange(earlier, last.channelId, last.value)))
  {
    hide IsRealtime, IsChange;
    var n := |history| - 1;
    var earlier, last := history[..n], history[n];
    forall i: nat | i < n
      ensures RealtimeWaiting(history, i) <==> RealtimeWaiting(earlier, i) && !Resets(last)
      ensures ChangeWaiting(history, i) <==> ChangeWaiting(earlier, i) && !Resets(last)
    {
      assert history[..i] == earlier[..i];
      assert forall j | 0 <= j < n :: history[j] == earlier[j];
    }
    assert RealtimeWaiting(history, n) <==> last.Sample? && IsRealtime(earlier, last.channelId);
    assert ChangeWaiting(history, n) <==> last.Sample? && IsChange(earlier, last.channelId, last.value);
  }

  /** The cached flags say whether something is waiting. */
  lemma {:induction false} FlagsAreSummary(history: seq<PolicyEvent>)
    ensures Run(history).anyPendingRealtime <==> SomeRealtimeWaits(history)
    ensures Run(history).anyPendingOnChange <==> SomeChangeWaits(history)
  {
    if history != [] {
      hide IsRealtime, IsChange, Sampled, SomeRealtimeWaits, SomeChangeWaits;
      var n := |history| - 1;
      FlagsAreSummary(history[..n]);
      SomeWaitsStep(history);
      if history[n].Sample? {
        SampleRaises(history[..n], history[n].channelId, history[n].value);
      }
    }
  }

  /**
   * The flush decision, for any history at all: it is due exactly when samples are buffered and
   * the batch is full, or a realtime sample or a change has not been followed by a flush, or a
   * remote batch channel's interval has passed since it was last configured or flushed.
   */
  lemma FlushDecision(history: seq<PolicyEvent>, now: int, bufferedCount: nat, maxBatchSize: nat)
    ensures ShouldFlush(Run(history), now, bufferedCount, maxBatchSize) <==>
            && bufferedCount > 0
            && (|| (maxBatchSize > 0 && bufferedCount >= maxBatchSize)
                || (exists i: nat | i < |history| :: RealtimeWaiting(history, i) || ChangeWaiting(history, i))
                || (exists id :: Overdue(history, id, now)))
  {
    FlagsAreSummary(history);
    var policy := Run(history);
    forall id ensures Overdue(history, id, now) <==>
                      id in policy.channels && IntervalElapsed(policy.channels[id], now) {
      ChannelIsSummary(history, id);
    }
  }

  // ----- The cached flags -----

  /** The two cached flags are the disjunctions of the per-channel flags. */
  ghost predicate FlagsAgree(policy: Policy) {
    && (policy.anyPendingRealtime <==> exists id | id in policy.channels :: policy.channels[id].pendingRealtime)
    && (policy.anyPendingOnChange <==> exists id | id in policy.channels :: policy.channels[id].pendingOnChange)
  }

  /** No configuration of its channel has followed sample event `i`. */
  ghost predicate Standing(history: seq<PolicyEvent>, i: nat)
    requires i < |history| && history[i].Sample?
  {
    forall j | i < j < |history| :: !Configures(history[j], history[i].channelId)
  }

  predicate Configures(event: PolicyEvent, id: string) {
    event.Configure? && event.config.channelId == id
  }

  ghost predicate RealtimeStands(history: seq<PolicyEvent>, i: nat)
    requires i < |history|
  {
    RealtimeWaiting(history, i) && Standing(history, i)
  }

  ghost predicate ChangeStands(history: seq<PolicyEvent>, i: nat)
    requires i < |history|
  {
    ChangeWaiting(history, i) && Standing(history, i)
  }

  /** A flush, a clear or a configuration of its channel ends the standing of a sample event. */
  predicate Ends(event: PolicyEvent, last: PolicyEvent) {
    Resets(last) || (event.Sample? && Configures(last, event.channelId))
  }

  /** A waiting event goes on standing unless it is flushed, cleared or its channel is configured. */
  lemma StandsLonger(history: seq<PolicyEvent>, i: nat)
    requires i < |history| - 1
    ensures var earlier, last := history[..|history| - 1], history[|history| - 1];
            && history[i] == earlier[i]
            && (RealtimeStands(history, i) <==> RealtimeStands(earlier, i) && !Ends(earlier[i], last))
            && (ChangeStands(history, i) <==> ChangeStands(earlier, i) && !Ends(earlier[i], last))
  {
    hide IsRealtime, IsChange;
    var earlier := history[..|history| - 1];
    assert history[..i] == earlier[..i];
    assert forall j | 0 <= j < |earlier| :: history[j] == earlier[j];
  }

  ghost predicate SomeRealtimeStands(history: seq<PolicyEvent>, id: string) {
    exists i: nat | i < |history| :: RealtimeStands(history, i) && history[i].channelId == id
  }

  ghost predicate SomeChangeStands(history: seq<PolicyEvent>, id: string) {
    exists i: nat | i < |history| :: ChangeStands(history, i) && history[i].channelId == id
  }

  lemma SomeStandsStep(history: seq<PolicyEvent>, id: string)
    requires history != []
    ensures var earlier, last := history[..|history| - 1], history[|history| - 1];
            var ends, mine := Resets(last) || Configures(last, id), last.Sample? && last.channelId == id;
            && (SomeRealtimeStands(history, id) <==>
                  (SomeRealtimeStands(earlier, id) && !ends) || (mine && IsRealtime(earlier, id)))
            && (SomeChangeStands(history, id) <==>
                  (SomeChangeStands(earlier, id) && !ends) || (mine && IsChange(earlier, id, last.value)))
  {
    hide IsRealtime, IsChange;
    var n := |history| - 1;
    var earlier, last := history[..n], history[n];
    forall i: nat | i < n
      ensures RealtimeStands(history, i) <==> RealtimeStands(earlier, i) && !Ends(earlier[i], last)
      ensures ChangeStands(history, i) <==> ChangeStands(earlier, i) && !Ends(earlier[i], last)
      ensures history[i] == earlier[i]
    {
      StandsLonger(history, i);
    }
    assert RealtimeStands(history, n) <==> last.Sample? && IsRealtime(earlier, last.channelId);
    assert ChangeStands(history, n) <==> last.Sample? && IsChange(earlier, last.channelId, last.value);
    hide Standing, RealtimeWaiting, ChangeWaiting;
  }

  /** A channel's own flags say whether one of its events stands. */
  lemma {:induction false} PendingIsSummary(history: seq<PolicyEvent>, id: string)
    ensures var channels := Run(history).channels;
            && (id in channels && channels[id].pendingRealtime <==> SomeRealtimeStands(history, id))
            && (id in channels && channels[id].pendingOnChange <==> SomeChangeStands(history, id))
  {
    if history != [] {
      hide IsRealtime, IsChange, Sampled, SomeRealtimeStands, SomeChangeStands;
      var n := |history| - 1;
      PendingIsSummary(history[..n], id);
      SomeStandsStep(history, id);
      if history[n].Sample? {
        SampleRaises(history[..n], history[n].channelId, history[n].value);
      }
    }
  }

  lemma SomePendingIff(history: seq<PolicyEvent>)
    ensures var channels := Run(history).channels;
            && ((exists id | id in channels :: channels[id].pendingRealtime)
                <==> exists i: nat | i < |history| :: RealtimeStands(history, i))
            && ((exists id | id in channels :: channels[id].pendingOnChange)
                <==> exists i: nat | i < |history| :: ChangeStands(history, i))
  {
    hide Run, Standing, IsRealtime, IsChange;
    var channels := Run(history).channels;
    forall id
      ensures id in channels && channels[id].pendingRealtime <==> SomeRealtimeStands(history, id)
      ensures id in channels && channels[id].pendingOnChange <==> SomeChangeStands(history, id)
    {
      PendingIsSummary(history, id);
    }
    forall i: nat | i < |history|
      ensures RealtimeStands(history, i) ==> SomeRealtimeStands(history, history[i].channelId)
      ensures ChangeStands(history, i) ==> SomeChangeStands(history, history[i].channelId)
    {
    }
  }

  /**
   * The cached flags, for any history at all: they are the disjunctions of the channels' own flags
   * exactly when, for either kind of event, something waiting for a flush means that something stands,
   * that is, waits on a channel that has not been configured since.
   */
  lemma CachedFlagsIff(history: seq<PolicyEvent>)
    ensures FlagsAgree(Run(history)) <==>
            && (SomeRealtimeWaits(history)
                ==> exists i: nat | i < |history| :: RealtimeStands(history, i))
            && (SomeChangeWaits(history)
                ==> exists i: nat | i < |history| :: ChangeStands(history, i))
  {
    hide Run, Standing, RealtimeWaiting, ChangeWaiting;
    FlagsAreSummary(history);
    SomePendingIff(history);
    assert forall i: nat | i < |history| :: RealtimeStands(history, i) ==> RealtimeWaiting(history, i);
    assert forall i: nat | i < |history| :: ChangeStands(history, i) ==> ChangeWaiting(history, i);
  }

  /** Every configuration comes before any sample since the last flush or clear. */
  ghost predicate ConfiguresWhileIdle(history: seq<PolicyEvent>) {
    forall i, j | 0 <= j < i < |history| && history[i].Configure? && history[j].Sample? ::
      exists k | j < k < i :: Resets(history[k])
  }

  /** So configuring only while nothing is waiting keeps them right. */
  lemma CachedFlagsConsistent(history: seq<PolicyEvent>)
    requires ConfiguresWhileIdle(history)
    ensures FlagsAgree(Run(history))
  {
    hide IsRealtime, IsChange;
    CachedFlagsIff(history);
    forall i: nat | i < |history|
      ensures RealtimeWaiting(history, i) ==> RealtimeStands(history, i)
      ensures ChangeWaiting(history, i) ==> ChangeStands(history, i)
    {
    }
  }

  lemma StepKeepsAgreement(policy: Policy, event: PolicyEvent)
    requires FlagsAgree(policy) && !event.Configure?
    ensures FlagsAgree(Apply(policy, event))
  {
    var after := Apply(policy, event);
    forall id | id in policy.channels && id in after.channels
                && !(event.Sample? && event.channelId == id) && !event.Flush?
      ensures after.channels[id] == policy.channels[id]
    {
    }
    if event.Sample? {
      assert after.channels.Keys == policy.channels.Keys;
      forall id | id in policy.channels
        ensures policy.channels[id].pendingRealtime ==> after.channels[id].pendingRealtime
        ensures policy.channels[id].pendingOnChange ==> after.channels[id].pendingOnChange
      {
      }
    }
  }

  ghost predicate PendingElsewhere(policy: Policy, id: string) {
    && (policy.anyPendingRealtime ==>
          exists other | other in policy.channels && other != id :: policy.channels[other].pendingRealtime)
    && (policy.anyPendingOnChange ==>
          exists other | other in policy.channels && other != id :: policy.channels[other].pendingOnChange)
  }

  /** Configuring a channel keeps the cached flags right exactly when no flag rests on that channel alone. */
  lemma ReconfigureKeepsFlagsIff(policy: Policy, config: ChannelSyncState, at: int)
    requires FlagsAgree(policy)
    ensures FlagsAgree(Configured(policy, config, at)) <==> PendingElsewhere(policy, config.channelId)
  {
    var after := Configured(policy, config, at);
    forall id | id in after.channels && id != config.channelId
      ensures id in policy.channels && after.channels[id] == policy.channels[id]
    {
    }
    forall id | id in policy.channels ensures id in after.channels {
    }
    assert !after.channels[config.channelId].pendingRealtime && !after.channels[config.channelId].pendingOnChange;
  }

  /** Replacing a channel that has a pending sample leaves the cached flag set with nothing behind it. */
  lemma ReconfigureBreaksFlags()
    ensures exists history :: |history| == 3 && !FlagsAgree(Run(history))
  {
    var config := ChannelSyncState("alarm", Realtime, Normal, 1, 0.0, true);
    var h0 := [Configure(config, 0)];
    var h1 := h0 + [PolicyEvent.Sample("alarm", 1.0)];
    var history := h1 + [Configure(config, 1)];
    assert h0[..0] == [] && h1[..1] == h0 && history[..2] == h1;
    var p0 := Configured(EmptyPolicy(), config, 0);
    assert RunFrom(EmptyPolicy(), h0[..0]) == EmptyPolicy();
    assert Run(h0) == Apply(RunFrom(EmptyPolicy(), h0[..0]), h0[0]) == p0;
    assert Run(h1) == Sampled(p0, "alarm", 1.0);
    assert Run(history) == Configured(Sampled(p0, "alarm", 1.0), config, 1);
  }

  // ----- On-change filtering -----

  /**
   * One sample of a remote on-change channel that remembers a value: a rise or a fall by more than the
   * threshold raises both flags and is remembered, and anything else changes nothing.
   */
  lemma FarSampleIsChange(policy: Policy, id: string, value: real)
    requires id in policy.channels && policy.channels[id].hasUploadedValue
    requires policy.channels[id].config.destinationRemote && policy.channels[id].config.mode.OnChange?
    ensures var state := policy.channels[id];
            var base, threshold := state.lastUploadedValue, state.config.onChangeThreshold;
            Sampled(policy, id, value) ==
              if value > base + threshold || value < base - threshold then
                policy.(channels := policy.channels[id := state.(pendingOnChange := true, lastUploadedValue := value)],
                        anyPendingOnChange := true)
              else policy
  {
  }

  /** Position of the latest mark before position `k`. */
  function Latest(marks: seq<bool>, k: nat): (j: Option<nat>)
    requires k <= |marks|
    ensures j.Some? ==> j.value < k && marks[j.value]
  {
    if k == 0 then None else if marks[k - 1] then Some(k - 1) else Latest(marks, k - 1)
  }

  /** The marks pick the greedy subsequence: a value is marked iff it is the first or is far from the latest marked one. */
  ghost predicate Greedy(values: seq<real>, threshold: real, marks: seq<bool>) {
    |marks| == |values| && forall k | 0 <= k < |values| :: MarkedRight(values, threshold, marks, k)
  }

  predicate MarkedRight(values: seq<real>, threshold: real, marks: seq<bool>, k: nat)
    requires k < |values| == |marks|
  {
    marks[k] <==>
      || Latest(marks, k) == None
      || values[k] > values[Latest(marks, k).value] + threshold
      || values[k] < values[Latest(marks, k).value] - threshold
  }

  lemma {:induction false} LatestOfPrefix(marks: seq<bool>, mark: bool, k: nat)
    requires k <= |marks|
    ensures Latest(marks + [mark], k) == Latest(marks, k)
  {
    if k > 0 {
      LatestOfPrefix(marks, mark, k - 1);
    }
  }

  lemma {:induction false} LatestIs(marks: seq<bool>, j: nat, k: nat)
    requires j < k <= |marks| && marks[j] && forall i | j < i < k :: !marks[i]
    ensures Latest(marks, k) == Some(j)
  {
    if j < k - 1 {
      LatestIs(marks, j, k - 1);
    }
  }

  /**
   * What greedy marks mean for two positions with no mark between them: the later value is marked
   * exactly when it differs from the marked one by more than the threshold.
   */
  lemma GreedyGaps(values: seq<real>, threshold: real, marks: seq<bool>, j: nat, k: nat)
    requires Greedy(values, threshold, marks) && j < k < |values|
    requires marks[j] && forall i | j < i < k :: !marks[i]
    ensures marks[k] <==> values[k] > values[j] + threshold || values[k] < values[j] - threshold
    ensures marks[0]
  {
    LatestIs(marks, j, k);
    assert MarkedRight(values, threshold, marks, k) && MarkedRight(values, threshold, marks, 0);
  }

  /** A sequence of values has only one greedy subsequence. */
  lemma {:induction false} GreedyUnique(values: seq<real>, threshold: real, a: seq<bool>, b: seq<bool>, n: nat)
    requires Greedy(values, threshold, a) && Greedy(values, threshold, b) && n <= |values|
    ensures Latest(a, n) == Latest(b, n)
    ensures n < |values| ==> a[n] == b[n]
  {
    if n > 0 {
      GreedyUnique(values, threshold, a, b, n - 1);
    }
    if n < |values| {
      assert MarkedRight(values, threshold, a, n) && MarkedRight(values, threshold, b, n);
    }
  }

  /** The values of a channel's samples, in order. */
  function Values(history: seq<PolicyEvent>, id: string): seq<real> {
    if history == [] then []
    else
      var last := history[|history| - 1];
      Values(history[..|history| - 1], id) + if last.Sample? && last.channelId == id then [last.value] else []
  }

  /** For each of a channel's samples, whether the policy counted it as a change. */
  function Raised(policy: Policy, history: seq<PolicyEvent>, id: string): seq<bool> {
    if history == [] then []
    else
      var earlier, last := history[..|history| - 1], history[|history| - 1];
      var channels := RunFrom(policy, earlier).channels;
      Raised(policy, earlier, id)
      + if last.Sample? && last.channelId == id then [id in channels && Triggers(channels[id], last.value)] else []
  }

  predicate Undisturbed(history: seq<PolicyEvent>, id: string) {
    forall i | 0 <= i < |history| ::
      !history[i].Clear? && !(history[i].Configure? && history[i].config.channelId == id)
  }

  /** What the policy remembers about an on-change channel, given its values and the changes among them. */
  ghost predicate Remembers(policy: Policy, config: ChannelSyncState, values: seq<real>, marks: seq<bool>) {
    && config.channelId in policy.channels
    && |marks| == |values|
    && var state := policy.channels[config.channelId];
       && state.config == config
       && (state.hasUploadedValue <==> Latest(marks, |marks|).Some?)
       && (state.hasUploadedValue ==> state.lastUploadedValue == values[Latest(marks, |marks|).value])
  }

  lemma OnChangeStep(policy: Policy, config: ChannelSyncState, values: seq<real>, marks: seq<bool>, value: real)
    requires config.mode.OnChange? && config.destinationRemote
    requires Greedy(values, config.onChangeThreshold, marks) && Remembers(policy, config, values, marks)
    ensures var mark := Triggers(policy.channels[config.channelId], value);
            && Greedy(values + [value], config.onChangeThreshold, marks + [mark])
            && Remembers(Sampled(policy, config.channelId, value), config, values + [value], marks + [mark])
  {
    var n, mark := |values|, Triggers(policy.channels[config.channelId], value);
    var longer, more := values + [value], marks + [mark];
    forall k | 0 <= k <= n ensures MarkedRight(longer, config.onChangeThreshold, more, k) {
      LatestOfPrefix(marks, mark, k);
      if k < n {
        assert MarkedRight(values, config.onChangeThreshold, marks, k);
      }
    }
    LatestOfPrefix(marks, mark, n);
  }

  /** Events of other channels and flushes leave that memory alone. */
  lemma OtherStep(policy: Policy, config: ChannelSyncState, values: seq<real>, marks: seq<bool>, event: PolicyEvent)
    requires Remembers(policy, config, values, marks)
    requires !event.Clear? && !(event.Configure? && event.config.channelId == config.channelId)
    requires !(event.Sample? && event.channelId == config.channelId)
    ensures Remembers(Apply(policy, event), config, values, marks)
  {
  }

  /**
   * From the configuration of a remote on-change channel, whatever other channels do and whenever
   * flushes happen, the samples counted as changes are the greedy subsequence of the channel's values.
   */
  lemma {:induction false} OnChangeIsGreedy(policy: Policy, config: ChannelSyncState, at: int, history: seq<PolicyEvent>)
    requires config.mode.OnChange? && config.destinationRemote && Undisturbed(history, config.channelId)
    ensures var start, id := Configured(policy, config, at), config.channelId;
            && Greedy(Values(history, id), config.onChangeThreshold, Raised(start, history, id))
            && Remembers(RunFrom(start, history), config, Values(history, id), Raised(start, history, id))
  {
    if history != [] {
      var n := |history| - 1;
      var earlier, id := history[..n], config.channelId;
      assert Undisturbed(earlier, id);
      OnChangeIsGreedy(policy, config, at, earlier);
      var start := Configured(policy, config, at);
      var before, values, marks := RunFrom(start, earlier), Values(earlier, id), Raised(start, earlier, id);
      if history[n].Sample? && history[n].channelId == id {
        OnChangeStep(before, config, values, marks, history[n].value);
      } else {
        OtherStep(before, config, values, marks, history[n]);
        assert Values(history, id) == values && Raised(start, history, id) == marks;
      }
    }
  }
}
