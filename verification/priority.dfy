/** Which priority a full ring gives up, and how many urgent samples survive a run. */
module Priorities {
  import opened Samples
  import opened RingBuffers
  import opened RingBufferRuns
  import opened LocalStores
  import opened Pipelines
  import opened EdgeRuns
  import opened BatchLogs

  lemma LowerThanIff(a: StoredSample, b: StoredSample)
    ensures LowerThan(a, b) <==>
              || (a.priority == Low && b.priority == Normal)
              || (a.priority == Low && b.priority == Critical)
              || (a.priority == Normal && b.priority == Critical)
  {
  }

  predicate Has(items: seq<StoredSample>, priority: Priority) {
    exists i | 0 <= i < |items| :: items[i].priority == priority
  }

  /** The least urgent priority among some samples. */
  function LeastUrgent(items: seq<StoredSample>): Priority {
    if Has(items, Low) then Low else if Has(items, Normal) then Normal else Critical
  }

  lemma LowestIsLeastUrgent(items: seq<StoredSample>, d: nat)
    requires IsLowest(items, d)
    ensures items[d].priority == LeastUrgent(items)
    ensures forall i | 0 <= i < d :: items[i].priority != items[d].priority
  {
    forall i | 0 <= i < |items|
      ensures items[d].priority == Low || items[i].priority != Low
      ensures items[d].priority == Critical ==> items[i].priority == Critical
      ensures i < d ==> items[i].priority != items[d].priority
    {
      LowerThanIff(items[i], items[d]);
      LowerThanIff(items[d], items[i]);
    }
  }

  /**
   * A full ring gives up a sample of the least urgent priority among its residents and the newcomer:
   * the oldest resident that has it, or the newcomer if no resident does.
   */
  lemma FullRingGivesUp(ring: Ring, sample: StoredSample) returns (d: nat)
    requires |ring.items| >= ring.capacity
    ensures var p := LeastUrgent(ring.items + [sample]);
            && Victim(ring, sample).Some? && Victim(ring, sample).value.priority == p
            && if Has(ring.items, p) then
                 && d < |ring.items| && ring.items[d].priority == p
                 && (forall i | 0 <= i < d :: ring.items[i].priority != p)
                 && Victim(ring, sample).value == ring.items[d]
                 && Enqueued(ring, sample).items == ring.items[..d] + ring.items[d + 1..] + [sample]
               else
                 Victim(ring, sample).value == sample && Enqueued(ring, sample).items == ring.items
  {
    var items, more := ring.items, ring.items + [sample];
    d := DropOffset(items);
    DropOffsetIsLowest(items, d);
    LowestIsLeastUrgent(items, d);
    LowerThanIff(sample, items[d]);
    assert more[|items|] == sample && forall i | 0 <= i < |items| :: more[i] == items[i];
    forall p | Has(items, p) ensures Has(more, p) {
      var i :| 0 <= i < |items| && items[i].priority == p;
      assert more[i].priority == p;
    }
    forall p | Has(more, p) ensures Has(items, p) || sample.priority == p {
      var i :| 0 <= i < |more| && more[i].priority == p;
      assert i < |items| ==> items[i].priority == p;
    }
    assert Has(more, sample.priority);
  }

  // ----- Runs -----

  predicate AtLeast(sample: StoredSample, priority: Priority) {
    match priority
    case Low => true
    case Normal => sample.priority != Low
    case Critical => sample.priority == Critical
  }

  /** How many samples are at least this urgent. */
  function CountAtLeast(items: seq<StoredSample>, priority: Priority): (n: nat)
    ensures n <= |items|
  {
    if items == [] then 0
    else
      CountAtLeast(items[..|items| - 1], priority) + if AtLeast(items[|items| - 1], priority) then 1 else 0
  }

  lemma {:induction false} CountAtLeastAppend(a: seq<StoredSample>, b: seq<StoredSample>, priority: Priority)
    ensures CountAtLeast(a + b, priority) == CountAtLeast(a, priority) + CountAtLeast(b, priority)
  {
    if b == [] {
      assert a + b == a;
    } else {
      assert (a + b)[..|a + b| - 1] == a + b[..|b| - 1];
      CountAtLeastAppend(a, b[..|b| - 1], priority);
    }
  }

  lemma CountOne(sample: StoredSample, priority: Priority)
    ensures CountAtLeast([sample], priority) == if AtLeast(sample, priority) then 1 else 0
  {
    assert [sample][..0] == [];
  }

  lemma {:induction false} AllAtLeast(items: seq<StoredSample>, priority: Priority)
    ensures CountAtLeast(items, priority) == |items| <==> forall i | 0 <= i < |items| :: AtLeast(items[i], priority)
  {
    if items != [] {
      AllAtLeast(items[..|items| - 1], priority);
    }
  }

  lemma CountWithoutOne(items: seq<StoredSample>, d: nat, priority: Priority)
    requires d < |items|
    ensures CountAtLeast(items, priority)
         == CountAtLeast(items[..d] + items[d + 1..], priority) + if AtLeast(items[d], priority) then 1 else 0
  {
    hide CountAtLeast;
    assert items == items[..d] + [items[d]] + items[d + 1..];
    CountAtLeastAppend(items[..d] + [items[d]], items[d + 1..], priority);
    CountAtLeastAppend(items[..d], [items[d]], priority);
    CountAtLeastAppend(items[..d], items[d + 1..], priority);
    CountOne(items[d], priority);
  }

  /** An enqueue leaves as many samples of at least a priority as there are, or a full ring of them. */
  lemma EnqueueKeepsUrgent(ring: Ring, sample: StoredSample, priority: Priority)
    requires |ring.items| <= ring.capacity
    ensures CountAtLeast(Enqueued(ring, sample).items, priority)
         == Min(ring.capacity,
                CountAtLeast(ring.items, priority) + if AtLeast(sample, priority) then 1 else 0)
  {
    hide CountAtLeast, DropOffset, LowerThan;
    CountOne(sample, priority);
    CountAtLeastAppend(ring.items, [sample], priority);
    AllAtLeast(ring.items, priority);
    if |ring.items| == ring.capacity {
      var d := FullRingGivesUp(ring, sample);
      LeastUrgentBounds(ring.items + [sample], priority);
      assert forall i | 0 <= i < |ring.items| :: (ring.items + [sample])[i] == ring.items[i];
      assert (ring.items + [sample])[|ring.items|] == sample;
      if Has(ring.items, LeastUrgent(ring.items + [sample])) {
        CountWithoutOne(ring.items, d, priority);
        CountAtLeastAppend(ring.items[..d] + ring.items[d + 1..], [sample], priority);
      }
    }
  }

  /** If the least urgent sample is at least this urgent, all are. */
  lemma LeastUrgentBounds(items: seq<StoredSample>, priority: Priority)
    ensures forall x: StoredSample | x.priority == LeastUrgent(items) && AtLeast(x, priority) ::
              forall i | 0 <= i < |items| :: AtLeast(items[i], priority)
  {
  }

  /**
   * Urgent samples survive: after any run of enqueues from any state, the ring holds as many samples
   * of at least a priority as its old residents and the arrivals together had, up to its capacity.
   * So no Critical sample is given up while Critical ones fit.
   */
  lemma {:induction false} UrgentSurvive(ring: Ring, arrivals: seq<StoredSample>, priority: Priority)
    requires |ring.items| <= ring.capacity
    ensures |EnqueueAll(ring, arrivals).items| <= EnqueueAll(ring, arrivals).capacity == ring.capacity
    ensures CountAtLeast(EnqueueAll(ring, arrivals).items, priority)
         == Min(ring.capacity, CountAtLeast(ring.items + arrivals, priority))
  {
    hide CountAtLeast, Enqueued;
    if arrivals == [] {
      assert ring.items + arrivals == ring.items;
    } else {
      var n := |arrivals| - 1;
      var before := EnqueueAll(ring, arrivals[..n]);
      UrgentSurvive(ring, arrivals[..n], priority);
      EnqueueFits(before, arrivals[n]);
      EnqueueKeepsUrgent(before, arrivals[n], priority);
      assert ring.items + arrivals == ring.items + arrivals[..n] + [arrivals[n]];
      CountAtLeastAppend(ring.items + arrivals[..n], [arrivals[n]], priority);
      CountOne(arrivals[n], priority);
    }
  }

  lemma EnqueueFits(ring: Ring, sample: StoredSample)
    requires |ring.items| <= ring.capacity
    ensures |Enqueued(ring, sample).items| <= Enqueued(ring, sample).capacity == ring.capacity
  {
  }

  /** The best of a history has as many samples of at least a priority as fit. */
  lemma BestKeepsUrgent(history: seq<StoredSample>, capacity: Positive, priority: Priority)
    ensures CountAtLeast(Best(history, capacity), priority) == Min(capacity, CountAtLeast(history, priority))
  {
    hide CountAtLeast, Best;
    StreamingTopK(EmptyRing(capacity), history);
    UrgentSurvive(EmptyRing(capacity), history, priority);
    assert [] + history == history;
  }

  /**
   * In every run, with a positive batch size, each flush POST since the last configuration carried as
   * many samples of at least a priority as had been polled since the flush POST before, up to the
   * batch size.
   */
  lemma FlushesCarryUrgent(disk: Table, steps: seq<Step>, j: nat, priority: Priority)
    requires WellKeyed(disk) && ValidSteps(steps) && KeyedFiles(steps)
    ensures var e := Run(Constructed(disk), steps);
            && e.maxBatchSize > 0 && j < |e.trace| && e.trace[j].Posted? && e.trace[j].kind.FlushPost?
            && (forall k | j <= k < |e.trace| :: !e.trace[k].Reconfigured?)
            ==> CountAtLeast(e.trace[j].batch, priority)
                == Min(e.maxBatchSize, CountAtLeast(PolledSince(e.trace[..j]), priority))
  {
    hide Run, Best, CountAtLeast, PolledSince;
    BatchLog(disk, steps, j);
    var e := Run(Constructed(disk), steps);
    if e.maxBatchSize > 0 && j < |e.trace| {
      BestKeepsUrgent(PolledSince(e.trace[..j]), e.maxBatchSize, priority);
    }
  }
}
