/**
 * What the ring buffer does over whole runs: a run of enqueues keeps exactly the best `capacity`
 * samples, and with dequeues mixed in the buffer stays first-in first-out and accounts for
 * every sample.
 */
module RingBufferRuns {
  import opened Samples
  import opened RingBuffers

  function EnqueueAll(ring: Ring, arrivals: seq<StoredSample>): Ring {
    if arrivals == [] then ring
    else Enqueued(EnqueueAll(ring, arrivals[..|arrivals| - 1]), arrivals[|arrivals| - 1])
  }

  // ----- Selections: subsequences given by a set of positions -----

  function Select(history: seq<StoredSample>, kept: set<nat>): (selection: seq<StoredSample>)
    ensures |selection| <= |history|
  {
    if history == [] then []
    else
      var n := |history| - 1;
      Select(history[..n], kept) + if n in kept then [history[n]] else []
  }

  ghost function Positions(n: nat): (s: set<nat>)
    ensures forall i: nat :: i in s <==> i < n
  {
    if n == 0 then {} else Positions(n - 1) + {n - 1}
  }

  lemma {:induction false} CountPositions(n: nat)
    ensures |Positions(n)| == n
  {
    if n > 0 {
      CountPositions(n - 1);
      var before := Positions(n - 1);
      assert n - 1 !in before;
      assert |before + {n - 1}| == |before| + 1;
    }
  }

  lemma {:induction false} Subset(a: set<nat>, b: set<nat>)
    requires a <= b
    ensures |a| <= |b|
    ensures |a| == |b| ==> a == b
  {
    if a != {} {
      var x :| x in a;
      Subset(a - {x}, b - {x});
    }
  }

  /** Positions beyond the history select nothing. */
  lemma {:induction false} SelectWithin(history: seq<StoredSample>, a: set<nat>, b: set<nat>)
    requires forall i: nat | i < |history| :: i in a <==> i in b
    ensures Select(history, a) == Select(history, b)
  {
    if history != [] {
      SelectWithin(history[..|history| - 1], a, b);
    }
  }

  lemma SelectExtended(history: seq<StoredSample>, kept: set<nat>, sample: StoredSample)
    requires kept <= Positions(|history|)
    ensures Select(history + [sample], kept) == Select(history, kept)
    ensures Select(history + [sample], kept + {|history|}) == Select(history, kept) + [sample]
  {
    assert (history + [sample])[..|history|] == history;
    SelectWithin(history, kept, kept + {|history|});
  }

  lemma {:induction false} SelectAll(history: seq<StoredSample>)
    ensures Select(history, Positions(|history|)) == history
  {
    if history != [] {
      var init := history[..|history| - 1];
      SelectAll(init);
      SelectWithin(init, Positions(|history|), Positions(|init|));
    }
  }

  lemma {:induction false} CountSelected(history: seq<StoredSample>, kept: set<nat>)
    requires kept <= Positions(|history|)
    ensures |Select(history, kept)| == |kept|
  {
    if history != [] {
      var n := |history| - 1;
      CountSelected(history[..n], kept - {n});
      SelectWithin(history[..n], kept, kept - {n});
    } else {
      assert kept == {};
    }
  }

  /** The position that an item of a selection came from, and that order is kept around it. */
  lemma {:induction false} Locate(history: seq<StoredSample>, kept: set<nat>, d: nat) returns (k: nat)
    requires d < |Select(history, kept)|
    ensures k < |history| && k in kept && history[k] == Select(history, kept)[d]
    ensures Select(history, kept - {k}) == Without(Select(history, kept), d)
    ensures forall i: nat | i < k && i in kept :: history[i] in Select(history, kept)[..d]
    ensures forall i: nat | k < i < |history| && i in kept :: history[i] in Select(history, kept)
  {
    var n := |history| - 1;
    if d < |Select(history[..n], kept)| {
      k := Locate(history[..n], kept, d);
      LocateEarlier(history, kept, d, k);
    } else {
      k := n;
      LocateLast(history, kept, d);
    }
  }

  lemma LocateEarlier(history: seq<StoredSample>, kept: set<nat>, d: nat, k: nat)
    requires history != []
    requires var before := Select(history[..|history| - 1], kept);
             && d < |before| && k < |history| - 1
             && Select(history[..|history| - 1], kept - {k}) == Without(before, d)
    ensures var selection, before := Select(history, kept), Select(history[..|history| - 1], kept);
            d < |selection| && selection[d] == before[d] && selection[..d] == before[..d]
    ensures Select(history, kept - {k}) == Without(Select(history, kept), d)
    ensures forall i: nat | k < i < |history| && i in kept :: history[i] in Select(history, kept)
  {
    var n := |history| - 1;
    var before, selection := Select(history[..n], kept), Select(history, kept);
    SelectedMembers(history, kept);
    assert selection[..d] == before[..d];
    assert Without(selection, d) == Without(before, d) + if n in kept then [history[n]] else [];
  }

  lemma LocateLast(history: seq<StoredSample>, kept: set<nat>, d: nat)
    requires history != [] && |Select(history[..|history| - 1], kept)| <= d < |Select(history, kept)|
    ensures var n, selection := |history| - 1, Select(history, kept);
            && n in kept && selection[d] == history[n] && Select(history, kept - {n}) == Without(selection, d)
            && forall i: nat | i < n && i in kept :: history[i] in selection[..d]
  {
    var n := |history| - 1;
    var init, selection := history[..n], Select(history, kept);
    SelectedMembers(init, kept);
    SelectWithin(init, kept, kept - {n});
    assert selection[..d] == Select(init, kept);
  }

  lemma {:induction false} SelectedMembers(history: seq<StoredSample>, kept: set<nat>)
    ensures forall i: nat | i < |history| && i in kept :: history[i] in Select(history, kept)
  {
    if history != [] {
      SelectedMembers(history[..|history| - 1], kept);
    }
  }

  // ----- Streaming top-k -----

  /** Sample `j` of a history is preferred to sample `i`: higher priority, or as high and younger. */
  predicate Beats(history: seq<StoredSample>, j: nat, i: nat)
    requires i < |history| && j < |history|
  {
    LowerThan(history[i], history[j]) || (!LowerThan(history[j], history[i]) && i < j)
  }

  ghost function Rivals(history: seq<StoredSample>, i: nat): set<nat>
    requires i < |history|
  {
    set j: nat | j < |history| && Beats(history, j, i)
  }

  /** The samples of a history that fewer than `capacity` others beat, in arrival order. */
  ghost function Best(history: seq<StoredSample>, capacity: nat): seq<StoredSample> {
    Select(history, set i: nat | i < |history| && |Rivals(history, i)| < capacity)
  }

  /** `kept` has the right size and its members all beat everything outside it. */
  ghost predicate TopK(history: seq<StoredSample>, kept: set<nat>, capacity: nat) {
    && kept <= Positions(|history|)
    && |kept| == Min(capacity, |history|)
    && forall i, j | i in kept && j in Positions(|history|) - kept :: Beats(history, i, j)
  }

  /** A newcomer below every resident is beaten by all of them. */
  lemma RefusedKeepsTopK(history: seq<StoredSample>, kept: set<nat>, items: seq<StoredSample>, sample: StoredSample)
    requires TopK(history, kept, |kept|) && items == Select(history, kept) && items != []
    requires LowerThan(sample, items[DropOffset(items)])
    ensures TopK(history + [sample], kept, |kept|)
  {
    SelectedMembers(history, kept);
    DropOffsetIsLowest(items, DropOffset(items));
    var n := |history|;
    forall i, j | i in kept && j in Positions(n + 1) - kept ensures Beats(history + [sample], i, j) {
      assert history[i] in items;
      assert j < n ==> Beats(history, i, j);
    }
  }

  /** Any other newcomer takes the victim's place, and the victim is beaten by all the others. */
  lemma ReplacedKeepsTopK(history: seq<StoredSample>, kept: set<nat>, items: seq<StoredSample>, sample: StoredSample)
    returns (kept': set<nat>)
    requires TopK(history, kept, |kept|) && items == Select(history, kept) && items != []
    requires !LowerThan(sample, items[DropOffset(items)])
    ensures TopK(history + [sample], kept', |kept|)
    ensures Without(items, DropOffset(items)) + [sample] == Select(history + [sample], kept')
  {
    var n, d := |history|, DropOffset(items);
    DropOffsetIsLowest(items, d);
    var k := Locate(history, kept, d);
    SelectExtended(history, kept - {k}, sample);
    kept' := kept - {k} + {n};
    forall i, j | i in kept' && j in Positions(n + 1) - kept' ensures Beats(history + [sample], i, j) {
      assert j != k ==> Beats(history, k, j);
      assert i < k ==> history[i] in items[..d];
      assert k < i < n ==> history[i] in items;
      KeptBeatsVictim(history, items, sample, k, d, i, j);
    }
  }

  /** Whatever stays beats the victim, and so everything the victim beats. */
  lemma KeptBeatsVictim(history: seq<StoredSample>, items: seq<StoredSample>, sample: StoredSample,
                        k: nat, d: nat, i: nat, j: nat)
    requires k < |history| && IsLowest(items, d) && items[d] == history[k] && !LowerThan(sample, items[d])
    requires j < |history| && i <= |history| && i != k
    requires j == k || Beats(history, k, j)
    requires i < k ==> history[i] in items[..d]
    requires k < i < |history| ==> history[i] in items
    ensures Beats(history + [sample], i, j)
  {
  }

  /** One enqueue keeps the residents a top-k selection of the history. */
  lemma EnqueueKeepsTopK(history: seq<StoredSample>, kept: set<nat>, ring: Ring, sample: StoredSample)
    returns (kept': set<nat>)
    requires TopK(history, kept, ring.capacity) && ring.items == Select(history, kept)
    ensures TopK(history + [sample], kept', ring.capacity)
    ensures Enqueued(ring, sample).items == Select(history + [sample], kept')
  {
    SelectExtended(history, kept, sample);
    CountSelected(history, kept);
    if |kept| < ring.capacity {
      CountPositions(|history|);
      Subset(kept, Positions(|history|));
      kept' := kept + {|history|};
    } else if LowerThan(sample, ring.items[DropOffset(ring.items)]) {
      RefusedKeepsTopK(history, kept, ring.items, sample);
      kept' := kept;
    } else {
      kept' := ReplacedKeepsTopK(history, kept, ring.items, sample);
    }
  }

  lemma {:induction false} EnqueueAllKeepsTopK(ring: Ring, arrivals: seq<StoredSample>) returns (kept: set<nat>)
    requires |ring.items| <= ring.capacity
    ensures EnqueueAll(ring, arrivals).capacity == ring.capacity
    ensures TopK(ring.items + arrivals, kept, ring.capacity)
    ensures EnqueueAll(ring, arrivals).items == Select(ring.items + arrivals, kept)
  {
    if arrivals == [] {
      assert ring.items + arrivals == ring.items;
      SelectAll(ring.items);
      CountPositions(|ring.items|);
      kept := Positions(|ring.items|);
    } else {
      var earlier, last := arrivals[..|arrivals| - 1], arrivals[|arrivals| - 1];
      var kept0 := EnqueueAllKeepsTopK(ring, earlier);
      kept := EnqueueKeepsTopK(ring.items + earlier, kept0, EnqueueAll(ring, earlier), last);
      assert ring.items + earlier + [last] == ring.items + arrivals;
    }
  }

  /** A top-k selection consists of exactly the positions with fewer than `capacity` rivals. */
  lemma TopKByRivals(history: seq<StoredSample>, kept: set<nat>, capacity: nat, i: nat)
    requires TopK(history, kept, capacity) && i < |history|
    ensures i in kept <==> |Rivals(history, i)| < capacity
  {
    if i in kept {
      forall j | j in Rivals(history, i) ensures j in kept - {i} {
        assert j !in kept ==> Beats(history, i, j);
      }
      Subset(Rivals(history, i), kept - {i});
    } else {
      CountPositions(|history|);
      Subset(kept, Positions(|history|));
      Subset(kept, Rivals(history, i));
    }
  }

  /**
   * Streaming top-k: from any state, a run of enqueues leaves exactly the `capacity` best of the
   * old residents and the arrivals, in arrival order.
   */
  lemma StreamingTopK(ring: Ring, arrivals: seq<StoredSample>)
    requires |ring.items| <= ring.capacity
    ensures EnqueueAll(ring, arrivals).items == Best(ring.items + arrivals, ring.capacity)
  {
    var history := ring.items + arrivals;
    var kept := EnqueueAllKeepsTopK(ring, arrivals);
    forall i: nat | i < |history| ensures i in kept <==> |Rivals(history, i)| < ring.capacity {
      TopKByRivals(history, kept, ring.capacity, i);
    }
    SelectWithin(history, kept, set i: nat | i < |history| && |Rivals(history, i)| < ring.capacity);
  }

  // ----- Runs of enqueues and dequeues -----

  datatype RingOp = Put(sample: StoredSample) | Take

  /** A ring and everything taken out of it so far. */
  datatype RingRun = RingRun(ring: Ring, taken: seq<StoredSample>)

  function ApplyOp(run: RingRun, op: RingOp): RingRun {
    match op
    case Put(sample) => run.(ring := Enqueued(run.ring, sample))
    case Take =>
      if run.ring.items == [] then run
      else RingRun(run.ring.(items := run.ring.items[1..]), run.taken + [run.ring.items[0]])
  }

  function RunOps(ring: Ring, ops: seq<RingOp>): RingRun {
    if ops == [] then RingRun(ring, [])
    else ApplyOp(RunOps(ring, ops[..|ops| - 1]), ops[|ops| - 1])
  }

  function Puts(ops: seq<RingOp>): seq<StoredSample> {
    if ops == [] then []
    else Puts(ops[..|ops| - 1]) + match ops[|ops| - 1] case Put(sample) => [sample] case Take => []
  }

  /**
   * First in, first out, and every sample accounted for: what was taken followed by what is
   * resident is a subsequence of what arrived, and the missing ones are counted as drops.
   */
  lemma {:induction false} FirstInFirstOut(ring: Ring, ops: seq<RingOp>) returns (kept: set<nat>)
    requires |ring.items| <= ring.capacity
    ensures var run, history := RunOps(ring, ops), ring.items + Puts(ops);
            && kept <= Positions(|history|)
            && run.taken + run.ring.items == Select(history, kept)
            && |history| == |run.ring.items| + |run.taken| + run.ring.drops - ring.drops
            && |run.ring.items| <= run.ring.capacity == ring.capacity
  {
    if ops == [] {
      assert ring.items + Puts(ops) == ring.items;
      SelectAll(ring.items);
      kept := Positions(|ring.items|);
    } else {
      var earlier := ops[..|ops| - 1];
      var before, history := RunOps(ring, earlier), ring.items + Puts(earlier);
      kept := FirstInFirstOut(ring, earlier);
      match ops[|ops| - 1]
      case Put(sample) =>
        assert ring.items + Puts(ops) == history + [sample];
        kept := PutKeepsOrder(history, kept, before, sample);
      case Take =>
        assert ring.items + Puts(ops) == history;
        TakeKeepsOrder(before);
    }
  }

  lemma TakeKeepsOrder(run: RingRun)
    ensures var after := ApplyOp(run, Take);
            after.taken + after.ring.items == run.taken + run.ring.items
  {
    if run.ring.items != [] {
      assert run.ring.items == [run.ring.items[0]] + run.ring.items[1..];
    }
  }

  lemma PutKeepsOrder(history: seq<StoredSample>, kept: set<nat>, run: RingRun, sample: StoredSample)
    returns (kept': set<nat>)
    requires kept <= Positions(|history|) && run.taken + run.ring.items == Select(history, kept)
    ensures kept' <= Positions(|history| + 1)
    ensures run.taken + Enqueued(run.ring, sample).items == Select(history + [sample], kept')
  {
    hide DropOffset, Select;
    SelectExtended(history, kept, sample);
    if |run.ring.items| < run.ring.capacity {
      kept' := kept + {|history|};
    } else {
      var d := DropOffset(run.ring.items);
      if LowerThan(sample, run.ring.items[d]) {
        kept' := kept;
      } else {
        var k := Locate(history, kept, |run.taken| + d);
        assert Without(run.taken + run.ring.items, |run.taken| + d) == run.taken + Without(run.ring.items, d);
        SelectExtended(history, kept - {k}, sample);
        kept' := kept - {k} + {|history|};
      }
    }
  }
}
