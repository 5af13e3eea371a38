/**
 * The fixed-capacity sample buffer: a circular array whose overflow policy gives up the oldest
 * of the lowest-priority residents.
 */
module RingBuffers {
  import opened Options
  import opened Samples

  type Positive = n: int | 0 < n witness 1

  /** The abstract value of a buffer: its residents, oldest first, and how many samples it gave up. */
  datatype Ring = Ring(items: seq<StoredSample>, capacity: Positive, drops: nat)

  function EmptyRing(capacity: Positive): Ring {
    Ring([], capacity, 0)
  }

  predicate LowerThan(a: StoredSample, b: StoredSample) {
    Level(a.priority) < Level(b.priority)
  }

  /** Offset of the resident to give up, found by one pass that keeps the first minimum. */
  function DropOffset(items: seq<StoredSample>): (k: nat)
    requires items != []
    ensures k < |items|
  {
    if |items| == 1 then 0
    else
      var k := DropOffset(items[..|items| - 1]);
      if LowerThan(items[|items| - 1], items[k]) then |items| - 1 else k
  }

  /** One step of that pass. */
  lemma DropOffsetStep(items: seq<StoredSample>, i: nat)
    requires 1 <= i < |items|
    ensures var k := DropOffset(items[..i]);
            DropOffset(items[..i + 1]) == if LowerThan(items[i], items[k]) then i else k
  {
    assert items[..i + 1][..i] == items[..i];
  }

  /** It is the one offset whose resident has the lowest priority and is the oldest among ties. */
  ghost predicate IsLowest(items: seq<StoredSample>, k: nat) {
    && k < |items|
    && (forall i | 0 <= i < |items| :: !LowerThan(items[i], items[k]))
    && (forall i | 0 <= i < k :: LowerThan(items[k], items[i]))
  }

  lemma {:induction false} DropOffsetIsLowest(items: seq<StoredSample>, k: nat)
    requires items != []
    ensures IsLowest(items, k) <==> k == DropOffset(items)
  {
    var d := DropOffset(items);
    if |items| > 1 {
      DropOffsetIsLowest(items[..|items| - 1], DropOffset(items[..|items| - 1]));
    }
    assert IsLowest(items, d);
    assert IsLowest(items, k) ==> !LowerThan(items[d], items[k]) && !LowerThan(items[k], items[d]);
  }

  function Without(items: seq<StoredSample>, offset: nat): seq<StoredSample>
    requires offset < |items|
  {
    items[..offset] + items[offset + 1..]
  }

  /** The sample that an enqueue gives up, if any. */
  function Victim(ring: Ring, sample: StoredSample): Option<StoredSample> {
    if |ring.items| < ring.capacity then None
    else
      var lowest := ring.items[DropOffset(ring.items)];
      Some(if LowerThan(sample, lowest) then sample else lowest)
  }

  function Enqueued(ring: Ring, sample: StoredSample): Ring {
    if |ring.items| < ring.capacity then ring.(items := ring.items + [sample])
    else
      var offset := DropOffset(ring.items);
      if LowerThan(sample, ring.items[offset]) then ring.(drops := ring.drops + 1)
      else ring.(items := Without(ring.items, offset) + [sample], drops := ring.drops + 1)
  }

  function Retained(ring: Ring, sample: StoredSample): bool {
    |ring.items| < ring.capacity || !LowerThan(sample, ring.items[DropOffset(ring.items)])
  }

  function Wrap(position: nat, capacity: Positive): (r: nat)
    ensures position < capacity ==> r == position
    ensures capacity <= position < 2 * capacity ==> r == position - capacity
  {
    if capacity <= position < 2 * capacity then
      WrapOnce(position, capacity);
      position % capacity
    else
      position % capacity
  }

  lemma WrapOnce(position: nat, capacity: Positive)
    requires capacity <= position < 2 * capacity
    ensures position % capacity == position - capacity
  {
    var rest := position - capacity;
    assert position == 1 * capacity + rest;
  }

  /** The residents after the loop of a deletion has shifted positions `offset` to `i`. */
  ghost function Shifted(items: seq<StoredSample>, offset: nat, i: nat): seq<StoredSample>
    requires offset <= i < |items|
  {
    items[..offset] + items[offset + 1..i + 1] + items[i..]
  }

  lemma ShiftBounds(items: seq<StoredSample>, offset: nat)
    requires offset < |items|
    ensures Shifted(items, offset, offset) == items
    ensures Shifted(items, offset, |items| - 1)[..|items| - 1] == Without(items, offset)
  {
  }

  lemma ShiftStep(items: seq<StoredSample>, offset: nat, i: nat)
    requires offset <= i < |items| - 1
    ensures Shifted(items, offset, i)[i + 1] == items[i + 1]
    ensures Shifted(items, offset, i)[i := items[i + 1]] == Shifted(items, offset, i + 1)
  {
  }

  class RingBuffer {
    const capacity: Positive
    const slots: array<StoredSample>
    var head: nat
    var size: nat
    var dropCount: nat
    /** The residents in arrival order, which the circular part of the array must spell out. */
    ghost var contents: seq<StoredSample>

    ghost predicate Shape()
      reads `head, `size
    {
      slots.Length == capacity && head < capacity && size <= capacity
    }

    ghost function Items(): (items: seq<StoredSample>)
      requires Shape()
      reads `head, `size, slots
      ensures |items| == size
    {
      if head + size <= capacity then slots[head..head + size]
      else slots[head..] + slots[..head + size - capacity]
    }

    ghost predicate Valid()
      reads this, slots
    {
      Shape() && contents == Items()
    }

    ghost function View(): Ring
      reads this
    {
      Ring(contents, capacity, dropCount)
    }

    constructor (capacity: Positive)
      ensures Valid() && fresh(slots)
      ensures View() == EmptyRing(capacity)
    {
      this.capacity := capacity;
      slots := new StoredSample[capacity];
      head, size, dropCount := 0, 0, 0;
      contents := [];
    }

    /** The resident at an offset from the head. */
    function At(offset: nat): (sample: StoredSample)
      requires Shape() && offset < size
      reads this, slots
      ensures sample == Items()[offset]
    {
      slots[Wrap(head + offset, capacity)]
    }

    /** Overwrites the slot of one resident. */
    method Put(offset: nat, sample: StoredSample)
      requires Shape() && offset < size
      modifies slots
      ensures Items() == old(Items())[offset := sample]
    {
      ghost var was := Items();
      slots[Wrap(head + offset, capacity)] := sample;
      forall k | 0 <= k < size ensures Items()[k] == was[offset := sample][k] {
      }
    }

    /** Fills the first free slot. */
    method Append(sample: StoredSample)
      requires Shape() && size < capacity
      modifies this`size, slots
      ensures Shape() && Items() == old(Items()) + [sample]
    {
      slots[Wrap(head + size, capacity)] := sample;
      size := size + 1;
    }

    /** Gives up the oldest resident by moving the head past it. */
    method Advance()
      requires Shape() && size > 0
      modifies this`head, this`size
      ensures Shape() && Items() == old(Items())[1..]
    {
      head := Wrap(head + 1, capacity);
      size := size - 1;
    }

    /** Deletes one resident by shifting the younger ones down, around the end of the array. */
    method RemoveAtOffset(offset: nat)
      requires Shape() && offset < size
      modifies this`size, slots
      ensures Shape() && Items() == Without(old(Items()), offset)
    {
      hide RingBuffer.Items, Shifted;
      ghost var was := Items();
      ShiftBounds(was, offset);
      for i := offset to size - 1
        invariant Shape() && size == old(size)
        invariant Items() == Shifted(was, offset, i)
      {
        ShiftStep(was, offset, i);
        Put(i, At(i + 1));
      }
      Shrink();
    }

    /** Forgets the last slot. */
    method Shrink()
      requires Shape() && size > 0
      modifies this`size
      ensures Shape() && Items() == old(Items())[..old(size) - 1]
    {
      size := size - 1;
    }

    /** Search for the offset to give up; a read-only loop. */
    method FindDropOffset() returns (dropOffset: nat)
      requires Shape() && size > 0
      ensures dropOffset == DropOffset(Items())
    {
      hide RingBuffer.Items;
      dropOffset := 0;
      var dropPriority := slots[head].priority;
      ghost var items := Items();
      assert slots[head] == At(0);
      for i := 1 to size
        invariant dropOffset == DropOffset(items[..i])
        invariant dropPriority == items[dropOffset].priority
      {
        hide DropOffset;
        DropOffsetStep(items, i);
        var priority := At(i).priority;
        if Level(priority) < Level(dropPriority) {
          dropOffset := i;
          dropPriority := priority;
        }
      }
      assert items[..size] == items;
    }

    /** Deletes the resident to give up: at the head by moving it, elsewhere by shifting. */
    method MakeRoom(dropOffset: nat)
      requires Shape() && dropOffset < size
      modifies this`head, this`size, slots
      ensures Shape() && Items() == Without(old(Items()), dropOffset)
    {
      if dropOffset == 0 {
        Advance();
      } else {
        RemoveAtOffset(dropOffset);
      }
    }

    method Enqueue(sample: StoredSample) returns (retained: bool)
      requires Valid()
      modifies this, slots
      ensures Valid()
      ensures View() == Enqueued(old(View()), sample)
      ensures retained == Retained(old(View()), sample)
    {
      retained := EnqueueSlots(sample);
      contents := Items();
    }

    /** An enqueue, on the array alone. */
    method EnqueueSlots(sample: StoredSample) returns (retained: bool)
      requires Shape()
      modifies this`head, this`size, this`dropCount, slots
      ensures Shape()
      ensures var was := Ring(old(Items()), capacity, old(dropCount));
              Ring(Items(), capacity, dropCount) == Enqueued(was, sample) && retained == Retained(was, sample)
    {
      if size < capacity {
        Append(sample);
        retained := true;
      } else {
        var dropOffset := FindDropOffset();
        retained := EnqueueFull(sample, dropOffset);
      }
    }

    /** The overflow branch of an enqueue. */
    method EnqueueFull(sample: StoredSample, dropOffset: nat) returns (retained: bool)
      requires Shape() && size == capacity && dropOffset < size
      modifies this`head, this`size, this`dropCount, slots
      ensures Shape() && dropCount == old(dropCount) + 1
      ensures retained == !LowerThan(sample, old(Items())[dropOffset])
      ensures Items() == if retained then Without(old(Items()), dropOffset) + [sample] else old(Items())
    {
      var dropPriority := At(dropOffset).priority;
      if Level(sample.priority) < Level(dropPriority) {
        dropCount := dropCount + 1;
        return false;
      }
      MakeRoom(dropOffset);
      dropCount := dropCount + 1;
      Append(sample);
      return true;
    }

    method Dequeue() returns (sample: Option<StoredSample>)
      requires Valid()
      modifies this
      ensures Valid()
      ensures old(contents) == [] ==> sample == None && View() == old(View())
      ensures old(contents) != [] ==>
        sample == Some(old(contents)[0]) && View() == old(View()).(items := old(contents)[1..])
    {
      if size == 0 {
        return None;
      }
      sample := Some(slots[head]);
      Advance();
      contents := contents[1..];
    }
  }
}
