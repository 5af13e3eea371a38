/** The offline upload queue: a table of pending rows keyed by an ever-increasing id. */
module LocalStores {
  import opened Clocks
  import opened Samples

  /** Integer division rounding toward zero, as duration casts do. */
  function TruncDiv(a: int, b: int): int
    requires b > 0
  {
    if a >= 0 then a / b else -(-a / b)
  }

  function TimeToUnixMs(timestamp: int): int {
    TruncDiv(timestamp, NANOS_PER_MILLI)
  }

  function UnixMsToTime(millis: int): int {
    millis * NANOS_PER_MILLI
  }

  function QualityToString(quality: Quality): string {
    match quality
    case Good => "good"
    case Uncertain => "uncertain"
    case Bad => "bad"
  }

  function QualityFromString(text: string): Quality {
    if text == "uncertain" then Uncertain else if text == "bad" then Bad else Good
  }

  type PriorityColumn = n: int | 0 <= n <= 2

  function PriorityFromLevel(n: PriorityColumn): Priority {
    if n == 0 then Low else if n == 1 then Normal else Critical
  }

  /** A row of `pending_uploads`. */
  datatype Row = Row(id: int, channelId: string, value: real, unit: string, timestampMs: int,
                     quality: string, priority: PriorityColumn)

  datatype PendingRow = PendingRow(id: int, sample: StoredSample)

  /** The rows in primary-key order and the next key that AUTOINCREMENT will hand out. */
  datatype Table = Table(rows: seq<Row>, nextId: int)

  datatype Store = Store(isOpen: bool, table: Table)

  /** Keys increase along the table and stay below the next key. */
  ghost predicate WellKeyed(table: Table) {
    && (forall i, j | 0 <= i < j < |table.rows| :: table.rows[i].id < table.rows[j].id)
    && (forall i | 0 <= i < |table.rows| :: table.rows[i].id < table.nextId)
  }

  function RowOf(id: int, sample: StoredSample): Row {
    Row(id, CString(sample.channelId), sample.value, CString(sample.unit), TimeToUnixMs(sample.timestamp),
        QualityToString(sample.quality), Level(sample.priority))
  }

  function SampleOf(row: Row): StoredSample {
    StoredSample(Truncated(Blank(64), CString(row.channelId)), Truncated(Blank(32), CString(row.unit)),
                 row.value, UnixMsToTime(row.timestampMs), QualityFromString(row.quality),
                 PriorityFromLevel(row.priority))
  }

  function Inserted(store: Store, sample: StoredSample): Store {
    var table := store.table;
    store.(table := Table(table.rows + [RowOf(table.nextId, sample)], table.nextId + 1))
  }

  /** The rows that a SELECT ordered by id returns when the statement yields at most `stepped` rows. */
  function Peeked(store: Store, maxCount: nat, stepped: nat): seq<PendingRow> {
    if !store.isOpen then []
    else
      var n := Min(Min(maxCount, stepped), |store.table.rows|);
      seq(n, i requires 0 <= i < n => PendingRow(store.table.rows[i].id, SampleOf(store.table.rows[i])))
  }

  function WithoutId(rows: seq<Row>, id: int): seq<Row> {
    if rows == [] then []
    else
      var last := rows[|rows| - 1];
      WithoutId(rows[..|rows| - 1], id) + if last.id == id then [] else [last]
  }

  function Acknowledged(store: Store, id: int): Store {
    store.(table := store.table.(rows := WithoutId(store.table.rows, id)))
  }

  function PendingCount(store: Store, queryOk: bool): nat {
    if store.isOpen && queryOk then |store.table.rows| else 0
  }

  /** Deleting by key removes exactly the row that has it. */
  lemma {:induction false} WithoutIdAt(rows: seq<Row>, nextId: int, i: nat)
    requires WellKeyed(Table(rows, nextId)) && i < |rows|
    ensures WithoutId(rows, rows[i].id) == rows[..i] + rows[i + 1..]
  {
    var n := |rows| - 1;
    if i < n {
      assert WellKeyed(Table(rows[..n], nextId));
      WithoutIdAt(rows[..n], nextId, i);
      assert rows[..n][..i] == rows[..i];
    } else {
      WithoutAbsentId(rows[..n], rows[i].id);
    }
  }

  lemma {:induction false} WithoutAbsentId(rows: seq<Row>, id: int)
    requires forall i | 0 <= i < |rows| :: rows[i].id != id
    ensures WithoutId(rows, id) == rows
  {
    if rows != [] {
      WithoutAbsentId(rows[..|rows| - 1], id);
    }
  }

  lemma {:induction false} WithoutIdKeepsKeys(rows: seq<Row>, nextId: int, id: int)
    requires WellKeyed(Table(rows, nextId))
    ensures WellKeyed(Table(WithoutId(rows, id), nextId))
  {
    if i :| 0 <= i < |rows| && rows[i].id == id {
      WithoutIdAt(rows, nextId, i);
    } else {
      WithoutAbsentId(rows, id);
    }
  }

  // ----- What survives the round trip through the store -----

  /** A stored sample after it has been written to the store and read back. */
  function Canonical(sample: StoredSample): StoredSample {
    SampleOf(RowOf(0, sample))
  }

  lemma TruncateTwice(n: nat)
    ensures n / NANOS_PER_MILLI * NANOS_PER_MILLI / NANOS_PER_SECOND == n / NANOS_PER_SECOND
    ensures n / NANOS_PER_MILLI * NANOS_PER_MILLI / NANOS_PER_MILLI == n / NANOS_PER_MILLI
  {
    var millis, nanos := n / 1_000_000, n % 1_000_000;
    var seconds, rest := millis / 1000, millis % 1000;
    assert n == 1_000_000_000 * seconds + (1_000_000 * rest + nanos);
  }

  /** Nanoseconds to milliseconds to seconds truncates like nanoseconds to seconds. */
  lemma SecondsThroughMillis(timestamp: int)
    ensures TruncDiv(UnixMsToTime(TimeToUnixMs(timestamp)), NANOS_PER_SECOND) == TruncDiv(timestamp, NANOS_PER_SECOND)
    ensures TimeToUnixMs(UnixMsToTime(TimeToUnixMs(timestamp))) == TimeToUnixMs(timestamp)
  {
    if timestamp >= 0 {
      TruncateTwice(timestamp);
    } else {
      TruncateTwice(-timestamp);
    }
  }

  /** A timestamp cut toward the epoch to whole milliseconds. */
  predicate InMilliseconds(kept: int, timestamp: int) {
    && kept % 1_000_000 == 0
    && if timestamp >= 0 then kept <= timestamp < kept + 1_000_000 else kept - 1_000_000 < timestamp <= kept
  }

  lemma KeepsMilliseconds(timestamp: int)
    ensures InMilliseconds(UnixMsToTime(TimeToUnixMs(timestamp)), timestamp)
  {
    var magnitude := if timestamp >= 0 then timestamp else -timestamp;
    var millis, rest := magnitude / 1_000_000, magnitude % 1_000_000;
    assert magnitude == millis * 1_000_000 + rest;
  }

  /** The columns of a pending row, as another reader of the database sees them. */
  lemma RowColumns(id: int, sample: StoredSample)
    ensures var row := RowOf(id, sample);
            && row.id == id && row.value == sample.value
            && row.channelId == CString(sample.channelId) && row.unit == CString(sample.unit)
            && InMilliseconds(row.timestampMs * 1_000_000, sample.timestamp)
            && row.quality == (match sample.quality case Good => "good" case Uncertain => "uncertain" case Bad => "bad")
            && row.priority == (match sample.priority case Low => 0 case Normal => 1 case Critical => 2)
  {
    KeepsMilliseconds(sample.timestamp);
  }

  lemma TextSurvives(channelId: ChannelIdBuffer, unit: UnitBuffer)
    ensures CString(Truncated(Blank(64), CString(channelId))) == CString(channelId)
    ensures CString(CString(channelId)) == CString(channelId)
    ensures CString(Truncated(Blank(32), CString(unit))) == CString(unit)
    ensures CString(CString(unit)) == CString(unit)
  {
    CopyOfText(Blank(64), channelId);
    CopyOfText(Blank(32), unit);
    CStringWithoutNul(CString(channelId));
    CStringWithoutNul(CString(unit));
  }

  /**
   * The store keeps text, value, quality and priority, and the timestamp to the millisecond; what
   * comes back does not depend on the row's key and comes back unchanged a second time.
   */
  lemma StoreRoundTrip(sample: StoredSample, id: int)
    ensures var back := SampleOf(RowOf(id, sample));
            && back == Canonical(sample)
            && Canonical(back) == back
            && CString(back.channelId) == CString(sample.channelId)
            && CString(back.unit) == CString(sample.unit)
            && back.value == sample.value && back.quality == sample.quality && back.priority == sample.priority
            && InMilliseconds(back.timestamp, sample.timestamp)
            && TimeToUnixMs(back.timestamp) == TimeToUnixMs(sample.timestamp)
            && TruncDiv(back.timestamp, NANOS_PER_SECOND) == TruncDiv(sample.timestamp, NANOS_PER_SECOND)
  {
    hide CString, Truncated, TruncDiv, TimeToUnixMs, UnixMsToTime;
    TextSurvives(sample.channelId, sample.unit);
    KeepsMilliseconds(sample.timestamp);
    SecondsThroughMillis(sample.timestamp);
  }

  class LocalStore {
    var isOpen: bool
    var table: Table

    ghost function View(): Store
      reads this
    {
      Store(isOpen, table)
    }

    /** A closed store, over a database file that holds `disk`. */
    constructor (disk: Table)
      ensures View() == Store(false, disk)
    {
      isOpen, table := false, disk;
    }

    /** Opens a database file, given what it holds and whether SQLite manages to open it. */
    method Open(path: string, file: Table, openOk: bool) returns (ok: bool)
      modifies this
      ensures ok == (path != "" && openOk)
      ensures View() == if ok then Store(true, file) else old(View()).(isOpen := false)
    {
      isOpen := false;
      if path == "" || !openOk {
        return false;
      }
      table := file;
      isOpen := true;
      return true;
    }

    method Enqueue(sample: StoredSample, sqlOk: bool) returns (ok: bool)
      modifies this
      ensures ok == (old(isOpen) && sqlOk)
      ensures View() == if ok then Inserted(old(View()), sample) else old(View())
    {
      if !isOpen {
        return false;
      }
      if !sqlOk {
        return false;
      }
      var row := Row(table.nextId, CString(sample.channelId), sample.value, CString(sample.unit),
                     TimeToUnixMs(sample.timestamp), QualityToString(sample.quality), Level(sample.priority));
      table := Table(table.rows + [row], table.nextId + 1);
      return true;
    }

    method PeekBatch(maxCount: nat, stepped: nat) returns (rows: seq<PendingRow>)
      ensures rows == Peeked(View(), maxCount, stepped)
    {
      rows := [];
      if !isOpen || maxCount == 0 {
        return;
      }
      ghost var all := Peeked(View(), maxCount, stepped);
      var i := 0;
      while i < maxCount && i < stepped && i < |table.rows|
        invariant i <= |all| && rows == all[..i]
      {
        var row := table.rows[i];
        rows := rows + [PendingRow(row.id, SampleOf(row))];
        i := i + 1;
      }
    }

    method Acknowledge(id: int, sqlOk: bool) returns (ok: bool)
      modifies this
      ensures ok == (old(isOpen) && sqlOk)
      ensures View() == if ok then Acknowledged(old(View()), id) else old(View())
    {
      if !isOpen || !sqlOk {
        return false;
      }
      table := table.(rows := WithoutId(table.rows, id));
      return true;
    }

    method CountPending(queryOk: bool) returns (count: nat)
      ensures count == PendingCount(View(), queryOk)
    {
      if !isOpen || !queryOk {
        return 0;
      }
      count := |table.rows|;
    }
  }
}
