/** Option type used throughout the model. */
module Options {
  datatype Option<+T> = None | Some(value: T)
}

/** Units of time; clocks count nanoseconds. */
module Clocks {
  const NANOS_PER_MILLI: int := 1_000_000
  const NANOS_PER_SECOND: int := 1_000_000_000
}

/**
 * Samples as drivers produce them and as the pipeline stores them: fixed-size, NUL-terminated
 * text buffers filled by a truncating copy.
 */
module Samples {
  datatype Priority = Low | Normal | Critical

  /** The underlying value of the enumeration, which the ring buffer compares. */
  function Level(p: Priority): (n: nat)
    ensures n <= 2
  {
    match p
    case Low => 0
    case Normal => 1
    case Critical => 2
  }

  datatype SyncMode = Batch | Realtime | OnChange

  datatype Quality = Good | Uncertain | Bad

  function Blank(n: nat): seq<char> {
    seq(n, _ => '\0')
  }

  // Zero-initialised arrays that are only ever written by truncating copies: the last
  // character is always NUL.
  type ChannelIdBuffer = b: seq<char> | |b| == 64 && b[63] == '\0' witness Blank(64)
  type UnitBuffer = b: seq<char> | |b| == 32 && b[31] == '\0' witness Blank(32)

  /** A reading, with non-owning text and a timestamp in nanoseconds since the Unix epoch. */
  datatype Sample = Sample(channelId: string, value: real, timestamp: int, unit: string, quality: Quality)

  datatype StoredSample = StoredSample(channelId: ChannelIdBuffer, unit: UnitBuffer, value: real,
                                       timestamp: int, quality: Quality, priority: Priority)

  function Min(a: nat, b: nat): nat {
    if a < b then a else b
  }

  /** What a reader of a C string sees in a buffer: everything before the first NUL. */
  function CString(buffer: seq<char>): (text: string)
    ensures |text| <= |buffer| && text == buffer[..|text|]
    ensures '\0' !in text
    ensures |text| < |buffer| ==> buffer[|text|] == '\0'
  {
    if buffer == [] || buffer[0] == '\0' then [] else [buffer[0]] + CString(buffer[1..])
  }

  /** The contents of a buffer after `source` has been copied into it. */
  function Truncated(destination: seq<char>, source: string): (result: seq<char>)
    ensures |result| == |destination|
    ensures |destination| > 0 && destination[|destination| - 1] == '\0' ==> result[|result| - 1] == '\0'
  {
    if destination == [] then destination
    else
      var n := Min(|source|, |destination| - 1);
      source[..n] + ['\0'] + destination[n + 1..]
  }

  /** The contents of a buffer once the first `i` characters of `source` have been copied. */
  ghost function PartlyCopied(destination: seq<char>, source: string, i: nat): (result: seq<char>)
    requires i <= |source| && i <= |destination|
    ensures |result| == |destination|
  {
    source[..i] + destination[i..]
  }

  lemma CopyStep(destination: seq<char>, source: string, i: nat)
    requires i < |source| && i < |destination|
    ensures PartlyCopied(destination, source, i)[i := source[i]] == PartlyCopied(destination, source, i + 1)
  {
  }

  lemma FirstReplaced(a: seq<char>, b: seq<char>, x: char)
    requires b != []
    ensures (a + b)[|a| := x] == a + [x] + b[1..]
  {
  }

  lemma CopyEnd(destination: seq<char>, source: string)
    requires destination != []
    ensures PartlyCopied(destination, source, 0) == destination
    ensures var n := Min(|source|, |destination| - 1);
            PartlyCopied(destination, source, n)[n := '\0'] == Truncated(destination, source)
  {
    var n := Min(|source|, |destination| - 1);
    FirstReplaced(source[..n], destination[n..], '\0');
    assert destination[n..][1..] == destination[n + 1..];
  }

  /** The bounded copy: memcpy of what fits, then a terminating NUL. */
  method CopyTruncated(destination: array<char>, source: string)
    modifies destination
    ensures destination[..] == Truncated(old(destination[..]), source)
  {
    if destination.Length == 0 {
      return;
    }
    var copyLength := if |source| < destination.Length - 1 then |source| else destination.Length - 1;
    ghost var was := destination[..];
    for i := 0 to copyLength
      invariant destination[..] == PartlyCopied(was, source, i)
    {
      CopyStep(was, source, i);
      destination[i] := source[i];
    }
    CopyEnd(was, source);
    destination[copyLength] := '\0';
  }

  function FromSample(sample: Sample, priority: Priority): StoredSample {
    StoredSample(Truncated(Blank(64), sample.channelId), Truncated(Blank(32), sample.unit),
                 sample.value, sample.timestamp, sample.quality, priority)
  }

  method CopySample(sample: Sample, priority: Priority) returns (stored: StoredSample)
    ensures stored == FromSample(sample, priority)
  {
    var channelId := new char[64](_ => '\0');
    var unit := new char[32](_ => '\0');
    assert channelId[..] == Blank(64) && unit[..] == Blank(32);
    CopyTruncated(channelId, sample.channelId);
    CopyTruncated(unit, sample.unit);
    stored := StoredSample(channelId[..], unit[..], sample.value, sample.timestamp, sample.quality, priority);
  }

  /** Reading a C string only depends on what precedes the first NUL. */
  lemma {:induction false} CStringOf(text: string, rest: seq<char>)
    requires rest == [] || rest[0] == '\0'
    ensures CString(text + rest) == CString(text)
  {
    if text == [] {
      assert text + rest == rest;
    } else if text[0] != '\0' {
      assert (text + rest)[1..] == text[1..] + rest;
      CStringOf(text[1..], rest);
    }
  }

  lemma {:induction false} CStringWithoutNul(text: string)
    requires '\0' !in text
    ensures CString(text) == text
  {
    if text != [] {
      assert text[0] in text;
      CStringWithoutNul(text[1..]);
    }
  }

  /** A truncating copy keeps the longest prefix that fits in front of the terminating NUL. */
  lemma CopyKeepsPrefix(destination: seq<char>, source: string)
    requires destination != []
    ensures CString(Truncated(destination, source)) == CString(source[..Min(|source|, |destination| - 1)])
  {
    var n := Min(|source|, |destination| - 1);
    var rest := ['\0'] + destination[n + 1..];
    assert Truncated(destination, source) == source[..n] + rest;
    CStringOf(source[..n], rest);
  }

  lemma {:induction false} StopsAtNul(buffer: seq<char>)
    requires buffer != [] && buffer[|buffer| - 1] == '\0'
    ensures |CString(buffer)| < |buffer|
  {
    if buffer[0] != '\0' {
      StopsAtNul(buffer[1..]);
    }
  }

  /** Text that fits is copied whole. */
  lemma CopyOfShortText(destination: seq<char>, text: string)
    requires |text| < |destination| && '\0' !in text
    ensures CString(Truncated(destination, text)) == text
  {
    CopyKeepsPrefix(destination, text);
    CStringWithoutNul(text);
    assert text[..|text|] == text;
  }

  /** Copying out what a terminated buffer holds into another buffer of the same size loses nothing. */
  lemma CopyOfText(destination: seq<char>, buffer: seq<char>)
    requires |destination| == |buffer| > 0 && buffer[|buffer| - 1] == '\0'
    ensures CString(Truncated(destination, CString(buffer))) == CString(buffer)
  {
    StopsAtNul(buffer);
    CopyOfShortText(destination, CString(buffer));
  }

  /** What a stored sample holds: the reading's own fields, the given priority, and as much text as fits. */
  lemma StoredFields(sample: Sample, priority: Priority)
    ensures var stored := FromSample(sample, priority);
            && stored.priority == priority && stored.value == sample.value
            && stored.timestamp == sample.timestamp && stored.quality == sample.quality
            && CString(stored.channelId) == CString(sample.channelId[..Min(|sample.channelId|, 63)])
            && CString(stored.unit) == CString(sample.unit[..Min(|sample.unit|, 31)])
  {
    CopyKeepsPrefix(Blank(64), sample.channelId);
    CopyKeepsPrefix(Blank(32), sample.unit);
  }
}
