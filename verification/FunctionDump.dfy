/**
 * The FUNCTION DUMP payload: a magic number, a count, one length-prefixed source per library and a
 * checksum. Numbers are little-endian. Positions are 32-bit, as in the decoder.
 */
module FunctionDump {
  import opened Options
  import opened Words
  import opened Checksums

  const MAX_LIBRARIES: nat := 4096
  const MAGIC: Bytes := [84, 79, 77, 79, 70, 85, 78, 49]

  // ---- numbers -------------------------------------------------------------------------------------

  function Put(width: nat, v: nat): Bytes {
    if width == 0 then [] else [v % 256] + Put(width - 1, v / 256)
  }

  function Get(s: Bytes): nat {
    if s == [] then 0 else s[0] + 256 * Get(s[1..])
  }

  function Range(width: nat): nat { if width == 0 then 1 else 256 * Range(width - 1) }

  lemma {:induction false} PutLength(width: nat, v: nat)
    ensures |Put(width, v)| == width
  {
    if width != 0 {
      PutLength(width - 1, v / 256);
    }
  }

  lemma {:induction false} GetPut(width: nat, v: nat)
    requires v < Range(width)
    ensures Get(Put(width, v)) == v
  {
    if width != 0 {
      GetPut(width - 1, v / 256);
      assert Put(width, v)[1..] == Put(width - 1, v / 256);
    }
  }

  lemma {:induction false} PutGet(s: Bytes)
    ensures Get(s) < Range(|s|) && Put(|s|, Get(s)) == s
  {
    if s != [] {
      PutGet(s[1..]);
      assert s == [s[0]] + s[1..];
    }
  }

  lemma Ranges()
    ensures Range(4) == TWO_32 && Range(8) == TWO_64
  {
    assert Range(3) == 0x100_0000;
    assert Range(6) == 0x1_0000_0000_0000;
  }

  function Put32(v: nat): Bytes { Put(4, v % TWO_32) }

  lemma Put32Get(v: nat)
    ensures |Put32(v)| == 4 && (v < TWO_32 ==> Get(Put32(v)) == v)
  {
    Ranges();
    PutLength(4, v % TWO_32);
    GetPut(4, v % TWO_32);
  }

  lemma PutGetWidth(width: nat, s: Bytes)
    requires |s| == width
    ensures Get(s) < Range(width) && Put(width, Get(s)) == s
  {
    PutGet(s);
  }

  lemma Get32Put(s: Bytes)
    requires |s| == 4
    ensures Get(s) < TWO_32 && Put32(Get(s)) == s
  {
    PutGetWidth(4, s);
    Ranges();
    Narrow(Get(s));
  }

  lemma Narrow(v: nat)
    requires v < TWO_32
    ensures Put32(v) == Put(4, v)
  {
    assert v % TWO_32 == v;
  }

  // ---- the format ------------------------------------------------------------------------------------

  /** The sources, each behind its length. */
  function Blobs(sources: seq<Bytes>): Bytes {
    if sources == [] then [] else Put32(|sources[0]|) + sources[0] + Blobs(sources[1..])
  }

  function Body(sources: seq<Bytes>): Bytes { MAGIC + Put32(|sources|) + Blobs(sources) }

  function Seal(body: Bytes): Bytes { body + Put(8, Checksum(body)) }

  function Encode(sources: seq<Bytes>): Bytes { Seal(Body(sources)) }

  /** Lengths that a 32-bit field can hold. */
  predicate Fits(sources: seq<Bytes>) { forall i :: 0 <= i < |sources| ==> |sources[i]| < TWO_32 }

  lemma {:induction false} BlobsAppend(sources: seq<Bytes>, s: Bytes)
    ensures Blobs(sources + [s]) == Blobs(sources) + Put32(|s|) + s
  {
    if sources == [] {
      assert sources + [s] == [s] && [s][1..] == [];
    } else {
      assert (sources + [s])[1..] == sources[1..] + [s];
      BlobsAppend(sources[1..], s);
    }
  }

  lemma BodyNext(count: nat, sources: seq<Bytes>, i: nat)
    requires i < |sources|
    ensures Body0(count, sources[..i + 1]) == Body0(count, sources[..i]) + Put32(|sources[i]|) + sources[i]
  {
    BlobsAppend(sources[..i], sources[i]);
    assert sources[..i + 1] == sources[..i] + [sources[i]];
  }

  method Dump(sources: seq<Bytes>) returns (payload: Bytes)
    ensures payload == Encode(sources)
  {
    payload := MAGIC + Put32(|sources|);
    for i := 0 to |sources|
      invariant payload == Body0(|sources|, sources[..i])
    {
      BodyNext(|sources|, sources, i);
      payload := payload + Put32(|sources[i]|);
      payload := payload + sources[i];
    }
    assert sources[..|sources|] == sources;
    var checksum := ComputeChecksum(payload);
    payload := payload + Put(8, checksum);
  }

  function Body0(count: nat, sources: seq<Bytes>): Bytes { MAGIC + Put32(count) + Blobs(sources) }

  // ---- reading it back -------------------------------------------------------------------------------

  /** `count` sources filling `b` exactly. */
  function Parse(b: Bytes, count: nat): Option<seq<Bytes>> {
    if count == 0 then if b == [] then Some([]) else None
    else if |b| < 4 || Get(b[..4]) > |b| - 4 then None
    else
      var length := Get(b[..4]);
      match Parse(b[4 + length..], count - 1)
      case None => None
      case Some(rest) => Some([b[4..4 + length]] + rest)
  }

  /** Whatever is parsed is the only thing that could have been written. */
  lemma {:induction false} ParseSound(b: Bytes, count: nat)
    requires Parse(b, count).Some?
    ensures var sources := Parse(b, count).value; |sources| == count && Fits(sources) && Blobs(sources) == b
  {
    if count != 0 {
      var length := Get(b[..4]);
      ParseSound(b[4 + length..], count - 1);
      BlobsNext(b, length, Parse(b[4 + length..], count - 1).value);
    }
  }

  lemma BlobsNext(b: Bytes, length: nat, rest: seq<Bytes>)
    requires |b| >= 4 && length == Get(b[..4]) && length <= |b| - 4 && Fits(rest) && Blobs(rest) == b[4 + length..]
    ensures Fits([b[4..4 + length]] + rest) && Blobs([b[4..4 + length]] + rest) == b
  {
    var sources := [b[4..4 + length]] + rest;
    Get32Put(b[..4]);
    assert sources[1..] == rest;
    assert b == b[..4] + b[4..4 + length] + b[4 + length..];
  }

  /** Whatever was written is parsed. */
  lemma {:induction false} ParseComplete(sources: seq<Bytes>)
    requires Fits(sources)
    ensures Parse(Blobs(sources), |sources|) == Some(sources)
  {
    if sources != [] {
      var first, rest := sources[0], Blobs(sources[1..]);
      var b := Blobs(sources);
      Put32Get(|first|);
      assert b == Put32(|first|) + first + rest;
      assert b[..4] == Put32(|first|);
      assert b[4..4 + |first|] == first && b[4 + |first|..] == rest;
      ParseComplete(sources[1..]);
      assert sources == [first] + sources[1..];
    }
  }

  function Prepend(sources: seq<Bytes>, rest: Option<seq<Bytes>>): Option<seq<Bytes>> {
    if rest.None? then None else Some(sources + rest.value)
  }

  lemma PrependNothing(rest: Option<seq<Bytes>>)
    ensures Prepend([], rest) == rest
  {
    if rest.Some? {
      assert [] + rest.value == rest.value;
    }
  }

  /** Reading one source moves it from the rest to what has been read. */
  lemma PrependNext(sources: seq<Bytes>, b: Bytes, count: nat, length: nat)
    requires count > 0 && |b| >= 4 && length == Get(b[..4]) && length <= |b| - 4
    ensures Prepend(sources + [b[4..4 + length]], Parse(b[4 + length..], count - 1)) == Prepend(sources, Parse(b, count))
  {
    var rest := Parse(b[4 + length..], count - 1);
    if rest.Some? {
      assert sources + [b[4..4 + length]] + rest.value == sources + ([b[4..4 + length]] + rest.value);
    }
  }

  /** The payload parts: magic, count and checksum are right, and the rest parses. */
  predicate Framed(payload: Bytes) {
    && |payload| >= 20 && payload[..8] == MAGIC
    && Checksum(payload[..|payload| - 8]) == Get(payload[|payload| - 8..])
  }

  function Meaning(payload: Bytes): Option<seq<Bytes>> {
    if !Framed(payload) || Get(payload[8..12]) > MAX_LIBRARIES then None
    else Parse(payload[12..|payload| - 8], Get(payload[8..12]))
  }

  /** decode_dump: 32-bit positions, and every read in bounds. */
  method Decode(payload: Bytes) returns (result: Option<seq<Bytes>>)
    requires |payload| < TWO_32
    ensures result == Meaning(payload)
  {
    if |payload| < 20 || payload[..8] != MAGIC {
      return None;
    }
    var checksum := ComputeChecksum(payload[..|payload| - 8]);
    if checksum != Get(payload[|payload| - 8..]) {
      return None;
    }
    var count := Get(payload[8..12]);
    if count > MAX_LIBRARIES {
      return None;
    }
    result := DecodeSources(payload, count);
  }

  lemma Slices(payload: Bytes, pos: nat, end: nat, length: nat)
    requires pos + 4 + length <= end <= |payload|
    ensures payload[pos..end][4..4 + length] == payload[pos + 4..pos + 4 + length]
    ensures payload[pos..end][4 + length..] == payload[pos + 4 + length..end]
  {
    var rest := payload[pos..end];
    var inner, outer := rest[4..4 + length], payload[pos + 4..pos + 4 + length];
    forall j | 0 <= j < length
      ensures inner[j] == outer[j]
    {
      assert inner[j] == rest[4 + j];
    }
    assert inner == outer;
  }

  /** Reads one length-prefixed source, if all of it is there. */
  method ReadSource(payload: Bytes, start: nat, end: nat) returns (source: Option<Bytes>)
    requires start <= end <= |payload| < TWO_32 && end + 8 <= |payload|
    ensures var rest := payload[start..end];
      if |rest| < 4 || Get(rest[..4]) > |rest| - 4 then source == None
      else source.Some? && |source.value| == Get(rest[..4]) && source.value == rest[4..4 + |source.value|]
           && rest[4 + |source.value|..] == payload[start + 4 + |source.value|..end]
  {
    var pos := start;
    assert pos + 4 < TWO_32;
    if pos + 4 > end {
      return None;
    }
    var length := Get(payload[pos..pos + 4]);
    assert payload[start..end][..4] == payload[pos..pos + 4];
    pos := pos + 4;
    if length > end - pos {
      return None;
    }
    Slices(payload, start, end, length);
    source := Some(payload[pos..pos + length]);
  }

  /** The loop over the sources. */
  method DecodeSources(payload: Bytes, count: nat) returns (result: Option<seq<Bytes>>)
    requires 20 <= |payload| < TWO_32
    ensures result == Parse(payload[12..|payload| - 8], count)
  {
    var end := |payload| - 8;
    var pos: nat := 12;
    var sources: seq<Bytes> := [];
    PrependNothing(Parse(payload[12..end], count));
    for i := 0 to count
      invariant Reading(payload, end, count, sources, pos, count - i)
    {
      var read := ReadSource(payload, pos, end);
      if read.None? {
        NothingRead(payload, end, count, sources, pos, count - i);
        return None;
      }
      OneRead(payload, end, count, sources, pos, count - i, |read.value|);
      sources := sources + [read.value];
      pos := pos + 4 + |read.value|;
    }
    AllRead(payload, end, count, sources, pos);
    result := if pos == end then Some(sources) else None;
  }

  /** `sources` have been read up to `pos`, and `left` more are to come. */
  predicate Reading(payload: Bytes, end: nat, count: nat, sources: seq<Bytes>, pos: nat, left: nat) {
    && 12 <= pos <= end <= |payload|
    && Prepend(sources, Parse(payload[pos..end], left)) == Parse(payload[12..end], count)
  }

  lemma NothingRead(payload: Bytes, end: nat, count: nat, sources: seq<Bytes>, pos: nat, left: nat)
    requires Reading(payload, end, count, sources, pos, left) && left > 0
    requires |payload[pos..end]| < 4 || Get(payload[pos..end][..4]) > |payload[pos..end]| - 4
    ensures Parse(payload[12..end], count) == None
  {
    assert Parse(payload[pos..end], left) == None;
  }

  lemma OneRead(payload: Bytes, end: nat, count: nat, sources: seq<Bytes>, pos: nat, left: nat, length: nat)
    requires Reading(payload, end, count, sources, pos, left) && left > 0 && pos + 4 + length <= end
    requires length == Get(payload[pos..end][..4])
    ensures Reading(payload, end, count, sources + [payload[pos..end][4..4 + length]], pos + 4 + length, left - 1)
  {
    var rest := payload[pos..end];
    PrependNext(sources, rest, left, length);
    assert rest[4 + length..] == payload[pos + 4 + length..end];
  }

  lemma AllRead(payload: Bytes, end: nat, count: nat, sources: seq<Bytes>, pos: nat)
    requires Reading(payload, end, count, sources, pos, 0)
    ensures Parse(payload[12..end], count) == if pos == end then Some(sources) else None
  {
    assert sources + [] == sources;
  }

  lemma Split(payload: Bytes, end: nat)
    requires 12 <= end <= |payload|
    ensures payload == payload[..8] + payload[8..12] + payload[12..end] + payload[end..]
    ensures payload[..end] == payload[..8] + payload[8..12] + payload[12..end]
  {
  }

  /** Every accepted payload is the encoding of what was read from it. */
  lemma DecodedEncodes(payload: Bytes)
    requires Meaning(payload).Some?
    ensures var sources := Meaning(payload).value;
      Fits(sources) && |sources| <= MAX_LIBRARIES && Encode(sources) == payload
  {
    var end := |payload| - 8;
    var count := Get(payload[8..12]);
    ParseSound(payload[12..end], count);
    Get32Put(payload[8..12]);
    PutGetWidth(8, payload[end..]);
    Split(payload, end);
  }

  /** A payload with one byte replaced, anywhere in it, is refused. */
  lemma ChangedIsRefused(payload: Bytes, i: nat, b: Byte)
    requires Meaning(payload).Some? && i < |payload| && b != payload[i]
    ensures Meaning(payload[i := b]).None?
  {
    var end, changed := |payload| - 8, payload[i := b];
    if i < end {
      assert changed[..end] == payload[..end][i := b] && changed[end..] == payload[end..];
      ChecksumSeesByte(payload[..end], i, b);
    } else {
      assert changed[..end] == payload[..end] && changed[end..] == payload[end..][i - end := b];
      PutGetWidth(8, payload[end..]);
      PutGetWidth(8, changed[end..]);
      assert changed[end..][i - end] == b;
    }
  }

  /** A dump is accepted, and read back exactly, if and only if it holds at most 4096 libraries. */
  lemma EncodedDecodes(sources: seq<Bytes>)
    requires Fits(sources) && |sources| < TWO_32
    ensures Meaning(Encode(sources)) == if |sources| <= MAX_LIBRARIES then Some(sources) else None
  {
    var body, payload := Body(sources), Encode(sources);
    PutLength(8, Checksum(body));
    Put32Get(|sources|);
    Ranges();
    GetPut(8, Checksum(body));
    assert payload[..|payload| - 8] == body && payload[|payload| - 8..] == Put(8, Checksum(body));
    assert body[..8] == MAGIC && body[8..12] == Put32(|sources|) && body[12..] == Blobs(sources);
    assert payload[..8] == MAGIC && payload[8..12] == Put32(|sources|) && payload[12..|payload| - 8] == Blobs(sources);
    ParseComplete(sources);
  }

  // ---- the payload, byte by byte -----------------------------------------------------------------------

  /** The four bytes of a number, least significant first. */
  function FourBytes(v: nat): Bytes { [v % 256, v / 256 % 256, v / 65536 % 256, v / 16777216 % 256] }

  lemma Put32Bytes(v: nat)
    requires v < TWO_32
    ensures Put32(v) == FourBytes(v)
  {
    Narrow(v);
    var a := v / 256;
    var b := a / 256;
    var c := b / 256;
    assert b == v / 65536 && c == v / 16777216;
    assert Put(1, c) == [c % 256];
    assert Put(2, b) == [b % 256] + Put(1, c);
    assert Put(3, a) == [a % 256] + Put(2, b);
    assert Put(4, v) == [v % 256] + Put(3, a);
  }

  /** Where source `i` starts, its length included. */
  function Offset(sources: seq<Bytes>, i: nat): nat
    requires i <= |sources|
  {
    if i == 0 then 12 else Offset(sources, i - 1) + 4 + |sources[i - 1]|
  }

  lemma {:induction false} OffsetNext(sources: seq<Bytes>, i: nat)
    requires 0 < i <= |sources|
    ensures Offset(sources, i) == 4 + |sources[0]| + Offset(sources[1..], i - 1)
  {
    if i > 1 {
      OffsetNext(sources, i - 1);
    }
  }

  lemma {:induction false} BlobAt(sources: seq<Bytes>, i: nat)
    requires i < |sources|
    ensures var at, b := Offset(sources, i) - 12, Blobs(sources);
      && 0 <= at && at + 4 + |sources[i]| <= |b|
      && b[at..at + 4] == Put32(|sources[i]|) && b[at + 4..at + 4 + |sources[i]|] == sources[i]
  {
    var first, rest := sources[0], Blobs(sources[1..]);
    PutLength(4, |first| % TWO_32);
    var b := Blobs(sources);
    assert b == Put32(|first|) + first + rest;
    if i > 0 {
      BlobAt(sources[1..], i - 1);
      OffsetNext(sources, i);
      var at := Offset(sources[1..], i - 1) - 12;
      BlobShift(b, 4 + |first|, rest, at, |sources[i]|);
    }
  }

  lemma BlobShift(b: Bytes, skipped: nat, rest: Bytes, at: nat, length: nat)
    requires skipped <= |b| && rest == b[skipped..] && at + 4 + length <= |rest|
    ensures b[skipped + at..skipped + at + 4] == rest[at..at + 4]
    ensures b[skipped + at + 4..skipped + at + 4 + length] == rest[at + 4..at + 4 + length]
  {
  }

  lemma Sliced(head: Bytes, count: Bytes, b: Bytes, trailer: Bytes, payload: Bytes)
    requires payload == ((head + count) + b) + trailer && |head| == 8 && |count| == 4 && |trailer| == 8
    ensures var end := 12 + |b|;
      && |payload| == end + 8 && payload[..8] == head && payload[8..12] == count && payload[12..end] == b
      && payload[..end] == (head + count) + b && payload[end..] == trailer
  {
  }

  lemma DumpParts(sources: seq<Bytes>, payload: Bytes, b: Bytes)
    requires payload == Encode(sources) && b == Blobs(sources)
    ensures var end := 12 + |b|;
      && |payload| == end + 8 && payload[..8] == MAGIC && payload[8..12] == Put32(|sources|) && payload[12..end] == b
      && Get(payload[end..]) == Checksum(payload[..end])
  {
    var body := Body(sources);
    PutLength(4, |sources| % TWO_32);
    PutLength(8, Checksum(body));
    Ranges();
    GetPut(8, Checksum(body));
    Sliced(MAGIC, Put32(|sources|), b, Put(8, Checksum(body)), payload);
  }

  /** A dump is TOMOFUN1, the number of sources in four bytes, the sources, and the checksum of all that. */
  lemma DumpHead(sources: seq<Bytes>)
    requires |sources| < TWO_32
    ensures var payload := Encode(sources);
      && |payload| >= 20 && payload[..8] == [84, 79, 77, 79, 70, 85, 78, 49] && payload[8..12] == FourBytes(|sources|)
      && Get(payload[|payload| - 8..]) == Checksum(payload[..|payload| - 8])
  {
    Put32Bytes(|sources|);
    DumpParts(sources, Encode(sources), Blobs(sources));
  }

  lemma DumpBlobs(sources: seq<Bytes>, payload: Bytes, b: Bytes)
    requires payload == Encode(sources) && b == Blobs(sources)
    ensures |payload| == 12 + |b| + 8 && payload[12..12 + |b|] == b
  {
    DumpParts(sources, payload, b);
  }

  /** Each source stands behind its length in four bytes, one after the other. */
  lemma DumpSource(sources: seq<Bytes>, i: nat, payload: Bytes, at: nat, length: nat)
    requires i < |sources| && length == |sources[i]| < TWO_32 && payload == Encode(sources) && at == Offset(sources, i)
    ensures at + 4 + length + 8 <= |payload|
    ensures payload[at..at + 4] == FourBytes(length) && payload[at + 4..at + 4 + length] == sources[i]
  {
    var b := SourceInBlobs(sources, i, at, length);
    DumpBlobs(sources, payload, b);
    SourceAt(payload, b, at, length, FourBytes(length), sources[i]);
  }

  lemma SourceInBlobs(sources: seq<Bytes>, i: nat, at: nat, length: nat) returns (b: Bytes)
    requires i < |sources| && length == |sources[i]| < TWO_32 && at == Offset(sources, i)
    ensures b == Blobs(sources) && 12 <= at && at + 4 + length <= 12 + |b|
    ensures b[at - 12..at - 8] == FourBytes(length) && b[at - 8..at - 8 + length] == sources[i]
  {
    b := Blobs(sources);
    Put32Bytes(length);
    BlobAt(sources, i);
  }

  lemma SliceOfSlice(s: Bytes, start: nat, end: nat, from: nat, to: nat)
    requires start <= end <= |s| && from <= to <= end - start
    ensures s[start..end][from..to] == s[start + from..start + to]
  {
    var middle, part := s[start..end], s[start + from..start + to];
    forall k | 0 <= k < to - from
      ensures middle[from..to][k] == part[k]
    {
      assert middle[from + k] == s[start + from + k];
    }
  }

  lemma SourceAt(payload: Bytes, b: Bytes, at: nat, length: nat, head: Bytes, source: Bytes)
    requires |payload| == 12 + |b| + 8 && payload[12..12 + |b|] == b && 12 <= at && at + 4 + length <= 12 + |b|
    requires b[at - 12..at - 8] == head && b[at - 8..at - 8 + length] == source
    ensures payload[at..at + 4] == head && payload[at + 4..at + 4 + length] == source
  {
    SliceOfSlice(payload, 12, 12 + |b|, at - 12, at - 8);
    SliceOfSlice(payload, 12, 12 + |b|, at - 8, at - 8 + length);
  }
}
