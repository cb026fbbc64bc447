/**
 * The Amazon event-stream framing and its decoder (policies/llm-cost/bedrock_eventstream.go).
 * The wire format is stated as an encoding; the decoder accepts exactly the non-empty concatenations of
 * encoded frames and returns what was encoded.
 */
module EventStream {
  import opened Common
  import opened Sequences
  import opened Bytes

  const OVERHEAD := 16           // prelude (12) and message checksum (4)
  const MAX_FRAME := 16777216
  const EVENT_TYPE: Bytes := [58, 101, 118, 101, 110, 116, 45, 116, 121, 112, 101]  // ":event-type"
  const STRING_TYPE: Byte := 7

  datatype Header = Header(name: Bytes, valueType: Byte, value: Bytes)

  datatype Frame = Frame(headers: seq<Header>, payload: Bytes, preludeCrc: Bytes, messageCrc: Bytes)

  /** What the decoder reports of a frame. */
  datatype Event = Event(eventType: Bytes, payload: Bytes)

  /** The fixed value length of a header type, or None for the length-prefixed types. */
  function FixedLength(valueType: Byte): Option<nat> {
    if valueType == 0 || valueType == 1 then Some(0)
    else if valueType == 2 then Some(1)
    else if valueType == 3 then Some(2)
    else if valueType == 4 then Some(4)
    else if valueType == 5 || valueType == 8 then Some(8)
    else if valueType == 9 then Some(16)
    else None
  }

  predicate Prefixed(valueType: Byte) { valueType == 6 || valueType == 7 }

  predicate GoodValue(valueType: Byte, value: Bytes) {
    if Prefixed(valueType) then |value| < 65536 else FixedLength(valueType) == Some(|value|)
  }

  predicate GoodHeader(h: Header) { |h.name| < 256 && GoodValue(h.valueType, h.value) }

  function EncodeValue(valueType: Byte, value: Bytes): Bytes {
    if Prefixed(valueType) then BigEndian(|value|, 2) + value else value
  }

  function EncodeHeader(h: Header): (r: Bytes)
    requires GoodHeader(h)
    ensures |r| >= 2
  {
    ([|h.name|] + h.name) + ([h.valueType] + EncodeValue(h.valueType, h.value))
  }

  predicate GoodHeaders(hs: seq<Header>) { forall h :: h in hs ==> GoodHeader(h) }

  function EncodeHeaders(hs: seq<Header>): Bytes
    requires GoodHeaders(hs)
  {
    if hs == [] then [] else EncodeHeader(hs[0]) + EncodeHeaders(hs[1..])
  }

  /** The last string header named ":event-type" decides; without one the type is empty. */
  function EventTypeOf(hs: seq<Header>): Bytes {
    if hs == [] then []
    else
      var h := hs[|hs| - 1];
      if h.name == EVENT_TYPE && h.valueType == STRING_TYPE then h.value else EventTypeOf(hs[..|hs| - 1])
  }

  function TotalLength(f: Frame): int
    requires GoodHeaders(f.headers)
  {
    OVERHEAD + |EncodeHeaders(f.headers)| + |f.payload|
  }

  predicate GoodFrame(f: Frame) {
    GoodHeaders(f.headers) && TotalLength(f) <= MAX_FRAME && |f.preludeCrc| == 4 && |f.messageCrc| == 4
  }

  function EncodeFrame(f: Frame): (r: Bytes)
    requires GoodFrame(f)
    ensures |r| == TotalLength(f)
  {
    BigEndian(TotalLength(f), 4) +
    (BigEndian(|EncodeHeaders(f.headers)|, 4) + (f.preludeCrc + (EncodeHeaders(f.headers) + (f.payload + f.messageCrc))))
  }

  predicate GoodFrames(fs: seq<Frame>) { forall f :: f in fs ==> GoodFrame(f) }

  function EncodeFrames(fs: seq<Frame>): Bytes
    requires GoodFrames(fs)
  {
    if fs == [] then [] else EncodeFrame(fs[0]) + EncodeFrames(fs[1..])
  }

  function EventOf(f: Frame): Event { Event(EventTypeOf(f.headers), f.payload) }

  function EventsOf(fs: seq<Frame>): (r: seq<Event>)
    ensures |r| == |fs|
  {
    seq(|fs|, i requires 0 <= i < |fs| => EventOf(fs[i]))
  }

  // ---- Headers ----

  /** An encoded value says how long it is. */
  lemma ValueLayout(valueType: Byte, value: Bytes, tail: Bytes)
    requires GoodValue(valueType, value) && EncodeValue(valueType, value) <= tail
    ensures Prefixed(valueType) ==> |tail| >= 2 && ReadBigEndian(tail[..2]) == |value|
    ensures var k := if Prefixed(valueType) then 2 else 0;
      k + |value| <= |tail| && tail[k..k + |value|] == value
  {
    if Prefixed(valueType) {
      var prefix := BigEndian(|value|, 2);
      Widths();
      ReadWrite(|value|, 2);
      assert EncodeValue(valueType, value)[..2] == prefix;
      assert tail[..2] == prefix;
      assert EncodeValue(valueType, value)[2..] == value;
    }
  }

  /** Where the parts of an encoded header lie. */
  lemma HeaderLayout(h: Header, data: Bytes)
    requires GoodHeader(h) && EncodeHeader(h) <= data
    ensures |data| >= 2 + |h.name| && data[0] == |h.name| && data[1..1 + |h.name|] == h.name
    ensures data[1 + |h.name|] == h.valueType
    ensures EncodeValue(h.valueType, h.value) <= data[2 + |h.name|..]
  {
  }

  /** At most one header is encoded at the front of any bytes. */
  lemma HeaderUnique(h: Header, g: Header, data: Bytes)
    requires GoodHeader(h) && GoodHeader(g)
    requires EncodeHeader(h) <= data && EncodeHeader(g) <= data
    ensures h == g
  {
    HeaderLayout(h, data);
    HeaderLayout(g, data);
    var tail := data[2 + |h.name|..];
    ValueLayout(h.valueType, h.value, tail);
    ValueLayout(g.valueType, g.value, tail);
  }

  /** Headers already consumed are a prefix of any reading of the whole block. */
  lemma {:induction false} HeadersPrefix(done: seq<Header>, rest: Bytes, hs: seq<Header>)
    requires GoodHeaders(done) && GoodHeaders(hs)
    requires EncodeHeaders(done) + rest == EncodeHeaders(hs)
    ensures done <= hs && rest == EncodeHeaders(hs[|done|..])
  {
    if done == [] {
      assert hs[0..] == hs;
    } else {
      var data := EncodeHeaders(hs);
      Assoc(EncodeHeader(done[0]), EncodeHeaders(done[1..]), rest);
      assert hs != [];
      HeaderUnique(done[0], hs[0], data);
      SplitConcat(EncodeHeader(done[0]), EncodeHeader(hs[0]), EncodeHeaders(done[1..]) + rest, EncodeHeaders(hs[1..]));
      HeadersPrefix(done[1..], rest, hs[1..]);
      assert hs[1..][|done| - 1..] == hs[|done|..];
    }
  }

  lemma {:induction false} EncodeHeadersAppend(hs: seq<Header>, h: Header)
    requires GoodHeaders(hs) && GoodHeader(h)
    ensures GoodHeaders(hs + [h]) && EncodeHeaders(hs + [h]) == EncodeHeaders(hs) + EncodeHeader(h)
  {
    if hs == [] {
      assert EncodeHeaders([h]) == EncodeHeader(h) + EncodeHeaders([]);
    } else {
      EncodeHeadersAppend(hs[1..], h);
      assert (hs + [h])[0] == hs[0] && (hs + [h])[1..] == hs[1..] + [h];
      Assoc(EncodeHeader(hs[0]), EncodeHeaders(hs[1..]), EncodeHeader(h));
    }
  }

  /** A packed header block, and what it packs. */
  ghost predicate IsBlock(hs: seq<Header>, data: Bytes) {
    GoodHeaders(hs) && data == EncodeHeaders(hs)
  }

  lemma {:induction false} EventTypeAppend(hs: seq<Header>, h: Header)
    ensures EventTypeOf(hs + [h]) ==
      if h.name == EVENT_TYPE && h.valueType == STRING_TYPE then h.value else EventTypeOf(hs)
  {
  }

  ghost predicate StartsWithHeader(data: Bytes) {
    exists h :: GoodHeader(h) && EncodeHeader(h) <= data
  }

  /** One turn of the header walk at `offset`: the header there, if there is one. */
  method NextHeader(data: Bytes, offset: nat) returns (h: Header, next: nat, ok: bool)
    requires offset < |data|
    ensures ok <==> StartsWithHeader(data[offset..])
    ensures ok ==> GoodHeader(h) && offset < next <= |data| && data[offset..next] == EncodeHeader(h)
  {
    h, next, ok := Header([], 0, []), offset, false;
    ghost var rest := data[offset..];
    var nameLen := data[offset];
    var at: nat := offset + 1;
    if at + nameLen >= |data| {
      assert !StartsWithHeader(rest) by {
        forall g | GoodHeader(g) && EncodeHeader(g) <= rest ensures false { HeaderLayout(g, rest); }
      }
      return;
    }
    var name := data[at..at + nameLen];
    at := at + nameLen;
    var valueType := data[at];
    at := at + 1;
    var value, end, good := NextValue(valueType, data, at);
    ghost var tail := rest[2 + nameLen..];
    assert tail == data[at..];
    if !good {
      assert !StartsWithHeader(rest) by {
        forall g | GoodHeader(g) && EncodeHeader(g) <= rest ensures false { HeaderLayout(g, rest); }
      }
      return;
    }
    h, next, ok := Header(name, valueType, value), end, true;
    HeaderAssembled(data, offset, h, end);
  }

  lemma HeaderAssembled(data: Bytes, offset: nat, h: Header, end: nat)
    requires GoodHeader(h)
    requires var at := offset + 2 + |h.name|;
      && at <= end <= |data| && data[offset] == |h.name| && data[offset + 1..at - 1] == h.name
      && data[at - 1] == h.valueType && data[at..end] == EncodeValue(h.valueType, h.value)
    ensures data[offset..end] == EncodeHeader(h) && StartsWithHeader(data[offset..])
  {
  }

  /** The lengths of the value at `at`: of its length prefix and of what follows. */
  method ValueSpan(valueType: Byte, data: Bytes, at: nat) returns (valueOffset: nat, valueLen: nat, ok: bool)
    requires at <= |data|
    ensures ok <==> if Prefixed(valueType) then at + 2 <= |data| else FixedLength(valueType).Some?
    ensures ok && Prefixed(valueType) ==> valueOffset == 2 && valueLen == ReadBigEndian(data[at..at + 2])
    ensures ok && !Prefixed(valueType) ==> valueOffset == 0 && FixedLength(valueType) == Some(valueLen)
  {
    valueOffset, valueLen, ok := 0, 0, true;
    if valueType == 0 || valueType == 1 {
    } else if valueType == 2 {
      valueLen := 1;
    } else if valueType == 3 {
      valueLen := 2;
    } else if valueType == 4 {
      valueLen := 4;
    } else if valueType == 5 || valueType == 8 {
      valueLen := 8;
    } else if valueType == 9 {
      valueLen := 16;
    } else if valueType == 6 || valueType == 7 {
      if at + 2 > |data| {
        ok := false;
        return;
      }
      valueLen := ReadBigEndian(data[at..at + 2]);
      valueOffset := 2;
    } else {
      ok := false;
    }
  }

  /** The value of the given type at `at`. */
  method NextValue(valueType: Byte, data: Bytes, at: nat) returns (value: Bytes, end: nat, ok: bool)
    requires at <= |data|
    ensures !ok ==> forall v :: GoodValue(valueType, v) ==> !(EncodeValue(valueType, v) <= data[at..])
    ensures ok ==> GoodValue(valueType, value) && at <= end <= |data| && data[at..end] == EncodeValue(valueType, value)
  {
    value, end := [], at;
    var valueOffset, valueLen, known := ValueSpan(valueType, data, at);
    ok := known && at + valueOffset + valueLen <= |data|;
    if ok {
      value, end := data[at + valueOffset..at + valueOffset + valueLen], at + valueOffset + valueLen;
      ValueAssembled(valueType, data, at, valueOffset, end);
    } else {
      assert at + 2 <= |data| ==> data[at..][..2] == data[at..at + 2];
      forall v | GoodValue(valueType, v) && EncodeValue(valueType, v) <= data[at..] ensures false {
        ValueLayout(valueType, v, data[at..]);
      }
    }
  }

  lemma ValueAssembled(valueType: Byte, data: Bytes, at: nat, k: nat, end: nat)
    requires at + k <= end <= |data| && k == if Prefixed(valueType) then 2 else 0
    requires Prefixed(valueType) ==> end - at - k == ReadBigEndian(data[at..at + 2])
    requires !Prefixed(valueType) ==> FixedLength(valueType) == Some(end - at - k)
    ensures var value := data[at + k..end];
      GoodValue(valueType, value) && data[at..end] == EncodeValue(valueType, value)
  {
    if Prefixed(valueType) {
      Widths();
      WriteRead(data[at..at + 2]);
      assert data[at..end] == data[at..at + 2] + data[at + 2..end];
    }
  }

  /** The `:event-type` of a packed header block; fails exactly on bytes that are no such block. */
  method EventType(data: Bytes) returns (eventType: Bytes, ok: bool, ghost done: seq<Header>)
    ensures ok ==> IsBlock(done, data) && eventType == EventTypeOf(done)
    ensures !ok ==> forall hs :: !IsBlock(hs, data)
  {
    eventType, ok, done := [], false, [];
    var offset := 0;
    while offset < |data|
      invariant 0 <= offset <= |data|
      invariant IsBlock(done, data[..offset])
      invariant eventType == EventTypeOf(done)
    {
      assert data == data[..offset] + data[offset..];
      var h, next, good := NextHeader(data, offset);
      if !good {
        forall hs | IsBlock(hs, data) ensures false {
          HeadersPrefix(done, data[offset..], hs);
          StartsWithFirst(hs[|done|..]);
        }
        return;
      }
      if h.name == EVENT_TYPE && h.valueType == STRING_TYPE {
        eventType := h.value;
      }
      EventTypeAppend(done, h);
      EncodeHeadersAppend(done, h);
      assert data[..next] == data[..offset] + data[offset..next];
      offset, done := next, done + [h];
    }
    assert data[..offset] == data;
    ok := true;
  }

  lemma StartsWithFirst(hs: seq<Header>)
    requires GoodHeaders(hs)
    ensures hs == [] || StartsWithHeader(EncodeHeaders(hs))
  {
  }

  // ---- Frames ----

  /** Where the parts of an encoded frame lie. */
  lemma FrameLayout(f: Frame, data: Bytes)
    requires GoodFrame(f) && EncodeFrame(f) <= data
    ensures var n, total := |EncodeHeaders(f.headers)|, TotalLength(f);
      && total <= |data| && ReadBigEndian(data[0..4]) == total && ReadBigEndian(data[4..8]) == n
      && data[8..12] == f.preludeCrc && data[12..12 + n] == EncodeHeaders(f.headers)
      && data[12 + n..total - 4] == f.payload && data[total - 4..total] == f.messageCrc
  {
    var hs, total := EncodeHeaders(f.headers), TotalLength(f);
    assert data == EncodeFrame(f) + data[total..];
    FrameSlices(BigEndian(total, 4), BigEndian(|hs|, 4), f.preludeCrc, hs, f.payload, f.messageCrc, data[total..]);
    Widths();
    ReadWrite(total, 4);
    ReadWrite(|hs|, 4);
  }

  lemma FrameSlices(a: Bytes, b: Bytes, c: Bytes, hs: Bytes, p: Bytes, m: Bytes, rest: Bytes)
    requires |a| == |b| == |c| == |m| == 4
    ensures var data := (a + (b + (c + (hs + (p + m))))) + rest;
      var n, total := |hs|, 16 + |hs| + |p|;
      && data[0..4] == a && data[4..8] == b && data[8..12] == c
      && data[12..12 + n] == hs && data[12 + n..total - 4] == p && data[total - 4..total] == m
  {
  }

  /** At most one frame is encoded at the front of any bytes. */
  lemma FrameUnique(f: Frame, g: Frame, data: Bytes)
    requires GoodFrame(f) && GoodFrame(g)
    requires EncodeFrame(f) <= data && EncodeFrame(g) <= data
    ensures f == g
  {
    FrameLayout(f, data);
    FrameLayout(g, data);
    HeadersPrefix(f.headers, [], g.headers);
    HeadersPrefix(g.headers, [], f.headers);
  }

  lemma {:induction false} FramesPrefix(done: seq<Frame>, rest: Bytes, fs: seq<Frame>)
    requires GoodFrames(done) && GoodFrames(fs)
    requires EncodeFrames(done) + rest == EncodeFrames(fs)
    ensures done <= fs && rest == EncodeFrames(fs[|done|..])
  {
    if done == [] {
      assert fs[0..] == fs;
    } else {
      var data := EncodeFrames(fs);
      Assoc(EncodeFrame(done[0]), EncodeFrames(done[1..]), rest);
      assert fs != [];
      FrameUnique(done[0], fs[0], data);
      SplitConcat(EncodeFrame(done[0]), EncodeFrame(fs[0]), EncodeFrames(done[1..]) + rest, EncodeFrames(fs[1..]));
      FramesPrefix(done[1..], rest, fs[1..]);
      assert fs[1..][|done| - 1..] == fs[|done|..];
    }
  }

  lemma {:induction false} EncodeFramesAppend(fs: seq<Frame>, f: Frame)
    requires GoodFrames(fs) && GoodFrame(f)
    ensures GoodFrames(fs + [f]) && EncodeFrames(fs + [f]) == EncodeFrames(fs) + EncodeFrame(f)
  {
    if fs == [] {
      assert EncodeFrames([f]) == EncodeFrame(f) + EncodeFrames([]);
    } else {
      EncodeFramesAppend(fs[1..], f);
      assert (fs + [f])[0] == fs[0] && (fs + [f])[1..] == fs[1..] + [f];
      Assoc(EncodeFrame(fs[0]), EncodeFrames(fs[1..]), EncodeFrame(f));
    }
  }

  /** `data` is the encoding of the frame list `fs`. */
  ghost predicate IsStream(fs: seq<Frame>, data: Bytes) {
    GoodFrames(fs) && data == EncodeFrames(fs)
  }

  /** Decoding is unambiguous. */
  lemma StreamUnique(fs: seq<Frame>, gs: seq<Frame>, data: Bytes)
    requires IsStream(fs, data) && IsStream(gs, data)
    ensures fs == gs
  {
    FramesPrefix(fs, [], gs);
    FramesPrefix(gs, [], fs);
  }

  ghost predicate StartsWithFrame(data: Bytes) {
    exists f :: GoodFrame(f) && EncodeFrame(f) <= data
  }

  lemma StartsWithFirstFrame(fs: seq<Frame>)
    requires GoodFrames(fs)
    ensures fs == [] || StartsWithFrame(EncodeFrames(fs))
  {
  }

  lemma FrameAssembled(data: Bytes, n: nat, total: nat, hs: seq<Header>)
    requires OVERHEAD + n <= total <= MAX_FRAME && total <= |data|
    requires total == ReadBigEndian(data[0..4]) && n == ReadBigEndian(data[4..8])
    requires IsBlock(hs, data[12..12 + n])
    ensures var f := Frame(hs, data[12 + n..total - 4], data[8..12], data[total - 4..total]);
      GoodFrame(f) && EncodeFrame(f) == data[..total] && StartsWithFrame(data)
  {
    var f := Frame(hs, data[12 + n..total - 4], data[8..12], data[total - 4..total]);
    assert BigEndian(total, 4) == data[0..4] by { WriteRead(data[0..4]); }
    assert BigEndian(n, 4) == data[4..8] by { WriteRead(data[4..8]); }
    JoinSlices(data, n, total);
    assert EncodeFrame(f) <= data;
  }

  lemma JoinSlices(data: Bytes, n: nat, total: nat)
    requires 16 + n <= total <= |data|
    ensures data[0..4] + (data[4..8] + (data[8..12] + (data[12..12 + n] + (data[12 + n..total - 4] + data[total - 4..total]))))
         == data[..total]
  {
  }

  /** One turn of the frame loop: the frame at the front of `remaining`, if there is one. */
  method NextFrame(remaining: Bytes) returns (event: Event, totalLen: nat, ok: bool, ghost f: Frame)
    ensures ok <==> StartsWithFrame(remaining)
    ensures ok ==> GoodFrame(f) && event == EventOf(f)
    ensures ok ==> 0 < totalLen <= |remaining| && remaining[..totalLen] == EncodeFrame(f)
  {
    event, totalLen, ok, f := Event([], []), 0, false, Frame([], [], [], []);
    forall g | GoodFrame(g) && EncodeFrame(g) <= remaining
      ensures |remaining| >= 16 && ReadBigEndian(remaining[0..4]) == TotalLength(g) <= |remaining|
      ensures ReadBigEndian(remaining[4..8]) == |EncodeHeaders(g.headers)| <= TotalLength(g) - OVERHEAD
      ensures IsBlock(g.headers, remaining[12..12 + |EncodeHeaders(g.headers)|])
    {
      FrameLayout(g, remaining);
    }
    if |remaining| < 12 {
      return;
    }
    totalLen := ReadBigEndian(remaining[0..4]);
    var headersLen := ReadBigEndian(remaining[4..8]);
    if totalLen < OVERHEAD || totalLen > MAX_FRAME || headersLen > totalLen - OVERHEAD || totalLen > |remaining| {
      return;
    }
    var headersEnd := 12 + headersLen;
    var eventType, good, hs := EventType(remaining[12..headersEnd]);
    if !good {
      return;
    }
    event := Event(eventType, remaining[headersEnd..totalLen - 4]);
    f := Frame(hs, remaining[headersEnd..totalLen - 4], remaining[8..12], remaining[totalLen - 4..totalLen]);
    FrameAssembled(remaining, headersLen, totalLen, hs);
    ok := true;
  }

  /**
   * The decoder. It succeeds on exactly the encodings of non-empty frame lists, reports each frame's
   * event type and payload in order, and fails on all other bytes.
   */
  method DecodeFrames(data: Bytes) returns (events: seq<Event>, ok: bool)
    ensures ok <==> exists fs :: fs != [] && IsStream(fs, data)
    ensures ok ==> forall fs :: IsStream(fs, data) ==> events == EventsOf(fs)
  {
    events, ok := [], false;
    var offset := 0;
    ghost var done: seq<Frame> := [];
    while offset < |data|
      invariant 0 <= offset <= |data|
      invariant IsStream(done, data[..offset])
      invariant events == EventsOf(done)
    {
      assert data == data[..offset] + data[offset..];
      var event, totalLen, good, f := NextFrame(data[offset..]);
      if !good {
        forall fs | IsStream(fs, data) ensures false {
          FramesPrefix(done, data[offset..], fs);
          StartsWithFirstFrame(fs[|done|..]);
        }
        return;
      }
      EncodeFramesAppend(done, f);
      assert data[..offset + totalLen] == data[..offset] + data[offset..][..totalLen];
      assert EventsOf(done + [f]) == EventsOf(done) + [EventOf(f)];
      events := events + [event];
      offset, done := offset + totalLen, done + [f];
    }
    assert data[..offset] == data;
    forall fs | IsStream(fs, data) ensures fs == done {
      StreamUnique(fs, done, data);
    }
    ok := |events| != 0;
  }

  // ---- The format, in bytes ----

  /** The event type is the value of the last string header of that name, or empty. */
  lemma {:induction false} EventTypeIsLast(hs: seq<Header>, i: nat)
    requires i < |hs| && hs[i].name == EVENT_TYPE && hs[i].valueType == 7
    requires forall j :: i < j < |hs| ==> hs[j].name != EVENT_TYPE || hs[j].valueType != 7
    ensures EventTypeOf(hs) == hs[i].value
  {
    if i < |hs| - 1 {
      EventTypeIsLast(hs[..|hs| - 1], i);
    }
  }

  lemma {:induction false} NoEventType(hs: seq<Header>)
    requires forall j :: 0 <= j < |hs| ==> hs[j].name != EVENT_TYPE || hs[j].valueType != 7
    ensures EventTypeOf(hs) == []
  {
    if hs != [] {
      NoEventType(hs[..|hs| - 1]);
    }
  }

  /** The ten value types: two booleans, four integers, bytes, string, timestamp and UUID. */
  lemma ValueTypes()
    ensures MAX_FRAME == 16 * 1024 * 1024 && OVERHEAD == 4 + 4 + 4 + 4
    ensures FixedLength(0) == FixedLength(1) == Some(0)
    ensures FixedLength(2) == Some(1) && FixedLength(3) == Some(2) && FixedLength(4) == Some(4) && FixedLength(5) == Some(8)
    ensures FixedLength(8) == Some(8) && FixedLength(9) == Some(16)
    ensures forall k: Byte :: Prefixed(k) <==> k == 6 || k == 7
    ensures forall k: Byte :: k > 9 ==> FixedLength(k) == None && !Prefixed(k)
  {
  }

  lemma SmallBigEndian(n: nat)
    requires n < 256
    ensures BigEndian(n, 2) == [0, n] && BigEndian(n, 4) == [0, 0, 0, n]
  {
    assert n / 256 == 0 && n % 256 == n;
    BigEndianStep(0, 1);
    BigEndianStep(0, 2);
    BigEndianStep(0, 3);
    BigEndianStep(n, 2);
    BigEndianStep(n, 4);
    assert BigEndian(0, 0) == [];
  }

  const METADATA: Bytes := [109, 101, 116, 97, 100, 97, 116, 97]

  const MetadataFrame := Frame([Header(EVENT_TYPE, 7, METADATA)], [123, 125], [1, 2, 3, 4], [5, 6, 7, 8])

  /** A frame of event type "metadata" with payload "{}", byte by byte, and what it decodes to. */
  lemma MetadataBytes()
    ensures GoodFrame(MetadataFrame)
    ensures EncodeFrame(MetadataFrame) ==
      [0, 0, 0, 41, 0, 0, 0, 23, 1, 2, 3, 4] + ([11] + EVENT_TYPE + [7, 0, 8] + METADATA) + [123, 125, 5, 6, 7, 8]
    ensures EventOf(MetadataFrame) == Event(METADATA, [123, 125])
  {
    var h := Header(EVENT_TYPE, 7, METADATA);
    SmallBigEndian(8);
    assert EncodeHeader(h) == [11] + EVENT_TYPE + [7, 0, 8] + METADATA;
    assert [h][1..] == [] && EncodeHeaders([h]) == EncodeHeader(h) + EncodeHeaders([]);
    assert |EncodeHeaders([h])| == 23 && TotalLength(MetadataFrame) == 41;
    SmallBigEndian(23);
    SmallBigEndian(41);
    EventTypeIsLast([h], 0);
  }
}
