/** The framed stream decoder: what it yields from a body that arrives in chunks of any size is what a one-shot
    parser reads from the joined bytes. */
module Streams {
  import opened Wrappers
  import opened Binary

  const HEADER_BYTES: nat := 4
  const LENGTH_BYTES: nat := 8
  const MAX_HEADER_BYTES: nat := 16 * 1024
  const MAX_IMAGE_BYTES: nat := 3 * 1024 * 1024
  const MAX_BUFFER_BYTES: nat := LENGTH_BYTES + MAX_HEADER_BYTES + MAX_IMAGE_BYTES

  // ---------------------------------------------------------------------------------------------
  // Lengths and headers
  // ---------------------------------------------------------------------------------------------

  /** Four bytes, most significant first, reduced to 32 bits without sign. */
  function Uint32(bytes: Bytes, offset: nat): (n: nat)
    requires offset + 4 <= |bytes|
    ensures n < 0x1_0000_0000
  {
    (bytes[offset] as int * 0x100_0000 + bytes[offset + 1] as int * 0x1_0000 + bytes[offset + 2] as int * 0x100 + bytes[offset + 3] as int) % 0x1_0000_0000
  }

  function PutUint32(n: nat): (r: Bytes)
    requires n < 0x1_0000_0000
    ensures |r| == 4
    ensures n == r[0] as int * 0x100_0000 + r[1] as int * 0x1_0000 + r[2] as int * 0x100 + r[3] as int
  {
    var low24 := n % 0x100_0000;
    var low16 := low24 % 0x1_0000;
    [n / 0x100_0000, low24 / 0x1_0000, low16 / 0x100, low16 % 0x100]
  }

  lemma Uint32OfPut(n: nat, before: Bytes, after: Bytes)
    requires n < 0x1_0000_0000
    ensures Uint32(before + PutUint32(n) + after, |before|) == n
  {
    var all, put, k := before + PutUint32(n) + after, PutUint32(n), |before|;
    assert all[k] == put[0] && all[k + 1] == put[1] && all[k + 2] == put[2] && all[k + 3] == put[3];
  }

  lemma PutOfUint32(bytes: Bytes, offset: nat)
    requires offset + 4 <= |bytes|
    ensures PutUint32(Uint32(bytes, offset)) == bytes[offset..offset + 4]
  {
    var a: int, b: int, c: int, d: int := bytes[offset], bytes[offset + 1], bytes[offset + 2], bytes[offset + 3];
    Divide24(a, b * 0x1_0000 + c * 0x100 + d);
    Divide16(b, c * 0x100 + d);
    Divide8(c, d);
    assert Uint32(bytes, offset) == a * 0x100_0000 + (b * 0x1_0000 + c * 0x100 + d);
    assert PutUint32(Uint32(bytes, offset)) == [a, b, c, d];
  }

  lemma Divide24(q: nat, r: nat)
    requires r < 0x100_0000
    ensures (q * 0x100_0000 + r) / 0x100_0000 == q && (q * 0x100_0000 + r) % 0x100_0000 == r
  {
  }

  lemma Divide16(q: nat, r: nat)
    requires r < 0x1_0000
    ensures (q * 0x1_0000 + r) / 0x1_0000 == q && (q * 0x1_0000 + r) % 0x1_0000 == r
  {
  }

  lemma Divide8(q: nat, r: nat)
    requires r < 0x100
    ensures (q * 0x100 + r) / 0x100 == q && (q * 0x100 + r) % 0x100 == r
  {
  }

  /** The fields a header is checked for; a number that is not an integer is None. */
  datatype Fields = Fields(
    kind: string, reason: string, id: Option<int>, geometryVersion: Option<int>, width: Option<int>, height: Option<int>,
    orientation: string, capturedAt: Option<int>, mime: string)

  /** A parsed header. */
  datatype Json = Other | Object(fields: Fields)

  datatype Fault = NotAnObject | BadEndMarker | UnknownType | BadMetadata | ImageLimit

  predicate AtLeast(n: Option<int>, low: int) {
    n.Some? && n.value >= low
  }

  predicate Between(n: Option<int>, low: int, high: int) {
    n.Some? && low <= n.value <= high
  }

  function ValidateHeader(header: Json, bodyLength: nat): Option<Fault> {
    if header.Other? then Some(NotAnObject)
    else
      var f := header.fields;
      if f.kind == "end" then
        if bodyLength != 0 || f.reason !in ["session_closed", "session_failed", "stream_complete"] then Some(BadEndMarker) else None
      else if f.kind != "frame" then Some(UnknownType)
      else if !AtLeast(f.id, 1) || !AtLeast(f.geometryVersion, 1) || !Between(f.width, 1, 8192) || !Between(f.height, 1, 8192)
              || f.orientation !in ["portrait", "landscape"] || !AtLeast(f.capturedAt, 0)
              || f.mime !in ["image/jpeg", "image/png", "image/svg+xml"] then Some(BadMetadata)
      else if bodyLength < 1 || bodyLength > MAX_IMAGE_BYTES then Some(ImageLimit)
      else None
  }

  // ---------------------------------------------------------------------------------------------
  // The one-shot parser
  // ---------------------------------------------------------------------------------------------

  datatype Message = EndMark(fields: Fields) | Frame(fields: Fields, body: Bytes)

  datatype Stop = EndSeen | Truncated | LengthLimit | BadJson | BadHeader(fault: Fault)

  datatype Decoded = Decoded(messages: seq<Message>, stop: Stop, rest: Bytes)

  datatype Limits = Limits(header: int, image: int)

  type Parser = Bytes -> Option<Json>

  datatype Reading = Stopped(stop: Stop) | Yielded(message: Message)

  /** One complete message: its header parsed and checked against its body. */
  function Read(header: Bytes, body: Bytes, parse: Parser): (r: Reading)
    ensures r.Stopped? ==> r.stop.BadJson? || r.stop.BadHeader?
  {
    var parsed := parse(header);
    if parsed.None? then Stopped(BadJson)
    else
      var fault := ValidateHeader(parsed.value, |body|);
      if fault.Some? then Stopped(BadHeader(fault.value))
      else if parsed.value.fields.kind == "end" then Yielded(EndMark(parsed.value.fields))
      else Yielded(Frame(parsed.value.fields, body))
  }

  function Size(bytes: Bytes): (n: nat)
    requires |bytes| >= LENGTH_BYTES
    ensures n >= LENGTH_BYTES
  {
    LENGTH_BYTES + Uint32(bytes, 0) + Uint32(bytes, HEADER_BYTES)
  }

  predicate LengthsFit(bytes: Bytes, limits: Limits)
    requires |bytes| >= LENGTH_BYTES
  {
    2 <= Uint32(bytes, 0) <= limits.header && Uint32(bytes, HEADER_BYTES) <= limits.image
  }

  /** The message that the bytes start with, or why there is none. */
  function First(bytes: Bytes, limits: Limits, parse: Parser): (r: Reading)
    ensures r.Yielded? ==> |bytes| >= LENGTH_BYTES && Size(bytes) <= |bytes|
    ensures r.Stopped? ==> r.stop != EndSeen
  {
    if |bytes| < LENGTH_BYTES then Stopped(Truncated)
    else if !LengthsFit(bytes, limits) then Stopped(LengthLimit)
    else if |bytes| < Size(bytes) then Stopped(Truncated)
    else
      var h := Uint32(bytes, 0);
      Read(bytes[LENGTH_BYTES..LENGTH_BYTES + h], bytes[LENGTH_BYTES + h..Size(bytes)], parse)
  }

  function Decode(bytes: Bytes, limits: Limits, parse: Parser): (r: Decoded)
    decreases |bytes|
  {
    match First(bytes, limits, parse)
    case Stopped(stop) => Decoded([], stop, bytes)
    case Yielded(message) =>
      var tail := bytes[Size(bytes)..];
      if message.EndMark? then Decoded([message], EndSeen, tail)
      else Prepend([message], Decode(tail, limits, parse))
  }

  function Prepend(messages: seq<Message>, d: Decoded): Decoded {
    d.(messages := messages + d.messages)
  }

  // ---------------------------------------------------------------------------------------------
  // Chunks
  // ---------------------------------------------------------------------------------------------

  function Join(chunks: seq<Bytes>): Bytes {
    if chunks == [] then [] else chunks[0] + Join(chunks[1..])
  }

  lemma {:induction false} JoinAppend(a: seq<Bytes>, b: seq<Bytes>)
    ensures Join(a + b) == Join(a) + Join(b)
  {
    if a == [] {
      assert a + b == b;
    } else {
      JoinAppend(a[1..], b);
      assert (a + b)[1..] == a[1..] + b && (a + b)[0] == a[0];
      assert a[0] + (Join(a[1..]) + Join(b)) == a[0] + Join(a[1..]) + Join(b);
    }
  }

  lemma JoinSplit(chunks: seq<Bytes>, k: nat)
    requires k <= |chunks|
    ensures Join(chunks) == Join(chunks[..k]) + Join(chunks[k..])
    ensures k < |chunks| ==> Join(chunks[..k + 1]) == Join(chunks[..k]) + chunks[k] && Join(chunks[k..]) == chunks[k] + Join(chunks[k + 1..])
  {
    assert chunks == chunks[..k] + chunks[k..];
    JoinAppend(chunks[..k], chunks[k..]);
    if k < |chunks| {
      assert chunks[..k + 1] == chunks[..k] + [chunks[k]];
      JoinAppend(chunks[..k], [chunks[k]]);
      JoinOne(chunks[k]);
    }
  }

  lemma JoinOne(chunk: Bytes)
    ensures Join([chunk]) == chunk
  {
    assert Join([chunk]) == chunk + Join([]);
  }

  /** A position in the joined bytes where a chunk ends. */
  predicate Boundary(chunks: seq<Bytes>, position: nat) {
    exists k :: 0 <= k <= |chunks| && |Join(chunks[..k])| == position
  }

  lemma JoinGrows(chunks: seq<Bytes>, j: nat, k: nat)
    requires j <= k <= |chunks|
    ensures |Join(chunks[..j])| <= |Join(chunks[..k])|
  {
    JoinSplit(chunks[..k], j);
    assert chunks[..k][..j] == chunks[..j];
  }

  /** A position inside a chunk, past its first byte, is a boundary only at the end of that chunk. */
  lemma BoundaryInside(chunks: seq<Bytes>, used: nat, left: nat)
    requires 0 < used <= |chunks| && left < |chunks[used - 1]|
    ensures |Join(chunks[..used])| >= left
    ensures Boundary(chunks, |Join(chunks[..used])| - left) <==> left == 0
  {
    JoinSplit(chunks, used - 1);
    var position := |Join(chunks[..used])| - left;
    if Boundary(chunks, position) {
      var k :| 0 <= k <= |chunks| && |Join(chunks[..k])| == position;
      if k < used { JoinGrows(chunks, k, used - 1); } else { JoinGrows(chunks, used, k); }
    }
  }

  // ---------------------------------------------------------------------------------------------
  // Decoding in chunks
  // ---------------------------------------------------------------------------------------------

  datatype Options = Options(maxHeaderBytes: int, maxImageBytes: int)

  /** Absent and zero bounds are the defaults. */
  function LimitsOf(options: Options): Limits {
    Limits(if options.maxHeaderBytes == 0 then MAX_HEADER_BYTES else options.maxHeaderBytes,
           if options.maxImageBytes == 0 then MAX_IMAGE_BYTES else options.maxImageBytes)
  }

  predicate Allowed(limits: Limits) {
    limits.header <= MAX_HEADER_BYTES && limits.image <= MAX_IMAGE_BYTES
  }

  datatype Outcome = Finished | BoundsTooLarge | BufferLimit | TrailingBytes | Failed(stop: Stop)

  /** What the decoder must report for a body, in terms of the one-shot parser: the chunks matter only to whether
      bytes after the end marker are noticed. */
  function Report(chunks: seq<Bytes>, options: Options, parse: Parser): (seq<Message>, Outcome) {
    var limits := LimitsOf(options);
    if !Allowed(limits) then ([], BoundsTooLarge)
    else
      var d := Decode(Join(chunks), limits, parse);
      DecodeRest(Join(chunks), limits, parse);
      (d.messages,
       if d.stop != EndSeen then Failed(d.stop)
       else if Boundary(chunks, |Join(chunks)| - |d.rest|) then Finished
       else TrailingBytes)
  }

  lemma {:induction false} DecodeRest(bytes: Bytes, limits: Limits, parse: Parser)
    ensures |Decode(bytes, limits, parse).rest| <= |bytes|
    decreases |bytes|
  {
    var first := First(bytes, limits, parse);
    if first.Yielded? && first.message.Frame? { DecodeRest(bytes[Size(bytes)..], limits, parse); }
  }

  /** Everything decoded so far, whatever follows. */
  ghost predicate Splits(done: Bytes, messages: seq<Message>, limits: Limits, parse: Parser) {
    forall more: Bytes {:trigger Decode(done + more, limits, parse)} :: Decode(done + more, limits, parse) == Prepend(messages, Decode(more, limits, parse))
  }

  lemma SplitsMore(done: Bytes, messages: seq<Message>, record: Bytes, message: Message, limits: Limits, parse: Parser)
    requires Splits(done, messages, limits, parse)
    requires First(record, limits, parse) == Yielded(message) && message.Frame? && Size(record) == |record|
    ensures Splits(done + record, messages + [message], limits, parse)
  {
    forall more: Bytes
      ensures Decode(done + record + more, limits, parse) == Prepend(messages + [message], Decode(more, limits, parse))
    {
      RecordThen(record, more, limits, parse);
      SplitsAt(done, messages, record, message, more, limits, parse);
    }
  }

  lemma SplitsAt(done: Bytes, messages: seq<Message>, record: Bytes, message: Message, more: Bytes, limits: Limits, parse: Parser)
    requires Splits(done, messages, limits, parse)
    requires Decode(record + more, limits, parse) == Prepend([message], Decode(more, limits, parse))
    ensures Decode(done + record + more, limits, parse) == Prepend(messages + [message], Decode(more, limits, parse))
  {
    assert done + record + more == done + (record + more);
    var d := Decode(more, limits, parse);
    assert messages + ([message] + d.messages) == messages + [message] + d.messages;
  }

  /** A complete message is read first whatever follows, and leaves what follows. */
  lemma RecordThen(record: Bytes, more: Bytes, limits: Limits, parse: Parser)
    requires |record| >= LENGTH_BYTES && Size(record) == |record|
    ensures First(record + more, limits, parse) == First(record, limits, parse)
    ensures Size(record + more) == |record| && (record + more)[|record|..] == more
  {
    FirstKept(record, more, limits, parse);
  }

  /** A complete first message stays the first message whatever follows. */
  lemma FirstKept(bytes: Bytes, more: Bytes, limits: Limits, parse: Parser)
    requires |bytes| >= LENGTH_BYTES && (Size(bytes) <= |bytes| || !LengthsFit(bytes, limits))
    ensures Size(bytes + more) == Size(bytes)
    ensures First(bytes + more, limits, parse) == First(bytes, limits, parse)
  {
    LengthsKept(bytes, bytes + more);
    if Size(bytes) <= |bytes| {
      var h, n := Uint32(bytes, 0), Size(bytes);
      assert (bytes + more)[LENGTH_BYTES..LENGTH_BYTES + h] == bytes[LENGTH_BYTES..LENGTH_BYTES + h];
      assert (bytes + more)[LENGTH_BYTES + h..n] == bytes[LENGTH_BYTES + h..n];
    }
  }

  lemma LengthsKept(before: Bytes, after: Bytes)
    requires |before| >= LENGTH_BYTES && before <= after
    ensures Size(after) == Size(before) && Uint32(after, 0) == Uint32(before, 0)
    ensures Uint32(after, HEADER_BYTES) == Uint32(before, HEADER_BYTES)
  {
  }

  // ---------------------------------------------------------------------------------------------
  // The iterator
  // ---------------------------------------------------------------------------------------------

  /** What was asked for is what was decoded, then the buffer, then what is left of the last chunk; and the last
      chunk was needed. */
  ghost predicate Progress(chunks: seq<Bytes>, used: nat, done: Bytes, messages: seq<Message>, buffer: Bytes, left: Bytes, limits: Limits, parse: Parser) {
    && used <= |chunks| && Splits(done, messages, limits, parse)
    && Join(chunks[..used]) == done + buffer + left
    && (used > 0 ==> Decode(Join(chunks[..used - 1]), limits, parse).stop == Truncated)
  }

  /** The buffer holds the start of a message. */
  predicate Incomplete(buffer: Bytes, limits: Limits) {
    |buffer| < LENGTH_BYTES || (LengthsFit(buffer, limits) && |buffer| < Size(buffer))
  }

  /** The yielded messages and the outcome are those of the one-shot parser, and every chunk asked for was needed. */
  ghost predicate Answers(chunks: seq<Bytes>, used: nat, options: Options, parse: Parser, messages: seq<Message>, outcome: Outcome) {
    && (messages, outcome) == Report(chunks, options, parse) && outcome != BufferLimit
    && used <= |chunks|
    && (outcome == Failed(Truncated) ==> used == |chunks|)
    && (used > 0 && outcome != Failed(Truncated) ==> Decode(Join(chunks[..used - 1]), LimitsOf(options), parse).stop == Truncated)
    && (outcome == BoundsTooLarge ==> used == 0)
  }

  lemma Refused(chunks: seq<Bytes>, options: Options, parse: Parser)
    requires !Allowed(LimitsOf(options))
    ensures Answers(chunks, 0, options, parse, [], BoundsTooLarge)
  {
  }

  lemma Starved(chunks: seq<Bytes>, used: nat, done: Bytes, messages: seq<Message>, buffer: Bytes, options: Options, parse: Parser)
    requires Allowed(LimitsOf(options)) && Incomplete(buffer, LimitsOf(options))
    requires Progress(chunks, used, done, messages, buffer, [], LimitsOf(options), parse)
    ensures used == |chunks| ==> Answers(chunks, used, options, parse, messages, Failed(Truncated))
    ensures used < |chunks| ==> Progress(chunks, used + 1, done, messages, buffer, chunks[used], LimitsOf(options), parse)
  {
    var limits := LimitsOf(options);
    assert Decode(buffer, limits, parse) == Decoded([], Truncated, buffer);
    assert done + buffer + [] == done + buffer;
    assert messages + [] == messages;
    if used == |chunks| { assert chunks[..used] == chunks; }
    else {
      JoinSplit(chunks, used);
      assert chunks[..used + 1][..used] == chunks[..used];
    }
  }

  lemma Consumed(chunks: seq<Bytes>, used: nat, done: Bytes, messages: seq<Message>, buffer: Bytes, next: Bytes,
                 chunk: Bytes, offset: nat, position: nat, limits: Limits, parse: Parser)
    requires offset <= position <= |chunk| && next == buffer + chunk[offset..position]
    requires Progress(chunks, used, done, messages, buffer, chunk[offset..], limits, parse)
    ensures Progress(chunks, used, done, messages, next, chunk[position..], limits, parse)
  {
    assert chunk[offset..] == chunk[offset..position] + chunk[position..];
    assert done + next + chunk[position..] == done + buffer + chunk[offset..];
  }

  lemma Begun(chunks: seq<Bytes>, limits: Limits, parse: Parser)
    ensures Progress(chunks, 0, [], [], [], [], limits, parse)
  {
    assert chunks[..0] == [];
    forall more: Bytes ensures Decode([] + more, limits, parse) == Prepend([], Decode(more, limits, parse)) {
      assert [] + more == more;
    }
  }

  lemma JoinAll(chunks: seq<Bytes>, used: nat, done: Bytes, buffer: Bytes, left: Bytes) returns (later: Bytes)
    requires used <= |chunks| && Join(chunks[..used]) == done + buffer + left
    ensures later == Join(chunks[used..]) && Join(chunks) == done + (buffer + (left + later))
  {
    later := Join(chunks[used..]);
    JoinSplit(chunks, used);
    assert done + buffer + left + later == done + (buffer + (left + later));
  }

  /** A buffer whose first message is refused is where the one-shot parser stops as well. */
  lemma FaultStop(chunks: seq<Bytes>, used: nat, done: Bytes, messages: seq<Message>, buffer: Bytes, left: Bytes, options: Options, parse: Parser)
    requires Allowed(LimitsOf(options)) && used > 0
    requires Progress(chunks, used, done, messages, buffer, left, LimitsOf(options), parse)
    requires |buffer| >= LENGTH_BYTES && (Size(buffer) == |buffer| || !LengthsFit(buffer, LimitsOf(options)))
    requires First(buffer, LimitsOf(options), parse).Stopped?
    ensures Answers(chunks, used, options, parse, messages, Failed(First(buffer, LimitsOf(options), parse).stop))
  {
    var limits := LimitsOf(options);
    var later := JoinAll(chunks, used, done, buffer, left);
    FirstKept(buffer, left + later, limits, parse);
    assert messages + [] == messages;
  }

  lemma LengthStop(chunks: seq<Bytes>, used: nat, done: Bytes, messages: seq<Message>, buffer: Bytes, left: Bytes, options: Options, parse: Parser)
    requires Allowed(LimitsOf(options)) && used > 0
    requires Progress(chunks, used, done, messages, buffer, left, LimitsOf(options), parse)
    requires |buffer| >= LENGTH_BYTES && !LengthsFit(buffer, LimitsOf(options))
    ensures Answers(chunks, used, options, parse, messages, Failed(LengthLimit))
  {
    FaultStop(chunks, used, done, messages, buffer, left, options, parse);
  }

  lemma EndStop(chunks: seq<Bytes>, used: nat, done: Bytes, messages: seq<Message>, buffer: Bytes, left: Bytes, options: Options, parse: Parser)
    requires Allowed(LimitsOf(options)) && 0 < used <= |chunks| && |left| < |chunks[used - 1]|
    requires Progress(chunks, used, done, messages, buffer, left, LimitsOf(options), parse)
    requires |buffer| >= LENGTH_BYTES && Size(buffer) == |buffer|
    requires First(buffer, LimitsOf(options), parse).Yielded? && First(buffer, LimitsOf(options), parse).message.EndMark?
    ensures Answers(chunks, used, options, parse, messages + [First(buffer, LimitsOf(options), parse).message],
                    if left == [] then Finished else TrailingBytes)
  {
    hide Decode, Join, Boundary, First;
    var limits := LimitsOf(options);
    var later := JoinAll(chunks, used, done, buffer, left);
    EndThen(buffer, left + later, limits, parse);
    JoinSplit(chunks, used);
    BoundaryInside(chunks, used, |left|);
  }

  lemma EndThen(buffer: Bytes, more: Bytes, limits: Limits, parse: Parser)
    requires |buffer| >= LENGTH_BYTES && Size(buffer) == |buffer|
    requires First(buffer, limits, parse).Yielded? && First(buffer, limits, parse).message.EndMark?
    ensures Decode(buffer + more, limits, parse) == Decoded([First(buffer, limits, parse).message], EndSeen, more)
  {
    RecordThen(buffer, more, limits, parse);
  }

  lemma FrameRead(chunks: seq<Bytes>, used: nat, done: Bytes, messages: seq<Message>, buffer: Bytes, left: Bytes, limits: Limits, parse: Parser)
    requires Progress(chunks, used, done, messages, buffer, left, limits, parse)
    requires |buffer| >= LENGTH_BYTES && Size(buffer) == |buffer|
    requires First(buffer, limits, parse).Yielded? && First(buffer, limits, parse).message.Frame?
    ensures Progress(chunks, used, done + buffer, messages + [First(buffer, limits, parse).message], [], left, limits, parse)
  {
    SplitsMore(done, messages, buffer, First(buffer, limits, parse).message, limits, parse);
    assert done + buffer + [] + left == done + buffer + left;
  }

  /** A complete message in the buffer decides what the iterator does next. */
  lemma Delivered(chunks: seq<Bytes>, used: nat, done: Bytes, messages: seq<Message>, buffer: Bytes, chunk: Bytes, offset: nat, options: Options, parse: Parser)
    requires Allowed(LimitsOf(options)) && 0 < used <= |chunks| && chunk == chunks[used - 1] && 0 < offset <= |chunk|
    requires Progress(chunks, used, done, messages, buffer, chunk[offset..], LimitsOf(options), parse)
    requires |buffer| >= LENGTH_BYTES && Size(buffer) == |buffer|
    ensures match First(buffer, LimitsOf(options), parse)
            case Stopped(stop) => Answers(chunks, used, options, parse, messages, Failed(stop))
            case Yielded(message) =>
              if message.EndMark? then Answers(chunks, used, options, parse, messages + [message], if offset < |chunk| then TrailingBytes else Finished)
              else Progress(chunks, used, done + buffer, messages + [message], [], chunk[offset..], LimitsOf(options), parse)
  {
    hide Progress, Answers, Decode, Join, First;
    var left := chunk[offset..];
    match First(buffer, LimitsOf(options), parse)
    case Stopped(_) => FaultStop(chunks, used, done, messages, buffer, left, options, parse);
    case Yielded(message) =>
      if message.EndMark? { EndStop(chunks, used, done, messages, buffer, left, options, parse); }
      else { FrameRead(chunks, used, done, messages, buffer, left, LimitsOf(options), parse); }
  }

  /** What the iterator holds of the message it is reading. */
  predicate Holds(buffer: Bytes, expectedLength: Option<nat>, limits: Limits) {
    && (expectedLength.None? ==> |buffer| <= LENGTH_BYTES)
    && (expectedLength.Some? ==>
          |buffer| >= LENGTH_BYTES && expectedLength.value == Size(buffer) && |buffer| < Size(buffer) && LengthsFit(buffer, limits))
  }

  lemma StillHolds(before: Bytes, after: Bytes, limits: Limits)
    requires |before| >= LENGTH_BYTES && before <= after && LengthsFit(before, limits) && |after| <= Size(before)
    ensures LengthsFit(after, limits) && Size(after) == Size(before)
    ensures |after| < Size(before) ==> Holds(after, Some(Size(before)), limits)
  {
    LengthsKept(before, after);
  }

  /** As much of the chunk as the buffer still wants. */
  method Append(buffer: Bytes, chunk: Bytes, offset: nat, want: nat) returns (next: Bytes, position: nat)
    requires offset <= |chunk| && |buffer| <= want
    ensures offset <= position <= |chunk| && next == buffer + chunk[offset..position]
    ensures |next| <= want && (|next| == want || position == |chunk|)
  {
    var amount := Min(want - |buffer|, |chunk| - offset);
    return buffer + chunk[offset..offset + amount], offset + amount;
  }

  lemma ReadsFirst(buffer: Bytes, limits: Limits, parse: Parser)
    requires |buffer| >= LENGTH_BYTES && Size(buffer) == |buffer| && LengthsFit(buffer, limits)
    ensures var h := Uint32(buffer, 0);
            First(buffer, limits, parse) == Read(buffer[LENGTH_BYTES..LENGTH_BYTES + h], buffer[LENGTH_BYTES + h..], parse)
  {
    assert buffer[LENGTH_BYTES + Uint32(buffer, 0)..] == buffer[LENGTH_BYTES + Uint32(buffer, 0)..Size(buffer)];
  }

  /** The part of the iterator that has a complete message in its buffer: it yields the message, or stops. */
  method Deliver(ghost chunks: seq<Bytes>, ghost used: nat, ghost done: Bytes, messages: seq<Message>, buffer: Bytes, chunk: Bytes, offset: nat,
                 ghost options: Options, parse: Parser)
    returns (yielded: seq<Message>, stop: Option<Outcome>)
    requires Allowed(LimitsOf(options)) && 0 < used <= |chunks| && chunk == chunks[used - 1] && 0 < offset <= |chunk|
    requires Progress(chunks, used, done, messages, buffer, chunk[offset..], LimitsOf(options), parse)
    requires |buffer| >= LENGTH_BYTES && Size(buffer) == |buffer| && LengthsFit(buffer, LimitsOf(options))
    ensures stop.Some? ==> Answers(chunks, used, options, parse, yielded, stop.value)
    ensures stop.None? ==> Progress(chunks, used, done + buffer, yielded, [], chunk[offset..], LimitsOf(options), parse)
  {
    hide Progress, Answers, Decode, Join, Read, First;
    Delivered(chunks, used, done, messages, buffer, chunk, offset, options, parse);
    var headerLength := Uint32(buffer, 0);
    var reading := Read(buffer[LENGTH_BYTES..LENGTH_BYTES + headerLength], buffer[LENGTH_BYTES + headerLength..], parse);
    ReadsFirst(buffer, LimitsOf(options), parse);
    if reading.Stopped? { return messages, Some(Failed(reading.stop)); }
    if reading.message.EndMark? { return messages + [reading.message], Some(if offset < |chunk| then TrailingBytes else Finished); }
    return messages + [reading.message], None;
  }

  /** The iterator: the messages it yields, how it stops, how many chunks it has asked for, and the longest its
      buffer has been. */
  method ReadIterator(chunks: seq<Bytes>, options: Options, parse: Parser)
    returns (messages: seq<Message>, outcome: Outcome, used: nat, peak: nat)
    ensures Answers(chunks, used, options, parse, messages, outcome)
    ensures peak <= MAX_BUFFER_BYTES
  {
    hide Progress, Answers, Decode, Join, Uint32, Read, First;
    messages, used, peak := [], 0, 0;
    var maxHeaderBytes := if options.maxHeaderBytes != 0 then options.maxHeaderBytes else MAX_HEADER_BYTES;
    var maxImageBytes := if options.maxImageBytes != 0 then options.maxImageBytes else MAX_IMAGE_BYTES;
    if maxHeaderBytes > MAX_HEADER_BYTES || maxImageBytes > MAX_IMAGE_BYTES {
      Refused(chunks, options, parse);
      return messages, BoundsTooLarge, used, peak;
    }
    ghost var limits := LimitsOf(options);
    ghost var done: Bytes := [];
    var buffer: Bytes := [];
    var expectedLength: Option<nat> := None;
    var chunk: Bytes, offset: nat := [], 0;
    Begun(chunks, limits, parse);
    while true
      invariant used <= |chunks| && offset <= |chunk| && Progress(chunks, used, done, messages, buffer, chunk[offset..], limits, parse)
      invariant if used == 0 then chunk == [] && buffer == [] else chunk == chunks[used - 1]
      invariant |buffer| <= peak <= MAX_BUFFER_BYTES && Holds(buffer, expectedLength, limits)
      decreases |chunks| - used, |chunk| - offset, expectedLength.None?
    {
      if offset >= |chunk| {
        if |buffer| < LENGTH_BYTES || (expectedLength.Some? && |buffer| < expectedLength.value) {
          assert chunk[offset..] == [];
          Starved(chunks, used, done, messages, buffer, options, parse);
          if used == |chunks| { return messages, Failed(Truncated), used, peak; }
          chunk, offset, used := chunks[used], 0, used + 1;
          if |chunk| == 0 { continue; }
        }
      }
      if |buffer| < LENGTH_BYTES {
        var next, position := Append(buffer, chunk, offset, LENGTH_BYTES);
        Consumed(chunks, used, done, messages, buffer, next, chunk, offset, position, limits, parse);
        buffer, offset := next, position;
        peak := if |buffer| > peak then |buffer| else peak;
        continue;
      }
      if expectedLength.None? {
        var headerLength, bodyLength := Uint32(buffer, 0), Uint32(buffer, HEADER_BYTES);
        if headerLength < 2 || headerLength > maxHeaderBytes || bodyLength > maxImageBytes {
          LengthStop(chunks, used, done, messages, buffer, chunk[offset..], options, parse);
          return messages, Failed(LengthLimit), used, peak;
        }
        expectedLength := Some(LENGTH_BYTES + headerLength + bodyLength);
      }
      var next, position := Append(buffer, chunk, offset, expectedLength.value);
      if |next| > MAX_BUFFER_BYTES { return messages, BufferLimit, used, peak; }
      Consumed(chunks, used, done, messages, buffer, next, chunk, offset, position, limits, parse);
      StillHolds(buffer, next, limits);
      buffer, offset := next, position;
      peak := if |buffer| > peak then |buffer| else peak;
      if |buffer| < expectedLength.value { continue; }

      var stop;
      messages, stop := Deliver(chunks, used, done, messages, buffer, chunk, offset, options, parse);
      if stop.Some? { return messages, stop.value, used, peak; }
      done := done + buffer;
      buffer := [];
      expectedLength := None;
    }
  }

  function Min(a: nat, b: nat): (r: nat)
    ensures r <= a && r <= b && (r == a || r == b)
  {
    if a < b then a else b
  }
}
