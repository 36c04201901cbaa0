/** What the framed stream decoder guarantees over every body and every way of cutting it into chunks. */
module StreamTheorems {
  import opened Wrappers
  import opened Binary
  import opened Streams

  // ---------------------------------------------------------------------------------------------
  // Chunking
  // ---------------------------------------------------------------------------------------------

  /** Two ways of cutting the same bytes yield the same messages and the same error, except that bytes after the
      end marker may go unnoticed. */
  lemma ChunkingIsIrrelevant(a: seq<Bytes>, b: seq<Bytes>, options: Options, parse: Parser)
    requires Join(a) == Join(b)
    ensures Report(a, options, parse).0 == Report(b, options, parse).0
    ensures var x, y := Report(a, options, parse).1, Report(b, options, parse).1;
            x == y || (x in {Finished, TrailingBytes} && y in {Finished, TrailingBytes}
                       && Decode(Join(a), LimitsOf(options), parse).rest != [])
  {
    var d := Decode(Join(a), LimitsOf(options), parse);
    if d.rest == [] {
      EndIsBoundary(a);
      EndIsBoundary(b);
    }
  }

  lemma EndIsBoundary(chunks: seq<Bytes>)
    ensures Boundary(chunks, |Join(chunks)|)
  {
    assert chunks[..|chunks|] == chunks;
  }

  /** Bytes after the end marker are an error when they come in the chunk that holds its last byte, and are never
      read when they come in a later chunk: both happen to every such body. */
  lemma TrailingBytesNeedTheirChunk(bytes: Bytes, options: Options, parse: Parser) returns (cut: nat)
    requires Allowed(LimitsOf(options))
    requires Decode(bytes, LimitsOf(options), parse).stop == EndSeen && Decode(bytes, LimitsOf(options), parse).rest != []
    ensures Report([bytes], options, parse).1 == TrailingBytes
    ensures cut < |bytes| && Report([bytes[..cut], bytes[cut..]], options, parse).1 == Finished
  {
    hide Decode, Join, Boundary;
    var rest := Decode(bytes, LimitsOf(options), parse).rest;
    RestIsShorter(bytes, LimitsOf(options), parse);
    cut := |bytes| - |rest|;
    OneChunk(bytes, |rest|);
    TwoChunks(bytes, cut);
  }

  lemma OneChunk(bytes: Bytes, left: nat)
    requires left < |bytes|
    ensures Join([bytes]) == bytes && (Boundary([bytes], |bytes| - left) <==> left == 0)
  {
    JoinOne(bytes);
    assert [bytes][..1] == [bytes];
    BoundaryInside([bytes], 1, left);
  }

  lemma TwoChunks(bytes: Bytes, cut: nat)
    requires cut <= |bytes|
    ensures Join([bytes[..cut], bytes[cut..]]) == bytes && Boundary([bytes[..cut], bytes[cut..]], cut)
  {
    var two := [bytes[..cut], bytes[cut..]];
    JoinSplit(two, 1);
    JoinOne(bytes[..cut]);
    JoinOne(bytes[cut..]);
    assert two[..1] == [bytes[..cut]] && two[1..] == [bytes[cut..]];
    assert |Join(two[..1])| == cut;
  }

  lemma {:induction false} RestIsShorter(bytes: Bytes, limits: Limits, parse: Parser)
    requires Decode(bytes, limits, parse).stop == EndSeen
    ensures |Decode(bytes, limits, parse).rest| < |bytes|
    decreases |bytes|
  {
    var first := First(bytes, limits, parse).message;
    if first.Frame? { RestIsShorter(bytes[Size(bytes)..], limits, parse); }
  }

  // ---------------------------------------------------------------------------------------------
  // Truncation
  // ---------------------------------------------------------------------------------------------

  /** More bytes add messages to a truncated body, and change nothing else once the decoder has stopped. */
  lemma {:induction false} MoreBytes(bytes: Bytes, more: Bytes, limits: Limits, parse: Parser)
    ensures var d, e := Decode(bytes, limits, parse), Decode(bytes + more, limits, parse);
            if d.stop == Truncated then d.messages <= e.messages
            else e.messages == d.messages && e.stop == d.stop && e.rest == d.rest + more
    decreases |bytes|
  {
    if |bytes| >= LENGTH_BYTES {
      LengthsKept(bytes, bytes + more);
      if Size(bytes) <= |bytes| {
        FirstKept(bytes, more, limits, parse);
        var first := First(bytes, limits, parse);
        if first.Yielded? && first.message.Frame? {
          assert (bytes + more)[Size(bytes)..] == bytes[Size(bytes)..] + more;
          MoreBytes(bytes[Size(bytes)..], more, limits, parse);
        }
      }
    }
  }

  /** A body cut short anywhere before the end of its end marker never ends normally: it yields only messages of
      the whole body, in order, and then fails as truncated. */
  lemma TruncationIsNoticed(chunks: seq<Bytes>, cut: seq<Bytes>, options: Options, parse: Parser)
    requires Report(chunks, options, parse).1 == Finished && Decode(Join(chunks), LimitsOf(options), parse).rest == []
    requires Join(cut) < Join(chunks)
    ensures Report(cut, options, parse).1 == Failed(Truncated)
    ensures Report(cut, options, parse).0 <= Report(chunks, options, parse).0
  {
    var more := Join(chunks)[|Join(cut)|..];
    assert Join(cut) + more == Join(chunks);
    MoreBytes(Join(cut), more, LimitsOf(options), parse);
  }

  // ---------------------------------------------------------------------------------------------
  // Encoding
  // ---------------------------------------------------------------------------------------------

  datatype Record = Record(header: Bytes, body: Bytes)

  function Wire(record: Record): Bytes
    requires |record.header| < 0x1_0000_0000 && |record.body| < 0x1_0000_0000
  {
    PutUint32(|record.header|) + PutUint32(|record.body|) + record.header + record.body
  }

  /** The metadata of a frame. */
  predicate SoundMetadata(f: Fields) {
    && f.id.Some? && f.id.value >= 1 && f.geometryVersion.Some? && f.geometryVersion.value >= 1
    && f.width.Some? && 1 <= f.width.value <= 8192 && f.height.Some? && 1 <= f.height.value <= 8192
    && (f.orientation == "portrait" || f.orientation == "landscape")
    && f.capturedAt.Some? && f.capturedAt.value >= 0
    && (f.mime == "image/jpeg" || f.mime == "image/png" || f.mime == "image/svg+xml")
  }

  predicate SoundEnd(f: Fields, size: nat) {
    size == 0 && (f.reason == "session_closed" || f.reason == "session_failed" || f.reason == "stream_complete")
  }

  predicate SoundFrame(f: Fields, size: nat) {
    SoundMetadata(f) && 1 <= size <= 3 * 1024 * 1024
  }

  /** A record within the bounds whose header parses, as an end marker without body or as a frame with its image. */
  predicate Good(record: Record, limits: Limits, parse: Parser) {
    && Fits(record, limits) && parse(record.header).Some? && parse(record.header).value.Object?
    && var f := parse(record.header).value.fields;
       (f.kind == "end" && SoundEnd(f, |record.body|)) || (f.kind == "frame" && SoundFrame(f, |record.body|))
  }

  predicate Fits(record: Record, limits: Limits) {
    && 2 <= |record.header| <= limits.header && |record.header| < 0x1_0000_0000
    && |record.body| <= limits.image && |record.body| < 0x1_0000_0000
  }

  /** What a record says: the fields of its header and, for a frame, its whole body. */
  function MessageOf(record: Record, parse: Parser): Message
    requires parse(record.header).Some? && parse(record.header).value.Object?
  {
    var f := parse(record.header).value.fields;
    if f.kind == "end" then EndMark(f) else Frame(f, record.body)
  }

  /** What is wrong with a header, the first fault that applies. */
  predicate Faulty(header: Json, size: nat, fault: Fault) {
    match fault
    case NotAnObject => header.Other?
    case BadEndMarker => header.Object? && header.fields.kind == "end" && !SoundEnd(header.fields, size)
    case UnknownType => header.Object? && header.fields.kind != "end" && header.fields.kind != "frame"
    case BadMetadata => header.Object? && header.fields.kind == "frame" && !SoundMetadata(header.fields)
    case ImageLimit => header.Object? && header.fields.kind == "frame" && SoundMetadata(header.fields) && !(1 <= size <= 3 * 1024 * 1024)
  }

  /** Reading a record yields what it says when it is good, and otherwise names what is wrong. */
  lemma ReadingIsExact(record: Record, limits: Limits, parse: Parser)
    requires Fits(record, limits)
    ensures Good(record, limits, parse) ==> Read(record.header, record.body, parse) == Yielded(MessageOf(record, parse))
    ensures !Good(record, limits, parse) ==>
              match Read(record.header, record.body, parse)
              case Stopped(BadJson) => parse(record.header).None?
              case Stopped(BadHeader(fault)) => parse(record.header).Some? && Faulty(parse(record.header).value, |record.body|, fault)
              case _ => false
  {
  }

  ghost predicate Frames(records: seq<Record>, limits: Limits, parse: Parser) {
    forall i :: 0 <= i < |records| ==> Good(records[i], limits, parse) && MessageOf(records[i], parse).Frame?
  }

  ghost predicate Ends(record: Record, limits: Limits, parse: Parser) {
    Good(record, limits, parse) && MessageOf(record, parse).EndMark?
  }

  ghost function WireAll(records: seq<Record>, limits: Limits, parse: Parser): Bytes
    requires Frames(records, limits, parse)
  {
    if records == [] then [] else Wire(records[0]) + WireAll(records[1..], limits, parse)
  }

  ghost function Messages(records: seq<Record>, limits: Limits, parse: Parser): seq<Message>
    requires Frames(records, limits, parse)
  {
    if records == [] then [] else [MessageOf(records[0], parse)] + Messages(records[1..], limits, parse)
  }

  lemma WireSize(record: Record, more: Bytes)
    requires |record.header| < 0x1_0000_0000 && |record.body| < 0x1_0000_0000
    ensures var bytes := Wire(record) + more;
            && |bytes| >= LENGTH_BYTES && Uint32(bytes, 0) == |record.header| && Uint32(bytes, HEADER_BYTES) == |record.body|
            && Size(bytes) == |Wire(record)|
            && bytes[LENGTH_BYTES..LENGTH_BYTES + |record.header|] == record.header
            && bytes[LENGTH_BYTES + |record.header|..Size(bytes)] == record.body
            && bytes[Size(bytes)..] == more
  {
    var h, b := PutUint32(|record.header|), PutUint32(|record.body|);
    var bytes := Wire(record) + more;
    assert bytes == [] + h + (b + record.header + record.body + more);
    Uint32OfPut(|record.header|, [], b + record.header + record.body + more);
    assert bytes == h + b + (record.header + record.body + more);
    Uint32OfPut(|record.body|, h, record.header + record.body + more);
  }

  lemma WireFirst(record: Record, more: Bytes, limits: Limits, parse: Parser)
    requires Good(record, limits, parse)
    ensures First(Wire(record) + more, limits, parse) == Yielded(MessageOf(record, parse))
    ensures Size(Wire(record) + more) == |Wire(record)| && (Wire(record) + more)[|Wire(record)|..] == more
  {
    hide Read;
    WireSize(record, more);
    ReadingIsExact(record, limits, parse);
  }

  /** Decoding the encoding of any frames and one end marker gives back exactly those messages, and what follows. */
  lemma {:induction false} RoundTrip(records: seq<Record>, end: Record, more: Bytes, limits: Limits, parse: Parser)
    requires Frames(records, limits, parse) && Ends(end, limits, parse)
    ensures Decode(WireAll(records, limits, parse) + Wire(end) + more, limits, parse)
            == Decoded(Messages(records, limits, parse) + [MessageOf(end, parse)], EndSeen, more)
    decreases |records|
  {
    hide First, Read, Size, Uint32, SoundEnd, SoundFrame;
    if records == [] {
      assert WireAll([], limits, parse) + Wire(end) + more == Wire(end) + more;
      assert Messages([], limits, parse) + [MessageOf(end, parse)] == [MessageOf(end, parse)];
      WireFirst(end, more, limits, parse);
    } else {
      var tail := WireAll(records[1..], limits, parse) + Wire(end) + more;
      assert WireAll(records, limits, parse) + Wire(end) + more == Wire(records[0]) + tail;
      WireFirst(records[0], tail, limits, parse);
      RoundTrip(records[1..], end, more, limits, parse);
      assert [MessageOf(records[0], parse)] + (Messages(records[1..], limits, parse) + [MessageOf(end, parse)])
          == Messages(records, limits, parse) + [MessageOf(end, parse)];
    }
  }

  /** Bytes that were read as a message are the encoding of a good record. */
  lemma FirstIsWire(bytes: Bytes, limits: Limits, parse: Parser) returns (record: Record)
    requires First(bytes, limits, parse).Yielded?
    ensures Good(record, limits, parse) && MessageOf(record, parse) == First(bytes, limits, parse).message
    ensures bytes == Wire(record) + bytes[Size(bytes)..] && |Wire(record)| == Size(bytes)
  {
    hide Read;
    record := RecordAt(bytes, limits);
    ReadingIsExact(record, limits, parse);
  }

  /** A body is accepted up to an end marker exactly when it starts with the encoding of frames and one end marker;
      the messages are theirs. */
  lemma {:induction false} AcceptedAreEncodings(bytes: Bytes, limits: Limits, parse: Parser) returns (records: seq<Record>, end: Record)
    requires Decode(bytes, limits, parse).stop == EndSeen
    ensures Frames(records, limits, parse) && Ends(end, limits, parse)
    ensures bytes == WireAll(records, limits, parse) + Wire(end) + Decode(bytes, limits, parse).rest
    ensures Decode(bytes, limits, parse).messages == Messages(records, limits, parse) + [MessageOf(end, parse)]
    decreases |bytes|
  {
    hide Read, SoundEnd, SoundFrame, First, Uint32;
    var first := FirstIsWire(bytes, limits, parse);
    var tail := bytes[Size(bytes)..];
    if MessageOf(first, parse).EndMark? {
      records, end := [], first;
      assert WireAll(records, limits, parse) + Wire(end) + tail == Wire(end) + tail;
      assert Messages(records, limits, parse) + [MessageOf(end, parse)] == [MessageOf(end, parse)];
    } else {
      var rest, last := AcceptedAreEncodings(tail, limits, parse);
      records, end := [first] + rest, last;
      Longer(first, rest, end, Decode(tail, limits, parse).rest, limits, parse);
    }
  }

  lemma Longer(first: Record, rest: seq<Record>, end: Record, left: Bytes, limits: Limits, parse: Parser)
    requires Frames(rest, limits, parse) && Good(first, limits, parse) && MessageOf(first, parse).Frame? && Ends(end, limits, parse)
    ensures Frames([first] + rest, limits, parse)
    ensures WireAll([first] + rest, limits, parse) + Wire(end) + left == Wire(first) + (WireAll(rest, limits, parse) + Wire(end) + left)
    ensures Messages([first] + rest, limits, parse) + [MessageOf(end, parse)]
            == [MessageOf(first, parse)] + (Messages(rest, limits, parse) + [MessageOf(end, parse)])
  {
    assert ([first] + rest)[1..] == rest;
  }

  /** Bounds that are absent or zero are the defaults, and a stream is not read at all under larger ones. */
  lemma DefaultBounds(chunks: seq<Bytes>, options: Options, parse: Parser)
    ensures var header := if options.maxHeaderBytes == 0 then 16384 else options.maxHeaderBytes;
            var image := if options.maxImageBytes == 0 then 3145728 else options.maxImageBytes;
            && LimitsOf(options) == Limits(header, image)
            && (Report(chunks, options, parse) == ([], BoundsTooLarge) <==> header > 16384 || image > 3145728)
  {
  }

  /** Why the decoder stops in front of these bytes. */
  ghost predicate Explains(stop: Stop, rest: Bytes, limits: Limits, parse: Parser) {
    match stop
    case EndSeen => false
    case Truncated =>
      |rest| < 8 || (2 <= Uint32(rest, 0) <= limits.header && Uint32(rest, 4) <= limits.image && |rest| < 8 + Uint32(rest, 0) + Uint32(rest, 4))
    case LengthLimit => |rest| >= 8 && !(2 <= Uint32(rest, 0) <= limits.header && Uint32(rest, 4) <= limits.image)
    case BadJson => exists record :: Begins(record, rest, limits) && parse(record.header).None?
    case BadHeader(fault) =>
      exists record :: Begins(record, rest, limits) && parse(record.header).Some? && Faulty(parse(record.header).value, |record.body|, fault)
  }

  ghost predicate Begins(record: Record, bytes: Bytes, limits: Limits) {
    Fits(record, limits) && Wire(record) <= bytes
  }

  lemma StopIsExplained(bytes: Bytes, limits: Limits, parse: Parser)
    requires First(bytes, limits, parse).Stopped?
    ensures Explains(First(bytes, limits, parse).stop, bytes, limits, parse)
  {
    if |bytes| >= LENGTH_BYTES && LengthsFit(bytes, limits) && Size(bytes) <= |bytes| {
      hide Uint32;
      var record := RecordAt(bytes, limits);
      ReadingIsExact(record, limits, parse);
      assert Begins(record, bytes, limits);
    }
  }

  /** The record that complete bytes within the bounds start with. */
  lemma RecordAt(bytes: Bytes, limits: Limits) returns (record: Record)
    requires |bytes| >= LENGTH_BYTES && LengthsFit(bytes, limits) && Size(bytes) <= |bytes|
    ensures Fits(record, limits) && bytes == Wire(record) + bytes[Size(bytes)..] && |Wire(record)| == Size(bytes)
    ensures forall parse: Parser :: First(bytes, limits, parse) == Read(record.header, record.body, parse)
  {
    var h, b := Uint32(bytes, 0), Uint32(bytes, HEADER_BYTES);
    record := Record(bytes[LENGTH_BYTES..LENGTH_BYTES + h], bytes[LENGTH_BYTES + h..Size(bytes)]);
    PutOfUint32(bytes, 0);
    PutOfUint32(bytes, HEADER_BYTES);
    assert bytes == bytes[0..4] + bytes[4..8] + record.header + record.body + bytes[Size(bytes)..];
  }

  /** Whatever the bytes, the messages are those of the frames they start with, and the decoder stops for the reason
      that what follows gives, or at an end marker. */
  lemma {:induction false} EveryBodyIsExplained(bytes: Bytes, limits: Limits, parse: Parser) returns (records: seq<Record>)
    ensures Frames(records, limits, parse)
    ensures var d := Decode(bytes, limits, parse);
            d.stop != EndSeen ==> bytes == WireAll(records, limits, parse) + d.rest && d.messages == Messages(records, limits, parse)
                                  && Explains(d.stop, d.rest, limits, parse)
    decreases |bytes|
  {
    hide First, Good, MessageOf, Uint32, Explains;
    records := [];
    var first := First(bytes, limits, parse);
    match first
    case Stopped(_) => StopIsExplained(bytes, limits, parse);
    case Yielded(message) =>
      if message.Frame? && Decode(bytes, limits, parse).stop != EndSeen {
        var record := FirstIsWire(bytes, limits, parse);
        var tail := bytes[Size(bytes)..];
        var rest := EveryBodyIsExplained(tail, limits, parse);
        records := [record] + rest;
        OneFrameMore(record, rest, Decode(tail, limits, parse).rest, limits, parse);
      }
  }

  lemma OneFrameMore(first: Record, rest: seq<Record>, left: Bytes, limits: Limits, parse: Parser)
    requires Frames(rest, limits, parse) && Good(first, limits, parse) && MessageOf(first, parse).Frame?
    ensures Frames([first] + rest, limits, parse)
    ensures WireAll([first] + rest, limits, parse) + left == Wire(first) + (WireAll(rest, limits, parse) + left)
    ensures Messages([first] + rest, limits, parse) == [MessageOf(first, parse)] + Messages(rest, limits, parse)
  {
    hide SoundEnd, SoundFrame;
    assert ([first] + rest)[1..] == rest;
  }

  /** A stream of encoded frames and one end marker, cut anyhow, is decoded to those messages and ends normally. */
  lemma EncodedStreamIsDelivered(chunks: seq<Bytes>, records: seq<Record>, end: Record, options: Options, parse: Parser)
    requires Allowed(LimitsOf(options)) && Frames(records, LimitsOf(options), parse) && Ends(end, LimitsOf(options), parse)
    requires Join(chunks) == WireAll(records, LimitsOf(options), parse) + Wire(end)
    ensures Report(chunks, options, parse) == (Messages(records, LimitsOf(options), parse) + [MessageOf(end, parse)], Finished)
  {
    var limits := LimitsOf(options);
    RoundTrip(records, end, [], limits, parse);
    assert WireAll(records, limits, parse) + Wire(end) + [] == Join(chunks);
    EndIsBoundary(chunks);
  }

  /** A frame that is yielded has an image within the bounds, and sound metadata. */
  lemma {:induction false} YieldedFramesAreSound(bytes: Bytes, limits: Limits, parse: Parser, k: nat)
    requires limits.image <= MAX_IMAGE_BYTES && k < |Decode(bytes, limits, parse).messages|
    ensures var m := Decode(bytes, limits, parse).messages[k];
            match m
            case EndMark(f) => SoundEnd(f, 0) && k == |Decode(bytes, limits, parse).messages| - 1
            case Frame(f, body) => SoundFrame(f, |body|) && |body| <= limits.image
    decreases |bytes|
  {
    var first := First(bytes, limits, parse).message;
    if first.Frame? && k > 0 { YieldedFramesAreSound(bytes[Size(bytes)..], limits, parse, k - 1); }
  }
}
