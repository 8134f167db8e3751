/** The compact cursor batch format carried inside encrypted cursor objects.

    Encoding and decoding are imperative as in the program (a byte vector that grows, a
    reader whose offset advances) and are tied to specification functions; the bijection
    is proved about those functions.
  */
module CursorCodec {
  import opened MachineInts
  import opened Wrappers
  import opened BigEndian

  const MAX_CURSOR_PLAINTEXT_LEN := 4 * 1024 * 1024
  const MAX_CURSOR_BITMAP_SIDE := 512
  const CURSOR_BATCH_HEADER_LEN := 14
  const CURSOR_EVENT_LEN := 33
  const CURSOR_BITMAP_HEADER_LEN := 20
  const MICROPIXELS := 1_000_000

  const MAGIC: seq<byte> := [0x47, 0x43, 0x43, 0x31]

  datatype CursorBitmap = CursorBitmap(width: u32, height: u32, hotspotX: i32, hotspotY: i32, rgba: seq<byte>)

  datatype CursorEvent = CursorEvent(
    timestamp: u64, xMicropixels: i64, yMicropixels: i64, visible: bool, bitmapId: u64, bitmap: Option<CursorBitmap>)

  datatype CursorBatch = CursorBatch(sourceWidth: u32, sourceHeight: u32, events: seq<CursorEvent>)

  /** Object metadata a batch is bound to; the nil identifier is zero. */
  datatype CursorContext = CursorContext(
    streamId: nat, epochId: nat, sequence: u64, startTimestamp: u64, sourceWidth: u32, sourceHeight: u32)

  datatype CursorError = TooLarge | Malformed

  // ---------------------------------------------------------------- validation

  predicate BitmapValid(bitmap: CursorBitmap) {
    && 0 < bitmap.width <= MAX_CURSOR_BITMAP_SIDE
    && 0 < bitmap.height <= MAX_CURSOR_BITMAP_SIDE
    && 0 <= bitmap.hotspotX < bitmap.width
    && 0 <= bitmap.hotspotY < bitmap.height
    && |bitmap.rgba| == bitmap.width * bitmap.height * 4
  }

  predicate EventValid(batch: CursorBatch, event: CursorEvent) {
    && (if event.visible then
          && 0 <= event.xMicropixels <= batch.sourceWidth * MICROPIXELS
          && 0 <= event.yMicropixels <= batch.sourceHeight * MICROPIXELS
        else
          event.xMicropixels == 0 && event.yMicropixels == 0 && event.bitmap.None?)
    && (event.bitmap.Some? ==> event.bitmapId != 0 && BitmapValid(event.bitmap.value))
  }

  predicate SourceValid(batch: CursorBatch) {
    && 0 < batch.sourceWidth <= U16_MAX
    && 0 < batch.sourceHeight <= U16_MAX
    && batch.events != []
  }

  predicate EventsValid(batch: CursorBatch) {
    && (forall i :: 0 <= i < |batch.events| ==> EventValid(batch, batch.events[i]))
    && (forall i :: 0 < i < |batch.events| ==> batch.events[i - 1].timestamp <= batch.events[i].timestamp)
  }

  function EventLen(event: CursorEvent): nat {
    CURSOR_EVENT_LEN +
    match event.bitmap
    case None => 0
    case Some(bitmap) => CURSOR_BITMAP_HEADER_LEN + |bitmap.rgba|
  }

  function EventsLen(events: seq<CursorEvent>): nat {
    if events == [] then 0 else EventsLen(events[..|events| - 1]) + EventLen(events[|events| - 1])
  }

  function BatchLen(batch: CursorBatch): nat {
    CURSOR_BATCH_HEADER_LEN + EventsLen(batch.events)
  }

  predicate FitsBounds(batch: CursorBatch) {
    |batch.events| <= U16_MAX && BatchLen(batch) <= MAX_CURSOR_PLAINTEXT_LEN
  }

  predicate ContextMatches(batch: CursorBatch, context: CursorContext) {
    && context.streamId != 0
    && context.epochId != 0
    && batch.sourceWidth == context.sourceWidth
    && batch.sourceHeight == context.sourceHeight
    && batch.events != []
    && batch.events[0].timestamp == context.startTimestamp
  }

  /** The verdict of both validators, in the order they report. */
  function Validate(batch: CursorBatch, context: CursorContext): Result<(), CursorError> {
    if !SourceValid(batch) || !EventsValid(batch) then Err(Malformed)
    else if !FitsBounds(batch) then Err(TooLarge)
    else if !ContextMatches(batch, context) then Err(Malformed)
    else Ok(())
  }

  lemma {:induction false} EventsLenMonotone(events: seq<CursorEvent>, i: nat)
    requires i <= |events|
    ensures EventsLen(events[..i]) <= EventsLen(events)
  {
    if i < |events| {
      var most := events[..|events| - 1];
      assert most[..i] == events[..i];
      EventsLenMonotone(most, i);
    } else {
      assert events[..i] == events;
    }
  }

  /** `encoded_len`: the running total is checked after every event. */
  method EncodedLen(batch: CursorBatch) returns (r: Result<nat, CursorError>)
    ensures r == if |batch.events| <= U16_MAX && (batch.events == [] || FitsBounds(batch))
                 then Ok(BatchLen(batch)) else Err(TooLarge)
  {
    if |batch.events| > U16_MAX {
      return Err(TooLarge);
    }
    var length := CURSOR_BATCH_HEADER_LEN;
    for i := 0 to |batch.events|
      invariant length == CURSOR_BATCH_HEADER_LEN + EventsLen(batch.events[..i])
      invariant i == 0 || length <= MAX_CURSOR_PLAINTEXT_LEN
    {
      assert batch.events[..i + 1][..i] == batch.events[..i];
      EventsLenMonotone(batch.events, i + 1);
      length := length + EventLen(batch.events[i]);
      if length > MAX_CURSOR_PLAINTEXT_LEN {
        return Err(TooLarge);
      }
    }
    assert batch.events[..|batch.events|] == batch.events;
    return Ok(length);
  }

  /** `validate_cursor_batch`, with the previous timestamp carried by the loop. */
  method ValidateCursorBatch(batch: CursorBatch) returns (r: Result<(), CursorError>)
    ensures r == if !SourceValid(batch) || !EventsValid(batch) then Err(Malformed)
                 else if !FitsBounds(batch) then Err(TooLarge) else Ok(())
  {
    if !SourceValid(batch) {
      return Err(Malformed);
    }
    var previous: Option<u64> := None;
    for i := 0 to |batch.events|
      invariant previous == if i == 0 then None else Some(batch.events[i - 1].timestamp)
      invariant forall k :: 0 <= k < i ==> EventValid(batch, batch.events[k])
      invariant forall k :: 0 < k < i ==> batch.events[k - 1].timestamp <= batch.events[k].timestamp
    {
      var event := batch.events[i];
      if previous.Some? && event.timestamp < previous.value {
        return Err(Malformed);
      }
      previous := Some(event.timestamp);
      if !EventValid(batch, event) {
        return Err(Malformed);
      }
    }
    var length := EncodedLen(batch);
    return if length.Ok? then Ok(()) else Err(length.error);
  }

  // ---------------------------------------------------------------- byte layout

  function Flags(event: CursorEvent): byte {
    (if event.visible then 1 else 0) + (if event.bitmap.Some? then 2 else 0)
  }

  function EventHead(event: CursorEvent): (b: seq<byte>)
    ensures |b| == CURSOR_EVENT_LEN
  {
    WriteU64(event.timestamp) + WriteI64(event.xMicropixels) + WriteI64(event.yMicropixels)
    + [Flags(event)] + WriteU64(event.bitmapId)
  }

  function BitmapBytes(bitmap: CursorBitmap): (b: seq<byte>)
    ensures |b| == CURSOR_BITMAP_HEADER_LEN + |bitmap.rgba|
  {
    BitmapHead(bitmap) + bitmap.rgba
  }

  function BitmapHead(bitmap: CursorBitmap): (b: seq<byte>)
    ensures |b| == CURSOR_BITMAP_HEADER_LEN
  {
    WriteU32(bitmap.width) + WriteU32(bitmap.height) + WriteI32(bitmap.hotspotX) + WriteI32(bitmap.hotspotY)
    + ToBytes(|bitmap.rgba|, 4)
  }

  /** The pixel count fits its four-byte length field. */
  predicate Writable(event: CursorEvent) {
    event.bitmap.Some? ==> |event.bitmap.value.rgba| <= U32_MAX
  }

  function EventBytes(event: CursorEvent): (b: seq<byte>)
    ensures |b| == EventLen(event)
  {
    if event.bitmap.None? then EventHead(event) else EventHead(event) + BitmapBytes(event.bitmap.value)
  }

  function EventsBytes(events: seq<CursorEvent>): (b: seq<byte>)
    ensures |b| == EventsLen(events)
  {
    if events == [] then []
    else EventsBytes(events[..|events| - 1]) + EventBytes(events[|events| - 1])
  }

  function BatchHead(batch: CursorBatch): (b: seq<byte>)
    requires |batch.events| <= U16_MAX
    ensures |b| == CURSOR_BATCH_HEADER_LEN
  {
    MAGIC + WriteU32(batch.sourceWidth) + WriteU32(batch.sourceHeight) + WriteU16(|batch.events|)
  }

  lemma PixelBytesFit(width: nat, height: nat)
    requires width <= MAX_CURSOR_BITMAP_SIDE && height <= MAX_CURSOR_BITMAP_SIDE
    ensures width * height * 4 <= U32_MAX
  {
    assert width * height <= MAX_CURSOR_BITMAP_SIDE * height;
  }

  lemma ValidIsWritable(batch: CursorBatch, event: CursorEvent)
    requires EventValid(batch, event)
    ensures Writable(event)
  {
    if event.bitmap.Some? {
      PixelBytesFit(event.bitmap.value.width, event.bitmap.value.height);
    }
  }

  /** What `encode_cursor_batch` returns. */
  function Encode(context: CursorContext, batch: CursorBatch): (r: Result<seq<byte>, CursorError>)
    ensures r.Ok? ==> |r.value| == BatchLen(batch)
  {
    match Validate(batch, context)
    case Err(error) => Err(error)
    case Ok(_) => Ok(BatchHead(batch) + EventsBytes(batch.events))
  }

  method WriteEvent(prefix: seq<byte>, event: CursorEvent) returns (r: Result<seq<byte>, CursorError>)
    ensures r == if Writable(event) then Ok(prefix + EventBytes(event)) else Err(TooLarge)
  {
    var bytes := prefix;
    bytes := bytes + WriteU64(event.timestamp);
    bytes := bytes + WriteI64(event.xMicropixels);
    bytes := bytes + WriteI64(event.yMicropixels);
    bytes := bytes + [Flags(event)];
    bytes := bytes + WriteU64(event.bitmapId);
    assert bytes == prefix + EventHead(event);
    if event.bitmap.None? {
      return Ok(bytes);
    }
    var bitmap := event.bitmap.value;
    var head := WriteU32(bitmap.width);
    head := head + WriteU32(bitmap.height);
    head := head + WriteI32(bitmap.hotspotX);
    head := head + WriteI32(bitmap.hotspotY);
    if |bitmap.rgba| > U32_MAX {
      return Err(TooLarge);
    }
    head := head + WriteU32(|bitmap.rgba|);
    assert head == BitmapHead(bitmap);
    bytes := bytes + head;
    bytes := bytes + bitmap.rgba;
    assert bytes == prefix + (EventHead(event) + (head + bitmap.rgba));
    return Ok(bytes);
  }

  lemma PrefixGrows(head: seq<byte>, events: seq<CursorEvent>, i: nat)
    requires i < |events|
    ensures head + EventsBytes(events[..i + 1]) == head + EventsBytes(events[..i]) + EventBytes(events[i])
  {
    hide EventBytes;
    var more := events[..i + 1];
    assert more[..i] == events[..i] && more[i] == events[i];
    assert EventsBytes(more) == EventsBytes(events[..i]) + EventBytes(events[i]);
    hide EventsBytes;
    assert head + (EventsBytes(events[..i]) + EventBytes(events[i]))
        == head + EventsBytes(events[..i]) + EventBytes(events[i]);
  }

  /** `encode_cursor_batch`: validate, then append field by field. */
  method EncodeCursorBatch(context: CursorContext, batch: CursorBatch) returns (r: Result<seq<byte>, CursorError>)
    ensures r == Encode(context, batch)
  {
    var valid := ValidateCursorBatch(batch);
    if valid.Err? {
      return Err(valid.error);
    }
    if !ContextMatches(batch, context) {
      return Err(Malformed);
    }
    var bytes := MAGIC + WriteU32(batch.sourceWidth) + WriteU32(batch.sourceHeight) + WriteU16(|batch.events|);
    ghost var head := bytes;
    for i := 0 to |batch.events|
      invariant bytes == head + EventsBytes(batch.events[..i])
    {
      ValidIsWritable(batch, batch.events[i]);
      PrefixGrows(head, batch.events, i);
      var written := WriteEvent(bytes, batch.events[i]);
      if written.Err? {
        return written;
      }
      bytes := written.value;
    }
    assert batch.events[..|batch.events|] == batch.events;
    return Ok(bytes);
  }

  // ---------------------------------------------------------------- decoding

  datatype BitmapRead = BadBitmap | BitmapRead(bitmap: CursorBitmap, end: nat)

  datatype EventRead = BadEvent | EventRead(event: CursorEvent, end: nat)

  datatype EventsRead = BadEvents | EventsRead(events: seq<CursorEvent>, end: nat)

  /** The bitmap stored at an offset and the offset behind it. */
  function BitmapAt(b: seq<byte>, o: nat): (r: BitmapRead)
    ensures r.BitmapRead? ==> o + CURSOR_BITMAP_HEADER_LEN <= r.end <= |b|
  {
    if o + CURSOR_BITMAP_HEADER_LEN > |b| then BadBitmap
    else
      var end := o + CURSOR_BITMAP_HEADER_LEN + ReadU32(b, o + 16);
      if end > |b| then BadBitmap
      else BitmapRead(CursorBitmap(ReadU32(b, o), ReadU32(b, o + 4), ReadI32(b, o + 8), ReadI32(b, o + 12),
                                   b[o + CURSOR_BITMAP_HEADER_LEN..end]), end)
  }

  /** The event stored at an offset and the offset behind it. */
  function EventAt(b: seq<byte>, o: nat): (r: EventRead)
    ensures r.EventRead? ==> o + CURSOR_EVENT_LEN <= r.end <= |b|
  {
    if o + CURSOR_EVENT_LEN > |b| || b[o + 24] >= 4 then BadEvent
    else if b[o + 24] < 2 then
      EventRead(EventFields(b, o, None), o + CURSOR_EVENT_LEN)
    else
      var read := BitmapAt(b, o + CURSOR_EVENT_LEN);
      if read.BadBitmap? then BadEvent else EventRead(EventFields(b, o, Some(read.bitmap)), read.end)
  }

  function EventFields(b: seq<byte>, o: nat, bitmap: Option<CursorBitmap>): CursorEvent
    requires o + CURSOR_EVENT_LEN <= |b|
  {
    CursorEvent(ReadU64(b, o), ReadI64(b, o + 8), ReadI64(b, o + 16), b[o + 24] % 2 == 1, ReadU64(b, o + 25), bitmap)
  }

  /** `count` events in a row. */
  function EventsAt(b: seq<byte>, o: nat, count: nat): (r: EventsRead)
    ensures r.EventsRead? ==> |r.events| == count && o <= r.end && (o <= |b| ==> r.end <= |b|)
    decreases count
  {
    if count == 0 then EventsRead([], o)
    else
      var most := EventsAt(b, o, count - 1);
      if most.BadEvents? then BadEvents
      else
        var last := EventAt(b, most.end);
        if last.BadEvent? then BadEvents else EventsRead(most.events + [last.event], last.end)
  }

  /** The parse behind the header: all events, nothing left over, then both validators. */
  function DecodeBody(context: CursorContext, b: seq<byte>): Result<CursorBatch, CursorError>
    requires |b| >= CURSOR_BATCH_HEADER_LEN
  {
    var read := EventsAt(b, CURSOR_BATCH_HEADER_LEN, ReadU16(b, 12));
    if read.BadEvents? || read.end != |b| then Err(Malformed)
    else
      var batch := CursorBatch(ReadU32(b, 4), ReadU32(b, 8), read.events);
      match Validate(batch, context)
      case Err(error) => Err(error)
      case Ok(_) => Ok(batch)
  }

  predicate HeaderReadable(b: seq<byte>) {
    |b| >= CURSOR_BATCH_HEADER_LEN && b[..4] == MAGIC
  }

  predicate EarlyCheck(b: seq<byte>)
    requires |b| >= CURSOR_BATCH_HEADER_LEN
  {
    |b| - CURSOR_BATCH_HEADER_LEN >= ReadU16(b, 12) * CURSOR_EVENT_LEN
  }

  /** What `decode_cursor_batch` returns. */
  function Decode(context: CursorContext, b: seq<byte>): Result<CursorBatch, CursorError> {
    if |b| > MAX_CURSOR_PLAINTEXT_LEN then Err(TooLarge)
    else if !HeaderReadable(b) || !EarlyCheck(b) then Err(Malformed)
    else DecodeBody(context, b)
  }

  /** The bounds-checked reader whose offset only moves on success. */
  class Reader {
    const bytes: seq<byte>
    var offset: nat

    ghost predicate Valid()
      reads this
    {
      offset <= |bytes|
    }

    constructor (bytes: seq<byte>)
      ensures Valid() && this.bytes == bytes && offset == 0
    {
      this.bytes := bytes;
      offset := 0;
    }

    method Take(length: nat) returns (r: Result<seq<byte>, CursorError>)
      requires Valid()
      modifies this
      ensures Valid()
      ensures old(offset) + length <= |bytes| ==>
                r == Ok(bytes[old(offset)..old(offset) + length]) && offset == old(offset) + length
      ensures old(offset) + length > |bytes| ==> r == Err(Malformed) && offset == old(offset)
    {
      var end := offset + length;
      if end > |bytes| {
        return Err(Malformed);
      }
      r := Ok(bytes[offset..end]);
      offset := end;
    }

    method U8() returns (r: Result<byte, CursorError>)
      requires Valid()
      modifies this
      ensures Valid()
      ensures old(offset) + 1 <= |bytes| ==> r == Ok(bytes[old(offset)]) && offset == old(offset) + 1
      ensures old(offset) + 1 > |bytes| ==> r == Err(Malformed) && offset == old(offset)
    {
      var taken := Take(1);
      return if taken.Ok? then Ok(taken.value[0]) else Err(Malformed);
    }

    method U16() returns (r: Result<u16, CursorError>)
      requires Valid()
      modifies this
      ensures Valid()
      ensures old(offset) + 2 <= |bytes| ==> r == Ok(ReadU16(bytes, old(offset))) && offset == old(offset) + 2
      ensures old(offset) + 2 > |bytes| ==> r == Err(Malformed) && offset == old(offset)
    {
      var taken := Take(2);
      if taken.Err? {
        return Err(Malformed);
      }
      assert taken.value[0..2] == taken.value;
      return Ok(ReadU16(taken.value, 0));
    }

    method U32() returns (r: Result<u32, CursorError>)
      requires Valid()
      modifies this
      ensures Valid()
      ensures old(offset) + 4 <= |bytes| ==> r == Ok(ReadU32(bytes, old(offset))) && offset == old(offset) + 4
      ensures old(offset) + 4 > |bytes| ==> r == Err(Malformed) && offset == old(offset)
    {
      var taken := Take(4);
      if taken.Err? {
        return Err(Malformed);
      }
      assert taken.value[0..4] == taken.value;
      return Ok(ReadU32(taken.value, 0));
    }

    method I32() returns (r: Result<i32, CursorError>)
      requires Valid()
      modifies this
      ensures Valid()
      ensures old(offset) + 4 <= |bytes| ==> r == Ok(ReadI32(bytes, old(offset))) && offset == old(offset) + 4
      ensures old(offset) + 4 > |bytes| ==> r == Err(Malformed) && offset == old(offset)
    {
      var taken := Take(4);
      if taken.Err? {
        return Err(Malformed);
      }
      assert taken.value[0..4] == taken.value;
      return Ok(ReadI32(taken.value, 0));
    }

    method U64() returns (r: Result<u64, CursorError>)
      requires Valid()
      modifies this
      ensures Valid()
      ensures old(offset) + 8 <= |bytes| ==> r == Ok(ReadU64(bytes, old(offset))) && offset == old(offset) + 8
      ensures old(offset) + 8 > |bytes| ==> r == Err(Malformed) && offset == old(offset)
    {
      var taken := Take(8);
      if taken.Err? {
        return Err(Malformed);
      }
      assert taken.value[0..8] == taken.value;
      return Ok(ReadU64(taken.value, 0));
    }

    method I64() returns (r: Result<i64, CursorError>)
      requires Valid()
      modifies this
      ensures Valid()
      ensures old(offset) + 8 <= |bytes| ==> r == Ok(ReadI64(bytes, old(offset))) && offset == old(offset) + 8
      ensures old(offset) + 8 > |bytes| ==> r == Err(Malformed) && offset == old(offset)
    {
      var taken := Take(8);
      if taken.Err? {
        return Err(Malformed);
      }
      assert taken.value[0..8] == taken.value;
      return Ok(ReadI64(taken.value, 0));
    }

    method BitmapRecord() returns (r: Result<CursorBitmap, CursorError>)
      requires Valid()
      modifies this
      ensures Valid()
      ensures var spec := BitmapAt(bytes, old(offset));
              if spec.BitmapRead? then r == Ok(spec.bitmap) && offset == spec.end else r == Err(Malformed)
    {
      var width := U32();
      if width.Err? { return Err(Malformed); }
      var height := U32();
      if height.Err? { return Err(Malformed); }
      var hotspotX := I32();
      if hotspotX.Err? { return Err(Malformed); }
      var hotspotY := I32();
      if hotspotY.Err? { return Err(Malformed); }
      var length := U32();
      if length.Err? { return Err(Malformed); }
      var rgba := Take(length.value);
      if rgba.Err? { return Err(Malformed); }
      return Ok(CursorBitmap(width.value, height.value, hotspotX.value, hotspotY.value, rgba.value));
    }

    method EventRecord() returns (r: Result<CursorEvent, CursorError>)
      requires Valid()
      modifies this
      ensures Valid()
      ensures var spec := EventAt(bytes, old(offset));
              if spec.EventRead? then r == Ok(spec.event) && offset == spec.end else r == Err(Malformed)
    {
      var timestamp := U64();
      if timestamp.Err? { return Err(Malformed); }
      var x := I64();
      if x.Err? { return Err(Malformed); }
      var y := I64();
      if y.Err? { return Err(Malformed); }
      var flags := U8();
      if flags.Err? { return Err(Malformed); }
      if flags.value >= 4 { return Err(Malformed); }
      var bitmapId := U64();
      if bitmapId.Err? { return Err(Malformed); }
      var bitmap: Option<CursorBitmap> := None;
      if flags.value >= 2 {
        var record := BitmapRecord();
        if record.Err? { return Err(Malformed); }
        bitmap := Some(record.value);
      }
      return Ok(CursorEvent(timestamp.value, x.value, y.value, flags.value % 2 == 1, bitmapId.value, bitmap));
    }
  }

  lemma {:induction false} EventsFailEarly(b: seq<byte>, o: nat, shorter: nat, count: nat)
    requires shorter <= count && EventsAt(b, o, shorter).BadEvents?
    ensures EventsAt(b, o, count).BadEvents?
    decreases count
  {
    hide EventAt;
    if shorter < count {
      EventsFailEarly(b, o, shorter, count - 1);
    }
  }

  method ReadEvents(reader: Reader, count: nat) returns (r: Result<seq<CursorEvent>, CursorError>)
    requires reader.Valid()
    modifies reader
    ensures reader.Valid()
    ensures var spec := EventsAt(reader.bytes, old(reader.offset), count);
            if spec.EventsRead? then r == Ok(spec.events) && reader.offset == spec.end else r == Err(Malformed)
  {
    hide EventAt;
    var events: seq<CursorEvent> := [];
    ghost var start := reader.offset;
    for i := 0 to count
      invariant reader.Valid()
      invariant EventsAt(reader.bytes, start, i) == EventsRead(events, reader.offset)
    {
      var event := reader.EventRecord();
      if event.Err? {
        EventsFailEarly(reader.bytes, start, i + 1, count);
        return Err(Malformed);
      }
      events := events + [event.value];
    }
    return Ok(events);
  }

  /** `decode_cursor_batch`. */
  method DecodeCursorBatch(context: CursorContext, bytes: seq<byte>) returns (r: Result<CursorBatch, CursorError>)
    ensures r == Decode(context, bytes)
  {
    if |bytes| > MAX_CURSOR_PLAINTEXT_LEN {
      return Err(TooLarge);
    }
    var reader := new Reader(bytes);
    var magic := reader.Take(4);
    if magic.Err? || magic.value != MAGIC { return Err(Malformed); }
    var sourceWidth := reader.U32();
    if sourceWidth.Err? { return Err(Malformed); }
    var sourceHeight := reader.U32();
    if sourceHeight.Err? { return Err(Malformed); }
    var eventCount := reader.U16();
    if eventCount.Err? { return Err(Malformed); }
    if |bytes| - reader.offset < eventCount.value * CURSOR_EVENT_LEN { return Err(Malformed); }
    var events := ReadEvents(reader, eventCount.value);
    if events.Err? { return Err(Malformed); }
    if reader.offset != |bytes| { return Err(Malformed); }
    var batch := CursorBatch(sourceWidth.value, sourceHeight.value, events.value);
    var valid := ValidateCursorBatch(batch);
    if valid.Err? { return Err(valid.error); }
    if !ContextMatches(batch, context) { return Err(Malformed); }
    return Ok(batch);
  }

  // ---------------------------------------------------------------- bijection

  lemma SplitSlice(b: seq<byte>, o: nat, m: nat, e: nat, x: seq<byte>, y: seq<byte>)
    requires o <= m <= e <= |b| && |x| == m - o && |y| == e - m
    ensures b[o..e] == x + y <==> b[o..m] == x && b[m..e] == y
  {
    assert b[o..e] == b[o..m] + b[m..e];
    if b[o..e] == x + y {
      assert b[o..m] == b[o..e][..m - o] && b[m..e] == b[o..e][m - o..];
    }
  }

  lemma EventHeadLayout(b: seq<byte>, o: nat, event: CursorEvent)
    requires o + CURSOR_EVENT_LEN <= |b|
    ensures b[o..o + CURSOR_EVENT_LEN] == EventHead(event) <==>
            && ReadU64(b, o) == event.timestamp
            && ReadI64(b, o + 8) == event.xMicropixels
            && ReadI64(b, o + 16) == event.yMicropixels
            && b[o + 24] == Flags(event)
            && ReadU64(b, o + 25) == event.bitmapId
  {
    var t, x, y, f, i := WriteU64(event.timestamp), WriteI64(event.xMicropixels), WriteI64(event.yMicropixels),
    [Flags(event)], WriteU64(event.bitmapId);
    SplitSlice(b, o, o + 25, o + 33, t + x + y + f, i);
    SplitSlice(b, o, o + 24, o + 25, t + x + y, f);
    SplitSlice(b, o, o + 16, o + 24, t + x, y);
    SplitSlice(b, o, o + 8, o + 16, t, x);
    assert b[o + 24..o + 25] == [b[o + 24]];
    U64Field(b, o, event.timestamp);
    I64Field(b, o + 8, event.xMicropixels);
    I64Field(b, o + 16, event.yMicropixels);
    U64Field(b, o + 25, event.bitmapId);
  }

  lemma BitmapHeadLayout(b: seq<byte>, o: nat, bitmap: CursorBitmap)
    requires o + CURSOR_BITMAP_HEADER_LEN <= |b| && |bitmap.rgba| <= U32_MAX
    ensures b[o..o + CURSOR_BITMAP_HEADER_LEN] == BitmapHead(bitmap) <==>
            && ReadU32(b, o) == bitmap.width
            && ReadU32(b, o + 4) == bitmap.height
            && ReadI32(b, o + 8) == bitmap.hotspotX
            && ReadI32(b, o + 12) == bitmap.hotspotY
            && ReadU32(b, o + 16) == |bitmap.rgba|
  {
    var w, h, x, y, l := WriteU32(bitmap.width), WriteU32(bitmap.height), WriteI32(bitmap.hotspotX),
    WriteI32(bitmap.hotspotY), WriteU32(|bitmap.rgba|);
    SplitSlice(b, o, o + 16, o + 20, w + h + x + y, l);
    SplitSlice(b, o, o + 12, o + 16, w + h + x, y);
    SplitSlice(b, o, o + 8, o + 12, w + h, x);
    SplitSlice(b, o, o + 4, o + 8, w, h);
    U32Field(b, o, bitmap.width);
    U32Field(b, o + 4, bitmap.height);
    I32Field(b, o + 8, bitmap.hotspotX);
    I32Field(b, o + 12, bitmap.hotspotY);
    U32Field(b, o + 16, |bitmap.rgba|);
  }

  /** The bytes at an offset are a bitmap's encoding exactly when the parser reads that bitmap there. */
  lemma BitmapLayout(b: seq<byte>, o: nat, bitmap: CursorBitmap)
    requires |bitmap.rgba| <= U32_MAX
    ensures var end := o + CURSOR_BITMAP_HEADER_LEN + |bitmap.rgba|;
            (end <= |b| && b[o..end] == BitmapBytes(bitmap)) <==> BitmapAt(b, o) == BitmapRead(bitmap, end)
  {
    var middle := o + CURSOR_BITMAP_HEADER_LEN;
    var end := middle + |bitmap.rgba|;
    if end <= |b| {
      BitmapHeadLayout(b, o, bitmap);
      SplitSlice(b, o, middle, end, BitmapHead(bitmap), bitmap.rgba);
    }
  }

  lemma PlainEventLayout(b: seq<byte>, o: nat, event: CursorEvent)
    requires o + CURSOR_EVENT_LEN <= |b| && event.bitmap.None?
    ensures b[o..o + CURSOR_EVENT_LEN] == EventHead(event) <==>
            b[o + 24] < 2 && EventFields(b, o, None) == event
  {
    EventHeadLayout(b, o, event);
  }

  lemma BitmapEventLayout(b: seq<byte>, o: nat, event: CursorEvent)
    requires o + CURSOR_EVENT_LEN <= |b| && event.bitmap.Some?
    ensures b[o..o + CURSOR_EVENT_LEN] == EventHead(event) <==>
            2 <= b[o + 24] < 4 && EventFields(b, o, event.bitmap) == event
  {
    EventHeadLayout(b, o, event);
  }

  /** The same equivalence for events; it carries both round trips. */
  lemma EventLayout(b: seq<byte>, o: nat, event: CursorEvent)
    requires Writable(event)
    ensures var end := o + EventLen(event);
            (end <= |b| && b[o..end] == EventBytes(event)) <==> EventAt(b, o) == EventRead(event, end)
  {
    hide EventHead, EventFields, BitmapAt, BitmapBytes;
    var middle, end := o + CURSOR_EVENT_LEN, o + EventLen(event);
    if middle <= |b| {
      if event.bitmap.None? {
        PlainEventLayout(b, o, event);
      } else {
        BitmapEventLayout(b, o, event);
        BitmapLayout(b, middle, event.bitmap.value);
        if end <= |b| {
          SplitSlice(b, o, middle, end, EventHead(event), BitmapBytes(event.bitmap.value));
        }
      }
      FieldsKeepBitmap(b, o);
    }
  }

  lemma FieldsKeepBitmap(b: seq<byte>, o: nat)
    requires o + CURSOR_EVENT_LEN <= |b|
    ensures forall bitmap :: EventFields(b, o, bitmap).bitmap == bitmap
  {
  }

  lemma BitmapReadAt(b: seq<byte>, o: nat)
    requires BitmapAt(b, o).BitmapRead?
    ensures |BitmapAt(b, o).bitmap.rgba| <= U32_MAX
    ensures BitmapAt(b, o).end == o + CURSOR_BITMAP_HEADER_LEN + |BitmapAt(b, o).bitmap.rgba|
  {
  }

  lemma ParsedEvent(b: seq<byte>, o: nat)
    requires EventAt(b, o).EventRead?
    ensures EventAt(b, o).end == o + EventLen(EventAt(b, o).event)
    ensures b[o..EventAt(b, o).end] == EventBytes(EventAt(b, o).event)
  {
    hide EventAt, EventBytes, EventLen, Writable;
    EventReadFits(b, o);
    EventLayout(b, o, EventAt(b, o).event);
  }

  lemma EventReadFits(b: seq<byte>, o: nat)
    requires EventAt(b, o).EventRead?
    ensures Writable(EventAt(b, o).event) && EventAt(b, o).end == o + EventLen(EventAt(b, o).event)
  {
    hide EventFields, BitmapAt;
    FieldsKeepBitmap(b, o);
    if b[o + 24] >= 2 {
      BitmapReadAt(b, o + CURSOR_EVENT_LEN);
    }
  }

  lemma ParseOneMore(b: seq<byte>, o: nat, most: seq<CursorEvent>, middle: nat, last: CursorEvent)
    requires EventsAt(b, o, |most|) == EventsRead(most, middle)
    requires EventAt(b, middle) == EventRead(last, middle + EventLen(last))
    ensures EventsAt(b, o, |most| + 1) == EventsRead(most + [last], middle + EventLen(last))
  {
  }

  ghost predicate AllWritable(events: seq<CursorEvent>) {
    forall event :: event in events ==> Writable(event)
  }

  lemma LastEvent(events: seq<CursorEvent>)
    requires events != []
    ensures var most, last := events[..|events| - 1], events[|events| - 1];
            && events == most + [last] && last in events
            && (forall event :: event in most ==> event in events)
            && EventsLen(events) == EventsLen(most) + EventLen(last)
            && EventsBytes(events) == EventsBytes(most) + EventBytes(last)
  {
  }

  /** `x` lies in `b` at offset `o`. */
  predicate At(b: seq<byte>, o: nat, x: seq<byte>) {
    o + |x| <= |b| && b[o..o + |x|] == x
  }

  lemma AtConcat(b: seq<byte>, o: nat, x: seq<byte>, y: seq<byte>)
    ensures At(b, o, x + y) <==> At(b, o, x) && At(b, o + |x|, y)
  {
    if o + |x| + |y| <= |b| {
      SplitSlice(b, o, o + |x|, o + |x| + |y|, x, y);
    }
  }

  lemma NoEvents(b: seq<byte>, o: nat)
    ensures EventsAt(b, o, 0) == EventsRead([], o) && EventsLen([]) == 0
  {
  }

  lemma EventParse(b: seq<byte>, o: nat, event: CursorEvent)
    requires Writable(event) && At(b, o, EventBytes(event))
    ensures EventAt(b, o) == EventRead(event, o + EventLen(event))
  {
    EventLayout(b, o, event);
  }

  /** The parser recovers any events whose encoding lies at an offset. */
  lemma {:induction false} EventsParse(b: seq<byte>, o: nat, events: seq<CursorEvent>)
    requires AllWritable(events) && At(b, o, EventsBytes(events))
    ensures EventsAt(b, o, |events|) == EventsRead(events, o + EventsLen(events))
    decreases |events|
  {
    hide EventAt, EventsAt, EventBytes, EventsBytes, EventLen, EventsLen, At;
    if events == [] {
      NoEvents(b, o);
    } else {
      var most, last := events[..|events| - 1], events[|events| - 1];
      LastEvent(events);
      AtConcat(b, o, EventsBytes(most), EventBytes(last));
      EventsParse(b, o, most);
      var middle := o + EventsLen(most);
      EventParse(b, middle, last);
      ParseOneMore(b, o, most, middle, last);
    }
  }

  /** Whatever the parser reads is the encoding of what it returns. */
  lemma {:induction false} EventsParsed(b: seq<byte>, o: nat, count: nat)
    requires o <= |b| && EventsAt(b, o, count).EventsRead?
    ensures EventsAt(b, o, count).end == o + EventsLen(EventsAt(b, o, count).events)
    ensures b[o..EventsAt(b, o, count).end] == EventsBytes(EventsAt(b, o, count).events)
    decreases count
  {
    if count > 0 {
      EventsParsed(b, o, count - 1);
      var most := EventsAt(b, o, count - 1);
      var last := EventAt(b, most.end);
      ParsedEvent(b, most.end);
      SplitSlice(b, o, most.end, last.end, EventsBytes(most.events), EventBytes(last.event));
      assert (most.events + [last.event])[..count - 1] == most.events;
    }
  }

  lemma BatchHeadLayout(b: seq<byte>, batch: CursorBatch)
    requires |b| >= CURSOR_BATCH_HEADER_LEN && |batch.events| <= U16_MAX
    ensures b[..CURSOR_BATCH_HEADER_LEN] == BatchHead(batch) <==>
            && b[..4] == MAGIC
            && ReadU32(b, 4) == batch.sourceWidth
            && ReadU32(b, 8) == batch.sourceHeight
            && ReadU16(b, 12) == |batch.events|
  {
    var w, h, c := WriteU32(batch.sourceWidth), WriteU32(batch.sourceHeight), WriteU16(|batch.events|);
    assert b[..CURSOR_BATCH_HEADER_LEN] == b[0..14] && b[..4] == b[0..4];
    SplitSlice(b, 0, 12, 14, MAGIC + w + h, c);
    SplitSlice(b, 0, 8, 12, MAGIC + w, h);
    SplitSlice(b, 0, 4, 8, MAGIC, w);
    U32Field(b, 4, batch.sourceWidth);
    U32Field(b, 8, batch.sourceHeight);
    U16Field(b, 12, |batch.events|);
  }

  lemma {:induction false} EventsNeedHeads(events: seq<CursorEvent>)
    ensures EventsLen(events) >= |events| * CURSOR_EVENT_LEN
  {
    if events != [] {
      EventsNeedHeads(events[..|events| - 1]);
    }
  }

  /** The early remaining-bytes check rejects nothing the full parse would accept. */
  lemma EarlyCheckIsComplete(context: CursorContext, b: seq<byte>)
    requires |b| >= CURSOR_BATCH_HEADER_LEN && DecodeBody(context, b).Ok?
    ensures EarlyCheck(b)
  {
    EventsParsed(b, CURSOR_BATCH_HEADER_LEN, ReadU16(b, 12));
    EventsNeedHeads(EventsAt(b, CURSOR_BATCH_HEADER_LEN, ReadU16(b, 12)).events);
  }

  lemma DecodeOfEncode(context: CursorContext, batch: CursorBatch)
    requires Encode(context, batch).Ok?
    ensures Decode(context, Encode(context, batch).value) == Ok(batch)
  {
    hide EventAt, EventsAt, EventsBytes;
    var b, events := Encode(context, batch).value, batch.events;
    forall event | event in events
      ensures Writable(event)
    {
      ValidIsWritable(batch, event);
    }
    var head := BatchHead(batch);
    assert b == head + EventsBytes(events);
    assert b[..CURSOR_BATCH_HEADER_LEN] == head;
    BatchHeadLayout(b, batch);
    assert b[CURSOR_BATCH_HEADER_LEN..CURSOR_BATCH_HEADER_LEN + EventsLen(events)] == EventsBytes(events);
    EventsParse(b, CURSOR_BATCH_HEADER_LEN, events);
    EarlyCheckIsComplete(context, b);
  }

  lemma EncodeOfDecode(context: CursorContext, b: seq<byte>)
    requires Decode(context, b).Ok?
    ensures Encode(context, Decode(context, b).value) == Ok(b)
  {
    hide EventAt, EventsAt, EventsBytes;
    var batch := Decode(context, b).value;
    EventsParsed(b, CURSOR_BATCH_HEADER_LEN, ReadU16(b, 12));
    BatchHeadLayout(b, batch);
    assert b == b[..CURSOR_BATCH_HEADER_LEN] + b[CURSOR_BATCH_HEADER_LEN..|b|];
  }

  /** Bytes and batches correspond one to one: encoding yields `b` exactly when decoding `b` yields the batch. */
  lemma EncodeDecodeInverse(context: CursorContext, batch: CursorBatch, b: seq<byte>)
    ensures Encode(context, batch) == Ok(b) <==> Decode(context, b) == Ok(batch)
  {
    if Encode(context, batch) == Ok(b) {
      DecodeOfEncode(context, batch);
    }
    if Decode(context, b) == Ok(batch) {
      EncodeOfDecode(context, b);
    }
  }

  /** The computed length is exact, and an accepted batch always fits its bounds. */
  lemma EncodedLengthIsExact(context: CursorContext, batch: CursorBatch)
    ensures Encode(context, batch).Ok? <==> Validate(batch, context).Ok?
    ensures Encode(context, batch).Ok? ==>
              && |Encode(context, batch).value| == BatchLen(batch)
              && |Encode(context, batch).value| <= MAX_CURSOR_PLAINTEXT_LEN
  {
  }

  /** What a batch has to be, in plain numbers: at most 65,535 events in order of time, at most 4 MiB, bound to
      its object's context; a visible cursor lies within the source and a hidden one shows nothing; a
      bitmap is at most 512 pixels a side, with the hotspot inside and four bytes a pixel. */
  predicate WellFormed(context: CursorContext, batch: CursorBatch) {
    && 0 < batch.sourceWidth == context.sourceWidth <= 65535
    && 0 < batch.sourceHeight == context.sourceHeight <= 65535
    && 0 < |batch.events| <= 65535 && 14 + EventsLen(batch.events) <= 4194304
    && context.streamId != 0 && context.epochId != 0 && batch.events[0].timestamp == context.startTimestamp
    && (forall i, j :: 0 <= i < j < |batch.events| ==> batch.events[i].timestamp <= batch.events[j].timestamp)
    && forall i :: 0 <= i < |batch.events| ==> Shows(batch, batch.events[i])
  }

  predicate Shows(batch: CursorBatch, event: CursorEvent) {
    && (event.visible ==>
          && 0 <= event.xMicropixels <= 1000000 * batch.sourceWidth
          && 0 <= event.yMicropixels <= 1000000 * batch.sourceHeight)
    && (!event.visible ==> event.xMicropixels == 0 == event.yMicropixels && event.bitmap.None?)
    && (event.bitmap.Some? ==>
          var bitmap := event.bitmap.value;
          && event.bitmapId != 0 && 1 <= bitmap.width <= 512 && 1 <= bitmap.height <= 512
          && 0 <= bitmap.hotspotX < bitmap.width && 0 <= bitmap.hotspotY < bitmap.height
          && |bitmap.rgba| == 4 * bitmap.width * bitmap.height)
  }

  lemma ShowsExactlyWhenValid(batch: CursorBatch, event: CursorEvent)
    ensures EventValid(batch, event) <==> Shows(batch, event)
  {
    if event.bitmap.Some? {
      var bitmap := event.bitmap.value;
      assert bitmap.width * bitmap.height * 4 == 4 * bitmap.width * bitmap.height;
    }
  }

  lemma {:induction false} TimesRise(events: seq<CursorEvent>, i: nat, j: nat)
    requires i < j < |events|
    requires forall k :: 0 < k < |events| ==> events[k - 1].timestamp <= events[k].timestamp
    ensures events[i].timestamp <= events[j].timestamp
  {
    if i + 1 < j {
      TimesRise(events, i, j - 1);
    }
  }

  /** Exactly the well-formed batches are accepted, for sending and for reading. */
  lemma AcceptedExactlyWhen(context: CursorContext, batch: CursorBatch)
    ensures Encode(context, batch).Ok? <==> WellFormed(context, batch)
    ensures (exists b :: Decode(context, b) == Ok(batch)) <==> WellFormed(context, batch)
  {
    hide EventValid, Shows, EventsLen, BatchHead, EventsBytes;
    forall event
      ensures EventValid(batch, event) <==> Shows(batch, event)
    {
      ShowsExactlyWhenValid(batch, event);
    }
    if EventsValid(batch) {
      forall i, j | 0 <= i < j < |batch.events|
        ensures batch.events[i].timestamp <= batch.events[j].timestamp
      {
        TimesRise(batch.events, i, j);
      }
    }
    if Encode(context, batch).Ok? {
      EncodeDecodeInverse(context, batch, Encode(context, batch).value);
    }
    if b :| Decode(context, b) == Ok(batch) {
      EncodeDecodeInverse(context, batch, b);
    }
  }

  /** What is refused as too large: an otherwise valid batch with too many events or bytes, and bytes beyond the
      plaintext limit; everything else that is refused is malformed. */
  lemma TooLargeExactlyWhen(context: CursorContext, batch: CursorBatch, b: seq<byte>)
    ensures Encode(context, batch) == Err(TooLarge)
            <==> && SourceValid(batch) && EventsValid(batch)
                 && (|batch.events| > 65535 || 14 + EventsLen(batch.events) > 4194304)
    ensures Decode(context, b) == Err(TooLarge) <==> |b| > 4194304
  {
    hide EventAt, EventsAt, EventsBytes, EventValid;
    if |b| >= CURSOR_BATCH_HEADER_LEN {
      var read := EventsAt(b, CURSOR_BATCH_HEADER_LEN, ReadU16(b, 12));
      if read.EventsRead? {
        EventsParsed(b, CURSOR_BATCH_HEADER_LEN, ReadU16(b, 12));
      }
    }
  }
}
