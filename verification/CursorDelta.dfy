/** The stateful encoder that sends a cursor bitmap only when it changed or grew stale.

    Positions are given integers; the float scaling is not part of this model. The
    receiver is the natural one: it keeps the last bitmap carried for each identifier.
  */
module CursorDelta {
  import opened MachineInts
  import opened Wrappers
  import opened CursorCodec

  const REFRESH_TICKS: u64 := 90_000 * 60

  /** One capture sample with its coordinates already scaled. */
  datatype Sample = Sample(xMicropixels: i64, yMicropixels: i64, visible: bool, bitmap: Option<CursorBitmap>)

  datatype DeltaError = DimensionsOverflow | DimensionsMismatch

  /** `cursor_bitmap`: the pixel count is checked in 64-bit arithmetic. */
  function CheckBitmap(bitmap: CursorBitmap): Result<CursorBitmap, DeltaError> {
    if bitmap.width * bitmap.height > U64_MAX || bitmap.width * bitmap.height * 4 > U64_MAX then Err(DimensionsOverflow)
    else if |bitmap.rgba| != bitmap.width * bitmap.height * 4 then Err(DimensionsMismatch)
    else Ok(bitmap)
  }

  datatype State = State(currentId: u64, last: Option<CursorBitmap>, lastSent: Option<u64>)

  const FRESH := State(0, None, None)

  /** `wrapping_add(1).max(1)`: zero stays reserved for "no bitmap". */
  function NextId(id: u64): (next: u64)
    ensures next != 0
  {
    if id == U64_MAX then 1 else id + 1
  }

  function RefreshDue(state: State, timestamp: u64): bool {
    state.lastSent.None? || SatSubU64(timestamp, state.lastSent.value) >= REFRESH_TICKS
  }

  /** The state left behind, also when the sample is refused. */
  function NextState(state: State, timestamp: u64, sample: Sample): State {
    if sample.bitmap.None? then state
    else if state.last == sample.bitmap then
      if RefreshDue(state, timestamp) then state.(lastSent := Some(timestamp)) else state
    else State(NextId(state.currentId), sample.bitmap, Some(timestamp))
  }

  /** Whether this event carries the pixels. */
  predicate SendsBitmap(state: State, timestamp: u64, sample: Sample) {
    sample.bitmap.Some? && (state.last == sample.bitmap ==> RefreshDue(state, timestamp))
  }

  function EventFor(state: State, timestamp: u64, sample: Sample): Result<CursorEvent, DeltaError> {
    var id := NextState(state, timestamp, sample).currentId;
    var plain := CursorEvent(timestamp, sample.xMicropixels, sample.yMicropixels, sample.visible, id, None);
    if !SendsBitmap(state, timestamp, sample) then Ok(plain)
    else
      match CheckBitmap(sample.bitmap.value)
      case Err(error) => Err(error)
      case Ok(bitmap) => Ok(plain.(bitmap := Some(bitmap)))
  }

  class CursorBitmapState {
    var currentId: u64
    var last: Option<CursorBitmap>
    var lastSentTimestamp: Option<u64>

    constructor ()
      ensures Contents() == FRESH
    {
      currentId := 0;
      last := None;
      lastSentTimestamp := None;
    }

    function Contents(): State
      reads this
    {
      State(currentId, last, lastSentTimestamp)
    }

    /** `cursor_to_event`. The state changes before the bitmap is checked. */
    method CursorToEvent(sample: Sample, timestamp: u64) returns (r: Result<CursorEvent, DeltaError>)
      modifies this
      ensures r == EventFor(old(Contents()), timestamp, sample)
      ensures Contents() == NextState(old(Contents()), timestamp, sample)
    {
      var bitmap: Option<CursorBitmap> := None;
      if sample.bitmap.Some? {
        if last == sample.bitmap {
          var refreshDue := lastSentTimestamp.None? || SatSubU64(timestamp, lastSentTimestamp.value) >= REFRESH_TICKS;
          if refreshDue {
            lastSentTimestamp := Some(timestamp);
            bitmap := sample.bitmap;
          }
        } else {
          currentId := NextId(currentId);
          last := sample.bitmap;
          lastSentTimestamp := Some(timestamp);
          bitmap := sample.bitmap;
        }
      }
      if bitmap.Some? {
        var checked := CheckBitmap(bitmap.value);
        if checked.Err? {
          return Err(checked.error);
        }
      }
      return Ok(CursorEvent(timestamp, sample.xMicropixels, sample.yMicropixels, sample.visible, currentId, bitmap));
    }
  }

  // ---------------------------------------------------------------- the receiver

  /** A bitmap held by the receiver and the timestamp of the event that carried it. */
  datatype Held = Held(bitmap: CursorBitmap, since: u64)

  type Receiver = map<u64, Held>

  function Receive(receiver: Receiver, event: CursorEvent): Receiver {
    if event.bitmap.Some? then receiver[event.bitmapId := Held(event.bitmap.value, event.timestamp)] else receiver
  }

  datatype Input = Input(timestamp: u64, sample: Sample)

  predicate Ordered(inputs: seq<Input>) {
    forall i, j :: 0 <= i <= j < |inputs| ==> inputs[i].timestamp <= inputs[j].timestamp
  }

  /** The encoder after a run of accepted samples; the publication loop ends at the first refused one. */
  function StateAfter(inputs: seq<Input>): State {
    if inputs == [] then FRESH
    else
      var last := inputs[|inputs| - 1];
      NextState(StateAfter(inputs[..|inputs| - 1]), last.timestamp, last.sample)
  }

  function LastEvent(inputs: seq<Input>): Result<CursorEvent, DeltaError>
    requires inputs != []
  {
    var last := inputs[|inputs| - 1];
    EventFor(StateAfter(inputs[..|inputs| - 1]), last.timestamp, last.sample)
  }

  predicate Accepted(inputs: seq<Input>) {
    inputs == [] || (Accepted(inputs[..|inputs| - 1]) && LastEvent(inputs).Ok?)
  }

  function ReceiverAfter(inputs: seq<Input>): Receiver
    requires Accepted(inputs)
  {
    if inputs == [] then map[]
    else Receive(ReceiverAfter(inputs[..|inputs| - 1]), LastEvent(inputs).value)
  }

  /** The receiver holds the publisher's bitmap under the current identifier. */
  predicate InStep(state: State, receiver: Receiver) {
    if state.last.None? then state.lastSent.None? && receiver == map[]
    else
      && state.currentId != 0
      && state.lastSent.Some?
      && state.currentId in receiver
      && receiver[state.currentId] == Held(state.last.value, state.lastSent.value)
  }

  lemma StepKeepsInStep(state: State, receiver: Receiver, timestamp: u64, sample: Sample)
    requires InStep(state, receiver) && EventFor(state, timestamp, sample).Ok?
    ensures InStep(NextState(state, timestamp, sample), Receive(receiver, EventFor(state, timestamp, sample).value))
  {
  }

  lemma {:induction false} RunKeepsInStep(inputs: seq<Input>)
    requires Accepted(inputs)
    ensures InStep(StateAfter(inputs), ReceiverAfter(inputs))
  {
    if inputs != [] {
      var before, last := inputs[..|inputs| - 1], inputs[|inputs| - 1];
      RunKeepsInStep(before);
      StepKeepsInStep(StateAfter(before), ReceiverAfter(before), last.timestamp, last.sample);
    }
  }

  /** The last send is never later than the last sample and stays less than a minute behind the last bitmap sample. */
  lemma {:induction false} SentRecently(inputs: seq<Input>)
    requires inputs != [] && Ordered(inputs)
    ensures var state, now := StateAfter(inputs), inputs[|inputs| - 1].timestamp;
            && (state.lastSent.Some? ==> state.lastSent.value <= now)
            && (inputs[|inputs| - 1].sample.bitmap.Some? ==>
                  && state.last == inputs[|inputs| - 1].sample.bitmap
                  && state.lastSent.Some?
                  && now - state.lastSent.value < REFRESH_TICKS)
  {
    var before := inputs[..|inputs| - 1];
    if before != [] {
      SentRecently(before);
      assert inputs[|before| - 1].timestamp <= inputs[|inputs| - 1].timestamp;
    }
  }

  /** Over any accepted run with ordered timestamps, at every event whose sample has a bitmap the
      receiver holds exactly that bitmap under the event's identifier, from this event or one less
      than 60 seconds of ticks earlier, no matter how often identifiers wrapped around. */
  lemma ReceiverHoldsCurrentBitmap(inputs: seq<Input>)
    requires inputs != [] && Accepted(inputs) && Ordered(inputs)
    requires inputs[|inputs| - 1].sample.bitmap.Some?
    ensures var input, event, receiver := inputs[|inputs| - 1], LastEvent(inputs).value, ReceiverAfter(inputs);
            && event.bitmapId != 0
            && event.bitmapId in receiver
            && receiver[event.bitmapId].bitmap == input.sample.bitmap.value
            && receiver[event.bitmapId].since <= input.timestamp
            && input.timestamp - receiver[event.bitmapId].since < REFRESH_TICKS
  {
    RunKeepsInStep(inputs);
    SentRecently(inputs);
  }

  /** The bitmap's pixels are exactly its width times its height, four bytes each, in 64-bit arithmetic. */
  predicate Fits(bitmap: CursorBitmap) {
    && |bitmap.rgba| == 4 * bitmap.width * bitmap.height && |bitmap.rgba| <= 0xFFFF_FFFF_FFFF_FFFF
  }

  /** A sample is accepted exactly when the bitmap it must send has its size. The event then carries the
      sample's position, visibility and time, no other pixels than the sample's, and the identifier the
      bitmap has: the one before if the bitmap is the last one seen or missing, otherwise a new one. */
  lemma EventCarriesTheSample(state: State, timestamp: u64, sample: Sample)
    ensures var event, next := EventFor(state, timestamp, sample), NextState(state, timestamp, sample);
            && (event.Ok? <==> (SendsBitmap(state, timestamp, sample) ==> Fits(sample.bitmap.value)))
            && (event.Ok? ==>
                  && event.value.timestamp == timestamp && event.value.visible == sample.visible
                  && event.value.xMicropixels == sample.xMicropixels && event.value.yMicropixels == sample.yMicropixels
                  && event.value.bitmap == (if SendsBitmap(state, timestamp, sample) then sample.bitmap else None)
                  && event.value.bitmapId == next.currentId)
            && (event.Err? ==> (event.error == DimensionsOverflow <==>
                                  sample.bitmap.value.width * sample.bitmap.value.height * 4 > 0xFFFF_FFFF_FFFF_FFFF))
            && (next.currentId != state.currentId <==> sample.bitmap.Some? && sample.bitmap != state.last)
            && (sample.bitmap.Some? && sample.bitmap != state.last ==>
                  next.currentId == if state.currentId == 0xFFFF_FFFF_FFFF_FFFF then 1 else state.currentId + 1)
  {
  }

  /** Pixels travel exactly when the receiver does not hold them fresh enough already. */
  lemma PixelsOnlyWhenNeeded(inputs: seq<Input>, next: Input)
    requires Accepted(inputs) && Ordered(inputs + [next]) && next.sample.bitmap.Some?
    ensures var state, receiver := StateAfter(inputs), ReceiverAfter(inputs);
            SendsBitmap(state, next.timestamp, next.sample) <==>
            !(&& state.currentId in receiver
              && receiver[state.currentId].bitmap == next.sample.bitmap.value
              && next.timestamp < receiver[state.currentId].since + REFRESH_TICKS)
  {
    RunKeepsInStep(inputs);
    if inputs != [] {
      assert forall i :: 0 <= i < |inputs| ==> (inputs + [next])[i] == inputs[i];
      SentRecently(inputs);
      assert (inputs + [next])[|inputs| - 1].timestamp <= (inputs + [next])[|inputs|].timestamp;
    }
  }

  /** Going on after any refused sample would break the receiver: the state already counts its bitmap as
      sent, a receiver that got only accepted bitmaps does not hold it, and for less than a minute of
      ticks no further sample of it brings the pixels or an error. */
  lemma RefusedSampleWouldDesynchronize(
    state: State, receiver: Receiver, timestamp: u64, sample: Sample, later: u64, again: Sample)
    requires EventFor(state, timestamp, sample).Err?
    requires forall id :: id in receiver ==> CheckBitmap(receiver[id].bitmap).Ok?
    requires again.bitmap == sample.bitmap && timestamp <= later < timestamp + REFRESH_TICKS
    ensures var left := NextState(state, timestamp, sample);
            && !InStep(left, receiver)
            && EventFor(left, later, again).Ok? && EventFor(left, later, again).value.bitmap.None?
            && EventFor(left, later, again).value.bitmapId == left.currentId
  {
  }
}
