/** What the publication loop writes in each iteration, and when it starts a new key group. */
module PublicationGroups {
  import opened MachineInts
  import opened Wrappers
  import opened AnnexB
  import opened NativeSealing
  import opened PublicationLoop

  // ---------------------------------------------------------------- the loop's counters

  function Least(a: int, b: int): int {
    if a < b then a else b
  }

  /** The duration of `i` frames, saturating. */
  function Elapsed(session: Session, i: nat): u64 {
    if i * session.duration > U64_MAX then U64_MAX else i * session.duration
  }

  /** The state before iteration `i`: what the previous read approved and how many frames went out. */
  lemma {:induction false} StateBefore(
    session: Session, approved: seq<Viewer>, committed: u64, inputs: seq<Input>, i: nat)
    requires session.groupFrames > 0 && i <= |inputs|
    ensures var state := StateAfter(session, Start(approved, committed), inputs[..i]);
            && state.approved == (if i == 0 then approved else inputs[i - 1].latest)
            && state.frameIndex == Least(i, U64_MAX)
            && (state.group.Some? <==> i > 0)
            && (if i == 0 then state.groupId == 0 else state.groupId == state.group.value.keyGroup)
  {
    hide PlanFor;
    if i > 0 {
      StateBefore(session, approved, committed, inputs, i - 1);
      StateSteps(session, Start(approved, committed), inputs, i - 1);
    } else {
      assert inputs[..0] == [];
    }
  }

  lemma NextTimestamp(session: Session, state: LoopState, input: Input, i: nat)
    requires session.groupFrames > 0 && state.timestamp == Elapsed(session, i)
    ensures NextState(session, state, input).timestamp == Elapsed(session, i + 1)
  {
    hide PlanFor;
    assert (i + 1) * session.duration == i * session.duration + session.duration;
  }

  /** The time before iteration `i`: the frames so far, saturating. */
  lemma {:induction false} TimestampBefore(
    session: Session, approved: seq<Viewer>, committed: u64, inputs: seq<Input>, i: nat)
    requires session.groupFrames > 0 && i <= |inputs|
    ensures StateAfter(session, Start(approved, committed), inputs[..i]).timestamp
            == Elapsed(session, i)
  {
    hide NextState, Elapsed;
    if i > 0 {
      TimestampBefore(session, approved, committed, inputs, i - 1);
      StateSteps(session, Start(approved, committed), inputs, i - 1);
      NextTimestamp(session, StateAfter(session, Start(approved, committed), inputs[..i - 1]), inputs[i - 1], i - 1);
    } else {
      StartTime(session, approved, committed, inputs);
    }
  }

  lemma StartTime(session: Session, approved: seq<Viewer>, committed: u64, inputs: seq<Input>)
    requires session.groupFrames > 0
    ensures StateAfter(session, Start(approved, committed), inputs[..0]).timestamp
            == Elapsed(session, 0)
  {
  }

  // ---------------------------------------------------------------- when a group starts

  /** The first iteration, every `groupFrames`-th one, and one whose read misses a viewer of the read before. */
  predicate Rotates(session: Session, inputs: seq<Input>, i: nat)
    requires session.groupFrames > 0 && i < |inputs|
  {
    || i == 0
    || Least(i, U64_MAX) % session.groupFrames == 0
    || exists v :: v in inputs[i - 1].latest && v !in inputs[i].latest
  }

  lemma StartsExactlyWhen(
    session: Session, approved: seq<Viewer>, committed: u64, inputs: seq<Input>, i: nat)
    requires session.groupFrames > 0 && i < |inputs|
    ensures StartsGroup(session, StateAfter(session, Start(approved, committed), inputs[..i]), inputs[i].latest)
            <==> Rotates(session, inputs, i)
  {
    hide StateAfter;
    StateBefore(session, approved, committed, inputs, i);
  }

  /** A published object leaves the group's constants alone. */
  lemma PlanGroup(session: Session, state: LoopState, input: Input)
    requires session.groupFrames > 0
    ensures var group, opening := PlanFor(session, state, input).group,
                                  if StartsGroup(session, state, input.latest) then FreshGroup(session, state, input)
                                  else state.group.value;
            group == opening.(lastSequence := group.lastSequence, mediaStarted := group.mediaStarted)
  {
    hide SealResult, EpochPayload, StartsGroup;
  }

  /** Over every run, an iteration works under another group's key than the one before exactly when it is
      a multiple of `groupFrames` or its read lost a viewer; then it takes the next group number and
      the key material generated for it, and otherwise all of the group stays. */
  lemma GroupChangesExactlyWhen(
    session: Session, approved: seq<Viewer>, committed: u64, inputs: seq<Input>, i: nat)
    requires session.groupFrames > 0 && 0 < i < |inputs| && FreshKeys(inputs)
    ensures var start := Start(approved, committed);
            var before, now := PlanAt(session, start, inputs, i - 1).group, PlanAt(session, start, inputs, i).group;
            && (now.key != before.key <==> Rotates(session, inputs, i))
            && now.keyGroup == SatAddU64(before.keyGroup, if Rotates(session, inputs, i) then 1 else 0)
            && (Rotates(session, inputs, i) ==>
                  now.key == inputs[i].key && now.keyId == inputs[i].keyId && now.noncePrefix == inputs[i].noncePrefix)
            && (!Rotates(session, inputs, i) ==> now.keyId == before.keyId && now.noncePrefix == before.noncePrefix)
  {
    hide PlanFor, StateAfter, StartsGroup, Rotates;
    var start := Start(approved, committed);
    StateSteps(session, start, inputs, i - 1);
    StateBefore(session, approved, committed, inputs, i);
    StartsExactlyWhen(session, approved, committed, inputs, i);
    var state := StateAfter(session, start, inputs[..i]);
    PlanGroup(session, state, inputs[i]);
    KeyIsOlder(session, approved, committed, inputs, i);
  }

  /** The key before iteration `i` was generated for an earlier one. */
  lemma {:induction false} KeyIsOlder(
    session: Session, approved: seq<Viewer>, committed: u64, inputs: seq<Input>, i: nat)
    requires session.groupFrames > 0 && 0 < i <= |inputs|
    ensures var state := StateAfter(session, Start(approved, committed), inputs[..i]);
            state.group.Some? && exists j :: 0 <= j < i && inputs[j].key == state.group.value.key
  {
    hide PlanFor, StateAfter, StartsGroup;
    var start := Start(approved, committed);
    var state := StateAfter(session, start, inputs[..i - 1]);
    StateSteps(session, start, inputs, i - 1);
    StateBefore(session, approved, committed, inputs, i - 1);
    PlanGroup(session, state, inputs[i - 1]);
    StartsExactlyWhen(session, approved, committed, inputs, i - 1);
    if i > 1 {
      KeyIsOlder(session, approved, committed, inputs, i - 1);
    }
  }

  // ---------------------------------------------------------------- what an iteration writes

  /** The message is the next object in the group, sealed for this request. */
  predicate Seals(m: Message, session: Session, group: Group, item: NewObject, plaintext: Bytes) {
    m.Published? && SealedFor(m.item, group, Request(session.publisher, item, plaintext))
  }

  /** One envelope after another, all with the group's key, to exactly these viewers. */
  predicate EnvelopesTo(messages: seq<Message>, group: Group, viewers: set<Viewer>) {
    && (forall m :: m in messages ==>
                      && m.Envelope? && m.keyGroup == group.keyGroup && m.keyId == group.keyId && m.key == group.key
                      && m.viewer in viewers)
    && (forall v :: v in viewers ==> exists m :: m in messages && m.Envelope? && m.viewer == v)
  }

  /** The first object of a group: the parameter sets of a keyframe, encoded. */
  predicate BeginsGroup(
    m: Message, session: Session, group: Group, frame: EncodedFrame, sequence: int, timestamp: u64)
  {
    && frame.keyframe && frame.config.Some? && 0 <= sequence <= U64_MAX
    && var payload := session.encodeEpoch(Join([frame.config.value.sps, frame.config.value.pps]));
       && payload.Some?
       && Seals(m, session, group, NewObject(sequence, timestamp, 1, Epoch, true, Some(H264AnnexB)), payload.value)
  }

  /** The access unit, and behind it the cursor batch if there is one. */
  predicate ShowsFrame(
    messages: seq<Message>, session: Session, group: Group, input: Input, sequence: int, timestamp: u64)
  {
    && |messages| == (if input.cursorPayload.Some? then 2 else 1)
    && 0 < sequence && sequence + |messages| <= U64_MAX + 1
    && Seals(messages[0], session, group,
             NewObject(sequence, timestamp, session.duration, Media, input.frame.keyframe, Some(H264AnnexB)),
             input.frame.annexB)
    && (input.cursorPayload.Some? ==>
          Seals(messages[1], session, group, NewObject(sequence + 1, timestamp, 1, Cursor, false, None),
                input.cursorPayload.value))
  }

  /** Everything a completed iteration writes: at a rotation the epoch object and then an envelope for each
      viewer, otherwise envelopes for the newly approved ones; then the frame. */
  predicate Writes(
    messages: seq<Message>, session: Session, group: Group, input: Input, rotates: bool, viewers: set<Viewer>,
    sequence: u64, timestamp: u64)
  {
    var first := if rotates then 1 else 0;
    var frames := if input.cursorPayload.Some? then 2 else 1;
    && first + frames <= |messages|
    && (rotates ==> BeginsGroup(messages[0], session, group, input.frame, sequence + 1, timestamp))
    && EnvelopesTo(messages[first..|messages| - frames], group, viewers)
    && ShowsFrame(messages[|messages| - frames..], session, group, input, sequence + first + 1, timestamp)
  }

  /** The group is as before but for its progress. */
  predicate SameGroup(a: Group, b: Group) {
    a == b.(lastSequence := a.lastSequence, mediaStarted := a.mediaStarted)
  }

  lemma ObjectSeals(session: Session, chain: Chain, item: NewObject, plaintext: Bytes)
    requires chain.group.lastSequence == chain.sequence && WithObject(session, chain, item, plaintext).alive
    ensures var next := WithObject(session, chain, item, plaintext);
            && chain.alive && chain.sequence < U64_MAX && next.sequence == chain.sequence + 1
            && next.group.lastSequence == next.sequence && SameGroup(next.group, chain.group)
            && |next.messages| == |chain.messages| + 1 && next.messages[..|chain.messages|] == chain.messages
            && Seals(next.messages[|chain.messages|], session, chain.group, item.(sequence := chain.sequence + 1),
                     plaintext)
  {
    hide ValidatePlaintext, ValidateHeader, CarriesIdr, Describes;
    SealSeals(chain.group, Request(session.publisher, item.(sequence := SatAddU64(chain.sequence, 1)), plaintext),
              session.epochDecodes);
  }

  lemma SealsInSameGroup(m: Message, session: Session, a: Group, b: Group, item: NewObject, plaintext: Bytes)
    requires Seals(m, session, a, item, plaintext) && SameGroup(b, a)
    ensures Seals(m, session, b, item, plaintext)
  {
  }

  lemma EnvelopesReach(viewers: seq<Viewer>, group: Group)
    ensures EnvelopesTo(EnvelopesFor(viewers, group), group, ViewerSet(viewers))
  {
    var all := EnvelopesFor(viewers, group);
    forall v | v in ViewerSet(viewers)
      ensures exists m :: m in all && m.Envelope? && m.viewer == v
    {
      var k :| 0 <= k < |viewers| && viewers[k] == v;
      assert all[k] in all;
    }
  }

  lemma EnvelopesInSameGroup(messages: seq<Message>, a: Group, b: Group, viewers: set<Viewer>)
    requires EnvelopesTo(messages, a, viewers) && SameGroup(b, a)
    ensures EnvelopesTo(messages, b, viewers)
  {
  }

  /** The opening of an iteration that got through: at a rotation the epoch object and an envelope for each
      viewer, otherwise an envelope for each newly approved one. */
  predicate Opens(
    opening: Chain, session: Session, input: Input, rotates: bool, viewers: set<Viewer>, sequence: u64, timestamp: u64)
  {
    var first := if rotates then 1 else 0;
    && |opening.messages| >= first && opening.sequence == sequence + first <= U64_MAX
    && opening.group.lastSequence == opening.sequence
    && (rotates ==> BeginsGroup(opening.messages[0], session, opening.group, input.frame, sequence + 1, timestamp))
    && EnvelopesTo(opening.messages[first..], opening.group, viewers)
  }

  lemma RotatedOpens(session: Session, state: LoopState, input: Input)
    requires session.groupFrames > 0 && Rotated(session, state, input).alive
    ensures Opens(Rotated(session, state, input), session, input, true, ViewerSet(input.latest), state.sequence,
                  state.timestamp)
  {
    var chain := Chain(FreshGroup(session, state, input), state.sequence, [], true);
    var payload := EpochPayload(session, input.frame).value;
    ObjectSeals(session, chain, EpochItem(state), payload);
    hide WithObject, SealedFor, EnvelopesTo, EnvelopesFor;
    var epoch := WithObject(session, chain, EpochItem(state), payload);
    EnvelopesReach(input.latest, epoch.group);
    assert epoch.messages == [epoch.messages[0]];
    var all := Rotated(session, state, input);
    assert all.messages[1..] == EnvelopesFor(input.latest, epoch.group);
    SealsInSameGroup(epoch.messages[0], session, chain.group, epoch.group,
                     EpochItem(state).(sequence := state.sequence + 1), payload);
  }

  lemma ContinuedOpens(state: LoopState, session: Session, input: Input)
    requires state.group.Some? && state.group.value.lastSequence == state.sequence
    ensures Opens(Continued(state, input), session, input, false,
                  ViewerSet(NewlyApproved(state.approved, input.latest)), state.sequence, state.timestamp)
  {
    hide EnvelopesTo, EnvelopesFor, NewlyApproved;
    var viewers := NewlyApproved(state.approved, input.latest);
    EnvelopesReach(viewers, state.group.value);
    assert [] + EnvelopesFor(viewers, state.group.value) == EnvelopesFor(viewers, state.group.value);
  }

  /** The frame goes out behind the opening, in the same group. */
  lemma FrameShows(session: Session, state: LoopState, input: Input, opening: Chain)
    requires opening.group.lastSequence == opening.sequence && FrameOn(session, state, input, opening).alive
    ensures var all := FrameOn(session, state, input, opening);
            && SameGroup(all.group, opening.group) && opening.messages <= all.messages
            && ShowsFrame(all.messages[|opening.messages|..], session, opening.group, input, opening.sequence + 1,
                          state.timestamp)
  {
    hide WithObject, SealedFor;
    var item := MediaItem(session, state, input.frame);
    var media := WithObject(session, opening, item, input.frame.annexB);
    if input.cursorPayload.Some? {
      var cursor := WithObject(session, media, CursorItem(state), input.cursorPayload.value);
      CursorFollows(session, opening, media, item, input.frame.annexB, CursorItem(state), input.cursorPayload.value);
    } else {
      ObjectSeals(session, opening, item, input.frame.annexB);
    }
  }

  lemma CursorFollows(
    session: Session, opening: Chain, media: Chain, item: NewObject, annexB: Bytes, cursor: NewObject, payload: Bytes)
    requires opening.group.lastSequence == opening.sequence
    requires media == WithObject(session, opening, item, annexB) && WithObject(session, media, cursor, payload).alive
    ensures var all := WithObject(session, media, cursor, payload);
            && SameGroup(all.group, opening.group) && |all.messages| == |opening.messages| + 2
            && opening.sequence + 2 <= U64_MAX
            && all.messages[..|opening.messages|] == opening.messages
            && Seals(all.messages[|opening.messages|], session, opening.group, item.(sequence := opening.sequence + 1),
                     annexB)
            && Seals(all.messages[|opening.messages| + 1], session, opening.group,
                     cursor.(sequence := opening.sequence + 2), payload)
  {
    DeadStaysDead(session, media, cursor, payload);
    ObjectSeals(session, opening, item, annexB);
    ObjectSeals(session, media, cursor, payload);
    hide WithObject, SealedFor;
    var all := WithObject(session, media, cursor, payload);
    assert all.messages[..|media.messages|][..|opening.messages|] == all.messages[..|opening.messages|];
    SealsInSameGroup(all.messages[|media.messages|], session, media.group, opening.group,
                     cursor.(sequence := media.sequence + 1), payload);
  }

  lemma DeadStaysDead(session: Session, chain: Chain, item: NewObject, plaintext: Bytes)
    requires WithObject(session, chain, item, plaintext).alive
    ensures chain.alive
  {
    hide SealResult;
  }

  lemma PlanWrites(
    session: Session, state: LoopState, input: Input, opening: Chain, rotates: bool, viewers: set<Viewer>)
    requires Opens(opening, session, input, rotates, viewers, state.sequence, state.timestamp)
    requires FrameOn(session, state, input, opening).alive
    ensures var plan := FrameOn(session, state, input, opening);
            Writes(plan.messages, session, plan.group, input, rotates, viewers, state.sequence, state.timestamp)
  {
    hide FrameOn, Seals, EnvelopesTo, BeginsGroup;
    FrameShows(session, state, input, opening);
    var plan := FrameOn(session, state, input, opening);
    var frames := if input.cursorPayload.Some? then 2 else 1;
    var first := if rotates then 1 else 0;
    assert |plan.messages| == |opening.messages| + frames;
    hide ShowsFrame;
    assert plan.messages[first..|plan.messages| - frames] == opening.messages[first..];
    EnvelopesInSameGroup(opening.messages[first..], opening.group, plan.group, viewers);
    ShowsInSameGroup(plan.messages[|opening.messages|..], session, opening.group, plan.group, input,
                     opening.sequence + 1, state.timestamp);
    if rotates {
      BeginsInSameGroup(plan.messages[0], session, opening.group, plan.group, input.frame, state.sequence + 1,
                        state.timestamp);
    }
  }

  lemma IterationOpens(session: Session, state: LoopState, input: Input)
    requires session.groupFrames > 0 && PlanFor(session, state, input).alive
    requires state.group.Some? ==> state.group.value.lastSequence == state.sequence
    ensures Opens(OpeningFor(session, state, input), session, input, StartsGroup(session, state, input.latest),
                  Recipients(session, state, input), state.sequence, state.timestamp)
  {
    hide Opens, FrameOn, StartsGroup, Rotated, Continued;
    FrameAppends(session, state, input, OpeningFor(session, state, input));
    if StartsGroup(session, state, input.latest) {
      RotatedOpens(session, state, input);
    } else {
      NotStarting(session, state, input.latest);
      ContinuedOpens(state, session, input);
    }
  }

  lemma NotStarting(session: Session, state: LoopState, latest: seq<Viewer>)
    requires session.groupFrames > 0 && !StartsGroup(session, state, latest)
    ensures state.group.Some?
  {
  }

  lemma ShowsInSameGroup(
    messages: seq<Message>, session: Session, a: Group, b: Group, input: Input, sequence: int, timestamp: u64)
    requires ShowsFrame(messages, session, a, input, sequence, timestamp) && SameGroup(b, a)
    ensures ShowsFrame(messages, session, b, input, sequence, timestamp)
  {
  }

  lemma BeginsInSameGroup(
    m: Message, session: Session, a: Group, b: Group, frame: EncodedFrame, sequence: int, timestamp: u64)
    requires BeginsGroup(m, session, a, frame, sequence, timestamp) && SameGroup(b, a)
    ensures BeginsGroup(m, session, b, frame, sequence, timestamp)
  {
  }

  /** Who gets an envelope in iteration `i`: at a rotation every viewer of its read, otherwise those the read
      before did not have. */
  function Reached(session: Session, inputs: seq<Input>, i: nat): set<Viewer>
    requires session.groupFrames > 0 && i < |inputs|
  {
    set v | v in inputs[i].latest && (Rotates(session, inputs, i) || i == 0 || v !in inputs[i - 1].latest)
  }

  lemma ReachedAre(session: Session, approved: seq<Viewer>, committed: u64, inputs: seq<Input>, i: nat)
    requires session.groupFrames > 0 && i < |inputs|
    ensures Recipients(session, StateAfter(session, Start(approved, committed), inputs[..i]), inputs[i])
            == Reached(session, inputs, i)
  {
    hide StateAfter, StartsGroup;
    StateBefore(session, approved, committed, inputs, i);
    StartsExactlyWhen(session, approved, committed, inputs, i);
  }

  /** The state before an iteration of a run. */
  ghost function Before(session: Session, approved: seq<Viewer>, committed: u64, inputs: seq<Input>, i: nat): LoopState
    requires session.groupFrames > 0 && i < |inputs|
  {
    StateAfter(session, Start(approved, committed), inputs[..i])
  }

  /** Over every run, a completed iteration writes exactly this: if it starts a group, one epoch object and
      then an envelope for every viewer of its read, otherwise an envelope for each viewer the read before
      did not have; then the access unit and the optional cursor batch, all sealed in its group under the
      next sequences, at `i` times the frame duration. */
  lemma IterationWrites(
    session: Session, approved: seq<Viewer>, committed: u64, inputs: seq<Input>, i: nat)
    requires session.groupFrames > 0 && i < |inputs|
    requires PlanFor(session, Before(session, approved, committed, inputs, i), inputs[i]).alive
    ensures var plan := PlanFor(session, Before(session, approved, committed, inputs, i), inputs[i]);
            Writes(plan.messages, session, plan.group, inputs[i], Rotates(session, inputs, i),
                   Reached(session, inputs, i), Before(session, approved, committed, inputs, i).sequence,
                   Elapsed(session, i))
  {
    hide StateAfter, OpeningFor, FrameOn, Rotates, Writes, Elapsed, Reached, Recipients, StartsGroup, Opens, Numbers;
    var state := Before(session, approved, committed, inputs, i);
    TimestampBefore(session, approved, committed, inputs, i);
    SequencesAreConsecutive(session, approved, committed, inputs, i);
    StartsExactlyWhen(session, approved, committed, inputs, i);
    ReachedAre(session, approved, committed, inputs, i);
    IterationOpens(session, state, inputs[i]);
    PlanWrites(session, state, inputs[i], OpeningFor(session, state, inputs[i]), Rotates(session, inputs, i),
               Reached(session, inputs, i));
  }

  // ---------------------------------------------------------------- when an iteration completes

  /** Identifiers and key material are usable, as `generate` makes them. */
  predicate Usable(session: Session, inputs: seq<Input>) {
    && session.publisher != 0 && session.streamId != 0 && session.epochId != 0
    && forall i :: 0 <= i < |inputs| ==> inputs[i].keyId != 0 && inputs[i].key != 0 && |inputs[i].noncePrefix| == 4
  }

  /** The group belongs to the session and can seal its next object. */
  predicate Ready(session: Session, group: Group, sequence: u64) {
    && group.publisherId == session.publisher && group.streamId == session.streamId
    && group.epochId == session.epochId && Restorable(group) && |group.noncePrefix| == 4
    && group.publisherId != 0 && group.lastSequence == sequence
  }

  /** The next object goes out exactly when there is a sequence left and it has the form of its kind. */
  lemma ObjectGoesOutExactlyWhen(session: Session, chain: Chain, item: NewObject, plaintext: Bytes)
    requires chain.alive && Ready(session, chain.group, chain.sequence)
    ensures var next := WithObject(session, chain, item, plaintext);
            && (next.alive
                <==> && chain.sequence < U64_MAX && item.duration != 0
                     && FitsKind(item.kind, item.randomAccess, item.codec)
                     && NativeSealing.Carries(item.kind, plaintext, session.epochDecodes)
                     && (item.kind == Media ==>
                           && item.randomAccess == CarriesIdr(plaintext)
                           && (chain.group.mediaStarted || item.randomAccess)))
            && (next.alive ==>
                  && Ready(session, next.group, next.sequence) && next.sequence == chain.sequence + 1
                  && next.group.mediaStarted == (chain.group.mediaStarted || item.kind == Media))
  {
    var request := Request(session.publisher, item.(sequence := SatAddU64(chain.sequence, 1)), plaintext);
    SealAcceptsExactlyWhen(chain.group, request, session.epochDecodes);
    hide SealResult, CarriesIdr, FitsKind, NativeSealing.Carries;
    if WithObject(session, chain, item, plaintext).alive {
      Advances(chain.group, request, session.epochDecodes);
    }
  }

  lemma Advances(group: Group, request: Request, epochDecodes: Bytes -> bool)
    requires SealResult(group, request, epochDecodes).Ok?
    ensures GroupAfter(group, request, epochDecodes)
            == group.(lastSequence := request.item.sequence,
                      mediaStarted := group.mediaStarted || request.item.kind == Media)
  {
    hide SealResult;
  }

  /** The epoch payload of a keyframe with both parameter sets, if it encodes to something sealing takes. */
  predicate CanBegin(session: Session, frame: EncodedFrame) {
    && frame.keyframe && frame.config.Some?
    && var payload := session.encodeEpoch(Join([frame.config.value.sps, frame.config.value.pps]));
       payload.Some? && NativeSealing.Carries(Epoch, payload.value, session.epochDecodes)
  }

  /** The access unit and cursor batch have their form, and the frame's flag tells the truth. */
  ghost predicate CanShow(session: Session, input: Input) {
    && session.duration != 0 && NativeSealing.Carries(Media, input.frame.annexB, session.epochDecodes)
    && input.frame.keyframe == CarriesIdr(input.frame.annexB)
    && (input.cursorPayload.Some? ==>
          NativeSealing.Carries(Cursor, input.cursorPayload.value, session.epochDecodes))
  }

  lemma FrameGoesOutExactlyWhen(session: Session, state: LoopState, input: Input, opening: Chain)
    requires opening.alive && Ready(session, opening.group, opening.sequence)
    requires opening.group.mediaStarted || input.frame.keyframe
    ensures var plan := FrameOn(session, state, input, opening);
            && (plan.alive
                <==> && CanShow(session, input)
                     && opening.sequence + (if input.cursorPayload.Some? then 2 else 1) <= U64_MAX)
            && (plan.alive ==> plan.group.mediaStarted && Ready(session, plan.group, plan.sequence))
  {
    hide WithObject, CarriesIdr, NativeSealing.Carries, Ready;
    var item := MediaItem(session, state, input.frame);
    ObjectGoesOutExactlyWhen(session, opening, item, input.frame.annexB);
    var media := WithObject(session, opening, item, input.frame.annexB);
    if media.alive && input.cursorPayload.Some? {
      ObjectGoesOutExactlyWhen(session, media, CursorItem(state), input.cursorPayload.value);
    } else if input.cursorPayload.Some? {
      DeadStays(session, media, CursorItem(state), input.cursorPayload.value);
    }
  }

  lemma DeadStays(session: Session, chain: Chain, item: NewObject, plaintext: Bytes)
    ensures !chain.alive ==> !WithObject(session, chain, item, plaintext).alive
  {
    hide SealResult;
  }

  lemma OpeningGoesOutExactlyWhen(session: Session, state: LoopState, input: Input)
    requires session.groupFrames > 0 && Usable(session, [input])
    requires state.group.Some? ==> Ready(session, state.group.value, state.sequence) && state.group.value.mediaStarted
    ensures var opening, starts := OpeningFor(session, state, input), StartsGroup(session, state, input.latest);
            && (opening.alive <==> (starts ==> state.sequence < U64_MAX && CanBegin(session, input.frame)))
            && (opening.alive ==>
                  && opening.sequence == state.sequence + (if starts then 1 else 0)
                  && Ready(session, opening.group, opening.sequence)
                  && (opening.group.mediaStarted || input.frame.keyframe))
  {
    hide WithObject, StartsGroup, EnvelopesFor, NewlyApproved, NativeSealing.Carries;
    if StartsGroup(session, state, input.latest) {
      var chain := Chain(FreshGroup(session, state, input), state.sequence, [], true);
      assert Usable(session, [input]) && [input][0] == input;
      var payload := EpochPayload(session, input.frame);
      if payload.Some? {
        ObjectGoesOutExactlyWhen(session, chain, EpochItem(state), payload.value);
      }
    } else {
      NotStarting(session, state, input.latest);
    }
  }

  /** Between completed iterations the group belongs to the session and has started its media. */
  lemma {:induction false} GroupBefore(
    session: Session, approved: seq<Viewer>, committed: u64, inputs: seq<Input>, i: nat)
    requires session.groupFrames > 0 && i < |inputs| && Usable(session, inputs)
    requires Completed(session, Start(approved, committed), inputs, i)
    ensures var state := Before(session, approved, committed, inputs, i);
            state.group.Some? ==>
              Ready(session, state.group.value, state.sequence) && state.group.value.mediaStarted
  {
    hide StateAfter, PlanFor, Ready, Usable;
    var start := Start(approved, committed);
    if i == 0 {
      StateBefore(session, approved, committed, inputs, 0);
    } else {
      GroupBefore(session, approved, committed, inputs, i - 1);
      StateSteps(session, start, inputs, i - 1);
      var state := Before(session, approved, committed, inputs, i - 1);
      assert PlanAt(session, start, inputs, i - 1).alive;
      OneUsable(session, inputs, i - 1);
      PlanGoesOut(session, state, inputs[i - 1]);
    }
  }

  lemma OneUsable(session: Session, inputs: seq<Input>, i: nat)
    requires Usable(session, inputs) && i < |inputs|
    ensures Usable(session, [inputs[i]])
  {
  }

  lemma PlanGoesOut(session: Session, state: LoopState, input: Input)
    requires session.groupFrames > 0 && Usable(session, [input])
    requires state.group.Some? ==> Ready(session, state.group.value, state.sequence) && state.group.value.mediaStarted
    ensures var plan, starts := PlanFor(session, state, input), StartsGroup(session, state, input.latest);
            && (plan.alive
                <==> && (starts ==> CanBegin(session, input.frame)) && CanShow(session, input)
                     && state.sequence + (if starts then 1 else 0) + (if input.cursorPayload.Some? then 2 else 1)
                        <= U64_MAX)
            && (plan.alive ==> Ready(session, plan.group, plan.sequence) && plan.group.mediaStarted)
  {
    OpeningGoesOutExactlyWhen(session, state, input);
    hide OpeningFor, FrameOn, StartsGroup, Usable, Ready, CanShow, CanBegin;
    var opening := OpeningFor(session, state, input);
    FrameAppends(session, state, input, opening);
    if opening.alive {
      FrameGoesOutExactlyWhen(session, state, input, opening);
    }
  }

  /** With usable key material, and all earlier iterations completed, an iteration completes exactly when the
      frame can begin a group if one starts, access unit and cursor batch have their form, the frame says
      truthfully whether it carries an IDR, and there are sequences left; its group is the session's. */
  lemma IterationCompletesExactlyWhen(
    session: Session, approved: seq<Viewer>, committed: u64, inputs: seq<Input>, i: nat)
    requires session.groupFrames > 0 && i < |inputs| && Usable(session, inputs)
    requires Completed(session, Start(approved, committed), inputs, i)
    ensures var state := Before(session, approved, committed, inputs, i);
            var plan, rotates := PlanFor(session, state, inputs[i]), Rotates(session, inputs, i);
            && (plan.alive
                <==> && (rotates ==> CanBegin(session, inputs[i].frame)) && CanShow(session, inputs[i])
                     && state.sequence + (if rotates then 1 else 0)
                        + (if inputs[i].cursorPayload.Some? then 2 else 1) <= U64_MAX)
            && (plan.alive ==>
                  && plan.group.publisherId == session.publisher && plan.group.streamId == session.streamId
                  && plan.group.epochId == session.epochId)
  {
    var state := Before(session, approved, committed, inputs, i);
    GroupBefore(session, approved, committed, inputs, i);
    StartsExactlyWhen(session, approved, committed, inputs, i);
    OneUsable(session, inputs, i);
    hide StateAfter, PlanFor, StartsGroup, Rotates, CanBegin, CanShow, Usable;
    PlanGoesOut(session, state, inputs[i]);
  }
}
