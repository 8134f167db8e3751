/** The publication loop: approval reads, key-group rotation, envelopes and sealed objects.

    One iteration reads the approved viewers, decides whether to rotate, and performs
    socket writes in a fixed order. `PlanFor` gives that order; any write may fail, which
    ends the loop with a prefix of the plan sent. Fresh key material, the encoded frame and
    the cursor payload are inputs.
  */
module PublicationLoop {
  import opened MachineInts
  import opened Wrappers
  import opened AnnexB
  import opened BigEndian
  import opened NativeSealing
  import opened Writes

  type Viewer = nat

  datatype Message = Envelope(viewer: Viewer, keyGroup: u64, keyId: nat, key: nat) | Published(item: NativeObject)

  /** What stays fixed for one publication session. */
  datatype Session = Session(
    publisher: nat, streamId: nat, epochId: nat, groupFrames: u16, duration: u32,
    encodeEpoch: Bytes -> Option<Bytes>, epochDecodes: Bytes -> bool)

  /** What one iteration takes from outside. */
  datatype Input = Input(
    latest: seq<Viewer>, keyId: nat, noncePrefix: Bytes, key: nat, frame: EncodedFrame, cursorPayload: Option<Bytes>)

  datatype LoopState = LoopState(
    approved: seq<Viewer>, sequence: u64, timestamp: u64, frameIndex: u64, groupId: u64, group: Option<Group>)

  function Start(approved: seq<Viewer>, committed: u64): LoopState {
    LoopState(approved, committed, 0, 0, 0, None)
  }

  // ---------------------------------------------------------------- one iteration

  predicate Revoked(approved: seq<Viewer>, latest: seq<Viewer>) {
    exists i :: 0 <= i < |approved| && approved[i] !in latest
  }

  function NewlyApproved(approved: seq<Viewer>, latest: seq<Viewer>): (r: seq<Viewer>)
    ensures forall v :: v in r <==> v in latest && v !in approved
  {
    if latest == [] then []
    else
      assert latest == [latest[0]] + latest[1..];
      (if latest[0] !in approved then [latest[0]] else []) + NewlyApproved(approved, latest[1..])
  }

  predicate StartsGroup(session: Session, state: LoopState, latest: seq<Viewer>)
    requires session.groupFrames > 0
  {
    state.group.None? || Revoked(state.approved, latest) || state.frameIndex % session.groupFrames == 0
  }

  function FreshGroup(session: Session, state: LoopState, input: Input): Group {
    Group(session.publisher, session.streamId, session.epochId, SatAddU64(state.groupId, 1), input.keyId,
          input.noncePrefix, state.sequence, false, input.key)
  }

  function EnvelopesFor(viewers: seq<Viewer>, group: Group): (r: seq<Message>)
    ensures |r| == |viewers|
    ensures forall i :: 0 <= i < |r| ==> r[i] == Envelope(viewers[i], group.keyGroup, group.keyId, group.key)
  {
    seq(|viewers|, i requires 0 <= i < |viewers| => Envelope(viewers[i], group.keyGroup, group.keyId, group.key))
  }

  /** The work done so far in an iteration; `alive` turns false at the first refusal. */
  datatype Chain = Chain(group: Group, sequence: u64, messages: seq<Message>, alive: bool)

  function WithEnvelopes(chain: Chain, viewers: seq<Viewer>): Chain {
    if !chain.alive then chain
    else chain.(messages := chain.messages + EnvelopesFor(viewers, chain.group))
  }

  /** Seal the next object in sequence and publish it. */
  ghost function WithObject(session: Session, chain: Chain, item: NewObject, plaintext: Bytes): Chain {
    var request := Request(session.publisher, item.(sequence := SatAddU64(chain.sequence, 1)), plaintext);
    var sealed := SealResult(chain.group, request, session.epochDecodes);
    if !chain.alive || sealed.Err? then chain.(alive := false)
    else
      Chain(GroupAfter(chain.group, request, session.epochDecodes), request.item.sequence,
            chain.messages + [Published(sealed.value)], true)
  }

  function EpochItem(state: LoopState): NewObject {
    NewObject(0, state.timestamp, 1, Epoch, true, Some(H264AnnexB))
  }

  function MediaItem(session: Session, state: LoopState, frame: EncodedFrame): NewObject {
    NewObject(0, state.timestamp, session.duration, Media, frame.keyframe, Some(H264AnnexB))
  }

  function CursorItem(state: LoopState): NewObject {
    NewObject(0, state.timestamp, 1, Cursor, false, None)
  }

  /** The epoch payload of a rotating iteration, or nothing when the frame cannot start a group. */
  function EpochPayload(session: Session, frame: EncodedFrame): Option<Bytes> {
    if !frame.keyframe || frame.config.None? then None
    else session.encodeEpoch(Join([frame.config.value.sps, frame.config.value.pps]))
  }

  /** Rotation: the epoch object first, then one envelope for each viewer in the read. */
  ghost function Rotated(session: Session, state: LoopState, input: Input): Chain {
    var chain := Chain(FreshGroup(session, state, input), state.sequence, [], true);
    match EpochPayload(session, input.frame)
    case None => chain.(alive := false)
    case Some(payload) => WithEnvelopes(WithObject(session, chain, EpochItem(state), payload), input.latest)
  }

  /** No rotation: only the newly approved viewers get the current key. */
  function Continued(state: LoopState, input: Input): Chain
    requires state.group.Some?
  {
    WithEnvelopes(Chain(state.group.value, state.sequence, [], true), NewlyApproved(state.approved, input.latest))
  }

  ghost function OpeningFor(session: Session, state: LoopState, input: Input): Chain
    requires session.groupFrames > 0
  {
    if StartsGroup(session, state, input.latest) then Rotated(session, state, input) else Continued(state, input)
  }

  /** The access unit and the optional cursor batch. */
  ghost function FrameOn(session: Session, state: LoopState, input: Input, opening: Chain): Chain {
    var media := WithObject(session, opening, MediaItem(session, state, input.frame), input.frame.annexB);
    if input.cursorPayload.None? then media
    else if media.sequence == U64_MAX then media.(alive := false)
    else WithObject(session, media, CursorItem(state), input.cursorPayload.value)
  }

  /** Everything one iteration would write if nothing failed. */
  ghost function PlanFor(session: Session, state: LoopState, input: Input): Chain
    requires session.groupFrames > 0
  {
    FrameOn(session, state, input, OpeningFor(session, state, input))
  }

  ghost function NextState(session: Session, state: LoopState, input: Input): LoopState
    requires session.groupFrames > 0
  {
    var plan := PlanFor(session, state, input);
    LoopState(input.latest, plan.sequence, SatAddU64(state.timestamp, session.duration),
              SatAddU64(state.frameIndex, 1), plan.group.keyGroup, Some(plan.group))
  }

  // ---------------------------------------------------------------- the loop itself

  class Publisher {
    const session: Session
    var approved: seq<Viewer>
    var sequence: u64
    var timestamp: u64
    var frameIndex: u64
    var groupId: u64
    var group: GroupEncryptor?
    var sent: seq<Message>
    /** How many more writes the connection takes. */
    var room: nat

    ghost predicate Valid()
      reads this, group
    {
      session.groupFrames > 0 && (group != null ==> group.keyGroup == groupId)
    }

    ghost function Contents(): LoopState
      reads this, group
    {
      LoopState(approved, sequence, timestamp, frameIndex, groupId,
                if group == null then None else Some(group.Contents()))
    }

    constructor (session: Session, approved: seq<Viewer>, committed: u64, room: nat)
      requires session.groupFrames > 0
      ensures Valid() && Contents() == Start(approved, committed) && sent == [] && this.room == room
    {
      this.session, this.approved, sequence, this.room := session, approved, committed, room;
      timestamp, frameIndex, groupId, group, sent := 0, 0, 0, null, [];
    }

    /** From an earlier point on, exactly these messages were sent, as far as they got through. */
    ghost predicate Wrote(was: seq<Message>, hadRoom: nat, messages: seq<Message>)
      reads this
    {
      sent == was + Through(messages, hadRoom) && room == hadRoom - |Through(messages, hadRoom)|
    }

    /** A socket write and its acknowledgement, which fail once the connection is lost. */
    method WriteMessage(message: Message) returns (ok: bool)
      modifies this`sent, this`room
      ensures Wrote(old(sent), old(room), [message])
      ensures ok <==> 1 <= old(room)
    {
      if room == 0 {
        assert [message][..0] == [];
        return false;
      }
      sent, room := sent + [message], room - 1;
      return true;
    }

    method WriteEnvelopes(viewers: seq<Viewer>, encryptor: GroupEncryptor) returns (ok: bool)
      modifies this`sent, this`room
      ensures Wrote(old(sent), old(room), EnvelopesFor(viewers, encryptor.Contents()))
      ensures ok <==> |viewers| <= old(room)
    {
      ghost var all, was, hadRoom := EnvelopesFor(viewers, encryptor.Contents()), sent, room;
      for i := 0 to |viewers|
        invariant i <= hadRoom && Wrote(was, hadRoom, all[..i])
      {
        assert all[..i + 1] == all[..i] + [all[i]];
        ThroughMore(all[..i], [all[i]], hadRoom);
        ok := WriteMessage(Envelope(viewers[i], encryptor.keyGroup, encryptor.keyId, encryptor.key));
        if !ok {
          ThroughNoMore(all[..i + 1], all, hadRoom);
          return false;
        }
      }
      assert all[..|viewers|] == all;
      return true;
    }

    /** Advance the sequence, seal, publish. */
    method PublishNext(encryptor: GroupEncryptor, item: NewObject, plaintext: Bytes) returns (ok: bool)
      modifies this`sequence, this`sent, this`room, encryptor
      ensures var chain := WithObject(session, Chain(old(encryptor.Contents()), old(sequence), [], true), item,
                                      plaintext);
              && Wrote(old(sent), old(room), chain.messages)
              && (ok <==> chain.alive && |chain.messages| <= old(room))
              && (ok ==> encryptor.Contents() == chain.group && sequence == chain.sequence)
    {
      hide SealResult;
      sequence := SatAddU64(sequence, 1);
      var sealed := encryptor.Seal(Request(session.publisher, item.(sequence := sequence), plaintext),
                                   session.epochDecodes);
      if sealed.Err? {
        return false;
      }
      assert [] + [Published(sealed.value)] == [Published(sealed.value)];
      ok := WriteMessage(Published(sealed.value));
    }

    /** A fresh key group: its epoch object is published before any envelope for it is sent. */
    method RotateGroup(input: Input) returns (ok: bool)
      requires Valid()
      modifies this`group, this`groupId, this`sequence, this`sent, this`room
      ensures Valid() && fresh(group)
      ensures var opening := Rotated(session, old(Contents()), input);
              && Wrote(old(sent), old(room), opening.messages)
              && (ok <==> opening.alive && |opening.messages| <= old(room))
              && (ok ==> sequence == opening.sequence && group.Contents() == opening.group)
    {
      hide WithObject, EpochPayload, Through;
      ghost var state, was, hadRoom := Contents(), sent, room;
      groupId := SatAddU64(groupId, 1);
      group := new GroupEncryptor(
        Group(session.publisher, session.streamId, session.epochId, groupId, input.keyId, input.noncePrefix,
              sequence, false, input.key));
      var payload := EpochPayload(session, input.frame);
      if payload.None? {
        return false;
      }
      ghost var epoch := WithObject(session, Chain(group.Contents(), sequence, [], true), EpochItem(state),
                                    payload.value);
      ok := PublishNext(group, NewObject(0, timestamp, 1, Epoch, true, Some(H264AnnexB)), payload.value);
      ghost var envelopes := EnvelopesFor(input.latest, epoch.group);
      if |epoch.messages| <= hadRoom {
        ThroughMore(epoch.messages, envelopes, hadRoom);
      } else {
        ThroughNoMore(epoch.messages, epoch.messages + envelopes, hadRoom);
      }
      if ok {
        ok := WriteEnvelopes(input.latest, group);
      }
    }

    /** Rotate the group, or hand the current key to newly approved viewers. */
    method OpenGroup(input: Input) returns (ok: bool)
      requires Valid()
      modifies this`group, this`groupId, this`sequence, this`sent, this`room
      ensures Valid() && (group == old(group) || fresh(group))
      ensures var opening := OpeningFor(session, old(Contents()), input);
              && Wrote(old(sent), old(room), opening.messages)
              && (ok <==> opening.alive && |opening.messages| <= old(room))
              && (ok ==> sequence == opening.sequence && group != null && group.Contents() == opening.group)
    {
      hide Rotated;
      if group == null || Revoked(approved, input.latest) || frameIndex % session.groupFrames == 0 {
        ok := RotateGroup(input);
      } else {
        ghost var envelopes := EnvelopesFor(NewlyApproved(approved, input.latest), group.Contents());
        assert [] + envelopes == envelopes;
        ok := WriteEnvelopes(NewlyApproved(approved, input.latest), group);
      }
    }

    /** Seal and publish the access unit and, when present, the cursor batch. */
    method PublishFrame(input: Input, ghost before: LoopState) returns (ok: bool)
      requires group != null && timestamp == before.timestamp
      modifies this`sequence, this`sent, this`room, group
      ensures var plan := FrameOn(session, before, input, Chain(old(group.Contents()), old(sequence), [], true));
              && Wrote(old(sent), old(room), plan.messages)
              && (ok <==> plan.alive && |plan.messages| <= old(room))
              && (ok ==> sequence == plan.sequence && group.Contents() == plan.group)
    {
      hide WithObject, FrameOn, Through;
      ghost var opening, hadRoom := Chain(group.Contents(), sequence, [], true), room;
      ghost var media := WithObject(session, opening, MediaItem(session, before, input.frame), input.frame.annexB);
      ghost var plan := FrameOn(session, before, input, opening);
      FrameParts(session, before, input, opening);
      ok := PublishNext(group, NewObject(0, timestamp, session.duration, Media, input.frame.keyframe, Some(H264AnnexB)),
                        input.frame.annexB);
      if !ok {
        if |media.messages| > hadRoom {
          ThroughNoMore(media.messages, plan.messages, hadRoom);
        }
        return;
      }
      if input.cursorPayload.Some? {
        if sequence == U64_MAX {
          return false;
        }
        ghost var cursor := WithObject(session, media.(messages := []), CursorItem(before), input.cursorPayload.value);
        assert media.(messages := []) == Chain(group.Contents(), sequence, [], true);
        ThroughMore(media.messages, cursor.messages, hadRoom);
        ok := PublishNext(group, NewObject(0, timestamp, 1, Cursor, false, None), input.cursorPayload.value);
      }
    }

    /** One pass of the loop in `run_native_client`. */
    method Iterate(input: Input) returns (ok: bool)
      requires Valid()
      modifies this, group
      ensures Valid() && (group == old(group) || fresh(group))
      ensures var plan := PlanFor(session, old(Contents()), input);
              && Wrote(old(sent), old(room), plan.messages)
              && (ok <==> plan.alive && |plan.messages| <= old(room))
              && (ok ==> Contents() == NextState(session, old(Contents()), input))
    {
      hide OpeningFor, FrameOn;
      ghost var before, hadRoom := Contents(), room;
      ghost var opening := OpeningFor(session, before, input);
      FrameOnTop(session, before, input, opening);
      ok := OpenGroup(input);
      if !ok {
        if |opening.messages| > hadRoom {
          ThroughNoMore(opening.messages, PlanFor(session, before, input).messages, hadRoom);
        }
        return;
      }
      approved := input.latest;
      ThroughMore(opening.messages, FrameOn(session, before, input, opening.(messages := [])).messages, hadRoom);
      ok := PublishFrame(input, before);
      if !ok {
        return;
      }
      frameIndex := SatAddU64(frameIndex, 1);
      timestamp := SatAddU64(timestamp, session.duration);
    }
  }

  /** The access unit alone, or the cursor batch on top of it. */
  lemma FrameParts(session: Session, state: LoopState, input: Input, opening: Chain)
    ensures var plan := FrameOn(session, state, input, opening);
            var media := WithObject(session, opening, MediaItem(session, state, input.frame), input.frame.annexB);
            && media.messages <= plan.messages
            && (if input.cursorPayload.None? || !media.alive then plan == media
                else if media.sequence == U64_MAX then plan == media.(alive := false)
                else
                  var bare := media.(messages := []);
                  var cursor := WithObject(session, bare, CursorItem(state), input.cursorPayload.value);
                  plan == cursor.(messages := media.messages + cursor.messages))
  {
    hide SealResult;
    var media := WithObject(session, opening, MediaItem(session, state, input.frame), input.frame.annexB);
    if input.cursorPayload.Some? && media.alive {
      assert media == media.(messages := media.messages + []);
      WithObjectAppends(session, media.(messages := []), media.messages, CursorItem(state), input.cursorPayload.value);
    }
  }

  /** The frame goes on top of whatever the opening wrote. */
  lemma FrameOnTop(session: Session, state: LoopState, input: Input, opening: Chain)
    ensures var alone := FrameOn(session, state, input, opening.(messages := []));
            var onTop := FrameOn(session, state, input, opening);
            onTop == alone.(messages := opening.messages + alone.messages)
    ensures !opening.alive ==> FrameOn(session, state, input, opening) == opening
  {
    var item := MediaItem(session, state, input.frame);
    FrameAppends(session, state, input, opening);
    FrameAppends(session, state, input, opening.(messages := []));
    if opening.alive {
      var bare := opening.(messages := []);
      WithObjectAppends(session, bare, opening.messages, item, input.frame.annexB);
      assert opening.messages + [] == opening.messages && opening == bare.(messages := opening.messages);
      var media := WithObject(session, bare, item, input.frame.annexB);
      if media.alive && input.cursorPayload.Some? {
        WithObjectAppends(session, media, opening.messages, CursorItem(state), input.cursorPayload.value);
      }
    }
    hide WithObject;
  }

  lemma WithObjectAppends(session: Session, chain: Chain, prefix: seq<Message>, item: NewObject, plaintext: Bytes)
    requires chain.alive
    ensures var alone := WithObject(session, chain, item, plaintext);
            var onTop := WithObject(session, chain.(messages := prefix + chain.messages), item, plaintext);
            && onTop == alone.(messages := prefix + alone.messages)
            && chain.messages <= alone.messages
            && (alone.alive || alone.messages == chain.messages)
  {
    hide SealResult;
  }

  lemma FrameAppends(session: Session, state: LoopState, input: Input, opening: Chain)
    ensures opening.messages <= FrameOn(session, state, input, opening).messages
    ensures !opening.alive ==> FrameOn(session, state, input, opening) == opening
    ensures WithObject(session, opening, MediaItem(session, state, input.frame), input.frame.annexB).messages
            <= FrameOn(session, state, input, opening).messages
  {
    hide SealResult;
  }

  // ---------------------------------------------------------------- what sealing asks of the encoder

  /** For every frame the encoder's inspection can return, in every group: sealing accepts its
      random-access flag exactly when a hint comes with an IDR and the group has started with one. A
      hint without an IDR takes an encoder library that misreports its own frame type. */
  lemma InspectedFrameSealsExactlyWhen(
    session: Session, state: LoopState, group: Group, annexB: Bytes, keyframeHint: bool)
    ensures var frame := FrameOf(annexB, keyframeHint);
            IdrRule(group, MediaItem(session, state, frame), frame.annexB)
            <==> (keyframeHint ==> CarriesIdr(annexB)) && (group.mediaStarted || CarriesIdr(annexB))
  {
    FrameMeans(annexB, keyframeHint);
  }

  /** A frame that breaks the rule ends the iteration with nothing of it published. */
  lemma MisreportedFrameEndsTheLoop(session: Session, state: LoopState, input: Input, keyframeHint: bool)
    requires session.groupFrames > 0
    requires input.frame == FrameOf(input.frame.annexB, keyframeHint) && keyframeHint && !CarriesIdr(input.frame.annexB)
    ensures var opening := OpeningFor(session, state, input);
            !PlanFor(session, state, input).alive && PlanFor(session, state, input).messages == opening.messages
  {
    hide ValidatePlaintext, ValidateHeader, CarriesIdr, OpeningFor, FrameOf;
    var opening := OpeningFor(session, state, input);
    InspectedFrameSealsExactlyWhen(session, state, opening.group, input.frame.annexB, keyframeHint);
  }

  // ---------------------------------------------------------------- whole runs

  /** The state after a run of completed iterations. */
  ghost function StateAfter(session: Session, start: LoopState, inputs: seq<Input>): LoopState
    requires session.groupFrames > 0
  {
    if inputs == [] then start
    else NextState(session, StateAfter(session, start, inputs[..|inputs| - 1]), inputs[|inputs| - 1])
  }

  /** What the iteration with the given number writes, in a run whose earlier iterations completed. */
  ghost function PlanAt(session: Session, start: LoopState, inputs: seq<Input>, i: nat): Chain
    requires session.groupFrames > 0 && i < |inputs|
  {
    PlanFor(session, StateAfter(session, start, inputs[..i]), inputs[i])
  }

  /** Everything written by the first `n` iterations. */
  ghost function SentBy(session: Session, start: LoopState, inputs: seq<Input>, n: nat): seq<Message>
    requires session.groupFrames > 0 && n <= |inputs|
  {
    if n == 0 then [] else SentBy(session, start, inputs, n - 1) + PlanAt(session, start, inputs, n - 1).messages
  }

  /** Key material is generated independently for every iteration that could rotate. */
  predicate FreshKeys(inputs: seq<Input>) {
    forall i, j :: 0 <= i < j < |inputs| ==> inputs[i].key != inputs[j].key
  }

  /** The viewers given an envelope for a key. */
  ghost function Holders(messages: seq<Message>, key: nat): set<Viewer> {
    set m | m in messages && m.Envelope? && m.key == key :: m.viewer
  }

  lemma HoldersConcat(a: seq<Message>, b: seq<Message>, key: nat)
    ensures Holders(a + b, key) == Holders(a, key) + Holders(b, key)
  {
    assert forall m :: m in a + b <==> m in a || m in b;
  }

  /** The key a published object is encrypted under. */
  function KeyOf(item: NativeObject): nat
    requires item.ciphertext.Sealed?
  {
    item.ciphertext.key
  }

  ghost predicate ObjectsUnder(messages: seq<Message>, key: nat) {
    forall m :: m in messages && m.Published? ==> m.item.ciphertext.Sealed? && KeyOf(m.item) == key
  }

  /** What one iteration's plan looks like from outside: one key throughout, envelopes to an exact set. */
  ghost predicate PlanShape(plan: Chain, key: nat, viewers: set<Viewer>) {
    && plan.group.key == key
    && ObjectsUnder(plan.messages, key)
    && (forall k :: k != key ==> Holders(plan.messages, k) == {})
    && Holders(plan.messages, key) <= viewers
    && (plan.alive ==> Holders(plan.messages, key) == viewers)
  }

  function ViewerSet(viewers: seq<Viewer>): set<Viewer> {
    set v | v in viewers
  }

  lemma ObjectShape(messages: seq<Message>, item: NativeObject)
    ensures forall k :: Holders(messages + [Published(item)], k) == Holders(messages, k)
    ensures forall k :: ObjectsUnder(messages, k) && item.ciphertext.Sealed? && KeyOf(item) == k ==>
                          ObjectsUnder(messages + [Published(item)], k)
  {
  }

  lemma EnvelopesShape(viewers: seq<Viewer>, group: Group)
    ensures ObjectsUnder(EnvelopesFor(viewers, group), group.key)
    ensures forall k :: k != group.key ==> Holders(EnvelopesFor(viewers, group), k) == {}
    ensures Holders(EnvelopesFor(viewers, group), group.key) == ViewerSet(viewers)
  {
    var all := EnvelopesFor(viewers, group);
    forall v | v in viewers
      ensures v in Holders(all, group.key)
    {
      var i :| 0 <= i < |viewers| && viewers[i] == v;
      assert all[i] in all;
    }
  }

  lemma WithObjectShape(session: Session, chain: Chain, item: NewObject, plaintext: Bytes, viewers: set<Viewer>)
    requires PlanShape(chain, chain.group.key, viewers)
    ensures PlanShape(WithObject(session, chain, item, plaintext), chain.group.key, viewers)
  {
    hide ValidatePlaintext, ValidateHeader, CarriesIdr, Holders, ObjectsUnder;
    var next := WithObject(session, chain, item, plaintext);
    if next.alive {
      ObjectShape(chain.messages, next.messages[|next.messages| - 1].item);
    }
  }

  lemma WithEnvelopesShape(chain: Chain, viewers: seq<Viewer>)
    requires PlanShape(chain, chain.group.key, {})
    ensures PlanShape(WithEnvelopes(chain, viewers), chain.group.key, ViewerSet(viewers))
  {
    hide Holders, ViewerSet, EnvelopesFor;
    var envelopes := EnvelopesFor(viewers, chain.group);
    EnvelopesShape(viewers, chain.group);
    forall k
      ensures Holders(chain.messages + envelopes, k) == Holders(chain.messages, k) + Holders(envelopes, k)
    {
      HoldersConcat(chain.messages, envelopes, k);
    }
  }

  lemma FrameShape(session: Session, state: LoopState, input: Input, opening: Chain, viewers: set<Viewer>)
    requires PlanShape(opening, opening.group.key, viewers)
    ensures PlanShape(FrameOn(session, state, input, opening), opening.group.key, viewers)
  {
    hide WithObject, PlanShape;
    var media := WithObject(session, opening, MediaItem(session, state, input.frame), input.frame.annexB);
    WithObjectShape(session, opening, MediaItem(session, state, input.frame), input.frame.annexB, viewers);
    SameKey(opening, media, viewers);
    if input.cursorPayload.Some? {
      if media.sequence == U64_MAX {
        DeadShape(media, viewers);
      } else {
        WithObjectShape(session, media, CursorItem(state), input.cursorPayload.value, viewers);
      }
    }
  }

  lemma SameKey(opening: Chain, later: Chain, viewers: set<Viewer>)
    requires PlanShape(later, opening.group.key, viewers)
    ensures later.group.key == opening.group.key
  {
  }

  lemma DeadShape(chain: Chain, viewers: set<Viewer>)
    requires PlanShape(chain, chain.group.key, viewers)
    ensures PlanShape(chain.(alive := false), chain.group.key, viewers)
  {
  }

  /** The key an iteration works under. */
  ghost function IterationKey(session: Session, state: LoopState, input: Input): nat
    requires session.groupFrames > 0
  {
    if StartsGroup(session, state, input.latest) then input.key else state.group.value.key
  }

  /** Who gets an envelope in this iteration. */
  ghost function Recipients(session: Session, state: LoopState, input: Input): set<Viewer>
    requires session.groupFrames > 0
  {
    if StartsGroup(session, state, input.latest) then ViewerSet(input.latest)
    else ViewerSet(NewlyApproved(state.approved, input.latest))
  }

  lemma IterationShape(session: Session, state: LoopState, input: Input)
    requires session.groupFrames > 0
    ensures PlanShape(PlanFor(session, state, input), IterationKey(session, state, input),
                      Recipients(session, state, input))
  {
    hide WithObject, FrameOn, PlanShape;
    var opening := OpeningFor(session, state, input);
    EmptyShape(if StartsGroup(session, state, input.latest) then FreshGroup(session, state, input)
               else state.group.value,
               state.sequence);
    if !StartsGroup(session, state, input.latest) {
      WithEnvelopesShape(Chain(state.group.value, state.sequence, [], true),
                         NewlyApproved(state.approved, input.latest));
    } else {
      var chain := Chain(FreshGroup(session, state, input), state.sequence, [], true);
      match EpochPayload(session, input.frame) {
        case None =>
          AnyDeadShape(chain, ViewerSet(input.latest));
        case Some(payload) =>
          var epoch := WithObject(session, chain, EpochItem(state), payload);
          WithObjectShape(session, chain, EpochItem(state), payload, {});
          SameKey(chain, epoch, {});
          WithEnvelopesShape(epoch, input.latest);
      }
    }
    KeyOfShape(opening, IterationKey(session, state, input), Recipients(session, state, input));
    FrameShape(session, state, input, opening, Recipients(session, state, input));
  }

  lemma KeyOfShape(opening: Chain, key: nat, viewers: set<Viewer>)
    requires PlanShape(opening, key, viewers)
    ensures opening.group.key == key
  {
  }

  lemma EmptyShape(group: Group, sequence: u64)
    ensures PlanShape(Chain(group, sequence, [], true), group.key, {})
  {
  }

  lemma AnyDeadShape(chain: Chain, viewers: set<Viewer>)
    requires chain.messages == []
    ensures PlanShape(chain.(alive := false), chain.group.key, viewers)
  {
  }

  // ---------------------------------------------------------------- who holds which key

  ghost predicate Completed(session: Session, start: LoopState, inputs: seq<Input>, n: nat)
    requires session.groupFrames > 0 && n <= |inputs|
  {
    forall i :: 0 <= i < n ==> PlanAt(session, start, inputs, i).alive
  }

  /** The keys generated for the first `n` iterations. */
  ghost function KeysUsed(inputs: seq<Input>, n: nat): set<nat>
    requires n <= |inputs|
  {
    set i | 0 <= i < n :: inputs[i].key
  }

  /** What holds between iterations: only keys of earlier iterations were handed out, and the current
      one exactly to the last approval read. */
  ghost predicate Distributed(sent: seq<Message>, state: LoopState, used: set<nat>) {
    && (forall k :: k !in used ==> Holders(sent, k) == {})
    && (state.group.Some? ==>
          && state.group.value.key in used
          && Holders(sent, state.group.value.key) == ViewerSet(state.approved))
  }

  /** One iteration, completed or cut short, from any distributed state with a key not used before. */
  lemma IterationHolders(session: Session, state: LoopState, input: Input, sent: seq<Message>, used: set<nat>)
    requires session.groupFrames > 0 && input.key !in used && Distributed(sent, state, used)
    ensures var plan := PlanFor(session, state, input);
            && plan.group.key in used + {input.key}
            && ObjectsUnder(plan.messages, plan.group.key)
            && Holders(sent + plan.messages, plan.group.key) <= ViewerSet(input.latest)
            && (forall k :: k !in used + {input.key} ==> Holders(sent + plan.messages, k) == {})
            && (forall k :: Holders(plan.messages, k) <= ViewerSet(input.latest))
            && (plan.alive ==> Holders(sent + plan.messages, plan.group.key) == ViewerSet(input.latest))
  {
    hide PlanFor, Holders, ObjectsUnder;
    var plan := PlanFor(session, state, input);
    IterationShape(session, state, input);
    forall k
      ensures Holders(sent + plan.messages, k) == Holders(sent, k) + Holders(plan.messages, k)
    {
      HoldersConcat(sent, plan.messages, k);
    }
    if !StartsGroup(session, state, input.latest) {
      NoneRevoked(state.approved, input.latest);
    }
  }

  lemma NoneRevoked(approved: seq<Viewer>, latest: seq<Viewer>)
    requires !Revoked(approved, latest)
    ensures ViewerSet(approved) + ViewerSet(NewlyApproved(approved, latest)) == ViewerSet(latest)
  {
    assert forall v :: v in approved ==> v in latest by {
      assert forall i :: 0 <= i < |approved| ==> approved[i] in latest;
    }
  }

  lemma DistributedNext(session: Session, state: LoopState, input: Input, sent: seq<Message>, used: set<nat>)
    requires session.groupFrames > 0 && input.key !in used && Distributed(sent, state, used)
    requires PlanFor(session, state, input).alive
    ensures Distributed(sent + PlanFor(session, state, input).messages, NextState(session, state, input),
                        used + {input.key})
  {
    hide PlanFor, Holders, ObjectsUnder, ViewerSet;
    IterationHolders(session, state, input, sent, used);
  }

  lemma StateSteps(session: Session, start: LoopState, inputs: seq<Input>, n: nat)
    requires session.groupFrames > 0 && n < |inputs|
    ensures StateAfter(session, start, inputs[..n + 1])
            == NextState(session, StateAfter(session, start, inputs[..n]), inputs[n])
    ensures PlanAt(session, start, inputs, n) == PlanFor(session, StateAfter(session, start, inputs[..n]), inputs[n])
    ensures SentBy(session, start, inputs, n + 1)
            == SentBy(session, start, inputs, n) + PlanAt(session, start, inputs, n).messages
  {
    hide NextState, PlanFor;
    assert inputs[..n + 1][..n] == inputs[..n];
  }

  lemma NothingYet(session: Session, start: LoopState, inputs: seq<Input>)
    requires session.groupFrames > 0 && start.group.None?
    ensures inputs[..0] == [] && StateAfter(session, start, inputs[..0]) == start
    ensures SentBy(session, start, inputs, 0) == []
    ensures Distributed([], start, KeysUsed(inputs, 0))
  {
  }

  lemma KeyUnused(inputs: seq<Input>, n: nat)
    requires n < |inputs| && FreshKeys(inputs)
    ensures inputs[n].key !in KeysUsed(inputs, n)
    ensures KeysUsed(inputs, n + 1) == KeysUsed(inputs, n) + {inputs[n].key}
  {
  }

  lemma {:induction false} RunKeepsDistributed(session: Session, start: LoopState, inputs: seq<Input>, n: nat)
    requires session.groupFrames > 0 && n <= |inputs| && FreshKeys(inputs) && start.group.None?
    requires Completed(session, start, inputs, n)
    ensures Distributed(SentBy(session, start, inputs, n), StateAfter(session, start, inputs[..n]), KeysUsed(inputs, n))
  {
    hide PlanFor, PlanAt, SentBy, StateAfter, Distributed, FreshKeys, NextState, KeysUsed;
    if n == 0 {
      NothingYet(session, start, inputs);
    } else {
      RunKeepsDistributed(session, start, inputs, n - 1);
      KeyUnused(inputs, n - 1);
      StateSteps(session, start, inputs, n - 1);
      DistributedNext(session, StateAfter(session, start, inputs[..n - 1]), inputs[n - 1],
                      SentBy(session, start, inputs, n - 1), KeysUsed(inputs, n - 1));
    }
  }

  /** At the end of each iteration the viewers given the current group's key are exactly the
      viewers in that iteration's approval read. */
  lemma HoldersAreTheApprovalRead(session: Session, approved: seq<Viewer>, committed: u64, inputs: seq<Input>)
    requires session.groupFrames > 0 && inputs != [] && FreshKeys(inputs)
    requires Completed(session, Start(approved, committed), inputs, |inputs|)
    ensures var start := Start(approved, committed);
            var state := StateAfter(session, start, inputs);
            && state.group.Some?
            && Holders(SentBy(session, start, inputs, |inputs|), state.group.value.key)
               == ViewerSet(inputs[|inputs| - 1].latest)
  {
    hide PlanFor, Holders, ViewerSet, KeysUsed;
    RunKeepsDistributed(session, Start(approved, committed), inputs, |inputs|);
    assert inputs[..|inputs|] == inputs;
  }

  /** Every object an iteration publishes, even one that fails half way, is under a key this loop
      has sent to no viewer missing from that iteration's read. */
  lemma ObjectsOnlyForTheRead(
    session: Session, approved: seq<Viewer>, committed: u64, inputs: seq<Input>, n: nat, m: Message)
    requires session.groupFrames > 0 && n < |inputs| && FreshKeys(inputs)
    requires Completed(session, Start(approved, committed), inputs, n)
    requires m in PlanAt(session, Start(approved, committed), inputs, n).messages && m.Published?
    ensures m.item.ciphertext.Sealed?
    ensures Holders(SentBy(session, Start(approved, committed), inputs, n + 1), KeyOf(m.item))
            <= ViewerSet(inputs[n].latest)
  {
    hide PlanFor, PlanAt, SentBy, Holders, ViewerSet, KeysUsed, StateAfter, Distributed, FreshKeys, NextState;
    var start := Start(approved, committed);
    StateSteps(session, start, inputs, n);
    RunKeepsDistributed(session, start, inputs, n);
    KeyUnused(inputs, n);
    IterationHolders(session, StateAfter(session, start, inputs[..n]), inputs[n],
                     SentBy(session, start, inputs, n), KeysUsed(inputs, n));
  }

  /** Completed iterations give keys only to viewers of their own reads. */
  lemma {:induction false} KeyStaysAway(
    session: Session, start: LoopState, inputs: seq<Input>, from: nat, n: nat, v: Viewer, key: nat)
    requires session.groupFrames > 0 && from <= n <= |inputs| && FreshKeys(inputs) && start.group.None?
    requires n > 0 ==> Completed(session, start, inputs, n - 1)
    requires forall j :: from <= j < n ==> v !in inputs[j].latest
    requires v !in Holders(SentBy(session, start, inputs, from), key)
    ensures v !in Holders(SentBy(session, start, inputs, n), key)
    decreases n
  {
    hide PlanFor, PlanAt, SentBy, StateAfter, Distributed, FreshKeys, NextState, KeysUsed, Holders;
    if from < n {
      var sent, used := SentBy(session, start, inputs, n - 1), KeysUsed(inputs, n - 1);
      KeyStaysAway(session, start, inputs, from, n - 1, v, key);
      RunKeepsDistributed(session, start, inputs, n - 1);
      KeyUnused(inputs, n - 1);
      StateSteps(session, start, inputs, n - 1);
      IterationHolders(session, StateAfter(session, start, inputs[..n - 1]), inputs[n - 1], sent, used);
      HoldersConcat(sent, PlanAt(session, start, inputs, n - 1).messages, key);
    }
  }

  /** Revocation over a whole run: once a viewer is missing from every further approval read, no
      object published from then on is under a key this loop ever sends that viewer. */
  lemma RevokedViewerCannotRead(
    session: Session, approved: seq<Viewer>, committed: u64, inputs: seq<Input>, from: nat, n: nat, m: Message,
    v: Viewer)
    requires session.groupFrames > 0 && from <= n < |inputs| && FreshKeys(inputs)
    requires Completed(session, Start(approved, committed), inputs, |inputs| - 1)
    requires forall j :: from <= j < |inputs| ==> v !in inputs[j].latest
    requires m in PlanAt(session, Start(approved, committed), inputs, n).messages && m.Published?
    ensures m.item.ciphertext.Sealed?
    ensures v !in Holders(SentBy(session, Start(approved, committed), inputs, |inputs|), KeyOf(m.item))
  {
    hide PlanAt, SentBy, Holders, FreshKeys;
    ObjectsOnlyForTheRead(session, approved, committed, inputs, n, m);
    KeyStaysAway(session, Start(approved, committed), inputs, n + 1, |inputs|, v, KeyOf(m.item));
  }

  // ---------------------------------------------------------------- sequence numbers

  /** The sequence numbers of the published objects, in order. */
  function Numbers(messages: seq<Message>): seq<int> {
    if messages == [] then []
    else
      var last := messages[|messages| - 1];
      Numbers(messages[..|messages| - 1]) + (if last.Published? then [last.item.header.sequence] else [])
  }

  function Counting(from: int, to: int): seq<int>
    decreases to - from
  {
    if to <= from then [] else Counting(from, to - 1) + [to]
  }

  lemma {:induction false} NumbersConcat(a: seq<Message>, b: seq<Message>)
    ensures Numbers(a + b) == Numbers(a) + Numbers(b)
  {
    if b == [] {
      assert a + b == a;
    } else {
      var most := b[..|b| - 1];
      assert (a + b)[..|a + b| - 1] == a + most;
      NumbersConcat(a, most);
    }
  }

  lemma CountingStep(from: int, to: int)
    requires from < to
    ensures Counting(from, to) == Counting(from, to - 1) + [to]
  {
  }

  lemma {:induction false} CountingConcat(a: int, b: int, c: int)
    requires a <= b <= c
    ensures Counting(a, b) + Counting(b, c) == Counting(a, c)
    decreases c - b
  {
    if b < c {
      CountingConcat(a, b, c - 1);
      CountingStep(a, c);
      CountingStep(b, c);
      hide Counting;
      assert Counting(a, b) + (Counting(b, c - 1) + [c]) == (Counting(a, b) + Counting(b, c - 1)) + [c];
    }
  }

  /** The chain's objects carry the numbers from `from + 1` up to the chain's sequence. */
  ghost predicate Numbered(chain: Chain, from: u64) {
    && from <= chain.sequence
    && Numbers(chain.messages) == Counting(from, chain.sequence)
    && chain.group.lastSequence == chain.sequence
  }

  lemma WithObjectNumbered(session: Session, chain: Chain, item: NewObject, plaintext: Bytes, from: u64)
    requires Numbered(chain, from)
    ensures Numbered(WithObject(session, chain, item, plaintext), from)
  {
    hide ValidatePlaintext, ValidateHeader, CarriesIdr;
    var next := WithObject(session, chain, item, plaintext);
    if next.alive {
      assert next.messages[..|chain.messages|] == chain.messages;
    }
  }

  lemma {:induction false} EnvelopesHaveNoNumbers(messages: seq<Message>)
    requires forall m :: m in messages ==> m.Envelope?
    ensures Numbers(messages) == []
  {
    if messages != [] {
      assert messages[|messages| - 1] in messages;
      EnvelopesHaveNoNumbers(messages[..|messages| - 1]);
    }
  }

  lemma WithEnvelopesNumbered(chain: Chain, viewers: seq<Viewer>, from: u64)
    requires Numbered(chain, from)
    ensures Numbered(WithEnvelopes(chain, viewers), from)
  {
    EnvelopesHaveNoNumbers(EnvelopesFor(viewers, chain.group));
    NumbersConcat(chain.messages, EnvelopesFor(viewers, chain.group));
  }

  lemma IterationNumbered(session: Session, state: LoopState, input: Input)
    requires session.groupFrames > 0
    requires state.group.Some? ==> state.group.value.lastSequence == state.sequence
    ensures Numbered(PlanFor(session, state, input), state.sequence)
  {
    hide WithObject, WithEnvelopes;
    var opening := OpeningFor(session, state, input);
    if StartsGroup(session, state, input.latest) {
      var chain := Chain(FreshGroup(session, state, input), state.sequence, [], true);
      var payload := EpochPayload(session, input.frame);
      if payload.Some? {
        WithObjectNumbered(session, chain, EpochItem(state), payload.value, state.sequence);
        WithEnvelopesNumbered(WithObject(session, chain, EpochItem(state), payload.value), input.latest,
                              state.sequence);
      }
    } else {
      WithEnvelopesNumbered(Chain(state.group.value, state.sequence, [], true),
                            NewlyApproved(state.approved, input.latest), state.sequence);
    }
    var media := WithObject(session, opening, MediaItem(session, state, input.frame), input.frame.annexB);
    WithObjectNumbered(session, opening, MediaItem(session, state, input.frame), input.frame.annexB, state.sequence);
    if input.cursorPayload.Some? {
      WithObjectNumbered(session, media, CursorItem(state), input.cursorPayload.value, state.sequence);
    }
  }

  lemma NothingNumbered(session: Session, start: LoopState, inputs: seq<Input>)
    requires session.groupFrames > 0
    ensures inputs[..0] == [] && StateAfter(session, start, inputs[..0]) == start
    ensures Numbers(SentBy(session, start, inputs, 0)) == Counting(start.sequence, start.sequence) == []
  {
  }

  /** Across rotations and cursor batches the published sequence numbers continue the committed one
      without gap or repeat; at the end of the 64-bit range sealing refuses instead. */
  lemma {:induction false} SequencesAreConsecutive(
    session: Session, approved: seq<Viewer>, committed: u64, inputs: seq<Input>, n: nat)
    requires session.groupFrames > 0 && n <= |inputs|
    ensures var start := Start(approved, committed);
            var state := StateAfter(session, start, inputs[..n]);
            && committed <= state.sequence
            && Numbers(SentBy(session, start, inputs, n)) == Counting(committed, state.sequence)
            && (state.group.Some? ==> state.group.value.lastSequence == state.sequence)
  {
    hide PlanFor, PlanAt, SentBy, StateAfter, Counting, Numbers;
    var start := Start(approved, committed);
    if n == 0 {
      NothingNumbered(session, start, inputs);
    } else {
      SequencesAreConsecutive(session, approved, committed, inputs, n - 1);
      StateSteps(session, start, inputs, n - 1);
      var state := StateAfter(session, start, inputs[..n - 1]);
      var plan := PlanAt(session, start, inputs, n - 1);
      IterationNumbered(session, state, inputs[n - 1]);
      NumbersConcat(SentBy(session, start, inputs, n - 1), plan.messages);
      CountingConcat(committed, state.sequence, plan.sequence);
    }
  }

  // ---------------------------------------------------------------- nonces over a run

  /** Every published object's nonce carries its sequence number. */
  ghost predicate Carried(messages: seq<Message>) {
    forall m :: m in messages && m.Published? ==>
      |m.item.header.nonce| == 12 && ReadU64(m.item.header.nonce, 4) == m.item.header.sequence
  }

  lemma SealedCarries(group: Group, request: Request, epochDecodes: Bytes -> bool)
    requires SealResult(group, request, epochDecodes).Ok?
    ensures var header := SealResult(group, request, epochDecodes).value.header;
            |header.nonce| == 12 && ReadU64(header.nonce, 4) == header.sequence
  {
    hide ValidatePlaintext, CarriesIdr, ReadU64;
  }

  lemma WithObjectCarried(session: Session, chain: Chain, item: NewObject, plaintext: Bytes)
    requires Carried(chain.messages)
    ensures Carried(WithObject(session, chain, item, plaintext).messages)
  {
    hide SealResult, ReadU64;
    var next := WithObject(session, chain, item, plaintext);
    if next.alive {
      SealedCarries(chain.group, Request(session.publisher, item.(sequence := SatAddU64(chain.sequence, 1)), plaintext),
                    session.epochDecodes);
    }
  }

  lemma WithEnvelopesCarried(chain: Chain, viewers: seq<Viewer>)
    requires Carried(chain.messages)
    ensures Carried(WithEnvelopes(chain, viewers).messages)
  {
  }

  lemma PlanCarried(session: Session, state: LoopState, input: Input)
    requires session.groupFrames > 0
    ensures Carried(PlanFor(session, state, input).messages)
  {
    hide WithObject, WithEnvelopes, Carried;
    NoneCarried();
    var opening := OpeningFor(session, state, input);
    if StartsGroup(session, state, input.latest) {
      var chain := Chain(FreshGroup(session, state, input), state.sequence, [], true);
      var payload := EpochPayload(session, input.frame);
      if payload.Some? {
        WithObjectCarried(session, chain, EpochItem(state), payload.value);
        WithEnvelopesCarried(WithObject(session, chain, EpochItem(state), payload.value), input.latest);
      }
    } else {
      WithEnvelopesCarried(Chain(state.group.value, state.sequence, [], true),
                           NewlyApproved(state.approved, input.latest));
    }
    WithObjectCarried(session, opening, MediaItem(session, state, input.frame), input.frame.annexB);
    if input.cursorPayload.Some? {
      var media := WithObject(session, opening, MediaItem(session, state, input.frame), input.frame.annexB);
      WithObjectCarried(session, media, CursorItem(state), input.cursorPayload.value);
    }
  }

  lemma NoneCarried()
    ensures Carried([])
  {
  }

  lemma CarriedConcat(a: seq<Message>, b: seq<Message>)
    requires Carried(a) && Carried(b)
    ensures Carried(a + b)
  {
  }

  lemma {:induction false} SentCarried(session: Session, start: LoopState, inputs: seq<Input>, n: nat)
    requires session.groupFrames > 0 && n <= |inputs|
    ensures Carried(SentBy(session, start, inputs, n))
  {
    hide PlanFor, StateAfter, Carried;
    NoneCarried();
    if n > 0 {
      SentCarried(session, start, inputs, n - 1);
      PlanCarried(session, StateAfter(session, start, inputs[..n - 1]), inputs[n - 1]);
      CarriedConcat(SentBy(session, start, inputs, n - 1), PlanAt(session, start, inputs, n - 1).messages);
    }
  }

  lemma NumberAt(messages: seq<Message>, i: nat)
    requires i < |messages| && messages[i].Published?
    ensures var before := |Numbers(messages[..i])|;
            && before < |Numbers(messages[..i + 1])| <= |Numbers(messages)|
            && Numbers(messages)[before] == messages[i].item.header.sequence
  {
    var upTo := messages[..i + 1];
    assert upTo[..i] == messages[..i] && messages == upTo + messages[i + 1..];
    assert Numbers(upTo) == Numbers(messages[..i]) + [messages[i].item.header.sequence];
    NumbersConcat(upTo, messages[i + 1..]);
  }

  lemma NumbersGrow(messages: seq<Message>, i: nat, j: nat)
    requires i <= j <= |messages|
    ensures |Numbers(messages[..i])| <= |Numbers(messages[..j])|
  {
    assert messages[..j] == messages[..i] + messages[i..j];
    NumbersConcat(messages[..i], messages[i..j]);
  }

  lemma {:induction false} CountingAt(from: int, length: nat, k: nat)
    requires k < length
    ensures |Counting(from, from + length)| == length && Counting(from, from + length)[k] == from + 1 + k
    decreases length
  {
    var most := Counting(from, from + length - 1);
    assert Counting(from, from + length) == most + [from + length];
    if length == 1 {
      assert most == [];
    } else {
      CountingAt(from, length - 1, if k < length - 1 then k else 0);
    }
  }

  lemma CountingLength(from: int, to: int)
    requires from <= to
    ensures |Counting(from, to)| == to - from
  {
    if from < to {
      CountingAt(from, to - from, 0);
    }
  }

  /** Over a whole run of the loop, rotations and cut-off iterations included, no two published objects
      share a nonce, so no key and nonce are used together twice. */
  lemma NoNonceRepeatsInTheLoop(
    session: Session, approved: seq<Viewer>, committed: u64, inputs: seq<Input>, n: nat, i: nat, j: nat)
    requires session.groupFrames > 0 && n <= |inputs|
    requires var sent := SentBy(session, Start(approved, committed), inputs, n);
             i < j < |sent| && sent[i].Published? && sent[j].Published?
    ensures var sent := SentBy(session, Start(approved, committed), inputs, n);
            && sent[i].item.header.sequence < sent[j].item.header.sequence
            && sent[i].item.header.nonce != sent[j].item.header.nonce
  {
    hide SentBy, Numbers, Counting, StateAfter, ReadU64;
    var start := Start(approved, committed);
    var sent := SentBy(session, start, inputs, n);
    SequencesAreConsecutive(session, approved, committed, inputs, n);
    SentCarried(session, start, inputs, n);
    NumberAt(sent, i);
    NumberAt(sent, j);
    NumbersGrow(sent, i + 1, j);
    var last := StateAfter(session, start, inputs[..n]).sequence;
    CountingLength(committed, last);
    CountingAt(committed, last - committed, |Numbers(sent[..i])|);
    CountingAt(committed, last - committed, |Numbers(sent[..j])|);
    assert sent[i] in sent && sent[j] in sent;
  }
}
