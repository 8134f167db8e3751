/** Sealing, opening and live-order checking of native stream objects.

    Cryptography is ideal: a ciphertext is a value that only its own key, nonce and
    associated data open, a signature names its signer and claim, and the hash of a
    ciphertext is the ciphertext. Identifiers and keys are numbers with zero for the
    all-zero value. Whether bytes decode as an epoch payload is a parameter.
  */
module NativeSealing {
  import opened MachineInts
  import opened Wrappers
  import opened BigEndian
  import opened AnnexB

  const STREAM_FORMAT_VERSION := 2
  const AEAD_TAG_LEN := 16
  const MAX_MEDIA_CIPHERTEXT_LEN := 16 * 1024 * 1024 + 16
  const MAX_CURSOR_CIPHERTEXT_LEN := 4 * 1024 * 1024 + 16
  const MAX_EPOCH_CIPHERTEXT_LEN := 1024 * 1024 + 16

  datatype Kind = Epoch | Media | Cursor

  datatype CodecId = H264AnnexB

  datatype NewObject = NewObject(
    sequence: u64, timestamp: u64, duration: u32, kind: Kind, randomAccess: bool, codec: Option<CodecId>)

  datatype Header = Header(
    version: u16, publisherId: nat, streamId: nat, epochId: nat, keyGroup: u64, sequence: u64, timestamp: u64,
    duration: u32, kind: Kind, randomAccess: bool, codec: Option<CodecId>, ciphertextLen: u32, keyId: nat, nonce: Bytes)

  /** What an authenticated cipher can hold: its own output, or bytes that open under no key. */
  datatype Ciphertext = Sealed(key: nat, nonce: Bytes, header: Header, plaintext: Bytes) | Corrupt(bytes: Bytes)

  function CiphertextLen(c: Ciphertext): nat {
    match c
    case Sealed(_, _, _, plaintext) => |plaintext| + AEAD_TAG_LEN
    case Corrupt(bytes) => |bytes|
  }

  function Decrypt(key: nat, nonce: Bytes, header: Header, c: Ciphertext): Option<Bytes> {
    if c.Sealed? && c.key == key && c.nonce == nonce && c.header == header then Some(c.plaintext) else None
  }

  datatype Signature = Signed(signer: nat, header: Header, hash: Ciphertext) | Unsigned

  datatype NativeObject = NativeObject(
    header: Header, ciphertextHash: Ciphertext, signature: Signature, ciphertext: Ciphertext)

  datatype SealError = UnsupportedVersion | InvalidMetadata | PayloadTooLarge | SequenceRegression
                     | InvalidSignature | CiphertextHash | Decryption | WrongContext

  // ---------------------------------------------------------------- shape checks

  function MaxCiphertext(kind: Kind): nat {
    match kind
    case Epoch => MAX_EPOCH_CIPHERTEXT_LEN
    case Media => MAX_MEDIA_CIPHERTEXT_LEN
    case Cursor => MAX_CURSOR_CIPHERTEXT_LEN
  }

  /** `validate_header`. */
  function ValidateHeader(h: Header): Result<(), SealError> {
    if h.version != STREAM_FORMAT_VERSION then Err(UnsupportedVersion)
    else if h.publisherId == 0 || h.streamId == 0 || h.epochId == 0 || h.keyGroup == 0 || h.sequence == 0
            || h.duration == 0 || h.keyId == 0 then Err(InvalidMetadata)
    else if |h.nonce| != 12 || ReadU64(h.nonce, 4) != h.sequence then Err(InvalidMetadata)
    else if h.ciphertextLen < AEAD_TAG_LEN || h.ciphertextLen > MaxCiphertext(h.kind) then Err(PayloadTooLarge)
    else
      match h.kind
      case Epoch => if !h.randomAccess || h.codec != Some(H264AnnexB) then Err(InvalidMetadata) else Ok(())
      case Media => if h.codec != Some(H264AnnexB) then Err(InvalidMetadata) else Ok(())
      case Cursor => if h.randomAccess || h.codec.Some? then Err(InvalidMetadata) else Ok(())
  }

  /** `validate_plaintext`. */
  function ValidatePlaintext(kind: Kind, plaintext: Bytes, epochDecodes: Bytes -> bool): Result<(), SealError> {
    if plaintext == [] || |plaintext| + AEAD_TAG_LEN > MaxCiphertext(kind) then Err(PayloadTooLarge)
    else
      match kind
      case Epoch => if epochDecodes(plaintext) then Ok(()) else Err(InvalidMetadata)
      case Media => if StartsAnnexB(plaintext) then Ok(()) else Err(InvalidMetadata)
      case Cursor => Ok(())
  }

  // ---------------------------------------------------------------- sealing

  datatype Group = Group(
    publisherId: nat, streamId: nat, epochId: nat, keyGroup: u64, keyId: nat, noncePrefix: Bytes,
    lastSequence: u64, mediaStarted: bool, key: nat)

  function NonceFor(group: Group, sequence: u64): Bytes {
    group.noncePrefix + WriteU64(sequence)
  }

  /** A media object must declare its IDR truthfully, and the first one must carry it. */
  ghost predicate IdrRule(group: Group, item: NewObject, plaintext: Bytes) {
    item.kind == Media ==>
      item.randomAccess == CarriesIdr(plaintext) && (group.mediaStarted || CarriesIdr(plaintext))
  }

  function HeaderFor(group: Group, item: NewObject, ciphertextLen: u32): Header {
    Header(STREAM_FORMAT_VERSION, group.publisherId, group.streamId, group.epochId, group.keyGroup, item.sequence,
           item.timestamp, item.duration, item.kind, item.randomAccess, item.codec, ciphertextLen,
           group.keyId, NonceFor(group, item.sequence))
  }

  function SignObject(signer: nat, header: Header, ciphertext: Ciphertext): NativeObject {
    NativeObject(header, ciphertext, Signed(signer, header, ciphertext), ciphertext)
  }

  /** One sealing request: who signs, which object, which plaintext. */
  datatype Request = Request(publisher: nat, item: NewObject, plaintext: Bytes)

  /** What `GroupEncryptor::seal` returns. */
  ghost function SealResult(
    group: Group, request: Request, epochDecodes: Bytes -> bool)
    : Result<NativeObject, SealError>
  {
    var item, plaintext := request.item, request.plaintext;
    if item.sequence <= group.lastSequence then Err(SequenceRegression)
    else if request.publisher != group.publisherId then Err(WrongContext)
    else
      match ValidatePlaintext(item.kind, plaintext, epochDecodes)
      case Err(error) => Err(error)
      case Ok(_) =>
        if !IdrRule(group, item, plaintext) then Err(InvalidMetadata)
        else if |plaintext| + AEAD_TAG_LEN > U32_MAX then Err(PayloadTooLarge)
        else
          var header := HeaderFor(group, item, |plaintext| + AEAD_TAG_LEN);
          match ValidateHeader(header)
          case Err(error) => Err(error)
          case Ok(_) =>
            Ok(SignObject(request.publisher, header, Sealed(group.key, header.nonce, header, plaintext)))
  }

  ghost function GroupAfter(group: Group, request: Request, epochDecodes: Bytes -> bool): Group {
    if SealResult(group, request, epochDecodes).Err? then group
    else group.(lastSequence := request.item.sequence,
                mediaStarted := group.mediaStarted || request.item.kind == Media)
  }

  class GroupEncryptor {
    const publisherId: nat
    const streamId: nat
    const epochId: nat
    const keyGroup: u64
    const keyId: nat
    const noncePrefix: Bytes
    const key: nat
    var lastSequence: u64
    var mediaStarted: bool

    ghost function Contents(): Group
      reads this
    {
      Group(publisherId, streamId, epochId, keyGroup, keyId, noncePrefix, lastSequence, mediaStarted, key)
    }

    constructor (group: Group)
      ensures Contents() == group
    {
      publisherId, streamId, epochId := group.publisherId, group.streamId, group.epochId;
      keyGroup, keyId, noncePrefix, key := group.keyGroup, group.keyId, group.noncePrefix, group.key;
      lastSequence, mediaStarted := group.lastSequence, group.mediaStarted;
    }

    /** `GroupEncryptor::restore`; `generate` calls it with fresh random values. */
    static method Restore(group: Group) returns (r: Result<GroupEncryptor, SealError>)
      ensures r.Ok? <==> Restorable(group)
      ensures r.Ok? ==> fresh(r.value) && r.value.Contents() == group
      ensures r.Err? ==> r.error == InvalidMetadata
    {
      if group.streamId == 0 || group.epochId == 0 || group.keyGroup == 0 || group.keyId == 0 || group.key == 0 {
        return Err(InvalidMetadata);
      }
      var encryptor := new GroupEncryptor(group);
      return Ok(encryptor);
    }

    /** `GroupEncryptor::seal`: every check precedes the first assignment. */
    method Seal(request: Request, epochDecodes: Bytes -> bool) returns (r: Result<NativeObject, SealError>)
      modifies this
      ensures r == SealResult(old(Contents()), request, epochDecodes)
      ensures Contents() == GroupAfter(old(Contents()), request, epochDecodes)
    {
      var item, plaintext := request.item, request.plaintext;
      if item.sequence <= lastSequence {
        return Err(SequenceRegression);
      }
      if request.publisher != publisherId {
        return Err(WrongContext);
      }
      var valid := ValidatePlaintext(item.kind, plaintext, epochDecodes);
      if valid.Err? {
        return Err(valid.error);
      }
      if item.kind == Media {
        var containsIdr := ContainsH264Idr(plaintext);
        if item.randomAccess != containsIdr || (!mediaStarted && !containsIdr) {
          return Err(InvalidMetadata);
        }
      }
      if |plaintext| + AEAD_TAG_LEN > U32_MAX {
        return Err(PayloadTooLarge);
      }
      var nonce := noncePrefix + WriteU64(item.sequence);
      var header := Header(STREAM_FORMAT_VERSION, publisherId, streamId, epochId, keyGroup, item.sequence,
                           item.timestamp, item.duration, item.kind, item.randomAccess, item.codec,
                           |plaintext| + AEAD_TAG_LEN, keyId, nonce);
      var headerValid := ValidateHeader(header);
      if headerValid.Err? {
        return Err(headerValid.error);
      }
      var ciphertext := Sealed(key, nonce, header, plaintext);
      lastSequence := item.sequence;
      if item.kind == Media {
        mediaStarted := true;
      }
      return Ok(SignObject(request.publisher, header, ciphertext));
    }
  }

  predicate Restorable(group: Group) {
    group.streamId != 0 && group.epochId != 0 && group.keyGroup != 0 && group.keyId != 0 && group.key != 0
  }

  // ---------------------------------------------------------------- opening

  /** `NativeObject::verify_public`. */
  function VerifyPublic(item: NativeObject, publisher: nat): Result<(), SealError> {
    match ValidateHeader(item.header)
    case Err(error) => Err(error)
    case Ok(_) =>
      if CiphertextLen(item.ciphertext) != item.header.ciphertextLen then Err(InvalidMetadata)
      else if item.ciphertext != item.ciphertextHash then Err(CiphertextHash)
      else if item.header.publisherId != publisher then Err(WrongContext)
      else if item.signature != Signed(publisher, item.header, item.ciphertextHash) then Err(InvalidSignature)
      else Ok(())
  }

  /** `NativeObject::open`. */
  ghost function Open(item: NativeObject, publisher: nat, key: nat, expectedKeyId: nat, epochDecodes: Bytes -> bool)
    : Result<Bytes, SealError>
  {
    match VerifyPublic(item, publisher)
    case Err(error) => Err(error)
    case Ok(_) =>
      if item.header.keyId != expectedKeyId then Err(WrongContext)
      else
        match Decrypt(key, item.header.nonce, item.header, item.ciphertext)
        case None => Err(Decryption)
        case Some(plaintext) =>
          match ValidatePlaintext(item.header.kind, plaintext, epochDecodes)
          case Err(error) => Err(error)
          case Ok(_) =>
            if item.header.kind == Media && item.header.randomAccess != CarriesIdr(plaintext) then
              Err(InvalidMetadata)
            else Ok(plaintext)
  }

  /** Opening a sealed object under the group's key returns exactly the sealed plaintext. */
  lemma OpenOfSeal(group: Group, request: Request, epochDecodes: Bytes -> bool)
    requires SealResult(group, request, epochDecodes).Ok?
    ensures Open(SealResult(group, request, epochDecodes).value, group.publisherId, group.key, group.keyId,
                 epochDecodes)
            == Ok(request.plaintext)
  {
    hide ValidatePlaintext, ValidateHeader, CarriesIdr;
  }

  // ---------------------------------------------------------------- whole runs of one encryptor

  /** The group after any mix of accepted and refused requests. */
  ghost function GroupAfterRun(group: Group, requests: seq<Request>, epochDecodes: Bytes -> bool): Group {
    if requests == [] then group
    else
      var most := requests[..|requests| - 1];
      GroupAfter(GroupAfterRun(group, most, epochDecodes), requests[|requests| - 1], epochDecodes)
  }

  /** The objects a run produced, in order. */
  ghost function Produced(group: Group, requests: seq<Request>, epochDecodes: Bytes -> bool): seq<NativeObject> {
    if requests == [] then []
    else
      var most := requests[..|requests| - 1];
      var result := SealResult(GroupAfterRun(group, most, epochDecodes), requests[|requests| - 1], epochDecodes);
      Produced(group, most, epochDecodes) + (if result.Ok? then [result.value] else [])
  }

  /** What a run keeps: constants stay, sequences rise strictly between the start and the last one, and
      media starts with an IDR. */
  ghost predicate RunShape(start: Group, now: Group, objects: seq<NativeObject>) {
    && now == start.(lastSequence := now.lastSequence, mediaStarted := now.mediaStarted)
    && start.lastSequence <= now.lastSequence
    && (forall i :: 0 <= i < |objects| ==>
                      && start.lastSequence < objects[i].header.sequence <= now.lastSequence
                      && objects[i].header.publisherId == start.publisherId
                      && objects[i].header.streamId == start.streamId
                      && objects[i].header.nonce == NonceFor(start, objects[i].header.sequence))
    && (forall i, j :: 0 <= i < j < |objects| ==> objects[i].header.sequence < objects[j].header.sequence)
  }

  lemma SealedObjectShape(group: Group, request: Request, epochDecodes: Bytes -> bool)
    requires SealResult(group, request, epochDecodes).Ok?
    ensures var header := SealResult(group, request, epochDecodes).value.header;
            && group.lastSequence < header.sequence == request.item.sequence
            && header.publisherId == group.publisherId && header.streamId == group.streamId
            && header.nonce == NonceFor(group, header.sequence)
            && header.kind == request.item.kind
            && (header.kind == Media && !group.mediaStarted ==> header.randomAccess && CarriesIdr(request.plaintext))
  {
    hide ValidatePlaintext, ValidateHeader, CarriesIdr;
  }

  lemma {:induction false} RunKeepsShape(group: Group, requests: seq<Request>, epochDecodes: Bytes -> bool)
    ensures RunShape(group, GroupAfterRun(group, requests, epochDecodes), Produced(group, requests, epochDecodes))
  {
    hide SealResult;
    if requests != [] {
      var most, last := requests[..|requests| - 1], requests[|requests| - 1];
      RunKeepsShape(group, most, epochDecodes);
      var before := GroupAfterRun(group, most, epochDecodes);
      if SealResult(before, last, epochDecodes).Ok? {
        SealedObjectShape(before, last, epochDecodes);
        assert NonceFor(before, last.item.sequence) == NonceFor(group, last.item.sequence);
      }
    }
  }

  /** No nonce is used twice under one key, whatever is sealed or refused (section 4 of RFC 8439). */
  lemma NoncesNeverRepeat(group: Group, requests: seq<Request>, epochDecodes: Bytes -> bool)
    ensures var objects := Produced(group, requests, epochDecodes);
            forall i, j :: 0 <= i < j < |objects| ==> objects[i].header.nonce != objects[j].header.nonce
  {
    hide Produced, GroupAfterRun;
    var objects := Produced(group, requests, epochDecodes);
    RunKeepsShape(group, requests, epochDecodes);
    forall i, j | 0 <= i < j < |objects|
      ensures objects[i].header.nonce != objects[j].header.nonce
    {
      var x, y := objects[i].header.sequence, objects[j].header.sequence;
      if NonceFor(group, x) == NonceFor(group, y) {
        var k := |group.noncePrefix|;
        assert NonceFor(group, x)[k..] == WriteU64(x) && NonceFor(group, y)[k..] == WriteU64(y);
        WriteU64Injective(x, y);
      }
    }
  }

  /** The requests a run accepts. */
  ghost function Accepted(group: Group, requests: seq<Request>, epochDecodes: Bytes -> bool): seq<Request> {
    if requests == [] then []
    else
      var most, last := requests[..|requests| - 1], requests[|requests| - 1];
      Accepted(group, most, epochDecodes)
      + (if SealResult(GroupAfterRun(group, most, epochDecodes), last, epochDecodes).Ok? then [last] else [])
  }

  /** Refused requests leave no trace: without them the run ends in the same group with the same objects. */
  lemma {:induction false} RefusedRequestsLeaveNoTrace(
    group: Group, requests: seq<Request>, epochDecodes: Bytes -> bool)
    ensures var accepted := Accepted(group, requests, epochDecodes);
            && GroupAfterRun(group, accepted, epochDecodes) == GroupAfterRun(group, requests, epochDecodes)
            && Produced(group, accepted, epochDecodes) == Produced(group, requests, epochDecodes)
            && |Produced(group, requests, epochDecodes)| == |accepted|
  {
    hide SealResult;
    if requests != [] {
      var most, last := requests[..|requests| - 1], requests[|requests| - 1];
      RefusedRequestsLeaveNoTrace(group, most, epochDecodes);
      var accepted := Accepted(group, most, epochDecodes);
      if SealResult(GroupAfterRun(group, most, epochDecodes), last, epochDecodes).Ok? {
        assert (accepted + [last])[..|accepted|] == accepted;
      } else {
        assert Accepted(group, requests, epochDecodes) == accepted;
      }
    }
  }

  ghost predicate HasMedia(objects: seq<NativeObject>) {
    exists i :: 0 <= i < |objects| && objects[i].header.kind == Media
  }

  ghost predicate FirstMediaDeclared(objects: seq<NativeObject>) {
    forall i :: 0 <= i < |objects| && objects[i].header.kind == Media && !HasMedia(objects[..i]) ==>
                  objects[i].header.randomAccess
  }

  lemma OneMoreObject(objects: seq<NativeObject>, last: NativeObject)
    ensures HasMedia(objects + [last]) <==> HasMedia(objects) || last.header.kind == Media
    ensures FirstMediaDeclared(objects)
            && (last.header.kind == Media && !HasMedia(objects) ==> last.header.randomAccess)
            ==> FirstMediaDeclared(objects + [last])
  {
    var all := objects + [last];
    assert all[|objects|] == last && all[..|objects|] == objects;
    assert forall i :: 0 <= i < |objects| ==> all[i] == objects[i] && all[..i] == objects[..i];
  }

  /** The first media object of a fresh group is a declared IDR, and media counts as started only by one. */
  lemma {:induction false} FirstMediaIsIdr(group: Group, requests: seq<Request>, epochDecodes: Bytes -> bool)
    requires !group.mediaStarted
    ensures FirstMediaDeclared(Produced(group, requests, epochDecodes))
    ensures GroupAfterRun(group, requests, epochDecodes).mediaStarted
            <==> HasMedia(Produced(group, requests, epochDecodes))
  {
    hide SealResult, FirstMediaDeclared, HasMedia;
    if requests == [] {
      NoObjects();
    } else {
      var most, last := requests[..|requests| - 1], requests[|requests| - 1];
      FirstMediaIsIdr(group, most, epochDecodes);
      var before, earlier := GroupAfterRun(group, most, epochDecodes), Produced(group, most, epochDecodes);
      if SealResult(before, last, epochDecodes).Ok? {
        SealedObjectShape(before, last, epochDecodes);
        OneMoreObject(earlier, SealResult(before, last, epochDecodes).value);
      } else {
        assert Produced(group, requests, epochDecodes) == earlier;
      }
    }
  }

  lemma NoObjects()
    ensures FirstMediaDeclared([]) && !HasMedia([])
  {
  }

  /** A header says what its request asked for, in the group's name: nothing is dropped or swapped. */
  predicate Describes(h: Header, group: Group, request: Request) {
    && h.version == 2 && h.publisherId == group.publisherId && h.streamId == group.streamId
    && h.epochId == group.epochId && h.keyGroup == group.keyGroup && h.keyId == group.keyId
    && h.sequence == request.item.sequence && h.timestamp == request.item.timestamp
    && h.duration == request.item.duration && h.kind == request.item.kind
    && h.randomAccess == request.item.randomAccess && h.codec == request.item.codec
    && h.ciphertextLen == |request.plaintext| + 16
    && h.nonce == group.noncePrefix + WriteU64(request.item.sequence)
  }

  /** What a sealed object consists of. */
  predicate SealedFor(item: NativeObject, group: Group, request: Request) {
    && Describes(item.header, group, request)
    && item.ciphertext == Sealed(group.key, item.header.nonce, item.header, request.plaintext)
    && item.ciphertextHash == item.ciphertext
    && item.signature == Signed(group.publisherId, item.header, item.ciphertext)
  }

  lemma SealSeals(group: Group, request: Request, epochDecodes: Bytes -> bool)
    requires SealResult(group, request, epochDecodes).Ok?
    ensures SealedFor(SealResult(group, request, epochDecodes).value, group, request)
  {
    hide ValidatePlaintext, ValidateHeader, CarriesIdr;
  }

  /** The i-th object a run produces is the sealed i-th request it accepted: the header describes that request
      in the group's name, and the object opens to its plaintext. */
  lemma {:induction false} EveryProducedObjectOpens(
    group: Group, requests: seq<Request>, epochDecodes: Bytes -> bool, objects: seq<NativeObject>,
    accepted: seq<Request>)
    requires objects == Produced(group, requests, epochDecodes) && accepted == Accepted(group, requests, epochDecodes)
    ensures |objects| == |accepted|
    ensures forall i :: 0 <= i < |objects| ==>
                          && SealedFor(objects[i], group, accepted[i])
                          && Open(objects[i], group.publisherId, group.key, group.keyId, epochDecodes)
                              == Ok(accepted[i].plaintext)
  {
    hide SealResult, Open, Describes;
    if requests != [] {
      var most, last := requests[..|requests| - 1], requests[|requests| - 1];
      EveryProducedObjectOpens(group, most, epochDecodes, Produced(group, most, epochDecodes),
                               Accepted(group, most, epochDecodes));
      RunKeepsShape(group, most, epochDecodes);
      var before := GroupAfterRun(group, most, epochDecodes);
      if SealResult(before, last, epochDecodes).Ok? {
        OpenOfSeal(before, last, epochDecodes);
        SealSeals(before, last, epochDecodes);
        SameConstants(SealResult(before, last, epochDecodes).value, before, group, last);
      }
    }
  }

  lemma SameConstants(item: NativeObject, now: Group, start: Group, request: Request)
    requires SealedFor(item, now, request)
    requires now == start.(lastSequence := now.lastSequence, mediaStarted := now.mediaStarted)
    ensures SealedFor(item, start, request)
  {
  }

  // ---------------------------------------------------------------- authenticity

  /** A signature in the publisher's name is one it made for an object it sealed: nobody else has its key. */
  predicate Unforged(publisher: nat, objects: seq<NativeObject>, item: NativeObject) {
    item.signature.Signed? && item.signature.signer == publisher ==>
      exists k :: 0 <= k < |objects| && objects[k].signature == item.signature
  }

  /** Whatever object arrives, it opens in the publisher's name exactly when it is one of the objects the
      publisher sealed in this group, unchanged, and the key and its identifier are the group's. */
  lemma OnlyProducedObjectsOpen(
    group: Group, requests: seq<Request>, epochDecodes: Bytes -> bool, item: NativeObject, key: nat, keyId: nat)
    requires Unforged(group.publisherId, Produced(group, requests, epochDecodes), item)
    ensures Open(item, group.publisherId, key, keyId, epochDecodes).Ok?
            <==> item in Produced(group, requests, epochDecodes) && key == group.key && keyId == group.keyId
  {
    hide Produced, ValidatePlaintext, ValidateHeader, CarriesIdr, Describes;
    var objects, accepted := Produced(group, requests, epochDecodes), Accepted(group, requests, epochDecodes);
    EveryProducedObjectOpens(group, requests, epochDecodes, objects, accepted);
    if Open(item, group.publisherId, key, keyId, epochDecodes).Ok? {
      var k :| 0 <= k < |objects| && objects[k].signature == item.signature;
      assert SealedFor(objects[k], group, accepted[k]) && objects[k] == item;
      IdentifiedBy(item.header, group, accepted[k]);
    } else if item in objects {
      var k :| 0 <= k < |objects| && objects[k] == item;
      assert SealedFor(objects[k], group, accepted[k]);
    }
  }

  lemma IdentifiedBy(h: Header, group: Group, request: Request)
    requires Describes(h, group, request)
    ensures h.keyId == group.keyId
  {
  }

  /** The limits of a plaintext of each kind, and its form. */
  predicate Carries(kind: Kind, plaintext: Bytes, epochDecodes: Bytes -> bool) {
    && plaintext != []
    && match kind
       case Epoch => |plaintext| <= 1024 * 1024 && epochDecodes(plaintext)
       case Media => |plaintext| <= 16 * 1024 * 1024 && StartsAnnexB(plaintext)
       case Cursor => |plaintext| <= 4 * 1024 * 1024
  }

  /** An epoch object is a random-access point, a cursor object is none, and video names its codec. */
  predicate FitsKind(kind: Kind, randomAccess: bool, codec: Option<CodecId>) {
    && (kind == Epoch ==> randomAccess) && (kind == Cursor ==> !randomAccess)
    && codec == (if kind == Cursor then None else Some(H264AnnexB))
  }

  /** A group with usable identifiers and a four-byte nonce prefix seals exactly its own publisher's
      requests that move the sequence on, last a while, name the codec of their kind, and fit its
      form and limits; media must declare its IDR truthfully and begin with one. */
  lemma SealAcceptsExactlyWhen(group: Group, request: Request, epochDecodes: Bytes -> bool)
    requires Restorable(group) && group.publisherId != 0 && |group.noncePrefix| == 4
    ensures var item := request.item;
            SealResult(group, request, epochDecodes).Ok?
            <==> && item.sequence > group.lastSequence && request.publisher == group.publisherId && item.duration != 0
                 && FitsKind(item.kind, item.randomAccess, item.codec)
                 && Carries(item.kind, request.plaintext, epochDecodes)
                 && (item.kind == Media ==>
                       && item.randomAccess == CarriesIdr(request.plaintext)
                       && (group.mediaStarted || item.randomAccess))
  {
    hide CarriesIdr, ReadU64, StartsAnnexB;
    NonceCarriesSequence(group, request.item.sequence);
  }

  /** The public shape of a header. */
  predicate WellFormed(h: Header) {
    && h.version == 2 && h.publisherId != 0 && h.streamId != 0 && h.epochId != 0 && h.keyGroup != 0 && h.sequence != 0
    && h.duration != 0 && h.keyId != 0 && |h.nonce| == 12 && ReadU64(h.nonce, 4) == h.sequence
    && FitsKind(h.kind, h.randomAccess, h.codec)
  }

  /** Any object opens to a plaintext exactly when the publisher signed its header together with this
      ciphertext, the ciphertext is that plaintext sealed under this key for this header, and header and
      plaintext have the form of their kind, a media object's IDR flag included. */
  lemma OpensExactlyWhen(
    item: NativeObject, publisher: nat, key: nat, keyId: nat, epochDecodes: Bytes -> bool, plaintext: Bytes)
    ensures var h := item.header;
            Open(item, publisher, key, keyId, epochDecodes) == Ok(plaintext)
            <==> && item.signature == Signed(publisher, h, item.ciphertext) && item.ciphertextHash == item.ciphertext
                 && item.ciphertext == Sealed(key, h.nonce, h, plaintext)
                 && WellFormed(h) && h.publisherId == publisher && h.keyId == keyId
                 && h.ciphertextLen == |plaintext| + 16
                 && Carries(h.kind, plaintext, epochDecodes)
                 && (h.kind == Media ==> h.randomAccess == CarriesIdr(plaintext))
  {
    hide CarriesIdr, ReadU64, StartsAnnexB;
  }

  lemma NonceCarriesSequence(group: Group, sequence: u64)
    requires |group.noncePrefix| == 4
    ensures |NonceFor(group, sequence)| == 12 && ReadU64(NonceFor(group, sequence), 4) == sequence
  {
    var nonce := NonceFor(group, sequence);
    assert nonce[4..4 + 8] == WriteU64(sequence);
    U64Field(nonce, 4, sequence);
  }

  // ---------------------------------------------------------------- the live guard

  datatype Guard = Guard(publisherId: nat, streamId: nat, lastSequence: u64)

  function GuardVerdict(guard: Guard, item: NativeObject): Result<(), SealError> {
    if item.header.publisherId != guard.publisherId || item.header.streamId != guard.streamId then Err(WrongContext)
    else if item.header.sequence <= guard.lastSequence then Err(SequenceRegression)
    else Ok(())
  }

  function GuardAfter(guard: Guard, item: NativeObject): Guard {
    if GuardVerdict(guard, item).Ok? then guard.(lastSequence := item.header.sequence) else guard
  }

  class LiveSequenceGuard {
    const publisherId: nat
    const streamId: nat
    var lastSequence: u64

    constructor (publisherId: nat, streamId: nat, anchorSequence: u64)
      ensures Contents() == Guard(publisherId, streamId, anchorSequence)
    {
      this.publisherId, this.streamId, lastSequence := publisherId, streamId, anchorSequence;
    }

    function Contents(): Guard
      reads this
    {
      Guard(publisherId, streamId, lastSequence)
    }

    /** `LiveSequenceGuard::accept`. */
    method Accept(item: NativeObject) returns (r: Result<(), SealError>)
      modifies this
      ensures r == GuardVerdict(old(Contents()), item)
      ensures Contents() == GuardAfter(old(Contents()), item)
    {
      if item.header.publisherId != publisherId || item.header.streamId != streamId {
        return Err(WrongContext);
      }
      if item.header.sequence <= lastSequence {
        return Err(SequenceRegression);
      }
      lastSequence := item.header.sequence;
      return Ok(());
    }
  }

  function GuardAfterAll(guard: Guard, objects: seq<NativeObject>): Guard {
    if objects == [] then guard
    else GuardAfter(GuardAfterAll(guard, objects[..|objects| - 1]), objects[|objects| - 1])
  }

  /** No sequence a guard has moved past is ever accepted again. */
  lemma {:induction false} GuardNeverGoesBack(guard: Guard, objects: seq<NativeObject>)
    ensures guard.lastSequence <= GuardAfterAll(guard, objects).lastSequence
    ensures GuardAfterAll(guard, objects) == guard.(lastSequence := GuardAfterAll(guard, objects).lastSequence)
    ensures forall i :: 0 <= i < |objects| ==> GuardVerdict(GuardAfterAll(guard, objects), objects[i]).Err?
  {
    if objects != [] {
      GuardNeverGoesBack(guard, objects[..|objects| - 1]);
      assert forall i :: 0 <= i < |objects| - 1 ==> objects[..|objects| - 1][i] == objects[i];
    }
  }

  /** A guard that starts where the encryptor started accepts everything it seals, in order, once. */
  lemma GuardAcceptsSealedOrder(group: Group, requests: seq<Request>, epochDecodes: Bytes -> bool)
    ensures var objects := Produced(group, requests, epochDecodes);
            var guard := Guard(group.publisherId, group.streamId, group.lastSequence);
            && (forall i :: 0 <= i < |objects| ==> GuardVerdict(GuardAfterAll(guard, objects[..i]), objects[i]).Ok?)
            && (forall i :: 0 <= i < |objects| ==> GuardVerdict(GuardAfterAll(guard, objects), objects[i]).Err?)
  {
    hide Produced, GroupAfterRun;
    var objects := Produced(group, requests, epochDecodes);
    var guard := Guard(group.publisherId, group.streamId, group.lastSequence);
    RunKeepsShape(group, requests, epochDecodes);
    GuardNeverGoesBack(guard, objects);
    for i := 0 to |objects|
      invariant forall k :: 0 <= k < i ==> GuardVerdict(GuardAfterAll(guard, objects[..k]), objects[k]).Ok?
      invariant GuardAfterAll(guard, objects[..i])
             == guard.(lastSequence := if i == 0 then group.lastSequence else objects[i - 1].header.sequence)
    {
      assert objects[..i + 1][..i] == objects[..i];
      assert i == 0 || objects[i - 1].header.sequence < objects[i].header.sequence;
    }
  }

  predicate OfStream(guard: Guard, item: NativeObject) {
    item.header.publisherId == guard.publisherId && item.header.streamId == guard.streamId
  }

  /** Whatever objects a guard was shown, it accepts the next one exactly when that is of its publisher and
      stream and above the start and every such object shown before, accepted or not. */
  lemma {:induction false} GuardAcceptsExactlyTheNewest(guard: Guard, objects: seq<NativeObject>, item: NativeObject)
    ensures GuardVerdict(GuardAfterAll(guard, objects), item).Ok?
            <==> && OfStream(guard, item) && item.header.sequence > guard.lastSequence
                 && forall i :: 0 <= i < |objects| && OfStream(guard, objects[i]) ==>
                      item.header.sequence > objects[i].header.sequence
    ensures GuardVerdict(GuardAfterAll(guard, objects), item) == Err(WrongContext) <==> !OfStream(guard, item)
  {
    GuardNeverGoesBack(guard, objects);
    if objects != [] {
      var most, last := objects[..|objects| - 1], objects[|objects| - 1];
      GuardAcceptsExactlyTheNewest(guard, most, item);
      GuardAcceptsExactlyTheNewest(guard, most, last);
      GuardNeverGoesBack(guard, most);
      assert forall i :: 0 <= i < |most| ==> most[i] == objects[i];
    }
  }
}
