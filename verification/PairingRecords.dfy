/** Signed pairing records and their checks.

    Cryptography is ideal. A record's `signedBy` is the identity whose key signed exactly this
    content, or none; an identity stands for its public key and its fingerprint, with zero for an
    invalid one; a transcript hash is the pair it was derived from. A request's identifier is
    the digest of the whole request, carried as a field; nothing here assumes digests differ.
  */
module PairingRecords {
  import opened MachineInts
  import opened Wrappers

  const PAIRING_VERSION := 2
  const PROTOCOL_VERSION := 9
  const MAX_PAIRING_MESSAGE_LEN := 32 * 1024
  const CLOCK_SKEW_MS := 5 * 60 * 1000

  type Identity = nat

  datatype PairError = UnsupportedVersion | InvalidMetadata | InvalidSignature | NotYetValid | Expired
                     | TranscriptMismatch
                     | Conflict | QueueFull | RateLimited | UnknownRequest | NoOffer | NoConfirmation | RecordTooLarge

  datatype Check = Passed | Failed(error: PairError)

  datatype Role = PublisherRole | ViewerRole

  datatype Credential = Credential(role: Role, identity: Identity)

  /** `labelValid` says whether the device label passes its length, trimming and character checks, and
      `encodedLen` is the length of the encoded request; the other records have small fixed fields. */
  datatype PairRequest = PairRequest(
    id: nat, version: u16, protocolVersion: u16, publisher: Identity, streamId: nat, viewer: Identity,
    credential: Option<Credential>, labelValid: bool, encodedLen: nat, nonce: nat, issuedAt: i64, expiresAt: i64,
    signedBy: Identity)

  datatype PairOffer = PairOffer(
    version: u16, requestId: nat, publisher: Identity, viewer: Identity, nonce: nat, relayContext: nat,
    issuedAt: i64, expiresAt: i64, signedBy: Identity)

  datatype Transcript = ZeroHash | TranscriptOf(request: PairRequest, offer: PairOffer)

  datatype Confirmation = Confirmation(
    version: u16, requestId: nat, transcript: Transcript, viewer: Identity, confirmedAt: i64, signedBy: Identity)

  datatype Reason = ManualVerified | TrustedViewerCa | OpenPolicy | Rejected

  datatype Decision = Decision(
    version: u16, requestId: nat, viewer: Identity, streamId: nat, transcript: Transcript, approved: bool,
    reason: Reason, decidedAt: i64, signedBy: Identity)

  // ---------------------------------------------------------------- checks

  /** `validate_time`: checked subtraction, saturating skew. */
  function ValidateTime(issuedAt: i64, expiresAt: i64, now: i64, maxLifetime: i64): Check {
    var lifetime := expiresAt - issuedAt;
    if lifetime < I64_MIN || lifetime > I64_MAX then Failed(InvalidMetadata)
    else if lifetime <= 0 || maxLifetime <= 0 || lifetime > maxLifetime then Failed(InvalidMetadata)
    else if issuedAt > SatAddI64(now, CLOCK_SKEW_MS) then Failed(NotYetValid)
    else if expiresAt <= now then Failed(Expired)
    else Passed
  }

  /** `validate_request_metadata`. */
  function RequestMetadata(q: PairRequest): Check {
    if q.version != PAIRING_VERSION || q.protocolVersion != PROTOCOL_VERSION then Failed(UnsupportedVersion)
    else if q.publisher == 0 || q.viewer == 0 || q.streamId == 0 then Failed(InvalidMetadata)
    else if && q.credential.Some?
            && (q.credential.value.role != ViewerRole || q.credential.value.identity != q.viewer) then
      Failed(InvalidMetadata)
    else if !q.labelValid || q.nonce == 0 || q.expiresAt <= q.issuedAt then Failed(InvalidMetadata)
    else Passed
  }

  /** `PairRequest::verify`. */
  function VerifyRequest(q: PairRequest, now: i64, maxLifetime: i64): Check {
    if RequestMetadata(q).Failed? then RequestMetadata(q)
    else if ValidateTime(q.issuedAt, q.expiresAt, now, maxLifetime).Failed? then
      ValidateTime(q.issuedAt, q.expiresAt, now, maxLifetime)
    else if q.signedBy != q.viewer then Failed(InvalidSignature)
    else Passed
  }

  /** `validate_offer_metadata`. */
  function OfferMetadata(o: PairOffer): Check {
    if o.version != PAIRING_VERSION then Failed(UnsupportedVersion)
    else if o.publisher == 0 || o.requestId == 0 || o.viewer == 0 || o.nonce == 0 || o.relayContext == 0
            || o.expiresAt <= o.issuedAt then Failed(InvalidMetadata)
    else Passed
  }

  predicate SameCeremony(q: PairRequest, o: PairOffer) {
    o.requestId == q.id && o.publisher == q.publisher && o.viewer == q.viewer
  }

  /** The signed content of an offer fits its request, whatever the time. */
  predicate OfferFits(o: PairOffer, q: PairRequest) {
    RequestMetadata(q) == Passed && OfferMetadata(o) == Passed && SameCeremony(q, o) && o.signedBy == q.publisher
  }

  /** `PairOffer::verify`. */
  function VerifyOffer(o: PairOffer, q: PairRequest, now: i64, maxLifetime: i64): Check {
    if OfferMetadata(o).Failed? then OfferMetadata(o)
    else if VerifyRequest(q, now, maxLifetime).Failed? then VerifyRequest(q, now, maxLifetime)
    else if ValidateTime(o.issuedAt, o.expiresAt, now, maxLifetime).Failed? then
      ValidateTime(o.issuedAt, o.expiresAt, now, maxLifetime)
    else if !SameCeremony(q, o) then Failed(TranscriptMismatch)
    else if o.signedBy != o.publisher then Failed(InvalidSignature)
    else Passed
  }

  /** `transcript_hash`. */
  function TranscriptHash(q: PairRequest, o: PairOffer): Result<Transcript, PairError> {
    if RequestMetadata(q).Failed? then Err(RequestMetadata(q).error)
    else if OfferMetadata(o).Failed? then Err(OfferMetadata(o).error)
    else if !SameCeremony(q, o) then Err(TranscriptMismatch)
    else Ok(TranscriptOf(q, o))
  }

  /** `ViewerConfirmation::verify`. */
  function VerifyConfirmation(c: Confirmation, q: PairRequest, o: PairOffer): Check {
    if c.version != PAIRING_VERSION || c.requestId != q.id then Failed(TranscriptMismatch)
    else
      match TranscriptHash(q, o)
      case Err(error) => Failed(error)
      case Ok(transcript) =>
        if c.transcript != transcript || c.viewer != q.viewer then Failed(TranscriptMismatch)
        else if c.signedBy != q.viewer then Failed(InvalidSignature)
        else Passed
  }

  /** `validate_decision`: each reason goes with one verdict and one kind of transcript. */
  function DecisionMetadata(d: Decision): Check {
    if d.version != PAIRING_VERSION || d.requestId == 0 || d.viewer == 0 || d.streamId == 0 then Failed(InvalidMetadata)
    else if d.approved && d.reason == ManualVerified && d.transcript != ZeroHash then Passed
    else if d.approved && (d.reason == TrustedViewerCa || d.reason == OpenPolicy) && d.transcript == ZeroHash then
      Passed
    else if !d.approved && d.reason == Rejected && d.transcript == ZeroHash then Passed
    else Failed(InvalidMetadata)
  }

  /** `PublisherDecision::verify`. */
  function VerifyDecision(d: Decision, q: PairRequest, publisher: Identity): Check {
    if DecisionMetadata(d).Failed? then DecisionMetadata(d)
    else if publisher != q.publisher || d.requestId != q.id || d.viewer != q.viewer || d.streamId != q.streamId then
      Failed(TranscriptMismatch)
    else if d.signedBy != publisher then Failed(InvalidSignature)
    else Passed
  }

  // ---------------------------------------------------------------- creating records

  /** `PairOffer::new`, with its random nonce as an argument. */
  function NewOffer(
    publisher: Identity, q: PairRequest, relayContext: nat, nonce: nat, issuedAt: i64, expiresAt: i64, maxLifetime: i64)
    : Result<PairOffer, PairError>
  {
    var checked := VerifyRequest(q, issuedAt, maxLifetime);
    if checked.Failed? then Err(checked.error)
    else if publisher != q.publisher || relayContext == 0 then Err(TranscriptMismatch)
    else
      var offer := PairOffer(PAIRING_VERSION, q.id, publisher, q.viewer, nonce, relayContext, issuedAt, expiresAt,
                             publisher);
      if OfferMetadata(offer).Failed? then Err(OfferMetadata(offer).error) else Ok(offer)
  }

  /** `ViewerConfirmation::approve`. */
  function Approve(viewer: Identity, q: PairRequest, o: PairOffer, confirmedAt: i64): Result<Confirmation, PairError> {
    if viewer != q.viewer then Err(TranscriptMismatch)
    else
      match TranscriptHash(q, o)
      case Err(error) => Err(error)
      case Ok(transcript) => Ok(Confirmation(PAIRING_VERSION, q.id, transcript, viewer, confirmedAt, viewer))
  }

  function SignDecision(publisher: Identity, d: Decision): Result<Decision, PairError> {
    if DecisionMetadata(d).Failed? then Err(DecisionMetadata(d).error) else Ok(d.(signedBy := publisher))
  }

  /** `PublisherDecision::reject`. */
  function Reject(publisher: Identity, q: PairRequest, decidedAt: i64): Result<Decision, PairError> {
    if publisher != q.publisher then Err(TranscriptMismatch)
    else
      SignDecision(publisher,
                   Decision(PAIRING_VERSION, q.id, q.viewer, q.streamId, ZeroHash, false, Rejected, decidedAt, 0))
  }

  /** `PublisherDecision::approve_manual`. */
  function ApproveManual(publisher: Identity, q: PairRequest, o: PairOffer, c: Confirmation, decidedAt: i64)
    : Result<Decision, PairError>
  {
    var checked := VerifyConfirmation(c, q, o);
    if checked.Failed? then Err(checked.error)
    else if publisher != q.publisher then Err(TranscriptMismatch)
    else
      match TranscriptHash(q, o)
      case Err(error) => Err(error)
      case Ok(transcript) =>
        SignDecision(publisher,
                     Decision(PAIRING_VERSION, q.id, q.viewer, q.streamId, transcript, true, ManualVerified, decidedAt,
                              0))
  }

  /** `PublisherDecision::approve_by_policy`. */
  function ApproveByPolicy(
    publisher: Identity, q: PairRequest, reason: Reason, decidedAt: i64)
    : Result<Decision, PairError>
  {
    if publisher != q.publisher then Err(TranscriptMismatch)
    else if reason != TrustedViewerCa && reason != OpenPolicy then Err(InvalidMetadata)
    else
      SignDecision(publisher,
                   Decision(PAIRING_VERSION, q.id, q.viewer, q.streamId, ZeroHash, true, reason, decidedAt, 0))
  }

  // ---------------------------------------------------------------- what the checks mean

  /** A passed time check, in plain integers: also at the ends of the 64-bit range. */
  lemma TimeCheckMeans(issuedAt: i64, expiresAt: i64, now: i64, maxLifetime: i64)
    ensures ValidateTime(issuedAt, expiresAt, now, maxLifetime) == Passed
            <==> && issuedAt < expiresAt <= issuedAt + maxLifetime && issuedAt <= now + CLOCK_SKEW_MS && now < expiresAt
  {
  }

  /** A request passes when it is of these protocol versions, names real parties and a stream, carries only the
      viewer's own credential, a valid label and a nonce, is in time, and is signed by the viewer. */
  lemma RequestVerifiesExactlyWhen(q: PairRequest, now: i64, maxLifetime: i64)
    ensures VerifyRequest(q, now, maxLifetime) == Passed
            <==> && q.version == 2 && q.protocolVersion == 9 && q.publisher != 0 && q.viewer != 0 && q.streamId != 0
                 && (q.credential == None || q.credential == Some(Credential(ViewerRole, q.viewer)))
                 && q.labelValid && q.nonce != 0 && q.signedBy == q.viewer
                 && q.issuedAt < q.expiresAt <= q.issuedAt + maxLifetime
                 && q.issuedAt <= now + 300_000 && now < q.expiresAt
  {
    TimeCheckMeans(q.issuedAt, q.expiresAt, now, maxLifetime);
  }

  /** An offer passes when its request does, it names that ceremony, carries fresh values, is in time, and is
      signed by the request's publisher. */
  lemma OfferVerifiesExactlyWhen(o: PairOffer, q: PairRequest, now: i64, maxLifetime: i64)
    ensures VerifyOffer(o, q, now, maxLifetime) == Passed
            <==> && VerifyRequest(q, now, maxLifetime) == Passed && o.version == 2 && q.id != 0
                 && o.requestId == q.id && o.publisher == q.publisher && o.viewer == q.viewer
                 && o.nonce != 0 && o.relayContext != 0 && o.signedBy == q.publisher
                 && o.issuedAt < o.expiresAt <= o.issuedAt + maxLifetime
                 && o.issuedAt <= now + 300_000 && now < o.expiresAt
  {
    TimeCheckMeans(o.issuedAt, o.expiresAt, now, maxLifetime);
  }

  /** A confirmation passes when the viewer signed it over the transcript of exactly this request and offer. */
  lemma ConfirmationVerifiesExactlyWhen(c: Confirmation, q: PairRequest, o: PairOffer)
    ensures VerifyConfirmation(c, q, o) == Passed
            <==> && c.version == 2 && c.requestId == q.id && c.viewer == q.viewer && c.signedBy == q.viewer
                 && c.transcript == TranscriptOf(q, o)
                 && RequestMetadata(q) == Passed && OfferMetadata(o) == Passed
                 && o.requestId == q.id && o.publisher == q.publisher && o.viewer == q.viewer
  {
  }

  /** A decision passes when the request's publisher signed it for exactly this request, and verdict, reason and
      transcript go together. */
  lemma DecisionVerifiesExactlyWhen(d: Decision, q: PairRequest, publisher: Identity)
    ensures VerifyDecision(d, q, publisher) == Passed
            <==> && d.version == 2 && d.requestId == q.id && d.viewer == q.viewer && d.streamId == q.streamId
                 && Named(q) && publisher == q.publisher && d.signedBy == publisher
                 && (d.approved <==> d.reason != Rejected) && (d.reason == ManualVerified <==> d.transcript != ZeroHash)
  {
  }

  /** A request that verified once verifies later exactly until it expires, when the clock does not
      go back. */
  lemma RequestStaysValid(q: PairRequest, earlier: i64, now: i64, maxLifetime: i64)
    requires VerifyRequest(q, earlier, maxLifetime) == Passed && earlier <= now
    ensures VerifyRequest(q, now, maxLifetime) == Passed <==> now < q.expiresAt
    ensures now < q.expiresAt ==> VerifyRequest(q, now, q.expiresAt - q.issuedAt) == Passed
  {
    TimeCheckMeans(q.issuedAt, q.expiresAt, earlier, maxLifetime);
    TimeCheckMeans(q.issuedAt, q.expiresAt, now, maxLifetime);
  }

  /** A request the relay accepted is refused at a clock elsewhere exactly when that clock is more than the
      skew behind the request's issue, or past its expiry. */
  lemma RequestRefusedExactlyWhen(q: PairRequest, relayNow: i64, now: i64, maxLifetime: i64)
    requires VerifyRequest(q, relayNow, maxLifetime) == Passed
    ensures VerifyRequest(q, now, maxLifetime).Failed? <==> now < q.issuedAt - CLOCK_SKEW_MS || q.expiresAt <= now
  {
    TimeCheckMeans(q.issuedAt, q.expiresAt, relayNow, maxLifetime);
    TimeCheckMeans(q.issuedAt, q.expiresAt, now, maxLifetime);
  }

  /** When a publisher can make an offer for the rest of a request's life: for its own, identified requests,
      with usable random values, while its clock neither trails the issue by more than the skew nor
      has passed the expiry. */
  lemma OfferCanBeMadeExactlyWhen(
    publisher: Identity, q: PairRequest, relayContext: nat, nonce: nat, relayNow: i64, now: i64, maxLifetime: i64)
    requires VerifyRequest(q, relayNow, maxLifetime) == Passed
    ensures NewOffer(publisher, q, relayContext, nonce, now, q.expiresAt, maxLifetime).Ok?
            <==> && publisher == q.publisher && q.id != 0 && relayContext != 0 && nonce != 0
                 && q.issuedAt - CLOCK_SKEW_MS <= now < q.expiresAt
  {
    RequestRefusedExactlyWhen(q, relayNow, now, maxLifetime);
  }

  /** An offer a publisher creates for the rest of the request's life is accepted elsewhere exactly
      when that life, counted from the publisher's own clock, stays within the allowed lifetime and
      the two clocks agree to within the skew. */
  lemma OfferAcceptedExactlyWhen(
    q: PairRequest, relayContext: nat, nonce: nat, publisherNow: i64, relayNow: i64, maxLifetime: i64)
    requires VerifyRequest(q, relayNow, maxLifetime) == Passed
    requires NewOffer(q.publisher, q, relayContext, nonce, publisherNow, q.expiresAt, maxLifetime).Ok?
    ensures VerifyOffer(NewOffer(q.publisher, q, relayContext, nonce, publisherNow, q.expiresAt, maxLifetime).value, q,
                        relayNow, maxLifetime)
            == Passed
            <==> q.expiresAt - publisherNow <= maxLifetime && publisherNow <= relayNow + CLOCK_SKEW_MS
  {
    TimeCheckMeans(publisherNow, q.expiresAt, relayNow, maxLifetime);
    TimeCheckMeans(q.issuedAt, q.expiresAt, relayNow, maxLifetime);
    TimeCheckMeans(q.issuedAt, q.expiresAt, publisherNow, maxLifetime);
  }

  /** A viewer whose clock is ahead of the publisher's gets, for a request of full lifetime, an offer
      that the publisher accepts to create and the relay always refuses. */
  lemma FullLifetimeOfferRefused(
    q: PairRequest, relayContext: nat, nonce: nat, publisherNow: i64, relayNow: i64, maxLifetime: i64)
    requires VerifyRequest(q, publisherNow, maxLifetime) == Passed && relayContext != 0 && nonce != 0 && q.id != 0
    requires q.expiresAt - q.issuedAt == maxLifetime && publisherNow < q.issuedAt
    ensures var made := NewOffer(q.publisher, q, relayContext, nonce, publisherNow, q.expiresAt, maxLifetime);
            made.Ok? && VerifyOffer(made.value, q, relayNow, maxLifetime).Failed?
  {
    TimeCheckMeans(publisherNow, q.expiresAt, relayNow, maxLifetime);
    TimeCheckMeans(q.issuedAt, q.expiresAt, publisherNow, maxLifetime);
  }

  /** An offer that can be made fits its request and carries the publisher's own nonce, relay context and
      times; a viewer can confirm exactly the ceremonies of its own requests, and the confirmation
      verifies against exactly that offer. */
  lemma MadeRecordsVerify(
    publisher: Identity, viewer: Identity, q: PairRequest, o: PairOffer, relayContext: nat, nonce: nat, issuedAt: i64,
    expiresAt: i64, maxLifetime: i64, confirmedAt: i64)
    ensures var made := NewOffer(publisher, q, relayContext, nonce, issuedAt, expiresAt, maxLifetime);
            made.Ok? ==>
              && OfferFits(made.value, q) && made.value.nonce == nonce && made.value.relayContext == relayContext
              && made.value.issuedAt == issuedAt && made.value.expiresAt == expiresAt
    ensures var made := Approve(viewer, q, o, confirmedAt);
            && (made.Ok? <==> viewer == q.viewer && TranscriptHash(q, o).Ok?)
            && (made.Ok? ==>
                  && made.value.confirmedAt == confirmedAt
                  && (forall other: PairOffer :: VerifyConfirmation(made.value, q, other) == Passed <==> other == o))
  {
  }

  /** The request has what a decision names it by. */
  predicate Named(q: PairRequest) {
    q.id != 0 && q.viewer != 0 && q.streamId != 0
  }

  /** Every decision a constructor makes verifies for its request and says what was asked for: a denial
      denies, a manual approval carries the transcript the viewer confirmed, and an approval by
      policy names that policy. A publisher can make each exactly for its own requests. */
  lemma MadeDecisionsVerify(
    publisher: Identity, q: PairRequest, o: PairOffer, c: Confirmation, reason: Reason, decidedAt: i64)
    ensures Reject(publisher, q, decidedAt).Ok? <==> publisher == q.publisher && Named(q)
    ensures Reject(publisher, q, decidedAt).Ok? ==>
              Says(Reject(publisher, q, decidedAt).value, q, false, Rejected, ZeroHash, decidedAt)
    ensures ApproveByPolicy(publisher, q, reason, decidedAt).Ok?
            <==> publisher == q.publisher && Named(q) && (reason == OpenPolicy || reason == TrustedViewerCa)
    ensures ApproveByPolicy(publisher, q, reason, decidedAt).Ok? ==>
              Says(ApproveByPolicy(publisher, q, reason, decidedAt).value, q, true, reason, ZeroHash, decidedAt)
    ensures ApproveManual(publisher, q, o, c, decidedAt).Ok?
            <==> publisher == q.publisher && Named(q) && VerifyConfirmation(c, q, o) == Passed
    ensures ApproveManual(publisher, q, o, c, decidedAt).Ok? ==>
              && Says(ApproveManual(publisher, q, o, c, decidedAt).value, q, true, ManualVerified, TranscriptOf(q, o),
                      decidedAt)
              && c.transcript == TranscriptOf(q, o)
  {
  }

  /** The decision verifies for the request, and this is what it says. */
  predicate Says(d: Decision, q: PairRequest, approved: bool, reason: Reason, transcript: Transcript, at: i64) {
    && VerifyDecision(d, q, q.publisher) == Passed
    && d.approved == approved && d.reason == reason && d.transcript == transcript && d.decidedAt == at
  }
}
