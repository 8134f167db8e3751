/** What the relay's answers mean, and what a whole pairing ceremony leaves in its table. */
module PairingCeremony {
  import opened MachineInts
  import opened Wrappers
  import opened PairingRecords
  import opened PairingStore

  // ---------------------------------------------------------------- one call

  /** The row outlives a purge: undecided until its request expires, decided for the retention time. */
  predicate Live(t: Table, id: nat, now: i64) {
    && id in t
    && (if t[id].decision.None? then now < t[id].request.expiresAt else now <= t[id].decidedAt + DECISION_RETENTION_MS)
  }

  /** The request a call is about. */
  function About(call: Call): Option<nat> {
    match call
    case EnqueueCall(q, _) => Some(q.id)
    case OfferCall(o) => Some(o.requestId)
    case ConfirmationCall(c) => Some(c.requestId)
    case DecisionCall(d) => Some(d.requestId)
    case InboxCall => None
  }

  /** A served call keeps every other row that is not stale, and drops the stale ones; a refused one
      changes nothing at all. */
  lemma OtherRowsStay(t: Table, timed: Timed, maxLifetime: i64, id: nat)
    requires About(timed.call) != Some(id)
    ensures var outcome := Apply(t, timed, maxLifetime);
            && (outcome.answer.Done? ==>
                  && (id in outcome.table <==> Live(t, id, timed.now))
                  && (id in outcome.table ==> outcome.table[id] == t[id]))
            && (outcome.answer.Refused? ==> outcome.table == t)
  {
    hide VerifyRequest, VerifyOffer, VerifyConfirmation, VerifyDecision, CeremonyCheck, BoundsCheck;
  }

  /** At most this many undecided rows, overall and for this publisher, and at most this many rows from the
      source and of the viewer in the last minute. */
  predicate Room(t: Table, q: PairRequest, source: nat, now: i64) {
    QueueHasRoom(t, q) && RatesHaveRoom(t, q, source, now)
  }

  predicate QueueHasRoom(t: Table, q: PairRequest) {
    && |set id | id in t && t[id].decision.None?| < 16384
    && |set id | id in t && t[id].decision.None? && t[id].request.publisher == q.publisher| < 1024
  }

  predicate RatesHaveRoom(t: Table, q: PairRequest, source: nat, now: i64) {
    && |set id | id in t && t[id].source == source && now - 60000 <= t[id].receivedAt| < 10
    && |set id | id in t && t[id].request.viewer == q.viewer && now - 60000 <= t[id].receivedAt| < 10
  }

  /** The bounds, in plain numbers. */
  lemma BoundsMean(t: Table, q: PairRequest, source: nat, now: i64)
    ensures BoundsCheck(t, q, source, now) == Passed <==> Room(t, q, source, now)
    ensures BoundsCheck(t, q, source, now) == Failed(QueueFull) <==> !QueueHasRoom(t, q)
    ensures BoundsCheck(t, q, source, now) == Failed(RateLimited)
            <==> QueueHasRoom(t, q) && !RatesHaveRoom(t, q, source, now)
  {
    assert Undecided(t) == set id | id in t && t[id].decision.None?;
    assert UndecidedFor(t, q.publisher)
        == set id | id in t && t[id].decision.None? && t[id].request.publisher == q.publisher;
    var since := SatSubI64(now, RATE_WINDOW_MS);
    assert FromSource(t, source, since)
        == set id | id in t && t[id].source == source && now - 60000 <= t[id].receivedAt;
    assert FromViewer(t, q.viewer, since)
        == set id | id in t && t[id].request.viewer == q.viewer && now - 60000 <= t[id].receivedAt;
  }

  /** A request is new, known or refused; one accepted as new is stored as it was sent, undecided. */
  lemma EnqueueMeans(t: Table, q: PairRequest, source: nat, now: i64, maxLifetime: i64)
    ensures var outcome, kept := Apply(t, Timed(EnqueueCall(q, source), now), maxLifetime), Purged(t, now);
            var sound := VerifyRequest(q, now, maxLifetime) == Passed && q.encodedLen <= 32768;
            && (outcome.answer == Done(true) <==> sound && !Live(t, q.id, now) && Room(kept, q, source, now))
            && (outcome.answer == Done(false) <==> sound && Live(t, q.id, now) && t[q.id].request == q)
            && (outcome.answer == Done(true) ==>
                  q.id in outcome.table && outcome.table[q.id] == Row(q, source, now, None, None, None, 0))
            && (outcome.answer == Done(false) ==> q.id in outcome.table && outcome.table[q.id] == t[q.id])
            && (sound ==>
                  && (outcome.answer == Refused(Conflict) <==> Live(t, q.id, now) && t[q.id].request != q)
                  && (outcome.answer == Refused(QueueFull) <==> !Live(t, q.id, now) && !QueueHasRoom(kept, q)))
  {
    hide VerifyRequest, BoundsCheck, QueueHasRoom, RatesHaveRoom;
    BoundsMean(Purged(t, now), q, source, now);
  }

  /** An acknowledged offer is in the row: this one if the row had none, otherwise the one it had. */
  lemma OfferMeans(t: Table, o: PairOffer, now: i64, maxLifetime: i64)
    ensures var id, outcome := o.requestId, Apply(t, Timed(OfferCall(o), now), maxLifetime);
            && (outcome.answer.Done?
                <==> Live(t, id, now) && VerifyOffer(o, t[id].request, now, maxLifetime) == Passed)
            && (outcome.answer.Done? ==> id in outcome.table)
            && (outcome.answer == Done(true) ==>
                  t[id].offer.None? && outcome.table[id] == t[id].(offer := Some(o)))
            && (outcome.answer == Done(false) ==> t[id].offer.Some? && outcome.table[id] == t[id])
            && (!Live(t, id, now) ==> outcome.answer == Refused(UnknownRequest))
  {
    hide VerifyOffer;
  }

  /** An acknowledged confirmation is in the row: this one if the row had none, otherwise the one it had. */
  lemma ConfirmationMeans(t: Table, c: Confirmation, now: i64, maxLifetime: i64)
    ensures var id, outcome := c.requestId, Apply(t, Timed(ConfirmationCall(c), now), maxLifetime);
            && (outcome.answer.Done?
                <==> && Live(t, id, now) && t[id].offer.Some?
                     && VerifyConfirmation(c, t[id].request, t[id].offer.value) == Passed)
            && (outcome.answer.Done? ==> id in outcome.table)
            && (outcome.answer == Done(true) ==>
                  t[id].confirmation.None? && outcome.table[id] == t[id].(confirmation := Some(c)))
            && (outcome.answer == Done(false) ==> t[id].confirmation.Some? && outcome.table[id] == t[id])
            && (!Live(t, id, now) ==> outcome.answer == Refused(UnknownRequest))
            && (Live(t, id, now) && t[id].offer.None? ==> outcome.answer == Refused(NoOffer))
  {
    hide VerifyConfirmation;
  }

  /** An acknowledged decision is in the row, dated if it is this one. A manual approval needs the row's own
      offer and confirmation, and their transcript. */
  lemma DecisionMeans(t: Table, d: Decision, now: i64, maxLifetime: i64)
    ensures var id, outcome := d.requestId, Apply(t, Timed(DecisionCall(d), now), maxLifetime);
            && (outcome.answer.Done?
                <==> && Live(t, id, now) && VerifyDecision(d, t[id].request, t[id].request.publisher) == Passed
                     && (d.reason == ManualVerified ==>
                           && t[id].offer.Some? && t[id].confirmation.Some?
                           && VerifyConfirmation(t[id].confirmation.value, t[id].request, t[id].offer.value) == Passed
                           && d.transcript == TranscriptOf(t[id].request, t[id].offer.value)))
            && (outcome.answer.Done? ==> id in outcome.table)
            && (outcome.answer == Done(true) ==>
                  t[id].decision.None? && outcome.table[id] == t[id].(decision := Some(d), decidedAt := now))
            && (outcome.answer == Done(false) ==> t[id].decision.Some? && outcome.table[id] == t[id])
            && (!Live(t, id, now) ==> outcome.answer == Refused(UnknownRequest))
  {
    hide VerifyDecision, RequestMetadata, OfferMetadata;
  }

  // ---------------------------------------------------------------- runs of other calls

  /** Calls about other requests, each before a time. */
  predicate Elsewhere(calls: seq<Timed>, id: nat, before: i64) {
    forall k :: 0 <= k < |calls| ==> About(calls[k].call) != Some(id) && calls[k].now < before
  }

  lemma RunsOn(calls: seq<Timed>, timed: Timed, maxLifetime: i64)
    ensures Run(calls + [timed], maxLifetime) == Apply(Run(calls, maxLifetime), timed, maxLifetime).table
  {
    hide Apply;
    assert (calls + [timed])[..|calls|] == calls;
  }

  /** However many calls others make, an undecided row stays as it is until its request expires. */
  lemma {:induction false} RowWaits(calls: seq<Timed>, others: seq<Timed>, maxLifetime: i64, id: nat, row: Row)
    requires var t := Run(calls, maxLifetime); id in t && t[id] == row
    requires row.decision.None? && Elsewhere(others, id, row.request.expiresAt)
    ensures var t := Run(calls + others, maxLifetime); id in t && t[id] == row
  {
    hide Apply, Run;
    if others == [] {
      assert calls + others == calls;
    } else {
      var most, last := others[..|others| - 1], others[|others| - 1];
      RowWaits(calls, most, maxLifetime, id, row);
      RunsOn(calls + most, last, maxLifetime);
      assert calls + most + [last] == calls + others;
      OtherRowsStay(Run(calls + most, maxLifetime), last, maxLifetime, id);
    }
  }

  // ---------------------------------------------------------------- a whole ceremony

  /** A request, the publisher's offer, the viewer's confirmation of it and the publisher's manual approval,
      with the times they reach the relay. */
  datatype Ceremony = Ceremony(
    request: PairRequest, source: nat, offer: PairOffer, confirmation: Confirmation, decision: Decision,
    sentAt: i64, offeredAt: i64, confirmedAt: i64, decidedAt: i64)

  /** Both parties made their records for this ceremony, and each reaches the relay before the request expires. */
  predicate WellMade(c: Ceremony, maxLifetime: i64) {
    && VerifyRequest(c.request, c.sentAt, maxLifetime) == Passed && c.request.encodedLen <= MAX_PAIRING_MESSAGE_LEN
    && VerifyOffer(c.offer, c.request, c.offeredAt, maxLifetime) == Passed
    && Approve(c.request.viewer, c.request, c.offer, c.confirmation.confirmedAt) == Ok(c.confirmation)
    && ApproveManual(c.request.publisher, c.request, c.offer, c.confirmation, c.decision.decidedAt) == Ok(c.decision)
    && c.confirmedAt < c.request.expiresAt && c.decidedAt < c.request.expiresAt
  }

  lemma WellMadeVerifies(c: Ceremony, maxLifetime: i64)
    requires WellMade(c, maxLifetime)
    ensures c.offer.requestId == c.request.id && c.confirmation.requestId == c.request.id
    ensures VerifyConfirmation(c.confirmation, c.request, c.offer) == Passed
    ensures VerifyDecision(c.decision, c.request, c.request.publisher) == Passed
    ensures c.decision.requestId == c.request.id && c.decision.transcript == TranscriptOf(c.request, c.offer)
    ensures c.sentAt < c.request.expiresAt && c.offeredAt < c.request.expiresAt
  {
    TimeCheckMeans(c.request.issuedAt, c.request.expiresAt, c.sentAt, maxLifetime);
    TimeCheckMeans(c.request.issuedAt, c.request.expiresAt, c.offeredAt, maxLifetime);
  }

  /** The row after the first records of a ceremony. */
  function RowOf(c: Ceremony, offered: bool, confirmed: bool): Row {
    Row(c.request, c.source, c.sentAt, if offered then Some(c.offer) else None,
        if confirmed then Some(c.confirmation) else None, None, 0)
  }

  function RequestSent(c: Ceremony): Timed {
    Timed(EnqueueCall(c.request, c.source), c.sentAt)
  }

  function OfferSent(c: Ceremony): Timed {
    Timed(OfferCall(c.offer), c.offeredAt)
  }

  function ConfirmationSent(c: Ceremony): Timed {
    Timed(ConfirmationCall(c.confirmation), c.confirmedAt)
  }

  function DecisionSent(c: Ceremony): Timed {
    Timed(DecisionCall(c.decision), c.decidedAt)
  }

  /** The relay has room for the request and does not know it. */
  predicate Admits(t: Table, c: Ceremony) {
    !Live(t, c.request.id, c.sentAt) && Room(Purged(t, c.sentAt), c.request, c.source, c.sentAt)
  }

  /** The viewer's and publisher's calls up to the confirmation, others' calls in between. */
  function UpToConfirmation(c: Ceremony, a: seq<Timed>, b: seq<Timed>, d: seq<Timed>): seq<Timed> {
    a + [RequestSent(c)] + b + [OfferSent(c)] + d + [ConfirmationSent(c)]
  }

  /** A call is answered as new and leaves this row. */
  predicate Leaves(t: Table, timed: Timed, maxLifetime: i64, id: nat, row: Row) {
    var outcome := Apply(t, timed, maxLifetime);
    outcome.answer == Done(true) && id in outcome.table && outcome.table[id] == row
  }

  lemma EachCallLeaves(t: Table, c: Ceremony, maxLifetime: i64)
    requires WellMade(c, maxLifetime)
    ensures Admits(t, c) ==> Leaves(t, RequestSent(c), maxLifetime, c.request.id, RowOf(c, false, false))
    ensures c.request.id in t && t[c.request.id] == RowOf(c, false, false) ==>
              Leaves(t, OfferSent(c), maxLifetime, c.request.id, RowOf(c, true, false))
    ensures c.request.id in t && t[c.request.id] == RowOf(c, true, false) ==>
              Leaves(t, ConfirmationSent(c), maxLifetime, c.request.id, RowOf(c, true, true))
    ensures c.request.id in t && t[c.request.id] == RowOf(c, true, true) ==>
              Leaves(t, DecisionSent(c), maxLifetime, c.request.id,
                     RowOf(c, true, true).(decision := Some(c.decision), decidedAt := c.decidedAt))
  {
    WellMadeVerifies(c, maxLifetime);
    EnqueueMeans(t, c.request, c.source, c.sentAt, maxLifetime);
    OfferMeans(t, c.offer, c.offeredAt, maxLifetime);
    ConfirmationMeans(t, c.confirmation, c.confirmedAt, maxLifetime);
    DecisionMeans(t, c.decision, c.decidedAt, maxLifetime);
    hide Apply, VerifyRequest, VerifyOffer, VerifyConfirmation, VerifyDecision, Room, Approve, ApproveManual;
  }

  lemma LeftInRun(calls: seq<Timed>, timed: Timed, others: seq<Timed>, maxLifetime: i64, id: nat, row: Row)
    requires Leaves(Run(calls, maxLifetime), timed, maxLifetime, id, row)
    requires row.decision.None? && Elsewhere(others, id, row.request.expiresAt)
    ensures var t := Run(calls + [timed] + others, maxLifetime); id in t && t[id] == row
  {
    hide Apply, Run;
    RunsOn(calls, timed, maxLifetime);
    RowWaits(calls + [timed], others, maxLifetime, id, row);
  }

  /** A ceremony up to the confirmation, amid any calls about other requests: each record is acknowledged as
      new, and the row holds exactly these three until the request expires. */
  lemma CeremonyIsStored(
    c: Ceremony, earlier: seq<Timed>, a: seq<Timed>, b: seq<Timed>, later: seq<Timed>, maxLifetime: i64)
    requires WellMade(c, maxLifetime) && Admits(Run(earlier, maxLifetime), c)
    requires Elsewhere(a, c.request.id, c.request.expiresAt) && Elsewhere(b, c.request.id, c.request.expiresAt)
    requires Elsewhere(later, c.request.id, c.request.expiresAt)
    ensures var offering := earlier + [RequestSent(c)] + a;
            var confirming := offering + [OfferSent(c)] + b;
            && Apply(Run(earlier, maxLifetime), RequestSent(c), maxLifetime).answer == Done(true)
            && Apply(Run(offering, maxLifetime), OfferSent(c), maxLifetime).answer == Done(true)
            && Apply(Run(confirming, maxLifetime), ConfirmationSent(c), maxLifetime).answer == Done(true)
    ensures var t := Run(UpToConfirmation(c, earlier, a, b) + later, maxLifetime);
            c.request.id in t && t[c.request.id] == RowOf(c, true, true)
  {
    hide Run, Apply, WellMade, Admits;
    var id, offering := c.request.id, earlier + [RequestSent(c)] + a;
    var confirming := offering + [OfferSent(c)] + b;
    EachCallLeaves(Run(earlier, maxLifetime), c, maxLifetime);
    LeftInRun(earlier, RequestSent(c), a, maxLifetime, id, RowOf(c, false, false));
    EachCallLeaves(Run(offering, maxLifetime), c, maxLifetime);
    LeftInRun(offering, OfferSent(c), b, maxLifetime, id, RowOf(c, true, false));
    EachCallLeaves(Run(confirming, maxLifetime), c, maxLifetime);
    LeftInRun(confirming, ConfirmationSent(c), later, maxLifetime, id, RowOf(c, true, true));
  }

  /** The whole ceremony: the manual approval is acknowledged as new as well, and the row holds exactly the
      four records and the time of the decision. */
  lemma CeremonyCompletes(
    c: Ceremony, earlier: seq<Timed>, a: seq<Timed>, b: seq<Timed>, later: seq<Timed>, maxLifetime: i64)
    requires WellMade(c, maxLifetime) && Admits(Run(earlier, maxLifetime), c)
    requires Elsewhere(a, c.request.id, c.request.expiresAt) && Elsewhere(b, c.request.id, c.request.expiresAt)
    requires Elsewhere(later, c.request.id, c.request.expiresAt)
    ensures var deciding := UpToConfirmation(c, earlier, a, b) + later;
            var outcome := Apply(Run(deciding, maxLifetime), DecisionSent(c), maxLifetime);
            && outcome.answer == Done(true) && c.request.id in outcome.table
            && outcome.table[c.request.id]
               == Row(c.request, c.source, c.sentAt, Some(c.offer), Some(c.confirmation), Some(c.decision), c.decidedAt)
  {
    hide Run, Apply, WellMade, Admits;
    CeremonyIsStored(c, earlier, a, b, later, maxLifetime);
    EachCallLeaves(Run(UpToConfirmation(c, earlier, a, b) + later, maxLifetime), c, maxLifetime);
  }

  // ---------------------------------------------------------------- what the publisher reads

  /** An inbox delivers each listed row's request as it was stored, in the same order. */
  lemma {:induction false} DeliveriesAre(t: Table, ids: seq<nat>)
    requires forall k :: 0 <= k < |ids| ==> ids[k] in t
    ensures |Deliveries(t, ids)| == |ids|
    ensures forall k :: 0 <= k < |ids| ==>
                          Deliveries(t, ids)[k] == Delivery(t[ids[k]].request, t[ids[k]].source, t[ids[k]].receivedAt)
  {
    if ids != [] {
      DeliveriesAre(t, ids[..|ids| - 1]);
    }
  }

  /** And exactly the confirmations those rows hold. */
  lemma {:induction false} ConfirmationsAre(t: Table, ids: seq<nat>, c: Confirmation)
    requires forall k :: 0 <= k < |ids| ==> ids[k] in t
    ensures c in Confirmed(t, ids)
            <==> exists k :: 0 <= k < |ids| && t[ids[k]].confirmation == Some(c)
  {
    if ids != [] {
      var most, last := ids[..|ids| - 1], ids[|ids| - 1];
      ConfirmationsAre(t, most, c);
      if exists k :: 0 <= k < |ids| && t[ids[k]].confirmation == Some(c) {
        var k :| 0 <= k < |ids| && t[ids[k]].confirmation == Some(c);
        assert k < |most| ==> t[most[k]].confirmation == Some(c);
      }
      if c in Confirmed(t, most) {
        var k :| 0 <= k < |most| && t[most[k]].confirmation == Some(c);
        assert t[ids[k]].confirmation == Some(c);
      } else if t[last].confirmation == Some(c) {
        assert t[ids[|ids| - 1]].confirmation == Some(c);
      }
    }
  }

  /** After the confirmation, until the request expires, the publisher's inbox delivers the request as it
      was sent and that confirmation, whatever else is queued. */
  lemma ConfirmationIsDelivered(
    c: Ceremony, earlier: seq<Timed>, a: seq<Timed>, b: seq<Timed>, later: seq<Timed>, maxLifetime: i64, now: i64)
    requires WellMade(c, maxLifetime) && Admits(Run(earlier, maxLifetime), c)
    requires Elsewhere(a, c.request.id, c.request.expiresAt) && Elsewhere(b, c.request.id, c.request.expiresAt)
    requires Elsewhere(later, c.request.id, c.request.expiresAt) && now < c.request.expiresAt
    requires var calls := UpToConfirmation(c, earlier, a, b) + later;
             ClockGoesOn(calls) && calls[|calls| - 1].now <= now
    ensures var kept := Purged(Run(UpToConfirmation(c, earlier, a, b) + later, maxLifetime), now);
            var ids := InboxIds(kept, c.request.publisher);
            && Delivery(c.request, c.source, c.sentAt) in Deliveries(kept, ids)
            && c.confirmation in Confirmed(kept, ids)
  {
    hide Run, Apply, WellMade, Admits, InboxIds, Deliveries, Confirmed, Reverifies;
    var calls := UpToConfirmation(c, earlier, a, b) + later;
    CeremonyIsStored(c, earlier, a, b, later, maxLifetime);
    InboxIsCompleteAndVerified(calls, maxLifetime, c.request.publisher, now, c.request.id);
    var kept := Purged(Run(calls, maxLifetime), now);
    var ids := InboxIds(kept, c.request.publisher);
    var k :| 0 <= k < |ids| && ids[k] == c.request.id;
    DeliveriesAre(kept, ids);
    ConfirmationsAre(kept, ids, c.confirmation);
    assert kept[ids[k]].confirmation == Some(c.confirmation);
    assert Deliveries(kept, ids)[k] in Deliveries(kept, ids);
  }
}
