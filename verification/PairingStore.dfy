/** The relay's durable table of pairing ceremonies.

    A table is a map from request identifiers to rows; a transaction is one step that either
    yields a new table or fails and leaves the table as it was, purge included. The clock is an
    argument of every call.
  */
module PairingStore {
  import opened MachineInts
  import opened Wrappers
  import opened PairingRecords

  const MAX_PENDING_GLOBAL := 16384
  const MAX_PENDING_PER_PUBLISHER := 1024
  const MAX_REQUESTS_PER_MINUTE := 10
  const MAX_INBOX_RECORDS := 4096
  const DECISION_RETENTION_MS := 30 * 24 * 60 * 60 * 1000
  const RATE_WINDOW_MS := 60000
  const PAIRING_REQUEST_LIFETIME_MS := 24 * 60 * 60 * 1000

  datatype Row = Row(
    request: PairRequest, source: nat, receivedAt: i64, offer: Option<PairOffer>, confirmation: Option<Confirmation>,
    decision: Option<Decision>, decidedAt: i64)

  type Table = map<nat, Row>

  /** What a call answers: whether it changed a row, or why it was refused. */
  datatype Answer = Done(changed: bool) | Refused(error: PairError)

  datatype Outcome = Outcome(table: Table, answer: Answer)

  // ---------------------------------------------------------------- queries

  predicate Stale(row: Row, now: i64) {
    if row.decision.None? then row.request.expiresAt <= now
    else row.decidedAt < SatSubI64(now, DECISION_RETENTION_MS)
  }

  /** `purge`. */
  function Purged(t: Table, now: i64): Table {
    map id | id in t && !Stale(t[id], now) :: t[id]
  }

  function Undecided(t: Table): set<nat> {
    set id | id in t && t[id].decision.None?
  }

  function UndecidedFor(t: Table, publisher: Identity): set<nat> {
    set id | id in t && t[id].decision.None? && t[id].request.publisher == publisher
  }

  function FromSource(t: Table, source: nat, since: int): set<nat> {
    set id | id in t && t[id].source == source && t[id].receivedAt >= since
  }

  function FromViewer(t: Table, viewer: Identity, since: int): set<nat> {
    set id | id in t && t[id].request.viewer == viewer && t[id].receivedAt >= since
  }

  /** The four `require_count_below` checks, in order. */
  function BoundsCheck(t: Table, q: PairRequest, source: nat, now: i64): Check {
    var windowStart := SatSubI64(now, RATE_WINDOW_MS);
    if |Undecided(t)| >= MAX_PENDING_GLOBAL then Failed(QueueFull)
    else if |UndecidedFor(t, q.publisher)| >= MAX_PENDING_PER_PUBLISHER then Failed(QueueFull)
    else if |FromSource(t, source, windowStart)| >= MAX_REQUESTS_PER_MINUTE then Failed(RateLimited)
    else if |FromViewer(t, q.viewer, windowStart)| >= MAX_REQUESTS_PER_MINUTE then Failed(RateLimited)
    else Passed
  }

  // ---------------------------------------------------------------- transactions

  function EnqueueRequest(t: Table, q: PairRequest, source: nat, now: i64, maxLifetime: i64): Outcome {
    var checked, kept := VerifyRequest(q, now, maxLifetime), Purged(t, now);
    if checked.Failed? then Outcome(t, Refused(checked.error))
    else if q.encodedLen > MAX_PAIRING_MESSAGE_LEN then Outcome(t, Refused(RecordTooLarge))
    else if q.id in kept then
      if kept[q.id].request != q then Outcome(t, Refused(Conflict)) else Outcome(kept, Done(false))
    else
      var bounds := BoundsCheck(kept, q, source, now);
      if bounds.Failed? then Outcome(t, Refused(bounds.error))
      else Outcome(kept[q.id := Row(q, source, now, None, None, None, 0)], Done(true))
  }

  function StoreOffer(t: Table, o: PairOffer, now: i64, maxLifetime: i64): Outcome {
    var kept := Purged(t, now);
    if o.requestId !in kept then Outcome(t, Refused(UnknownRequest))
    else
      var row := kept[o.requestId];
      var checked := VerifyOffer(o, row.request, now, maxLifetime);
      if checked.Failed? then Outcome(t, Refused(checked.error))
      else if row.offer.Some? then Outcome(kept, Done(false))
      else Outcome(kept[o.requestId := row.(offer := Some(o))], Done(true))
  }

  function StoreConfirmation(t: Table, c: Confirmation, now: i64): Outcome {
    var kept := Purged(t, now);
    if c.requestId !in kept then Outcome(t, Refused(UnknownRequest))
    else
      var row := kept[c.requestId];
      if row.offer.None? then Outcome(t, Refused(NoOffer))
      else
        var checked := VerifyConfirmation(c, row.request, row.offer.value);
        if checked.Failed? then Outcome(t, Refused(checked.error))
        else if row.confirmation.Some? then Outcome(kept, Done(false))
        else Outcome(kept[c.requestId := row.(confirmation := Some(c))], Done(true))
  }

  /** The extra checks a manual approval needs, against the stored ceremony. */
  function CeremonyCheck(d: Decision, row: Row): Check {
    if d.reason != ManualVerified then Passed
    else if row.offer.None? then Failed(NoOffer)
    else if row.confirmation.None? then Failed(NoConfirmation)
    else if VerifyConfirmation(row.confirmation.value, row.request, row.offer.value).Failed? then
      VerifyConfirmation(row.confirmation.value, row.request, row.offer.value)
    else
      match TranscriptHash(row.request, row.offer.value)
      case Err(error) => Failed(error)
      case Ok(transcript) => if d.transcript != transcript then Failed(TranscriptMismatch) else Passed
  }

  function StoreDecision(t: Table, d: Decision, now: i64): Outcome {
    var kept := Purged(t, now);
    if d.requestId !in kept then Outcome(t, Refused(UnknownRequest))
    else
      var row := kept[d.requestId];
      var checked := VerifyDecision(d, row.request, row.request.publisher);
      if checked.Failed? then Outcome(t, Refused(checked.error))
      else
        var ceremony := CeremonyCheck(d, row);
        if ceremony.Failed? then Outcome(t, Refused(ceremony.error))
        else if row.decision.Some? then Outcome(kept, Done(false))
        else Outcome(kept[d.requestId := row.(decision := Some(d), decidedAt := now)], Done(true))
  }

  // ---------------------------------------------------------------- the publisher's inbox

  datatype Delivery = Delivery(request: PairRequest, source: nat, receivedAt: i64)

  datatype Inbox = Inbox(requests: seq<Delivery>, confirmations: seq<Confirmation>)

  predicate Before(t: Table, a: nat, b: nat)
    requires a in t && b in t
  {
    t[a].receivedAt < t[b].receivedAt || (t[a].receivedAt == t[b].receivedAt && a < b)
  }

  /** The identifiers in order of arrival. */
  predicate InOrder(t: Table, ids: seq<nat>) {
    && (forall k :: 0 <= k < |ids| ==> ids[k] in t)
    && forall j, k :: 0 <= j < k < |ids| ==> Before(t, ids[j], ids[k])
  }

  function Deliveries(t: Table, ids: seq<nat>): (r: seq<Delivery>)
    requires forall k :: 0 <= k < |ids| ==> ids[k] in t
  {
    if ids == [] then []
    else
      var row := t[ids[|ids| - 1]];
      Deliveries(t, ids[..|ids| - 1]) + [Delivery(row.request, row.source, row.receivedAt)]
  }

  function Confirmed(t: Table, ids: seq<nat>): seq<Confirmation>
    requires forall k :: 0 <= k < |ids| ==> ids[k] in t
  {
    if ids == [] then []
    else
      var row := t[ids[|ids| - 1]];
      Confirmed(t, ids[..|ids| - 1]) + (if row.confirmation.Some? then [row.confirmation.value] else [])
  }

  /** A queued request is verified again with its own lifetime. */
  predicate Reverifies(q: PairRequest, now: i64) {
    && I64_MIN <= q.expiresAt - q.issuedAt <= I64_MAX
    && VerifyRequest(q, now, q.expiresAt - q.issuedAt) == Passed
  }

  predicate IsEarliest(t: Table, ids: set<nat>, first: nat)
    requires forall id :: id in ids ==> id in t
  {
    first in ids && forall id :: id in ids && id != first ==> Before(t, first, id)
  }

  lemma {:induction false} EarliestExists(t: Table, ids: set<nat>)
    requires ids != {} && forall id :: id in ids ==> id in t
    ensures exists first :: IsEarliest(t, ids, first)
    decreases ids
  {
    var any :| any in ids;
    if ids == {any} {
      assert IsEarliest(t, ids, any);
    } else {
      EarliestExists(t, ids - {any});
      var other :| IsEarliest(t, ids - {any}, other);
      if Before(t, other, any) {
        assert IsEarliest(t, ids, other);
      } else {
        forall id | id in ids && id != any
          ensures Before(t, any, id)
        {
          assert id != other ==> id in ids - {any} && Before(t, other, id);
        }
        assert IsEarliest(t, ids, any);
      }
    }
  }

  ghost function Earliest(t: Table, ids: set<nat>): (first: nat)
    requires ids != {} && forall id :: id in ids ==> id in t
    ensures IsEarliest(t, ids, first)
  {
    EarliestExists(t, ids);
    var first :| IsEarliest(t, ids, first);
    first
  }

  /** Up to `limit` identifiers, earliest arrivals first. */
  ghost function Arrivals(t: Table, ids: set<nat>, limit: nat): seq<nat>
    requires forall id :: id in ids ==> id in t
  {
    if ids == {} || limit == 0 then []
    else [Earliest(t, ids)] + Arrivals(t, ids - {Earliest(t, ids)}, limit - 1)
  }

  lemma ArrivalsStep(t: Table, ids: set<nat>, limit: nat, first: nat)
    requires limit > 0 && (forall id :: id in ids ==> id in t) && IsEarliest(t, ids, first)
    ensures Arrivals(t, ids, limit) == [first] + Arrivals(t, ids - {first}, limit - 1)
  {
    assert IsEarliest(t, ids, Earliest(t, ids));
  }

  lemma OneMoreDelivery(t: Table, ids: seq<nat>, k: nat)
    requires k < |ids| && forall j :: 0 <= j < |ids| ==> ids[j] in t
    ensures var row := t[ids[k]];
            && Deliveries(t, ids[..k + 1])
               == Deliveries(t, ids[..k]) + [Delivery(row.request, row.source, row.receivedAt)]
            && Confirmed(t, ids[..k + 1])
               == Confirmed(t, ids[..k]) + (if row.confirmation.Some? then [row.confirmation.value] else [])
  {
    assert ids[..k + 1][..k] == ids[..k];
  }

  /** The inbox lists the publisher's undecided requests in order of arrival, without repeats: all of
      them when they fit, otherwise the earliest. */
  lemma {:induction false} ArrivalsAreOrdered(t: Table, ids: set<nat>, limit: nat)
    requires forall id :: id in ids ==> id in t
    ensures var all := Arrivals(t, ids, limit);
            && (forall k :: 0 <= k < |all| ==> all[k] in ids)
            && InOrder(t, all)
            && |all| == (if |ids| <= limit then |ids| else limit)
            && (|ids| <= limit ==> forall id :: id in ids ==> id in all)
            && (forall a, b :: a in all && b in ids && b !in all ==> Before(t, a, b))
  {
    if ids != {} && limit > 0 {
      var first := Earliest(t, ids);
      ArrivalsAreOrdered(t, ids - {first}, limit - 1);
    }
  }

  class Store {
    var rows: Table

    constructor ()
      ensures rows == map[]
    {
      rows := map[];
    }

    method Purge(now: i64)
      modifies this
      ensures rows == Purged(old(rows), now)
    {
      rows := map id | id in rows && !Stale(rows[id], now) :: rows[id];
    }

    method Enqueue(q: PairRequest, source: nat, now: i64, maxLifetime: i64) returns (answer: Answer)
      modifies this
      ensures Outcome(rows, answer) == EnqueueRequest(old(rows), q, source, now, maxLifetime)
    {
      var before := rows;
      var checked := VerifyRequest(q, now, maxLifetime);
      if checked.Failed? {
        return Refused(checked.error);
      }
      if q.encodedLen > MAX_PAIRING_MESSAGE_LEN {
        return Refused(RecordTooLarge);
      }
      Purge(now);
      if q.id in rows {
        if rows[q.id].request != q {
          rows := before;
          return Refused(Conflict);
        }
        return Done(false);
      }
      var bounds := BoundsCheck(rows, q, source, now);
      if bounds.Failed? {
        rows := before;
        return Refused(bounds.error);
      }
      rows := rows[q.id := Row(q, source, now, None, None, None, 0)];
      return Done(true);
    }

    method Offer(o: PairOffer, now: i64, maxLifetime: i64) returns (answer: Answer)
      modifies this
      ensures Outcome(rows, answer) == StoreOffer(old(rows), o, now, maxLifetime)
    {
      var before := rows;
      Purge(now);
      if o.requestId !in rows {
        rows := before;
        return Refused(UnknownRequest);
      }
      var row := rows[o.requestId];
      var checked := VerifyOffer(o, row.request, now, maxLifetime);
      if checked.Failed? {
        rows := before;
        return Refused(checked.error);
      }
      if row.offer.Some? {
        return Done(false);
      }
      rows := rows[o.requestId := row.(offer := Some(o))];
      return Done(true);
    }

    method Confirm(c: Confirmation, now: i64) returns (answer: Answer)
      modifies this
      ensures Outcome(rows, answer) == StoreConfirmation(old(rows), c, now)
    {
      var before := rows;
      Purge(now);
      if c.requestId !in rows {
        rows := before;
        return Refused(UnknownRequest);
      }
      var row := rows[c.requestId];
      if row.offer.None? {
        rows := before;
        return Refused(NoOffer);
      }
      var checked := VerifyConfirmation(c, row.request, row.offer.value);
      if checked.Failed? {
        rows := before;
        return Refused(checked.error);
      }
      if row.confirmation.Some? {
        return Done(false);
      }
      rows := rows[c.requestId := row.(confirmation := Some(c))];
      return Done(true);
    }

    method Decide(d: Decision, now: i64) returns (answer: Answer)
      modifies this
      ensures Outcome(rows, answer) == StoreDecision(old(rows), d, now)
    {
      var before := rows;
      Purge(now);
      if d.requestId !in rows {
        rows := before;
        return Refused(UnknownRequest);
      }
      var row := rows[d.requestId];
      var checked := VerifyDecision(d, row.request, row.request.publisher);
      if checked.Passed? {
        checked := CeremonyCheck(d, row);
      }
      if checked.Failed? {
        rows := before;
        return Refused(checked.error);
      }
      if row.decision.Some? {
        return Done(false);
      }
      rows := rows[d.requestId := row.(decision := Some(d), decidedAt := now)];
      return Done(true);
    }

    /** `publisher_inbox`: in order of arrival, at most `MAX_INBOX_RECORDS`. */
    method PublisherInbox(publisher: Identity, now: i64) returns (r: Result<Inbox, PairError>)
      modifies this
      ensures var kept := Purged(old(rows), now);
              var ids := InboxIds(kept, publisher);
              && (r.Ok? <==> forall k :: 0 <= k < |ids| ==> Reverifies(kept[ids[k]].request, now))
              && (r.Ok? ==> rows == kept && r.value == Inbox(Deliveries(kept, ids), Confirmed(kept, ids)))
              && (r.Err? ==> rows == old(rows))
    {
      hide Purged, Arrivals, Deliveries, Confirmed, VerifyRequest;
      var before := rows;
      Purge(now);
      var rest, count := UndecidedFor(rows, publisher), 0;
      var requests, confirmations := [], [];
      ghost var kept, all := rows, InboxIds(rows, publisher);
      NothingListed(kept);
      while rest != {} && count < MAX_INBOX_RECORDS
        invariant rows == kept && count <= MAX_INBOX_RECORDS && count <= |all|
        invariant forall id :: id in rest ==> id in kept
        invariant all[count..] == Arrivals(kept, rest, MAX_INBOX_RECORDS - count)
        invariant requests == Deliveries(kept, all[..count]) && confirmations == Confirmed(kept, all[..count])
        invariant forall k :: 0 <= k < count ==> Reverifies(kept[all[k]].request, now)
      {
        EarliestExists(rows, rest);
        var id :| IsEarliest(rows, rest, id);
        ArrivalsStep(kept, rest, MAX_INBOX_RECORDS - count, id);
        assert all[count] == all[count..][0] == id && all[count + 1..] == all[count..][1..];
        OneMoreDelivery(kept, all, count);
        var row := rows[id];
        var lifetime := row.request.expiresAt - row.request.issuedAt;
        if lifetime < I64_MIN || lifetime > I64_MAX {
          rows := before;
          return Err(InvalidMetadata);
        }
        var checked := VerifyRequest(row.request, now, lifetime);
        if checked.Failed? {
          rows := before;
          return Err(checked.error);
        }
        requests := requests + [Delivery(row.request, row.source, row.receivedAt)];
        if row.confirmation.Some? {
          confirmations := confirmations + [row.confirmation.value];
        }
        rest, count := rest - {id}, count + 1;
      }
      NoMoreArrivals(kept, rest, MAX_INBOX_RECORDS - count);
      assert all[..count] == all;
      return Ok(Inbox(requests, confirmations));
    }
  }

  lemma NothingListed(t: Table)
    ensures Deliveries(t, []) == [] && Confirmed(t, []) == []
  {
  }

  lemma NoMoreArrivals(t: Table, ids: set<nat>, limit: nat)
    requires (ids == {} || limit == 0) && forall id :: id in ids ==> id in t
    ensures Arrivals(t, ids, limit) == []
  {
  }

  /** The rows an inbox lists, in order. */
  ghost function InboxIds(t: Table, publisher: Identity): (r: seq<nat>)
    ensures forall k :: 0 <= k < |r| ==> r[k] in t
  {
    ArrivalsAreOrdered(t, UndecidedFor(t, publisher), MAX_INBOX_RECORDS);
    Arrivals(t, UndecidedFor(t, publisher), MAX_INBOX_RECORDS)
  }

  // ---------------------------------------------------------------- the life of a row

  /** What a row may become: slots only go from empty to filled. */
  predicate Grows(earlier: Row, later: Row) {
    && later.request == earlier.request && later.source == earlier.source && later.receivedAt == earlier.receivedAt
    && (earlier.offer.Some? ==> later.offer == earlier.offer)
    && (earlier.confirmation.Some? ==> later.confirmation == earlier.confirmation)
    && (earlier.decision.Some? ==> later.decision == earlier.decision && later.decidedAt == earlier.decidedAt)
  }

  /** A row's ceremony hangs together. */
  predicate RowIntegrity(id: nat, row: Row) {
    && row.request.id == id
    && RequestMetadata(row.request) == Passed && row.request.signedBy == row.request.viewer
    && (row.offer.Some? ==> OfferFits(row.offer.value, row.request))
    && (row.confirmation.Some? ==>
          row.offer.Some? && VerifyConfirmation(row.confirmation.value, row.request, row.offer.value) == Passed)
    && (row.decision.Some? ==>
          && VerifyDecision(row.decision.value, row.request, row.request.publisher) == Passed
          && CeremonyCheck(row.decision.value, row) == Passed)
  }

  predicate Integrity(t: Table) {
    forall id :: id in t ==> RowIntegrity(id, t[id])
  }

  /** The times of a row: checked when it arrived and when it was decided. */
  predicate RowTimes(row: Row, now: i64, maxLifetime: i64) {
    && row.receivedAt <= now
    && row.request.issuedAt <= row.receivedAt + CLOCK_SKEW_MS
    && row.request.issuedAt < row.request.expiresAt <= row.request.issuedAt + maxLifetime
    && (row.decision.Some? ==> row.receivedAt <= row.decidedAt <= now)
  }

  predicate Timely(t: Table, now: i64, maxLifetime: i64) {
    forall id :: id in t ==> RowTimes(t[id], now, maxLifetime)
  }

  // ---------------------------------------------------------------- calls and runs

  datatype Call = EnqueueCall(request: PairRequest, source: nat)
                | OfferCall(offer: PairOffer)
                | ConfirmationCall(confirmation: Confirmation)
                | DecisionCall(decision: Decision)
                | InboxCall

  datatype Timed = Timed(call: Call, now: i64)

  /** Reading an inbox only purges. */
  function Apply(t: Table, timed: Timed, maxLifetime: i64): Outcome {
    match timed.call
    case EnqueueCall(q, source) => EnqueueRequest(t, q, source, timed.now, maxLifetime)
    case OfferCall(o) => StoreOffer(t, o, timed.now, maxLifetime)
    case ConfirmationCall(c) => StoreConfirmation(t, c, timed.now)
    case DecisionCall(d) => StoreDecision(t, d, timed.now)
    case InboxCall => Outcome(Purged(t, timed.now), Done(false))
  }

  function Run(calls: seq<Timed>, maxLifetime: i64): Table {
    if calls == [] then map[]
    else Apply(Run(calls[..|calls| - 1], maxLifetime), calls[|calls| - 1], maxLifetime).table
  }

  predicate ClockGoesOn(calls: seq<Timed>) {
    forall i, j :: 0 <= i < j < |calls| ==> calls[i].now <= calls[j].now
  }

  /** One call replaces at most one row: it grows, or it is new and undecided. */
  lemma CallEffect(t: Table, timed: Timed, maxLifetime: i64, id: nat)
    ensures var next := Apply(t, timed, maxLifetime).table;
            && (id in t && id in next ==>
                  Grows(t[id], next[id]) || (Stale(t[id], timed.now) && timed.call.EnqueueCall?))
            && (id in t && id !in next ==> Stale(t[id], timed.now))
            && (id in next && (id !in t || !Grows(t[id], next[id])) ==>
                  && timed.call.EnqueueCall? && timed.call.request == next[id].request && timed.call.request.id == id
                  && VerifyRequest(next[id].request, timed.now, maxLifetime) == Passed
                  && next[id] == Row(next[id].request, timed.call.source, timed.now, None, None, None, 0))
            && (id in next && id in t && t[id].decision.None? && next[id].decision.Some? ==>
                  next[id].decidedAt == timed.now)
  {
    hide VerifyRequest, VerifyOffer, VerifyConfirmation, VerifyDecision, CeremonyCheck, BoundsCheck;
  }

  lemma CallKeepsRowIntegrity(t: Table, timed: Timed, maxLifetime: i64, id: nat)
    requires Integrity(t) && id in Apply(t, timed, maxLifetime).table
    ensures RowIntegrity(id, Apply(t, timed, maxLifetime).table[id])
  {
    hide VerifyConfirmation, VerifyDecision, BoundsCheck, RequestMetadata, OfferMetadata, ValidateTime, TranscriptHash;
    if id in t {
      assert RowIntegrity(id, t[id]);
    }
  }

  lemma CallKeepsIntegrity(t: Table, timed: Timed, maxLifetime: i64)
    requires Integrity(t)
    ensures Integrity(Apply(t, timed, maxLifetime).table)
  {
    hide Apply, RowIntegrity;
    forall id | id in Apply(t, timed, maxLifetime).table
      ensures RowIntegrity(id, Apply(t, timed, maxLifetime).table[id])
    {
      CallKeepsRowIntegrity(t, timed, maxLifetime, id);
    }
  }

  lemma CallKeepsTimely(t: Table, timed: Timed, before: i64, maxLifetime: i64)
    requires Timely(t, before, maxLifetime) && before <= timed.now
    ensures Timely(Apply(t, timed, maxLifetime).table, timed.now, maxLifetime)
  {
    hide Apply, VerifyRequest;
    var next := Apply(t, timed, maxLifetime).table;
    forall id | id in next
      ensures RowTimes(next[id], timed.now, maxLifetime)
    {
      CallEffect(t, timed, maxLifetime, id);
      if id in t && Grows(t[id], next[id]) {
        assert RowTimes(t[id], before, maxLifetime);
      } else {
        FreshTimes(next[id].request, timed.now, maxLifetime);
      }
    }
  }

  lemma FreshTimes(q: PairRequest, now: i64, maxLifetime: i64)
    requires VerifyRequest(q, now, maxLifetime) == Passed
    ensures q.issuedAt <= now + CLOCK_SKEW_MS && q.issuedAt < q.expiresAt <= q.issuedAt + maxLifetime
    ensures now < q.expiresAt
  {
    TimeCheckMeans(q.issuedAt, q.expiresAt, now, maxLifetime);
  }

  /** Ceremony integrity holds in every reachable table, whatever the clock does. */
  lemma {:induction false} RunKeepsIntegrity(calls: seq<Timed>, maxLifetime: i64)
    ensures Integrity(Run(calls, maxLifetime))
  {
    hide Apply, RowIntegrity;
    if calls != [] {
      RunKeepsIntegrity(calls[..|calls| - 1], maxLifetime);
      CallKeepsIntegrity(Run(calls[..|calls| - 1], maxLifetime), calls[|calls| - 1], maxLifetime);
    }
  }

  lemma {:induction false} RunKeepsTimely(calls: seq<Timed>, maxLifetime: i64)
    requires calls != [] && ClockGoesOn(calls)
    ensures Timely(Run(calls, maxLifetime), calls[|calls| - 1].now, maxLifetime)
  {
    hide Apply, RowTimes;
    var most, last := calls[..|calls| - 1], calls[|calls| - 1];
    if most == [] {
      EmptyIsTimely(last.now, maxLifetime);
      CallKeepsTimely(map[], last, last.now, maxLifetime);
    } else {
      RunKeepsTimely(most, maxLifetime);
      CallKeepsTimely(Run(most, maxLifetime), last, most[|most| - 1].now, maxLifetime);
    }
  }

  lemma EmptyIsTimely(now: i64, maxLifetime: i64)
    ensures Timely(map[], now, maxLifetime)
  {
  }

  /** A stored manual approval was compared by both humans over the stored request and offer. */
  lemma ManualApprovalIsBackedByTheCeremony(calls: seq<Timed>, maxLifetime: i64, id: nat)
    requires var t := Run(calls, maxLifetime);
             id in t && t[id].decision.Some? && t[id].decision.value.reason == ManualVerified
    ensures var row := Run(calls, maxLifetime)[id];
            && row.offer.Some? && row.confirmation.Some?
            && row.decision.value.transcript == TranscriptOf(row.request, row.offer.value)
            && row.confirmation.value.transcript == row.decision.value.transcript
            && row.confirmation.value.signedBy == row.request.viewer
            && row.offer.value.signedBy == row.request.publisher == row.decision.value.signedBy
  {
    hide Run;
    RunKeepsIntegrity(calls, maxLifetime);
    assert RowIntegrity(id, Run(calls, maxLifetime)[id]);
  }

  // ---------------------------------------------------------------- no resurrection

  /** The longest request lifetime for which a decided row outlives its request. */
  const MAX_SAFE_LIFETIME := DECISION_RETENTION_MS - CLOCK_SKEW_MS + 1

  predicate Stored(t: Table, q: PairRequest) {
    q.id in t && t[q.id].request == q
  }

  lemma StaleIsExpired(row: Row, before: i64, now: i64, maxLifetime: i64)
    requires RowTimes(row, before, maxLifetime) && before <= now && Stale(row, now) && maxLifetime <= MAX_SAFE_LIFETIME
    ensures row.request.expiresAt <= now
  {
  }

  /** From the moment a request is stored it is either still there, with slots only filled since, or
      it is gone and has expired. */
  predicate LivesOn(q: PairRequest, first: Row, t: Table, now: i64) {
    if Stored(t, q) then Grows(first, t[q.id]) else q.expiresAt <= now
  }

  lemma StepLivesOn(q: PairRequest, first: Row, t: Table, before: i64, timed: Timed, maxLifetime: i64)
    requires LivesOn(q, first, t, before) && Timely(t, before, maxLifetime) && before <= timed.now
    requires maxLifetime <= MAX_SAFE_LIFETIME
    ensures LivesOn(q, first, Apply(t, timed, maxLifetime).table, timed.now)
  {
    hide Apply, VerifyRequest, Stale;
    var next := Apply(t, timed, maxLifetime).table;
    CallEffect(t, timed, maxLifetime, q.id);
    if q.id in t && Stale(t[q.id], timed.now) {
      StaleIsExpired(t[q.id], before, timed.now, maxLifetime);
    }
    if Stored(next, q) && VerifyRequest(q, timed.now, maxLifetime) == Passed {
      FreshTimes(q, timed.now, maxLifetime);
    }
  }

  /** No resurrection: with a clock that does not go back, a stored request is never re-created once
      it is gone, and its filled slots never change while it is there. */
  lemma {:induction false} NoResurrection(calls: seq<Timed>, maxLifetime: i64, q: PairRequest, i: nat, k: nat)
    requires 0 < i <= k <= |calls| && ClockGoesOn(calls) && maxLifetime <= MAX_SAFE_LIFETIME
    requires Stored(Run(calls[..i], maxLifetime), q)
    ensures LivesOn(q, Run(calls[..i], maxLifetime)[q.id], Run(calls[..k], maxLifetime), calls[k - 1].now)
    decreases k
  {
    hide Apply, Timely, Run;
    if i < k {
      NoResurrection(calls, maxLifetime, q, i, k - 1);
      RunKeepsTimely(calls[..k - 1], maxLifetime);
      RunStep(calls, k - 1, maxLifetime);
      StepLivesOn(q, Run(calls[..i], maxLifetime)[q.id], Run(calls[..k - 1], maxLifetime), calls[k - 2].now,
                  calls[k - 1], maxLifetime);
    }
  }

  lemma RunStep(calls: seq<Timed>, k: nat, maxLifetime: i64)
    requires k < |calls|
    ensures Run(calls[..k + 1], maxLifetime) == Apply(Run(calls[..k], maxLifetime), calls[k], maxLifetime).table
  {
    assert calls[..k + 1][..k] == calls[..k];
  }

  /** In the relay's service: a request seen gone never comes back, and a decided one keeps its decision. */
  lemma DecidedStaysDecided(calls: seq<Timed>, q: PairRequest, i: nat, j: nat, k: nat)
    requires 0 < i <= j <= k <= |calls| && ClockGoesOn(calls)
    requires Stored(Run(calls[..i], PAIRING_REQUEST_LIFETIME_MS), q)
    ensures var first := Run(calls[..i], PAIRING_REQUEST_LIFETIME_MS)[q.id];
            var last := Run(calls[..k], PAIRING_REQUEST_LIFETIME_MS);
            && (!Stored(Run(calls[..j], PAIRING_REQUEST_LIFETIME_MS), q) ==> !Stored(last, q))
            && (first.decision.Some? && Stored(last, q) ==> last[q.id].decision == first.decision)
  {
    hide Run, Apply;
    NoResurrection(calls, PAIRING_REQUEST_LIFETIME_MS, q, i, k);
    if !Stored(Run(calls[..j], PAIRING_REQUEST_LIFETIME_MS), q) {
      NoResurrection(calls, PAIRING_REQUEST_LIFETIME_MS, q, i, j);
      StaysGone(calls, PAIRING_REQUEST_LIFETIME_MS, q, j, k);
    }
  }

  lemma {:induction false} StaysGone(calls: seq<Timed>, maxLifetime: i64, q: PairRequest, j: nat, k: nat)
    requires 0 < j <= k <= |calls| && ClockGoesOn(calls)
    requires !Stored(Run(calls[..j], maxLifetime), q) && q.expiresAt <= calls[j - 1].now
    ensures !Stored(Run(calls[..k], maxLifetime), q)
    decreases k
  {
    hide Apply, Run, VerifyRequest;
    if j < k {
      StaysGone(calls, maxLifetime, q, j, k - 1);
      RunStep(calls, k - 1, maxLifetime);
      CallEffect(Run(calls[..k - 1], maxLifetime), calls[k - 1], maxLifetime, q.id);
      if VerifyRequest(q, calls[k - 1].now, maxLifetime) == Passed {
        FreshTimes(q, calls[k - 1].now, maxLifetime);
      }
    }
  }

  // ---------------------------------------------------------------- queue bounds and rate limits

  /** Whom a rate limit is for. */
  datatype Party = BySource(source: nat) | ByViewer(viewer: Identity)

  predicate Concerns(party: Party, q: PairRequest, source: nat) {
    match party
    case BySource(s) => source == s
    case ByViewer(viewer) => q.viewer == viewer
  }

  /** The stored rows of one source or viewer that arrived in a closed minute. */
  function Window(t: Table, party: Party, from: int): set<nat> {
    set id | && id in t && Concerns(party, t[id].request, t[id].source)
             && from <= t[id].receivedAt <= from + RATE_WINDOW_MS
  }

  /** The queue bounds, and at most ten stored rows of one source or viewer in any window of a minute. */
  ghost predicate Bounded(t: Table) {
    && |Undecided(t)| <= MAX_PENDING_GLOBAL
    && (forall publisher: Identity :: |UndecidedFor(t, publisher)| <= MAX_PENDING_PER_PUBLISHER)
    && (forall party: Party, from: int :: |Window(t, party, from)| <= MAX_REQUESTS_PER_MINUTE)
  }

  lemma {:induction false} SubsetSize(a: set<nat>, b: set<nat>)
    requires a <= b
    ensures |a| <= |b|
    decreases a
  {
    if a != {} {
      var x :| x in a;
      SubsetSize(a - {x}, b - {x});
    }
  }

  predicate OnlyGrows(t: Table, next: Table) {
    forall id :: id in next ==> id in t && Grows(t[id], next[id])
  }

  /** A call inserts a row that passed the four bounds, or inserts nothing. */
  lemma CallInserts(t: Table, timed: Timed, maxLifetime: i64)
    ensures var next := Apply(t, timed, maxLifetime).table;
            || OnlyGrows(t, next)
            || (&& timed.call.EnqueueCall?
                && BoundsCheck(Purged(t, timed.now), timed.call.request, timed.call.source, timed.now) == Passed
                && next == Purged(t, timed.now)[timed.call.request.id :=
                                                  Row(timed.call.request, timed.call.source, timed.now, None, None,
                                                      None, 0)])
  {
    hide VerifyRequest, VerifyOffer, VerifyConfirmation, VerifyDecision, CeremonyCheck, BoundsCheck;
  }

  lemma GrowthKeepsBounded(t: Table, next: Table)
    requires Bounded(t) && OnlyGrows(t, next)
    ensures Bounded(next)
  {
    SubsetSize(Undecided(next), Undecided(t));
    forall publisher: Identity
      ensures |UndecidedFor(next, publisher)| <= |UndecidedFor(t, publisher)|
    {
      SubsetSize(UndecidedFor(next, publisher), UndecidedFor(t, publisher));
    }
    forall party: Party, from: int
      ensures |Window(next, party, from)| <= |Window(t, party, from)|
    {
      SubsetSize(Window(next, party, from), Window(t, party, from));
    }
  }

  /** Inserting one row: each window gains at most it, and only if what was counted before was below
      the limit. */
  lemma InsertedWindow(kept: Table, row: Row, party: Party, from: int)
    requires BoundsCheck(kept, row.request, row.source, row.receivedAt) == Passed
    requires |Window(kept, party, from)| <= MAX_REQUESTS_PER_MINUTE
    ensures |Window(kept[row.request.id := row], party, from)| <= MAX_REQUESTS_PER_MINUTE
  {
    var next, id, since := kept[row.request.id := row], row.request.id, SatSubI64(row.receivedAt, RATE_WINDOW_MS);
    if !Concerns(party, row.request, row.source) || !(from <= row.receivedAt <= from + RATE_WINDOW_MS) {
      SubsetSize(Window(next, party, from), Window(kept, party, from));
    } else if party.BySource? {
      SubsetSize(Window(next, party, from), FromSource(kept, row.source, since) + {id});
    } else {
      SubsetSize(Window(next, party, from), FromViewer(kept, row.request.viewer, since) + {id});
    }
  }

  lemma InsertionKeepsBounded(kept: Table, row: Row)
    requires Bounded(kept) && row.decision.None?
    requires BoundsCheck(kept, row.request, row.source, row.receivedAt) == Passed
    ensures Bounded(kept[row.request.id := row])
  {
    var next, id := kept[row.request.id := row], row.request.id;
    SubsetSize(Undecided(next), Undecided(kept) + {id});
    forall publisher: Identity
      ensures |UndecidedFor(next, publisher)| <= MAX_PENDING_PER_PUBLISHER
    {
      if publisher == row.request.publisher {
        SubsetSize(UndecidedFor(next, publisher), UndecidedFor(kept, publisher) + {id});
      } else {
        SubsetSize(UndecidedFor(next, publisher), UndecidedFor(kept, publisher));
      }
    }
    forall party: Party, from: int
      ensures |Window(next, party, from)| <= MAX_REQUESTS_PER_MINUTE
    {
      InsertedWindow(kept, row, party, from);
    }
  }

  /** Queue bounds and rolling rate limits hold in every reachable table, whatever the clock does. */
  lemma {:induction false} EveryTableIsBounded(calls: seq<Timed>, maxLifetime: i64)
    ensures Bounded(Run(calls, maxLifetime))
  {
    hide Apply, Bounded, BoundsCheck, Purged;
    if calls == [] {
      EmptyIsBounded();
    } else {
      var t, last := Run(calls[..|calls| - 1], maxLifetime), calls[|calls| - 1];
      EveryTableIsBounded(calls[..|calls| - 1], maxLifetime);
      CallInserts(t, last, maxLifetime);
      if OnlyGrows(t, Apply(t, last, maxLifetime).table) {
        GrowthKeepsBounded(t, Apply(t, last, maxLifetime).table);
      } else {
        PurgeOnlyGrows(t, last.now);
        GrowthKeepsBounded(t, Purged(t, last.now));
        InsertionKeepsBounded(Purged(t, last.now),
                              Row(last.call.request, last.call.source, last.now, None, None, None, 0));
      }
    }
  }

  lemma PurgeOnlyGrows(t: Table, now: i64)
    ensures OnlyGrows(t, Purged(t, now))
  {
  }

  lemma EmptyIsBounded()
    ensures Bounded(map[])
  {
  }

  // ---------------------------------------------------------------- the inbox never fails

  /** With a clock that does not go back the publisher's inbox never fails its re-verification, and
      it lists every undecided, unexpired request of that publisher. */
  lemma InboxIsCompleteAndVerified(calls: seq<Timed>, maxLifetime: i64, publisher: Identity, now: i64, id: nat)
    requires calls != [] && ClockGoesOn(calls) && calls[|calls| - 1].now <= now
    requires var t := Run(calls, maxLifetime);
             id in t && t[id].request.publisher == publisher && t[id].decision.None? && now < t[id].request.expiresAt
    ensures var kept := Purged(Run(calls, maxLifetime), now);
            && id in InboxIds(kept, publisher)
            && id in kept && Reverifies(kept[id].request, now)
  {
    hide Run, Arrivals;
    EveryTableIsBounded(calls, maxLifetime);
    var t, kept := Run(calls, maxLifetime), Purged(Run(calls, maxLifetime), now);
    PurgeOnlyGrows(t, now);
    GrowthKeepsBounded(t, kept);
    ArrivalsAreOrdered(kept, UndecidedFor(kept, publisher), MAX_INBOX_RECORDS);
    InboxVerifies(calls, maxLifetime, publisher, now, id);
  }

  lemma InboxVerifies(calls: seq<Timed>, maxLifetime: i64, publisher: Identity, now: i64, id: nat)
    requires calls != [] && ClockGoesOn(calls) && calls[|calls| - 1].now <= now
    requires var kept := Purged(Run(calls, maxLifetime), now); id in kept && kept[id].decision.None?
    ensures Reverifies(Purged(Run(calls, maxLifetime), now)[id].request, now)
  {
    hide Run;
    RunKeepsIntegrity(calls, maxLifetime);
    RunKeepsTimely(calls, maxLifetime);
    var row := Run(calls, maxLifetime)[id];
    assert RowIntegrity(id, row) && RowTimes(row, calls[|calls| - 1].now, maxLifetime);
    TimeCheckMeans(row.request.issuedAt, row.request.expiresAt, now, row.request.expiresAt - row.request.issuedAt);
  }

  // ---------------------------------------------------------------- exact limits

  function SampleRequest(id: nat, issuedAt: i64, expiresAt: i64): PairRequest {
    PairRequest(id, PAIRING_VERSION, PROTOCOL_VERSION, 1, 1, 2, None, true, 100, 1, issuedAt, expiresAt, 2)
  }

  lemma EmptyTablePasses(q: PairRequest, source: nat, now: i64)
    ensures BoundsCheck(map[], q, source, now) == Passed
  {
    var none: Table := map[];
    assert Undecided(none) == {} && UndecidedFor(none, q.publisher) == {};
    assert FromSource(none, source, SatSubI64(now, RATE_WINDOW_MS)) == {};
    assert FromViewer(none, q.viewer, SatSubI64(now, RATE_WINDOW_MS)) == {};
  }

  /** A valid request enters a table whose rows are all stale as its only row. */
  lemma EntersAlone(t: Table, q: PairRequest, source: nat, now: i64, maxLifetime: i64)
    requires VerifyRequest(q, now, maxLifetime) == Passed && q.encodedLen <= MAX_PAIRING_MESSAGE_LEN
    requires forall id :: id in t ==> Stale(t[id], now)
    ensures EnqueueRequest(t, q, source, now, maxLifetime)
            == Outcome(map[q.id := Row(q, source, now, None, None, None, 0)], Done(true))
  {
    hide VerifyRequest;
    assert Purged(t, now) == map[];
    EmptyTablePasses(q, source, now);
  }

  /** One millisecond more of request lifetime and a decided request can come back undecided. */
  lemma ResurrectionBeyondTheBound(maxLifetime: i64)
    requires maxLifetime > MAX_SAFE_LIFETIME
    ensures var q := SampleRequest(1, CLOCK_SKEW_MS, CLOCK_SKEW_MS + MAX_SAFE_LIFETIME + 1);
            var d := Reject(1, q, 0);
            && d.Ok?
            && var t1 := Apply(map[], Timed(EnqueueCall(q, 0), 0), maxLifetime).table;
            && var t2 := Apply(t1, Timed(DecisionCall(d.value), 0), maxLifetime).table;
            && var t3 := Apply(t2, Timed(EnqueueCall(q, 0), DECISION_RETENTION_MS + 1), maxLifetime).table;
            && Stored(t2, q) && t2[q.id].decision == Some(d.value)
            && Stored(t3, q) && t3[q.id].decision == None
  {
    var q := SampleRequest(1, CLOCK_SKEW_MS, CLOCK_SKEW_MS + MAX_SAFE_LIFETIME + 1);
    EntersAlone(map[], q, 0, 0, maxLifetime);
    var t1 := Apply(map[], Timed(EnqueueCall(q, 0), 0), maxLifetime).table;
    var d := Reject(1, q, 0).value;
    assert Purged(t1, 0) == t1;
    var t2 := Apply(t1, Timed(DecisionCall(d), 0), maxLifetime).table;
    EntersAlone(t2, q, 0, DECISION_RETENTION_MS + 1, maxLifetime);
  }

  /** A clock that goes back makes the inbox refuse a request the table accepted. */
  lemma InboxFailsWhenTheClockGoesBack(now: i64)
    requires 0 < now < I64_MAX - CLOCK_SKEW_MS - 1
    ensures var q := SampleRequest(1, now + CLOCK_SKEW_MS, now + CLOCK_SKEW_MS + 1);
            var t := Apply(map[], Timed(EnqueueCall(q, 0), now), PAIRING_REQUEST_LIFETIME_MS).table;
            Stored(Purged(t, now - 1), q) && !Reverifies(q, now - 1)
  {
    var q := SampleRequest(1, now + CLOCK_SKEW_MS, now + CLOCK_SKEW_MS + 1);
    EntersAlone(map[], q, 0, now, PAIRING_REQUEST_LIFETIME_MS);
  }

  /** Requests that each live one millisecond, sent every other millisecond. */
  function Brief(n: nat): seq<Timed>
    requires 2 * n <= RATE_WINDOW_MS
  {
    if n == 0 then []
    else Brief(n - 1) + [Timed(EnqueueCall(SampleRequest(n, 2 * n, 2 * n + 1), 0), 2 * n)]
  }

  /** The limits count stored rows: up to 30,000 requests of one viewer from one source, each gone before
      the next, are all accepted within one minute. */
  lemma {:induction false} PurgedRequestsAreNotCounted(n: nat)
    requires 0 < n && 2 * n <= RATE_WINDOW_MS
    ensures var q := SampleRequest(n, 2 * n, 2 * n + 1);
            && Run(Brief(n), PAIRING_REQUEST_LIFETIME_MS) == map[n := Row(q, 0, 2 * n, None, None, None, 0)]
            && Apply(Run(Brief(n - 1), PAIRING_REQUEST_LIFETIME_MS), Timed(EnqueueCall(q, 0), 2 * n),
                     PAIRING_REQUEST_LIFETIME_MS).answer
               == Done(true)
  {
    hide VerifyRequest, EnqueueRequest, BoundsCheck, Purged;
    var calls, q := Brief(n), SampleRequest(n, 2 * n, 2 * n + 1);
    assert calls[..|calls| - 1] == Brief(n - 1);
    var t := Run(Brief(n - 1), PAIRING_REQUEST_LIFETIME_MS);
    if n > 1 {
      PurgedRequestsAreNotCounted(n - 1);
      assert forall id :: id in t ==> t[id].request.expiresAt == 2 * n - 1;
    }
    SampleVerifies(n);
    EntersAlone(t, q, 0, 2 * n, PAIRING_REQUEST_LIFETIME_MS);
  }

  lemma SampleVerifies(n: nat)
    requires 0 < n && 2 * n <= RATE_WINDOW_MS
    ensures VerifyRequest(SampleRequest(n, 2 * n, 2 * n + 1), 2 * n, PAIRING_REQUEST_LIFETIME_MS) == Passed
  {
  }

  // ---------------------------------------------------------------- accepted requests

  /** How many requests of a source or viewer the first `k` calls stored at a time in the window. */
  function Accepted(calls: seq<Timed>, maxLifetime: i64, party: Party, from: int, k: nat): nat
    requires k <= |calls|
  {
    if k == 0 then 0
    else
      var timed := calls[k - 1];
      Accepted(calls, maxLifetime, party, from, k - 1)
      + (if && Sends(timed, party, from)
            && Apply(Run(calls[..k - 1], maxLifetime), timed, maxLifetime).answer == Done(true)
         then 1 else 0)
  }

  predicate Sends(timed: Timed, party: Party, from: int) {
    && timed.call.EnqueueCall? && Concerns(party, timed.call.request, timed.call.source)
    && from <= timed.now <= from + RATE_WINDOW_MS
  }

  /** Every request has at least this much life left when it is sent. */
  predicate LivesAtLeast(calls: seq<Timed>, life: int) {
    forall i :: 0 <= i < |calls| && calls[i].call.EnqueueCall? ==>
                  calls[i].call.request.expiresAt >= calls[i].now + life
  }

  predicate RowsOutlive(t: Table) {
    forall id :: id in t ==> t[id].request.expiresAt > t[id].receivedAt + RATE_WINDOW_MS
  }

  lemma WindowSurvivesPurge(t: Table, before: i64, now: i64, maxLifetime: i64, party: Party, from: int)
    requires Timely(t, before, maxLifetime) && RowsOutlive(t) && before <= now <= from + RATE_WINDOW_MS
    ensures Window(Purged(t, now), party, from) == Window(t, party, from)
  {
    forall id | id in Window(t, party, from)
      ensures id in Purged(t, now)
    {
      assert RowTimes(t[id], before, maxLifetime);
    }
  }

  lemma CallKeepsWindow(t: Table, timed: Timed, before: i64, maxLifetime: i64, party: Party, from: int)
    requires Timely(t, before, maxLifetime) && RowsOutlive(t) && before <= timed.now <= from + RATE_WINDOW_MS
    ensures var next := Apply(t, timed, maxLifetime);
            && |Window(t, party, from)| <= |Window(next.table, party, from)|
            && (Sends(timed, party, from) && next.answer == Done(true) ==>
                  |Window(t, party, from)| < |Window(next.table, party, from)|)
  {
    hide Apply, Stale, Timely, RowsOutlive, Purged;
    var kept, next := Purged(t, timed.now), Apply(t, timed, maxLifetime);
    WindowSurvivesPurge(t, before, timed.now, maxLifetime, party, from);
    CallAddsTo(t, timed, maxLifetime);
    var window := Window(kept, party, from);
    SubsetSize(window, Window(next.table, party, from));
    if Sends(timed, party, from) && next.answer == Done(true) {
      assert timed.call.request.id !in window;
      SubsetSize(window + {timed.call.request.id}, Window(next.table, party, from));
    }
  }

  /** A call that succeeds keeps every row that was not purged, and a new request adds one. */
  lemma CallAddsTo(t: Table, timed: Timed, maxLifetime: i64)
    ensures var kept, next := Purged(t, timed.now), Apply(t, timed, maxLifetime);
            && (next.answer.Refused? ==> next.table == t)
            && (next.answer.Done? ==>
                  forall id :: id in kept ==>
                    && id in next.table && next.table[id].source == kept[id].source
                    && next.table[id].request == kept[id].request && next.table[id].receivedAt == kept[id].receivedAt)
            && (timed.call.EnqueueCall? && next.answer == Done(true) ==>
                  var id := timed.call.request.id;
                  && id !in kept && id in next.table && next.table[id].request == timed.call.request
                  && next.table[id].source == timed.call.source && next.table[id].receivedAt == timed.now)
  {
    hide VerifyRequest, VerifyOffer, VerifyConfirmation, VerifyDecision, CeremonyCheck, BoundsCheck, Purged,
         TranscriptHash;
  }

  lemma CallKeepsOutlive(t: Table, timed: Timed, maxLifetime: i64)
    requires RowsOutlive(t)
    requires timed.call.EnqueueCall? ==> timed.call.request.expiresAt > timed.now + RATE_WINDOW_MS
    ensures RowsOutlive(Apply(t, timed, maxLifetime).table)
  {
    hide Apply;
    var next := Apply(t, timed, maxLifetime).table;
    forall id | id in next
      ensures next[id].request.expiresAt > next[id].receivedAt + RATE_WINDOW_MS
    {
      CallEffect(t, timed, maxLifetime, id);
    }
  }

  lemma {:induction false} RunOutlives(calls: seq<Timed>, maxLifetime: i64)
    requires LivesAtLeast(calls, RATE_WINDOW_MS + 1)
    ensures RowsOutlive(Run(calls, maxLifetime))
  {
    hide Apply;
    if calls != [] {
      RunOutlives(calls[..|calls| - 1], maxLifetime);
      CallKeepsOutlive(Run(calls[..|calls| - 1], maxLifetime), calls[|calls| - 1], maxLifetime);
    }
  }

  /** When requests outlive the window and the clock does not go back, the limit also bounds how many
      requests of one source or viewer are ever accepted in any window of a minute. */
  lemma {:induction false} AcceptedRequestsAreLimited(
    calls: seq<Timed>, maxLifetime: i64, party: Party, from: int, k: nat)
    requires k <= |calls| && ClockGoesOn(calls) && LivesAtLeast(calls, RATE_WINDOW_MS + 1)
    ensures Accepted(calls, maxLifetime, party, from, k) <= MAX_REQUESTS_PER_MINUTE
    ensures (k > 0 ==> calls[k - 1].now <= from + RATE_WINDOW_MS) ==>
              Accepted(calls, maxLifetime, party, from, k) <= |Window(Run(calls[..k], maxLifetime), party, from)|
  {
    hide Apply, Run, RowsOutlive, Timely, Window;
    if k > 0 {
      AcceptedRequestsAreLimited(calls, maxLifetime, party, from, k - 1);
      var most, timed := calls[..k - 1], calls[k - 1];
      RunStep(calls, k - 1, maxLifetime);
      EveryTableIsBounded(calls[..k], maxLifetime);
      if timed.now <= from + RATE_WINDOW_MS {
        RunOutlives(most, maxLifetime);
        TimelyBefore(calls, k - 1, maxLifetime);
        CallKeepsWindow(Run(most, maxLifetime), timed, if k > 1 then calls[k - 2].now else timed.now, maxLifetime,
                        party, from);
      }
    }
  }

  lemma TimelyBefore(calls: seq<Timed>, k: nat, maxLifetime: i64)
    requires k < |calls| && ClockGoesOn(calls)
    ensures Timely(Run(calls[..k], maxLifetime), if k > 0 then calls[k - 1].now else calls[0].now, maxLifetime)
  {
    hide Apply, Timely;
    if k > 0 {
      RunKeepsTimely(calls[..k], maxLifetime);
    } else {
      EmptyIsTimely(calls[0].now, maxLifetime);
    }
  }

  // ---------------------------------------------------------------- how much life is needed

  /** Requests with at least this much life left keep within the limit, in every run. */
  ghost predicate LimitsAccepted(life: int) {
    forall calls: seq<Timed>, party: Party, from: int, k: nat ::
      k <= |calls| && ClockGoesOn(calls) && LivesAtLeast(calls, life) ==>
        Accepted(calls, PAIRING_REQUEST_LIFETIME_MS, party, from, k) <= MAX_REQUESTS_PER_MINUTE
  }

  /** Ten requests at time zero, each with `life` left, and an eleventh when they have expired. */
  function Burst(life: nat, n: nat): seq<Timed>
    requires 0 < life <= RATE_WINDOW_MS && n <= MAX_REQUESTS_PER_MINUTE + 1
  {
    if n == 0 then []
    else
      var now := if n <= MAX_REQUESTS_PER_MINUTE then 0 else life;
      Burst(life, n - 1) + [Timed(EnqueueCall(SampleRequest(n, now, now + life), 0), now)]
  }

  lemma {:induction false} BurstShape(life: nat, n: nat)
    requires 0 < life <= RATE_WINDOW_MS && n <= MAX_REQUESTS_PER_MINUTE + 1
    ensures |Burst(life, n)| == n && LivesAtLeast(Burst(life, n), life) && ClockGoesOn(Burst(life, n))
    ensures forall i :: 0 <= i < n ==> Burst(life, n)[i].now == if i < MAX_REQUESTS_PER_MINUTE then 0 else life
  {
    if n > 0 {
      BurstShape(life, n - 1);
    }
  }

  lemma {:induction false} AcceptedPrefix(
    calls: seq<Timed>, more: seq<Timed>, maxLifetime: i64, party: Party, from: int, k: nat)
    requires k <= |calls|
    ensures Accepted(calls + more, maxLifetime, party, from, k) == Accepted(calls, maxLifetime, party, from, k)
  {
    hide Apply, Run;
    if k > 0 {
      AcceptedPrefix(calls, more, maxLifetime, party, from, k - 1);
      assert (calls + more)[..k - 1] == calls[..k - 1];
    }
  }

  function UpTo(n: nat): set<nat> {
    if n == 0 then {} else UpTo(n - 1) + {n}
  }

  lemma {:induction false} UpToHas(n: nat, id: nat)
    ensures |UpTo(n)| <= n
    ensures id in UpTo(n) <==> 1 <= id <= n
  {
    if n > 0 {
      UpToHas(n - 1, id);
    }
  }

  /** Fewer than ten rows pass every bound. */
  lemma FewRowsPass(t: Table, n: nat, q: PairRequest, source: nat, now: i64)
    requires n < MAX_REQUESTS_PER_MINUTE && forall id :: id in t ==> 1 <= id <= n
    ensures BoundsCheck(t, q, source, now) == Passed
  {
    forall id: nat
      ensures id in UpTo(n) <==> 1 <= id <= n
    {
      UpToHas(n, id);
    }
    UpToHas(n, 0);
    var since := SatSubI64(now, RATE_WINDOW_MS);
    SubsetSize(Undecided(t), UpTo(n));
    SubsetSize(UndecidedFor(t, q.publisher), UpTo(n));
    SubsetSize(FromSource(t, source, since), UpTo(n));
    SubsetSize(FromViewer(t, q.viewer, since), UpTo(n));
  }

  predicate EarlyRows(t: Table, life: nat, n: nat) {
    forall id :: id in t ==> 1 <= id <= n && t[id].request.expiresAt == life && t[id].decision.None?
  }

  lemma EnqueueEarly(t: Table, life: nat, n: nat)
    requires 0 < life <= RATE_WINDOW_MS && n < MAX_REQUESTS_PER_MINUTE && EarlyRows(t, life, n)
    ensures var timed := Timed(EnqueueCall(SampleRequest(n + 1, 0, life), 0), 0);
            var next := Apply(t, timed, PAIRING_REQUEST_LIFETIME_MS);
            next.answer == Done(true) && EarlyRows(next.table, life, n + 1)
  {
    hide BoundsCheck;
    assert Purged(t, 0) == t;
    FewRowsPass(t, n, SampleRequest(n + 1, 0, life), 0, 0);
  }

  lemma EnqueueLate(t: Table, life: nat)
    requires 0 < life <= RATE_WINDOW_MS && EarlyRows(t, life, MAX_REQUESTS_PER_MINUTE)
    ensures var timed := Timed(EnqueueCall(SampleRequest(MAX_REQUESTS_PER_MINUTE + 1, life, life + life), 0), life);
            Apply(t, timed, PAIRING_REQUEST_LIFETIME_MS).answer == Done(true)
  {
    EntersAlone(t, SampleRequest(MAX_REQUESTS_PER_MINUTE + 1, life, life + life), 0, life, PAIRING_REQUEST_LIFETIME_MS);
  }

  /** All of a burst is accepted, eleven requests of one source and viewer within one minute. */
  lemma {:induction false} BurstIsAccepted(life: nat, n: nat, party: Party)
    requires 0 < life <= RATE_WINDOW_MS && n <= MAX_REQUESTS_PER_MINUTE + 1
    requires party == BySource(0) || party == ByViewer(2)
    ensures |Burst(life, n)| == n && Accepted(Burst(life, n), PAIRING_REQUEST_LIFETIME_MS, party, 0, n) == n
    ensures n <= MAX_REQUESTS_PER_MINUTE ==> EarlyRows(Run(Burst(life, n), PAIRING_REQUEST_LIFETIME_MS), life, n)
  {
    hide EarlyRows, Run, Accepted, Apply, Burst, SampleRequest;
    if n == 0 {
      NoBurst(life, party);
    } else {
      var most, now := Burst(life, n - 1), if n <= MAX_REQUESTS_PER_MINUTE then 0 else life;
      var timed := Timed(EnqueueCall(SampleRequest(n, now, now + life), 0), now);
      BurstGrows(life, n, timed, party);
      BurstIsAccepted(life, n - 1, party);
      OneMoreCall(most, timed, PAIRING_REQUEST_LIFETIME_MS, party, 0);
      if n <= MAX_REQUESTS_PER_MINUTE {
        EnqueueEarly(Run(most, PAIRING_REQUEST_LIFETIME_MS), life, n - 1);
      } else {
        EnqueueLate(Run(most, PAIRING_REQUEST_LIFETIME_MS), life);
      }
    }
  }

  lemma OneMoreCall(most: seq<Timed>, timed: Timed, maxLifetime: i64, party: Party, from: int)
    ensures var calls, outcome := most + [timed], Apply(Run(most, maxLifetime), timed, maxLifetime);
            && Run(calls, maxLifetime) == outcome.table
            && Accepted(calls, maxLifetime, party, from, |calls|)
               == Accepted(most, maxLifetime, party, from, |most|)
                  + (if Sends(timed, party, from) && outcome.answer == Done(true) then 1 else 0)
  {
    hide Apply;
    assert (most + [timed])[..|most|] == most;
    AcceptedPrefix(most, [timed], maxLifetime, party, from, |most|);
  }

  lemma NoBurst(life: nat, party: Party)
    requires 0 < life <= RATE_WINDOW_MS
    ensures Burst(life, 0) == [] && Accepted([], PAIRING_REQUEST_LIFETIME_MS, party, 0, 0) == 0
    ensures EarlyRows(Run([], PAIRING_REQUEST_LIFETIME_MS), life, 0)
  {
  }

  lemma BurstGrows(life: nat, n: nat, timed: Timed, party: Party)
    requires 0 < life <= RATE_WINDOW_MS && 0 < n <= MAX_REQUESTS_PER_MINUTE + 1
    requires party == BySource(0) || party == ByViewer(2)
    requires var now := if n <= MAX_REQUESTS_PER_MINUTE then 0 else life;
             timed == Timed(EnqueueCall(SampleRequest(n, now, now + life), 0), now)
    ensures Burst(life, n) == Burst(life, n - 1) + [timed] && Sends(timed, party, 0)
  {
  }

  /** The limit bounds the accepted requests of every source and viewer in every closed minute if and
      only if requests have more than a minute left when they are sent. */
  lemma AcceptedIsLimitedExactlyWhen(life: int)
    ensures LimitsAccepted(life) <==> life > RATE_WINDOW_MS
  {
    hide Accepted, LivesAtLeast;
    if life > RATE_WINDOW_MS {
      forall calls: seq<Timed>, party: Party, from: int, k: nat
        | k <= |calls| && ClockGoesOn(calls) && LivesAtLeast(calls, life)
        ensures Accepted(calls, PAIRING_REQUEST_LIFETIME_MS, party, from, k) <= MAX_REQUESTS_PER_MINUTE
      {
        LongerIsLongEnough(calls, life, RATE_WINDOW_MS + 1);
        AcceptedRequestsAreLimited(calls, PAIRING_REQUEST_LIFETIME_MS, party, from, k);
      }
    } else {
      var short := if life < 1 then 1 else life;
      var n := MAX_REQUESTS_PER_MINUTE + 1;
      BurstShape(short, n);
      BurstIsAccepted(short, n, BySource(0));
      LongerIsLongEnough(Burst(short, n), short, life);
    }
  }

  lemma LongerIsLongEnough(calls: seq<Timed>, life: int, less: int)
    requires LivesAtLeast(calls, life) && less <= life
    ensures LivesAtLeast(calls, less)
  {
  }
}
