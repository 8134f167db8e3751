/** The publisher's saved pairing state: pending ceremonies, grants, revocations and three outboxes.

    A command works on the loaded state in memory and saves it whole; one that fails saves
    nothing, so each operation yields the next saved state or rejects. Random nonces, clocks,
    credential checks and hexadecimal prefixes are inputs.
  */
module PublisherState {
  import opened MachineInts
  import opened Wrappers
  import opened PairingRecords
  import opened Ordering

  const PAIR_LIFETIME_MS := 24 * 60 * 60 * 1000
  const MAX_RECORDS := 65536

  datatype Grant = Grant(stream: nat, viewer: Identity)

  datatype Pending = Pending(request: PairRequest, offer: PairOffer, confirmation: Option<Confirmation>, source: nat)

  datatype State = State(
    pending: seq<Pending>, approved: seq<Grant>, revoked: seq<Grant>,
    offerOutbox: seq<nat>, decisionOutbox: seq<Decision>, historyOutbox: seq<Grant>)

  const EMPTY := State([], [], [], [], [], [])

  /** What an operation leaves to be saved, if anything. */
  datatype Change = Changed(state: State) | Aborted

  function GrantRank(g: Grant): Rank {
    Pair(g.stream, g.viewer)
  }

  function IdRank(id: nat): Rank {
    Single(id)
  }

  function DecisionRank(d: Decision): Rank {
    Single(d.requestId)
  }

  function PendingRank(p: Pending): Rank {
    Single(p.request.id)
  }

  function GrantOf(q: PairRequest): Grant {
    Grant(q.streamId, q.viewer)
  }

  // ---------------------------------------------------------------- lookups

  function GrantRanks(grants: seq<Grant>): (r: seq<Rank>)
    ensures |r| == |grants| && forall i :: 0 <= i < |r| ==> r[i] == GrantRank(grants[i])
  {
    seq(|grants|, i requires 0 <= i < |grants| => GrantRank(grants[i]))
  }

  /** The binary search `add_approved` consults. */
  predicate SearchFinds(revoked: seq<Grant>, grant: Grant) {
    Found(GrantRanks(revoked), GrantRank(grant), 0, |revoked|)
  }

  /** The position of the first pending request with an identifier. */
  function FindPending(pending: seq<Pending>, id: nat): (r: Option<nat>)
    ensures r.Some? ==> r.value < |pending| && pending[r.value].request.id == id
    ensures r.None? <==> forall i :: 0 <= i < |pending| ==> pending[i].request.id != id
  {
    if pending == [] then None
    else
      var earlier := FindPending(pending[..|pending| - 1], id);
      if earlier.Some? then earlier
      else if pending[|pending| - 1].request.id == id then Some(|pending| - 1)
      else None
  }

  function FindDecision(outbox: seq<Decision>, id: nat): (r: Option<Decision>)
    ensures r.Some? ==> r.value in outbox && r.value.requestId == id
    ensures r.None? <==> forall i :: 0 <= i < |outbox| ==> outbox[i].requestId != id
  {
    if outbox == [] then None
    else
      var earlier := FindDecision(outbox[..|outbox| - 1], id);
      if earlier.Some? then earlier
      else if outbox[|outbox| - 1].requestId == id then Some(outbox[|outbox| - 1])
      else None
  }

  /** The positions a prefix selects. */
  function Matches<T>(items: seq<T>, selects: T -> bool): seq<nat> {
    if items == [] then []
    else Matches(items[..|items| - 1], selects) + (if selects(items[|items| - 1]) then [|items| - 1] else [])
  }

  /** `unique_index` and `unique_grant`: the one position a prefix selects. */
  function UniqueIndex<T>(items: seq<T>, selects: T -> bool): Option<nat> {
    var matches := Matches(items, selects);
    if |matches| == 1 then Some(matches[0]) else None
  }

  // ---------------------------------------------------------------- operations

  function AddApproved(s: State, grant: Grant): Change {
    if SearchFinds(s.revoked, grant) then Aborted
    else if grant in s.approved then Changed(s)
    else
      Changed(s.(approved := SortBy(s.approved + [grant], GrantRank),
                 historyOutbox := SortBy(s.historyOutbox + [grant], GrantRank)))
  }

  function QueueDecision(s: State, d: Decision): Change {
    var existing := FindDecision(s.decisionOutbox, d.requestId);
    if existing.Some? then (if existing.value != d then Aborted else Changed(s))
    else Changed(s.(decisionOutbox := SortBy(s.decisionOutbox + [d], DecisionRank)))
  }

  /** Approve, then queue: the tail both approval paths share. */
  function GrantAndQueue(s: State, grant: Grant, d: Decision): Change {
    match AddApproved(s, grant)
    case Aborted => Aborted
    case Changed(next) => QueueDecision(next, d)
  }

  /** `decide` on the request at one position. */
  function DecideAt(publisher: Identity, s: State, index: nat, approve: bool, now: i64): Change
    requires index < |s.pending|
  {
    var p := s.pending[index];
    var made :=
      if !approve then Reject(publisher, p.request, now)
      else if p.confirmation.None? then Err(NoConfirmation)
      else ApproveManual(publisher, p.request, p.offer, p.confirmation.value, now);
    if made.Err? then Aborted
    else
      match (if approve then GrantAndQueue(s, GrantOf(p.request), made.value) else QueueDecision(s, made.value))
      case Aborted => Aborted
      case Changed(next) =>
        Changed(next.(pending := RemoveAt(next.pending, index),
                      offerOutbox := Retain(next.offerOutbox, id => id != p.request.id)))
  }

  function Decide(publisher: Identity, s: State, selects: nat -> bool, approve: bool, now: i64): Change {
    match UniqueIndex(s.pending, (p: Pending) => selects(p.request.id))
    case None => Aborted
    case Some(index) => if index < |s.pending| then DecideAt(publisher, s, index, approve, now) else Aborted
  }

  /** The `Revoke` command. */
  function Revoke(s: State, stream: nat, selects: Identity -> bool): Change {
    match UniqueIndex(s.approved, (g: Grant) => g.stream == stream && selects(g.viewer))
    case None => Aborted
    case Some(index) =>
      if index >= |s.approved| then Aborted
      else
        var removed := s.approved[index];
        Changed(s.(approved := RemoveAt(s.approved, index),
                   revoked := if removed in s.revoked then s.revoked else SortBy(s.revoked + [removed], GrantRank),
                   historyOutbox := Retain(s.historyOutbox, (g: Grant) => g != removed)))
  }

  /** Viewer policy; `trusts` stands for a present credential that verifies against the authority. */
  datatype Policy = Required | Open | TrustedCa(trusts: PairRequest -> bool)

  /** What one refresh takes from outside. Each request has its own nonce, the source address it was
      delivered with, and the clock readings at which it was verified and answered. */
  datatype Context = Context(
    publisher: Identity, relayContext: nat, policy: Policy, nonces: PairRequest -> nat, sources: PairRequest -> nat,
    checkedAt: PairRequest -> i64, answeredAt: PairRequest -> i64)

  function PolicyReason(policy: Policy): Reason {
    if policy.Open? then OpenPolicy else TrustedViewerCa
  }

  /** A request that the policy approves at once. */
  function ApproveAtOnce(context: Context, s: State, q: PairRequest): Change {
    match ApproveByPolicy(context.publisher, q, PolicyReason(context.policy), context.answeredAt(q))
    case Err(_) => Aborted
    case Ok(d) => GrantAndQueue(s, GrantOf(q), d)
  }

  /** A request that waits for the humans: it becomes pending with a fresh offer. */
  function OfferTo(context: Context, s: State, q: PairRequest): Change {
    match NewOffer(context.publisher, q, context.relayContext, context.nonces(q), context.answeredAt(q), q.expiresAt,
                   PAIR_LIFETIME_MS)
    case Err(_) => Aborted
    case Ok(offer) =>
      Changed(s.(pending := s.pending + [Pending(q, offer, None, context.sources(q))],
                 offerOutbox := if q.id in s.offerOutbox then s.offerOutbox else SortBy(s.offerOutbox + [q.id],
                     IdRank)))
  }

  /** One request of the inbox. */
  function TakeRequest(context: Context, s: State, q: PairRequest): Change {
    if VerifyRequest(q, context.checkedAt(q), PAIR_LIFETIME_MS).Failed? then Aborted
    else if GrantOf(q) in s.revoked || FindPending(s.pending, q.id).Some? then Changed(s)
    else if context.policy.Required? then OfferTo(context, s, q)
    else if context.policy.TrustedCa? && !context.policy.trusts(q) then Changed(s)
    else ApproveAtOnce(context, s, q)
  }

  /** One confirmation of the inbox. */
  function TakeConfirmation(s: State, c: Confirmation): Change {
    match FindPending(s.pending, c.requestId)
    case None => Changed(s)
    case Some(i) =>
      if VerifyConfirmation(c, s.pending[i].request, s.pending[i].offer).Failed? then Aborted
      else Changed(s.(pending := s.pending[i := s.pending[i].(confirmation := Some(c))]))
  }

  function TakeRequests(context: Context, s: State, requests: seq<PairRequest>): Change {
    if requests == [] then Changed(s)
    else
      match TakeRequests(context, s, requests[..|requests| - 1])
      case Aborted => Aborted
      case Changed(next) => TakeRequest(context, next, requests[|requests| - 1])
  }

  function TakeConfirmations(s: State, confirmations: seq<Confirmation>): Change {
    if confirmations == [] then Changed(s)
    else
      match TakeConfirmations(s, confirmations[..|confirmations| - 1])
      case Aborted => Aborted
      case Changed(next) => TakeConfirmation(next, confirmations[|confirmations| - 1])
  }

  /** `refresh_requests`: all of the inbox or nothing. */
  function Refresh(context: Context, s: State, requests: seq<PairRequest>, confirmations: seq<Confirmation>): Change {
    match TakeRequests(context, s, requests)
    case Aborted => Aborted
    case Changed(next) =>
      match TakeConfirmations(next, confirmations)
      case Aborted => Aborted
      case Changed(last) => Changed(last.(pending := SortBy(last.pending, PendingRank)))
  }

  function PopOffer(s: State): Change {
    if s.offerOutbox == [] then Aborted else Changed(s.(offerOutbox := s.offerOutbox[1..]))
  }

  function PopDecision(s: State): Change {
    if s.offerOutbox != [] || s.decisionOutbox == [] then Aborted
    else Changed(s.(decisionOutbox := s.decisionOutbox[1..]))
  }

  function QueueLength(s: State): nat {
    |s.offerOutbox| + |s.decisionOutbox|
  }

  /** The state once the first `n` queued records, offers before decisions, are gone. */
  function Flushed(s: State, n: nat): State
    requires n <= QueueLength(s)
  {
    if n <= |s.offerOutbox| then s.(offerOutbox := s.offerOutbox[n..])
    else s.(offerOutbox := [], decisionOutbox := s.decisionOutbox[n - |s.offerOutbox|..])
  }

  /** Flushing is popping one acknowledged record after another. */
  lemma FlushIsPopping(s: State, n: nat)
    requires n < QueueLength(s)
    ensures Changed(Flushed(s, n + 1))
            == if n < |s.offerOutbox| then PopOffer(Flushed(s, n)) else PopDecision(Flushed(s, n))
    ensures n < |s.offerOutbox| ==> PopDecision(Flushed(s, n)).Aborted?
  {
    if n < |s.offerOutbox| {
      assert s.offerOutbox[n..][1..] == s.offerOutbox[n + 1..];
    } else {
      var k := n - |s.offerOutbox|;
      assert s.decisionOutbox[k..][1..] == s.decisionOutbox[k + 1..];
    }
  }

  /** A grant whose retained keys were delivered. */
  function PopHistory(s: State, grant: Grant): Change {
    Changed(s.(historyOutbox := Retain(s.historyOutbox, (g: Grant) => g != grant)))
  }

  /** Loading a version 2 state. */
  function Migrated(pending: seq<Pending>, approved: seq<Grant>, revoked: seq<Grant>): State {
    State(pending, approved, revoked, [], [], approved)
  }

  predicate WithinBounds(s: State) {
    && |s.pending| <= MAX_RECORDS && |s.approved| <= MAX_RECORDS && |s.revoked| <= MAX_RECORDS
    && |s.offerOutbox| <= MAX_RECORDS && |s.decisionOutbox| <= MAX_RECORDS && |s.historyOutbox| <= MAX_RECORDS
  }

  /** Every neighbouring pair rises, as `windows(2)` checks. */
  predicate Rising<T>(s: seq<T>, rank: T -> Rank) {
    forall i :: 0 <= i < |s| - 1 ==> Below(rank(s[i]), rank(s[i + 1]))
  }

  /** `validate_state`. */
  predicate ValidateState(s: State) {
    && WithinBounds(s)
    && Rising(s.offerOutbox, IdRank) && Rising(s.decisionOutbox, DecisionRank) && Rising(s.historyOutbox, GrantRank)
    && forall k :: 0 <= k < |s.offerOutbox| ==> FindPending(s.pending, s.offerOutbox[k]).Some?
  }

  datatype Record = OfferRecord(offer: PairOffer) | DecisionRecord(decision: Decision)

  /** The record a flush sends when `k` records are gone. */
  function QueuedAt(s: State, k: nat): Record
    requires ValidateState(s) && k < QueueLength(s)
  {
    if k < |s.offerOutbox| then OfferRecord(s.pending[FindPending(s.pending, s.offerOutbox[k]).value].offer)
    else DecisionRecord(s.decisionOutbox[k - |s.offerOutbox|])
  }

  function Least(a: nat, b: nat): nat {
    if a < b then a else b
  }

  // ---------------------------------------------------------------- the state in memory

  class Publisher {
    const publisher: Identity
    var pending: seq<Pending>
    var approved: seq<Grant>
    var revoked: seq<Grant>
    var offerOutbox: seq<nat>
    var decisionOutbox: seq<Decision>
    var historyOutbox: seq<Grant>
    var saved: State
    /** The records the relay acknowledged. */
    var delivered: seq<Record>
    /** How many more acknowledgements arrive, and how many more times the file can be replaced. */
    var acks: nat
    var replacements: nat

    function Contents(): State
      reads this
    {
      State(pending, approved, revoked, offerOutbox, decisionOutbox, historyOutbox)
    }

    constructor (publisher: Identity, s: State, acks: nat, replacements: nat)
      ensures Contents() == s && saved == s && this.publisher == publisher && delivered == []
      ensures this.acks == acks && this.replacements == replacements
    {
      this.publisher, saved, delivered, this.acks, this.replacements := publisher, s, [], acks, replacements;
      pending, approved, revoked := s.pending, s.approved, s.revoked;
      offerOutbox, decisionOutbox, historyOutbox := s.offerOutbox, s.decisionOutbox, s.historyOutbox;
    }

    method Approve(grant: Grant) returns (ok: bool)
      modifies this`approved, this`historyOutbox
      ensures ok <==> AddApproved(old(Contents()), grant).Changed?
      ensures ok ==> Changed(Contents()) == AddApproved(old(Contents()), grant)
    {
      var found := BinarySearch(GrantRanks(revoked), GrantRank(grant));
      if found {
        return false;
      }
      if grant !in approved {
        approved := SortBy(approved + [grant], GrantRank);
        historyOutbox := SortBy(historyOutbox + [grant], GrantRank);
      }
      return true;
    }

    method Queue(d: Decision) returns (ok: bool)
      modifies this`decisionOutbox
      ensures ok <==> QueueDecision(old(Contents()), d).Changed?
      ensures ok ==> Changed(Contents()) == QueueDecision(old(Contents()), d)
    {
      var existing := FindDecision(decisionOutbox, d.requestId);
      if existing.Some? {
        return existing.value == d;
      }
      decisionOutbox := SortBy(decisionOutbox + [d], DecisionRank);
      return true;
    }

    method DecideRequest(selects: nat -> bool, approve: bool, now: i64) returns (ok: bool)
      modifies this
      ensures ok <==> Decide(publisher, old(Contents()), selects, approve, now).Changed?
      ensures ok ==> Changed(Contents()) == Decide(publisher, old(Contents()), selects, approve, now)
    {
      var index := UniqueIndex(pending, (p: Pending) => selects(p.request.id));
      if index.None? || index.value >= |pending| {
        return false;
      }
      var p := pending[index.value];
      var made: Result<Decision, PairError> := Reject(publisher, p.request, now);
      if approve {
        if p.confirmation.None? {
          return false;
        }
        made := ApproveManual(publisher, p.request, p.offer, p.confirmation.value, now);
      }
      if made.Err? {
        return false;
      }
      if approve {
        ok := Approve(GrantOf(p.request));
        if !ok {
          return;
        }
      }
      ok := Queue(made.value);
      if !ok {
        return;
      }
      pending := RemoveAt(pending, index.value);
      offerOutbox := Retain(offerOutbox, id => id != p.request.id);
    }

    method RevokeGrant(stream: nat, selects: Identity -> bool) returns (ok: bool)
      modifies this
      ensures ok <==> Revoke(old(Contents()), stream, selects).Changed?
      ensures ok ==> Changed(Contents()) == Revoke(old(Contents()), stream, selects)
    {
      var index := UniqueIndex(approved, (g: Grant) => g.stream == stream && selects(g.viewer));
      if index.None? || index.value >= |approved| {
        return false;
      }
      var removed := approved[index.value];
      approved := RemoveAt(approved, index.value);
      if removed !in revoked {
        revoked := SortBy(revoked + [removed], GrantRank);
      }
      historyOutbox := Retain(historyOutbox, (g: Grant) => g != removed);
      return true;
    }

    method TakeOne(context: Context, q: PairRequest) returns (ok: bool)
      requires context.publisher == publisher
      modifies this
      ensures ok <==> TakeRequest(context, old(Contents()), q).Changed?
      ensures ok ==> Changed(Contents()) == TakeRequest(context, old(Contents()), q)
    {
      var checked := VerifyRequest(q, context.checkedAt(q), PAIR_LIFETIME_MS);
      if checked.Failed? {
        return false;
      }
      if GrantOf(q) in revoked || FindPending(pending, q.id).Some? {
        return true;
      }
      if context.policy.Required? {
        var made := NewOffer(publisher, q, context.relayContext, context.nonces(q), context.answeredAt(q), q.expiresAt,
                             PAIR_LIFETIME_MS);
        if made.Err? {
          return false;
        }
        pending := pending + [Pending(q, made.value, None, context.sources(q))];
        if q.id !in offerOutbox {
          offerOutbox := SortBy(offerOutbox + [q.id], IdRank);
        }
        return true;
      }
      if context.policy.TrustedCa? && !context.policy.trusts(q) {
        return true;
      }
      var decided := ApproveByPolicy(publisher, q, PolicyReason(context.policy), context.answeredAt(q));
      if decided.Err? {
        return false;
      }
      ok := Approve(GrantOf(q));
      if ok {
        ok := Queue(decided.value);
      }
    }

    /** `refresh_requests`, given the inbox the relay sent. */
    method RefreshRequests(
      context: Context, requests: seq<PairRequest>, confirmations: seq<Confirmation>)
      returns (ok: bool)
      requires context.publisher == publisher
      modifies this
      ensures ok <==> Refresh(context, old(Contents()), requests, confirmations).Changed?
      ensures ok ==> Changed(Contents()) == Refresh(context, old(Contents()), requests, confirmations)
    {
      hide TakeRequest, TakeConfirmation;
      ghost var start := Contents();
      for k := 0 to |requests|
        invariant TakeRequests(context, start, requests[..k]) == Changed(Contents())
      {
        assert requests[..k + 1][..k] == requests[..k];
        ok := TakeOne(context, requests[k]);
        if !ok {
          RequestsStayAborted(context, start, requests, k + 1);
          return;
        }
      }
      assert requests[..|requests|] == requests;
      ghost var middle := Contents();
      for k := 0 to |confirmations|
        invariant TakeConfirmations(middle, confirmations[..k]) == Changed(Contents())
      {
        assert confirmations[..k + 1][..k] == confirmations[..k];
        ok := TakeOneConfirmation(confirmations[k]);
        if !ok {
          ConfirmationsStayAborted(middle, confirmations, k + 1);
          return;
        }
      }
      assert confirmations[..|confirmations|] == confirmations;
      pending := SortBy(pending, PendingRank);
      return true;
    }

    /** `save_state_unlocked`: an invalid state is refused, and replacing the file may fail. */
    method Save() returns (ok: bool)
      modifies this`saved, this`replacements
      ensures ok <==> ValidateState(Contents()) && old(replacements) > 0
      ensures saved == if ok then Contents() else old(saved)
      ensures replacements == if ok then old(replacements) - 1 else old(replacements)
    {
      if !ValidateState(Contents()) || replacements == 0 {
        return false;
      }
      saved, replacements := Contents(), replacements - 1;
      return true;
    }

    /** Send one record to the relay and wait for its acknowledgement. */
    method SendAndWait(record: Record) returns (acked: bool)
      modifies this`delivered, this`acks
      ensures acked <==> old(acks) > 0
      ensures delivered == if acked then old(delivered) + [record] else old(delivered)
      ensures acks == if acked then old(acks) - 1 else 0
    {
      if acks == 0 {
        return false;
      }
      delivered, acks := delivered + [record], acks - 1;
      return true;
    }

    /** Where a flush stands: `count` queued records were acknowledged, in order, and the saved state has as
        many of them gone as the file was replaced. */
    ghost predicate Flushing(
      start: State, was: seq<Record>, hadAcks: nat, hadReplacements: nat, count: nat, saves: nat)
      reads this
    {
      && ValidateState(start) && saves <= count <= QueueLength(start) && count <= hadAcks && saves <= hadReplacements
      && Contents() == Flushed(start, count) && saved == Flushed(start, saves)
      && acks == hadAcks - count && replacements == hadReplacements - saves
      && |delivered| == |was| + count && was <= delivered
      && forall k :: 0 <= k < count ==> delivered[|was| + k] == QueuedAt(start, k)
    }

    /** Send the first queued record, pop it once it is acknowledged, and save. */
    method FlushFirst(
      ghost start: State, ghost was: seq<Record>, ghost hadAcks: nat, ghost hadReplacements: nat, ghost count: nat)
      returns (ok: bool, acked: bool)
      requires Flushing(start, was, hadAcks, hadReplacements, count, count)
      requires offerOutbox != [] || decisionOutbox != []
      modifies this
      ensures count < QueueLength(start) && (acked <==> count < hadAcks) && (ok <==> acked && count < hadReplacements)
      ensures Flushing(start, was, hadAcks, hadReplacements, if acked then count + 1 else count,
                       if ok then count + 1 else count)
      ensures |offerOutbox| <= old(|offerOutbox|) && |decisionOutbox| <= old(|decisionOutbox|)
      ensures ok ==> |offerOutbox| + |decisionOutbox| < old(|offerOutbox| + |decisionOutbox|)
    {
      hide ValidateState, Flushed, QueuedAt;
      if offerOutbox != [] {
        NextOffer(start, count);
        var offer := FindPending(pending, offerOutbox[0]);
        acked := SendAndWait(OfferRecord(pending[offer.value].offer));
        if acked {
          offerOutbox := offerOutbox[1..];
        }
      } else {
        NextDecision(start, count);
        acked := SendAndWait(DecisionRecord(decisionOutbox[0]));
        if acked {
          decisionOutbox := decisionOutbox[1..];
        }
      }
      ok := acked;
      if acked {
        ok := Save();
      }
    }

    /** `flush_outbox`: offers before decisions, each popped only after its acknowledgement and saved before
        the next is sent. */
    method FlushOutbox() returns (ok: bool, count: nat)
      requires saved == Contents() && ValidateState(Contents())
      modifies this
      ensures var n := QueueLength(old(Contents()));
              && count == Least(Least(n, old(acks)), old(replacements) + 1)
              && (ok <==> n <= old(acks) && n <= old(replacements))
              && Flushing(old(Contents()), old(delivered), old(acks), old(replacements), count,
                          Least(count, old(replacements)))
    {
      hide ValidateState, Flushed, QueuedAt;
      ghost var start, was, hadAcks, hadReplacements := Contents(), delivered, acks, replacements;
      count := 0;
      NothingFlushed(start);
      while offerOutbox != [] || decisionOutbox != []
        invariant count <= hadReplacements && Flushing(start, was, hadAcks, hadReplacements, count, count)
        decreases |offerOutbox| + |decisionOutbox|
      {
        var acked: bool;
        ok, acked := FlushFirst(start, was, hadAcks, hadReplacements, count);
        count := if acked then count + 1 else count;
        if !ok {
          return;
        }
      }
      AllFlushed(start, count);
      return true, count;
    }

    method TakeOneConfirmation(c: Confirmation) returns (ok: bool)
      modifies this
      ensures ok <==> TakeConfirmation(old(Contents()), c).Changed?
      ensures ok ==> Changed(Contents()) == TakeConfirmation(old(Contents()), c)
    {
      var found := FindPending(pending, c.requestId);
      if found.Some? {
        var p := pending[found.value];
        if VerifyConfirmation(c, p.request, p.offer).Failed? {
          return false;
        }
        pending := pending[found.value := p.(confirmation := Some(c))];
      }
      return true;
    }
  }

  lemma NothingFlushed(s: State)
    ensures Flushed(s, 0) == s
  {
    assert s.offerOutbox[0..] == s.offerOutbox;
  }

  /** The first offer left is the record a flush sends next, and a valid state without it is valid. */
  lemma NextOffer(s: State, k: nat)
    requires ValidateState(s) && k <= QueueLength(s) && Flushed(s, k).offerOutbox != []
    ensures var now := Flushed(s, k);
            && k < QueueLength(s) && ValidateState(Flushed(s, k + 1))
            && FindPending(now.pending, now.offerOutbox[0]).Some?
            && QueuedAt(s, k) == OfferRecord(now.pending[FindPending(now.pending, now.offerOutbox[0]).value].offer)
            && now.(offerOutbox := now.offerOutbox[1..]) == Flushed(s, k + 1)
  {
    hide FindPending;
    assert s.offerOutbox[k..][1..] == s.offerOutbox[k + 1..];
    FlushedIsValid(s, k + 1);
  }

  lemma NextDecision(s: State, k: nat)
    requires ValidateState(s) && k <= QueueLength(s)
    requires Flushed(s, k).offerOutbox == [] && Flushed(s, k).decisionOutbox != []
    ensures var now := Flushed(s, k);
            && k < QueueLength(s) && ValidateState(Flushed(s, k + 1))
            && QueuedAt(s, k) == DecisionRecord(now.decisionOutbox[0])
            && now.(decisionOutbox := now.decisionOutbox[1..]) == Flushed(s, k + 1)
  {
    hide FindPending;
    FlushedIsValid(s, k + 1);
  }

  lemma FlushedIsValid(s: State, k: nat)
    requires ValidateState(s) && k <= QueueLength(s)
    ensures ValidateState(Flushed(s, k))
  {
    hide FindPending, Below;
    var next := Flushed(s, k);
    var offers := |s.offerOutbox| - |next.offerOutbox|;
    var decisions := |s.decisionOutbox| - |next.decisionOutbox|;
    assert forall i :: 0 <= i < |next.offerOutbox| ==> next.offerOutbox[i] == s.offerOutbox[offers + i];
    assert forall i :: 0 <= i < |next.decisionOutbox| ==> next.decisionOutbox[i] == s.decisionOutbox[decisions + i];
  }

  lemma AllFlushed(s: State, k: nat)
    requires k <= QueueLength(s) && Flushed(s, k).offerOutbox == [] && Flushed(s, k).decisionOutbox == []
    ensures k == QueueLength(s)
  {
  }

  lemma {:induction false} RequestsStayAborted(context: Context, s: State, requests: seq<PairRequest>, k: nat)
    requires k <= |requests| && TakeRequests(context, s, requests[..k]).Aborted?
    ensures TakeRequests(context, s, requests).Aborted?
    decreases |requests| - k
  {
    hide TakeRequest;
    if k == |requests| {
      assert requests[..k] == requests;
    } else {
      assert requests[..k + 1][..k] == requests[..k];
      RequestsStayAborted(context, s, requests, k + 1);
    }
  }

  lemma {:induction false} ConfirmationsStayAborted(s: State, confirmations: seq<Confirmation>, k: nat)
    requires k <= |confirmations| && TakeConfirmations(s, confirmations[..k]).Aborted?
    ensures TakeConfirmations(s, confirmations).Aborted?
    decreases |confirmations| - k
  {
    hide TakeConfirmation;
    if k == |confirmations| {
      assert confirmations[..k] == confirmations;
    } else {
      assert confirmations[..k + 1][..k] == confirmations[..k];
      ConfirmationsStayAborted(s, confirmations, k + 1);
    }
  }
}
