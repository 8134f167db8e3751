/** What every run of publisher commands keeps: the invariant of the saved state. */
module PublisherRuns {
  import opened MachineInts
  import opened Wrappers
  import opened PairingRecords
  import opened Ordering
  import opened PublisherState

  // ---------------------------------------------------------------- the invariant

  /** Grants and revocations are sorted and disjoint, and retained keys are queued only for grants. */
  predicate GrantsSound(s: State) {
    && StrictlyOrdered(s.approved, GrantRank) && StrictlyOrdered(s.revoked, GrantRank)
    && StrictlyOrdered(s.historyOutbox, GrantRank)
    && (forall g :: g in s.approved ==> g !in s.revoked)
    && (forall g :: g in s.historyOutbox ==> g in s.approved)
  }

  predicate PendingFits(publisher: Identity, p: Pending) {
    && p.request.publisher == publisher && OfferFits(p.offer, p.request)
    && (p.confirmation.Some? ==> VerifyConfirmation(p.confirmation.value, p.request, p.offer) == Passed)
  }

  function PendingIds(pending: seq<Pending>): set<nat> {
    set p | p in pending :: p.request.id
  }

  predicate DistinctPending(pending: seq<Pending>) {
    forall i, j :: 0 <= i < j < |pending| ==> pending[i].request.id != pending[j].request.id
  }

  /** Pending ceremonies are distinct and verified, and every queued offer belongs to one of them. */
  predicate CeremoniesSound(publisher: Identity, s: State) {
    && DistinctPending(s.pending)
    && (forall p :: p in s.pending ==> PendingFits(publisher, p))
    && StrictlyOrdered(s.offerOutbox, IdRank)
    && forall id :: id in s.offerOutbox ==> id in PendingIds(s.pending)
  }

  /** Queued decisions are signed, one per request, and their requests are no longer pending. */
  predicate DecisionsSound(publisher: Identity, s: State) {
    && StrictlyOrdered(s.decisionOutbox, DecisionRank)
    && forall d :: d in s.decisionOutbox ==>
                     d.requestId !in PendingIds(s.pending) && DecisionMetadata(d) == Passed && d.signedBy == publisher
  }

  /** What also holds in the middle of a refresh. */
  predicate Sound(publisher: Identity, s: State) {
    GrantsSound(s) && CeremoniesSound(publisher, s) && DecisionsSound(publisher, s)
  }

  /** What holds of every saved state. */
  predicate Valid(publisher: Identity, s: State) {
    Sound(publisher, s) && StrictlyOrdered(s.pending, PendingRank)
  }

  // ---------------------------------------------------------------- grants

  /** On a sorted revocation list the binary search is membership. */
  lemma SearchIsMember(revoked: seq<Grant>, grant: Grant)
    requires StrictlyOrdered(revoked, GrantRank)
    ensures SearchFinds(revoked, grant) <==> grant in revoked
  {
    var ranks := GrantRanks(revoked);
    assert forall i, j :: 0 <= i < j < |ranks| ==> Below(ranks[i], ranks[j]);
    SearchIsMembership(ranks, GrantRank(grant), 0, |ranks|);
    if grant in revoked {
      var k :| 0 <= k < |revoked| && revoked[k] == grant;
      assert ranks[k] == GrantRank(grant);
    }
  }

  lemma AddGrant(grants: seq<Grant>, g: Grant)
    requires StrictlyOrdered(grants, GrantRank) && g !in grants
    ensures StrictlyOrdered(SortBy(grants + [g], GrantRank), GrantRank)
    ensures forall x :: x in SortBy(grants + [g], GrantRank) <==> x in grants || x == g
  {
    assert forall y :: y in grants ==> GrantRank(y) != GrantRank(g);
    PushAndSort(grants, g, GrantRank);
  }

  /** Approval refuses exactly the revoked grants, and otherwise adds exactly this one. */
  lemma AddApprovedIs(s: State, g: Grant)
    requires GrantsSound(s)
    ensures AddApproved(s, g).Aborted? <==> g in s.revoked
    ensures AddApproved(s, g).Changed? ==>
              var next := AddApproved(s, g).state;
              && GrantsSound(next)
              && (forall x :: x in next.approved <==> x in s.approved || x == g)
              && (forall x :: x in next.historyOutbox <==> x in s.historyOutbox || (x == g && g !in s.approved))
              && next == s.(approved := next.approved, historyOutbox := next.historyOutbox)
  {
    hide SearchFinds, StrictlyOrdered, SortBy;
    SearchIsMember(s.revoked, g);
    if g !in s.approved {
      AddGrant(s.approved, g);
      AddGrant(s.historyOutbox, g);
    }
  }

  lemma WithoutGrant(grants: seq<Grant>, removed: Grant)
    requires StrictlyOrdered(grants, GrantRank)
    ensures StrictlyOrdered(Retain(grants, (g: Grant) => g != removed), GrantRank)
    ensures forall x :: x in Retain(grants, (g: Grant) => g != removed) <==> x in grants && x != removed
  {
    RetainOrders(grants, (g: Grant) => g != removed, GrantRank);
    forall x
      ensures x in Retain(grants, (g: Grant) => g != removed) <==> x in grants && x != removed
    {
      RetainMembers(grants, (g: Grant) => g != removed, x);
    }
  }

  /** Revocation succeeds exactly when one grant of that stream is selected; it moves that grant from approved
      to revoked and unqueues it. */
  lemma RevokeIs(s: State, stream: nat, selects: Identity -> bool)
    requires GrantsSound(s)
    ensures Revoke(s, stream, selects).Changed? <==> exists g :: OnlyMatch(s.approved, stream, selects, g)
    ensures Revoke(s, stream, selects).Changed? ==>
              var next := Revoke(s, stream, selects).state;
              && GrantsSound(next)
              && (exists g :: && OnlyMatch(s.approved, stream, selects, g)
                              && (forall x :: x in next.approved <==> x in s.approved && x != g)
                              && (forall x :: x in next.revoked <==> x in s.revoked || x == g)
                              && (forall x :: x in next.historyOutbox <==> x in s.historyOutbox && x != g))
              && next == s.(approved := next.approved, revoked := next.revoked, historyOutbox := next.historyOutbox)
  {
    OnlyMatchIsUnique(s.approved, stream, selects);
    hide GrantsSound, UniqueIndex, OnlyMatch, SortBy, Retain, RemoveAt;
    var index := UniqueIndex(s.approved, (g: Grant) => g.stream == stream && selects(g.viewer));
    if index.Some? {
      MovesOut(s, index.value);
    }
  }

  /** The one grant of the stream whose viewer the prefix selects. */
  predicate OnlyMatch(grants: seq<Grant>, stream: nat, selects: Identity -> bool, g: Grant) {
    && g in grants && g.stream == stream && selects(g.viewer)
    && forall x :: x in grants && x.stream == stream && selects(x.viewer) ==> x == g
  }

  lemma OnlyMatchIsUnique(grants: seq<Grant>, stream: nat, selects: Identity -> bool)
    requires StrictlyOrdered(grants, GrantRank)
    ensures var index := UniqueIndex(grants, (g: Grant) => g.stream == stream && selects(g.viewer));
            && (index.Some? ==> index.value < |grants| && OnlyMatch(grants, stream, selects, grants[index.value]))
            && (index.None? ==> !exists g :: OnlyMatch(grants, stream, selects, g))
  {
    hide UniqueIndex;
    UniqueIndexSelects(grants, (g: Grant) => g.stream == stream && selects(g.viewer));
    assert forall i, j :: 0 <= i < j < |grants| ==> grants[i] != grants[j];
  }

  lemma MovesOut(s: State, index: nat)
    requires GrantsSound(s) && index < |s.approved|
    ensures var g := s.approved[index];
            var approved, revoked := RemoveAt(s.approved, index), SortBy(s.revoked + [g], GrantRank);
            var history := Retain(s.historyOutbox, (x: Grant) => x != g);
            && g !in s.revoked
            && GrantsSound(s.(approved := approved, revoked := revoked, historyOutbox := history))
            && (forall x :: x in approved <==> x in s.approved && x != g)
            && (forall x :: x in revoked <==> x in s.revoked || x == g)
            && (forall x :: x in history <==> x in s.historyOutbox && x != g)
  {
    hide StrictlyOrdered, SortBy, Retain;
    var g := s.approved[index];
    RemoveAtOrders(s.approved, index, GrantRank);
    WithoutGrant(s.historyOutbox, g);
    AddGrant(s.revoked, g);
  }

  /** A unique match is selected and no other position is. */
  lemma UniqueIndexSelects<T>(items: seq<T>, selects: T -> bool)
    ensures UniqueIndex(items, selects).Some? ==>
              var k := UniqueIndex(items, selects).value;
              k < |items| && selects(items[k]) && forall i :: 0 <= i < |items| && i != k ==> !selects(items[i])
    ensures UniqueIndex(items, selects).None? ==>
              (forall i :: 0 <= i < |items| ==> !selects(items[i]))
              || exists i, j :: 0 <= i < j < |items| && selects(items[i]) && selects(items[j])
  {
    var matches := Matches(items, selects);
    MatchesAre(items, selects, matches);
    if |matches| >= 2 {
      assert matches[0] < matches[1] && selects(items[matches[0]]) && selects(items[matches[1]]);
    } else if |matches| == 1 {
      assert matches == [matches[0]] && selects(items[matches[0]]);
      assert UniqueIndex(items, selects) == Some(matches[0]);
    }
  }

  lemma {:induction false} MatchesAre<T>(items: seq<T>, selects: T -> bool, matches: seq<nat>)
    requires matches == Matches(items, selects)
    ensures && (forall k :: 0 <= k < |matches| ==> 0 <= matches[k] < |items| && selects(items[matches[k]]))
            && (forall j, k :: 0 <= j < k < |matches| ==> matches[j] < matches[k])
            && (forall i :: 0 <= i < |items| && selects(items[i]) ==> i in matches)
  {
    if items != [] {
      var earlier := Matches(items[..|items| - 1], selects);
      MatchesAre(items[..|items| - 1], selects, earlier);
      assert matches == earlier + (if selects(items[|items| - 1]) then [|items| - 1] else []);
      assert forall k :: 0 <= k < |earlier| ==> matches[k] == earlier[k] < |items| - 1;
      forall i | 0 <= i < |items| - 1 && selects(items[i])
        ensures i in matches
      {
        assert selects(items[..|items| - 1][i]);
      }
    }
  }

  // ---------------------------------------------------------------- decisions and offers

  /** Queueing refuses exactly a different decision for the same request, and otherwise adds exactly this one. */
  lemma QueueIs(s: State, d: Decision)
    requires StrictlyOrdered(s.decisionOutbox, DecisionRank)
    ensures QueueDecision(s, d).Aborted? <==> exists e :: e in s.decisionOutbox && e.requestId == d.requestId && e != d
    ensures QueueDecision(s, d).Changed? ==>
              var next := QueueDecision(s, d).state;
              && StrictlyOrdered(next.decisionOutbox, DecisionRank)
              && (forall x :: x in next.decisionOutbox <==> x in s.decisionOutbox || x == d)
              && next == s.(decisionOutbox := next.decisionOutbox)
  {
    var outbox := s.decisionOutbox;
    OneDecisionPerRequest(outbox);
    if FindDecision(outbox, d.requestId).None? {
      assert forall y :: y in outbox ==> DecisionRank(y) != DecisionRank(d);
      PushAndSort(outbox, d, DecisionRank);
    }
  }

  lemma OneDecisionPerRequest(outbox: seq<Decision>)
    requires StrictlyOrdered(outbox, DecisionRank)
    ensures forall d, e :: d in outbox && e in outbox && d.requestId == e.requestId ==> d == e
  {
    forall d, e | d in outbox && e in outbox && d.requestId == e.requestId
      ensures d == e
    {
      var i :| 0 <= i < |outbox| && outbox[i] == d;
      var j :| 0 <= j < |outbox| && outbox[j] == e;
    }
  }

  lemma PendingIdsOf(pending: seq<Pending>, id: nat)
    ensures id in PendingIds(pending) <==> FindPending(pending, id).Some?
  {
    if FindPending(pending, id).Some? {
      assert pending[FindPending(pending, id).value] in pending;
    }
  }

  lemma PushPending(publisher: Identity, s: State, p: Pending)
    requires Sound(publisher, s) && PendingFits(publisher, p)
    requires p.request.id !in PendingIds(s.pending) && forall d :: d in s.decisionOutbox ==> d.requestId != p.request.id
    ensures var outbox := if p.request.id in s.offerOutbox then s.offerOutbox
                          else SortBy(s.offerOutbox + [p.request.id], IdRank);
            var next := s.(pending := s.pending + [p], offerOutbox := outbox);
            && Sound(publisher, next)
            && PendingIds(next.pending) == PendingIds(s.pending) + {p.request.id}
            && (forall id :: id in next.offerOutbox <==> id in s.offerOutbox || id == p.request.id)
  {
    hide StrictlyOrdered, SortBy, OfferFits;
    var pending := s.pending + [p];
    assert forall i :: 0 <= i < |s.pending| ==> s.pending[i] in s.pending;
    assert PendingIds(pending) == PendingIds(s.pending) + {p.request.id} by {
      assert p in pending;
    }
    assert forall y :: y in s.offerOutbox ==> IdRank(y) != IdRank(p.request.id);
    PushAndSort(s.offerOutbox, p.request.id, IdRank);
  }

  lemma NewOfferFits(
    publisher: Identity, q: PairRequest, relayContext: nat, nonce: nat, issuedAt: i64, expiresAt: i64, lifetime: i64)
    requires NewOffer(publisher, q, relayContext, nonce, issuedAt, expiresAt, lifetime).Ok?
    ensures var offer := NewOffer(publisher, q, relayContext, nonce, issuedAt, expiresAt, lifetime).value;
            forall source: nat :: PendingFits(publisher, Pending(q, offer, None, source))
  {
  }

  // ---------------------------------------------------------------- refresh

  /** Decisions queued by a refresh are for requests it does not keep pending. */
  predicate Undecided(s: State, q: PairRequest) {
    forall d :: d in s.decisionOutbox ==> d.requestId != q.id
  }

  /** Either the policy decides every request of a refresh or it makes all of them pending. */
  predicate OnePath(context: Context, s: State) {
    context.policy.Required? ==> s.decisionOutbox == []
  }

  lemma TakeRequestKeeps(context: Context, s: State, q: PairRequest)
    requires Sound(context.publisher, s) && OnePath(context, s) && TakeRequest(context, s, q).Changed?
    ensures var next := TakeRequest(context, s, q).state;
            && Sound(context.publisher, next) && OnePath(context, next)
            && next.revoked == s.revoked
            && (context.policy.Required? ==> next.approved == s.approved && next.historyOutbox == s.historyOutbox)
  {
    hide SortBy, OfferFits, VerifyRequest, NewOffer, GrantsSound, SearchFinds;
    PendingIdsOf(s.pending, q.id);
    if || VerifyRequest(q, context.checkedAt(q), PAIR_LIFETIME_MS).Failed?
       || GrantOf(q) in s.revoked || FindPending(s.pending, q.id).Some? {
    } else if context.policy.Required? {
      var made := NewOffer(context.publisher, q, context.relayContext, context.nonces(q), context.answeredAt(q),
                           q.expiresAt, PAIR_LIFETIME_MS);
      NewOfferFits(context.publisher, q, context.relayContext, context.nonces(q), context.answeredAt(q), q.expiresAt,
                   PAIR_LIFETIME_MS);
      PushPending(context.publisher, s, Pending(q, made.value, None, context.sources(q)));
    } else if !(context.policy.TrustedCa? && !context.policy.trusts(q)) {
      var d := ApproveByPolicy(context.publisher, q, PolicyReason(context.policy), context.answeredAt(q)).value;
      GrantAndQueueKeeps(context.publisher, s, GrantOf(q), d);
    }
  }

  lemma GrantAndQueueKeeps(publisher: Identity, s: State, g: Grant, d: Decision)
    requires Sound(publisher, s) && GrantAndQueue(s, g, d).Changed?
    requires d.requestId !in PendingIds(s.pending) && DecisionMetadata(d) == Passed && d.signedBy == publisher
    ensures var next := GrantAndQueue(s, g, d).state;
            && Sound(publisher, next)
            && next
                == s.(approved := next.approved, historyOutbox := next.historyOutbox,
                       decisionOutbox := next.decisionOutbox)
  {
    hide SortBy, StrictlyOrdered, SearchFinds, AddApproved, QueueDecision, PendingFits;
    AddApprovedIs(s, g);
    QueueIs(AddApproved(s, g).state, d);
  }

  lemma {:induction false} TakeRequestsKeep(context: Context, s: State, requests: seq<PairRequest>)
    requires Sound(context.publisher, s) && OnePath(context, s) && TakeRequests(context, s, requests).Changed?
    ensures var next := TakeRequests(context, s, requests).state;
            && Sound(context.publisher, next) && next.revoked == s.revoked
            && OnePath(context, next)
            && (context.policy.Required? ==> next.approved == s.approved && next.historyOutbox == s.historyOutbox)
  {
    hide TakeRequest, Sound;
    if requests != [] {
      TakeRequestsKeep(context, s, requests[..|requests| - 1]);
      TakeRequestKeeps(context, TakeRequests(context, s, requests[..|requests| - 1]).state, requests[|requests| - 1]);
    }
  }

  lemma ConfirmPending(publisher: Identity, s: State, i: nat, c: Confirmation)
    requires Sound(publisher, s) && i < |s.pending|
    requires VerifyConfirmation(c, s.pending[i].request, s.pending[i].offer) == Passed
    ensures Sound(publisher, s.(pending := s.pending[i := s.pending[i].(confirmation := Some(c))]))
  {
    hide StrictlyOrdered, OfferFits, VerifyConfirmation;
    var p := s.pending[i].(confirmation := Some(c));
    var pending := s.pending[i := p];
    assert s.pending[i] in s.pending && pending[i] == p;
    forall id
      ensures id in PendingIds(pending) <==> id in PendingIds(s.pending)
    {
      if id == p.request.id {
        assert p in pending && s.pending[i] in s.pending;
      } else if id in PendingIds(s.pending) {
        var q :| q in s.pending && q.request.id == id;
        var k :| 0 <= k < |s.pending| && s.pending[k] == q;
        assert pending[k] == q;
      }
    }
  }

  lemma {:induction false} TakeConfirmationsKeep(publisher: Identity, s: State, confirmations: seq<Confirmation>)
    requires Sound(publisher, s) && TakeConfirmations(s, confirmations).Changed?
    ensures var next := TakeConfirmations(s, confirmations).state;
            Sound(publisher, next) && next == s.(pending := next.pending)
  {
    hide Sound, VerifyConfirmation, FindPending;
    if confirmations != [] {
      var most, c := confirmations[..|confirmations| - 1], confirmations[|confirmations| - 1];
      TakeConfirmationsKeep(publisher, s, most);
      var before := TakeConfirmations(s, most).state;
      var found := FindPending(before.pending, c.requestId);
      if found.Some? {
        ConfirmPending(publisher, before, found.value, c);
      }
    }
  }

  lemma {:induction false} SortPending(pending: seq<Pending>, sorted: seq<Pending>)
    requires DistinctPending(pending) && sorted == SortBy(pending, PendingRank)
    ensures StrictlyOrdered(sorted, PendingRank)
  {
    if pending != [] {
      var most, last := pending[..|pending| - 1], pending[|pending| - 1];
      var earlier := SortBy(most, PendingRank);
      SortPending(most, earlier);
      forall y | y in earlier
        ensures PendingRank(y) != PendingRank(last)
      {
        SortMembers(most, PendingRank, y);
        var k :| 0 <= k < |most| && most[k] == y;
        assert pending[k].request.id != pending[|pending| - 1].request.id;
      }
      InsertOrdersStrictly(earlier, last, PendingRank);
    }
  }

  lemma StrictIsDistinct(pending: seq<Pending>)
    requires StrictlyOrdered(pending, PendingRank)
    ensures DistinctPending(pending)
  {
    forall i, j | 0 <= i < j < |pending|
      ensures pending[i].request.id != pending[j].request.id
    {
      assert Below(PendingRank(pending[i]), PendingRank(pending[j]));
    }
  }

  lemma SortedIsValid(publisher: Identity, s: State)
    requires Sound(publisher, s)
    ensures Valid(publisher, s.(pending := SortBy(s.pending, PendingRank)))
  {
    hide SortBy, OfferFits;
    var sorted := SortBy(s.pending, PendingRank);
    SortPending(s.pending, sorted);
    forall p
      ensures p in sorted <==> p in s.pending
    {
      SortMembers(s.pending, PendingRank, p);
    }
    StrictIsDistinct(sorted);
    assert PendingIds(sorted) == PendingIds(s.pending);
  }

  /** A refresh, whatever the relay sends, leaves a valid state; the policy that asks the humans
      grants nothing. */
  lemma RefreshKeepsValid(context: Context, s: State, requests: seq<PairRequest>, confirmations: seq<Confirmation>)
    requires Valid(context.publisher, s) && s.decisionOutbox == []
    requires Refresh(context, s, requests, confirmations).Changed?
    ensures var next := Refresh(context, s, requests, confirmations).state;
            && Valid(context.publisher, next) && next.revoked == s.revoked
            && (context.policy.Required? ==> next.approved == s.approved && next.historyOutbox == s.historyOutbox)
  {
    hide TakeRequests, TakeConfirmations, Sound, SortBy;
    TakeRequestsKeep(context, s, requests);
    var middle := TakeRequests(context, s, requests).state;
    TakeConfirmationsKeep(context.publisher, middle, confirmations);
    SortedIsValid(context.publisher, TakeConfirmations(middle, confirmations).state);
  }

  // ---------------------------------------------------------------- decisions on pending requests

  /** A pending request can be denied always, and approved exactly when the viewer confirmed it and is
      not revoked for its stream. */
  lemma DecideSucceedsExactlyWhen(publisher: Identity, s: State, index: nat, approve: bool, now: i64)
    requires Valid(publisher, s) && index < |s.pending|
    ensures var p := s.pending[index];
            DecideAt(publisher, s, index, approve, now).Changed?
            <==> (approve ==> p.confirmation.Some? && GrantOf(p.request) !in s.revoked)
  {
    hide StrictlyOrdered, AddApproved, QueueDecision, Retain;
    var p := s.pending[index];
    assert p in s.pending;
    MadeForPending(publisher, p, now);
    if approve {
      if p.confirmation.Some? {
        AddApprovedIs(s, GrantOf(p.request));
        if GrantOf(p.request) !in s.revoked {
          QueueIs(AddApproved(s, GrantOf(p.request)).state,
                  ApproveManual(publisher, p.request, p.offer, p.confirmation.value, now).value);
        }
      }
    } else {
      QueueIs(s, Reject(publisher, p.request, now).value);
    }
  }

  lemma MadeForPending(publisher: Identity, p: Pending, now: i64)
    requires PendingFits(publisher, p)
    ensures var made := Reject(publisher, p.request, now);
            made.Ok? && Answers(publisher, p, made.value, false, now)
    ensures p.confirmation.Some? ==>
              var made := ApproveManual(publisher, p.request, p.offer, p.confirmation.value, now);
              made.Ok? && Answers(publisher, p, made.value, true, now)
  {
    if p.confirmation.Some? {
      MadeDecisionsVerify(publisher, p.request, p.offer, p.confirmation.value, Rejected, now);
    }
  }

  /** The publisher's signed answer to a pending request: the verdict asked for, at this time, and an
      approval only over the transcript the viewer confirmed. */
  predicate Answers(publisher: Identity, p: Pending, d: Decision, approve: bool, now: i64) {
    && d.signedBy == publisher
    && Says(d, p.request, approve, if approve then ManualVerified else Rejected,
            if approve then TranscriptOf(p.request, p.offer) else ZeroHash, now)
  }

  /** What a decision changes: exactly this request stops being pending, its offer is unqueued, the
      verdict asked for is signed and queued, and an approval adds its grant and queues retained keys
      for a new one. */
  lemma DecideIs(publisher: Identity, s: State, index: nat, approve: bool, now: i64)
    requires Valid(publisher, s) && index < |s.pending| && DecideAt(publisher, s, index, approve, now).Changed?
    ensures var p, next := s.pending[index], DecideAt(publisher, s, index, approve, now).state;
            && Valid(publisher, next)
            && next.revoked == s.revoked
            && (forall x :: x in next.pending <==> x in s.pending && x != p)
            && (forall id :: id in next.offerOutbox <==> id in s.offerOutbox && id != p.request.id)
            && (forall g :: g in next.approved <==> g in s.approved || (approve && g == GrantOf(p.request)))
            && (forall g :: g in next.historyOutbox
                            <==> g in s.historyOutbox || (g in next.approved && g !in s.approved))
            && (exists d :: && d in next.decisionOutbox && Answers(publisher, p, d, approve, now)
                            && (forall x :: x in next.decisionOutbox <==> x in s.decisionOutbox || x == d))
  {
    hide StrictlyOrdered, AddApproved, QueueDecision, Retain, Reject, ApproveManual, OfferFits, SearchFinds, SortBy;
    var p := s.pending[index];
    assert p in s.pending;
    MadeForPending(publisher, p, now);
    DecideSucceedsExactlyWhen(publisher, s, index, approve, now);
    var middle := s;
    var d := Reject(publisher, p.request, now).value;
    if approve {
      d := ApproveManual(publisher, p.request, p.offer, p.confirmation.value, now).value;
      AddApprovedIs(s, GrantOf(p.request));
      middle := AddApproved(s, GrantOf(p.request)).state;
    }
    QueueIs(middle, d);
    DecidedIsValid(publisher, middle, index, d);
  }

  lemma DecidedIsValid(publisher: Identity, s: State, index: nat, d: Decision)
    requires Valid(publisher, s) && index < |s.pending| && QueueDecision(s, d).Changed?
    requires d.requestId == s.pending[index].request.id && DecisionMetadata(d) == Passed && d.signedBy == publisher
    ensures var queued := QueueDecision(s, d).state;
            var next := queued.(pending := RemoveAt(queued.pending, index),
                                offerOutbox := Retain(queued.offerOutbox, id => id != d.requestId));
            && Valid(publisher, next)
            && (forall x :: x in next.pending <==> x in s.pending && x != s.pending[index])
            && (forall id :: id in next.offerOutbox <==> id in s.offerOutbox && id != d.requestId)
  {
    hide StrictlyOrdered, QueueDecision, Retain, OfferFits, PendingFits;
    QueueIs(s, d);
    var p := s.pending[index];
    RemoveAtOrders(s.pending, index, PendingRank);
    var rest := RemoveAt(s.pending, index);
    StrictIsDistinct(rest);
    IdsWithout(s.pending, index, rest);
    RetainOrders(s.offerOutbox, id => id != d.requestId, IdRank);
    forall id
      ensures id in Retain(s.offerOutbox, id => id != d.requestId) <==> id in s.offerOutbox && id != d.requestId
    {
      RetainMembers(s.offerOutbox, id => id != d.requestId, id);
    }
  }

  lemma IdsWithout(pending: seq<Pending>, index: nat, rest: seq<Pending>)
    requires index < |pending| && DistinctPending(pending)
    requires forall x :: x in rest <==> x in pending && x != pending[index]
    ensures PendingIds(rest) == PendingIds(pending) - {pending[index].request.id}
  {
    forall p | p in rest
      ensures p.request.id != pending[index].request.id
    {
      var k :| 0 <= k < |pending| && pending[k] == p;
    }
  }

  // ---------------------------------------------------------------- approving everything

  /** A full identifier selects only itself. */
  function Only(id: nat): nat -> bool {
    x => x == id
  }

  /** `ApproveAll` over the identifiers it listed. */
  function ApproveEach(publisher: Identity, s: State, ids: seq<nat>, now: i64): Change {
    if ids == [] then Changed(s)
    else
      match ApproveEach(publisher, s, ids[..|ids| - 1], now)
      case Aborted => Aborted
      case Changed(next) => Decide(publisher, next, Only(ids[|ids| - 1]), true, now)
  }

  /** The identifiers of the confirmed requests. */
  function ConfirmedIds(pending: seq<Pending>): seq<nat> {
    if pending == [] then []
    else
      var p := pending[|pending| - 1];
      ConfirmedIds(pending[..|pending| - 1]) + (if p.confirmation.Some? then [p.request.id] else [])
  }

  function ApproveAll(publisher: Identity, s: State, now: i64): Change {
    ApproveEach(publisher, s, ConfirmedIds(s.pending), now)
  }

  lemma DecideById(publisher: Identity, s: State, index: nat, approve: bool, now: i64)
    requires DistinctPending(s.pending) && index < |s.pending|
    ensures Decide(publisher, s, Only(s.pending[index].request.id), approve, now)
            == DecideAt(publisher, s, index, approve, now)
  {
    hide UniqueIndex, DecideAt;
    var selects := Only(s.pending[index].request.id);
    var select := (p: Pending) => selects(p.request.id);
    UniqueIndexSelects(s.pending, select);
    assert select(s.pending[index]);
    assert UniqueIndex(s.pending, select) == Some(index);
  }

  /** None of the listed requests comes from a viewer revoked for its stream. */
  predicate AllowedAmong(s: State, ids: seq<nat>) {
    forall p :: p in s.pending && p.request.id in ids ==> GrantOf(p.request) !in s.revoked
  }

  predicate ConfirmedAmong(s: State, ids: seq<nat>) {
    forall id :: id in ids ==> HasConfirmed(s.pending, id)
  }

  predicate HasConfirmed(pending: seq<Pending>, id: nat) {
    exists p :: p in pending && p.request.id == id && p.confirmation.Some?
  }

  /** Approving a list of confirmed requests one by one succeeds exactly when none of their viewers is
      revoked, and leaves exactly the others pending. */
  lemma {:induction false} ApproveEachIs(publisher: Identity, s: State, ids: seq<nat>, now: i64)
    requires Valid(publisher, s) && ConfirmedAmong(s, ids)
    requires forall i, j :: 0 <= i < j < |ids| ==> ids[i] != ids[j]
    ensures ApproveEach(publisher, s, ids, now).Changed? <==> AllowedAmong(s, ids)
    ensures ApproveEach(publisher, s, ids, now).Changed? ==>
              var next := ApproveEach(publisher, s, ids, now).state;
              && Valid(publisher, next) && next.revoked == s.revoked
              && (forall p :: p in next.pending <==> p in s.pending && p.request.id !in ids)
  {
    hide Valid, DecideAt, Decide;
    if ids != [] {
      var most, id := ids[..|ids| - 1], ids[|ids| - 1];
      assert ids == most + [id] && forall x :: x in most ==> x in ids;
      ApproveEachIs(publisher, s, most, now);
      if ApproveEach(publisher, s, most, now).Changed? {
        assert id in ids;
        var p :| p in s.pending && p.request.id == id && p.confirmation.Some?;
        assert id !in most;
        ApproveOneMore(publisher, s, ApproveEach(publisher, s, most, now).state, most, p, now);
      }
    }
  }

  lemma ApproveOneMore(publisher: Identity, s: State, middle: State, most: seq<nat>, p: Pending, now: i64)
    requires Valid(publisher, s) && Valid(publisher, middle) && middle.revoked == s.revoked && AllowedAmong(s, most)
    requires forall q :: q in middle.pending <==> q in s.pending && q.request.id !in most
    requires p in s.pending && p.confirmation.Some? && p.request.id !in most
    ensures var ids, change := most + [p.request.id], Decide(publisher, middle, Only(p.request.id), true, now);
            && (change.Changed? <==> AllowedAmong(s, ids))
            && (change.Changed? ==>
                  && Valid(publisher, change.state) && change.state.revoked == s.revoked
                  && forall q :: q in change.state.pending <==> q in s.pending && q.request.id !in ids)
  {
    hide DecideAt, Decide, OfferFits, StrictlyOrdered, GrantsSound, DecisionsSound, PendingFits;
    assert p in middle.pending;
    var index :| 0 <= index < |middle.pending| && middle.pending[index] == p;
    DecideById(publisher, middle, index, true, now);
    DecideSucceedsExactlyWhen(publisher, middle, index, true, now);
    OnePendingPerId(s.pending, p);
    if GrantOf(p.request) !in s.revoked {
      DecideIs(publisher, middle, index, true, now);
    }
  }

  lemma OnePendingPerId(pending: seq<Pending>, p: Pending)
    requires DistinctPending(pending) && p in pending
    ensures forall q :: q in pending && q.request.id == p.request.id ==> q == p
  {
    var i :| 0 <= i < |pending| && pending[i] == p;
    forall q | q in pending && q.request.id == p.request.id
      ensures q == p
    {
      var j :| 0 <= j < |pending| && pending[j] == q;
    }
  }

  /** `ApproveAll` succeeds exactly when no confirmed request comes from a viewer revoked for its
      stream: one such request blocks all the others. */
  lemma ApproveAllSucceedsExactlyWhen(publisher: Identity, s: State, now: i64)
    requires Valid(publisher, s)
    ensures ApproveAll(publisher, s, now).Changed?
            <==> forall p :: p in s.pending && p.confirmation.Some? ==> GrantOf(p.request) !in s.revoked
    ensures ApproveAll(publisher, s, now).Changed? ==>
              forall p :: p in ApproveAll(publisher, s, now).state.pending <==> p in s.pending && p.confirmation.None?
  {
    hide Valid, ApproveEach;
    assert DistinctPending(s.pending) by { OnlyDistinct(publisher, s); }
    var ids := ConfirmedIds(s.pending);
    ConfirmedIdsAre(s.pending, ids);
    ApproveEachIs(publisher, s, ids, now);
    forall p | p in s.pending
      ensures p.request.id in ids <==> p.confirmation.Some?
    {
      OnePendingPerId(s.pending, p);
    }
  }

  lemma OnlyDistinct(publisher: Identity, s: State)
    requires Valid(publisher, s)
    ensures DistinctPending(s.pending)
  {
  }

  lemma {:induction false} ConfirmedMembers(pending: seq<Pending>, id: nat)
    ensures id in ConfirmedIds(pending) <==> HasConfirmed(pending, id)
  {
    if pending != [] {
      var most, last := pending[..|pending| - 1], pending[|pending| - 1];
      ConfirmedMembers(most, id);
      assert pending == most + [last];
      if HasConfirmed(pending, id) && !HasConfirmed(most, id) {
        assert last.request.id == id && last.confirmation.Some?;
      } else if id == last.request.id && last.confirmation.Some? {
        assert last in pending;
      }
    }
  }

  lemma {:induction false} ConfirmedIdsAre(pending: seq<Pending>, ids: seq<nat>)
    requires DistinctPending(pending) && ids == ConfirmedIds(pending)
    ensures forall i, j :: 0 <= i < j < |ids| ==> ids[i] != ids[j]
    ensures forall id :: id in ids <==> HasConfirmed(pending, id)
  {
    hide HasConfirmed;
    forall id
      ensures id in ids <==> HasConfirmed(pending, id)
    {
      ConfirmedMembers(pending, id);
    }
    if pending != [] {
      var most, last := pending[..|pending| - 1], pending[|pending| - 1];
      var earlier := ConfirmedIds(most);
      ConfirmedIdsAre(most, earlier);
      if last.request.id in earlier {
        NotYetConfirmed(pending);
      }
      assert forall k :: 0 <= k < |earlier| ==> earlier[k] in earlier;
    }
  }

  lemma NotYetConfirmed(pending: seq<Pending>)
    requires DistinctPending(pending) && pending != []
    ensures !HasConfirmed(pending[..|pending| - 1], pending[|pending| - 1].request.id)
  {
    var most := pending[..|pending| - 1];
    assert forall k :: 0 <= k < |most| ==> most[k].request.id != pending[|pending| - 1].request.id;
  }

  // ---------------------------------------------------------------- runs of commands

  datatype Command = RefreshCommand(context: Context, requests: seq<PairRequest>, confirmations: seq<Confirmation>)
                   | DecideCommand(selects: nat -> bool, approve: bool, now: i64)
                   | ApproveAllCommand(now: i64)
                   | RevokeCommand(stream: nat, selects: Identity -> bool)
                   | OfferSent
                   | DecisionSent
                   | HistorySent(grant: Grant)

  /** A refresh follows a flush, so it starts with empty offer and decision outboxes. */
  function Attempt(publisher: Identity, s: State, command: Command): Change {
    match command
    case RefreshCommand(context, requests, confirmations) =>
      if context.publisher != publisher || s.offerOutbox != [] || s.decisionOutbox != [] then Aborted
      else Refresh(context, s, requests, confirmations)
    case DecideCommand(selects, approve, now) => Decide(publisher, s, selects, approve, now)
    case ApproveAllCommand(now) => ApproveAll(publisher, s, now)
    case RevokeCommand(stream, selects) => Revoke(s, stream, selects)
    case OfferSent => PopOffer(s)
    case DecisionSent => PopDecision(s)
    case HistorySent(grant) => PopHistory(s, grant)
  }

  /** The saved state after a command: the new one if the command succeeds and saving accepts it. */
  function Perform(publisher: Identity, s: State, command: Command): State {
    match Attempt(publisher, s, command)
    case Aborted => s
    case Changed(next) => if ValidateState(next) then next else s
  }

  function Run(publisher: Identity, start: State, commands: seq<Command>): State {
    if commands == [] then start
    else Perform(publisher, Run(publisher, start, commands[..|commands| - 1]), commands[|commands| - 1])
  }

  lemma DropFirst<T>(s: seq<T>, rank: T -> Rank)
    requires s != [] && StrictlyOrdered(s, rank)
    ensures StrictlyOrdered(s[1..], rank)
  {
    var rest := s[1..];
    assert forall i :: 0 <= i < |rest| ==> rest[i] == s[i + 1];
  }

  lemma PopsKeepValid(publisher: Identity, s: State, command: Command)
    requires Valid(publisher, s) && (command.OfferSent? || command.DecisionSent? || command.HistorySent?)
    requires Attempt(publisher, s, command).Changed?
    ensures Valid(publisher, Attempt(publisher, s, command).state)
  {
    hide StrictlyOrdered, OfferFits, PendingFits, Retain;
    match command
    case OfferSent => DropFirst(s.offerOutbox, IdRank);
    case DecisionSent => DropFirst(s.decisionOutbox, DecisionRank);
    case HistorySent(grant) => WithoutGrant(s.historyOutbox, grant);
  }

  lemma DecisionPopKeepsValid(publisher: Identity, s: State)
    requires Valid(publisher, s) && s.decisionOutbox != []
    ensures Valid(publisher, s.(decisionOutbox := s.decisionOutbox[1..]))
  {
    hide StrictlyOrdered, OfferFits, PendingFits;
    DropFirst(s.decisionOutbox, DecisionRank);
  }

  /** Every command, from a valid state, attempts a valid state; revocations only accumulate. */
  lemma AttemptKeepsValid(publisher: Identity, s: State, command: Command)
    requires Valid(publisher, s) && Attempt(publisher, s, command).Changed?
    ensures var next := Attempt(publisher, s, command).state;
            Valid(publisher, next) && forall g :: g in s.revoked ==> g in next.revoked
  {
    hide StrictlyOrdered, OfferFits, PendingFits, Refresh, DecideAt, ApproveEach, Revoke, Retain, UniqueIndex;
    match command
    case RefreshCommand(context, requests, confirmations) => RefreshKeepsValid(context, s, requests, confirmations);
    case DecideCommand(selects, approve, now) =>
      var index := UniqueIndex(s.pending, (p: Pending) => selects(p.request.id)).value;
      DecideIs(publisher, s, index, approve, now);
    case ApproveAllCommand(now) =>
      ConfirmedIdsAre(s.pending, ConfirmedIds(s.pending));
      ApproveEachIs(publisher, s, ConfirmedIds(s.pending), now);
    case RevokeCommand(stream, selects) => RevokeIs(s, stream, selects);
    case OfferSent => PopsKeepValid(publisher, s, command);
    case DecisionSent => PopsKeepValid(publisher, s, command);
    case HistorySent(_) => PopsKeepValid(publisher, s, command);
  }

  /** The state invariant over every run of commands. */
  lemma {:induction false} RunKeepsValid(publisher: Identity, start: State, commands: seq<Command>)
    requires Valid(publisher, start)
    ensures Valid(publisher, Run(publisher, start, commands))
  {
    hide Valid, Attempt, ValidateState;
    if commands != [] {
      var before, command := Run(publisher, start, commands[..|commands| - 1]), commands[|commands| - 1];
      RunKeepsValid(publisher, start, commands[..|commands| - 1]);
      if Attempt(publisher, before, command).Changed? {
        AttemptKeepsValid(publisher, before, command);
      }
    }
  }

  /** A new publisher starts valid, and so does a migrated one whose lists had the base properties: it keeps
      them, and has retained keys to send for every grant. */
  lemma StartsValid(publisher: Identity, pending: seq<Pending>, approved: seq<Grant>, revoked: seq<Grant>)
    requires StrictlyOrdered(pending, PendingRank) && StrictlyOrdered(approved, GrantRank)
    requires StrictlyOrdered(revoked, GrantRank)
    requires (forall g :: g in approved ==> g !in revoked) && forall p :: p in pending ==> PendingFits(publisher, p)
    ensures Valid(publisher, EMPTY)
    ensures var s := Migrated(pending, approved, revoked);
            && Valid(publisher, s) && s.pending == pending && s.approved == approved && s.revoked == revoked
            && s.historyOutbox == approved && s.offerOutbox == [] && s.decisionOutbox == []
  {
    hide PendingFits;
    StrictIsDistinct(pending);
  }

  lemma {:induction false} RisingIsStrict<T>(s: seq<T>, rank: T -> Rank)
    ensures Rising(s, rank) <==> StrictlyOrdered(s, rank)
  {
    hide Below;
    if StrictlyOrdered(s, rank) {
      assert Rising(s, rank);
    } else if Rising(s, rank) {
      var i, j :| 0 <= i < j < |s| && !Below(rank(s[i]), rank(s[j]));
      RisingReaches(s, rank, i, j);
    }
  }

  lemma {:induction false} RisingReaches<T>(s: seq<T>, rank: T -> Rank, i: nat, j: nat)
    requires Rising(s, rank) && i < j < |s|
    ensures Below(rank(s[i]), rank(s[j]))
    decreases j - i
  {
    assert Below(rank(s[j - 1]), rank(s[j - 1 + 1]));
    if i < j - 1 {
      RisingReaches(s, rank, i, j - 1);
    }
  }

  /** Saving and loading refuse a reachable state only for its size. */
  lemma SavingRefusesOnlyForSize(publisher: Identity, s: State)
    requires Valid(publisher, s)
    ensures ValidateState(s) <==> WithinBounds(s)
  {
    hide StrictlyOrdered, Rising, OfferFits, PendingFits, GrantsSound;
    assert GrantsSound(s);
    RisingIsStrict(s.offerOutbox, IdRank);
    RisingIsStrict(s.decisionOutbox, DecisionRank);
    HistoryOrdered(s);
    forall k | 0 <= k < |s.offerOutbox|
      ensures FindPending(s.pending, s.offerOutbox[k]).Some?
    {
      assert s.offerOutbox[k] in s.offerOutbox;
      PendingIdsOf(s.pending, s.offerOutbox[k]);
    }
  }

  /** Loading and saving accept exactly the states of bounded size whose outboxes are sorted without repeats and
      whose queued offers belong to pending requests; revocations and grants may be in any order. */
  lemma LoadingAcceptsExactlyWhen(s: State)
    ensures ValidateState(s)
            <==> && |s.pending| <= 65536 && |s.approved| <= 65536 && |s.revoked| <= 65536
                 && |s.offerOutbox| <= 65536 && |s.decisionOutbox| <= 65536 && |s.historyOutbox| <= 65536
                 && StrictlyOrdered(s.offerOutbox, IdRank) && StrictlyOrdered(s.decisionOutbox, DecisionRank)
                 && StrictlyOrdered(s.historyOutbox, GrantRank)
                 && forall k :: 0 <= k < |s.offerOutbox| ==> s.offerOutbox[k] in PendingIds(s.pending)
  {
    hide StrictlyOrdered, Rising, PendingIds;
    RisingIsStrict(s.offerOutbox, IdRank);
    RisingIsStrict(s.decisionOutbox, DecisionRank);
    RisingIsStrict(s.historyOutbox, GrantRank);
    forall k | 0 <= k < |s.offerOutbox|
      ensures s.offerOutbox[k] in PendingIds(s.pending) <==> FindPending(s.pending, s.offerOutbox[k]).Some?
    {
      PendingIdsOf(s.pending, s.offerOutbox[k]);
    }
  }

  /** Delivering retained keys unqueues exactly that grant. */
  lemma HistorySentIs(publisher: Identity, s: State, grant: Grant)
    requires StrictlyOrdered(s.historyOutbox, GrantRank)
    ensures Attempt(publisher, s, HistorySent(grant)).Changed?
    ensures var next := Attempt(publisher, s, HistorySent(grant)).state;
            && next == s.(historyOutbox := next.historyOutbox)
            && forall g :: g in next.historyOutbox <==> g in s.historyOutbox && g != grant
  {
    WithoutGrant(s.historyOutbox, grant);
  }

  lemma HistoryOrdered(s: State)
    requires GrantsSound(s)
    ensures Rising(s.historyOutbox, GrantRank)
  {
    RisingIsStrict(s.historyOutbox, GrantRank);
  }

  // ---------------------------------------------------------------- revocation and approval over runs

  /** Revocation is permanent: no later run of commands grants it again or queues keys for it. */
  lemma {:induction false} RevocationIsPermanent(publisher: Identity, start: State, commands: seq<Command>, g: Grant)
    requires Valid(publisher, start) && g in start.revoked
    ensures var s := Run(publisher, start, commands);
            g in s.revoked && g !in s.approved && g !in s.historyOutbox
  {
    hide Attempt, ValidateState, CeremoniesSound, DecisionsSound, StrictlyOrdered;
    RunKeepsValid(publisher, start, commands);
    if commands != [] {
      var most, command := commands[..|commands| - 1], commands[|commands| - 1];
      RevocationIsPermanent(publisher, start, most, g);
      RunKeepsValid(publisher, start, most);
      if Attempt(publisher, Run(publisher, start, most), command).Changed? {
        AttemptKeepsValid(publisher, Run(publisher, start, most), command);
      }
    }
  }

  /** A decision grants nothing but the viewer's own request, and only one both humans compared. */
  lemma ApprovalNeedsBothHumans(publisher: Identity, s: State, selects: nat -> bool, approve: bool, now: i64, g: Grant)
    requires Valid(publisher, s) && Decide(publisher, s, selects, approve, now).Changed?
    requires g in Decide(publisher, s, selects, approve, now).state.approved && g !in s.approved
    ensures exists p :: && p in s.pending && selects(p.request.id) && GrantOf(p.request) == g
                        && p.confirmation.Some? && p.confirmation.value.transcript == TranscriptOf(p.request, p.offer)
                        && p.confirmation.value.signedBy == g.viewer && p.offer.signedBy == publisher
  {
    hide StrictlyOrdered, DecideAt, UniqueIndex;
    var select := (p: Pending) => selects(p.request.id);
    UniqueIndexSelects(s.pending, select);
    var index := UniqueIndex(s.pending, select).value;
    DecideSucceedsExactlyWhen(publisher, s, index, approve, now);
    DecideIs(publisher, s, index, approve, now);
    assert s.pending[index] in s.pending;
  }

  // ---------------------------------------------------------------- exact limits

  predicate NoRepeats(grants: seq<Grant>) {
    forall i, j :: 0 <= i < j < |grants| ==> grants[i] != grants[j]
  }

  /** For a revocation list without repeats, the binary search is membership if and only if the list is
      sorted: the check that loading and saving leave out. */
  lemma SearchIsMembershipExactlyWhenSorted(revoked: seq<Grant>)
    requires NoRepeats(revoked)
    ensures (forall g :: SearchFinds(revoked, g) <==> g in revoked) <==> StrictlyOrdered(revoked, GrantRank)
  {
    hide StrictlyOrdered, SearchFinds;
    if StrictlyOrdered(revoked, GrantRank) {
      forall g
        ensures SearchFinds(revoked, g) <==> g in revoked
      {
        SearchIsMember(revoked, g);
      }
    } else {
      MissedWhenUnsorted(revoked);
    }
  }

  /** In an unsorted list without repeats some element is missed. */
  lemma MissedWhenUnsorted(revoked: seq<Grant>)
    requires NoRepeats(revoked) && !StrictlyOrdered(revoked, GrantRank)
    ensures exists g :: g in revoked && !SearchFinds(revoked, g)
  {
    var ranks := GrantRanks(revoked);
    assert Distinct(ranks);
    var i, j :| 0 <= i < j < |revoked| && !Below(GrantRank(revoked[i]), GrantRank(revoked[j]));
    if forall k :: 0 <= k < |ranks| ==> Found(ranks, ranks[k], 0, |ranks|) {
      FindingAllMeansOrdered(ranks, 0, |ranks|, i, j);
      assert false;
    }
    var k :| 0 <= k < |ranks| && !Found(ranks, ranks[k], 0, |ranks|);
    assert revoked[k] in revoked && !SearchFinds(revoked, revoked[k]);
  }

  /** A publisher's state with revocations but nothing else that validation looks at. */
  function OnlyRevocations(revoked: seq<Grant>): State {
    EMPTY.(revoked := revoked)
  }

  /** Loading accepts any such list, sorted or not; a revoked viewer can be approved again if and only
      if the list is not sorted. */
  lemma RevokedCanReturnExactlyWhenUnsorted(revoked: seq<Grant>)
    requires NoRepeats(revoked) && |revoked| <= MAX_RECORDS
    ensures ValidateState(OnlyRevocations(revoked))
    ensures (exists g :: && g in revoked && AddApproved(OnlyRevocations(revoked), g).Changed?
                         && g in AddApproved(OnlyRevocations(revoked), g).state.approved)
            <==> !StrictlyOrdered(revoked, GrantRank)
  {
    hide StrictlyOrdered, SearchFinds;
    SearchIsMembershipExactlyWhenSorted(revoked);
    if !StrictlyOrdered(revoked, GrantRank) {
      MissedWhenUnsorted(revoked);
      var g :| g in revoked && !SearchFinds(revoked, g);
      assert SortBy([g], GrantRank) == [g] by {
        assert [g][..0] == [];
      }
      assert [] + [g] == [g];
      assert g in AddApproved(OnlyRevocations(revoked), g).state.approved;
    }
  }
}
