/** What one refresh of the publisher makes of the inbox it fetched. */
module PublisherRefresh {
  import opened MachineInts
  import opened Wrappers
  import opened PairingRecords
  import opened Ordering
  import opened PublisherState
  import opened PublisherRuns

  // ---------------------------------------------------------------- the requests of an inbox

  /** The policy approves the request without asking anyone. */
  predicate Approves(policy: Policy, q: PairRequest) {
    match policy
    case Required => false
    case Open => true
    case TrustedCa(trusts) => trusts(q)
  }

  /** A request a refresh acts on: not revoked for its stream, not pending yet, and for the humans to
      compare or approved by the policy. */
  predicate Acts(context: Context, s: State, q: PairRequest) {
    && GrantOf(q) !in s.revoked && q.id !in PendingIds(s.pending)
    && (context.policy.Required? || Approves(context.policy, q))
  }

  predicate ActsOn(context: Context, s: State, taken: seq<PairRequest>, id: nat) {
    exists q :: q in taken && Acts(context, s, q) && q.id == id
  }

  predicate Grants(context: Context, s: State, taken: seq<PairRequest>, g: Grant) {
    exists q :: q in taken && Acts(context, s, q) && GrantOf(q) == g
  }

  /** A new pending ceremony: the publisher's own fresh offer, for the rest of the request's life. */
  predicate Opens(context: Context, p: Pending) {
    && OfferFits(p.offer, p.request)
    && p.offer.nonce == context.nonces(p.request) && p.offer.relayContext == context.relayContext
    && p.offer.issuedAt == context.answeredAt(p.request) && p.offer.expiresAt == p.request.expiresAt
    && p.confirmation.None? && p.source == context.sources(p.request)
  }

  /** The signed approval of a request in the policy's name. */
  predicate ByPolicy(context: Context, q: PairRequest, d: Decision) {
    && d.signedBy == context.publisher
    && Says(d, q, true, if context.policy.Open? then OpenPolicy else TrustedViewerCa, ZeroHash, context.answeredAt(q))
  }

  predicate DecidedFrom(context: Context, s: State, taken: seq<PairRequest>, d: Decision) {
    exists q :: q in taken && Acts(context, s, q) && ByPolicy(context, q, d)
  }

  predicate QueuedFor(context: Context, outbox: seq<Decision>, q: PairRequest) {
    exists d :: d in outbox && ByPolicy(context, q, d)
  }

  /** Asking the humans: exactly the requests acted on become pending, in order of arrival, each with its
      offer queued, and nothing is granted or decided. */
  ghost predicate Asked(context: Context, s: State, taken: seq<PairRequest>, next: State) {
    && next == s.(pending := next.pending, offerOutbox := next.offerOutbox)
    && s.pending <= next.pending
    && (forall k :: |s.pending| <= k < |next.pending| ==>
                      && next.pending[k].request in taken && Acts(context, s, next.pending[k].request)
                      && Opens(context, next.pending[k]))
    && (forall id :: id in PendingIds(next.pending)
                     <==> id in PendingIds(s.pending) || ActsOn(context, s, taken, id))
    && (forall id :: id in next.offerOutbox <==> id in s.offerOutbox || ActsOn(context, s, taken, id))
  }

  /** A policy that decides: exactly the requests acted on are granted and answered, and none waits. */
  ghost predicate Answered(context: Context, s: State, taken: seq<PairRequest>, next: State) {
    && next
       == s.(approved := next.approved, historyOutbox := next.historyOutbox, decisionOutbox := next.decisionOutbox)
    && (forall g :: g in next.approved <==> g in s.approved || Grants(context, s, taken, g))
    && (forall g :: g in next.historyOutbox <==> g in s.historyOutbox || (g in next.approved && g !in s.approved))
    && (forall d :: d in next.decisionOutbox ==> d in s.decisionOutbox || DecidedFrom(context, s, taken, d))
    && (forall d :: d in s.decisionOutbox ==> d in next.decisionOutbox)
    && (forall q :: q in taken && Acts(context, s, q) ==> QueuedFor(context, next.decisionOutbox, q))
  }

  ghost predicate Took(context: Context, s: State, taken: seq<PairRequest>, next: State) {
    if context.policy.Required? then Asked(context, s, taken, next) else Answered(context, s, taken, next)
  }

  lemma MoreTaken(context: Context, s: State, taken: seq<PairRequest>, q: PairRequest)
    ensures forall id :: ActsOn(context, s, taken + [q], id)
                         <==> ActsOn(context, s, taken, id) || (Acts(context, s, q) && id == q.id)
    ensures forall g :: Grants(context, s, taken + [q], g)
                        <==> Grants(context, s, taken, g) || (Acts(context, s, q) && g == GrantOf(q))
    ensures forall d :: DecidedFrom(context, s, taken + [q], d)
                        <==> DecidedFrom(context, s, taken, d) || (Acts(context, s, q) && ByPolicy(context, q, d))
  {
    hide Acts, ByPolicy;
    assert q in taken + [q];
    assert forall r :: r in taken ==> r in taken + [q];
  }

  /** One request when the humans are asked. */
  lemma AskOneMore(context: Context, s: State, taken: seq<PairRequest>, middle: State, q: PairRequest)
    requires context.policy.Required? && Sound(context.publisher, middle) && OnePath(context, middle)
    requires Asked(context, s, taken, middle) && TakeRequest(context, middle, q).Changed?
    ensures Asked(context, s, taken + [q], TakeRequest(context, middle, q).state)
  {
    MoreTaken(context, s, taken, q);
    PendingIdsOf(middle.pending, q.id);
    hide ActsOn, SortBy, VerifyRequest, PendingIds, OfferFits, NewOffer, GrantsSound, StrictlyOrdered;
    var next := TakeRequest(context, middle, q).state;
    if GrantOf(q) !in middle.revoked && FindPending(middle.pending, q.id).None? {
      OfferOpens(context, q);
      var p := Pending(q, NewOffer(context.publisher, q, context.relayContext, context.nonces(q), context.answeredAt(q),
                                   q.expiresAt, PAIR_LIFETIME_MS).value, None, context.sources(q));
      PushPending(context.publisher, middle, p);
    }
  }

  lemma OfferOpens(context: Context, q: PairRequest)
    requires NewOffer(context.publisher, q, context.relayContext, context.nonces(q), context.answeredAt(q), q.expiresAt,
                      PAIR_LIFETIME_MS).Ok?
    ensures var offer := NewOffer(context.publisher, q, context.relayContext, context.nonces(q), context.answeredAt(q),
                                  q.expiresAt, PAIR_LIFETIME_MS).value;
            var p := Pending(q, offer, None, context.sources(q));
            Opens(context, p) && PendingFits(context.publisher, p)
  {
    MadeRecordsVerify(context.publisher, q.viewer, q,
                      NewOffer(context.publisher, q, context.relayContext, context.nonces(q), context.answeredAt(q),
                               q.expiresAt, PAIR_LIFETIME_MS).value,
                      context.relayContext, context.nonces(q), context.answeredAt(q), q.expiresAt, PAIR_LIFETIME_MS, 0);
  }

  /** One request when the policy decides. */
  lemma AnswerOneMore(context: Context, s: State, taken: seq<PairRequest>, middle: State, q: PairRequest)
    requires !context.policy.Required? && Sound(context.publisher, middle)
    requires Answered(context, s, taken, middle) && TakeRequest(context, middle, q).Changed?
    ensures Answered(context, s, taken + [q], TakeRequest(context, middle, q).state)
  {
    MoreTaken(context, s, taken, q);
    PendingIdsOf(middle.pending, q.id);
    hide ActsOn, Grants, DecidedFrom, QueuedFor, SortBy, VerifyRequest, PendingIds, NewOffer, StrictlyOrdered,
         ApproveByPolicy, AddApproved, QueueDecision, ByPolicy, CeremoniesSound;
    var next := TakeRequest(context, middle, q).state;
    if Acts(context, s, q) {
      var d := ApproveByPolicy(context.publisher, q, PolicyReason(context.policy), context.answeredAt(q)).value;
      PolicyDecides(context, q);
      AddApprovedIs(middle, GrantOf(q));
      QueueIs(AddApproved(middle, GrantOf(q)).state, d);
      QueuedStays(context, taken, q, d, middle.decisionOutbox, next.decisionOutbox);
    }
  }

  lemma PolicyDecides(context: Context, q: PairRequest)
    requires ApproveByPolicy(context.publisher, q, PolicyReason(context.policy), context.answeredAt(q)).Ok?
    ensures ByPolicy(context, q,
                     ApproveByPolicy(context.publisher, q, PolicyReason(context.policy), context.answeredAt(q)).value)
  {
  }

  lemma QueuedStays(
    context: Context, taken: seq<PairRequest>, q: PairRequest, d: Decision, outbox: seq<Decision>, more: seq<Decision>)
    requires (forall x :: x in more <==> x in outbox || x == d) && ByPolicy(context, q, d)
    ensures QueuedFor(context, more, q)
    ensures forall r :: r in taken && QueuedFor(context, outbox, r) ==> QueuedFor(context, more, r)
  {
  }

  lemma TookNone(context: Context, s: State)
    ensures Took(context, s, [], s)
  {
  }

  lemma {:induction false} TookAll(context: Context, s: State, taken: seq<PairRequest>)
    requires Sound(context.publisher, s) && OnePath(context, s) && TakeRequests(context, s, taken).Changed?
    ensures Took(context, s, taken, TakeRequests(context, s, taken).state)
  {
    hide TakeRequest, Sound, Asked, Answered;
    if taken == [] {
      TookNone(context, s);
    } else {
      var most, q := taken[..|taken| - 1], taken[|taken| - 1];
      TookAll(context, s, most);
      TakeRequestsKeep(context, s, most);
      var middle := TakeRequests(context, s, most).state;
      assert taken == most + [q];
      if context.policy.Required? {
        AskOneMore(context, s, most, middle, q);
      } else {
        AnswerOneMore(context, s, most, middle, q);
      }
    }
  }

  // ---------------------------------------------------------------- the confirmations of an inbox

  predicate Names(confirmations: seq<Confirmation>, p: Pending) {
    exists c :: c in confirmations && c.requestId == p.request.id
  }

  /** The ceremony carries a delivered confirmation of its own offer if there is one, and is otherwise as
      it was. */
  predicate ConfirmedOne(confirmations: seq<Confirmation>, before: Pending, after: Pending) {
    && after == before.(confirmation := after.confirmation)
    && (if Names(confirmations, before) then
          && after.confirmation.Some? && after.confirmation.value in confirmations
          && VerifyConfirmation(after.confirmation.value, before.request, before.offer) == Passed
        else after == before)
  }

  predicate ConfirmedAll(confirmations: seq<Confirmation>, s: State, next: State) {
    && next == s.(pending := next.pending) && |next.pending| == |s.pending|
    && forall k :: 0 <= k < |s.pending| ==> ConfirmedOne(confirmations, s.pending[k], next.pending[k])
  }

  lemma {:induction false} ConfirmationsAre(publisher: Identity, s: State, confirmations: seq<Confirmation>)
    requires Sound(publisher, s) && TakeConfirmations(s, confirmations).Changed?
    ensures ConfirmedAll(confirmations, s, TakeConfirmations(s, confirmations).state)
  {
    hide Sound, VerifyConfirmation, FindPending, ConfirmedOne;
    if confirmations == [] {
      NothingConfirmed(s);
    } else {
      var most, c := confirmations[..|confirmations| - 1], confirmations[|confirmations| - 1];
      ConfirmationsAre(publisher, s, most);
      var middle, next := TakeConfirmations(s, most).state, TakeConfirmations(s, confirmations).state;
      TakeConfirmationsKeep(publisher, s, most);
      assert confirmations == most + [c];
      forall k | 0 <= k < |s.pending|
        ensures |next.pending| == |s.pending| && ConfirmedOne(confirmations, s.pending[k], next.pending[k])
      {
        ConfirmedMore(publisher, s.pending[k], middle, most, c, k);
      }
    }
  }

  lemma NothingConfirmed(s: State)
    ensures ConfirmedAll([], s, s)
  {
  }

  lemma ConfirmedMore(
    publisher: Identity, before: Pending, middle: State, most: seq<Confirmation>, c: Confirmation, k: nat)
    requires Sound(publisher, middle) && TakeConfirmation(middle, c).Changed? && k < |middle.pending|
    requires ConfirmedOne(most, before, middle.pending[k])
    ensures var next := TakeConfirmation(middle, c).state;
            |next.pending| == |middle.pending| && ConfirmedOne(most + [c], before, next.pending[k])
  {
    hide GrantsSound, DecisionsSound, PendingFits, VerifyConfirmation, StrictlyOrdered;
    assert forall x :: x in most + [c] <==> x in most || x == c;
  }

  // ---------------------------------------------------------------- the whole refresh

  /** A refresh acts on exactly the requests its policy lets it, in one of two ways; then every delivered
      confirmation reaches its ceremony, and the ceremonies are sorted. */
  lemma RefreshIs(context: Context, s: State, requests: seq<PairRequest>, confirmations: seq<Confirmation>)
    requires Valid(context.publisher, s) && OnePath(context, s)
    requires Refresh(context, s, requests, confirmations).Changed?
    ensures var next := Refresh(context, s, requests, confirmations).state;
            exists middle, last ::
              && Took(context, s, requests, middle) && ConfirmedAll(confirmations, middle, last)
              && next == last.(pending := next.pending)
              && StrictlyOrdered(next.pending, PendingRank) && multiset(next.pending) == multiset(last.pending)
  {
    hide TakeRequests, TakeConfirmations, Sound, SortBy, Took, ConfirmedAll, StrictlyOrdered;
    TakeRequestsKeep(context, s, requests);
    TookAll(context, s, requests);
    var middle := TakeRequests(context, s, requests).state;
    TakeConfirmationsKeep(context.publisher, middle, confirmations);
    ConfirmationsAre(context.publisher, middle, confirmations);
    var last := TakeConfirmations(middle, confirmations).state;
    SortedIsValid(context.publisher, last);
    SortByOrders(last.pending, PendingRank);
  }
}
