/** What becomes of an offer that left the publisher's outbox. */
module OfferDelivery {
  import opened MachineInts
  import opened Wrappers
  import opened PairingRecords
  import opened Ordering
  import opened PublisherState
  import opened PairingProtocol
  import D = PairingDelivery
  import F = PublisherRefresh
  import S = PairingStore
  import R = PublisherRuns

  /** The relay's row has the pending request's offer, or the row is gone for good. */
  predicate Offered(config: Config, t: S.Table, clock: i64, p: Pending) {
    if p.request.id in t then t[p.request.id].offer == Some(p.offer)
    else config.registry(p.request.id).expiresAt <= clock
  }

  predicate OffersOut(config: Config, t: S.Table, clock: i64, s: State) {
    forall p :: p in s.pending ==> p.request.id in s.offerOutbox || Offered(config, t, clock, p)
  }

  /** Every offer of a pending request is queued or with the relay, saved and in memory. */
  predicate OffersKept(config: Config, w: World) {
    && OffersOut(config, w.table, w.clock, w.disk) && OffersOut(config, w.table, w.clock, w.memory)
    && (w.phase == OfferAcked ==> HeadOffered(config, w.table, w.clock, w.memory))
  }

  predicate HeadOffered(config: Config, t: S.Table, clock: i64, s: State) {
    s.offerOutbox != [] ==>
      forall p :: p in s.pending && p.request.id == s.offerOutbox[0] ==> Offered(config, t, clock, p)
  }

  // ---------------------------------------------------------------- the relay's side

  lemma OfferStays(
    config: Config, t: S.Table, clock: i64, timed: S.Timed, sent: map<nat, PairOffer>, made: map<nat, Decision>,
    p: Pending)
    requires RelaySound(config, t, clock, sent, made) && clock <= timed.now && Allowed(config, sent, made, timed.call)
    requires Offered(config, t, clock, p)
    ensures Offered(config, S.Apply(t, timed, LIFETIME).table, timed.now, p)
  {
    hide S.Apply, RelaySound, Allowed;
    D.RegisteredRow(config, t, clock, timed, sent, made, p.request.id);
  }

  lemma CallKeepsOffers(config: Config, w: World, timed: S.Timed, sent: map<nat, PairOffer>, held: set<Decision>)
    requires RelaySound(config, w.table, w.clock, sent, w.made) && OffersKept(config, w)
    requires w.clock <= timed.now && Allowed(config, sent, w.made, timed.call)
    ensures OffersKept(config,
                       w.(table := S.Apply(w.table, timed, LIFETIME).table, clock := timed.now, sent := sent,
                          held := held))
  {
    hide S.Apply, RelaySound, Allowed, Offered;
    forall p | Offered(config, w.table, w.clock, p)
      ensures Offered(config, S.Apply(w.table, timed, LIFETIME).table, timed.now, p)
    {
      OfferStays(config, w.table, w.clock, timed, sent, w.made, p);
    }
  }

  /** An acknowledged offer is the one in the row. */
  lemma AckedIsOffered(config: Config, w: World, p: Pending, now: i64)
    requires Invariant(config, w) && w.phase == Syncing && w.memory.offerOutbox != [] && w.clock <= now
    requires p in w.memory.pending && p.request.id == w.memory.offerOutbox[0]
    requires S.Apply(w.table, S.Timed(S.OfferCall(p.offer), now), LIFETIME).answer.Done?
    ensures Offered(config, S.Apply(w.table, S.Timed(S.OfferCall(p.offer), now), LIFETIME).table, now, p)
  {
    var id, timed := p.request.id, S.Timed(S.OfferCall(p.offer), now);
    PendingAt(config, w, p);
    HeadIsKept(config, w);
    OfferLeaves(config, w, p);
    var sent := w.sent[id := p.offer];
    RelayPart(config, w.(sent := sent));
    hide Invariant, FindPending;
    RelayStepKeeps(config, w.table, w.clock, timed, sent, w.made);
    StoredOffer(w.table, p.offer, now);
    var next := S.Apply(w.table, timed, LIFETIME).table;
    hide S.Apply, RelaySound;
    RowIsKnown(config, next, now, sent, w.made, id);
  }

  lemma RowIsKnown(
    config: Config, t: S.Table, clock: i64, sent: map<nat, PairOffer>, made: map<nat, Decision>, id: nat)
    requires RelaySound(config, t, clock, sent, made) && id in t
    ensures RowKnown(config, sent, made, id, t[id])
  {
  }

  lemma StoredOffer(t: S.Table, o: PairOffer, now: i64)
    requires S.Apply(t, S.Timed(S.OfferCall(o), now), LIFETIME).answer.Done?
    ensures var next := S.Apply(t, S.Timed(S.OfferCall(o), now), LIFETIME).table;
            o.requestId in next && next[o.requestId].offer.Some?
  {
    hide VerifyOffer;
  }

  /** The one pending request with an identifier is the one found by it. */
  lemma PendingAt(config: Config, w: World, p: Pending)
    requires Invariant(config, w) && p in w.memory.pending
    ensures var found := FindPending(w.memory.pending, p.request.id);
            found.Some? && w.memory.pending[found.value] == p
  {
    hide RelaySound, DiskSound, PhaseSound;
    R.OnlyDistinct(config.publisher, w.memory);
    R.OnePendingPerId(w.memory.pending, p);
  }

  // ---------------------------------------------------------------- the publisher's steps

  lemma StopKeepsOffers(config: Config, w: World)
    requires OffersKept(config, w)
    ensures OffersKept(config, Stopped(w))
  {
    hide OffersOut;
  }

  lemma SavedKeepsOffers(config: Config, w: World)
    requires OffersOut(config, w.table, w.clock, w.disk) && OffersOut(config, w.table, w.clock, w.memory)
    ensures OffersKept(config, Saved(w))
  {
    hide OffersOut, ValidateState, Recorded;
  }

  lemma SendKeepsOffers(config: Config, w: World, action: Action)
    requires Invariant(config, w) && OffersKept(config, w) && (action.SendOffer? || action.SendDecision?)
    ensures OffersKept(config, Step(config, w, action))
  {
    hide Invariant, OffersOut, HeadOffered, S.Apply, FindPending, Allowed;
    StopKeepsOffers(config, w);
    if w.phase == Syncing && w.clock <= action.now {
      if && action.SendOffer? && w.memory.offerOutbox != []
         && FindPending(w.memory.pending, w.memory.offerOutbox[0]).Some? {
        var p := w.memory.pending[FindPending(w.memory.pending, w.memory.offerOutbox[0]).value];
        OfferLeaves(config, w, p);
        var sent := w.sent[w.memory.offerOutbox[0] := p.offer];
        RelayPart(config, w.(sent := sent));
        var timed := S.Timed(S.OfferCall(p.offer), action.now);
        var told := Told(w.(sent := sent), S.Apply(w.table, timed, LIFETIME).table, action.now);
        CallKeepsOffers(config, w, timed, sent, told.held);
        StopKeepsOffers(config, told);
        if S.Apply(w.table, timed, LIFETIME).answer.Done? {
          AckedHead(config, w, p, action.now);
        }
      } else if action.SendDecision? && w.memory.offerOutbox == [] && w.memory.decisionOutbox != [] {
        HeadIsMade(config, w);
        RelayPart(config, w);
        var d := w.memory.decisionOutbox[0];
        var timed := S.Timed(S.DecisionCall(d), action.now);
        D.OwnDecisionAllowed(config, w, d);
        var told := Told(w, S.Apply(w.table, timed, LIFETIME).table, action.now);
        CallKeepsOffers(config, w, timed, w.sent, told.held);
        StopKeepsOffers(config, told);
      }
    }
  }

  lemma AckedHead(config: Config, w: World, p: Pending, now: i64)
    requires Invariant(config, w) && w.phase == Syncing && w.memory.offerOutbox != [] && w.clock <= now
    requires var found := FindPending(w.memory.pending, w.memory.offerOutbox[0]);
             found.Some? && p == w.memory.pending[found.value]
    requires S.Apply(w.table, S.Timed(S.OfferCall(p.offer), now), LIFETIME).answer.Done?
    ensures HeadOffered(config, S.Apply(w.table, S.Timed(S.OfferCall(p.offer), now), LIFETIME).table, now, w.memory)
  {
    hide Invariant, S.Apply, Offered;
    AckedIsOffered(config, w, p, now);
    forall q | q in w.memory.pending && q.request.id == w.memory.offerOutbox[0]
      ensures q == p
    {
      PendingAt(config, w, q);
    }
  }

  lemma PopKeepsOffers(config: Config, w: World)
    requires OffersKept(config, w)
    ensures OffersKept(config, Step(config, w, Pop))
  {
    hide Offered, Saved;
    if w.phase == OfferAcked && w.memory.offerOutbox != [] {
      var popped := w.memory.(offerOutbox := w.memory.offerOutbox[1..]);
      assert w.memory.offerOutbox == [w.memory.offerOutbox[0]] + popped.offerOutbox;
      SavedKeepsOffers(config, w.(memory := popped));
    } else if w.phase == DecisionAcked && w.memory.decisionOutbox != [] {
      SavedKeepsOffers(config, w.(memory := w.memory.(decisionOutbox := w.memory.decisionOutbox[1..])));
    }
  }

  /** A refresh queues an offer for every new request, and confirming or sorting changes no offer. */
  lemma TakeKeepsOffers(config: Config, w: World, context: Context)
    requires Invariant(config, w) && OffersKept(config, w)
    ensures OffersKept(config, Step(config, w, Take(context)))
  {
    hide Invariant, OffersOut, Refresh;
    if && w.phase.Fetched? && context.publisher == config.publisher
       && Refresh(context, w.memory, w.phase.requests, w.phase.confirmations).Changed? {
      RefreshOffers(config, w, context);
    }
  }

  lemma RefreshOffers(config: Config, w: World, context: Context)
    requires Invariant(config, w) && w.phase.Fetched? && context.publisher == config.publisher
    requires OffersOut(config, w.table, w.clock, w.memory)
    requires Refresh(context, w.memory, w.phase.requests, w.phase.confirmations).Changed?
    ensures OffersOut(config, w.table, w.clock,
                      Refresh(context, w.memory, w.phase.requests, w.phase.confirmations).state)
  {
    var requests, confirmations, s := w.phase.requests, w.phase.confirmations, w.memory;
    FetchedIsValid(config, w);
    hide Invariant, Refresh, R.Valid, Offered;
    F.RefreshIs(context, s, requests, confirmations);
    var next := Refresh(context, s, requests, confirmations).state;
    var middle, last :|
      && F.Took(context, s, requests, middle) && F.ConfirmedAll(confirmations, middle, last)
      && next == last.(pending := next.pending)
      && StrictlyOrdered(next.pending, PendingRank) && multiset(next.pending) == multiset(last.pending);
    TookOffers(config, w.table, w.clock, context, s, requests, middle);
    ConfirmedOffers(config, w.table, w.clock, confirmations, middle, last);
    forall p | p in next.pending
      ensures p in last.pending
    {
      assert p in multiset(next.pending);
    }
  }

  lemma FetchedIsValid(config: Config, w: World)
    requires Invariant(config, w) && w.phase.Fetched?
    ensures R.Valid(config.publisher, w.memory) && w.memory.decisionOutbox == []
  {
    hide RelaySound, DiskSound, R.Valid;
  }

  lemma TookOffers(
    config: Config, t: S.Table, clock: i64, context: Context, s: State, requests: seq<PairRequest>, middle: State)
    requires F.Took(context, s, requests, middle) && OffersOut(config, t, clock, s)
    ensures OffersOut(config, t, clock, middle)
  {
    hide Offered, F.Opens, F.Acts, R.PendingIds;
    if context.policy.Required? {
      forall p | p in middle.pending
        ensures p.request.id in middle.offerOutbox || Offered(config, t, clock, p)
      {
        var k :| 0 <= k < |middle.pending| && middle.pending[k] == p;
        if k < |s.pending| {
          assert s.pending[k] == p;
        } else {
          assert F.ActsOn(context, s, requests, p.request.id);
        }
      }
    }
  }

  lemma ConfirmedOffers(
    config: Config, t: S.Table, clock: i64, confirmations: seq<Confirmation>, middle: State, last: State)
    requires F.ConfirmedAll(confirmations, middle, last) && OffersOut(config, t, clock, middle)
    ensures OffersOut(config, t, clock, last)
  {
    hide VerifyConfirmation;
    forall p | p in last.pending
      ensures p.request.id in last.offerOutbox || Offered(config, t, clock, p)
    {
      var k :| 0 <= k < |last.pending| && last.pending[k] == p;
      assert F.ConfirmedOne(confirmations, middle.pending[k], last.pending[k]) && middle.pending[k] in middle.pending;
    }
  }

  lemma DecideKeepsOffers(config: Config, w: World, selects: nat -> bool, approve: bool, now: i64)
    requires Invariant(config, w) && OffersKept(config, w)
    ensures OffersKept(config, Step(config, w, DecideOne(selects, approve, now)))
  {
    hide Invariant, Offered, DecideAt, UniqueIndex;
    var change := Decide(config.publisher, w.memory, selects, approve, now);
    if change.Changed? {
      var index := UniqueIndex(w.memory.pending, (p: Pending) => selects(p.request.id)).value;
      DecidedOffers(config, w, index, approve, now);
    }
  }

  lemma DecidedOffers(config: Config, w: World, index: nat, approve: bool, now: i64)
    requires Invariant(config, w) && index < |w.memory.pending|
    requires DecideAt(config.publisher, w.memory, index, approve, now).Changed?
    requires OffersOut(config, w.table, w.clock, w.memory)
    ensures OffersOut(config, w.table, w.clock, DecideAt(config.publisher, w.memory, index, approve, now).state)
  {
    var s, p := w.memory, w.memory.pending[index];
    MemoryIsDistinct(config, w);
    hide Invariant, Offered, DecideAt, R.Valid, R.Answers;
    R.DecideIs(config.publisher, s, index, approve, now);
    R.OnePendingPerId(s.pending, p);
  }

  lemma MemoryIsDistinct(config: Config, w: World)
    requires Invariant(config, w)
    ensures R.Valid(config.publisher, w.memory) && R.DistinctPending(w.memory.pending)
  {
    hide RelaySound, DiskSound, PhaseSound;
    R.OnlyDistinct(config.publisher, w.memory);
  }

  lemma RevokeKeepsOffers(config: Config, w: World, stream: nat, selects: Identity -> bool)
    requires Invariant(config, w) && OffersKept(config, w)
    ensures OffersKept(config, Step(config, w, RevokeOne(stream, selects)))
  {
    hide RelaySound, DiskSound, PhaseSound, Revoke, Offered;
    if Revoke(w.memory, stream, selects).Changed? {
      RevokedOnly(config.publisher, w.memory, stream, selects);
    }
  }

  lemma FetchKeepsOffers(config: Config, w: World, now: i64)
    requires Invariant(config, w) && OffersKept(config, w)
    ensures OffersKept(config, Step(config, w, Fetch(now)))
  {
    hide Invariant, OffersOut, HeadOffered, S.Deliveries, S.Confirmed, Requests, S.Purged, S.InboxIds;
    if w.phase == Syncing && w.memory.offerOutbox == [] && w.memory.decisionOutbox == [] && w.clock <= now {
      RelayPart(config, w);
      CallKeepsOffers(config, w, S.Timed(S.InboxCall, now), w.sent, w.held);
    }
  }

  lemma OtherKeepsOffers(config: Config, w: World, action: Action)
    requires Invariant(config, w) && OffersKept(config, w)
    requires action.Relay? || action.Load? || action.Save? || action.Crash?
    ensures OffersKept(config, Step(config, w, action))
  {
    hide Invariant, OffersOut, HeadOffered, S.Apply, Allowed, Saved;
    if action.Relay? && w.clock <= action.timed.now && Allowed(config, w.sent, w.made, action.timed.call) {
      RelayPart(config, w);
      CallKeepsOffers(config, w, action.timed, w.sent,
                      Told(w, S.Apply(w.table, action.timed, LIFETIME).table, action.timed.now).held);
    } else if action.Save? {
      SavedKeepsOffers(config, w);
    }
  }

  lemma StepKeepsOffers(config: Config, w: World, action: Action)
    requires Invariant(config, w) && OffersKept(config, w)
    ensures OffersKept(config, Step(config, w, action))
  {
    hide Invariant, OffersKept, Step;
    match action
    case SendOffer(_, _) => SendKeepsOffers(config, w, action);
    case SendDecision(_, _) => SendKeepsOffers(config, w, action);
    case Pop => PopKeepsOffers(config, w);
    case Fetch(now) => FetchKeepsOffers(config, w, now);
    case Take(context) => TakeKeepsOffers(config, w, context);
    case DecideOne(selects, approve, now) => DecideKeepsOffers(config, w, selects, approve, now);
    case RevokeOne(stream, selects) => RevokeKeepsOffers(config, w, stream, selects);
    case _ => OtherKeepsOffers(config, w, action);
  }

  lemma {:induction false} RunKeepsOffers(config: Config, clock: i64, actions: seq<Action>)
    ensures OffersKept(config, Run(config, Initial(clock), actions))
  {
    hide Invariant, Step;
    if actions != [] {
      var most := actions[..|actions| - 1];
      RunKeepsOffers(config, clock, most);
      InitialInvariant(config, clock);
      RunKeepsInvariant(config, Initial(clock), most);
      StepKeepsOffers(config, Run(config, Initial(clock), most), actions[|actions| - 1]);
    }
  }

  /** In every run with crashes and lost connections the saved offer of a pending request is still queued, or
      it is in the relay's row, or the row is gone and the request has expired. */
  lemma OfferServedOrQueued(config: Config, clock: i64, actions: seq<Action>, p: Pending)
    requires p in Run(config, Initial(clock), actions).disk.pending
    ensures var w := Run(config, Initial(clock), actions);
            || p.request.id in w.disk.offerOutbox
            || (p.request.id in w.table && w.table[p.request.id].offer == Some(p.offer))
            || (p.request.id !in w.table && p.request.expiresAt <= w.clock)
  {
    hide Run;
    RunKeepsOffers(config, clock, actions);
    InitialInvariant(config, clock);
    RunKeepsInvariant(config, Initial(clock), actions);
    PendingIsRegistered(config, Run(config, Initial(clock), actions), p);
    hide Invariant;
  }

  lemma PendingIsRegistered(config: Config, w: World, p: Pending)
    requires Invariant(config, w) && p in w.disk.pending
    ensures config.registry(p.request.id) == p.request
  {
    hide RelaySound, MemorySound, PhaseSound, R.Valid;
    assert Keeps(w.disk.pending, p.request, p.offer);
  }
}
