/** What becomes of records in the publisher's outboxes: when the relay takes them, and when it never
    will again. */
module PairingDelivery {
  import opened MachineInts
  import opened Wrappers
  import opened PairingRecords
  import opened Ordering
  import opened PublisherState
  import opened PairingProtocol
  import S = PairingStore
  import R = PublisherRuns

  // ---------------------------------------------------------------- decisions that left the outbox

  /** A saved decision leaves the saved outbox only once a row of the relay has held it. */
  predicate Kept(w: World) {
    && HeldBy(w.table) <= w.held
    && (forall id :: id in w.made ==> w.made[id] in w.disk.decisionOutbox || w.made[id] in w.held)
    && (forall d :: d in w.disk.decisionOutbox ==> d in w.memory.decisionOutbox || d in w.held)
    && (w.phase == DecisionAcked ==> w.memory.decisionOutbox != [] && w.memory.decisionOutbox[0] in w.held)
  }

  lemma StoppedKeeps(w: World)
    requires Kept(w)
    ensures Kept(Stopped(w))
  {
  }

  lemma SavedKeeps(config: Config, w: World)
    requires Invariant(config, w) && Kept(w)
    ensures Kept(Saved(w))
  {
    hide HeldBy, ValidateState, Recorded, RelaySound, DiskSound, MemorySound;
    if ValidateState(w.memory) {
      SaveExtends(config, w);
      var made := Recorded(w.made, w.memory.decisionOutbox);
      forall id | id in made
        ensures made[id] in w.memory.decisionOutbox || made[id] in w.held
      {
        if id !in w.made {
          MadeIsQueued(w.memory.decisionOutbox, id, made);
        }
      }
    }
  }

  lemma PopKeepsKept(config: Config, w: World)
    requires Invariant(config, w) && Kept(w)
    ensures Kept(Step(config, w, Pop))
  {
    hide Invariant, HeldBy, Saved;
    if w.phase == OfferAcked && w.memory.offerOutbox != [] {
      var popped := w.memory.(offerOutbox := w.memory.offerOutbox[1..]);
      PoppedIsSound(config, w, popped);
      SavedKeeps(config, w.(memory := popped, phase := Edited(false)));
      SavedIgnoresPhase(w.(memory := popped), Edited(false));
    } else if w.phase == DecisionAcked && w.memory.decisionOutbox != [] {
      var popped := w.memory.(decisionOutbox := w.memory.decisionOutbox[1..]);
      PoppedIsSound(config, w, popped);
      assert w.memory.decisionOutbox == [w.memory.decisionOutbox[0]] + popped.decisionOutbox;
      SavedKeeps(config, w.(memory := popped, phase := Edited(false)));
      SavedIgnoresPhase(w.(memory := popped), Edited(false));
    }
  }

  lemma SavedIgnoresPhase(w: World, phase: Phase)
    ensures Saved(w.(phase := phase)) == Saved(w)
  {
    hide ValidateState, Recorded;
  }

  lemma SendKeepsKept(config: Config, w: World, action: Action)
    requires Invariant(config, w) && Kept(w) && (action.SendOffer? || action.SendDecision?)
    ensures Kept(Step(config, w, action))
  {
    hide Invariant, HeldBy, S.Apply, FindPending, Kept;
    StoppedKeeps(w);
    if w.phase == Syncing && w.clock <= action.now {
      if && action.SendOffer? && w.memory.offerOutbox != []
         && FindPending(w.memory.pending, w.memory.offerOutbox[0]).Some? {
        var offer := w.memory.pending[FindPending(w.memory.pending, w.memory.offerOutbox[0]).value].offer;
        var t := S.Apply(w.table, S.Timed(S.OfferCall(offer), action.now), LIFETIME).table;
        SentKeeps(w, w.memory.offerOutbox[0], offer);
        AnswerKeeps(w.(sent := w.sent[w.memory.offerOutbox[0] := offer]), t, action.now);
      } else if action.SendDecision? && w.memory.offerOutbox == [] && w.memory.decisionOutbox != [] {
        var d := w.memory.decisionOutbox[0];
        var timed := S.Timed(S.DecisionCall(d), action.now);
        AnswerKeeps(w, S.Apply(w.table, timed, LIFETIME).table, action.now);
        if S.Apply(w.table, timed, LIFETIME).answer.Done? {
          HeadIsMade(config, w);
          RelayPart(config, w);
          AcceptedIsServed(config, w, d, action.now);
        }
      }
    }
  }

  lemma SentKeeps(w: World, id: nat, offer: PairOffer)
    requires Kept(w)
    ensures Kept(w.(sent := w.sent[id := offer]))
  {
    hide HeldBy;
  }

  lemma AnswerKeeps(w: World, t: S.Table, now: i64)
    requires Kept(w)
    ensures var told := Told(w, t, now);
            && Kept(Stopped(told)) && Kept(told.(phase := OfferAcked))
            && (w.memory.decisionOutbox != [] && w.memory.decisionOutbox[0] in HeldBy(t) ==>
                  Kept(told.(phase := DecisionAcked)))
  {
    hide HeldBy;
  }

  lemma EditKeepsKept(config: Config, w: World, action: Action)
    requires Invariant(config, w) && Kept(w) && (action.Take? || action.DecideOne? || action.RevokeOne?)
    ensures Kept(Step(config, w, action))
  {
    hide HeldBy, RelaySound, DiskSound, Refresh, Decide, Revoke;
    match action
    case Take(_) =>
    case DecideOne(selects, approve, now) =>
      if Decide(config.publisher, w.memory, selects, approve, now).Changed? {
        DecidedAddsOne(config, w, selects, approve, now);
      }
    case RevokeOne(stream, selects) =>
      if Revoke(w.memory, stream, selects).Changed? {
        RevokedOnly(config.publisher, w.memory, stream, selects);
      }
  }

  lemma DecidedAddsOne(config: Config, w: World, selects: nat -> bool, approve: bool, now: i64)
    requires R.Valid(config.publisher, w.memory) && Decide(config.publisher, w.memory, selects, approve, now).Changed?
    ensures forall d :: d in w.memory.decisionOutbox ==>
                          d in Decide(config.publisher, w.memory, selects, approve, now).state.decisionOutbox
  {
    hide DecideAt, R.Valid;
    var index := UniqueIndex(w.memory.pending, (p: Pending) => selects(p.request.id)).value;
    R.DecideIs(config.publisher, w.memory, index, approve, now);
  }

  lemma StepKeepsKept(config: Config, w: World, action: Action)
    requires Invariant(config, w) && Kept(w)
    ensures Kept(Step(config, w, action))
  {
    if action.SendOffer? || action.SendDecision? {
      SendKeepsKept(config, w, action);
    } else if action.Take? || action.DecideOne? || action.RevokeOne? {
      EditKeepsKept(config, w, action);
    } else if action.Pop? {
      PopKeepsKept(config, w);
    } else if action.Save? {
      SavedKeeps(config, w);
    } else {
      OtherStepsKeep(config, w, action);
    }
    hide Invariant, Kept, Step;
  }

  lemma OtherStepsKeep(config: Config, w: World, action: Action)
    requires Kept(w) && (action.Relay? || action.Load? || action.Fetch? || action.Crash?)
    ensures Kept(Step(config, w, action))
  {
    hide S.Apply, Allowed, S.Purged, HeldBy, S.InboxIds, S.Deliveries, S.Confirmed, Requests;
    PurgedHolds(w.table, if action.Fetch? then action.now else w.clock);
  }

  lemma PurgedHolds(t: S.Table, now: i64)
    ensures HeldBy(S.Purged(t, now)) <= HeldBy(t)
  {
  }

  lemma {:induction false} RunKeepsKept(config: Config, clock: i64, actions: seq<Action>)
    ensures Kept(Run(config, Initial(clock), actions))
  {
    hide Invariant, Step;
    if actions != [] {
      var most := actions[..|actions| - 1];
      RunKeepsKept(config, clock, most);
      InitialInvariant(config, clock);
      RunKeepsInvariant(config, Initial(clock), most);
      StepKeepsKept(config, Run(config, Initial(clock), most), actions[|actions| - 1]);
    }
  }

  /** Agreement on decisions: every decision ever saved is still in the saved outbox or some row of the
      relay has held exactly it, and what a row of this publisher holds is that decision. */
  lemma DecisionAgreement(config: Config, clock: i64, actions: seq<Action>, id: nat)
    requires id in Run(config, Initial(clock), actions).made
    ensures var w := Run(config, Initial(clock), actions);
            && w.made[id].requestId == id
            && (w.made[id] in w.disk.decisionOutbox
                || (w.made[id] in w.held && (id in w.table ==> w.table[id].decision == Some(w.made[id]))))
            && (id in w.table && w.table[id].decision.Some? && w.table[id].request.publisher == config.publisher ==>
                  w.table[id].decision == Some(w.made[id]))
  {
    hide Run, Kept;
    RunKeepsKept(config, clock, actions);
    ServedOrQueued(config, clock, actions, id);
    var w := Run(config, Initial(clock), actions);
    assert w.made[id] in w.disk.decisionOutbox || w.made[id] in w.held by { KeptMeans(w, id); }
  }

  lemma KeptMeans(w: World, id: nat)
    requires Kept(w) && id in w.made
    ensures w.made[id] in w.disk.decisionOutbox || w.made[id] in w.held
  {
  }

  // ---------------------------------------------------------------- what the relay still has

  /** The relay has the request, or its time is over. */
  predicate Present(config: Config, t: S.Table, clock: i64, id: nat) {
    id in t || config.registry(id).expiresAt <= clock
  }

  /** The offer was made for the rest of the request's life, and a confirmation the publisher holds is the
      one in the row. */
  predicate HeldPending(config: Config, t: S.Table, clock: i64, p: Pending) {
    && Present(config, t, clock, p.request.id)
    && p.offer.issuedAt < p.request.expiresAt == p.offer.expiresAt
    && (p.confirmation.Some? && p.request.id in t ==> t[p.request.id].confirmation == p.confirmation)
  }

  /** The decision is for its registered request, and the ceremony in the row bears it out. */
  predicate Deliverable(config: Config, t: S.Table, clock: i64, d: Decision) {
    && VerifyDecision(d, config.registry(d.requestId), config.publisher) == Passed
    && Present(config, t, clock, d.requestId)
    && (d.requestId in t ==> S.CeremonyCheck(d, t[d.requestId]) == Passed)
  }

  predicate AllHeld(config: Config, t: S.Table, clock: i64, pending: seq<Pending>) {
    forall p :: p in pending ==> HeldPending(config, t, clock, p)
  }

  predicate AllDeliverable(config: Config, t: S.Table, clock: i64, outbox: seq<Decision>) {
    forall d :: d in outbox ==> Deliverable(config, t, clock, d)
  }

  predicate InboxHeld(
    config: Config, t: S.Table, clock: i64, requests: seq<PairRequest>, confirmations: seq<Confirmation>)
  {
    && (forall q :: q in requests ==> Present(config, t, clock, q.id))
    && (forall c :: c in confirmations ==> c.requestId in t ==> t[c.requestId].confirmation == Some(c))
  }

  predicate StateHeld(config: Config, t: S.Table, clock: i64, s: State) {
    AllHeld(config, t, clock, s.pending) && AllDeliverable(config, t, clock, s.decisionOutbox)
  }

  predicate Delivery(config: Config, w: World) {
    && StateHeld(config, w.table, w.clock, w.disk)
    && StateHeld(config, w.table, w.clock, w.memory)
    && (w.phase.Fetched? ==> InboxHeld(config, w.table, w.clock, w.phase.requests, w.phase.confirmations)
                             && forall c :: c in w.phase.confirmations ==>
                                  Present(config, w.table, w.clock, c.requestId))
  }

  // ---------------------------------------------------------------- the relay moves on

  /** What a served call can do to a registered row. */
  lemma RegisteredRow(
    config: Config, t: S.Table, clock: i64, timed: S.Timed, sent: map<nat, PairOffer>, made: map<nat, Decision>,
    id: nat)
    requires RelaySound(config, t, clock, sent, made) && clock <= timed.now && Allowed(config, sent, made, timed.call)
    ensures var next := S.Apply(t, timed, LIFETIME).table;
            && (Present(config, t, clock, id) ==> Present(config, next, timed.now, id))
            && (id in next && Present(config, t, clock, id) ==> id in t && S.Grows(t[id], next[id]))
  {
    hide S.Apply, VerifyRequest, S.Integrity, S.Stale, S.RowTimes;
    var next := S.Apply(t, timed, LIFETIME).table;
    var q := config.registry(id);
    RelayStepKeeps(config, t, clock, timed, sent, made);
    S.CallEffect(t, timed, LIFETIME, id);
    if id in t && S.Stale(t[id], timed.now) {
      assert RowKnown(config, sent, made, id, t[id]);
      S.StaleIsExpired(t[id], clock, timed.now, LIFETIME);
    }
    if id in next {
      assert RowKnown(config, sent, made, id, next[id]);
      if VerifyRequest(q, timed.now, LIFETIME) == Passed {
        S.FreshTimes(q, timed.now, LIFETIME);
      }
    }
  }

  lemma CeremonyStays(d: Decision, row: S.Row, later: S.Row)
    requires S.Grows(row, later) && S.CeremonyCheck(d, row) == Passed
    ensures S.CeremonyCheck(d, later) == Passed
  {
    hide VerifyConfirmation, TranscriptHash;
  }

  lemma StateStays(
    config: Config, t: S.Table, clock: i64, timed: S.Timed, sent: map<nat, PairOffer>, made: map<nat, Decision>,
    s: State)
    requires RelaySound(config, t, clock, sent, made) && clock <= timed.now && Allowed(config, sent, made, timed.call)
    requires StateHeld(config, t, clock, s)
    ensures StateHeld(config, S.Apply(t, timed, LIFETIME).table, timed.now, s)
  {
    hide S.Apply, RelaySound, Present, VerifyDecision, S.CeremonyCheck, Allowed;
    var next := S.Apply(t, timed, LIFETIME).table;
    forall p | p in s.pending
      ensures HeldPending(config, next, timed.now, p)
    {
      RegisteredRow(config, t, clock, timed, sent, made, p.request.id);
    }
    forall d | d in s.decisionOutbox
      ensures Deliverable(config, next, timed.now, d)
    {
      RegisteredRow(config, t, clock, timed, sent, made, d.requestId);
      if d.requestId in next {
        CeremonyStays(d, t[d.requestId], next[d.requestId]);
      }
    }
  }

  lemma InboxStays(
    config: Config, t: S.Table, clock: i64, timed: S.Timed, sent: map<nat, PairOffer>, made: map<nat, Decision>,
    requests: seq<PairRequest>, confirmations: seq<Confirmation>)
    requires RelaySound(config, t, clock, sent, made) && clock <= timed.now && Allowed(config, sent, made, timed.call)
    requires InboxHeld(config, t, clock, requests, confirmations)
    requires forall c :: c in confirmations ==> Present(config, t, clock, c.requestId)
    ensures InboxHeld(config, S.Apply(t, timed, LIFETIME).table, timed.now, requests, confirmations)
    ensures forall c :: c in confirmations ==>
              Present(config, S.Apply(t, timed, LIFETIME).table, timed.now, c.requestId)
  {
    hide S.Apply, RelaySound, Present, Allowed;
    var next := S.Apply(t, timed, LIFETIME).table;
    forall q | q in requests
      ensures Present(config, next, timed.now, q.id)
    {
      RegisteredRow(config, t, clock, timed, sent, made, q.id);
    }
    forall c | c in confirmations
      ensures Present(config, next, timed.now, c.requestId)
      ensures c.requestId in next ==> next[c.requestId].confirmation == Some(c)
    {
      RegisteredRow(config, t, clock, timed, sent, made, c.requestId);
    }
  }

  lemma CallDelivers(config: Config, w: World, timed: S.Timed, sent: map<nat, PairOffer>, held: set<Decision>)
    requires RelaySound(config, w.table, w.clock, sent, w.made) && Delivery(config, w)
    requires w.clock <= timed.now && Allowed(config, sent, w.made, timed.call)
    ensures Delivery(config,
                     w.(table := S.Apply(w.table, timed, LIFETIME).table, clock := timed.now, sent := sent,
                        held := held))
  {
    hide S.Apply, RelaySound, StateHeld, InboxHeld, Present, Allowed;
    StateStays(config, w.table, w.clock, timed, sent, w.made, w.disk);
    StateStays(config, w.table, w.clock, timed, sent, w.made, w.memory);
    if w.phase.Fetched? {
      InboxStays(config, w.table, w.clock, timed, sent, w.made, w.phase.requests, w.phase.confirmations);
    }
  }

  // ---------------------------------------------------------------- the publisher's steps

  lemma StopDelivers(config: Config, w: World)
    requires Delivery(config, w)
    ensures Delivery(config, Stopped(w))
  {
    hide StateHeld;
  }

  lemma AckDelivers(config: Config, w: World, phase: Phase)
    requires Delivery(config, w) && !phase.Fetched?
    ensures Delivery(config, w.(phase := phase))
  {
    hide StateHeld;
  }

  lemma SendDelivers(config: Config, w: World, action: Action)
    requires Invariant(config, w) && Delivery(config, w) && (action.SendOffer? || action.SendDecision?)
    ensures Delivery(config, Step(config, w, action))
  {
    hide Invariant, Delivery, S.Apply, FindPending, Allowed;
    StopDelivers(config, w);
    if w.phase == Syncing && w.clock <= action.now {
      if && action.SendOffer? && w.memory.offerOutbox != []
         && FindPending(w.memory.pending, w.memory.offerOutbox[0]).Some? {
        var p := w.memory.pending[FindPending(w.memory.pending, w.memory.offerOutbox[0]).value];
        OfferLeaves(config, w, p);
        var sent := w.sent[w.memory.offerOutbox[0] := p.offer];
        RelayPart(config, w.(sent := sent));
        var timed := S.Timed(S.OfferCall(p.offer), action.now);
        var told := Told(w.(sent := sent), S.Apply(w.table, timed, LIFETIME).table, action.now);
        CallDelivers(config, w, timed, sent, told.held);
        StopDelivers(config, told);
        AckDelivers(config, told, OfferAcked);
      } else if action.SendDecision? && w.memory.offerOutbox == [] && w.memory.decisionOutbox != [] {
        HeadIsMade(config, w);
        RelayPart(config, w);
        var timed := S.Timed(S.DecisionCall(w.memory.decisionOutbox[0]), action.now);
        assert Allowed(config, w.sent, w.made, timed.call) by {
          OwnDecisionAllowed(config, w, w.memory.decisionOutbox[0]);
        }
        var told := Told(w, S.Apply(w.table, timed, LIFETIME).table, action.now);
        CallDelivers(config, w, timed, w.sent, told.held);
        StopDelivers(config, told);
        AckDelivers(config, told, DecisionAcked);
      }
    }
  }

  lemma OwnDecisionAllowed(config: Config, w: World, d: Decision)
    requires d.requestId in w.made && w.made[d.requestId] == d
    ensures Allowed(config, w.sent, w.made, S.DecisionCall(d))
  {
  }

  lemma SavedDelivers(config: Config, w: World)
    requires Delivery(config, w)
    ensures Delivery(config, Saved(w))
  {
    hide StateHeld, ValidateState, Recorded;
  }

  lemma PopDelivers(config: Config, w: World)
    requires Delivery(config, w)
    ensures Delivery(config, Step(config, w, Pop))
  {
    hide Saved, Present, HeldPending, Deliverable;
    if w.phase == OfferAcked && w.memory.offerOutbox != [] {
      SavedDelivers(config, w.(memory := w.memory.(offerOutbox := w.memory.offerOutbox[1..])));
    } else if w.phase == DecisionAcked && w.memory.decisionOutbox != [] {
      var popped := w.memory.(decisionOutbox := w.memory.decisionOutbox[1..]);
      assert forall d :: d in popped.decisionOutbox ==> d in w.memory.decisionOutbox;
      SavedDelivers(config, w.(memory := popped));
    }
  }

  lemma FetchDelivers(config: Config, w: World, now: i64)
    requires Invariant(config, w) && Delivery(config, w)
    ensures Delivery(config, Step(config, w, Fetch(now)))
  {
    hide Invariant, S.Deliveries, S.Confirmed, Requests, S.Purged, StateHeld;
    if w.phase == Syncing && w.memory.offerOutbox == [] && w.memory.decisionOutbox == [] && w.clock <= now {
      var kept := S.Purged(w.table, now);
      var ids := S.InboxIds(kept, config.publisher);
      RelayPart(config, w);
      CallDelivers(config, w, S.Timed(S.InboxCall, now), w.sent, w.held);
      RelayCallKeeps(config, w, S.Timed(S.InboxCall, now), w.held);
      var after := w.(table := kept, clock := now);
      SyncingIsSaved(config, after);
      ListedAreMine(kept, config.publisher);
      forall q | q in Requests(S.Deliveries(kept, ids))
        ensures q.id in kept
      {
        DeliveredFrom(kept, ids, q);
        var k :| 0 <= k < |ids| && kept[ids[k]].request == q;
        UndecidedRowIsOpen(config, after, ids[k]);
      }
      forall c | c in S.Confirmed(kept, ids)
        ensures c.requestId in kept && kept[c.requestId].confirmation == Some(c)
      {
        ConfirmedFrom(kept, ids, c);
        var k :| 0 <= k < |ids| && kept[ids[k]].confirmation == Some(c);
        UndecidedRowIsOpen(config, after, ids[k]);
      }
    }
  }

  lemma RevokeDelivers(config: Config, w: World, stream: nat, selects: Identity -> bool)
    requires Invariant(config, w) && Delivery(config, w)
    ensures Delivery(config, Step(config, w, RevokeOne(stream, selects)))
  {
    hide RelaySound, DiskSound, Revoke, HeldPending, Deliverable;
    if Revoke(w.memory, stream, selects).Changed? {
      RevokedOnly(config.publisher, w.memory, stream, selects);
    }
  }

  // ---------------------------------------------------------------- deciding

  /** An approval of a held pending request is borne out by the row the relay has. */
  lemma ApprovalIsBorneOut(config: Config, w: World, p: Pending, now: i64)
    requires RelaySound(config, w.table, w.clock, w.sent, w.made) && HeldPending(config, w.table, w.clock, p)
    requires R.PendingFits(config.publisher, p) && config.registry(p.request.id) == p.request && p.confirmation.Some?
    ensures var made := ApproveManual(config.publisher, p.request, p.offer, p.confirmation.value, now);
            made.Ok? && Deliverable(config, w.table, w.clock, made.value)
  {
    hide RequestMetadata, OfferMetadata, S.Timely;
    R.MadeForPending(config.publisher, p, now);
    MadeDecisionsVerify(config.publisher, p.request, p.offer, p.confirmation.value, Rejected, now);
    if p.request.id in w.table {
      assert S.RowIntegrity(p.request.id, w.table[p.request.id]);
      assert RowKnown(config, w.sent, w.made, p.request.id, w.table[p.request.id]);
    }
  }

  lemma DenialIsDeliverable(config: Config, w: World, p: Pending, now: i64)
    requires HeldPending(config, w.table, w.clock, p)
    requires R.PendingFits(config.publisher, p) && config.registry(p.request.id) == p.request
    ensures var made := Reject(config.publisher, p.request, now);
            made.Ok? && Deliverable(config, w.table, w.clock, made.value)
  {
    hide RequestMetadata, OfferMetadata, VerifyConfirmation;
    R.MadeForPending(config.publisher, p, now);
  }

  lemma DecideDelivers(config: Config, w: World, selects: nat -> bool, approve: bool, now: i64)
    requires Invariant(config, w) && Delivery(config, w)
    ensures Delivery(config, Step(config, w, DecideOne(selects, approve, now)))
  {
    hide Invariant, HeldPending, Deliverable, DecideAt;
    var change := Decide(config.publisher, w.memory, selects, approve, now);
    if change.Changed? {
      var index := UniqueIndex(w.memory.pending, (p: Pending) => selects(p.request.id)).value;
      DecidedDelivers(config, w, index, approve, now);
    }
  }

  lemma DecidedDelivers(config: Config, w: World, index: nat, approve: bool, now: i64)
    requires Invariant(config, w) && Delivery(config, w) && index < |w.memory.pending|
    requires DecideAt(config.publisher, w.memory, index, approve, now).Changed?
    ensures StateHeld(config, w.table, w.clock, DecideAt(config.publisher, w.memory, index, approve, now).state)
  {
    var p := w.memory.pending[index];
    MemoryPart(config, w, index);
    RelayPart(config, w);
    hide Invariant, HeldPending, Deliverable, R.PendingFits, AddApproved, Reject, ApproveManual, Retain, SortBy;
    assert p in w.memory.pending && HeldPending(config, w.table, w.clock, p);
    R.DecideIs(config.publisher, w.memory, index, approve, now);
    DenialIsDeliverable(config, w, p, now);
    if approve {
      R.DecideSucceedsExactlyWhen(config.publisher, w.memory, index, approve, now);
      ApprovalIsBorneOut(config, w, p, now);
    }
    var made := if approve then ApproveManual(config.publisher, p.request, p.offer, p.confirmation.value, now).value
                else Reject(config.publisher, p.request, now).value;
    DecideQueues(config.publisher, w.memory, index, approve, now, made);
  }

  lemma MemoryPart(config: Config, w: World, index: nat)
    requires Invariant(config, w) && index < |w.memory.pending|
    ensures var p := w.memory.pending[index];
            && R.Valid(config.publisher, w.memory) && R.PendingFits(config.publisher, p)
            && config.registry(p.request.id) == p.request
  {
    hide RelaySound, DiskSound, R.GrantsSound, R.DecisionsSound;
    KeptAt(w.memory.pending, index);
    assert w.memory.pending[index] in w.memory.pending;
  }

  /** The decision queued is the one that was made. */
  lemma DecideQueues(publisher: Identity, s: State, index: nat, approve: bool, now: i64, made: Decision)
    requires R.Valid(publisher, s) && index < |s.pending| && DecideAt(publisher, s, index, approve, now).Changed?
    requires var p := s.pending[index];
             if approve then
               && p.confirmation.Some?
               && ApproveManual(publisher, p.request, p.offer, p.confirmation.value, now) == Ok(made)
             else Reject(publisher, p.request, now) == Ok(made)
    ensures forall d :: d in DecideAt(publisher, s, index, approve, now).state.decisionOutbox ==>
              d in s.decisionOutbox || d == made
  {
    hide R.GrantsSound, R.CeremoniesSound, AddApproved, QueueDecision, Retain, Reject, ApproveManual;
    var p := s.pending[index];
    if approve {
      AddApprovedOnly(s, GrantOf(p.request));
      R.QueueIs(AddApproved(s, GrantOf(p.request)).state, made);
    } else {
      R.QueueIs(s, made);
    }
  }

  // ---------------------------------------------------------------- taking the inbox

  lemma NewPendingIsHeld(config: Config, context: Context, t: S.Table, clock: i64, q: PairRequest)
    requires Present(config, t, clock, q.id)
    ensures var made := NewOffer(context.publisher, q, context.relayContext, context.nonces(q), context.answeredAt(q),
                                 q.expiresAt, PublisherState.PAIR_LIFETIME_MS);
            made.Ok? ==> HeldPending(config, t, clock, Pending(q, made.value, None, context.sources(q)))
  {
    hide RequestMetadata, OfferMetadata, Present;
    TimeCheckMeans(q.issuedAt, q.expiresAt, context.answeredAt(q), PublisherState.PAIR_LIFETIME_MS);
  }

  lemma PolicyDecisionIsDeliverable(config: Config, context: Context, t: S.Table, clock: i64, q: PairRequest)
    requires Present(config, t, clock, q.id) && config.registry(q.id) == q && context.publisher == config.publisher
    ensures var made := ApproveByPolicy(context.publisher, q, PolicyReason(context.policy), context.answeredAt(q));
            made.Ok? ==> made.value.requestId == q.id && Deliverable(config, t, clock, made.value)
  {
    hide Present;
  }

  lemma TakeOneIsHeld(config: Config, context: Context, t: S.Table, clock: i64, s: State, q: PairRequest)
    requires R.Sound(context.publisher, s) && StateHeld(config, t, clock, s) && context.publisher == config.publisher
    requires Present(config, t, clock, q.id) && config.registry(q.id) == q && TakeRequest(context, s, q).Changed?
    ensures StateHeld(config, t, clock, TakeRequest(context, s, q).state)
  {
    hide R.GrantsSound, R.CeremoniesSound, VerifyRequest, AddApproved, QueueDecision, NewOffer, HeldPending,
         Deliverable, Present,
         ApproveByPolicy;
    NewPendingIsHeld(config, context, t, clock, q);
    PolicyDecisionIsDeliverable(config, context, t, clock, q);
    AddApprovedOnly(s, GrantOf(q));
    var granted := AddApproved(s, GrantOf(q));
    var made := ApproveByPolicy(context.publisher, q, PolicyReason(context.policy), context.answeredAt(q));
    if granted.Changed? && made.Ok? {
      R.QueueIs(granted.state, made.value);
    }
  }

  lemma {:induction false} TakeAllIsHeld(
    config: Config, context: Context, t: S.Table, clock: i64, s: State, requests: seq<PairRequest>)
    requires R.Sound(context.publisher, s) && R.OnePath(context, s)
    requires StateHeld(config, t, clock, s) && context.publisher == config.publisher
    requires forall q :: q in requests ==> Present(config, t, clock, q.id) && config.registry(q.id) == q
    requires TakeRequests(context, s, requests).Changed?
    ensures StateHeld(config, t, clock, TakeRequests(context, s, requests).state)
  {
    hide R.Sound, StateHeld, TakeRequest, Present;
    if requests != [] {
      var most, q := requests[..|requests| - 1], requests[|requests| - 1];
      assert q in requests && forall r :: r in most ==> r in requests;
      TakeAllIsHeld(config, context, t, clock, s, most);
      R.TakeRequestsKeep(context, s, most);
      TakeOneIsHeld(config, context, t, clock, TakeRequests(context, s, most).state, q);
    }
  }

  lemma {:induction false} ConfirmationsAreHeld(
    config: Config, t: S.Table, clock: i64, s: State, confirmations: seq<Confirmation>)
    requires StateHeld(config, t, clock, s) && TakeConfirmations(s, confirmations).Changed?
    requires forall c :: c in confirmations ==> c.requestId in t ==> t[c.requestId].confirmation == Some(c)
    ensures StateHeld(config, t, clock, TakeConfirmations(s, confirmations).state)
  {
    hide StateHeld, TakeConfirmation;
    if confirmations != [] {
      var most, c := confirmations[..|confirmations| - 1], confirmations[|confirmations| - 1];
      assert c in confirmations && forall d :: d in most ==> d in confirmations;
      ConfirmationsAreHeld(config, t, clock, s, most);
      OneConfirmationIsHeld(config, t, clock, TakeConfirmations(s, most).state, c);
    }
  }

  lemma OneConfirmationIsHeld(config: Config, t: S.Table, clock: i64, s: State, c: Confirmation)
    requires StateHeld(config, t, clock, s) && TakeConfirmation(s, c).Changed?
    requires c.requestId in t ==> t[c.requestId].confirmation == Some(c)
    ensures StateHeld(config, t, clock, TakeConfirmation(s, c).state)
  {
    hide Deliverable, Present, VerifyConfirmation;
    var found := FindPending(s.pending, c.requestId);
    if found.Some? {
      assert s.pending[found.value] in s.pending;
      var next := TakeConfirmation(s, c).state.pending;
      forall p | p in next
        ensures HeldPending(config, t, clock, p)
      {
        var k :| 0 <= k < |next| && next[k] == p;
        assert s.pending[k] in s.pending;
      }
    }
  }

  lemma SortedIsHeld(config: Config, t: S.Table, clock: i64, s: State)
    requires StateHeld(config, t, clock, s)
    ensures StateHeld(config, t, clock, s.(pending := SortBy(s.pending, PendingRank)))
  {
    hide Deliverable, HeldPending, SortBy;
    forall p | p in SortBy(s.pending, PendingRank)
      ensures p in s.pending
    {
      SortMembers(s.pending, PendingRank, p);
    }
  }

  lemma TakeDelivers(config: Config, w: World, context: Context)
    requires Invariant(config, w) && Delivery(config, w)
    ensures Delivery(config, Step(config, w, Take(context)))
  {
    hide Invariant, StateHeld, TakeRequests, TakeConfirmations, Present, TakingSound, SortBy;
    if w.phase.Fetched? && context.publisher == config.publisher {
      var requests, confirmations := w.phase.requests, w.phase.confirmations;
      var taken := TakeRequests(context, w.memory, requests);
      if Refresh(context, w.memory, requests, confirmations).Changed? {
        FetchedPart(config, w);
        TakeAllIsHeld(config, context, w.table, w.clock, w.memory, requests);
        ConfirmationsAreHeld(config, w.table, w.clock, taken.state, confirmations);
        SortedIsHeld(config, w.table, w.clock, TakeConfirmations(taken.state, confirmations).state);
      }
    }
  }

  lemma FetchedPart(config: Config, w: World)
    requires Invariant(config, w) && w.phase.Fetched?
    ensures R.Sound(config.publisher, w.memory) && w.memory.decisionOutbox == []
    ensures forall q :: q in w.phase.requests ==> config.registry(q.id) == q
  {
    hide RelaySound, DiskSound, R.Sound, PendingKnown;
  }

  // ---------------------------------------------------------------- every run

  lemma StepDelivers(config: Config, w: World, action: Action)
    requires Invariant(config, w) && Delivery(config, w)
    ensures Delivery(config, Step(config, w, action))
  {
    match action
    case Relay(timed) => RelayDelivers(config, w, timed);
    case SendOffer(_, _) => SendDelivers(config, w, action);
    case SendDecision(_, _) => SendDelivers(config, w, action);
    case Pop => PopDelivers(config, w);
    case Fetch(now) => FetchDelivers(config, w, now);
    case Take(context) => TakeDelivers(config, w, context);
    case DecideOne(selects, approve, now) => DecideDelivers(config, w, selects, approve, now);
    case RevokeOne(stream, selects) => RevokeDelivers(config, w, stream, selects);
    case Save => SaveDelivers(config, w);
    case Load => LoadDelivers(config, w);
    case Crash => CrashDelivers(config, w);
  }

  lemma RelayDelivers(config: Config, w: World, timed: S.Timed)
    requires Invariant(config, w) && Delivery(config, w)
    ensures Delivery(config, Step(config, w, Relay(timed)))
  {
    hide Invariant, Delivery, S.Apply, Allowed;
    if w.clock <= timed.now && Allowed(config, w.sent, w.made, timed.call) {
      RelayPart(config, w);
      CallDelivers(config, w, timed, w.sent, Told(w, S.Apply(w.table, timed, LIFETIME).table, timed.now).held);
    }
  }

  lemma SaveDelivers(config: Config, w: World)
    requires Delivery(config, w)
    ensures Delivery(config, Step(config, w, Save))
  {
    hide Delivery, Saved;
    SavedDelivers(config, w);
  }

  lemma LoadDelivers(config: Config, w: World)
    requires Delivery(config, w)
    ensures Delivery(config, Step(config, w, Load))
  {
    hide StateHeld;
  }

  lemma CrashDelivers(config: Config, w: World)
    requires Delivery(config, w)
    ensures Delivery(config, Step(config, w, Crash))
  {
    hide Delivery;
    StopDelivers(config, w);
  }

  /** In every run a decision in an outbox is borne out by the relay's row, and a confirmation the
      publisher holds is the row's, as long as the row is there; a row that is gone has expired. */
  lemma {:induction false} RunDelivers(config: Config, clock: i64, actions: seq<Action>)
    ensures Invariant(config, Run(config, Initial(clock), actions))
    ensures Delivery(config, Run(config, Initial(clock), actions))
  {
    hide Invariant, Step;
    InitialInvariant(config, clock);
    RunKeepsInvariant(config, Initial(clock), actions);
    if actions != [] {
      var most := actions[..|actions| - 1];
      RunDelivers(config, clock, most);
      StepDelivers(config, Run(config, Initial(clock), most), actions[|actions| - 1]);
    }
  }

  // ---------------------------------------------------------------- when a record is taken

  /** An acknowledged send of the first queued decision succeeds if and only if the relay still has the
      request's row. */
  lemma DecisionServedExactlyWhen(config: Config, w: World, now: i64)
    requires Invariant(config, w) && Delivery(config, w)
    requires w.phase == Syncing && w.memory.offerOutbox == [] && w.memory.decisionOutbox != [] && w.clock <= now
    ensures Step(config, w, SendDecision(now, true)).phase == DecisionAcked
            <==> w.memory.decisionOutbox[0].requestId in S.Purged(w.table, now)
  {
    RelayPart(config, w);
    hide Invariant, Step, S.Integrity, S.Timely, VerifyDecision, S.CeremonyCheck, S.Stale, S.StoreDecision;
    var d := w.memory.decisionOutbox[0];
    assert d in w.memory.decisionOutbox && Deliverable(config, w.table, w.clock, d);
    assert d.requestId in w.table ==> RowKnown(config, w.sent, w.made, d.requestId, w.table[d.requestId]);
    DecisionAckedExactlyWhen(config, w, now);
    DecisionStoredExactlyWhen(w.table, d, now);
  }

  lemma DecisionAckedExactlyWhen(config: Config, w: World, now: i64)
    requires w.phase == Syncing && w.memory.offerOutbox == [] && w.memory.decisionOutbox != [] && w.clock <= now
    ensures Step(config, w, SendDecision(now, true)).phase == DecisionAcked
            <==> S.StoreDecision(w.table, w.memory.decisionOutbox[0], now).answer.Done?
  {
    hide S.StoreDecision;
  }

  lemma DecisionStoredExactlyWhen(t: S.Table, d: Decision, now: i64)
    ensures var kept := S.Purged(t, now);
            S.StoreDecision(t, d, now).answer.Done?
            <==> && d.requestId in kept
                 && VerifyDecision(d, kept[d.requestId].request, kept[d.requestId].request.publisher) == Passed
                 && S.CeremonyCheck(d, kept[d.requestId]) == Passed
  {
    hide VerifyDecision, S.CeremonyCheck, S.Purged;
  }

  // ---------------------------------------------------------------- records the relay will never take

  /** The first queued offer is for an expired request, or lives longer than the relay allows. */
  predicate HopelessOffer(w: World, p: Pending) {
    p.request.expiresAt <= w.clock || p.offer.expiresAt - p.offer.issuedAt > LIFETIME
  }

  /** The head of the saved outbox is a record the relay will not take. */
  predicate Stuck(w: World) {
    if w.disk.offerOutbox != [] then
      (match FindPending(w.disk.pending, w.disk.offerOutbox[0])
       case None => true
       case Some(i) => HopelessOffer(w, w.disk.pending[i]))
    else
      w.disk.decisionOutbox != [] && w.disk.decisionOutbox[0].requestId !in S.Purged(w.table, w.clock)
  }

  /** Whether an acknowledged send at some time gets the head of the outbox across. */
  ghost predicate Takes(config: Config, w: World, now: i64) {
    if w.memory.offerOutbox != [] then Step(config, w, SendOffer(now, true)).phase == OfferAcked
    else Step(config, w, SendDecision(now, true)).phase == DecisionAcked
  }

  /** A row that is gone or stale when a call is served stays so. */
  lemma GoneStaysGone(
    config: Config, t: S.Table, clock: i64, timed: S.Timed, sent: map<nat, PairOffer>, made: map<nat, Decision>,
    id: nat)
    requires RelaySound(config, t, clock, sent, made) && clock <= timed.now && Allowed(config, sent, made, timed.call)
    requires Present(config, t, clock, id) && id !in S.Purged(t, clock)
    ensures id !in S.Purged(S.Apply(t, timed, LIFETIME).table, timed.now)
  {
    hide S.Apply, RelaySound, Allowed;
    RegisteredRow(config, t, clock, timed, sent, made, id);
    if id in S.Apply(t, timed, LIFETIME).table {
      StaleIsNotDecided(t, timed, id);
    }
  }

  lemma StaleIsNotDecided(t: S.Table, timed: S.Timed, id: nat)
    requires id in t && S.Stale(t[id], timed.now) && id in S.Apply(t, timed, LIFETIME).table
    ensures var next := S.Apply(t, timed, LIFETIME).table; next[id] == t[id] || next[id].decision.None?
  {
    hide VerifyRequest, VerifyOffer, VerifyConfirmation, VerifyDecision, S.CeremonyCheck, S.BoundsCheck, S.Stale;
    assert id !in S.Purged(t, timed.now);
  }

  /** A hopeless offer is never acknowledged, whenever it is sent. */
  lemma HopelessIsRefused(config: Config, w: World, now: i64)
    requires Invariant(config, w) && w.phase == Syncing && w.memory.offerOutbox != [] && w.clock <= now && Stuck(w)
    ensures Step(config, w, SendOffer(now, true)).phase != OfferAcked
  {
    HeadIsKept(config, w);
    SyncingIsSaved(config, w);
    hide Invariant, FindPending, RequestMetadata, OfferMetadata, S.Purged, Step;
    var p := w.memory.pending[FindPending(w.memory.pending, w.memory.offerOutbox[0]).value];
    OfferServedExactlyWhen(config, w, p, now);
    TimeCheckMeans(p.request.issuedAt, p.request.expiresAt, now, LIFETIME);
    TimeCheckMeans(p.offer.issuedAt, p.offer.expiresAt, now, LIFETIME);
  }

  /** An offer that is not hopeless is taken at the first time its own issue is no longer in the future. */
  lemma HopefulIsTaken(config: Config, w: World)
    requires Invariant(config, w) && Delivery(config, w) && w.phase == Syncing && w.memory.offerOutbox != []
    requires !Stuck(w)
    ensures exists now: i64 :: w.clock <= now && Takes(config, w, now)
  {
    HeadIsKept(config, w);
    SyncingIsSaved(config, w);
    var found := FindPending(w.memory.pending, w.memory.offerOutbox[0]).value;
    MemoryPart(config, w, found);
    RelayPart(config, w);
    HeldAt(config, w, found);
    hide Invariant, Delivery, FindPending, Step, RelaySound, R.PendingFits, Present;
    var p := w.memory.pending[found];
    assert !HopelessOffer(w, p);
    var early := p.offer.issuedAt - CLOCK_SKEW_MS;
    var now: i64 := if w.clock < early then early else w.clock;
    OfferServedExactlyWhen(config, w, p, now);
    HopefulVerifies(config, w, p, now);
    assert Takes(config, w, now);
  }

  lemma HeldAt(config: Config, w: World, index: nat)
    requires Delivery(config, w) && index < |w.memory.pending|
    ensures HeldPending(config, w.table, w.clock, w.memory.pending[index])
  {
    hide HeldPending, Deliverable;
    assert w.memory.pending[index] in w.memory.pending;
  }

  lemma HopefulVerifies(config: Config, w: World, p: Pending, now: i64)
    requires RelaySound(config, w.table, w.clock, w.sent, w.made) && HeldPending(config, w.table, w.clock, p)
    requires w.clock <= now
    requires R.PendingFits(config.publisher, p) && config.registry(p.request.id) == p.request && p.request.id !in w.made
    requires !HopelessOffer(w, p) && p.offer.issuedAt <= now + CLOCK_SKEW_MS && now < p.request.expiresAt
    ensures p.request.id in S.Purged(w.table, now) && VerifyOffer(p.offer, p.request, now, LIFETIME) == Passed
  {
    hide RequestMetadata, OfferMetadata, VerifyConfirmation, ValidateTime;
    var id := p.request.id;
    assert RowKnown(config, w.sent, w.made, id, w.table[id]);
    assert S.RowTimes(w.table[id], w.clock, LIFETIME) && S.RowIntegrity(id, w.table[id]);
    TimeCheckMeans(p.request.issuedAt, p.request.expiresAt, now, LIFETIME);
    TimeCheckMeans(p.offer.issuedAt, p.offer.expiresAt, now, LIFETIME);
  }

  /** The exact condition: the head of the outbox is stuck if and only if no send at any later time gets
      it across, from the relay's state as it is. */
  lemma StuckExactlyWhen(config: Config, w: World)
    requires Invariant(config, w) && Delivery(config, w) && w.phase == Syncing
    requires w.memory.offerOutbox != [] || w.memory.decisionOutbox != []
    ensures Stuck(w) <==> forall now: i64 :: w.clock <= now ==> !Takes(config, w, now)
  {
    SyncingIsSaved(config, w);
    if w.memory.offerOutbox != [] {
      hide Invariant, Delivery, Step, Stuck;
      if Stuck(w) {
        forall now: i64 | w.clock <= now
          ensures !Takes(config, w, now)
        {
          HopelessIsRefused(config, w, now);
        }
      } else {
        HopefulIsTaken(config, w);
      }
    } else {
      DecisionStuckExactlyWhen(config, w);
    }
  }

  lemma DecisionStuckExactlyWhen(config: Config, w: World)
    requires Invariant(config, w) && Delivery(config, w) && w.phase == Syncing && w.memory == w.disk
    requires w.memory.offerOutbox == [] && w.memory.decisionOutbox != []
    ensures Stuck(w) <==> forall now: i64 :: w.clock <= now ==> !Takes(config, w, now)
  {
    hide Invariant, Delivery, Step;
    var id := w.memory.decisionOutbox[0].requestId;
    forall now: i64 | w.clock <= now
      ensures Takes(config, w, now) <==> id in S.Purged(w.table, now)
      ensures id in S.Purged(w.table, now) ==> id in S.Purged(w.table, w.clock)
    {
      DecisionServedExactlyWhen(config, w, now);
    }
    if id in S.Purged(w.table, w.clock) {
      assert Takes(config, w, w.clock);
    }
  }

  // ---------------------------------------------------------------- stuck for good

  /** What a stuck publisher can still change: its grants, by revoking. */
  predicate OnlyRevoked(before: State, after: State) {
    && after.pending == before.pending && after.offerOutbox == before.offerOutbox
    && after.decisionOutbox == before.decisionOutbox
    && forall g :: g in after.approved ==> g in before.approved
  }

  /** A stuck process only loads, revokes, saves and gives up. */
  ghost predicate StuckWork(config: Config, w: World) {
    && Invariant(config, w) && Delivery(config, w) && Stuck(w)
    && (w.phase == Idle || w.phase == Syncing || (w.phase == Edited(false) && OnlyRevoked(w.disk, w.memory)))
  }

  lemma HeadIsPresent(config: Config, w: World)
    requires Delivery(config, w) && w.disk.decisionOutbox != []
    ensures Present(config, w.table, w.clock, w.disk.decisionOutbox[0].requestId)
  {
    hide Present, VerifyDecision, S.CeremonyCheck, HeldPending;
    assert w.disk.decisionOutbox[0] in w.disk.decisionOutbox;
  }

  lemma StuckAtRelay(config: Config, w: World, timed: S.Timed, sent: map<nat, PairOffer>, held: set<Decision>)
    requires RelaySound(config, w.table, w.clock, sent, w.made) && Delivery(config, w) && Stuck(w)
    requires w.clock <= timed.now && Allowed(config, sent, w.made, timed.call)
    ensures Stuck(w.(table := S.Apply(w.table, timed, LIFETIME).table, clock := timed.now, sent := sent, held := held))
  {
    hide S.Apply, RelaySound, Allowed, Delivery, S.Purged, FindPending;
    if w.disk.offerOutbox == [] {
      HeadIsPresent(config, w);
      GoneStaysGone(config, w.table, w.clock, timed, sent, w.made, w.disk.decisionOutbox[0].requestId);
    }
  }

  lemma StuckSend(config: Config, w: World, action: Action)
    requires StuckWork(config, w) && (action.SendOffer? || action.SendDecision?)
    ensures var next := Step(config, w, action);
            Stuck(next) && next.disk == w.disk && (next.phase == Idle || next == w)
  {
    hide Invariant, Delivery, S.Apply, FindPending, Stuck, Allowed;
    if w.phase == Syncing && w.clock <= action.now {
      SyncingIsSaved(config, w);
      if action.SendOffer? && w.memory.offerOutbox != [] {
        HeadIsKept(config, w);
        HopelessIsRefused(config, w, action.now);
        var p := w.memory.pending[FindPending(w.memory.pending, w.memory.offerOutbox[0]).value];
        OfferLeaves(config, w, p);
        var sent := w.sent[w.memory.offerOutbox[0] := p.offer];
        RelayPart(config, w.(sent := sent));
        var timed := S.Timed(S.OfferCall(p.offer), action.now);
        var told := Told(w.(sent := sent), S.Apply(w.table, timed, LIFETIME).table, action.now);
        StuckAtRelay(config, w, timed, sent, told.held);
        StuckIgnoresMemory(told, w.disk, Idle);
      } else if action.SendDecision? && w.memory.offerOutbox == [] && w.memory.decisionOutbox != [] {
        HeadIsMade(config, w);
        RelayPart(config, w);
        OwnDecisionAllowed(config, w, w.memory.decisionOutbox[0]);
        var timed := S.Timed(S.DecisionCall(w.memory.decisionOutbox[0]), action.now);
        var told := Told(w, S.Apply(w.table, timed, LIFETIME).table, action.now);
        StuckAtRelay(config, w, timed, w.sent, told.held);
        StuckIgnoresMemory(told, w.disk, Idle);
        StuckDecisionRefused(config, w, action.now);
      }
    }
  }

  lemma StuckIgnoresMemory(w: World, memory: State, phase: Phase)
    ensures Stuck(w.(memory := memory, phase := phase)) == Stuck(w)
  {
    hide FindPending, S.Purged;
  }

  lemma StuckDecisionRefused(config: Config, w: World, now: i64)
    requires Invariant(config, w) && Delivery(config, w) && w.phase == Syncing && w.memory == w.disk && Stuck(w)
    requires w.memory.offerOutbox == [] && w.memory.decisionOutbox != [] && w.clock <= now
    ensures Step(config, w, SendDecision(now, true)).phase != DecisionAcked
  {
    hide Stuck, Step, Invariant, Delivery;
    DecisionStuckExactlyWhen(config, w);
    assert !Takes(config, w, now);
  }

  lemma StuckRevoke(config: Config, w: World, action: Action)
    requires StuckWork(config, w) && action.RevokeOne?
    ensures var next := Step(config, w, action);
            && Stuck(next) && OnlyRevoked(w.disk, next.disk)
            && (next.phase == Idle || next == w || (next.phase == Edited(false) && OnlyRevoked(next.disk, next.memory)))
  {
    hide Invariant, Delivery, Revoke, FindPending, S.Purged;
    if w.phase == Syncing && Revoke(w.memory, action.stream, action.selects).Changed? {
      SyncingIsSaved(config, w);
      RevokeOnlyRevokes(config, w, action.stream, action.selects);
    }
  }

  lemma RevokeOnlyRevokes(config: Config, w: World, stream: nat, selects: Identity -> bool)
    requires Invariant(config, w) && Revoke(w.memory, stream, selects).Changed?
    ensures OnlyRevoked(w.memory, Revoke(w.memory, stream, selects).state)
  {
    hide RelaySound, DiskSound, PendingKnown, R.CeremoniesSound, R.DecisionsSound, Revoke;
    RevokedOnly(config.publisher, w.memory, stream, selects);
    R.RevokeIs(w.memory, stream, selects);
  }

  lemma StuckSave(config: Config, w: World)
    requires StuckWork(config, w)
    ensures var next := Step(config, w, Save);
            && Stuck(next) && OnlyRevoked(w.disk, next.disk)
            && (next.phase == Idle || next.phase == Syncing || next == w)
  {
    hide Invariant, Delivery, ValidateState, Recorded, FindPending, S.Purged;
  }

  /** Nothing can be taken, decided or popped while the outbox is stuck. */
  lemma StuckStill(config: Config, w: World, action: Action)
    requires StuckWork(config, w) && (action.Pop? || action.Fetch? || action.Take? || action.DecideOne?)
    ensures Step(config, w, action) == w
  {
    if w.phase == Syncing {
      SyncingIsSaved(config, w);
    }
    hide Invariant, Delivery, Saved, Refresh, Decide, S.InboxIds, S.Deliveries, S.Confirmed, Requests, FindPending,
         S.Purged,
         HopelessOffer, OnlyRevoked;
  }

  lemma StuckOther(config: Config, w: World, action: Action)
    requires StuckWork(config, w)
    requires !action.Relay? && !action.SendOffer? && !action.SendDecision? && !action.RevokeOne?
    ensures var next := Step(config, w, action);
            && Stuck(next) && OnlyRevoked(w.disk, next.disk)
            && (next.phase == Idle || next.phase == Syncing || next == w)
  {
    if action.Save? {
      StuckSave(config, w);
    } else if action.Load? || action.Crash? {
      StuckStop(config, w, action);
    } else {
      StuckStill(config, w, action);
    }
    hide Stuck, Invariant, Delivery, Step;
  }

  lemma StuckStop(config: Config, w: World, action: Action)
    requires Stuck(w) && (action.Load? || action.Crash?)
    ensures var next := Step(config, w, action);
            Stuck(next) && next.disk == w.disk && (next.phase == Idle || next.phase == Syncing || next == w)
  {
    hide FindPending, S.Purged;
  }

  lemma StuckRelay(config: Config, w: World, timed: S.Timed)
    requires StuckWork(config, w)
    ensures Stuck(Step(config, w, Relay(timed)))
  {
    hide Invariant, Delivery, S.Apply, Allowed, Stuck;
    RelayPart(config, w);
    if w.clock <= timed.now && Allowed(config, w.sent, w.made, timed.call) {
      StuckAtRelay(config, w, timed, w.sent, Told(w, S.Apply(w.table, timed, LIFETIME).table, timed.now).held);
    }
  }

  lemma RelayLeavesPublisher(config: Config, w: World, timed: S.Timed)
    ensures var next := Step(config, w, Relay(timed));
            next.disk == w.disk && next.memory == w.memory && next.phase == w.phase
  {
    hide S.Apply, Allowed;
  }

  lemma StuckStep(config: Config, w: World, action: Action)
    requires StuckWork(config, w)
    ensures var next := Step(config, w, action); StuckWork(config, next) && OnlyRevoked(w.disk, next.disk)
  {
    StepKeepsInvariant(config, w, action);
    StepDelivers(config, w, action);
    if action.Relay? {
      StuckRelay(config, w, action.timed);
      RelayLeavesPublisher(config, w, action.timed);
    } else if action.SendOffer? || action.SendDecision? {
      StuckSend(config, w, action);
    } else if action.RevokeOne? {
      StuckRevoke(config, w, action);
    } else {
      StuckOther(config, w, action);
    }
    hide Invariant, Delivery, Stuck, Step;
  }

  /** Once the head of the saved outbox is stuck, no later step delivers or drops a record, takes a
      request or decides one: every command but revocation fails for good. */
  lemma {:induction false} StuckForever(config: Config, start: World, actions: seq<Action>)
    requires Invariant(config, start) && Delivery(config, start) && start.phase == Idle && Stuck(start)
    ensures StuckWork(config, Run(config, start, actions))
    ensures OnlyRevoked(start.disk, Run(config, start, actions).disk)
  {
    hide Invariant, Delivery, Step, Stuck;
    if actions != [] {
      StuckForever(config, start, actions[..|actions| - 1]);
      StuckStep(config, Run(config, start, actions[..|actions| - 1]), actions[|actions| - 1]);
    }
  }

  // ---------------------------------------------------------------- how it comes about

  lemma StepsOn(config: Config, start: World, actions: seq<Action>, action: Action)
    ensures Run(config, start, actions + [action]) == Step(config, Run(config, start, actions), action)
  {
    assert (actions + [action])[..|actions|] == actions;
  }

  /** A connection lost until the relay no longer has the head record's request is enough: an offer
      until it expires, a decision until its row is purged. */
  lemma LostTouchUntilGone(config: Config, clock: i64, actions: seq<Action>, now: i64)
    requires var w := Run(config, Initial(clock), actions);
             && w.clock <= now
             && (if w.disk.offerOutbox != [] then config.registry(w.disk.offerOutbox[0]).expiresAt <= now
                 else w.disk.decisionOutbox != [] && w.disk.decisionOutbox[0].requestId !in S.Purged(w.table, now))
    ensures var later := Run(config, Initial(clock), actions + [Crash, Relay(S.Timed(S.InboxCall, now))]);
            && later.phase == Idle && Stuck(later)
            && forall more: seq<Action> :: OnlyRevoked(later.disk, Run(config, later, more).disk)
  {
    hide Invariant, Delivery, Run, Step, Stuck;
    var w := Run(config, Initial(clock), actions);
    var two := actions + [Crash];
    assert actions + [Crash, Relay(S.Timed(S.InboxCall, now))] == two + [Relay(S.Timed(S.InboxCall, now))];
    StepsOn(config, Initial(clock), actions, Crash);
    StepsOn(config, Initial(clock), two, Relay(S.Timed(S.InboxCall, now)));
    RunDelivers(config, clock, actions);
    RunDelivers(config, clock, two + [Relay(S.Timed(S.InboxCall, now))]);
    CrashAndPurge(config, w, now);
    var later := Run(config, Initial(clock), two + [Relay(S.Timed(S.InboxCall, now))]);
    forall more: seq<Action>
      ensures OnlyRevoked(later.disk, Run(config, later, more).disk)
    {
      StuckForever(config, later, more);
    }
  }

  lemma CrashAndPurge(config: Config, w: World, now: i64)
    requires Invariant(config, w) && w.clock <= now
    requires if w.disk.offerOutbox != [] then config.registry(w.disk.offerOutbox[0]).expiresAt <= now
             else w.disk.decisionOutbox != [] && w.disk.decisionOutbox[0].requestId !in S.Purged(w.table, now)
    ensures var later := Step(config, Step(config, w, Crash), Relay(S.Timed(S.InboxCall, now)));
            later.phase == Idle && Stuck(later)
  {
    hide RelaySound, MemorySound, SentKnown, MadeKnown, HeldBy;
    if w.disk.offerOutbox != [] {
      var id := w.disk.offerOutbox[0];
      assert id in w.disk.offerOutbox;
      R.PendingIdsOf(w.disk.pending, id);
      KeptAt(w.disk.pending, FindPending(w.disk.pending, id).value);
    } else {
      PurgedTwice(w.table, now);
    }
  }

  lemma PurgedTwice(t: S.Table, now: i64)
    ensures S.Purged(S.Purged(t, now), now) == S.Purged(t, now)
  {
  }

  /** A request that can be stored and answered at one time. */
  predicate Answerable(q: PairRequest, at: i64) {
    VerifyRequest(q, at, LIFETIME) == Passed && q.id != 0 && q.encodedLen <= MAX_PAIRING_MESSAGE_LEN
  }

  function ConfigFor(q: PairRequest): Config {
    Config(q.publisher, (id: nat) => q)
  }

  /** A refresh that works for this publisher, at that time, with usable random values. */
  predicate Suits(context: Context, q: PairRequest, at: i64) {
    && context.publisher == q.publisher && context.checkedAt(q) == at == context.answeredAt(q)
    && context.nonces(q) != 0 && context.relayContext != 0
    && (context.policy.Required? || context.policy.Open?)
  }

  function Arriving(q: PairRequest, at: i64): seq<Action> {
    [] + [Relay(S.Timed(S.EnqueueCall(q, 0), at))] + [Load] + [Fetch(at)]
  }

  /** The publisher takes a request and saves. */
  function Saving(q: PairRequest, context: Context, at: i64): seq<Action> {
    Arriving(q, at) + [Take(context)] + [Save]
  }

  function RowFor(q: PairRequest, at: i64): S.Row {
    S.Row(q, 0, at, None, None, None, 0)
  }

  /** The relay has the request, the publisher nothing yet. */
  function Waiting(q: PairRequest, at: i64, phase: Phase): World {
    World(map[q.id := RowFor(q, at)], at, EMPTY, EMPTY, phase, map[], map[], {})
  }

  lemma EnqueueStep(config: Config, q: PairRequest, at: i64)
    requires Answerable(q, at) && config == ConfigFor(q)
    ensures Step(config, Initial(at), Relay(S.Timed(S.EnqueueCall(q, 0), at))) == Waiting(q, at, Idle)
  {
    hide VerifyRequest, S.EnqueueRequest;
    S.EntersAlone(map[], q, 0, at, LIFETIME);
    assert HeldBy(map[q.id := RowFor(q, at)]) == {};
  }

  lemma FetchIs(config: Config, w: World, now: i64)
    requires w.phase == Syncing && w.memory.offerOutbox == [] && w.memory.decisionOutbox == [] && w.clock <= now
    ensures var kept := S.Purged(w.table, now);
            var ids := S.InboxIds(kept, config.publisher);
            Step(config, w, Fetch(now))
            == w.(table := kept, clock := now,
                  phase := Fetched(Requests(S.Deliveries(kept, ids)), S.Confirmed(kept, ids)))
  {
    hide S.Purged, S.InboxIds, S.Deliveries, S.Confirmed, Requests;
  }

  lemma OneIsListed(t: S.Table, q: PairRequest, at: i64)
    requires Answerable(q, at) && t == map[q.id := RowFor(q, at)]
    ensures S.Purged(t, at) == t && S.InboxIds(t, q.publisher) == [q.id]
    ensures Requests(S.Deliveries(t, [q.id])) == [q] && S.Confirmed(t, [q.id]) == []
  {
    hide VerifyRequest, S.Arrivals;
    S.FreshTimes(q, at, LIFETIME);
    var mine := S.UndecidedFor(t, q.publisher);
    assert mine == {q.id};
    S.ArrivalsAreOrdered(t, mine, S.MAX_INBOX_RECORDS);
    var ids := S.InboxIds(t, q.publisher);
    assert |ids| == 1 && ids[0] == q.id;
    assert ids == [q.id];
    ListedOnce(t, q, at);
  }

  lemma ListedOnce(t: S.Table, q: PairRequest, at: i64)
    requires t == map[q.id := RowFor(q, at)]
    ensures Requests(S.Deliveries(t, [q.id])) == [q] && S.Confirmed(t, [q.id]) == []
  {
    var one := [q.id];
    assert one[..0] == [];
    assert S.Deliveries(t, one[..0]) == [] && S.Confirmed(t, one[..0]) == [];
    var deliveries := S.Deliveries(t, one);
    assert deliveries == [S.Delivery(q, 0, at)];
    assert deliveries[..0] == [] && Requests(deliveries[..0]) == [];
  }

  lemma FetchStep(config: Config, q: PairRequest, at: i64)
    requires Answerable(q, at) && config == ConfigFor(q)
    ensures Step(config, Waiting(q, at, Syncing), Fetch(at)) == Waiting(q, at, Fetched([q], []))
  {
    hide Step, S.Purged, S.InboxIds, S.Deliveries, S.Confirmed, Requests, Answerable;
    var w := Waiting(q, at, Syncing);
    OneIsListed(w.table, q, at);
    FetchIs(config, w, at);
  }

  lemma TakeIs(config: Config, w: World, context: Context)
    requires w.phase.Fetched? && context.publisher == config.publisher
    requires Refresh(context, w.memory, w.phase.requests, w.phase.confirmations).Changed?
    ensures Step(config, w, Take(context))
            == w.(memory := Refresh(context, w.memory, w.phase.requests, w.phase.confirmations).state,
                  phase := Edited(false))
  {
    hide Refresh;
  }

  lemma SaveIs(config: Config, w: World)
    requires w.phase.Edited? && ValidateState(w.memory)
    ensures var next := Step(config, w, Save);
            next.disk == w.memory && next.table == w.table && next.clock == w.clock
  {
    hide ValidateState, Recorded;
  }

  // ---------------------------------------------------------------- what taking one request leaves

  lemma SortOne<T>(x: T, rank: T -> Rank, none: seq<T>)
    requires none == []
    ensures SortBy(none + [x], rank) == [x]
  {
    assert (none + [x])[..0] == [];
  }

  /** With the policy that asks the humans, one request leaves a queued offer. */
  lemma OfferIsQueued(context: Context, s: State, q: PairRequest, at: i64)
    requires s == EMPTY && Answerable(q, at) && Suits(context, q, at) && context.policy.Required?
    ensures var change := TakeRequest(context, s, q);
            && change.Changed? && |change.state.pending| == 1 && change.state.pending[0].request == q
            && change.state == s.(pending := change.state.pending, offerOutbox := [q.id])
  {
    hide RequestMetadata;
    S.FreshTimes(q, at, LIFETIME);
    MetadataOf(q, at);
    SortOne<nat>(q.id, IdRank, s.offerOutbox);
    assert FindPending(s.pending, q.id).None?;
    hide VerifyRequest;
  }

  lemma MetadataOf(q: PairRequest, at: i64)
    requires VerifyRequest(q, at, LIFETIME) == Passed
    ensures q.publisher != 0 && q.viewer != 0 && q.streamId != 0
  {
  }

  /** With the open policy it leaves a queued decision. */
  lemma DecisionIsQueued(context: Context, s: State, q: PairRequest, at: i64)
    requires s == EMPTY && Answerable(q, at) && Suits(context, q, at) && context.policy.Open?
    ensures var change := TakeRequest(context, s, q);
            && change.Changed? && |change.state.decisionOutbox| == 1 && change.state.decisionOutbox[0].requestId == q.id
            && change.state == s.(approved := [GrantOf(q)], historyOutbox := [GrantOf(q)],
                                  decisionOutbox := change.state.decisionOutbox)
  {
    hide RequestMetadata;
    MetadataOf(q, at);
    var made := ApproveByPolicy(q.publisher, q, OpenPolicy, at);
    assert made.Ok? && made.value.requestId == q.id;
    hide VerifyRequest, ApproveByPolicy;
    SortOne(GrantOf(q), GrantRank, s.approved);
    SortOne(made.value, DecisionRank, s.decisionOutbox);
    assert !SearchFinds(s.revoked, GrantOf(q)) by { NothingFound(s.revoked, GrantOf(q)); }
    assert FindPending(s.pending, q.id).None?;
    hide SearchFinds, SortBy;
    assert AddApproved(s, GrantOf(q)) == Changed(s.(approved := [GrantOf(q)], historyOutbox := [GrantOf(q)]));
  }

  lemma NothingFound(grants: seq<Grant>, g: Grant)
    requires grants == []
    ensures !SearchFinds(grants, g)
  {
  }

  /** A refresh with one request and no confirmation is taking that request. */
  lemma RefreshOne(context: Context, s: State, q: PairRequest)
    requires TakeRequest(context, s, q).Changed? && |TakeRequest(context, s, q).state.pending| <= 1
    ensures Refresh(context, s, [q], []) == TakeRequest(context, s, q)
  {
    hide TakeRequest, TakeConfirmation;
    var one := [q];
    assert one[..0] == [] && TakeRequests(context, s, one[..0]) == Changed(s);
    assert TakeRequests(context, s, one) == TakeRequest(context, s, one[0]);
    var pending := TakeRequest(context, s, q).state.pending;
    if pending == [] {
      assert SortBy(pending, PendingRank) == pending;
    } else {
      SortOne(pending[0], PendingRank, pending[..0]);
      assert pending[..0] + [pending[0]] == pending;
    }
  }

  /** What such a refresh leaves passes validation. */
  lemma QueuedIsValid(s: State, id: nat)
    requires |s.pending| <= 1 && |s.approved| <= 1 && s.revoked == [] && |s.historyOutbox| <= 1
    requires |s.decisionOutbox| <= 1
    requires s.offerOutbox == [] || (s.offerOutbox == [id] && |s.pending| == 1 && s.pending[0].request.id == id)
    ensures ValidateState(s)
  {
    hide Below;
  }

  /** Everything queued for one request. */
  predicate QueuedFor(s: State, q: PairRequest, policy: Policy) {
    && (policy.Required? ==> s.offerOutbox == [q.id])
    && (policy.Open? ==> s.offerOutbox == [] && |s.decisionOutbox| == 1 && s.decisionOutbox[0].requestId == q.id)
  }

  lemma RefreshQueues(context: Context, q: PairRequest, at: i64, s: State)
    requires s == EMPTY && Answerable(q, at) && Suits(context, q, at)
    ensures var change := Refresh(context, s, [q], []);
            change.Changed? && ValidateState(change.state) && QueuedFor(change.state, q, context.policy)
  {
    hide TakeRequest, Refresh, ValidateState, Answerable;
    if context.policy.Required? {
      OfferIsQueued(context, s, q, at);
    } else {
      DecisionIsQueued(context, s, q, at);
    }
    RefreshOne(context, s, q);
    QueuedIsValid(TakeRequest(context, s, q).state, q.id);
  }

  lemma ArrivedState(config: Config, q: PairRequest, at: i64)
    requires Answerable(q, at) && config == ConfigFor(q)
    ensures Run(config, Initial(at), Arriving(q, at)) == Waiting(q, at, Fetched([q], []))
  {
    var start := Initial(at);
    NothingRun(config, start);
    hide Run, Step, Answerable;
    var a1 := [] + [Relay(S.Timed(S.EnqueueCall(q, 0), at))];
    StepsOn(config, start, [], Relay(S.Timed(S.EnqueueCall(q, 0), at)));
    StepsOn(config, start, a1, Load);
    StepsOn(config, start, a1 + [Load], Fetch(at));
    EnqueueStep(config, q, at);
    LoadIs(config, Waiting(q, at, Idle));
    FetchStep(config, q, at);
  }

  lemma SavedState(config: Config, q: PairRequest, context: Context, at: i64)
    requires Answerable(q, at) && config == ConfigFor(q) && Suits(context, q, at)
    ensures var w := Run(config, Initial(at), Saving(q, context, at));
            w.table == map[q.id := RowFor(q, at)] && w.clock == at && QueuedFor(w.disk, q, context.policy)
  {
    hide Run, Step, Refresh, ValidateState, Answerable, QueuedFor, Arriving;
    var start, arrived := Initial(at), Waiting(q, at, Fetched([q], []));
    ArrivedState(config, q, at);
    StepsOn(config, start, Arriving(q, at), Take(context));
    StepsOn(config, start, Arriving(q, at) + [Take(context)], Save);
    RefreshQueues(context, q, at, arrived.memory);
    TakeIs(config, arrived, context);
    SaveIs(config, Step(config, arrived, Take(context)));
  }

  lemma NothingRun(config: Config, start: World)
    ensures Run(config, start, []) == start
  {
  }

  lemma LoadIs(config: Config, w: World)
    requires w.phase == Idle
    ensures Step(config, w, Load) == w.(memory := w.disk, phase := Syncing)
  {
  }

  /** For any request a publisher can answer: a run from the empty start ends with its offer, or under
      the open policy its decision, stuck, and from then on nothing but revocations ever changes. */
  lemma StandstillIsReachable(config: Config, q: PairRequest, context: Context, at: i64, more: seq<Action>)
    requires Answerable(q, at) && config == ConfigFor(q) && Suits(context, q, at)
    ensures var lost := [Crash, Relay(S.Timed(S.InboxCall, q.expiresAt))];
            var w := Run(config, Initial(at), Saving(q, context, at) + lost);
            && w.phase == Idle && Stuck(w) && QueuedFor(w.disk, q, context.policy)
            && OnlyRevoked(w.disk, Run(config, w, more).disk)
  {
    hide Run, Stuck, OnlyRevoked, Answerable, VerifyRequest;
    SavedState(config, q, context, at);
    LivesPast(q, at);
    var actions := Saving(q, context, at);
    assert q.id !in S.Purged(map[q.id := RowFor(q, at)], q.expiresAt);
    LostTouchUntilGone(config, at, actions, q.expiresAt);
    LaterDisk(config, at, actions, q.expiresAt);
  }

  lemma LivesPast(q: PairRequest, at: i64)
    requires Answerable(q, at)
    ensures at < q.expiresAt
  {
    hide VerifyRequest;
    S.FreshTimes(q, at, LIFETIME);
  }

  lemma LaterDisk(config: Config, clock: i64, actions: seq<Action>, now: i64)
    ensures Run(config, Initial(clock), actions + [Crash, Relay(S.Timed(S.InboxCall, now))]).disk
            == Run(config, Initial(clock), actions).disk
  {
    hide Run, S.Apply, Allowed;
    var two := actions + [Crash];
    assert actions + [Crash, Relay(S.Timed(S.InboxCall, now))] == two + [Relay(S.Timed(S.InboxCall, now))];
    StepsOn(config, Initial(clock), actions, Crash);
    StepsOn(config, Initial(clock), two, Relay(S.Timed(S.InboxCall, now)));
  }

  // ---------------------------------------------------------------- when a refresh succeeds

  /** The request verifies at the publisher's clock, and unless it is skipped it can be answered. */
  predicate CanTake(context: Context, s: State, q: PairRequest) {
    && VerifyRequest(q, context.checkedAt(q), PublisherState.PAIR_LIFETIME_MS) == Passed
    && (|| GrantOf(q) in s.revoked
        || q.id in R.PendingIds(s.pending)
        || (match context.policy
            case Required => Offering(context, q).Ok?
            case Open => Deciding(context, q).Ok?
            case TrustedCa(trusts) => trusts(q) ==> Deciding(context, q).Ok?))
  }

  function Offering(context: Context, q: PairRequest): Result<PairOffer, PairError> {
    NewOffer(context.publisher, q, context.relayContext, context.nonces(q), context.answeredAt(q), q.expiresAt,
             PublisherState.PAIR_LIFETIME_MS)
  }

  function Deciding(context: Context, q: PairRequest): Result<Decision, PairError> {
    ApproveByPolicy(context.publisher, q, PolicyReason(context.policy), context.answeredAt(q))
  }

  /** How far a refresh has come after taking some requests. */
  ghost predicate TookAll(context: Context, start: State, s: State, taken: seq<PairRequest>) {
    && R.Sound(context.publisher, s) && R.OnePath(context, s) && s.revoked == start.revoked
    && R.PendingIds(start.pending) <= R.PendingIds(s.pending)
    && (forall id :: id in R.PendingIds(s.pending) ==> id in R.PendingIds(start.pending) || IdIn(taken, id))
    && (forall d :: d in s.decisionOutbox ==> MadeFrom(context, taken, d))
  }

  predicate IdIn(taken: seq<PairRequest>, id: nat) {
    exists q :: q in taken && q.id == id
  }

  predicate MadeFrom(context: Context, taken: seq<PairRequest>, d: Decision) {
    exists q :: q in taken && Deciding(context, q) == Ok(d)
  }

  lemma MoreTaken(context: Context, taken: seq<PairRequest>, q: PairRequest)
    ensures forall id :: IdIn(taken + [q], id) <==> IdIn(taken, id) || id == q.id
    ensures forall d ::
              MadeFrom(context, taken + [q], d) <==> MadeFrom(context, taken, d) || Deciding(context, q) == Ok(d)
  {
    hide Deciding;
    assert q in taken + [q];
    assert forall r :: r in taken ==> r in taken + [q];
  }

  lemma PendingIdsPush(pending: seq<Pending>, p: Pending)
    ensures R.PendingIds(pending + [p]) == R.PendingIds(pending) + {p.request.id}
  {
    assert p in pending + [p];
  }

  /** The decision of a request can always be queued: the only other one for it would be the same. */
  lemma DecisionFits(context: Context, start: State, s: State, taken: seq<PairRequest>, q: PairRequest)
    requires TookAll(context, start, s, taken) && GrantOf(q) !in s.revoked && Deciding(context, q).Ok?
    requires forall r :: r in taken && r.id == q.id ==> r == q
    ensures GrantAndQueue(s, GrantOf(q), Deciding(context, q).value).Changed?
  {
    hide R.CeremoniesSound, AddApproved, QueueDecision, R.PendingIds;
    var d := Deciding(context, q).value;
    R.AddApprovedIs(s, GrantOf(q));
    var granted := AddApproved(s, GrantOf(q)).state;
    R.QueueIs(granted, d);
    forall e | e in s.decisionOutbox && e.requestId == d.requestId
      ensures e == d
    {
      var r :| r in taken && Deciding(context, r) == Ok(e);
      assert e.requestId == r.id && d.requestId == q.id;
    }
  }

  lemma TakeOneExactlyWhen(context: Context, start: State, s: State, taken: seq<PairRequest>, q: PairRequest)
    requires TookAll(context, start, s, taken)
    requires forall r :: r in taken ==> CanTake(context, start, r) && (r.id == q.id ==> r == q)
    ensures TakeRequest(context, s, q).Changed? <==> CanTake(context, start, q)
  {
    PendingAlready(context, start, s, taken, q);
    if GrantOf(q) !in s.revoked && Deciding(context, q).Ok? {
      DecisionFits(context, start, s, taken, q);
    }
    hide TookAll, R.PendingIds, VerifyRequest, NewOffer, ApproveByPolicy, GrantAndQueue;
    R.PendingIdsOf(s.pending, q.id);
  }

  /** A request pending by now was pending before, or was taken already. */
  lemma PendingAlready(context: Context, start: State, s: State, taken: seq<PairRequest>, q: PairRequest)
    requires TookAll(context, start, s, taken)
    requires forall r :: r in taken ==> CanTake(context, start, r) && (r.id == q.id ==> r == q)
    ensures s.revoked == start.revoked
    ensures q.id in R.PendingIds(start.pending) ==> q.id in R.PendingIds(s.pending)
    ensures q.id in R.PendingIds(s.pending) ==> q.id in R.PendingIds(start.pending) || CanTake(context, start, q)
  {
    hide R.Sound, CanTake, R.PendingIds;
    if q.id in R.PendingIds(s.pending) && q.id !in R.PendingIds(start.pending) {
      var r :| r in taken && r.id == q.id;
    }
  }

  lemma TookOneMore(context: Context, start: State, s: State, taken: seq<PairRequest>, q: PairRequest)
    requires TookAll(context, start, s, taken) && TakeRequest(context, s, q).Changed?
    ensures TookAll(context, start, TakeRequest(context, s, q).state, taken + [q])
  {
    hide R.Sound, TakeRequest, R.PendingIds, IdIn, MadeFrom;
    R.TakeRequestKeeps(context, s, q);
    TakeRequestEffect(context, s, q);
    QueuedFromTaken(context, s, q);
    MoreTaken(context, taken, q);
    var next := TakeRequest(context, s, q).state;
    if next.pending != s.pending {
      var p: Pending :| p.request == q && next.pending == s.pending + [p];
      PendingIdsPush(s.pending, p);
    }
  }

  lemma QueuedFromTaken(context: Context, s: State, q: PairRequest)
    requires R.Sound(context.publisher, s) && TakeRequest(context, s, q).Changed?
    ensures forall d :: d in TakeRequest(context, s, q).state.decisionOutbox ==>
                          d in s.decisionOutbox || Deciding(context, q) == Ok(d)
  {
    hide R.GrantsSound, R.CeremoniesSound, VerifyRequest, AddApproved, QueueDecision, NewOffer, R.PendingIds,
         ApproveByPolicy;
    AddApprovedOnly(s, GrantOf(q));
    var granted := AddApproved(s, GrantOf(q));
    if granted.Changed? && Deciding(context, q).Ok? {
      R.QueueIs(granted.state, Deciding(context, q).value);
    }
  }

  lemma {:induction false} TakeAllExactlyWhen(context: Context, start: State, requests: seq<PairRequest>)
    requires R.Sound(context.publisher, start) && start.decisionOutbox == []
    requires forall q, r :: q in requests && r in requests && q.id == r.id ==> q == r
    ensures TakeRequests(context, start, requests).Changed?
            <==> forall q :: q in requests ==> CanTake(context, start, q)
    ensures TakeRequests(context, start, requests).Changed? ==>
              TookAll(context, start, TakeRequests(context, start, requests).state, requests)
  {
    hide R.Sound, CanTake, TakeRequest, R.PendingIds, IdIn, MadeFrom;
    if requests != [] {
      hide TookAll;
      var most, q := requests[..|requests| - 1], requests[|requests| - 1];
      assert requests == most + [q] && q in requests && forall r :: r in most ==> r in requests;
      TakeAllExactlyWhen(context, start, most);
      var before := TakeRequests(context, start, most);
      if before.Changed? {
        TakeOneExactlyWhen(context, start, before.state, most, q);
        if TakeRequest(context, before.state, q).Changed? {
          TookOneMore(context, start, before.state, most, q);
        }
      }
    }
  }

  /** In every run, a refresh with a fetched inbox succeeds if and only if every delivered request
      verifies at the publisher's clock and, unless it is revoked, pending or not trusted, can be
      answered: one that cannot stops them all, and confirmations never stop it. */
  lemma RefreshSucceedsExactlyWhen(config: Config, clock: i64, actions: seq<Action>, context: Context)
    requires var w := Run(config, Initial(clock), actions); w.phase.Fetched? && context.publisher == config.publisher
    ensures var w := Run(config, Initial(clock), actions);
            Refresh(context, w.memory, w.phase.requests, w.phase.confirmations).Changed?
            <==> forall q :: q in w.phase.requests ==> CanTake(context, w.memory, q)
  {
    hide Run, CanTake;
    InitialInvariant(config, clock);
    RunKeepsInvariant(config, Initial(clock), actions);
    var w := Run(config, Initial(clock), actions);
    FetchedPart(config, w);
    hide Invariant, TakeRequests, TakeConfirmations, TookAll;
    assert forall q, r :: q in w.phase.requests && r in w.phase.requests && q.id == r.id ==> q == r;
    TakeAllExactlyWhen(context, w.memory, w.phase.requests);
    if TakeRequests(context, w.memory, w.phase.requests).Changed? {
      RefreshIsSound(config, w, context);
    }
  }

  /** A run from the empty start: a request the relay accepted stops every refresh of a publisher whose
      clock is more than the skew behind the request's issue, whatever the policy. */
  lemma ClockBehindBlocksRefresh(config: Config, q: PairRequest, context: Context, at: i64)
    requires Answerable(q, at) && config == ConfigFor(q) && context.publisher == q.publisher
    requires context.checkedAt(q) < q.issuedAt - CLOCK_SKEW_MS
    ensures var w := Run(config, Initial(at), Arriving(q, at));
            w.phase == Fetched([q], []) && Step(config, w, Take(context)) == Stopped(w)
  {
    hide Run, VerifyRequest, Arriving;
    ArrivedState(config, q, at);
    RequestRefusedExactlyWhen(q, at, context.checkedAt(q), LIFETIME);
    var one, s := [q], Waiting(q, at, Fetched([q], [])).memory;
    assert one[..0] == [];
    assert TakeRequests(context, s, one[..0]) == Changed(s);
    assert TakeRequest(context, s, one[0]).Aborted?;
    assert TakeRequests(context, s, one).Aborted?;
  }
}
