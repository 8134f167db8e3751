/** What becomes of a publisher's verdict on a pairing request: nobody ever sees another one. */
module PairingVerdicts {
  import opened MachineInts
  import opened Wrappers
  import opened PairingRecords
  import opened PublisherState
  import opened PairingProtocol
  import D = PairingDelivery
  import S = PairingStore
  import R = PublisherRuns

  // ---------------------------------------------------------------- what rows ever held

  /** Rows of this publisher's requests only ever held the decisions it saved. */
  ghost predicate HeldIsMade(config: Config, w: World) {
    forall d :: d in w.held && config.registry(d.requestId).publisher == config.publisher ==>
                  d.requestId in w.made && w.made[d.requestId] == d
  }

  lemma HeldGrows(config: Config, w: World, action: Action)
    requires Invariant(config, w)
    ensures var next := Step(config, w, action);
            forall d :: d in next.held ==> d in w.held || d in HeldBy(next.table)
  {
    hide Invariant, HeldBy, S.Apply, Allowed, FindPending, Refresh, Decide, Revoke, ValidateState, Recorded;
  }

  lemma TableIsMade(config: Config, w: World)
    requires Invariant(config, w)
    ensures forall d :: d in HeldBy(w.table) && config.registry(d.requestId).publisher == config.publisher ==>
                          d.requestId in w.made && w.made[d.requestId] == d
  {
    hide DiskSound, MemorySound, PhaseSound, VerifyConfirmation;
    forall d | d in HeldBy(w.table) && config.registry(d.requestId).publisher == config.publisher
      ensures d.requestId in w.made && w.made[d.requestId] == d
    {
      var id :| id in w.table && w.table[id].decision == Some(d);
      assert RowKnown(config, w.sent, w.made, id, w.table[id]) && S.RowIntegrity(id, w.table[id]);
    }
  }

  lemma {:induction false} RunHoldsMade(config: Config, clock: i64, actions: seq<Action>)
    ensures HeldIsMade(config, Run(config, Initial(clock), actions))
  {
    hide Invariant, Step, HeldBy;
    if actions != [] {
      var most, action := actions[..|actions| - 1], actions[|actions| - 1];
      var w := Run(config, Initial(clock), most);
      RunHoldsMade(config, clock, most);
      InitialInvariant(config, clock);
      RunKeepsInvariant(config, Initial(clock), most);
      StepKeepsInvariant(config, w, action);
      HeldGrows(config, w, action);
      TableIsMade(config, Step(config, w, action));
      MadeStays(config, w, action);
    }
  }

  lemma MadeStays(config: Config, w: World, action: Action)
    requires Invariant(config, w)
    ensures var next := Step(config, w, action);
            forall id :: id in w.made ==> id in next.made && next.made[id] == w.made[id]
  {
    hide Invariant, Step;
    forall id | id in w.made
      ensures id in Step(config, w, action).made && Step(config, w, action).made[id] == w.made[id]
    {
      DecisionsAreFinal(config, w, action, id);
    }
  }

  // ---------------------------------------------------------------- from the decision to the save

  /** The process still works on unsaved edits that hold the decision, or it gave up. */
  predicate Holds(w: World, d: Decision) {
    w.phase == Idle || (w.phase == Edited(true) && d in w.memory.decisionOutbox)
  }

  /** A decision that succeeds queues the verdict asked for, on the one request selected. */
  lemma DecideAnswers(config: Config, w: World, selects: nat -> bool, approve: bool, now: i64, p: Pending)
    returns (d: Decision)
    requires Invariant(config, w) && Selected(w.memory.pending, selects, p)
    requires Step(config, w, DecideOne(selects, approve, now)).phase == Edited(true)
    ensures R.Answers(config.publisher, p, d, approve, now)
    ensures Holds(Step(config, w, DecideOne(selects, approve, now)), d)
  {
    var s := w.memory;
    MemoryIsValid(config, w);
    hide Invariant, R.Valid, UniqueIndex, DecideAt, R.Answers;
    var index := UniqueIndex(s.pending, (p: Pending) => selects(p.request.id)).value;
    R.UniqueIndexSelects(s.pending, (p: Pending) => selects(p.request.id));
    assert s.pending[index] == p;
    R.DecideIs(config.publisher, s, index, approve, now);
    var next := DecideAt(config.publisher, s, index, approve, now).state;
    d :| d in next.decisionOutbox && R.Answers(config.publisher, p, d, approve, now);
  }

  /** The pending request whose identifier, and no other, the prefix selects. */
  predicate Selected(pending: seq<Pending>, selects: nat -> bool, p: Pending) {
    p in pending && selects(p.request.id) && forall x :: x in pending && selects(x.request.id) ==> x == p
  }

  lemma MemoryIsValid(config: Config, w: World)
    requires Invariant(config, w)
    ensures R.Valid(config.publisher, w.memory)
  {
    hide RelaySound, DiskSound, PhaseSound, R.Valid;
  }

  lemma OtherKeepsHolding(config: Config, w: World, action: Action, d: Decision)
    requires Invariant(config, w) && Holds(w, d) && (action.Relay? || action.DecideOne?)
    ensures Holds(Step(config, w, action), d)
  {
    MemoryIsValid(config, w);
    hide Invariant, R.Valid, S.Apply, Allowed, Decide;
    if action.DecideOne? && Decide(config.publisher, w.memory, action.selects, action.approve, action.now).Changed? {
      D.DecidedAddsOne(config, w, action.selects, action.approve, action.now);
    }
  }

  /** Relay calls by others, and further decisions of the same process. */
  predicate Undisturbed(actions: seq<Action>) {
    forall k :: 0 <= k < |actions| ==> actions[k].Relay? || actions[k].DecideOne?
  }

  lemma {:induction false} StillHolds(config: Config, start: World, actions: seq<Action>, d: Decision)
    requires Invariant(config, start) && Holds(start, d) && Undisturbed(actions)
    ensures Holds(Run(config, start, actions), d)
  {
    hide Invariant, Step, Holds;
    if actions != [] {
      var most := actions[..|actions| - 1];
      StillHolds(config, start, most, d);
      RunKeepsInvariant(config, start, most);
      OtherKeepsHolding(config, Run(config, start, most), actions[|actions| - 1], d);
    }
  }

  lemma SaveMakes(config: Config, w: World, d: Decision)
    requires Invariant(config, w) && w.phase == Edited(true) && d in w.memory.decisionOutbox
    requires Step(config, w, Save).phase == Syncing
    ensures var made := Step(config, w, Save).made; d.requestId in made && made[d.requestId] == d
  {
    hide Invariant, ValidateState, Recorded;
    SaveExtends(config, w);
  }

  lemma {:induction false} MadeForGood(config: Config, start: World, actions: seq<Action>, d: Decision)
    requires Invariant(config, start) && d.requestId in start.made && start.made[d.requestId] == d
    ensures var made := Run(config, start, actions).made; d.requestId in made && made[d.requestId] == d
  {
    hide Invariant, Step;
    if actions != [] {
      var most := actions[..|actions| - 1];
      MadeForGood(config, start, most, d);
      RunKeepsInvariant(config, start, most);
      MadeStays(config, Run(config, start, most), actions[|actions| - 1]);
    }
  }

  lemma {:induction false} RunsOn(config: Config, start: World, actions: seq<Action>, more: seq<Action>)
    ensures Run(config, start, actions + more) == Run(config, Run(config, start, actions), more)
  {
    hide Step;
    if more == [] {
      assert actions + more == actions;
    } else {
      RunsOn(config, start, actions, more[..|more| - 1]);
      assert (actions + more)[..|actions + more| - 1] == actions + more[..|more| - 1];
    }
  }

  lemma OneStep(config: Config, start: World, action: Action)
    ensures Run(config, start, [action]) == Step(config, start, action)
  {
    hide Step;
    assert [action][..0] == [];
  }

  // ---------------------------------------------------------------- the verdict stands

  /** A verdict given and saved in any run, alone or among others, is the only one anybody ever gets: in the
      saved outbox, in the relay's row and in every row the relay ever held for the request. So a denied
      request never has an approval, and an approved one never a denial. */
  lemma VerdictStands(
    config: Config, clock: i64, before: seq<Action>, selects: nat -> bool, approve: bool, now: i64,
    others: seq<Action>, after: seq<Action>, p: Pending)
    requires Undisturbed(others)
    requires var w := Run(config, Initial(clock), before); Selected(w.memory.pending, selects, p)
    requires var decided := before + [DecideOne(selects, approve, now)];
             && Run(config, Initial(clock), decided).phase == Edited(true)
             && Run(config, Initial(clock), decided + others).phase == Edited(true)
             && Run(config, Initial(clock), decided + others + [Save]).phase == Syncing
    ensures var w := Run(config, Initial(clock), before + [DecideOne(selects, approve, now)] + others + [Save] + after);
            && p.request.id in w.made && R.Answers(config.publisher, p, w.made[p.request.id], approve, now)
            && forall d :: d in w.disk.decisionOutbox || d in w.held || d in HeldBy(w.table) ==>
                 d.requestId == p.request.id ==> d == w.made[p.request.id] && d.approved == approve
  {
    hide Run, Invariant, Step, R.Answers, HeldBy;
    var start, act := Initial(clock), DecideOne(selects, approve, now);
    InitialInvariant(config, clock);
    RunKeepsInvariant(config, start, before);
    RunsOn(config, start, before, [act]);
    var w0 := Run(config, start, before);
    OneStep(config, w0, act);
    var d := DecideAnswers(config, w0, selects, approve, now, p);
    var w1 := Run(config, start, before + [act]);
    RunKeepsInvariant(config, start, before + [act]);
    RunsOn(config, start, before + [act], others);
    StillHolds(config, w1, others, d);
    var w2 := Run(config, start, before + [act] + others);
    RunKeepsInvariant(config, start, before + [act] + others);
    RunsOn(config, start, before + [act] + others, [Save]);
    OneStep(config, w2, Save);
    SaveMakes(config, w2, d);
    RunKeepsInvariant(config, start, before + [act] + others + [Save]);
    RunsOn(config, start, before + [act] + others + [Save], after);
    AnswerNames(config, w0, p, d, approve, now);
    MadeForGood(config, Run(config, start, before + [act] + others + [Save]), after, d);
    var all := before + [act] + others + [Save] + after;
    RunKeepsInvariant(config, start, all);
    RunHoldsMade(config, clock, all);
    TableIsMade(config, Run(config, start, all));
    OutboxIsMade(config, Run(config, start, all));
  }

  lemma AnswerNames(config: Config, w: World, p: Pending, d: Decision, approve: bool, now: i64)
    requires Invariant(config, w) && p in w.memory.pending && R.Answers(config.publisher, p, d, approve, now)
    ensures d.requestId == p.request.id && d.approved == approve
    ensures config.registry(p.request.id).publisher == config.publisher
  {
    hide RelaySound, DiskSound, PhaseSound;
    assert Keeps(w.memory.pending, p.request, p.offer);
    assert R.PendingFits(config.publisher, p);
  }

  lemma OutboxIsMade(config: Config, w: World)
    requires Invariant(config, w)
    ensures forall d :: d in w.disk.decisionOutbox ==> d.requestId in w.made && w.made[d.requestId] == d
  {
    hide RelaySound, MemorySound, PhaseSound, R.Valid, Served;
  }

  // ---------------------------------------------------------------- revocation stands

  /** Revoked, saved and in memory. */
  predicate RevokedIn(w: World, g: Grant) {
    g in w.disk.revoked && g in w.memory.revoked
  }

  lemma StepKeepsRevoked(config: Config, w: World, action: Action, g: Grant)
    requires Invariant(config, w) && RevokedIn(w, g)
    ensures RevokedIn(Step(config, w, action), g)
  {
    MemoryIsValid(config, w);
    EditKeepsRevoked(config, w, action, g);
    hide Invariant, R.Valid, S.Apply, Allowed, FindPending, Refresh, Decide, Revoke, ValidateState, Recorded, S.Purged,
         S.InboxIds, S.Deliveries, S.Confirmed, Requests, HeldBy;
  }

  /** No edit takes a revocation back. */
  lemma EditKeepsRevoked(config: Config, w: World, action: Action, g: Grant)
    requires Invariant(config, w) && g in w.memory.revoked
    ensures action.Take? && w.phase.Fetched? && action.context.publisher == config.publisher ==>
              var change := Refresh(action.context, w.memory, w.phase.requests, w.phase.confirmations);
              change.Changed? ==> g in change.state.revoked
    ensures action.DecideOne? ==>
              var change := Decide(config.publisher, w.memory, action.selects, action.approve, action.now);
              change.Changed? ==> g in change.state.revoked
    ensures action.RevokeOne? ==>
              var change := Revoke(w.memory, action.stream, action.selects);
              change.Changed? ==> g in change.state.revoked
  {
    MemoryIsValid(config, w);
    if action.Take? && w.phase.Fetched? && action.context.publisher == config.publisher {
      TakenFrom(config, w);
      hide Invariant, R.Valid, Refresh;
      if Refresh(action.context, w.memory, w.phase.requests, w.phase.confirmations).Changed? {
        R.RefreshKeepsValid(action.context, w.memory, w.phase.requests, w.phase.confirmations);
      }
    } else if action.DecideOne? {
      hide Invariant, R.Valid, DecideAt, UniqueIndex, R.Answers;
      var index := UniqueIndex(w.memory.pending, (p: Pending) => action.selects(p.request.id));
      if Decide(config.publisher, w.memory, action.selects, action.approve, action.now).Changed? {
        R.DecideIs(config.publisher, w.memory, index.value, action.approve, action.now);
      }
    } else if action.RevokeOne? {
      GrantsOf(config.publisher, w.memory);
      hide Invariant, R.Valid, R.GrantsSound, Revoke, R.OnlyMatch;
      R.RevokeIs(w.memory, action.stream, action.selects);
    }
  }

  lemma GrantsOf(publisher: Identity, s: State)
    requires R.Valid(publisher, s)
    ensures R.GrantsSound(s)
  {
    hide R.CeremoniesSound, R.DecisionsSound, R.GrantsSound;
  }

  lemma TakenFrom(config: Config, w: World)
    requires Invariant(config, w) && w.phase.Fetched?
    ensures w.memory.decisionOutbox == []
  {
    hide RelaySound, DiskSound, MemorySound;
  }

  lemma {:induction false} RevokedForGood(config: Config, start: World, actions: seq<Action>, g: Grant)
    requires Invariant(config, start) && RevokedIn(start, g)
    ensures RevokedIn(Run(config, start, actions), g)
  {
    hide Invariant, Step, RevokedIn;
    if actions != [] {
      var most := actions[..|actions| - 1];
      RevokedForGood(config, start, most, g);
      RunKeepsInvariant(config, start, most);
      StepKeepsRevoked(config, Run(config, start, most), actions[|actions| - 1], g);
    }
  }

  /** Over every run of both sides: revoking the one grant selected, and saving, works on whatever the publisher
      has loaded; from then on that viewer is granted the stream in no saved state, and keys are queued for
      it in none. */
  lemma RevocationStands(
    config: Config, clock: i64, before: seq<Action>, stream: nat, selects: Identity -> bool, after: seq<Action>,
    g: Grant)
    requires var w := Run(config, Initial(clock), before);
             w.phase == Syncing && R.OnlyMatch(w.memory.approved, stream, selects, g)
    requires ValidateState(Run(config, Initial(clock), before + [RevokeOne(stream, selects)]).memory)
    ensures var w := Run(config, Initial(clock), before + [RevokeOne(stream, selects)] + [Save] + after);
            g in w.disk.revoked && g !in w.disk.approved && g !in w.disk.historyOutbox
  {
    var start, act := Initial(clock), RevokeOne(stream, selects);
    hide Run, Invariant, Step, ValidateState, R.OnlyMatch;
    InitialInvariant(config, clock);
    RunKeepsInvariant(config, start, before);
    RunsOn(config, start, before, [act]);
    OneStep(config, Run(config, start, before), act);
    RunKeepsInvariant(config, start, before + [act]);
    RunsOn(config, start, before + [act], [Save]);
    OneStep(config, Run(config, start, before + [act]), Save);
    RevokesAndSaves(config, Run(config, start, before), stream, selects, g);
    RunKeepsInvariant(config, start, before + [act] + [Save]);
    RunsOn(config, start, before + [act] + [Save], after);
    RevokedForGood(config, Run(config, start, before + [act] + [Save]), after, g);
    RunKeepsInvariant(config, start, before + [act] + [Save] + after);
    DiskIsValid(config, Run(config, start, before + [act] + [Save] + after));
  }

  lemma RevokesAndSaves(config: Config, w: World, stream: nat, selects: Identity -> bool, g: Grant)
    requires Invariant(config, w) && w.phase == Syncing && R.OnlyMatch(w.memory.approved, stream, selects, g)
    requires ValidateState(Step(config, w, RevokeOne(stream, selects)).memory)
    ensures RevokedIn(Step(config, Step(config, w, RevokeOne(stream, selects)), Save), g)
  {
    MemoryIsValid(config, w);
    GrantsOf(config.publisher, w.memory);
    R.RevokeIs(w.memory, stream, selects);
    OneMatch(w.memory.approved, stream, selects, g);
    hide Invariant, R.Valid, R.GrantsSound, Revoke, R.OnlyMatch, ValidateState, Recorded;
  }

  lemma OneMatch(grants: seq<Grant>, stream: nat, selects: Identity -> bool, g: Grant)
    requires R.OnlyMatch(grants, stream, selects, g)
    ensures forall h :: R.OnlyMatch(grants, stream, selects, h) ==> h == g
  {
  }

  lemma DiskIsValid(config: Config, w: World)
    requires Invariant(config, w)
    ensures forall g :: g in w.disk.revoked ==> g !in w.disk.approved && g !in w.disk.historyOutbox
  {
    hide RelaySound, MemorySound, PhaseSound, PendingKnown, SentKnown, MadeKnown;
  }

  /** A process that gets no acknowledgement stops, whatever the relay did, and works from the saved state again. */
  lemma LostAckStops(config: Config, w: World, now: i64)
    requires w.phase == Syncing && w.clock <= now && (w.memory.offerOutbox != [] || w.memory.decisionOutbox != [])
    ensures var action := if w.memory.offerOutbox != [] then SendOffer(now, false) else SendDecision(now, false);
            var next := Step(config, w, action);
            next.phase == Idle && next.memory == w.disk == next.disk
  {
    hide S.Apply, HeldBy, FindPending;
  }
}
