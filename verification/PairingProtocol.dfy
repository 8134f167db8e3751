/** Offline pairing across one publisher and the relay, with crashes and lost connections.

    The publisher's process loads the saved state, works in memory and saves it whole; the relay
    runs its table transactions. Steps interleave freely: other peers call the relay at any time,
    and the process can lose its connection or crash between any two steps. `sent` records the
    offers the publisher put on the wire, `made` the decisions it saved and `held` every decision a
    row of the relay ever held; they decide nothing but what others can replay.

    Assumed: identifiers determine requests (`registry`), nobody else signs with the publisher's
    key, the relay's clock does not go back, saving replaces the state atomically, and the state
    lock admits one process.
  */
module PairingProtocol {
  import opened MachineInts
  import opened Wrappers
  import opened PairingRecords
  import opened Ordering
  import opened PublisherState
  import S = PairingStore
  import R = PublisherRuns

  const LIFETIME := S.PAIRING_REQUEST_LIFETIME_MS

  datatype Config = Config(publisher: Identity, registry: nat -> PairRequest)

  /** Where the process is: idle, working on a state equal to the saved one, between an
      acknowledgement and the pop it allows, holding an inbox, or holding unsaved edits. */
  datatype Phase = Idle
                 | Syncing
                 | OfferAcked
                 | DecisionAcked
                 | Fetched(requests: seq<PairRequest>, confirmations: seq<Confirmation>)
                 | Edited(deciding: bool)

  datatype World = World(
    table: S.Table, clock: i64, disk: State, memory: State, phase: Phase,
    sent: map<nat, PairOffer>, made: map<nat, Decision>, held: set<Decision>)

  datatype Action = Relay(timed: S.Timed)
                  | Load
                  | SendOffer(now: i64, acked: bool)
                  | SendDecision(now: i64, acked: bool)
                  | Pop
                  | Fetch(now: i64)
                  | Take(context: Context)
                  | DecideOne(selects: nat -> bool, approve: bool, now: i64)
                  | RevokeOne(stream: nat, selects: Identity -> bool)
                  | Save
                  | Crash

  function Initial(clock: i64): World {
    World(map[], clock, EMPTY, EMPTY, Idle, map[], map[], {})
  }

  // ---------------------------------------------------------------- steps

  /** What others may send the relay: any request, but only the publisher's own offers and decisions
      under its signature. */
  predicate Allowed(config: Config, sent: map<nat, PairOffer>, made: map<nat, Decision>, call: S.Call) {
    match call
    case EnqueueCall(q, _) => config.registry(q.id) == q
    case OfferCall(o) => o.signedBy == config.publisher ==> o.requestId in sent && sent[o.requestId] == o
    case DecisionCall(d) => d.signedBy == config.publisher ==> d.requestId in made && made[d.requestId] == d
    case ConfirmationCall(_) => true
    case InboxCall => true
  }

  function Stopped(w: World): World {
    w.(phase := Idle, memory := w.disk)
  }

  /** The decisions in a table's rows. */
  function HeldBy(t: S.Table): set<Decision> {
    set id | id in t && t[id].decision.Some? :: t[id].decision.value
  }

  /** The relay has served a call. */
  function Told(w: World, t: S.Table, now: i64): World {
    w.(table := t, clock := now, held := w.held + HeldBy(t))
  }

  /** The publisher's record reaches the relay; the process goes on only with an acknowledgement. */
  function AfterSend(w: World, call: S.Call, now: i64, acked: bool, next: Phase): World {
    var outcome := S.Apply(w.table, S.Timed(call, now), LIFETIME);
    var told := Told(w, outcome.table, now);
    if outcome.answer.Done? && acked then told.(phase := next) else Stopped(told)
  }

  function Requests(deliveries: seq<S.Delivery>): seq<PairRequest> {
    if deliveries == [] then []
    else Requests(deliveries[..|deliveries| - 1]) + [deliveries[|deliveries| - 1].request]
  }

  function Edit(w: World, change: Change, deciding: bool): World {
    match change
    case Aborted => Stopped(w)
    case Changed(next) => w.(memory := next, phase := Edited(deciding))
  }

  /** Saving records the decisions it makes durable. */
  function Saved(w: World): World {
    if !ValidateState(w.memory) then Stopped(w)
    else w.(disk := w.memory, phase := Syncing, made := Recorded(w.made, w.memory.decisionOutbox))
  }

  function Recorded(made: map<nat, Decision>, outbox: seq<Decision>): map<nat, Decision> {
    if outbox == [] then made
    else Recorded(made, outbox[..|outbox| - 1])[outbox[|outbox| - 1].requestId := outbox[|outbox| - 1]]
  }

  ghost function Step(config: Config, w: World, action: Action): World {
    match action
    case Relay(timed) =>
      if timed.now < w.clock || !Allowed(config, w.sent, w.made, timed.call) then w
      else Told(w, S.Apply(w.table, timed, LIFETIME).table, timed.now)
    case Load => if w.phase != Idle then w else w.(memory := w.disk, phase := Syncing)
    case SendOffer(now, acked) =>
      if w.phase != Syncing || w.memory.offerOutbox == [] || now < w.clock then w
      else
        var id := w.memory.offerOutbox[0];
        (match FindPending(w.memory.pending, id)
         case None => Stopped(w)
         case Some(i) =>
           var offer := w.memory.pending[i].offer;
           AfterSend(w.(sent := w.sent[id := offer]), S.OfferCall(offer), now, acked, OfferAcked))
    case SendDecision(now, acked) =>
      if w.phase != Syncing || w.memory.offerOutbox != [] || w.memory.decisionOutbox == [] || now < w.clock then w
      else AfterSend(w, S.DecisionCall(w.memory.decisionOutbox[0]), now, acked, DecisionAcked)
    case Pop =>
      if w.phase == OfferAcked && w.memory.offerOutbox != [] then
        Saved(w.(memory := w.memory.(offerOutbox := w.memory.offerOutbox[1..])))
      else if w.phase == DecisionAcked && w.memory.decisionOutbox != [] then
        Saved(w.(memory := w.memory.(decisionOutbox := w.memory.decisionOutbox[1..])))
      else w
    case Fetch(now) =>
      if w.phase != Syncing || w.memory.offerOutbox != [] || w.memory.decisionOutbox != [] || now < w.clock then w
      else
        var kept := S.Purged(w.table, now);
        var ids := S.InboxIds(kept, config.publisher);
        w.(table := kept, clock := now, phase := Fetched(Requests(S.Deliveries(kept, ids)), S.Confirmed(kept, ids)))
    case Take(context) =>
      if !w.phase.Fetched? || context.publisher != config.publisher then w
      else Edit(w, Refresh(context, w.memory, w.phase.requests, w.phase.confirmations), false)
    case DecideOne(selects, approve, now) =>
      if w.phase == Edited(true)
         || (w.phase == Syncing && w.memory.offerOutbox == [] && w.memory.decisionOutbox == []) then
        Edit(w, Decide(config.publisher, w.memory, selects, approve, now), true)
      else w
    case RevokeOne(stream, selects) =>
      if w.phase != Syncing then w else Edit(w, Revoke(w.memory, stream, selects), false)
    case Save => if w.phase.Edited? then Saved(w) else w
    case Crash => Stopped(w)
  }

  ghost function Run(config: Config, start: World, actions: seq<Action>): World {
    if actions == [] then start
    else Step(config, Run(config, start, actions[..|actions| - 1]), actions[|actions| - 1])
  }

  // ---------------------------------------------------------------- the relay's side

  /** Rows are of registered requests, and this publisher's offers and decisions in them are the ones
      it sent and made. */
  predicate RowKnown(config: Config, sent: map<nat, PairOffer>, made: map<nat, Decision>, id: nat, row: S.Row) {
    && row.request == config.registry(id)
    && (row.request.publisher == config.publisher && row.offer.Some? ==> id in sent && sent[id] == row.offer.value)
    && (row.request.publisher == config.publisher && row.decision.Some? ==>
          id in made && made[id] == row.decision.value)
  }

  predicate RelaySound(config: Config, t: S.Table, clock: i64, sent: map<nat, PairOffer>, made: map<nat, Decision>) {
    && S.Integrity(t) && S.Timely(t, clock, LIFETIME)
    && forall id :: id in t ==> RowKnown(config, sent, made, id, t[id])
  }

  lemma CallKeepsRowKnown(
    config: Config, t: S.Table, timed: S.Timed, sent: map<nat, PairOffer>, made: map<nat, Decision>, id: nat)
    requires S.Integrity(t) && (forall k :: k in t ==> RowKnown(config, sent, made, k, t[k]))
    requires Allowed(config, sent, made, timed.call) && id in S.Apply(t, timed, LIFETIME).table
    ensures RowKnown(config, sent, made, id, S.Apply(t, timed, LIFETIME).table[id])
  {
    hide VerifyRequest, VerifyConfirmation, S.CeremonyCheck, S.BoundsCheck, ValidateTime, RequestMetadata,
         OfferMetadata,
         DecisionMetadata, S.RowIntegrity;
    if id in t {
      assert RowKnown(config, sent, made, id, t[id]);
    }
  }

  lemma RelayStepKeeps(
    config: Config, t: S.Table, clock: i64, timed: S.Timed, sent: map<nat, PairOffer>, made: map<nat, Decision>)
    requires RelaySound(config, t, clock, sent, made) && clock <= timed.now && Allowed(config, sent, made, timed.call)
    ensures RelaySound(config, S.Apply(t, timed, LIFETIME).table, timed.now, sent, made)
  {
    hide S.Apply, S.Integrity, S.Timely, RowKnown;
    S.CallKeepsIntegrity(t, timed, LIFETIME);
    S.CallKeepsTimely(t, timed, clock, LIFETIME);
    forall id | id in S.Apply(t, timed, LIFETIME).table
      ensures RowKnown(config, sent, made, id, S.Apply(t, timed, LIFETIME).table[id])
    {
      CallKeepsRowKnown(config, t, timed, sent, made, id);
    }
  }

  /** A decision has been served: the relay's row holds it, or the row is gone for good. */
  predicate Served(config: Config, t: S.Table, clock: i64, d: Decision) {
    var q := config.registry(d.requestId);
    if d.requestId in t then t[d.requestId].decision == Some(d) else q.expiresAt <= clock
  }

  lemma ServedStays(
    config: Config, t: S.Table, clock: i64, timed: S.Timed, sent: map<nat, PairOffer>, made: map<nat, Decision>,
    d: Decision)
    requires RelaySound(config, t, clock, sent, made) && clock <= timed.now && Allowed(config, sent, made, timed.call)
    requires Served(config, t, clock, d)
    ensures Served(config, S.Apply(t, timed, LIFETIME).table, timed.now, d)
  {
    hide S.Apply, VerifyRequest, S.Integrity, S.Stale, S.RowTimes;
    var id, next := d.requestId, S.Apply(t, timed, LIFETIME).table;
    var q := config.registry(id);
    RelayStepKeeps(config, t, clock, timed, sent, made);
    S.CallEffect(t, timed, LIFETIME, id);
    if id in t && S.Stale(t[id], timed.now) {
      assert RowKnown(config, sent, made, id, t[id]);
      S.StaleIsExpired(t[id], clock, timed.now, LIFETIME);
    }
    if id in next {
      assert RowKnown(config, sent, made, id, next[id]);
      if VerifyRequest(q, timed.now, LIFETIME) == Passed {
        S.FreshTimes(q, timed.now, LIFETIME);
      }
    }
  }

  // ---------------------------------------------------------------- the publisher's side

  predicate Keeps(pending: seq<Pending>, q: PairRequest, o: PairOffer) {
    exists p :: p in pending && p.request == q && p.offer == o
  }

  predicate DecidedIn(outbox: seq<Decision>, id: nat) {
    exists d :: d in outbox && d.requestId == id
  }

  /** Pending requests are registered and undecided, and an offer already sent is the one kept. */
  ghost predicate PendingKnown(
    config: Config, pending: seq<Pending>, sent: map<nat, PairOffer>, made: map<nat, Decision>)
  {
    forall q: PairRequest, o: PairOffer :: Keeps(pending, q, o) ==>
      config.registry(q.id) == q && q.id !in made && (q.id in sent ==> sent[q.id] == o)
  }

  /** Every offer sent belongs to a request that is still pending with it, or decided. */
  predicate SentKnown(config: Config, pending: seq<Pending>, sent: map<nat, PairOffer>, made: map<nat, Decision>) {
    forall id :: id in sent ==>
      && sent[id].requestId == id && config.registry(id).id == id
      && (id in made || Keeps(pending, config.registry(id), sent[id]))
  }

  /** Every saved decision is still queued or was served. */
  predicate MadeKnown(config: Config, t: S.Table, clock: i64, outbox: seq<Decision>, made: map<nat, Decision>) {
    && (forall id :: id in made ==>
          made[id].requestId == id && (made[id] in outbox || Served(config, t, clock, made[id])))
    && (forall d :: d in outbox ==> d.requestId in made && made[d.requestId] == d)
  }

  ghost predicate DiskSound(
    config: Config, t: S.Table, clock: i64, disk: State, sent: map<nat, PairOffer>, made: map<nat, Decision>)
  {
    && R.Valid(config.publisher, disk)
    && PendingKnown(config, disk.pending, sent, made)
    && SentKnown(config, disk.pending, sent, made)
    && MadeKnown(config, t, clock, disk.decisionOutbox, made)
  }

  /** What unsaved work may differ in: it decides pending requests, and drops decisions that were served. */
  ghost predicate MemorySound(
    config: Config, t: S.Table, clock: i64, disk: State, memory: State, sent: map<nat, PairOffer>,
    made: map<nat, Decision>)
  {
    && R.Valid(config.publisher, memory)
    && PendingKnown(config, memory.pending, sent, made)
    && (forall q: PairRequest, o: PairOffer :: Keeps(disk.pending, q, o) ==>
          Keeps(memory.pending, q, o) || DecidedIn(memory.decisionOutbox, q.id))
    && (forall d :: d in disk.decisionOutbox ==> d in memory.decisionOutbox || Served(config, t, clock, d))
    && (forall d :: d in memory.decisionOutbox ==> d in disk.decisionOutbox || d.requestId !in made)
  }

  /** An inbox held by the process: undecided requests, and confirmations of offers it sent. */
  predicate SnapshotSound(
    config: Config, requests: seq<PairRequest>, confirmations: seq<Confirmation>,
    sent: map<nat, PairOffer>, made: map<nat, Decision>)
  {
    && (forall q :: q in requests ==> config.registry(q.id) == q && q.id !in made)
    && (forall c :: c in confirmations ==>
          && c.requestId in sent
          && VerifyConfirmation(c, config.registry(c.requestId), sent[c.requestId]) == Passed)
  }

  predicate PhaseSound(config: Config, w: World) {
    && (!w.phase.Edited? ==> w.memory == w.disk)
    && (w.phase == OfferAcked ==> w.memory.offerOutbox != [])
    && (w.phase == DecisionAcked ==>
          w.memory.decisionOutbox != [] && Served(config, w.table, w.clock, w.memory.decisionOutbox[0]))
    && (w.phase.Fetched? ==>
          && w.memory.offerOutbox == [] && w.memory.decisionOutbox == []
          && SnapshotSound(config, w.phase.requests, w.phase.confirmations, w.sent, w.made))
  }

  ghost predicate Invariant(config: Config, w: World) {
    && RelaySound(config, w.table, w.clock, w.sent, w.made)
    && DiskSound(config, w.table, w.clock, w.disk, w.sent, w.made)
    && MemorySound(config, w.table, w.clock, w.disk, w.memory, w.sent, w.made)
    && PhaseSound(config, w)
  }

  lemma InitialInvariant(config: Config, clock: i64)
    ensures Invariant(config, Initial(clock))
  {
    assert forall q: PairRequest, o: PairOffer :: !Keeps([], q, o);
  }

  /** Saved work is sound work. */
  lemma DiskIsSoundMemory(
    config: Config, t: S.Table, clock: i64, disk: State, sent: map<nat, PairOffer>, made: map<nat, Decision>)
    requires DiskSound(config, t, clock, disk, sent, made)
    ensures MemorySound(config, t, clock, disk, disk, sent, made)
  {
    hide Keeps, DecidedIn, Served, R.Valid;
  }

  // ---------------------------------------------------------------- saving

  /** Recording an outbox adds its decisions and changes nothing it does not name. */
  lemma {:induction false} RecordedIs(made: map<nat, Decision>, outbox: seq<Decision>, recorded: map<nat, Decision>)
    requires recorded == Recorded(made, outbox)
    requires forall d, e :: d in outbox && e in outbox && d.requestId == e.requestId ==> d == e
    ensures forall d :: d in outbox ==> d.requestId in recorded && recorded[d.requestId] == d
    ensures forall id :: id in recorded && !DecidedIn(outbox, id) ==> id in made && recorded[id] == made[id]
    ensures forall id :: id in made ==> id in recorded
    ensures forall id :: id in made && !DecidedIn(outbox, id) ==> recorded[id] == made[id]
  {
    if outbox != [] {
      var most, last := outbox[..|outbox| - 1], outbox[|outbox| - 1];
      assert outbox == most + [last];
      RecordedIs(made, most, Recorded(made, most));
      assert last in outbox;
      assert forall id :: DecidedIn(outbox, id) <==> DecidedIn(most, id) || id == last.requestId;
    }
  }

  /** Saving keeps everything earlier records said. */
  lemma SaveExtends(config: Config, w: World)
    requires Invariant(config, w)
    ensures var made := Recorded(w.made, w.memory.decisionOutbox);
            && (forall id :: id in w.made ==> id in made && made[id] == w.made[id])
            && (forall d :: d in w.memory.decisionOutbox ==> d.requestId in made && made[d.requestId] == d)
            && (forall id :: id in made ==> id in w.made || DecidedIn(w.memory.decisionOutbox, id))
  {
    hide Served, Keeps, RelaySound, PendingKnown, SentKnown, R.GrantsSound, R.CeremoniesSound, Recorded;
    var outbox := w.memory.decisionOutbox;
    R.OneDecisionPerRequest(outbox);
    var made := Recorded(w.made, outbox);
    RecordedIs(w.made, outbox, made);
    forall id | id in w.made
      ensures made[id] == w.made[id]
    {
      if DecidedIn(outbox, id) {
        var d :| d in outbox && d.requestId == id;
        assert d in w.disk.decisionOutbox;
      }
    }
  }

  lemma NotPendingWhenQueued(publisher: Identity, s: State, q: PairRequest, o: PairOffer)
    requires R.Valid(publisher, s) && Keeps(s.pending, q, o)
    ensures !DecidedIn(s.decisionOutbox, q.id)
  {
    var p :| p in s.pending && p.request == q && p.offer == o;
    assert q.id in R.PendingIds(s.pending);
  }

  lemma SavedRelaySound(config: Config, t: S.Table, clock: i64, sent: map<nat, PairOffer>, made: map<nat, Decision>,
                        moreSent: map<nat, PairOffer>, moreMade: map<nat, Decision>)
    requires RelaySound(config, t, clock, sent, made)
    requires forall id :: id in sent ==> id in moreSent && moreSent[id] == sent[id]
    requires forall id :: id in made ==> id in moreMade && moreMade[id] == made[id]
    ensures RelaySound(config, t, clock, moreSent, moreMade)
  {
    hide S.Integrity, S.Timely;
    forall id | id in t
      ensures RowKnown(config, moreSent, moreMade, id, t[id])
    {
      assert RowKnown(config, sent, made, id, t[id]);
    }
  }

  lemma SaveKeeps(config: Config, w: World)
    requires Invariant(config, w)
    ensures Invariant(config, Saved(w)) || !ValidateState(w.memory)
  {
    hide Served, Keeps, R.Valid, Recorded, RelaySound, DecidedIn, ValidateState;
    SaveExtends(config, w);
    var memory, made := w.memory, Recorded(w.made, w.memory.decisionOutbox);
    SavedRelaySound(config, w.table, w.clock, w.sent, w.made, w.sent, made);
    forall q: PairRequest, o: PairOffer | Keeps(memory.pending, q, o)
      ensures config.registry(q.id) == q && q.id !in made && (q.id in w.sent ==> w.sent[q.id] == o)
    {
      NotPendingWhenQueued(config.publisher, memory, q, o);
    }
    forall id | id in w.sent
      ensures id in made || Keeps(memory.pending, config.registry(id), w.sent[id])
    {
      if id !in w.made && !Keeps(memory.pending, config.registry(id), w.sent[id]) {
        assert DecidedIn(memory.decisionOutbox, id);
        QueuedIsMade(memory.decisionOutbox, id, made);
      }
    }
    forall id | id in made
      ensures made[id].requestId == id
      ensures (made[id] in memory.decisionOutbox || Served(config, w.table, w.clock, made[id]))
    {
      if id !in w.made {
        MadeIsQueued(memory.decisionOutbox, id, made);
      }
    }
    DiskIsSoundMemory(config, w.table, w.clock, memory, w.sent, made);
  }

  lemma QueuedIsMade(outbox: seq<Decision>, id: nat, made: map<nat, Decision>)
    requires DecidedIn(outbox, id) && forall d :: d in outbox ==> d.requestId in made && made[d.requestId] == d
    ensures id in made
  {
  }

  lemma MadeIsQueued(outbox: seq<Decision>, id: nat, made: map<nat, Decision>)
    requires DecidedIn(outbox, id) && forall d :: d in outbox ==> d.requestId in made && made[d.requestId] == d
    ensures id in made && made[id].requestId == id && made[id] in outbox
  {
  }

  /** Giving up leaves the saved state. */
  lemma StopKeeps(config: Config, w: World)
    requires Invariant(config, w)
    ensures Invariant(config, Stopped(w))
  {
    hide RelaySound, DiskSound, MemorySound;
    DiskIsSoundMemory(config, w.table, w.clock, w.disk, w.sent, w.made);
  }

  // ---------------------------------------------------------------- the relay moves on

  /** Both sides' records survive any call the relay serves. */
  lemma RelayCallKeeps(config: Config, w: World, timed: S.Timed, held: set<Decision>)
    requires Invariant(config, w) && w.clock <= timed.now && Allowed(config, w.sent, w.made, timed.call)
    ensures Invariant(config, w.(table := S.Apply(w.table, timed, LIFETIME).table, clock := timed.now, held := held))
  {
    hide S.Apply, RelaySound, Served, Keeps, DecidedIn, R.Valid, PendingKnown, SentKnown, SnapshotSound, Allowed;
    RelayStepKeeps(config, w.table, w.clock, timed, w.sent, w.made);
    var t := S.Apply(w.table, timed, LIFETIME).table;
    forall d | Served(config, w.table, w.clock, d)
      ensures Served(config, t, timed.now, d)
    {
      ServedStays(config, w.table, w.clock, timed, w.sent, w.made, d);
    }
  }

  // ---------------------------------------------------------------- sending

  lemma HeadIsKept(config: Config, w: World)
    requires Invariant(config, w) && w.phase == Syncing && w.memory.offerOutbox != []
    ensures var found := FindPending(w.memory.pending, w.memory.offerOutbox[0]);
            && found.Some?
            && var p := w.memory.pending[found.value];
            && Keeps(w.disk.pending, p.request, p.offer)
            && p.request.id == w.memory.offerOutbox[0] == p.offer.requestId
            && p.request.publisher == config.publisher == p.offer.signedBy
            && config.registry(p.request.id) == p.request
            && p.request.id !in w.made && (p.request.id in w.sent ==> w.sent[p.request.id] == p.offer)
  {
    hide RelaySound;
    var id := w.memory.offerOutbox[0];
    assert id in w.memory.offerOutbox;
    R.PendingIdsOf(w.memory.pending, id);
    var p := w.memory.pending[FindPending(w.memory.pending, id).value];
    assert p in w.memory.pending;
    assert Keeps(w.disk.pending, p.request, p.offer);
    assert R.PendingFits(config.publisher, p);
  }

  /** Putting the first queued offer on the wire. */
  lemma OfferLeaves(config: Config, w: World, p: Pending)
    requires Invariant(config, w) && w.phase == Syncing && w.memory.offerOutbox != []
    requires var found := FindPending(w.memory.pending, w.memory.offerOutbox[0]);
             found.Some? && p == w.memory.pending[found.value]
    ensures var sent := w.sent[w.memory.offerOutbox[0] := p.offer];
            && Invariant(config, w.(sent := sent))
            && Allowed(config, sent, w.made, S.OfferCall(p.offer))
  {
    HeadIsKept(config, w);
    hide Served, Keeps, R.Valid, DecidedIn, FindPending;
    var sent := w.sent[p.request.id := p.offer];
    SavedRelaySound(config, w.table, w.clock, w.sent, w.made, sent, w.made);
    R.OnlyDistinct(config.publisher, w.disk);
    SentStaysKnown(config, w.disk.pending, w.sent, w.made, p.request, p.offer);
  }

  lemma SentStaysKnown(
    config: Config, pending: seq<Pending>, sent: map<nat, PairOffer>, made: map<nat, Decision>, q: PairRequest,
    o: PairOffer)
    requires PendingKnown(config, pending, sent, made) && SentKnown(config, pending, sent, made)
    requires R.DistinctPending(pending)
    requires Keeps(pending, q, o) && o.requestId == q.id
    ensures PendingKnown(config, pending, sent[q.id := o], made) && SentKnown(config, pending, sent[q.id := o], made)
  {
    forall r: PairRequest, p: PairOffer | Keeps(pending, r, p) && r.id == q.id
      ensures p == o
    {
      var a :| a in pending && a.request == q && a.offer == o;
      var b :| b in pending && b.request == r && b.offer == p;
      R.OnePendingPerId(pending, a);
    }
  }

  lemma SendOfferKeeps(config: Config, w: World, now: i64, acked: bool)
    requires Invariant(config, w)
    ensures Invariant(config, Step(config, w, SendOffer(now, acked)))
  {
    hide Invariant, S.Apply, FindPending, Allowed;
    if w.phase == Syncing && w.memory.offerOutbox != [] && w.clock <= now {
      HeadIsKept(config, w);
      var p := w.memory.pending[FindPending(w.memory.pending, w.memory.offerOutbox[0]).value];
      OfferLeaves(config, w, p);
      var told := w.(sent := w.sent[w.memory.offerOutbox[0] := p.offer]);
      var timed := S.Timed(S.OfferCall(p.offer), now);
      var after := Told(told, S.Apply(w.table, timed, LIFETIME).table, now);
      RelayCallKeeps(config, told, timed, after.held);
      StopKeeps(config, after);
      OfferAckKeeps(config, after);
    }
  }

  lemma OfferAckKeeps(config: Config, w: World)
    requires Invariant(config, w) && w.phase == Syncing && w.memory.offerOutbox != []
    ensures Invariant(config, w.(phase := OfferAcked))
  {
    hide RelaySound, DiskSound, MemorySound;
  }

  /** The relay accepts a saved decision only by keeping it: what it stores for this request is this
      very decision, now or from before. */
  lemma AcceptedIsServed(config: Config, w: World, d: Decision, now: i64)
    requires RelaySound(config, w.table, w.clock, w.sent, w.made) && w.clock <= now
    requires d.requestId in w.made && w.made[d.requestId] == d && d.signedBy == config.publisher
    requires S.Apply(w.table, S.Timed(S.DecisionCall(d), now), LIFETIME).answer.Done?
    ensures var t := S.Apply(w.table, S.Timed(S.DecisionCall(d), now), LIFETIME).table;
            Served(config, t, now, d) && d in HeldBy(t)
  {
    hide S.Integrity, S.Timely, S.CeremonyCheck, DecisionMetadata;
    assert d.requestId in S.Purged(w.table, now);
    assert RowKnown(config, w.sent, w.made, d.requestId, w.table[d.requestId]);
  }

  lemma HeadIsMade(config: Config, w: World)
    requires Invariant(config, w) && w.phase == Syncing && w.memory.decisionOutbox != []
    ensures var d := w.memory.decisionOutbox[0];
            d.requestId in w.made && w.made[d.requestId] == d && d.signedBy == config.publisher
  {
    hide RelaySound, PendingKnown, SentKnown, Served;
    assert w.memory.decisionOutbox[0] in w.disk.decisionOutbox;
  }

  lemma SendDecisionKeeps(config: Config, w: World, now: i64, acked: bool)
    requires Invariant(config, w)
    ensures Invariant(config, Step(config, w, SendDecision(now, acked)))
  {
    hide Invariant, S.Apply;
    if w.phase == Syncing && w.memory.offerOutbox == [] && w.memory.decisionOutbox != [] && w.clock <= now {
      HeadIsMade(config, w);
      var d := w.memory.decisionOutbox[0];
      var timed := S.Timed(S.DecisionCall(d), now);
      var after := Told(w, S.Apply(w.table, timed, LIFETIME).table, now);
      RelayCallKeeps(config, w, timed, after.held);
      StopKeeps(config, after);
      if S.Apply(w.table, timed, LIFETIME).answer.Done? {
        RelayPart(config, w);
        AcceptedIsServed(config, w, d, now);
        DecisionAckKeeps(config, after);
      }
    }
  }

  lemma RelayPart(config: Config, w: World)
    requires Invariant(config, w)
    ensures RelaySound(config, w.table, w.clock, w.sent, w.made)
  {
  }

  lemma DecisionAckKeeps(config: Config, w: World)
    requires Invariant(config, w) && w.phase == Syncing && w.memory.decisionOutbox != []
    requires Served(config, w.table, w.clock, w.memory.decisionOutbox[0])
    ensures Invariant(config, w.(phase := DecisionAcked))
  {
    hide RelaySound, DiskSound, MemorySound, Served;
  }

  // ---------------------------------------------------------------- popping

  /** After an acknowledgement the shorter outbox is sound unsaved work. */
  lemma PoppedIsSound(config: Config, w: World, popped: State)
    requires Invariant(config, w)
    requires || (w.phase == OfferAcked && PopOffer(w.memory) == Changed(popped))
             || (w.phase == DecisionAcked && w.memory.decisionOutbox != []
                 && popped == w.memory.(decisionOutbox := w.memory.decisionOutbox[1..]))
    ensures Invariant(config, w.(memory := popped, phase := Edited(false)))
  {
    hide RelaySound, DiskSound, Served, Keeps, DecidedIn;
    PoppedIsValid(config.publisher, w.memory, popped);
    DiskPart(config, w);
    assert w.phase == DecisionAcked ==> w.memory.decisionOutbox == [w.memory.decisionOutbox[0]] + popped.decisionOutbox;
    forall q: PairRequest, o: PairOffer | Keeps(w.disk.pending, q, o)
      ensures Keeps(popped.pending, q, o)
    {
    }
  }

  lemma DiskPart(config: Config, w: World)
    requires Invariant(config, w)
    ensures PendingKnown(config, w.disk.pending, w.sent, w.made)
  {
  }

  lemma PoppedIsValid(publisher: Identity, s: State, popped: State)
    requires R.Valid(publisher, s)
    requires || PopOffer(s) == Changed(popped)
             || (s.decisionOutbox != [] && popped == s.(decisionOutbox := s.decisionOutbox[1..]))
    ensures R.Valid(publisher, popped)
  {
    if PopOffer(s) == Changed(popped) {
      R.PopsKeepValid(publisher, s, R.OfferSent);
    } else {
      R.DecisionPopKeepsValid(publisher, s);
    }
  }

  lemma PopKeeps(config: Config, w: World)
    requires Invariant(config, w)
    ensures Invariant(config, Step(config, w, Pop))
  {
    hide Invariant, ValidateState, Recorded;
    StopKeeps(config, w);
    if || (w.phase == OfferAcked && w.memory.offerOutbox != [])
       || (w.phase == DecisionAcked && w.memory.decisionOutbox != []) {
      var popped := if w.phase == OfferAcked then w.memory.(offerOutbox := w.memory.offerOutbox[1..])
                    else w.memory.(decisionOutbox := w.memory.decisionOutbox[1..]);
      PoppedIsSound(config, w, popped);
      SaveKeeps(config, w.(memory := popped, phase := Edited(false)));
    }
  }

  // ---------------------------------------------------------------- editing

  lemma EditedIsSound(config: Config, w: World, next: State, deciding: bool)
    requires Invariant(config, w)
    requires MemorySound(config, w.table, w.clock, w.disk, next, w.sent, w.made)
    ensures Invariant(config, w.(memory := next, phase := Edited(deciding)))
  {
    hide RelaySound, DiskSound, MemorySound;
  }

  lemma RevokeKeeps(config: Config, w: World, stream: nat, selects: Identity -> bool)
    requires Invariant(config, w)
    ensures Invariant(config, Step(config, w, RevokeOne(stream, selects)))
  {
    hide RelaySound, DiskSound, Served, Keeps, DecidedIn, Revoke;
    StopKeeps(config, w);
    var change := Revoke(w.memory, stream, selects);
    if w.phase == Syncing && change.Changed? {
      R.AttemptKeepsValid(config.publisher, w.memory, R.RevokeCommand(stream, selects));
      RevokedOnly(config.publisher, w.memory, stream, selects);
      EditedIsSound(config, w, change.state, false);
    }
  }

  lemma RevokedOnly(publisher: Identity, s: State, stream: nat, selects: Identity -> bool)
    requires R.Valid(publisher, s) && Revoke(s, stream, selects).Changed?
    ensures var next := Revoke(s, stream, selects).state;
            next.pending == s.pending && next.decisionOutbox == s.decisionOutbox && next.offerOutbox == s.offerOutbox
  {
  }

  lemma DecideKeeps(config: Config, w: World, selects: nat -> bool, approve: bool, now: i64)
    requires Invariant(config, w)
    ensures Invariant(config, Step(config, w, DecideOne(selects, approve, now)))
  {
    hide RelaySound, DiskSound, Served, Decide, MemorySound;
    StopKeeps(config, w);
    var change := Decide(config.publisher, w.memory, selects, approve, now);
    if change.Changed? {
      DecidedIsSound(config, w, selects, approve, now);
      EditedIsSound(config, w, change.state, true);
    }
  }

  lemma DecidedIsSound(config: Config, w: World, selects: nat -> bool, approve: bool, now: i64)
    requires Invariant(config, w) && Decide(config.publisher, w.memory, selects, approve, now).Changed?
    ensures MemorySound(config, w.table, w.clock, w.disk,
                        Decide(config.publisher, w.memory, selects, approve, now).state, w.sent, w.made)
  {
    hide RelaySound, DiskSound, Served, DecideAt, UniqueIndex, R.Valid, PhaseSound, Keeps, DecidedIn;
    var select := (p: Pending) => selects(p.request.id);
    var index := UniqueIndex(w.memory.pending, select).value;
    var p, next := w.memory.pending[index], Decide(config.publisher, w.memory, selects, approve, now).state;
    R.DecideIs(config.publisher, w.memory, index, approve, now);
    assert Keeps(w.memory.pending, p.request, p.offer) by { KeptAt(w.memory.pending, index); }
    forall q: PairRequest, o: PairOffer
      ensures Keeps(next.pending, q, o) ==> Keeps(w.memory.pending, q, o)
      ensures Keeps(w.memory.pending, q, o) ==> Keeps(next.pending, q, o) || q.id == p.request.id
    {
      KeptExcept(w.memory.pending, next.pending, p, q, o);
    }
    var d :| d in next.decisionOutbox && d.requestId == p.request.id
             && forall x :: x in next.decisionOutbox <==> x in w.memory.decisionOutbox || x == d;
    forall id
      ensures DecidedIn(next.decisionOutbox, id) <==> DecidedIn(w.memory.decisionOutbox, id) || id == p.request.id
    {
      DecidedMore(w.memory.decisionOutbox, next.decisionOutbox, d, id);
    }
  }

  lemma KeptAt(pending: seq<Pending>, index: nat)
    requires index < |pending|
    ensures Keeps(pending, pending[index].request, pending[index].offer)
  {
    assert pending[index] in pending;
  }

  lemma KeptExcept(pending: seq<Pending>, rest: seq<Pending>, p: Pending, q: PairRequest, o: PairOffer)
    requires forall x :: x in rest <==> x in pending && x != p
    ensures Keeps(rest, q, o) ==> Keeps(pending, q, o)
    ensures Keeps(pending, q, o) ==> Keeps(rest, q, o) || q == p.request
  {
  }

  lemma DecidedMore(outbox: seq<Decision>, more: seq<Decision>, d: Decision, id: nat)
    requires forall x :: x in more <==> x in outbox || x == d
    ensures DecidedIn(more, id) <==> DecidedIn(outbox, id) || id == d.requestId
  {
    assert d in more;
  }

  // ---------------------------------------------------------------- the inbox

  lemma {:induction false} DeliveredFrom(t: S.Table, ids: seq<nat>, q: PairRequest)
    requires forall k :: 0 <= k < |ids| ==> ids[k] in t
    requires q in Requests(S.Deliveries(t, ids))
    ensures exists k :: 0 <= k < |ids| && t[ids[k]].request == q
  {
    if ids != [] {
      var most, last := ids[..|ids| - 1], ids[|ids| - 1];
      var deliveries := S.Deliveries(t, ids);
      assert deliveries[..|deliveries| - 1] == S.Deliveries(t, most);
      if q in Requests(S.Deliveries(t, most)) {
        DeliveredFrom(t, most, q);
        var k :| 0 <= k < |most| && t[most[k]].request == q;
        assert t[ids[k]].request == q;
      } else {
        assert t[ids[|ids| - 1]].request == q;
      }
    }
  }

  lemma {:induction false} ConfirmedFrom(t: S.Table, ids: seq<nat>, c: Confirmation)
    requires forall k :: 0 <= k < |ids| ==> ids[k] in t
    requires c in S.Confirmed(t, ids)
    ensures exists k :: 0 <= k < |ids| && t[ids[k]].confirmation == Some(c)
  {
    if ids != [] {
      var most, last := ids[..|ids| - 1], ids[|ids| - 1];
      if c in S.Confirmed(t, most) {
        ConfirmedFrom(t, most, c);
        var k :| 0 <= k < |most| && t[most[k]].confirmation == Some(c);
        assert t[ids[k]].confirmation == Some(c);
      } else {
        assert t[ids[|ids| - 1]].confirmation == Some(c);
      }
    }
  }

  /** An undecided row of this publisher, seen with an empty outbox, is a request it has not decided. */
  lemma UndecidedRowIsOpen(config: Config, w: World, id: nat)
    requires Invariant(config, w) && w.disk.decisionOutbox == []
    requires id in w.table && w.table[id].decision.None? && w.table[id].request.publisher == config.publisher
    ensures var row := w.table[id];
            && row.request.id == id && config.registry(id) == row.request && id !in w.made
            && (row.confirmation.Some? ==>
                  && row.confirmation.value.requestId == id && id in w.sent
                  && VerifyConfirmation(row.confirmation.value, config.registry(id), w.sent[id]) == Passed)
  {
    hide R.Valid, PendingKnown, SentKnown, MemorySound, S.Timely;
    assert S.RowIntegrity(id, w.table[id]) && RowKnown(config, w.sent, w.made, id, w.table[id]);
  }

  lemma FetchKeeps(config: Config, w: World, now: i64)
    requires Invariant(config, w)
    ensures Invariant(config, Step(config, w, Fetch(now)))
  {
    hide Invariant, S.Deliveries, S.Confirmed, Requests, S.Purged;
    if w.phase == Syncing && w.memory.offerOutbox == [] && w.memory.decisionOutbox == [] && w.clock <= now {
      var kept := S.Purged(w.table, now);
      var ids := S.InboxIds(kept, config.publisher);
      RelayCallKeeps(config, w, S.Timed(S.InboxCall, now), w.held);
      var after := w.(table := kept, clock := now);
      SyncingIsSaved(config, after);
      ListedAreMine(kept, config.publisher);
      forall q | q in Requests(S.Deliveries(kept, ids))
        ensures config.registry(q.id) == q && q.id !in w.made
      {
        DeliveredFrom(kept, ids, q);
        var k :| 0 <= k < |ids| && kept[ids[k]].request == q;
        UndecidedRowIsOpen(config, after, ids[k]);
      }
      forall c | c in S.Confirmed(kept, ids)
        ensures c.requestId in w.sent
        ensures VerifyConfirmation(c, config.registry(c.requestId), w.sent[c.requestId]) == Passed
      {
        ConfirmedFrom(kept, ids, c);
        var k :| 0 <= k < |ids| && kept[ids[k]].confirmation == Some(c);
        UndecidedRowIsOpen(config, after, ids[k]);
      }
      HoldInbox(config, after, Requests(S.Deliveries(kept, ids)), S.Confirmed(kept, ids));
    }
  }

  lemma SyncingIsSaved(config: Config, w: World)
    requires Invariant(config, w) && w.phase == Syncing
    ensures w.memory == w.disk
  {
  }

  lemma ListedAreMine(t: S.Table, publisher: Identity)
    ensures var ids := S.InboxIds(t, publisher);
            forall k :: 0 <= k < |ids| ==>
                          ids[k] in t && t[ids[k]].decision.None? && t[ids[k]].request.publisher == publisher
  {
    S.ArrivalsAreOrdered(t, S.UndecidedFor(t, publisher), S.MAX_INBOX_RECORDS);
  }

  lemma HoldInbox(config: Config, w: World, requests: seq<PairRequest>, confirmations: seq<Confirmation>)
    requires Invariant(config, w) && w.phase == Syncing && w.memory.offerOutbox == [] && w.memory.decisionOutbox == []
    requires SnapshotSound(config, requests, confirmations, w.sent, w.made)
    ensures Invariant(config, w.(phase := Fetched(requests, confirmations)))
  {
    hide RelaySound, DiskSound, MemorySound, SnapshotSound;
  }

  // ---------------------------------------------------------------- taking the inbox

  /** What holds of the state half way through a refresh. */
  ghost predicate TakingSound(
    config: Config, start: State, s: State, sent: map<nat, PairOffer>, made: map<nat, Decision>)
  {
    && R.Sound(config.publisher, s)
    && PendingKnown(config, s.pending, sent, made) && SentKnown(config, s.pending, sent, made)
    && (forall d :: d in s.decisionOutbox ==> d.requestId !in made)
    && (forall q: PairRequest, o: PairOffer :: Keeps(start.pending, q, o) ==> Keeps(s.pending, q, o))
  }

  lemma TakeRequestEffect(context: Context, s: State, q: PairRequest)
    requires R.Sound(context.publisher, s) && TakeRequest(context, s, q).Changed?
    ensures var next := TakeRequest(context, s, q).state;
            && (next.pending == s.pending
                || (q.id !in R.PendingIds(s.pending)
                    && exists p: Pending :: p.request == q && next.pending == s.pending + [p]))
            && (forall d :: d in next.decisionOutbox ==> d in s.decisionOutbox || d.requestId == q.id)
  {
    hide R.GrantsSound, R.CeremoniesSound, VerifyRequest, AddApproved, R.PendingIds, QueueDecision, NewOffer;
    R.PendingIdsOf(s.pending, q.id);
    var made := ApproveByPolicy(context.publisher, q, PolicyReason(context.policy), context.answeredAt(q));
    if made.Ok? {
      AddApprovedOnly(s, GrantOf(q));
      var granted := AddApproved(s, GrantOf(q));
      if granted.Changed? {
        R.QueueIs(granted.state, made.value);
      }
    }
    var offered := NewOffer(context.publisher, q, context.relayContext, context.nonces(q), context.answeredAt(q),
                            q.expiresAt,
                            PublisherState.PAIR_LIFETIME_MS);
    if offered.Ok? {
      var p := Pending(q, offered.value, None, context.sources(q));
      assert p.request == q;
    }
  }

  lemma AddApprovedOnly(s: State, g: Grant)
    ensures AddApproved(s, g).Changed? ==>
              var next := AddApproved(s, g).state;
              next == s.(approved := next.approved, historyOutbox := next.historyOutbox)
  {
  }

  lemma PushedKeeps(pending: seq<Pending>, p: Pending, q: PairRequest, o: PairOffer)
    ensures Keeps(pending + [p], q, o) <==> Keeps(pending, q, o) || (p.request == q && p.offer == o)
  {
    assert p in pending + [p];
  }

  lemma KeptIsPending(pending: seq<Pending>, q: PairRequest, o: PairOffer)
    requires Keeps(pending, q, o)
    ensures q.id in R.PendingIds(pending)
  {
  }

  lemma PushedIsKnown(
    config: Config, pending: seq<Pending>, p: Pending, sent: map<nat, PairOffer>, made: map<nat, Decision>)
    requires PendingKnown(config, pending, sent, made) && SentKnown(config, pending, sent, made)
    requires config.registry(p.request.id) == p.request && p.request.id !in made
    requires p.request.id !in R.PendingIds(pending)
    ensures PendingKnown(config, pending + [p], sent, made) && SentKnown(config, pending + [p], sent, made)
    ensures forall q: PairRequest, o: PairOffer :: Keeps(pending, q, o) ==> Keeps(pending + [p], q, o)
  {
    hide Keeps;
    if p.request.id in sent {
      KeptIsPending(pending, p.request, sent[p.request.id]);
    }
    forall q: PairRequest, o: PairOffer
      ensures Keeps(pending + [p], q, o) <==> Keeps(pending, q, o) || (p.request == q && p.offer == o)
    {
      PushedKeeps(pending, p, q, o);
    }
  }

  lemma TakeOneKeeps(
    config: Config, context: Context, start: State, s: State, q: PairRequest, sent: map<nat, PairOffer>,
    made: map<nat, Decision>)
    requires TakingSound(config, start, s, sent, made) && context.publisher == config.publisher && R.OnePath(context, s)
    requires config.registry(q.id) == q && q.id !in made && TakeRequest(context, s, q).Changed?
    ensures var next := TakeRequest(context, s, q).state;
            TakingSound(config, start, next, sent, made) && R.OnePath(context, next)
  {
    hide R.Sound, PendingKnown, SentKnown, Keeps, TakeRequest;
    R.TakeRequestKeeps(context, s, q);
    TakeRequestEffect(context, s, q);
    var next := TakeRequest(context, s, q).state;
    if next.pending != s.pending {
      var p: Pending :| p.request == q && next.pending == s.pending + [p];
      PushedIsKnown(config, s.pending, p, sent, made);
    }
  }

  lemma {:induction false} TakeAllKeeps(
    config: Config, context: Context, start: State, requests: seq<PairRequest>, sent: map<nat, PairOffer>,
    made: map<nat, Decision>)
    requires TakingSound(config, start, start, sent, made) && context.publisher == config.publisher
    requires R.OnePath(context, start)
    requires (forall q :: q in requests ==> config.registry(q.id) == q && q.id !in made)
    requires TakeRequests(context, start, requests).Changed?
    ensures var next := TakeRequests(context, start, requests).state;
            TakingSound(config, start, next, sent, made) && R.OnePath(context, next)
  {
    hide TakingSound, TakeRequest;
    if requests != [] {
      var most, q := requests[..|requests| - 1], requests[|requests| - 1];
      TakeAllKeeps(config, context, start, most, sent, made);
      TakeOneKeeps(config, context, start, TakeRequests(context, start, most).state, q, sent, made);
    }
  }

  lemma ConfirmedKeeps(pending: seq<Pending>, i: nat, c: Confirmation, q: PairRequest, o: PairOffer)
    requires i < |pending|
    ensures Keeps(pending[i := pending[i].(confirmation := Some(c))], q, o) <==> Keeps(pending, q, o)
  {
    var more := pending[i := pending[i].(confirmation := Some(c))];
    if Keeps(pending, q, o) {
      var p :| p in pending && p.request == q && p.offer == o;
      var k :| 0 <= k < |pending| && pending[k] == p;
      assert more[k].request == q && more[k].offer == o;
    }
    if Keeps(more, q, o) {
      var p :| p in more && p.request == q && p.offer == o;
      var k :| 0 <= k < |more| && more[k] == p;
      assert pending[k].request == q && pending[k].offer == o;
    }
  }

  /** Every confirmation of a sound inbox verifies against the offer the publisher kept. */
  lemma {:induction false} ConfirmationsAreTaken(
    config: Config, start: State, s: State, confirmations: seq<Confirmation>, sent: map<nat, PairOffer>,
    made: map<nat, Decision>)
    requires TakingSound(config, start, s, sent, made)
    requires forall c :: c in confirmations ==>
               c.requestId in sent && VerifyConfirmation(c, config.registry(c.requestId), sent[c.requestId]) == Passed
    ensures TakeConfirmations(s, confirmations).Changed?
    ensures TakingSound(config, start, TakeConfirmations(s, confirmations).state, sent, made)
  {
    hide TakingSound, FindPending, VerifyConfirmation;
    if confirmations != [] {
      var most, c := confirmations[..|confirmations| - 1], confirmations[|confirmations| - 1];
      ConfirmationsAreTaken(config, start, s, most, sent, made);
      var before := TakeConfirmations(s, most).state;
      assert c in confirmations;
      OneConfirmationIsTaken(config, start, before, c, sent, made);
    }
  }

  lemma OneConfirmationIsTaken(
    config: Config, start: State, s: State, c: Confirmation, sent: map<nat, PairOffer>, made: map<nat, Decision>)
    requires TakingSound(config, start, s, sent, made)
    requires c.requestId in sent && VerifyConfirmation(c, config.registry(c.requestId), sent[c.requestId]) == Passed
    ensures TakeConfirmation(s, c).Changed? && TakingSound(config, start, TakeConfirmation(s, c).state, sent, made)
  {
    hide R.Sound, Keeps, VerifyConfirmation;
    var found := FindPending(s.pending, c.requestId);
    if found.Some? {
      var p := s.pending[found.value];
      KeptAt(s.pending, found.value);
      assert Keeps(s.pending, p.request, p.offer);
      R.ConfirmPending(config.publisher, s, found.value, c);
      forall q: PairRequest, o: PairOffer
        ensures Keeps(TakeConfirmation(s, c).state.pending, q, o) <==> Keeps(s.pending, q, o)
      {
        ConfirmedKeeps(s.pending, found.value, c, q, o);
      }
    }
  }

  lemma SortedKeeps(pending: seq<Pending>, q: PairRequest, o: PairOffer)
    ensures Keeps(SortBy(pending, PendingRank), q, o) <==> Keeps(pending, q, o)
  {
    var sorted := SortBy(pending, PendingRank);
    if Keeps(pending, q, o) {
      var p :| p in pending && p.request == q && p.offer == o;
      SortMembers(pending, PendingRank, p);
    }
    if Keeps(sorted, q, o) {
      var p :| p in sorted && p.request == q && p.offer == o;
      SortMembers(pending, PendingRank, p);
    }
  }

  /** A refresh that took all its requests succeeds, and what it leaves is sound unsaved work. */
  lemma RefreshIsSound(config: Config, w: World, context: Context)
    requires Invariant(config, w) && w.phase.Fetched? && context.publisher == config.publisher
    requires TakeRequests(context, w.memory, w.phase.requests).Changed?
    ensures Refresh(context, w.memory, w.phase.requests, w.phase.confirmations).Changed?
    ensures MemorySound(config, w.table, w.clock, w.disk,
                        Refresh(context, w.memory, w.phase.requests, w.phase.confirmations).state, w.sent, w.made)
  {
    hide TakeRequests, TakeConfirmations, TakingSound, R.Valid;
    var start, requests, confirmations := w.memory, w.phase.requests, w.phase.confirmations;
    StartsTaking(config, w);
    TakeAllKeeps(config, context, start, requests, w.sent, w.made);
    var middle := TakeRequests(context, start, requests).state;
    ConfirmationsAreTaken(config, start, middle, confirmations, w.sent, w.made);
    var last := TakeConfirmations(middle, confirmations).state;
    TakenIsSound(config, w, last);
  }

  lemma StartsTaking(config: Config, w: World)
    requires Invariant(config, w) && w.phase.Fetched?
    ensures TakingSound(config, w.memory, w.memory, w.sent, w.made)
    ensures w.memory.decisionOutbox == []
    ensures SnapshotSound(config, w.phase.requests, w.phase.confirmations, w.sent, w.made)
  {
    hide RelaySound, MemorySound, R.Sound, PendingKnown, SentKnown, SnapshotSound, Keeps;
  }

  lemma TakenIsSound(config: Config, w: World, s: State)
    requires Invariant(config, w) && w.phase.Fetched? && TakingSound(config, w.memory, s, w.sent, w.made)
    ensures MemorySound(config, w.table, w.clock, w.disk, s.(pending := SortBy(s.pending, PendingRank)), w.sent, w.made)
  {
    hide RelaySound, DiskSound, R.Sound, SortBy, Keeps, DecidedIn, SentKnown;
    R.SortedIsValid(config.publisher, s);
    assert w.disk == w.memory && w.disk.decisionOutbox == [];
    forall q: PairRequest, o: PairOffer
      ensures Keeps(SortBy(s.pending, PendingRank), q, o) <==> Keeps(s.pending, q, o)
    {
      SortedKeeps(s.pending, q, o);
    }
  }

  lemma TakeKeeps(config: Config, w: World, context: Context)
    requires Invariant(config, w)
    ensures Invariant(config, Step(config, w, Take(context)))
  {
    hide Invariant, MemorySound, TakeRequests, TakeConfirmations;
    StopKeeps(config, w);
    if && w.phase.Fetched? && context.publisher == config.publisher
       && TakeRequests(context, w.memory, w.phase.requests).Changed? {
      RefreshIsSound(config, w, context);
      EditedIsSound(config, w, Refresh(context, w.memory, w.phase.requests, w.phase.confirmations).state, false);
    }
  }

  // ---------------------------------------------------------------- every run

  lemma LoadKeeps(config: Config, w: World)
    requires Invariant(config, w)
    ensures Invariant(config, Step(config, w, Load))
  {
    hide RelaySound, DiskSound, MemorySound;
    DiskIsSoundMemory(config, w.table, w.clock, w.disk, w.sent, w.made);
  }

  lemma SaveStepKeeps(config: Config, w: World)
    requires Invariant(config, w)
    ensures Invariant(config, Step(config, w, Save))
  {
    hide Invariant, ValidateState, Recorded;
    StopKeeps(config, w);
    SaveKeeps(config, w);
  }

  lemma RelayKeeps(config: Config, w: World, timed: S.Timed)
    requires Invariant(config, w)
    ensures Invariant(config, Step(config, w, Relay(timed)))
  {
    hide Invariant, S.Apply, Allowed;
    if w.clock <= timed.now && Allowed(config, w.sent, w.made, timed.call) {
      RelayCallKeeps(config, w, timed, Told(w, S.Apply(w.table, timed, LIFETIME).table, timed.now).held);
    }
  }

  lemma StepKeepsInvariant(config: Config, w: World, action: Action)
    requires Invariant(config, w)
    ensures Invariant(config, Step(config, w, action))
  {
    hide Invariant, Step;
    match action
    case Relay(timed) => RelayKeeps(config, w, timed);
    case Load => LoadKeeps(config, w);
    case SendOffer(now, acked) => SendOfferKeeps(config, w, now, acked);
    case SendDecision(now, acked) => SendDecisionKeeps(config, w, now, acked);
    case Pop => PopKeeps(config, w);
    case Fetch(now) => FetchKeeps(config, w, now);
    case Take(context) => TakeKeeps(config, w, context);
    case DecideOne(selects, approve, now) => DecideKeeps(config, w, selects, approve, now);
    case RevokeOne(stream, selects) => RevokeKeeps(config, w, stream, selects);
    case Save => SaveStepKeeps(config, w);
    case Crash => CrashKeeps(config, w);
  }

  lemma CrashKeeps(config: Config, w: World)
    requires Invariant(config, w)
    ensures Invariant(config, Step(config, w, Crash))
  {
    hide Invariant;
    StopKeeps(config, w);
  }

  lemma {:induction false} RunKeepsInvariant(config: Config, start: World, actions: seq<Action>)
    requires Invariant(config, start)
    ensures Invariant(config, Run(config, start, actions))
  {
    hide Invariant, Step;
    if actions != [] {
      RunKeepsInvariant(config, start, actions[..|actions| - 1]);
      StepKeepsInvariant(config, Run(config, start, actions[..|actions| - 1]), actions[|actions| - 1]);
    }
  }

  // ---------------------------------------------------------------- main theorems

  /** Agreement on offers: whenever the relay holds an offer for a request still pending at the
      publisher, it is exactly the publisher's saved offer. */
  lemma OfferAgreement(config: Config, clock: i64, actions: seq<Action>, p: Pending)
    requires var w := Run(config, Initial(clock), actions);
             p in w.disk.pending && p.request.id in w.table && w.table[p.request.id].offer.Some?
    ensures var w := Run(config, Initial(clock), actions);
            w.table[p.request.id].request == p.request && w.table[p.request.id].offer == Some(p.offer)
  {
    hide Run, MemorySound, S.Integrity, S.Timely, Served;
    InitialInvariant(config, clock);
    RunKeepsInvariant(config, Initial(clock), actions);
    var w := Run(config, Initial(clock), actions);
    assert Keeps(w.disk.pending, p.request, p.offer);
    assert RowKnown(config, w.sent, w.made, p.request.id, w.table[p.request.id]);
    assert R.PendingFits(config.publisher, p);
  }

  /** Every decision ever saved is still in the saved outbox, or the relay's row holds exactly it, or the
      row is gone and its request has expired. */
  lemma ServedOrQueued(config: Config, clock: i64, actions: seq<Action>, id: nat)
    requires id in Run(config, Initial(clock), actions).made
    ensures var w := Run(config, Initial(clock), actions);
            var d := w.made[id];
            && d.requestId == id
            && (d in w.disk.decisionOutbox || Served(config, w.table, w.clock, d))
            && (id in w.table && w.table[id].decision.Some? && w.table[id].request.publisher == config.publisher ==>
                  w.table[id].decision == Some(d))
  {
    hide Run, MemorySound, S.Integrity, S.Timely, Served, R.Valid, PendingKnown, SentKnown;
    InitialInvariant(config, clock);
    RunKeepsInvariant(config, Initial(clock), actions);
    var w := Run(config, Initial(clock), actions);
    assert id in w.table ==> RowKnown(config, w.sent, w.made, id, w.table[id]);
  }

  /** One decision per request, for ever: no later step saves another for the same request. */
  lemma DecisionsAreFinal(config: Config, w: World, action: Action, id: nat)
    requires Invariant(config, w) && id in w.made
    ensures id in Step(config, w, action).made && Step(config, w, action).made[id] == w.made[id]
  {
    hide Invariant, S.Apply, FindPending, Recorded, ValidateState, Refresh, Decide, Revoke, Allowed;
    if action.Save? {
      SaveExtends(config, w);
    } else if action.Pop? && (w.phase == OfferAcked || w.phase == DecisionAcked)
              && (w.phase == OfferAcked ==> w.memory.offerOutbox != [])
              && (w.phase == DecisionAcked ==> w.memory.decisionOutbox != []) {
      var popped := if w.phase == OfferAcked then w.memory.(offerOutbox := w.memory.offerOutbox[1..])
                    else w.memory.(decisionOutbox := w.memory.decisionOutbox[1..]);
      PoppedIsSound(config, w, popped);
      SaveExtends(config, w.(memory := popped, phase := Edited(false)));
    }
  }

  /** A refresh never fails on a confirmation the relay delivered. */
  lemma DeliveredConfirmationsVerify(config: Config, clock: i64, actions: seq<Action>, context: Context)
    requires var w := Run(config, Initial(clock), actions);
             && w.phase.Fetched? && context.publisher == config.publisher
             && TakeRequests(context, w.memory, w.phase.requests).Changed?
    ensures var w := Run(config, Initial(clock), actions);
            Refresh(context, w.memory, w.phase.requests, w.phase.confirmations).Changed?
  {
    hide Run, Invariant, MemorySound, TakeRequests, Refresh;
    InitialInvariant(config, clock);
    RunKeepsInvariant(config, Initial(clock), actions);
    RefreshIsSound(config, Run(config, Initial(clock), actions), context);
  }

  /** An acknowledged send succeeds exactly while the relay has the request and the offer passes its
      time checks there. */
  lemma OfferServedExactlyWhen(config: Config, w: World, p: Pending, now: i64)
    requires Invariant(config, w) && w.phase == Syncing && w.memory.offerOutbox != [] && w.clock <= now
    requires var found := FindPending(w.memory.pending, w.memory.offerOutbox[0]);
             found.Some? && p == w.memory.pending[found.value]
    ensures Step(config, w, SendOffer(now, true)).phase == OfferAcked
            <==> p.request.id in S.Purged(w.table, now) && VerifyOffer(p.offer, p.request, now, LIFETIME) == Passed
  {
    HeadIsKept(config, w);
    hide DiskSound, MemorySound, S.Integrity, S.Timely, VerifyOffer, FindPending, S.Stale;
    assert p.request.id in w.table ==> RowKnown(config, w.sent, w.made, p.request.id, w.table[p.request.id]);
  }
}
