/** A pairing in which nothing goes wrong, from the empty start to the served approval. */
module PairingEndToEnd {
  import opened MachineInts
  import opened Wrappers
  import opened PairingRecords
  import opened Ordering
  import opened PublisherState
  import opened PairingProtocol
  import B = BlockedApproval
  import C = PairingCeremony
  import D = PairingDelivery
  import S = PairingStore
  import R = PublisherRuns

  /** Everything that passes between the two sides for one request. */
  datatype Records = Records(
    request: PairRequest, offer: PairOffer, confirmation: Confirmation, decision: Decision, source: nat)

  /** The request can be stored, and the others are made for it in turn: the publisher's offer for the rest of
      its life, the viewer's confirmation of that offer, and the publisher's approval of that. */
  predicate Made(r: Records, context: Context, at: i64) {
    && D.Answerable(r.request, at) && D.Suits(context, r.request, at) && context.policy.Required?
    && r.request.expiresAt <= at + LIFETIME
    && D.Offering(context, r.request) == Ok(r.offer) && context.sources(r.request) == r.source
    && Approve(r.request.viewer, r.request, r.offer, at) == Ok(r.confirmation)
    && ApproveManual(r.request.publisher, r.request, r.offer, r.confirmation, at) == Ok(r.decision)
  }

  function CeremonyOf(r: Records, at: i64): C.Ceremony {
    C.Ceremony(r.request, 0, r.offer, r.confirmation, r.decision, at, at, at, at)
  }

  lemma MadeIsWellMade(r: Records, context: Context, at: i64)
    requires Made(r, context, at)
    ensures C.WellMade(CeremonyOf(r, at), LIFETIME) && VerifyRequest(r.request, at, LIFETIME) == Passed
    ensures r.decision.requestId == r.request.id == r.offer.requestId == r.confirmation.requestId
    ensures R.PendingFits(r.request.publisher, PendingOf(r, true))
    ensures at < r.request.expiresAt
  {
    var q := r.request;
    TimeCheckMeans(q.issuedAt, q.expiresAt, at, LIFETIME);
    TimeCheckMeans(at, q.expiresAt, at, LIFETIME);
  }

  function PendingOf(r: Records, confirmed: bool): Pending {
    Pending(r.request, r.offer, if confirmed then Some(r.confirmation) else None, r.source)
  }

  // ---------------------------------------------------------------- one row in the table

  function RowOf(r: Records, at: i64, filled: nat): S.Row {
    S.Row(r.request, 0, at, if filled >= 1 then Some(r.offer) else None,
          if filled >= 2 then Some(r.confirmation) else None, if filled >= 3 then Some(r.decision) else None,
          if filled >= 3 then at else 0)
  }

  function TableOf(r: Records, at: i64, filled: nat): S.Table {
    map[r.request.id := RowOf(r, at, filled)]
  }

  /** The call that fills the next slot. */
  function CallFor(r: Records, at: i64, filled: nat): S.Timed {
    if filled == 0 then S.Timed(S.OfferCall(r.offer), at)
    else if filled == 1 then S.Timed(S.ConfirmationCall(r.confirmation), at)
    else S.Timed(S.DecisionCall(r.decision), at)
  }

  lemma CallFills(r: Records, context: Context, at: i64, filled: nat)
    requires Made(r, context, at) && filled < 3
    ensures S.Apply(TableOf(r, at, filled), CallFor(r, at, filled), LIFETIME)
            == S.Outcome(TableOf(r, at, filled + 1), S.Done(true))
  {
    MadeIsWellMade(r, context, at);
    var id, t, timed := r.request.id, TableOf(r, at, filled), CallFor(r, at, filled);
    C.EachCallLeaves(t, CeremonyOf(r, at), LIFETIME);
    var next := S.Apply(t, timed, LIFETIME);
    hide S.Apply, Made;
    forall k | k != id
      ensures k !in next.table
    {
      C.OtherRowsStay(t, timed, LIFETIME, k);
    }
  }

  lemma TableHolds(r: Records, at: i64, filled: nat)
    ensures HeldBy(TableOf(r, at, filled)) == if filled >= 3 then {r.decision} else {}
  {
    var t := TableOf(r, at, filled);
    assert r.request.id in t;
  }

  // ---------------------------------------------------------------- the publisher's states

  /** Asked, offered, confirmed, approved, and all of it delivered. */
  datatype Stage = Asking | Offering | Comparing | Answering | Finished

  function StateOf(r: Records, stage: Stage): State {
    match stage
    case Asking => EMPTY.(pending := [PendingOf(r, false)], offerOutbox := [r.request.id])
    case Offering => EMPTY.(pending := [PendingOf(r, false)])
    case Comparing => EMPTY.(pending := [PendingOf(r, true)])
    case Answering =>
      EMPTY.(approved := [GrantOf(r.request)], historyOutbox := [GrantOf(r.request)], decisionOutbox := [r.decision])
    case Finished => EMPTY.(approved := [GrantOf(r.request)], historyOutbox := [GrantOf(r.request)])
  }

  lemma StatesAreValid(r: Records, stage: Stage)
    ensures ValidateState(StateOf(r, stage))
  {
    hide Below;
  }

  /** The publisher asks: the request becomes pending with its offer queued. */
  lemma AsksFirst(r: Records, context: Context, at: i64)
    requires Made(r, context, at)
    ensures Refresh(context, EMPTY, [r.request], []) == Changed(StateOf(r, Asking))
  {
    D.OfferIsQueued(context, EMPTY, r.request, at);
    AskedFor(r, context, at);
    D.RefreshOne(context, EMPTY, r.request);
  }

  lemma AskedFor(r: Records, context: Context, at: i64)
    requires Made(r, context, at) && TakeRequest(context, EMPTY, r.request).Changed?
    requires |TakeRequest(context, EMPTY, r.request).state.pending| == 1
    ensures TakeRequest(context, EMPTY, r.request).state.pending == [PendingOf(r, false)]
  {
    hide VerifyRequest, NewOffer;
    assert FindPending(EMPTY.pending, r.request.id).None?;
    assert [] + [PendingOf(r, false)] == [PendingOf(r, false)];
  }

  /** The publisher reads the inbox again: the request is known, and its confirmation is new. */
  lemma AsksAgain(r: Records, context: Context, at: i64, s: State)
    requires Made(r, context, at) && s == StateOf(r, Offering)
    ensures Refresh(context, s, [r.request], [r.confirmation]) == Changed(StateOf(r, Comparing))
  {
    MadeIsWellMade(r, context, at);
    hide VerifyRequest, VerifyConfirmation, Made, NewOffer, ApproveAtOnce;
    var one, conf := [r.request], [r.confirmation];
    FoundFirst(s.pending, r.request.id);
    assert one[..0] == [] && conf[..0] == [];
    assert TakeRequests(context, s, one[..0]) == Changed(s);
    assert TakeRequest(context, s, one[0]) == Changed(s) by { KnownAlready(context, s, r.request, at); }
    assert TakeRequests(context, s, one) == Changed(s);
    assert TakeConfirmations(s, conf[..0]) == Changed(s);
    assert s.pending[0 := PendingOf(r, true)] == [PendingOf(r, true)];
    assert TakeConfirmation(s, conf[0]) == Changed(StateOf(r, Comparing));
    assert TakeConfirmations(s, conf) == Changed(StateOf(r, Comparing));
    D.SortOne(PendingOf(r, true), PendingRank, []);
    assert [] + [PendingOf(r, true)] == [PendingOf(r, true)];
  }

  lemma KnownAlready(context: Context, s: State, q: PairRequest, at: i64)
    requires VerifyRequest(q, context.checkedAt(q), PublisherState.PAIR_LIFETIME_MS) == Passed
    requires FindPending(s.pending, q.id).Some?
    ensures TakeRequest(context, s, q) == Changed(s)
  {
    hide VerifyRequest;
  }

  lemma FoundFirst(pending: seq<Pending>, id: nat)
    requires |pending| == 1 && pending[0].request.id == id
    ensures FindPending(pending, id) == Some(0)
  {
  }

  /** The publisher approves. */
  lemma ApprovesOne(r: Records, context: Context, at: i64, s: State)
    requires Made(r, context, at) && s == StateOf(r, Comparing)
    ensures Decide(r.request.publisher, s, R.Only(r.request.id), true, at) == Changed(StateOf(r, Answering))
  {
    MadeIsWellMade(r, context, at);
    var g, p := GrantOf(r.request), PendingOf(r, true);
    R.DecideById(r.request.publisher, s, 0, true, at);
    assert ApproveManual(p.request.publisher, p.request, p.offer, p.confirmation.value, at) == Ok(r.decision);
    hide ApproveManual, Made, Decide, AddApproved, QueueDecision, Retain;
    GrantsAlone(s, g);
    B.QueuesAlone(s.(approved := [g], historyOutbox := [g]), r.decision);
    B.RetainsNothing(s.offerOutbox, id => id != r.request.id);
    assert RemoveAt(s.pending, 0) == [];
  }

  lemma GrantsAlone(s: State, g: Grant)
    requires s.approved == [] && s.historyOutbox == [] && s.revoked == []
    ensures AddApproved(s, g) == Changed(s.(approved := [g], historyOutbox := [g]))
  {
    D.NothingFound(s.revoked, g);
    D.SortOne(g, GrantRank, s.approved);
  }

  // ---------------------------------------------------------------- the run, step by step

  /** Both sides, with `filled` slots of the row and the publisher's saved state at a stage. */
  function WorldOf(r: Records, at: i64, filled: nat, stage: Stage, phase: Phase, sent: bool, made: bool): World {
    World(TableOf(r, at, filled), at, StateOf(r, stage), StateOf(r, stage), phase,
          if sent then map[r.request.id := r.offer] else map[], if made then map[r.request.id := r.decision] else map[],
          if filled >= 3 then {r.decision} else {})
  }

  lemma Saves(config: Config, r: Records, w: World, stage: Stage)
    requires w.phase.Edited? && w.memory == StateOf(r, stage) && w.made == map[]
    requires r.decision.requestId == r.request.id
    ensures Step(config, w, Save)
            == w.(disk := w.memory, phase := Syncing,
                  made := if stage.Answering? then map[r.request.id := r.decision] else map[])
  {
    StatesAreValid(r, stage);
    hide ValidateState;
    var outbox := w.memory.decisionOutbox;
    if stage.Answering? {
      assert outbox[..0] == [] && Recorded(w.made, outbox[..0]) == map[];
      assert Recorded(w.made, outbox) == map[r.request.id := r.decision];
    } else {
      assert Recorded(w.made, outbox) == map[];
    }
  }

  lemma SendsOffer(config: Config, r: Records, context: Context, at: i64)
    requires Made(r, context, at)
    ensures Step(config, WorldOf(r, at, 0, Asking, Syncing, false, false), SendOffer(at, true))
            == WorldOf(r, at, 1, Asking, OfferAcked, true, false)
  {
    CallFills(r, context, at, 0);
    TableHolds(r, at, 1);
    FoundFirst(StateOf(r, Asking).pending, r.request.id);
    hide S.Apply, HeldBy, FindPending, Made;
  }

  lemma Pops(config: Config, r: Records, at: i64)
    ensures Step(config, WorldOf(r, at, 1, Asking, OfferAcked, true, false), Pop)
            == WorldOf(r, at, 1, Offering, Syncing, true, false)
    ensures Step(config, WorldOf(r, at, 3, Answering, DecisionAcked, true, true), Pop)
            == WorldOf(r, at, 3, Finished, Syncing, true, true)
  {
    StatesAreValid(r, Offering);
    StatesAreValid(r, Finished);
    hide ValidateState;
    assert StateOf(r, Asking).offerOutbox[1..] == [] && StateOf(r, Answering).decisionOutbox[1..] == [];
    assert forall made: map<nat, Decision> :: Recorded(made, []) == made;
  }

  lemma ViewerConfirms(config: Config, r: Records, context: Context, at: i64)
    requires Made(r, context, at)
    ensures Step(config, WorldOf(r, at, 1, Offering, Idle, true, false), Relay(CallFor(r, at, 1)))
            == WorldOf(r, at, 2, Offering, Idle, true, false)
  {
    CallFills(r, context, at, 1);
    TableHolds(r, at, 2);
    hide S.Apply, HeldBy, Made;
  }

  lemma Stops(config: Config, r: Records, at: i64)
    ensures Step(config, WorldOf(r, at, 1, Offering, Syncing, true, false), Crash)
            == WorldOf(r, at, 1, Offering, Idle, true, false)
    ensures Step(config, WorldOf(r, at, 2, Offering, Idle, true, false), Load)
            == WorldOf(r, at, 2, Offering, Syncing, true, false)
  {
  }

  /** The inbox holds the request and its confirmation. */
  lemma ConfirmedIsListed(r: Records, at: i64)
    requires at < r.request.expiresAt
    ensures var t := TableOf(r, at, 2);
            var ids := S.InboxIds(t, r.request.publisher);
            && S.Purged(t, at) == t && Requests(S.Deliveries(t, ids)) == [r.request]
            && S.Confirmed(t, ids) == [r.confirmation]
  {
    hide S.Arrivals;
    var t, id := TableOf(r, at, 2), r.request.id;
    var mine := S.UndecidedFor(t, r.request.publisher);
    assert mine == {id};
    S.ArrivalsAreOrdered(t, mine, S.MAX_INBOX_RECORDS);
    var ids := S.InboxIds(t, r.request.publisher);
    assert |ids| == 1 && ids[0] == id;
    assert ids == [id];
    ListedOnce(r, at, t);
  }

  lemma ListedOnce(r: Records, at: i64, t: S.Table)
    requires t == TableOf(r, at, 2)
    ensures Requests(S.Deliveries(t, [r.request.id])) == [r.request]
    ensures S.Confirmed(t, [r.request.id]) == [r.confirmation]
  {
    var one := [r.request.id];
    assert one[..0] == [];
    assert S.Deliveries(t, one[..0]) == [] && S.Confirmed(t, one[..0]) == [];
    var deliveries := S.Deliveries(t, one);
    assert deliveries == [S.Delivery(r.request, 0, at)];
    assert deliveries[..0] == [] && Requests(deliveries[..0]) == [];
  }

  lemma Fetches(config: Config, r: Records, at: i64)
    requires config == D.ConfigFor(r.request) && at < r.request.expiresAt
    ensures Step(config, WorldOf(r, at, 2, Offering, Syncing, true, false), Fetch(at))
            == WorldOf(r, at, 2, Offering, Fetched([r.request], [r.confirmation]), true, false)
  {
    hide Step, S.Purged, S.InboxIds, S.Deliveries, S.Confirmed, Requests, TableOf;
    ConfirmedIsListed(r, at);
    D.FetchIs(config, WorldOf(r, at, 2, Offering, Syncing, true, false), at);
  }

  lemma Decides(config: Config, r: Records, context: Context, at: i64)
    requires Made(r, context, at) && config == D.ConfigFor(r.request)
    ensures Step(config, WorldOf(r, at, 2, Comparing, Syncing, true, false), DecideOne(R.Only(r.request.id), true, at))
            == WorldOf(r, at, 2, Comparing, Edited(true), true, false).(memory := StateOf(r, Answering))
  {
    ApprovesOne(r, context, at, StateOf(r, Comparing));
    DecideStep(config, WorldOf(r, at, 2, Comparing, Syncing, true, false), R.Only(r.request.id), true, at);
    hide Decide, Made, TableOf, Step;
  }

  lemma DecideStep(config: Config, w: World, selects: nat -> bool, approve: bool, now: i64)
    requires w.phase == Syncing && w.memory.offerOutbox == [] && w.memory.decisionOutbox == []
    requires Decide(config.publisher, w.memory, selects, approve, now).Changed?
    ensures Step(config, w, DecideOne(selects, approve, now))
            == w.(memory := Decide(config.publisher, w.memory, selects, approve, now).state, phase := Edited(true))
  {
    hide Decide;
  }

  lemma SendsDecision(config: Config, r: Records, context: Context, at: i64)
    requires Made(r, context, at)
    ensures Step(config, WorldOf(r, at, 2, Answering, Syncing, true, true), SendDecision(at, true))
            == WorldOf(r, at, 3, Answering, DecisionAcked, true, true)
  {
    CallFills(r, context, at, 2);
    TableHolds(r, at, 3);
    hide S.Apply, HeldBy, Made, TableOf;
  }

  // ---------------------------------------------------------------- the whole run

  /** The request is stored; the publisher takes it, saves, and sends its offer. */
  function Inviting(r: Records, context: Context, at: i64): seq<Action> {
    D.Arriving(r.request, at) + [Take(context)] + [Save] + [SendOffer(at, true)] + [Pop]
  }

  /** It goes away; the viewer confirms; the publisher comes back and takes the confirmation. */
  function Hearing(r: Records, context: Context, at: i64): seq<Action> {
    Inviting(r, context, at) + [Crash] + [Relay(CallFor(r, at, 1))] + [Load] + [Fetch(at)] + [Take(context)] + [Save]
  }

  /** It approves, saves, and sends the decision. */
  function Approving(r: Records, context: Context, at: i64): seq<Action> {
    Hearing(r, context, at) + [DecideOne(R.Only(r.request.id), true, at)] + [Save] + [SendDecision(at, true)] + [Pop]
  }

  lemma OfferingState(config: Config, r: Records, context: Context, at: i64)
    requires Made(r, context, at) && config == D.ConfigFor(r.request)
    ensures Run(config, Initial(at), Inviting(r, context, at)) == WorldOf(r, at, 1, Offering, Syncing, true, false)
  {
    var start, a0 := Initial(at), D.Arriving(r.request, at);
    var arrived := D.Waiting(r.request, at, Fetched([r.request], []));
    MadeIsWellMade(r, context, at);
    D.ArrivedState(config, r.request, at);
    AsksFirst(r, context, at);
    D.TakeIs(config, arrived, context);
    assert context.publisher == config.publisher;
    hide Run, Step, Refresh, Made, ValidateState;
    D.StepsOn(config, start, a0, Take(context));
    D.StepsOn(config, start, a0 + [Take(context)], Save);
    Saves(config, r, Step(config, arrived, Take(context)), Asking);
    D.StepsOn(config, start, a0 + [Take(context)] + [Save], SendOffer(at, true));
    SendsOffer(config, r, context, at);
    D.StepsOn(config, start, a0 + [Take(context)] + [Save] + [SendOffer(at, true)], Pop);
    Pops(config, r, at);
  }

  lemma HearingState(config: Config, r: Records, context: Context, at: i64)
    requires Made(r, context, at) && config == D.ConfigFor(r.request)
    ensures Run(config, Initial(at), Hearing(r, context, at)) == WorldOf(r, at, 2, Comparing, Syncing, true, false)
  {
    var start, a0 := Initial(at), Inviting(r, context, at);
    var fetched := WorldOf(r, at, 2, Offering, Fetched([r.request], [r.confirmation]), true, false);
    MadeIsWellMade(r, context, at);
    OfferingState(config, r, context, at);
    AsksAgain(r, context, at, StateOf(r, Offering));
    assert context.publisher == config.publisher;
    D.TakeIs(config, fetched, context);
    Stops(config, r, at);
    ViewerConfirms(config, r, context, at);
    Fetches(config, r, at);
    Saves(config, r, Step(config, fetched, Take(context)), Comparing);
    hide Run, Step, Refresh, Made, ValidateState, Inviting, CallFor, TableOf, StateOf;
    D.StepsOn(config, start, a0, Crash);
    D.StepsOn(config, start, a0 + [Crash], Relay(CallFor(r, at, 1)));
    var a1 := a0 + [Crash] + [Relay(CallFor(r, at, 1))];
    D.StepsOn(config, start, a1, Load);
    D.StepsOn(config, start, a1 + [Load], Fetch(at));
    D.StepsOn(config, start, a1 + [Load] + [Fetch(at)], Take(context));
    D.StepsOn(config, start, a1 + [Load] + [Fetch(at)] + [Take(context)], Save);
  }

  /** For every request a publisher can answer with an offer that lives long enough: a run from the empty start,
      with the publisher away while the viewer confirms, ends with the relay's row holding exactly the
      request, the offer, the confirmation and the approval, the viewer granted, and nothing left queued. */
  lemma PairingCompletes(config: Config, r: Records, context: Context, at: i64)
    requires Made(r, context, at) && config == D.ConfigFor(r.request)
    ensures var w := Run(config, Initial(at), Approving(r, context, at));
            && w.table == map[r.request.id := S.Row(r.request, 0, at, Some(r.offer), Some(r.confirmation),
                                                    Some(r.decision), at)]
            && w.disk == EMPTY.(approved := [GrantOf(r.request)], historyOutbox := [GrantOf(r.request)])
            && w.disk == w.memory && w.phase == Syncing && w.made == map[r.request.id := r.decision]
  {
    var start, a0 := Initial(at), Hearing(r, context, at);
    var decide := DecideOne(R.Only(r.request.id), true, at);
    MadeIsWellMade(r, context, at);
    HearingState(config, r, context, at);
    Decides(config, r, context, at);
    Saves(config, r, WorldOf(r, at, 2, Comparing, Edited(true), true, false).(memory := StateOf(r, Answering)),
          Answering);
    SendsDecision(config, r, context, at);
    Pops(config, r, at);
    hide Run, Step, Made, Hearing;
    D.StepsOn(config, start, a0, decide);
    D.StepsOn(config, start, a0 + [decide], Save);
    D.StepsOn(config, start, a0 + [decide] + [Save], SendDecision(at, true));
    D.StepsOn(config, start, a0 + [decide] + [Save] + [SendDecision(at, true)], Pop);
  }
}
