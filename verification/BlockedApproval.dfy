/** A run of publisher commands after which approving everything fails. */
module BlockedApproval {
  import opened MachineInts
  import opened Wrappers
  import opened PairingRecords
  import opened Ordering
  import opened PublisherState
  import opened PublisherRuns

  /** A succeeding command whose lists stay within their bounds is saved. */
  lemma PerformSucceeds(publisher: Identity, s: State, command: Command, next: State)
    requires Valid(publisher, s) && Attempt(publisher, s, command) == Changed(next) && WithinBounds(next)
    ensures Perform(publisher, s, command) == next && Valid(publisher, next)
  {
    hide Attempt, Valid, ValidateState, WithinBounds;
    AttemptKeepsValid(publisher, s, command);
    SavingRefusesOnlyForSize(publisher, next);
  }

  lemma RunsOn(publisher: Identity, start: State, commands: seq<Command>, command: Command)
    ensures Run(publisher, start, commands + [command]) == Perform(publisher, Run(publisher, start, commands), command)
  {
    assert (commands + [command])[..|commands|] == commands;
  }

  // ---------------------------------------------------------------- two requests of one viewer

  /** The request is new and its offer can be made. */
  predicate Offered(context: Context, q: PairRequest, o: PairOffer) {
    && VerifyRequest(q, context.checkedAt(q), PAIR_LIFETIME_MS) == Passed
    && NewOffer(context.publisher, q, context.relayContext, context.nonces(q), context.answeredAt(q), q.expiresAt,
                PAIR_LIFETIME_MS) == Ok(o)
  }

  /** Two requests of one viewer for one stream, with the offers made and the viewer's confirmations. */
  datatype Pair = Pair(
    first: PairRequest, firstOffer: PairOffer, firstConfirmation: Confirmation,
    second: PairRequest, secondOffer: PairOffer, secondConfirmation: Confirmation)

  predicate Suits(context: Context, pair: Pair) {
    && context.policy.Required?
    && pair.first.id < pair.second.id && GrantOf(pair.first) == GrantOf(pair.second)
    && Offered(context, pair.first, pair.firstOffer) && Offered(context, pair.second, pair.secondOffer)
    && VerifyConfirmation(pair.firstConfirmation, pair.first, pair.firstOffer) == Passed
    && VerifyConfirmation(pair.secondConfirmation, pair.second, pair.secondOffer) == Passed
  }

  function First(context: Context, pair: Pair, confirmed: bool): Pending {
    Pending(pair.first, pair.firstOffer, if confirmed then Some(pair.firstConfirmation) else None,
            context.sources(pair.first))
  }

  function Second(context: Context, pair: Pair, confirmed: bool): Pending {
    Pending(pair.second, pair.secondOffer, if confirmed then Some(pair.secondConfirmation) else None,
            context.sources(pair.second))
  }

  function Both(context: Context, pair: Pair, confirmed: bool): seq<Pending> {
    [First(context, pair, confirmed), Second(context, pair, confirmed)]
  }

  lemma SortOne<T>(x: T, rank: T -> Rank, none: seq<T>)
    requires none == []
    ensures SortBy(none + [x], rank) == [x]
  {
    assert (none + [x])[..0] == [];
  }

  lemma SortTwo<T>(x: T, y: T, rank: T -> Rank)
    requires Below(rank(x), rank(y))
    ensures SortBy([x] + [y], rank) == [x, y]
  {
    SortOne(x, rank, []);
    assert [] + [x] == [x];
    assert ([x] + [y])[..1] == [x];
    assert Insert([x], y, rank) == [x] + [y];
  }

  /** A refresh makes both pending and queues their offers. */
  lemma BothAreTaken(context: Context, pair: Pair, s: State)
    requires s == EMPTY && Suits(context, pair)
    ensures Refresh(context, s, [pair.first, pair.second], [])
            == Changed(s.(pending := Both(context, pair, false), offerOutbox := [pair.first.id, pair.second.id]))
  {
    hide VerifyRequest, NewOffer, VerifyConfirmation, SortBy;
    var q1, q2 := pair.first, pair.second;
    var p1, p2 := First(context, pair, false), Second(context, pair, false);
    var two := [q1, q2];
    assert two[..1] == [q1] && two[..1][..0] == [];
    SortOne<nat>(q1.id, IdRank, s.offerOutbox);
    SortTwo<nat>(q1.id, q2.id, IdRank);
    SortTwo(p1, p2, PendingRank);
    var one := s.(pending := [p1], offerOutbox := [q1.id]);
    assert s.pending + [p1] == [p1] && [p1] + [p2] == [p1, p2];
    assert TakeRequests(context, s, two[..1][..0]) == Changed(s);
    assert TakeRequest(context, s, q1) == Changed(one);
    assert TakeRequests(context, s, two[..1]) == Changed(one);
    NotYetPending(p1, q2.id);
    assert TakeRequest(context, one, q2) == Changed(s.(pending := [p1, p2], offerOutbox := [q1.id, q2.id]));
  }

  lemma NotYetPending(p: Pending, id: nat)
    requires p.request.id != id
    ensures FindPending([p], id).None?
  {
    assert forall i :: 0 <= i < |[p]| ==> [p][i].request.id != id;
  }

  /** Another refresh brings both confirmations. */
  lemma BothAreConfirmed(context: Context, pair: Pair, s: State)
    requires Suits(context, pair) && s.pending == Both(context, pair, false)
    ensures Refresh(context, s, [], [pair.firstConfirmation, pair.secondConfirmation])
            == Changed(s.(pending := Both(context, pair, true)))
  {
    hide VerifyRequest, NewOffer, SortBy;
    var c1, c2 := pair.firstConfirmation, pair.secondConfirmation;
    var two := [c1, c2];
    assert two[..1] == [c1] && two[..1][..0] == [];
    assert c1.requestId == pair.first.id && c2.requestId == pair.second.id;
    hide VerifyConfirmation;
    var half := s.(pending := [First(context, pair, true), Second(context, pair, false)]);
    FindsOf(s.pending);
    FindsOf(half.pending);
    assert s.pending[0 := First(context, pair, true)] == half.pending;
    assert half.pending[1 := Second(context, pair, true)] == Both(context, pair, true);
    assert TakeConfirmations(s, two[..1][..0]) == Changed(s);
    assert TakeConfirmation(s, c1) == Changed(half);
    assert TakeConfirmations(s, two[..1]) == Changed(half);
    assert TakeConfirmation(half, c2) == Changed(s.(pending := Both(context, pair, true)));
    SortTwo(First(context, pair, true), Second(context, pair, true), PendingRank);
    assert [First(context, pair, true)] + [Second(context, pair, true)] == Both(context, pair, true);
  }

  lemma FindsOf(pending: seq<Pending>)
    requires |pending| == 2 && pending[0].request.id != pending[1].request.id
    ensures FindPending(pending, pending[0].request.id) == Some(0)
    ensures FindPending(pending, pending[1].request.id) == Some(1)
  {
    var id0, id1 := pending[0].request.id, pending[1].request.id;
    assert FindPending(pending, id0).Some? && FindPending(pending, id1).Some?;
  }

  /** Approving the first leaves the second pending and grants the stream. */
  lemma FirstIsApproved(context: Context, pair: Pair, s: State, now: i64)
    requires Suits(context, pair) && Valid(context.publisher, s)
    requires s == EMPTY.(pending := Both(context, pair, true))
    ensures var change := Decide(context.publisher, s, Only(pair.first.id), true, now);
            && change.Changed? && |change.state.decisionOutbox| == 1
            && change.state == s.(pending := [Second(context, pair, true)], approved := [GrantOf(pair.first)],
                                  historyOutbox := [GrantOf(pair.first)], decisionOutbox := change.state.decisionOutbox)
  {
    hide Valid, VerifyRequest, NewOffer, VerifyConfirmation, ApproveManual;
    OnlyDistinct(context.publisher, s);
    DecideById(context.publisher, s, 0, true, now);
    DecideSucceedsExactlyWhen(context.publisher, s, 0, true, now);
    var made := ApproveManual(context.publisher, pair.first, pair.firstOffer, pair.firstConfirmation, now);
    SortOne(GrantOf(pair.first), GrantRank, s.approved);
    hide SearchFinds, Retain, SortBy;
    assert RemoveAt(s.pending, 0) == [Second(context, pair, true)];
    if made.Ok? {
      QueuesAlone(s.(approved := [GrantOf(pair.first)], historyOutbox := [GrantOf(pair.first)]), made.value);
    }
    RetainsNothing(s.offerOutbox, id => id != pair.first.id);
  }

  lemma QueuesAlone(s: State, d: Decision)
    requires s.decisionOutbox == []
    ensures QueueDecision(s, d) == Changed(s.(decisionOutbox := [d]))
  {
    SortOne(d, DecisionRank, s.decisionOutbox);
  }

  lemma RetainsNothing<T>(s: seq<T>, keep: T -> bool)
    requires s == []
    ensures Retain(s, keep) == []
  {
  }

  /** Revoking it afterwards leaves the second request pending, confirmed and revoked. */
  lemma GrantIsRevoked(s: State, g: Grant, selects: Identity -> bool)
    requires s.approved == [g] && s.revoked == [] && s.historyOutbox == [g] && selects(g.viewer)
    ensures Revoke(s, g.stream, selects) == Changed(s.(approved := [], revoked := [g], historyOutbox := []))
  {
    var select := (h: Grant) => h.stream == g.stream && selects(h.viewer);
    SelectsTheOnly(s.approved, select);
    SortOne(g, GrantRank, s.revoked);
    assert s.historyOutbox[..0] == [] && RemoveAt(s.approved, 0) == [];
    assert Retain(s.historyOutbox, (h: Grant) => h != g) == [];
  }

  lemma SelectsTheOnly<T>(items: seq<T>, selects: T -> bool)
    requires |items| == 1 && selects(items[0])
    ensures UniqueIndex(items, selects) == Some(0)
  {
    assert items[..0] == [];
    assert Matches(items, selects) == Matches(items[..0], selects) + [0];
  }

  // ---------------------------------------------------------------- the run

  function AskedTwice(context: Context, pair: Pair): seq<Command> {
    [] + [RefreshCommand(context, [pair.first, pair.second], [])] + [OfferSent] + [OfferSent]
    + [RefreshCommand(context, [], [pair.firstConfirmation, pair.secondConfirmation])]
  }

  /** One viewer asks twice and confirms both; one request is approved, then the viewer is revoked. */
  function ApprovedThenRevoked(context: Context, pair: Pair, now: i64): seq<Command> {
    AskedTwice(context, pair) + [DecideCommand(Only(pair.first.id), true, now)] + [DecisionSent]
    + [RevokeCommand(pair.first.streamId, Only(pair.first.viewer))]
  }

  /** The state with both requests pending and some of their offers still queued. */
  function AskedState(context: Context, pair: Pair, queued: seq<nat>, confirmed: bool): State {
    EMPTY.(pending := Both(context, pair, confirmed), offerOutbox := queued)
  }

  lemma AskIsPerformed(context: Context, pair: Pair)
    requires Suits(context, pair)
    ensures var asked := AskedState(context, pair, [pair.first.id, pair.second.id], false);
            && Perform(context.publisher, EMPTY, RefreshCommand(context, [pair.first, pair.second], [])) == asked
            && Valid(context.publisher, asked)
  {
    StartsValid(context.publisher, [], [], []);
    hide Perform, Valid, Refresh, Suits;
    BothAreTaken(context, pair, EMPTY);
    PerformSucceeds(context.publisher, EMPTY, RefreshCommand(context, [pair.first, pair.second], []),
                    AskedState(context, pair, [pair.first.id, pair.second.id], false));
  }

  lemma PopIsPerformed(publisher: Identity, s: State)
    requires Valid(publisher, s) && WithinBounds(s) && s.offerOutbox != []
    ensures var next := s.(offerOutbox := s.offerOutbox[1..]);
            Perform(publisher, s, OfferSent) == next && Valid(publisher, next)
  {
    hide Perform, Valid;
    PerformSucceeds(publisher, s, OfferSent, s.(offerOutbox := s.offerOutbox[1..]));
  }

  lemma BothLeave(context: Context, pair: Pair)
    requires Valid(context.publisher, AskedState(context, pair, [pair.first.id, pair.second.id], false))
    ensures var s1 := AskedState(context, pair, [pair.first.id, pair.second.id], false);
            var s2 := AskedState(context, pair, [pair.second.id], false);
            var s3 := AskedState(context, pair, [], false);
            && Perform(context.publisher, s1, OfferSent) == s2 && Perform(context.publisher, s2, OfferSent) == s3
            && Valid(context.publisher, s3)
  {
    hide Perform, Valid, Both;
    BothHas(context, pair, false);
    var s1 := AskedState(context, pair, [pair.first.id, pair.second.id], false);
    assert s1.offerOutbox[1..] == [pair.second.id] && [pair.second.id][1..] == [];
    PopIsPerformed(context.publisher, s1);
    PopIsPerformed(context.publisher, AskedState(context, pair, [pair.second.id], false));
  }

  lemma BothHas(context: Context, pair: Pair, confirmed: bool)
    ensures |Both(context, pair, confirmed)| == 2
  {
  }

  lemma ConfirmIsPerformed(context: Context, pair: Pair)
    requires Suits(context, pair) && Valid(context.publisher, AskedState(context, pair, [], false))
    ensures var s := AskedState(context, pair, [], false);
            var confirm := RefreshCommand(context, [], [pair.firstConfirmation, pair.secondConfirmation]);
            && Perform(context.publisher, s, confirm) == AskedState(context, pair, [], true)
            && Valid(context.publisher, AskedState(context, pair, [], true))
  {
    hide Perform, Valid, Refresh, Suits;
    BothAreConfirmed(context, pair, AskedState(context, pair, [], false));
    PerformSucceeds(context.publisher, AskedState(context, pair, [], false),
                    RefreshCommand(context, [], [pair.firstConfirmation, pair.secondConfirmation]),
                    AskedState(context, pair, [], true));
  }

  lemma AskedTwiceState(context: Context, pair: Pair)
    requires Suits(context, pair)
    ensures var s := AskedState(context, pair, [], true);
            Run(context.publisher, EMPTY, AskedTwice(context, pair)) == s && Valid(context.publisher, s)
  {
    var publisher := context.publisher;
    var ask := RefreshCommand(context, [pair.first, pair.second], []);
    var c1 := [] + [ask];
    NothingRun(publisher, EMPTY);
    hide Run, Perform, Valid, Suits, AskedState;
    RunsOn(publisher, EMPTY, [], ask);
    RunsOn(publisher, EMPTY, c1, OfferSent);
    RunsOn(publisher, EMPTY, c1 + [OfferSent], OfferSent);
    RunsOn(publisher, EMPTY, c1 + [OfferSent] + [OfferSent],
           RefreshCommand(context, [], [pair.firstConfirmation, pair.secondConfirmation]));
    AskIsPerformed(context, pair);
    BothLeave(context, pair);
    ConfirmIsPerformed(context, pair);
  }

  lemma NothingRun(publisher: Identity, s: State)
    ensures Run(publisher, s, []) == s
  {
  }

  /** After the approval its decision is sent and the grant revoked. */
  lemma RevokedState(context: Context, pair: Pair, s: State, now: i64)
    requires Suits(context, pair) && Valid(context.publisher, s) && s == AskedState(context, pair, [], true)
    ensures var decided := Perform(context.publisher, s, DecideCommand(Only(pair.first.id), true, now));
            var sent := Perform(context.publisher, decided, DecisionSent);
            && sent == s.(pending := [Second(context, pair, true)], approved := [GrantOf(pair.first)],
                          historyOutbox := [GrantOf(pair.first)])
            && Valid(context.publisher, sent)
  {
    hide Perform, Valid, Decide, Suits;
    FirstIsApproved(context, pair, s, now);
    var decided := Decide(context.publisher, s, Only(pair.first.id), true, now).state;
    PerformSucceeds(context.publisher, s, DecideCommand(Only(pair.first.id), true, now), decided);
    assert decided.decisionOutbox[1..] == [];
    PerformSucceeds(context.publisher, decided, DecisionSent, decided.(decisionOutbox := []));
  }

  lemma RevokeIsPerformed(publisher: Identity, s: State, g: Grant)
    requires Valid(publisher, s) && WithinBounds(s)
    requires s.approved == [g] && s.revoked == [] && s.historyOutbox == [g]
    ensures var next := s.(approved := [], revoked := [g], historyOutbox := []);
            Perform(publisher, s, RevokeCommand(g.stream, Only(g.viewer))) == next && Valid(publisher, next)
  {
    hide Perform, Valid, Revoke;
    GrantIsRevoked(s, g, Only(g.viewer));
    PerformSucceeds(publisher, s, RevokeCommand(g.stream, Only(g.viewer)),
                    s.(approved := [], revoked := [g], historyOutbox := []));
  }

  /** A run from the empty state after which approving everything fails at every time: the confirmed
      request of the revoked viewer stays and blocks every other one that is confirmed. */
  lemma ApproveAllIsBlocked(context: Context, pair: Pair, now: i64, later: i64)
    requires Suits(context, pair)
    ensures var s := Run(context.publisher, EMPTY, ApprovedThenRevoked(context, pair, now));
            && s.pending == [Second(context, pair, true)] && s.revoked == [GrantOf(pair.second)]
            && ApproveAll(context.publisher, s, later).Aborted?
  {
    var publisher, g := context.publisher, GrantOf(pair.first);
    var twice, decide := AskedTwice(context, pair), DecideCommand(Only(pair.first.id), true, now);
    SameGrant(context, pair);
    hide Run, Perform, Valid, AskedTwice, ApproveAll, Suits;
    AskedTwiceState(context, pair);
    RunsOn(publisher, EMPTY, twice, decide);
    RunsOn(publisher, EMPTY, twice + [decide], DecisionSent);
    RunsOn(publisher, EMPTY, twice + [decide] + [DecisionSent], RevokeCommand(g.stream, Only(g.viewer)));
    RevokedState(context, pair, AskedState(context, pair, [], true), now);
    var sent := Run(publisher, EMPTY, twice + [decide] + [DecisionSent]);
    RevokeIsPerformed(publisher, sent, g);
    var s := sent.(approved := [], revoked := [g], historyOutbox := []);
    ApproveAllSucceedsExactlyWhen(publisher, s, later);
    assert s.pending[0] in s.pending && GrantOf(pair.second) in s.revoked;
  }

  lemma SameGrant(context: Context, pair: Pair)
    requires Suits(context, pair)
    ensures GrantOf(pair.first) == GrantOf(pair.second)
  {
  }

  /** The smallest failing state, for every confirmed request. */
  lemma OneRevokedBlocks(publisher: Identity, p: Pending, now: i64)
    requires PendingFits(publisher, p) && p.confirmation.Some?
    ensures var s := EMPTY.(pending := [p], revoked := [GrantOf(p.request)]);
            Valid(publisher, s) && ApproveAll(publisher, s, now).Aborted?
  {
    hide PendingFits, ApproveAll;
    var s := EMPTY.(pending := [p], revoked := [GrantOf(p.request)]);
    assert Valid(publisher, s);
    hide Valid;
    ApproveAllSucceedsExactlyWhen(publisher, s, now);
    assert s.pending[0] in s.pending;
  }
}
