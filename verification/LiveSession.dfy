/** What ends a subscription, and that the interleaved relay's subscription is the one the loops compute. */
module LiveSession {
  import opened MachineInts
  import opened Wrappers
  import opened LiveFollow
  import opened LiveRelay

  // ---------------------------------------------------------------- endings

  predicate NoFailure(written: seq<ViewerMessage>) {
    forall m :: m in written ==> !m.Failure?
  }

  lemma {:induction false} PageHasNoFailure(start: u64, page: Page, n: nat)
    requires n <= |page.items|
    ensures NoFailure(PageTo(start, page, n).written)
  {
    if n > 0 {
      PageHasNoFailure(start, page, n - 1);
    }
  }

  lemma {:induction false} CatchUpHasNoFailure(start: u64, replies: seq<Option<Page>>, n: nat)
    requires n <= |replies|
    ensures NoFailure(CatchUpTo(start, replies, n).written)
    ensures CatchUp(start, replies).status != Open
  {
    hide PageTo;
    if n > 0 {
      CatchUpHasNoFailure(start, replies, n - 1);
      var before, reply := CatchUpTo(start, replies, n - 1), replies[n - 1];
      if reply.Some? {
        PageHasNoFailure(before.last, reply.value, |reply.value.items|);
      }
    }
  }

  /** The store's answer ends a catch-up: it is empty, or short and without a gap. */
  predicate Settles(last: u64, reply: Option<Page>) {
    && reply.Some?
    && (reply.value.items == [] || (|reply.value.items| < 1024 && WholePage(last, reply.value).contiguous))
  }

  predicate SettlesAt(start: u64, replies: seq<Option<Page>>, k: nat)
    requires k < |replies|
  {
    CatchUpTo(start, replies, k).status == Open && Settles(CatchUpTo(start, replies, k).last, replies[k])
  }

  lemma ReplySettles(before: Progress, reply: Option<Page>)
    ensures before.status == Open ==> (ReadReply(before, reply).status == Settled <==> Settles(before.last, reply))
    ensures before.status != Open ==> ReadReply(before, reply) == before
  {
    hide WholePage;
  }

  /** A catch-up settles exactly when, after full pages without a gap, the store gives such an answer; with no
      more answers it breaks like any lost connection. */
  lemma {:induction false} CatchUpSettlesExactlyWhen(start: u64, replies: seq<Option<Page>>, n: nat)
    requires n <= |replies|
    ensures CatchUpTo(start, replies, n).status == Settled <==> exists k :: 0 <= k < n && SettlesAt(start, replies, k)
    ensures CatchUp(start, replies).status == Settled <==> CatchUpTo(start, replies, |replies|).status == Settled
  {
    if n > 0 {
      CatchUpSettlesExactlyWhen(start, replies, n - 1);
      hide ReadReply, Settles;
      ReplySettles(CatchUpTo(start, replies, n - 1), replies[n - 1]);
      assert CatchUpTo(start, replies, n) == ReadReply(CatchUpTo(start, replies, n - 1), replies[n - 1]);
      hide CatchUpTo;
      assert CatchUpTo(start, replies, n - 1).status == Open ==>
          (SettlesAt(start, replies, n - 1) <==> CatchUpTo(start, replies, n).status == Settled);
    }
  }

  /** The channel lagged behind, or skipped the next object. */
  predicate GoesBack(last: u64, event: LiveEvent) {
    || event.Lagged?
    || (event.ReceivedItem? && event.item.sequence > last && event.item.sequence != SatAddU64(last, 1))
  }

  /** Back in the store there is nothing above `last`. */
  predicate NoProgress(last: u64, replies: seq<Option<Page>>) {
    CatchUp(last, replies).status == Settled && CatchUp(last, replies).last == last
  }

  /** What the viewer is told at the end, if anything. */
  predicate Closes(last: u64, event: LiveEvent, replies: seq<Option<Page>>, code: ErrorCode) {
    match code
    case CredentialExpired => event == Expiry || event == Deactivation(true)
    case Unauthorized => event == Deactivation(false)
    case HistoryUnavailable => GoesBack(last, event) && NoProgress(last, replies)
  }

  /** In every subscription, an event ends it exactly when the credential expires, the admission is withdrawn,
      the channel closes, the time runs out, or a return to the store breaks or finds nothing; and the
      viewer is told why, as the last message, exactly for expiry, withdrawal and missing history. */
  lemma EventEndsExactlyWhen(
    recipient: nat, opening: Opening, events: seq<(LiveEvent, seq<Option<Page>>)>, n: nat)
    requires 0 < n <= |events| && SessionTo(recipient, opening, events, n - 1).status == Settled
    ensures var before, after := SessionTo(recipient, opening, events, n - 1), SessionTo(recipient, opening, events, n);
            var event, replies := events[n - 1].0, events[n - 1].1;
            && before.written <= after.written
            && (after.status == Broken
                <==> || event.Expiry? || event.Deactivation? || event.Closed? || event.IdleOut?
                     || (GoesBack(before.last, event)
                         && (CatchUp(before.last, replies).status == Broken || NoProgress(before.last, replies))))
            && (forall code :: Failure(code) in after.written[|before.written|..]
                               <==> Closes(before.last, event, replies, code))
            && (forall code :: Closes(before.last, event, replies, code) ==>
                                 after.status == Broken && after.written[|after.written| - 1] == Failure(code))
  {
    hide CatchUp, CatchUpTo, OpenSession;
    var before := SessionTo(recipient, opening, events, n - 1);
    var event, replies := events[n - 1].0, events[n - 1].1;
    var step := EventStep(recipient, before.last, event, replies);
    CatchUpSays(before.last, replies);
    assert (before.written + step.written)[|before.written|..] == step.written;
  }

  lemma CatchUpSays(start: u64, replies: seq<Option<Page>>)
    ensures NoFailure(CatchUp(start, replies).written) && CatchUp(start, replies).status != Open
  {
    CatchUpHasNoFailure(start, replies, |replies|);
  }

  // ---------------------------------------------------------------- envelopes in a page

  /** An envelope stands only ahead of the first object of its group, and every such object with a stored
      envelope has it there. */
  predicate KeyPlaced(page: Page, written: seq<ViewerMessage>, i: nat)
    requires i < |written|
  {
    match written[i]
    case Key(envelope) =>
      && i + 1 < |written| && written[i + 1].Deliver?
      && (var group := written[i + 1].item.group;
          && group in page.envelopes && envelope == page.envelopes[group]
          && (i > 0 ==> written[i - 1].Deliver? && written[i - 1].item.group != group))
    case Deliver(item) =>
      || item.group !in page.envelopes
      || (i > 0 && (written[i - 1] == Key(page.envelopes[item.group])
                    || (written[i - 1].Deliver? && written[i - 1].item.group == item.group)))
    case _ => false
  }

  lemma {:induction false} KeysAtGroupStarts(start: u64, page: Page, n: nat)
    requires n <= |page.items|
    ensures var sent := PageTo(start, page, n);
            && (forall i :: 0 <= i < |sent.written| ==> KeyPlaced(page, sent.written, i))
            && sent.group == (if sent.written == [] then None
                              else if sent.written[|sent.written| - 1].Deliver? then
                                Some(sent.written[|sent.written| - 1].item.group)
                              else None)
  {
    if n > 0 {
      KeysAtGroupStarts(start, page, n - 1);
      var before, sent, item := PageTo(start, page, n - 1), PageTo(start, page, n), page.items[n - 1];
      hide PageTo;
      var earlier, more := before.written, GroupEnvelope(page, before.group, item.group);
      if sent.written != earlier {
        PlacedBehind(page, earlier, before.group, item);
      }
    }
  }

  lemma PlacedBehind(page: Page, earlier: seq<ViewerMessage>, group: Option<GroupKey>, item: Item)
    requires forall i :: 0 <= i < |earlier| ==> KeyPlaced(page, earlier, i)
    requires group == (if earlier == [] then None
                       else if earlier[|earlier| - 1].Deliver? then Some(earlier[|earlier| - 1].item.group) else None)
    ensures var written := earlier + GroupEnvelope(page, group, item.group) + [Deliver(item)];
            forall i :: 0 <= i < |written| ==> KeyPlaced(page, written, i)
  {
    var written := earlier + GroupEnvelope(page, group, item.group) + [Deliver(item)];
    forall i | 0 <= i < |written|
      ensures KeyPlaced(page, written, i)
    {
      if earlier != [] {
        assert KeyPlaced(page, earlier, |earlier| - 1);
      }
      if i < |earlier| {
        assert KeyPlaced(page, earlier, i);
      }
    }
  }

  // ---------------------------------------------------------------- other viewers' envelopes

  predicate OwnKeys(recipient: nat, written: seq<ViewerMessage>) {
    forall m :: m in written && m.Key? ==> m.envelope.recipient == recipient
  }

  /** What the store answers is looked up for this viewer. */
  predicate LookedUpFor(recipient: nat, replies: seq<Option<Page>>) {
    forall k :: 0 <= k < |replies| && replies[k].Some? ==> PageFor(recipient, replies[k].value)
  }

  predicate PageFor(recipient: nat, page: Page) {
    forall group :: group in page.envelopes ==> page.envelopes[group].recipient == recipient
  }

  lemma {:induction false} PageHasOwnKeys(recipient: nat, start: u64, page: Page, n: nat)
    requires n <= |page.items| && PageFor(recipient, page)
    ensures OwnKeys(recipient, PageTo(start, page, n).written)
  {
    if n > 0 {
      PageHasOwnKeys(recipient, start, page, n - 1);
    }
  }

  lemma {:induction false} CatchUpHasOwnKeys(recipient: nat, start: u64, replies: seq<Option<Page>>, n: nat)
    requires n <= |replies| && LookedUpFor(recipient, replies)
    ensures OwnKeys(recipient, CatchUpTo(start, replies, n).written)
  {
    hide PageTo, PageFor;
    if n > 0 {
      CatchUpHasOwnKeys(recipient, start, replies, n - 1);
      var before, reply := CatchUpTo(start, replies, n - 1), replies[n - 1];
      if reply.Some? {
        PageHasOwnKeys(recipient, before.last, reply.value, |reply.value.items|);
      }
    }
  }

  /** Whatever envelopes the channel carries, a viewer is sent none but its own. */
  lemma {:induction false} OnlyOwnKeys(
    recipient: nat, opening: Opening, events: seq<(LiveEvent, seq<Option<Page>>)>, n: nat)
    requires n <= |events| && LookedUpFor(recipient, opening.replies)
    requires opening.edgeEnvelope.Some? ==> opening.edgeEnvelope.value.recipient == recipient
    requires forall k :: 0 <= k < |events| ==> LookedUpFor(recipient, events[k].1)
    ensures OwnKeys(recipient, SessionTo(recipient, opening, events, n).written)
  {
    hide CatchUpTo, LookedUpFor;
    if n == 0 {
      CatchUpHasOwnKeys(recipient, SatSubU64(opening.anchor, 1), opening.replies, |opening.replies|);
    } else {
      OnlyOwnKeys(recipient, opening, events, n - 1);
      var before := SessionTo(recipient, opening, events, n - 1);
      CatchUpHasOwnKeys(recipient, before.last, events[n - 1].1, |events[n - 1].1|);
    }
  }

  // ---------------------------------------------------------------- one subscription of the relay

  type Events = seq<(LiveEvent, seq<Option<Page>>)>

  /** The subscription so far as the loops compute it, from its opening, the events it finished and the
      pages of the catch-up it is in. */
  predicate Follows(
    config: Config, s: Relay, o: Opening, events: Events, cause: LiveEvent, partial: seq<Option<Page>>)
  {
    match s.phase
    case Idle => s.written == []
    case Attached => s.written == []
    case AtEdge(highWater) =>
      && o.anchor > o.highWater == highWater > 0 && o.replies == [] && s.last == SatSubU64(o.anchor, 1)
      && o.descriptor == Some(o.publisher) && s.written == [Started(o.anchor, o.retained, true)]
    case Reading(before) =>
      (match before
       case None =>
         && o.descriptor == Some(o.publisher)
         && var reached := CatchUpTo(SatSubU64(o.anchor, 1), o.replies, |o.replies|);
            reached == Progress(s.last, reached.written, Open) && s.written == Greeting(o) + reached.written
       case Some(earlier) =>
         && var done := SessionTo(config.recipient, o, events, |events|);
            var reached := CatchUpTo(earlier, partial, |partial|);
            && done == Progress(earlier, done.written, Settled) && GoesBack(earlier, cause)
            && reached == Progress(s.last, reached.written, Open) && s.written == done.written + reached.written)
    case Following => SessionTo(config.recipient, o, events, |events|) == Progress(s.last, s.written, Settled)
    case Ended => s.written <= SessionTo(config.recipient, o, events, |events|).written
  }

  /** The relay ended the subscription as the loops do, having said why. */
  predicate EndsAs(config: Config, s: Relay, o: Opening, events: Events) {
    var done := SessionTo(config.recipient, o, events, |events|);
    done.status == Broken && s.written == done.written
  }

  lemma {:induction false} SessionExtends(recipient: nat, o: Opening, events: Events, more: Events, n: nat)
    requires n <= |events|
    ensures SessionTo(recipient, o, events + more, n) == SessionTo(recipient, o, events, n)
  {
    hide OpenSession, EventStep;
    if n > 0 {
      SessionExtends(recipient, o, events, more, n - 1);
    }
  }

  lemma OneMoreEvent(recipient: nat, o: Opening, events: Events, event: LiveEvent, replies: seq<Option<Page>>)
    ensures var before, more := SessionTo(recipient, o, events, |events|), events + [(event, replies)];
            before.status != Broken ==>
              var step := EventStep(recipient, before.last, event, replies);
              SessionTo(recipient, o, more, |more|) == step.(written := before.written + step.written)
  {
    hide OpenSession, EventStep;
    SessionExtends(recipient, o, events, [(event, replies)], |events|);
  }

  lemma {:induction false} CatchUpExtends(start: u64, replies: seq<Option<Page>>, more: seq<Option<Page>>, n: nat)
    requires n <= |replies|
    ensures CatchUpTo(start, replies + more, n) == CatchUpTo(start, replies, n)
  {
    hide ReadReply;
    if n > 0 {
      CatchUpExtends(start, replies, more, n - 1);
    }
  }

  lemma OneMoreReply(start: u64, replies: seq<Option<Page>>, reply: Option<Page>)
    ensures var more := replies + [reply];
            CatchUpTo(start, more, |more|) == ReadReply(CatchUpTo(start, replies, |replies|), reply)
  {
    hide ReadReply;
    CatchUpExtends(start, replies, [reply], |replies|);
  }

  /** Reading on behind earlier messages reads the same. */
  lemma ReadsBehind(last: u64, earlier: seq<ViewerMessage>, written: seq<ViewerMessage>, reply: Option<Page>)
    ensures var alone := ReadReply(Progress(last, written, Open), reply);
            ReadReply(Progress(last, earlier + written, Open), reply)
            == alone.(written := earlier + alone.written)
  {
    hide WholePage;
  }

  /** The store's next answer to this subscription. */
  function Reply(s: Relay, envelopes: map<GroupKey, KeyEnvelope>): Option<Page> {
    if s.last > I64_MAX then None else Some(StoreAnswer(s.committed, s.retained, s.last, envelopes))
  }

  /** A page read in the relay is one more answer behind what was written before. */
  lemma PageStep(
    config: Config, s: Relay, envelopes: map<GroupKey, KeyEnvelope>, earlier: seq<ViewerMessage>, alone: Progress)
    requires s.phase.Reading? && alone == Progress(s.last, alone.written, Open) && s.written == earlier + alone.written
    ensures var reached := ReadReply(alone, Reply(s, envelopes));
            Step(config, s, ReadPage(envelopes))
            == AfterPage(s, s.phase.before, reached.(written := earlier + reached.written))
  {
    hide StoreAnswer, WholePage, ReadReply;
    ReadsBehind(s.last, earlier, alone.written, Reply(s, envelopes));
    if s.last > I64_MAX {
      NoReply(s.last, s.written);
    }
  }

  lemma NoReply(last: u64, written: seq<ViewerMessage>)
    ensures ReadReply(Progress(last, written, Open), None) == Progress(last, written, Broken)
  {
  }

  /** One more page of the first catch-up. */
  lemma OpeningReads(
    config: Config, s: Relay, o: Opening, events: Events, cause: LiveEvent, partial: seq<Option<Page>>,
    envelopes: map<GroupKey, KeyEnvelope>)
    requires Follows(config, s, o, events, cause, partial) && s.phase == Reading(None)
    ensures var next, more := Step(config, s, ReadPage(envelopes)), o.(replies := o.replies + [Reply(s, envelopes)]);
            && Follows(config, next, more, [], cause, partial)
            && (next.phase.Ended? ==> EndsAs(config, next, more, []))
  {
    var base, reply := SatSubU64(o.anchor, 1), Reply(s, envelopes);
    OneMoreReply(base, o.replies, reply);
    PageStep(config, s, envelopes, Greeting(o), CatchUpTo(base, o.replies, |o.replies|));
    hide CatchUpTo, ReadReply, Step, Greeting, Reply;
    SameGreeting(o, o.replies + [reply]);
    OpeningLands(config, s, o.(replies := o.replies + [reply]), cause, partial);
  }

  /** The first catch-up, read so far, in the relay and in the loops. */
  lemma OpeningLands(config: Config, s: Relay, o: Opening, cause: LiveEvent, partial: seq<Option<Page>>)
    requires o.descriptor == Some(o.publisher)
    ensures var reached := CatchUpTo(SatSubU64(o.anchor, 1), o.replies, |o.replies|);
            var next := AfterPage(s.(phase := Reading(None)), None,
                                  reached.(written := Greeting(o) + reached.written));
            && Follows(config, next, o, [], cause, partial)
            && (next.phase.Ended? ==> EndsAs(config, next, o, []))
  {
    OpeningParts(o);
    assert SessionTo(config.recipient, o, [], 0) == OpenSession(o);
    hide CatchUpTo, Greeting, OpenSession, SessionTo;
  }

  lemma SameGreeting(o: Opening, replies: seq<Option<Page>>)
    ensures Greeting(o.(replies := replies)) == Greeting(o)
  {
  }

  /** One more page of a return to the store. */
  lemma ReturnReads(
    config: Config, s: Relay, o: Opening, events: Events, cause: LiveEvent, partial: seq<Option<Page>>,
    envelopes: map<GroupKey, KeyEnvelope>)
    requires Follows(config, s, o, events, cause, partial) && s.phase.Reading? && s.phase.before.Some?
    ensures var next, more := Step(config, s, ReadPage(envelopes)), partial + [Reply(s, envelopes)];
            && Follows(config, next, o, if next.phase.Reading? then events else events + [(cause, more)], cause, more)
            && (next.phase.Ended? ==> EndsAs(config, next, o, events + [(cause, more)]))
  {
    var earlier, reply := s.phase.before.value, Reply(s, envelopes);
    var done := SessionTo(config.recipient, o, events, |events|);
    OneMoreReply(earlier, partial, reply);
    PageStep(config, s, envelopes, done.written, CatchUpTo(earlier, partial, |partial|));
    hide CatchUpTo, ReadReply, Step, SessionTo, Reply;
    ReturnLands(config, s, o, events, cause, partial + [reply], done);
  }

  /** A return to the store, read so far, in the relay and in the loops. */
  lemma ReturnLands(
    config: Config, s: Relay, o: Opening, events: Events, cause: LiveEvent, more: seq<Option<Page>>, done: Progress)
    requires done == SessionTo(config.recipient, o, events, |events|) && done.status == Settled
    requires GoesBack(done.last, cause)
    ensures var reached := CatchUpTo(done.last, more, |more|);
            var next := AfterPage(s.(phase := Reading(Some(done.last))), Some(done.last),
                                  reached.(written := done.written + reached.written));
            && Follows(config, next, o, if next.phase.Reading? then events else events + [(cause, more)], cause, more)
            && (next.phase.Ended? ==> EndsAs(config, next, o, events + [(cause, more)]))
  {
    hide CatchUpTo, SessionTo, EventStep, Reanchored, Follows;
    var reached := CatchUpTo(done.last, more, |more|);
    var next := AfterPage(s.(phase := Reading(Some(done.last))), Some(done.last),
                          reached.(written := done.written + reached.written));
    if reached.status == Open {
      StillReturning(config, next, o, events, cause, more);
    } else {
      OneMoreEvent(config.recipient, o, events, cause, more);
      Returns(config.recipient, done.last, cause, more);
      ReturnEnds(done.last, more);
      var told := [Failure(HistoryUnavailable)];
      assert done.written + (reached.written + told) == done.written + reached.written + told;
      Finished(config, next, o, events + [(cause, more)], cause, more);
    }
  }

  lemma StillReturning(
    config: Config, s: Relay, o: Opening, events: Events, cause: LiveEvent, partial: seq<Option<Page>>)
    requires var done := SessionTo(config.recipient, o, events, |events|);
             && done.status == Settled && GoesBack(done.last, cause) && s.phase == Reading(Some(done.last))
             && var reached := CatchUpTo(done.last, partial, |partial|);
                reached.status == Open && s.last == reached.last && s.written == done.written + reached.written
    ensures Follows(config, s, o, events, cause, partial)
  {
    hide SessionTo, CatchUpTo;
  }

  lemma Finished(
    config: Config, s: Relay, o: Opening, events: Events, cause: LiveEvent, partial: seq<Option<Page>>)
    requires var done := SessionTo(config.recipient, o, events, |events|);
             && done.written == s.written
             && (if s.phase == Following then done.status == Settled && done.last == s.last
                 else s.phase == Ended && done.status == Broken)
    ensures Follows(config, s, o, events, cause, partial) && (s.phase.Ended? ==> EndsAs(config, s, o, events))
  {
    hide SessionTo, CatchUpTo;
  }

  lemma ReturnEnds(last: u64, more: seq<Option<Page>>)
    ensures var reached := CatchUpTo(last, more, |more|);
            match reached.status
            case Open => true
            case Broken => Reanchored(last, more) == reached
            case Settled =>
              if reached.last != last then Reanchored(last, more) == reached
              else Reanchored(last, more) == Progress(last, reached.written + [Failure(HistoryUnavailable)], Broken)
  {
    hide CatchUpTo;
  }

  /** One item of the channel. */
  lemma ReceiveFollows(config: Config, s: Relay, o: Opening, events: Events)
    returns (more: Events, cause: LiveEvent)
    requires SessionTo(config.recipient, o, events, |events|) == Progress(s.last, s.written, Settled)
    requires s.phase == Following && s.position < |s.channel|
    ensures var next := AfterReceive(config, s);
            && Follows(config, next, o, more, cause, [])
            && (next.phase.Ended? ==> EndsAs(config, next, o, more))
  {
    hide OpenSession;
    var event := s.channel[s.position];
    more, cause := events, if |s.channel| - s.position > config.capacity then Lagged else event;
    OneMoreEvent(config.recipient, o, events, event, []);
    hide SessionTo;
    if !AfterReceive(config, s).phase.Reading? {
      more := events + [(event, [])];
    }
  }

  /** A connection lost at any point leaves a beginning of what the loops would have written. */
  lemma CutOff(config: Config, s: Relay, o: Opening, events: Events, cause: LiveEvent, partial: seq<Option<Page>>)
    returns (more: Events)
    requires Follows(config, s, o, events, cause, partial)
    ensures Follows(config, s.(phase := Ended), o, more, cause, partial)
  {
    hide EventStep, CatchUpTo;
    more := events;
    if s.phase.AtEdge? || s.phase == Reading(None) {
      more := [];
    } else if s.phase.Reading? {
      more := events + [(cause, partial)];
      OneMoreEvent(config.recipient, o, events, cause, partial);
      Returns(config.recipient, s.phase.before.value, cause, partial);
    }
  }

  lemma Returns(recipient: nat, last: u64, cause: LiveEvent, partial: seq<Option<Page>>)
    requires GoesBack(last, cause)
    ensures EventStep(recipient, last, cause, partial) == Reanchored(last, partial)
    ensures CatchUpTo(last, partial, |partial|).written <= Reanchored(last, partial).written
  {
    hide CatchUpTo;
  }

  /** The opening messages. */
  lemma JoinFollows(config: Config, s: Relay, o: Opening, action: Action, events: Events, cause: LiveEvent)
    returns (more: Opening)
    requires Invariant(s) && (action.ReadAnchor? || action.ReadEdge?)
    requires Follows(config, s, o, events, cause, []) && (s.phase.Attached? || s.phase.AtEdge?)
    ensures Follows(config, Step(config, s, action), more, events, cause, [])
    ensures !Step(config, s, action).phase.Ended?
  {
    hide Delivered, EdgeKey, SliceOf, SessionTo;
    more := o;
    if action.ReadAnchor? && s.phase.Attached? {
      more := Opening(0, Some(0), action.anchor, action.retained, |s.committed|, None, []);
      assert [Started(more.anchor, more.retained, more.anchor > more.highWater)] + []
          == [Started(more.anchor, more.retained, more.anchor > more.highWater)];
    } else if action.ReadEdge? && s.phase.AtEdge? {
      var keys := EdgeKey(s, s.phase.highWater, action.envelopes);
      assert keys != [] ==> keys[0] in keys && keys == [keys[0]];
      more := o.(edgeEnvelope := if keys == [] then None else Some(keys[0].envelope));
    }
  }

  /** Every step of the relay keeps the subscription where the loops have it; the relay ends it only as the
      loops do. */
  lemma StepFollows(
    config: Config, s: Relay, action: Action, o: Opening, events: Events, cause: LiveEvent, partial: seq<Option<Page>>)
    returns (o2: Opening, events2: Events, cause2: LiveEvent, partial2: seq<Option<Page>>)
    requires Invariant(s) && Follows(config, s, o, events, cause, partial)
    ensures var next := Step(config, s, action);
            && Follows(config, next, o2, events2, cause2, partial2)
            && (next.phase.Ended? && !s.phase.Ended? && !action.Disconnect? ==> EndsAs(config, next, o2, events2))
  {
    hide Invariant, SessionTo, CatchUpTo, Greeting, EndsAs, AfterReceive, AfterPage, ReadReply, StoreAnswer, EdgeKey;
    o2, events2, cause2, partial2 := o, events, cause, partial;
    if (action.ReadAnchor? && s.phase.Attached?) || (action.ReadEdge? && s.phase.AtEdge?) {
      partial2 := [];
      o2 := JoinFollows(config, s, o, action, events, cause);
    } else if action.ReadPage? && s.phase == Reading(None) {
      OpeningReads(config, s, o, events, cause, partial, action.envelopes);
      o2, events2 := o.(replies := o.replies + [Reply(s, action.envelopes)]), [];
    } else if action.ReadPage? && s.phase.Reading? {
      ReturnReads(config, s, o, events, cause, partial, action.envelopes);
      partial2 := partial + [Reply(s, action.envelopes)];
      events2 := if Step(config, s, action).phase.Reading? then events else events + [(cause, partial2)];
    } else if action.Receive? && s.phase == Following && s.position < |s.channel| {
      partial2 := [];
      events2, cause2 := ReceiveFollows(config, s, o, events);
    } else if action.Disconnect? {
      events2 := CutOff(config, s, o, events, cause, partial);
    }
  }

  /** Some subscription the loops compute. */
  ghost predicate IsASession(config: Config, s: Relay) {
    exists o: Opening, events: Events, cause: LiveEvent, partial: seq<Option<Page>> ::
      Follows(config, s, o, events, cause, partial)
  }

  /** In every interleaving the relay's subscription is one that `Begin`, `HandleEvent` and the catch-up loop
      compute from some answers of the store and the channel: what it has written so far is what they
      have written so far. */
  lemma {:induction false} RelayRunsASession(config: Config, actions: seq<Action>)
    ensures IsASession(config, Run(config, actions))
  {
    hide Step, Follows, Invariant;
    if actions == [] {
      NothingFollows(config);
    } else {
      var most, action := actions[..|actions| - 1], actions[|actions| - 1];
      RelayRunsASession(config, most);
      RunKeepsInvariant(config, most);
      var o: Opening, events: Events, cause: LiveEvent, partial: seq<Option<Page>> :|
        Follows(config, Run(config, most), o, events, cause, partial);
      var o2, events2, cause2, partial2 := StepFollows(config, Run(config, most), action, o, events, cause, partial);
    }
  }

  lemma NothingFollows(config: Config)
    ensures IsASession(config, Initial())
  {
    var o := Opening(0, None, 0, None, 0, None, []);
    assert Follows(config, Initial(), o, [], Quiet, []);
  }

  /** When the relay ends a subscription, other than by losing the connection, it has written exactly what the
      loops write up to their end, the reason included. */
  lemma RelayEndsAsTheLoops(config: Config, actions: seq<Action>, action: Action)
    requires !action.Disconnect? && !Run(config, actions).phase.Ended?
    requires Run(config, actions + [action]).phase.Ended?
    ensures exists o: Opening, events: Events :: EndsAs(config, Run(config, actions + [action]), o, events)
  {
    RunsOn(config, actions, action);
    hide Run, Step, Follows, Invariant, EndsAs;
    RelayRunsASession(config, actions);
    RunKeepsInvariant(config, actions);
    var o: Opening, events: Events, cause: LiveEvent, partial: seq<Option<Page>> :|
      Follows(config, Run(config, actions), o, events, cause, partial);
    var o2, events2, cause2, partial2 := StepFollows(config, Run(config, actions), action, o, events, cause, partial);
  }
}
