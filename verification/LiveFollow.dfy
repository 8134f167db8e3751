/** A viewer's subscription: catching up from the store in pages, then following the live channel.

    The store's and the channel's answers are inputs, so what is proved about one subscription
    holds whatever they return. Socket writes may fail, which ends the subscription.
  */
module LiveFollow {
  import opened MachineInts
  import opened Wrappers
  import opened Writes

  const SUBSCRIPTION_PAGE := 1024

  datatype GroupKey = GroupKey(epoch: nat, keyGroup: u64)

  datatype Item = Item(sequence: u64, group: GroupKey, content: nat)

  datatype KeyEnvelope = KeyEnvelope(recipient: nat, group: GroupKey, content: nat)

  /** The retained range of a stream. */
  datatype Bounds = Bounds(first: u64, last: u64)

  datatype ErrorCode = HistoryUnavailable | CredentialExpired | Unauthorized

  datatype ViewerMessage = Started(first: u64, retained: Option<Bounds>, live: bool)
                         | Key(envelope: KeyEnvelope)
                         | Deliver(item: Item)
                         | Live(through: u64)
                         | Failure(code: ErrorCode)

  /** One answer of `list_objects`, with the viewer's envelopes the store holds while the page is sent. */
  datatype Page = Page(items: seq<Item>, envelopes: map<GroupKey, KeyEnvelope>)

  /** What one pass of the live loop meets: something on the channel, nothing for a policy tick, or
      the end of the credential, of the admission or of the idle time. A deactivated admission is
      reported as expired if its credential has expired by then. */
  datatype LiveEvent = ReceivedItem(item: Item) | ReceivedKey(envelope: KeyEnvelope) | Lagged | Closed
                     | Quiet | Expiry | Deactivation(expired: bool) | IdleOut

  // ---------------------------------------------------------------- specification

  datatype PageState = PageState(last: u64, group: Option<GroupKey>, written: seq<ViewerMessage>, contiguous: bool)

  /** The envelope sent ahead of the first object of each group in a page. */
  function GroupEnvelope(page: Page, sentFor: Option<GroupKey>, group: GroupKey): seq<ViewerMessage> {
    if sentFor != Some(group) && group in page.envelopes then [Key(page.envelopes[group])] else []
  }

  /** The first `n` objects of a page, sent until one does not continue the sequence. */
  function PageTo(start: u64, page: Page, n: nat): PageState
    requires n <= |page.items|
  {
    if n == 0 then PageState(start, None, [], true)
    else
      var before, item := PageTo(start, page, n - 1), page.items[n - 1];
      if !before.contiguous || item.sequence != SatAddU64(before.last, 1) then before.(contiguous := false)
      else
        PageState(item.sequence, Some(item.group),
                  before.written + GroupEnvelope(page, before.group, item.group) + [Deliver(item)], true)
  }

  function WholePage(start: u64, page: Page): PageState {
    PageTo(start, page, |page.items|)
  }

  datatype Status = Open | Settled | Broken

  /** Progress of a subscription: the last sequence, everything written, and whether it goes on. */
  datatype Progress = Progress(last: u64, written: seq<ViewerMessage>, status: Status)

  /** Read one more page: an empty or short one settles the catch-up. */
  function ReadReply(before: Progress, reply: Option<Page>): Progress {
    if before.status != Open then before
    else
      match reply
      case None => before.(status := Broken)
      case Some(page) =>
        if page.items == [] then before.(status := Settled)
        else
          var sent := WholePage(before.last, page);
          Progress(sent.last, before.written + sent.written,
                   if !sent.contiguous then Broken else if |page.items| < SUBSCRIPTION_PAGE then Settled else Open)
  }

  /** The catch-up loop over the first `n` answers of the store. */
  function CatchUpTo(start: u64, replies: seq<Option<Page>>, n: nat): Progress
    requires n <= |replies|
  {
    if n == 0 then Progress(start, [], Open) else ReadReply(CatchUpTo(start, replies, n - 1), replies[n - 1])
  }

  /** A whole catch-up; running out of answers is a lost connection. */
  function CatchUp(start: u64, replies: seq<Option<Page>>): Progress {
    var reached := CatchUpTo(start, replies, |replies|);
    if reached.status == Open then reached.(status := Broken) else reached
  }

  /** Going back to the store on a lag or a gap, which must move the subscription forward. */
  function Reanchored(last: u64, replies: seq<Option<Page>>): Progress {
    var reached := CatchUp(last, replies);
    if reached.status == Settled && reached.last == last then
      Progress(last, reached.written + [Failure(HistoryUnavailable)], Broken)
    else reached
  }

  /** `active_credential_error_code`. */
  function DeactivationCode(expired: bool): ErrorCode {
    if expired then CredentialExpired else Unauthorized
  }

  /** One live event after `last`. */
  function EventStep(recipient: nat, last: u64, event: LiveEvent, replies: seq<Option<Page>>): Progress {
    match event
    case ReceivedKey(envelope) =>
      Progress(last, if envelope.recipient == recipient then [Key(envelope)] else [], Settled)
    case ReceivedItem(item) =>
      if item.sequence <= last then Progress(last, [], Settled)
      else if item.sequence == SatAddU64(last, 1) then Progress(item.sequence, [Deliver(item)], Settled)
      else Reanchored(last, replies)
    case Lagged => Reanchored(last, replies)
    case Closed => Progress(last, [], Broken)
    case Quiet => Progress(last, [], Settled)
    case Expiry => Progress(last, [Failure(CredentialExpired)], Broken)
    case Deactivation(expired) => Progress(last, [Failure(DeactivationCode(expired))], Broken)
    case IdleOut => Progress(last, [], Broken)
  }

  /** What was asked for and what the store says when a subscription opens. */
  datatype Opening = Opening(
    publisher: nat, descriptor: Option<nat>, anchor: u64, retained: Option<Bounds>, highWater: u64,
    edgeEnvelope: Option<KeyEnvelope>, replies: seq<Option<Page>>)

  function Greeting(opening: Opening): seq<ViewerMessage> {
    [Started(opening.anchor, opening.retained, opening.anchor > opening.highWater)]
    + (if opening.anchor > opening.highWater > 0 && opening.edgeEnvelope.Some? then [Key(opening.edgeEnvelope.value)]
       else [])
  }

  /** A subscription needs the stream's descriptor, and the requested publisher in it. */
  function OpenSession(opening: Opening): Progress {
    var reached := CatchUp(SatSubU64(opening.anchor, 1), opening.replies);
    if opening.descriptor != Some(opening.publisher) then Progress(SatSubU64(opening.anchor, 1), [], Broken)
    else
      reached.(written := Greeting(opening) + reached.written
                          + (if reached.status == Settled && reached.last > 0 then [Live(reached.last)] else []))
  }

  /** The subscription after its opening and the first `n` live events. */
  function SessionTo(recipient: nat, opening: Opening, events: seq<(LiveEvent, seq<Option<Page>>)>, n: nat): Progress
    requires n <= |events|
  {
    if n == 0 then OpenSession(opening)
    else
      var before := SessionTo(recipient, opening, events, n - 1);
      if before.status == Broken then before
      else
        var step := EventStep(recipient, before.last, events[n - 1].0, events[n - 1].1);
        step.(written := before.written + step.written)
  }

  // ---------------------------------------------------------------- the subscription loops

  class Subscription {
    const recipient: nat
    var last: u64
    var written: seq<ViewerMessage>
    /** How many more writes the connection takes. */
    var room: nat

    constructor (recipient: nat, room: nat)
      ensures this.recipient == recipient && written == [] && this.room == room
    {
      this.recipient, last, written, this.room := recipient, 0, [], room;
    }

    /** From an earlier point on, exactly these messages were written, as far as they got through. */
    ghost predicate Wrote(was: seq<ViewerMessage>, hadRoom: nat, messages: seq<ViewerMessage>)
      reads this
    {
      written == was + Through(messages, hadRoom) && room == hadRoom - |Through(messages, hadRoom)|
    }

    /** A socket write, which fails once the connection is lost. */
    method WriteViewer(message: ViewerMessage) returns (ok: bool)
      modifies this`written, this`room
      ensures Wrote(old(written), old(room), [message])
      ensures ok <==> 1 <= old(room)
    {
      if room == 0 {
        assert [message][..0] == [];
        return false;
      }
      written, room := written + [message], room - 1;
      return true;
    }

    /** One object of a page, behind its group's envelope when the group changes. */
    method SendItem(page: Page, item: Item, sentFor: Option<GroupKey>) returns (ok: bool)
      modifies this
      ensures var sent := GroupEnvelope(page, sentFor, item.group) + [Deliver(item)];
              && Wrote(old(written), old(room), sent)
              && (ok <==> |sent| <= old(room))
      ensures ok ==> last == item.sequence
    {
      ghost var envelope := GroupEnvelope(page, sentFor, item.group);
      if |envelope| <= room {
        ThroughMore(envelope, [Deliver(item)], room);
      } else {
        ThroughNoMore(envelope, envelope + [Deliver(item)], room);
      }
      if sentFor != Some(item.group) && item.group in page.envelopes {
        ok := WriteViewer(Key(page.envelopes[item.group]));
        if !ok {
          return;
        }
      }
      last := item.sequence;
      ok := WriteViewer(Deliver(item));
    }

    method SendPage(page: Page) returns (ok: bool)
      modifies this
      ensures var sent := WholePage(old(last), page);
              && Wrote(old(written), old(room), sent.written)
              && (ok <==> sent.contiguous && |sent.written| <= old(room))
              && (ok ==> last == sent.last)
    {
      hide PageTo, GroupEnvelope, WholePage;
      ghost var start, was, hadRoom := last, written, room;
      ghost var whole := WholePage(start, page);
      var deliveredGroup: Option<GroupKey> := None;
      PageStarts(start, page);
      for i := 0 to |page.items|
        invariant PageTo(start, page, i) == PageState(last, deliveredGroup, PageTo(start, page, i).written, true)
        invariant Wrote(was, hadRoom, PageTo(start, page, i).written) && |PageTo(start, page, i).written| <= hadRoom
        invariant PageTo(start, page, i).written <= whole.written
      {
        var item := page.items[i];
        ghost var before := PageTo(start, page, i);
        ghost var more := GroupEnvelope(page, before.group, item.group) + [Deliver(item)];
        PageAdvances(start, page, i);
        if item.sequence != SatAddU64(last, 1) {
          return false;
        }
        ThroughMore(before.written, more, hadRoom);
        ok := SendItem(page, item, deliveredGroup);
        if !ok {
          ThroughNoMore(before.written + more, whole.written, hadRoom);
          return;
        }
        deliveredGroup := Some(item.group);
      }
      PageEnds(start, page);
      return true;
    }

    /** `reanchor_from_store`. */
    method ReanchorFromStore(replies: seq<Option<Page>>) returns (ok: bool)
      modifies this
      ensures var reached := CatchUp(old(last), replies);
              && Wrote(old(written), old(room), reached.written)
              && (ok <==> reached.status == Settled && |reached.written| <= old(room))
              && (ok ==> last == reached.last)
    {
      hide CatchUp, CatchUpTo, WholePage;
      ghost var start, was, hadRoom := last, written, room;
      CatchUpStarts(start, replies);
      for i := 0 to |replies|
        invariant CatchUpTo(start, replies, i) == Progress(last, CatchUpTo(start, replies, i).written, Open)
        invariant Wrote(was, hadRoom, CatchUpTo(start, replies, i).written)
        invariant |CatchUpTo(start, replies, i).written| <= hadRoom
      {
        NextReply(start, replies, i);
        var reply := replies[i];
        if reply.None? {
          return false;
        }
        var page := reply.value;
        if page.items == [] {
          return true;
        }
        ghost var earlier, more := CatchUpTo(start, replies, i).written, WholePage(last, page).written;
        ThroughMore(earlier, more, hadRoom);
        var sent := SendPage(page);
        if !sent {
          if |earlier + more| > hadRoom {
            ThroughNoMore(earlier + more, CatchUp(start, replies).written, hadRoom);
          }
          return false;
        }
        if |page.items| < SUBSCRIPTION_PAGE {
          return true;
        }
      }
      CatchUpEnds(start, replies);
      return false;
    }

    /** The announcement, and at the live edge the envelope of the newest object's group. */
    method Announce(opening: Opening) returns (ok: bool)
      modifies this`written, this`room
      ensures Wrote(old(written), old(room), Greeting(opening))
      ensures ok <==> |Greeting(opening)| <= old(room)
    {
      ghost var edge := Greeting(opening)[1..];
      if room >= 1 {
        ThroughMore([Greeting(opening)[0]], edge, room);
      } else {
        ThroughNoMore([Greeting(opening)[0]], Greeting(opening), room);
      }
      ok := WriteViewer(Started(opening.anchor, opening.retained, opening.anchor > opening.highWater));
      if !ok {
        return;
      }
      if opening.anchor > opening.highWater && opening.highWater > 0 && opening.edgeEnvelope.Some? {
        ok := WriteViewer(Key(opening.edgeEnvelope.value));
      }
    }

    /** The part of `subscription` up to its live loop. */
    method Begin(opening: Opening) returns (ok: bool)
      requires written == []
      modifies this
      ensures var reached := OpenSession(opening);
              && Wrote([], old(room), reached.written)
              && (ok <==> reached.status == Settled && |reached.written| <= old(room))
              && (ok ==> last == reached.last)
      ensures ok ==> Opened(opening, last, written)
    {
      OpeningWrites(opening);
      OpeningParts(opening);
      hide CatchUp, Greeting, Opened, OpenSession, Through;
      ghost var hadRoom, greeting, whole := room, Greeting(opening), OpenSession(opening).written;
      if opening.descriptor != Some(opening.publisher) {
        return false;
      }
      ghost var caughtUp := CatchUp(SatSubU64(opening.anchor, 1), opening.replies).written;
      ok := Announce(opening);
      if !ok {
        ThroughNoMore(greeting, whole, hadRoom);
        return;
      }
      ThroughMore(greeting, caughtUp, hadRoom);
      last := SatSubU64(opening.anchor, 1);
      ok := ReanchorFromStore(opening.replies);
      if |greeting + caughtUp| <= hadRoom {
        ThroughMore(greeting + caughtUp, [Live(last)], hadRoom);
      } else {
        ThroughNoMore(greeting + caughtUp, whole, hadRoom);
      }
      if ok && last > 0 {
        ok := WriteViewer(Live(last));
      }
      assert ok ==> written == whole;
    }

    /** One pass of the live loop. */
    method HandleEvent(event: LiveEvent, replies: seq<Option<Page>>) returns (ok: bool)
      modifies this
      ensures var step := EventStep(recipient, old(last), event, replies);
              && Wrote(old(written), old(room), step.written)
              && (ok <==> step.status == Settled && |step.written| <= old(room))
              && (ok ==> last == step.last)
    {
      hide CatchUp;
      match event {
        case ReceivedKey(envelope) =>
          ok := true;
          if envelope.recipient == recipient {
            ok := WriteViewer(Key(envelope));
          }
        case ReceivedItem(item) =>
          if item.sequence <= last {
            return true;
          }
          if item.sequence == SatAddU64(last, 1) {
            last := item.sequence;
            ok := WriteViewer(Deliver(item));
          } else {
            ok := Recover(replies);
          }
        case Lagged =>
          ok := Recover(replies);
        case Closed =>
          return false;
        case Quiet =>
          return true;
        case Expiry =>
          ok := WriteViewer(Failure(CredentialExpired));
          return false;
        case Deactivation(expired) =>
          ok := WriteViewer(Failure(DeactivationCode(expired)));
          return false;
        case IdleOut =>
          return false;
      }
    }

    method Recover(replies: seq<Option<Page>>) returns (ok: bool)
      modifies this
      ensures var step := Reanchored(old(last), replies);
              && Wrote(old(written), old(room), step.written)
              && (ok <==> step.status == Settled && |step.written| <= old(room))
              && (ok ==> last == step.last)
    {
      hide CatchUp;
      ghost var hadRoom, reached := room, CatchUp(last, replies);
      var before := last;
      ok := ReanchorFromStore(replies);
      if |reached.written| <= hadRoom {
        ThroughMore(reached.written, [Failure(HistoryUnavailable)], hadRoom);
      } else {
        ThroughNoMore(reached.written, reached.written + [Failure(HistoryUnavailable)], hadRoom);
      }
      if ok && last == before {
        ok := WriteViewer(Failure(HistoryUnavailable));
        return false;
      }
    }
  }

  /** What a viewer has been told when its opening is complete: its anchor, the retained bounds and whether it
      starts past everything committed; then, at the live edge of a stream that has objects, the stored
      envelope of the newest one's group; then what the store has from the anchor on; and last how far
      that was, unless it was nowhere. */
  predicate Opened(opening: Opening, last: u64, written: seq<ViewerMessage>) {
    var caughtUp := CatchUp(SatSubU64(opening.anchor, 1), opening.replies);
    var atEdge := opening.anchor > opening.highWater && opening.highWater > 0 && opening.edgeEnvelope.Some?;
    var live := if last > 0 then [Live(last)] else [];
    && opening.descriptor == Some(opening.publisher) && caughtUp.status == Settled && last == caughtUp.last
    && (if atEdge then
          written == [Started(opening.anchor, opening.retained, true), Key(opening.edgeEnvelope.value)]
                     + caughtUp.written + live
        else
          written == [Started(opening.anchor, opening.retained, opening.anchor > opening.highWater)]
                     + caughtUp.written + live)
  }

  /** An opening succeeds exactly for the publisher of the stream's descriptor when the catch-up settles. */
  lemma OpeningWrites(opening: Opening)
    ensures var reached := OpenSession(opening);
            && (reached.status == Settled
                <==> && opening.descriptor == Some(opening.publisher)
                     && CatchUp(SatSubU64(opening.anchor, 1), opening.replies).status == Settled)
            && (reached.status == Settled ==> Opened(opening, reached.last, reached.written))
            && (opening.descriptor != Some(opening.publisher) ==> reached.written == [])
  {
    hide CatchUp;
    assert opening.edgeEnvelope.Some? ==>
        [Started(opening.anchor, opening.retained, true)] + [Key(opening.edgeEnvelope.value)]
        == [Started(opening.anchor, opening.retained, true), Key(opening.edgeEnvelope.value)];
    assert forall started: ViewerMessage :: [started] + [] == [started];
  }

  lemma OpeningParts(opening: Opening)
    ensures var reached, caughtUp := OpenSession(opening), CatchUp(SatSubU64(opening.anchor, 1), opening.replies);
            if opening.descriptor != Some(opening.publisher) then reached.written == [] && reached.status == Broken
            else
              && reached.status == caughtUp.status && reached.last == caughtUp.last
              && Greeting(opening) + caughtUp.written <= reached.written
              && (if caughtUp.status == Settled && caughtUp.last > 0 then
                    reached.written == Greeting(opening) + caughtUp.written + [Live(caughtUp.last)]
                  else reached.written == Greeting(opening) + caughtUp.written)
  {
    hide CatchUp, Greeting;
  }

  lemma CatchUpStarts(start: u64, replies: seq<Option<Page>>)
    ensures CatchUpTo(start, replies, 0) == Progress(start, [], Open)
  {
  }

  lemma CatchUpEnds(start: u64, replies: seq<Option<Page>>)
    requires CatchUpTo(start, replies, |replies|).status == Open
    ensures CatchUp(start, replies) == CatchUpTo(start, replies, |replies|).(status := Broken)
  {
  }

  /** What one more answer of the store makes of a catch-up that is still open. */
  lemma NextReply(start: u64, replies: seq<Option<Page>>, i: nat)
    requires i < |replies| && CatchUpTo(start, replies, i).status == Open
    ensures var before, whole := CatchUpTo(start, replies, i), CatchUp(start, replies);
            match replies[i]
            case None => whole == before.(status := Broken)
            case Some(page) =>
              if page.items == [] then whole == before.(status := Settled)
              else
                var sent := WholePage(before.last, page);
                var next := Progress(sent.last, before.written + sent.written, Open);
                && next.written <= whole.written
                && (if !sent.contiguous then whole == next.(status := Broken)
                    else if |page.items| < SUBSCRIPTION_PAGE then whole == next.(status := Settled)
                    else CatchUpTo(start, replies, i + 1) == next)
  {
    hide WholePage;
    RepliesGrow(start, replies, i + 1);
  }

  lemma {:induction false} PageGrows(start: u64, page: Page, n: nat)
    requires n <= |page.items|
    ensures PageTo(start, page, n).written <= WholePage(start, page).written
    ensures !PageTo(start, page, n).contiguous ==>
              WholePage(start, page) == PageTo(start, page, n)
    decreases |page.items| - n
  {
    if n < |page.items| {
      PageGrows(start, page, n + 1);
    }
  }

  lemma PageStarts(start: u64, page: Page)
    ensures PageTo(start, page, 0) == PageState(start, None, [], true)
  {
  }

  lemma PageEnds(start: u64, page: Page)
    ensures PageTo(start, page, |page.items|) == WholePage(start, page)
  {
  }

  lemma PageAdvances(start: u64, page: Page, i: nat)
    requires i < |page.items| && PageTo(start, page, i).contiguous
    ensures var before, item := PageTo(start, page, i), page.items[i];
            var more := GroupEnvelope(page, before.group, item.group) + [Deliver(item)];
            && before.written <= WholePage(start, page).written
            && (if item.sequence == SatAddU64(before.last, 1) then
                  && PageTo(start, page, i + 1)
                     == PageState(item.sequence, Some(item.group), before.written + more, true)
                  && before.written + more <= WholePage(start, page).written
                else
                  WholePage(start, page) == before.(contiguous := false))
  {
    PageGrows(start, page, i + 1);
    PageGrows(start, page, i);
    var before, item := PageTo(start, page, i), page.items[i];
    var envelope := GroupEnvelope(page, before.group, item.group);
    assert before.written + envelope + [Deliver(item)] == before.written + (envelope + [Deliver(item)]);
  }

  lemma {:induction false} RepliesGrow(start: u64, replies: seq<Option<Page>>, n: nat)
    requires n <= |replies|
    ensures CatchUpTo(start, replies, n).written <= CatchUp(start, replies).written
    ensures CatchUpTo(start, replies, n).status != Open ==> CatchUp(start, replies) == CatchUpTo(start, replies, n)
    decreases |replies| - n
  {
    hide WholePage;
    if n < |replies| {
      RepliesGrow(start, replies, n + 1);
    }
  }

  // ---------------------------------------------------------------- gapless for any store

  /** The objects delivered, in order. */
  function Delivered(written: seq<ViewerMessage>): seq<Item> {
    if written == [] then []
    else
      var message := written[|written| - 1];
      Delivered(written[..|written| - 1]) + (if message.Deliver? then [message.item] else [])
  }

  /** The number `k` places after `base`, saturating. */
  function NthAfter(base: u64, k: nat): u64 {
    if base + k > U64_MAX then U64_MAX else base + k
  }

  /** Every delivery continues the one before it, starting after `base`, and every `Live` message
      names the last delivery. */
  predicate Gapless(base: u64, written: seq<ViewerMessage>) {
    written == [] ||
    (var most, message := written[..|written| - 1], written[|written| - 1];
     && Gapless(base, most)
     && (message.Deliver? ==> message.item.sequence == NthAfter(base, |Delivered(most)| + 1))
     && (message.Live? ==> message.through == NthAfter(base, |Delivered(most)|)))
  }

  lemma {:induction false} DeliveredConcat(a: seq<ViewerMessage>, b: seq<ViewerMessage>)
    ensures Delivered(a + b) == Delivered(a) + Delivered(b)
  {
    if b == [] {
      assert a + b == a;
    } else {
      assert (a + b)[..|a + b| - 1] == a + b[..|b| - 1];
      DeliveredConcat(a, b[..|b| - 1]);
    }
  }

  lemma {:induction false} GaplessConcat(base: u64, a: seq<ViewerMessage>, b: seq<ViewerMessage>)
    requires Gapless(base, a) && Gapless(NthAfter(base, |Delivered(a)|), b)
    ensures Gapless(base, a + b)
  {
    if b == [] {
      assert a + b == a;
    } else {
      var most := b[..|b| - 1];
      assert (a + b)[..|a + b| - 1] == a + most;
      GaplessConcat(base, a, most);
      DeliveredConcat(a, most);
    }
  }

  lemma {:induction false} GaplessPrefix(base: u64, written: seq<ViewerMessage>, n: nat)
    requires n <= |written| && Gapless(base, written)
    ensures Gapless(base, written[..n])
  {
    if n == |written| {
      assert written[..n] == written;
    } else {
      GaplessPrefix(base, written[..|written| - 1], n);
      assert written[..|written| - 1][..n] == written[..n];
    }
  }

  /** Both parts of what a subscription keeps: deliveries are gapless and `last` is the latest one. */
  predicate Tracks(base: u64, written: seq<ViewerMessage>, last: u64) {
    Gapless(base, written) && last == NthAfter(base, |Delivered(written)|)
  }

  lemma TracksConcat(base: u64, a: seq<ViewerMessage>, middle: u64, b: seq<ViewerMessage>, last: u64)
    requires Tracks(base, a, middle) && Tracks(middle, b, last)
    ensures Tracks(base, a + b, last)
  {
    GaplessConcat(base, a, b);
    DeliveredConcat(a, b);
  }

  lemma OneMessage(last: u64, message: ViewerMessage)
    ensures Tracks(last, [], last)
    ensures message.Key? || message.Started? || message.Failure? ==> Tracks(last, [message], last)
    ensures message == Live(last) ==> Tracks(last, [message], last)
    ensures message.Deliver? && message.item.sequence == SatAddU64(last, 1) ==>
              Tracks(last, [message], message.item.sequence)
  {
    var none := [message][..0];
    assert none == [] && Delivered(none) == [] && Gapless(last, none);
    assert Delivered([message]) == Delivered([]) + (if message.Deliver? then [message.item] else []);
  }

  lemma {:induction false} PageTracks(start: u64, page: Page, n: nat)
    requires n <= |page.items|
    ensures var sent := PageTo(start, page, n); Tracks(start, sent.written, sent.last)
  {
    hide Tracks;
    OneMessage(start, Failure(HistoryUnavailable));
    if n > 0 {
      PageTracks(start, page, n - 1);
      var before, item := PageTo(start, page, n - 1), page.items[n - 1];
      if before.contiguous && item.sequence == SatAddU64(before.last, 1) {
        var envelope := GroupEnvelope(page, before.group, item.group);
        OneMessage(before.last, if envelope == [] then Deliver(item) else envelope[0]);
        OneMessage(before.last, Deliver(item));
        TracksConcat(start, before.written, before.last, envelope, before.last);
        TracksConcat(start, before.written + envelope, before.last, [Deliver(item)], item.sequence);
      }
    }
  }

  lemma {:induction false} CatchUpTracks(start: u64, replies: seq<Option<Page>>, n: nat)
    requires n <= |replies|
    ensures var reached := CatchUpTo(start, replies, n); Tracks(start, reached.written, reached.last)
  {
    hide Tracks, PageTo;
    OneMessage(start, Failure(HistoryUnavailable));
    if n > 0 {
      CatchUpTracks(start, replies, n - 1);
      var before, reply := CatchUpTo(start, replies, n - 1), replies[n - 1];
      if before.status == Open && reply.Some? && reply.value.items != [] {
        PageTracks(before.last, reply.value, |reply.value.items|);
        var sent := WholePage(before.last, reply.value);
        TracksConcat(start, before.written, before.last, sent.written, sent.last);
      }
    }
  }

  lemma EventTracks(recipient: nat, last: u64, event: LiveEvent, replies: seq<Option<Page>>)
    ensures var step := EventStep(recipient, last, event, replies); Tracks(last, step.written, step.last)
  {
    hide Tracks, CatchUpTo;
    CatchUpTracks(last, replies, |replies|);
    OneMessage(last, Failure(HistoryUnavailable));
    match event
    case ReceivedKey(envelope) => OneMessage(last, Key(envelope));
    case ReceivedItem(item) =>
      OneMessage(last, Deliver(item));
      TracksConcat(last, CatchUp(last, replies).written, CatchUp(last, replies).last, [],
                   CatchUp(last, replies).last) by {
        OneMessage(CatchUp(last, replies).last, Failure(HistoryUnavailable));
      }
      HistoryAppended(last, replies);
    case Lagged => HistoryAppended(last, replies);
    case Expiry => OneMessage(last, Failure(CredentialExpired));
    case Deactivation(expired) => OneMessage(last, Failure(DeactivationCode(expired)));
    case _ =>
  }

  lemma HistoryAppended(last: u64, replies: seq<Option<Page>>)
    ensures var step := Reanchored(last, replies); Tracks(last, step.written, step.last)
  {
    hide Tracks, CatchUpTo;
    var reached := CatchUp(last, replies);
    CatchUpTracks(last, replies, |replies|);
    OneMessage(reached.last, Failure(HistoryUnavailable));
    if reached.status == Settled && reached.last == last {
      TracksConcat(last, reached.written, last, [Failure(HistoryUnavailable)], last);
    }
  }

  lemma OpeningTracks(opening: Opening)
    ensures var reached := OpenSession(opening);
            Tracks(SatSubU64(opening.anchor, 1), reached.written, reached.last)
  {
    hide Tracks, CatchUpTo;
    var base, greeting := SatSubU64(opening.anchor, 1), Greeting(opening);
    var reached := CatchUp(base, opening.replies);
    CatchUpTracks(base, opening.replies, |opening.replies|);
    OneMessage(base, Started(opening.anchor, opening.retained, opening.anchor > opening.highWater));
    if |greeting| == 1 {
      assert greeting == [greeting[0]];
    } else {
      OneMessage(base, greeting[1]);
      TracksConcat(base, [greeting[0]], base, [greeting[1]], base);
      assert greeting == [greeting[0]] + [greeting[1]];
    }
    TracksConcat(base, greeting, base, reached.written, reached.last);
    OneMessage(reached.last, Live(reached.last));
    if reached.status == Settled && reached.last > 0 {
      TracksConcat(base, greeting + reached.written, reached.last, [Live(reached.last)], reached.last);
    } else {
      assert greeting + reached.written + [] == greeting + reached.written;
    }
  }

  /** Whatever the store and the channel answer, one subscription delivers consecutive sequences
      after its anchor, and each `Live` message names the last delivery. */
  lemma {:induction false} GaplessForAnyStore(
    recipient: nat, opening: Opening, events: seq<(LiveEvent, seq<Option<Page>>)>, n: nat)
    requires n <= |events|
    ensures var reached := SessionTo(recipient, opening, events, n);
            Tracks(SatSubU64(opening.anchor, 1), reached.written, reached.last)
  {
    hide Tracks, EventStep, OpenSession;
    if n == 0 {
      OpeningTracks(opening);
    } else {
      GaplessForAnyStore(recipient, opening, events, n - 1);
      var before := SessionTo(recipient, opening, events, n - 1);
      if before.status != Broken {
        var step := EventStep(recipient, before.last, events[n - 1].0, events[n - 1].1);
        EventTracks(recipient, before.last, events[n - 1].0, events[n - 1].1);
        TracksConcat(SatSubU64(opening.anchor, 1), before.written, before.last, step.written, step.last);
      }
    }
  }

  /** The k-th delivery has the k-th number after the base. */
  lemma {:induction false} GaplessNumbers(base: u64, written: seq<ViewerMessage>)
    requires Gapless(base, written)
    ensures forall k :: 0 <= k < |Delivered(written)| ==> Delivered(written)[k].sequence == NthAfter(base, k + 1)
  {
    if written != [] {
      GaplessNumbers(base, written[..|written| - 1]);
    }
  }

  /** A gapless log repeats a sequence exactly when it runs past the end of the 64-bit range. */
  lemma RepeatsOnlyAtTheEnd(base: u64, written: seq<ViewerMessage>)
    requires Gapless(base, written)
    ensures (exists i, j :: 0 <= i < j < |Delivered(written)|
               && Delivered(written)[i].sequence == Delivered(written)[j].sequence)
            <==> base + |Delivered(written)| > U64_MAX && |Delivered(written)| > 1
  {
    GaplessNumbers(base, written);
    var all := Delivered(written);
    if base + |all| > U64_MAX && |all| > 1 {
      assert all[|all| - 1].sequence == U64_MAX == all[|all| - 2].sequence;
    }
  }

  /** The first delivery is the announced anchor unless the anchor is zero. */
  lemma FirstDeliveryIsTheAnchor(
    recipient: nat, opening: Opening, events: seq<(LiveEvent, seq<Option<Page>>)>, n: nat)
    requires n <= |events| && Delivered(SessionTo(recipient, opening, events, n).written) != []
    ensures Delivered(SessionTo(recipient, opening, events, n).written)[0].sequence == opening.anchor
            <==> opening.anchor > 0
  {
    hide Gapless, Delivered, SessionTo;
    GaplessForAnyStore(recipient, opening, events, n);
    GaplessNumbers(SatSubU64(opening.anchor, 1), SessionTo(recipient, opening, events, n).written);
  }
}
