/** Publishing, retention and one live subscription as interleaved steps.

    A publisher session commits an object, then broadcasts it, and may end in between; retention
    evicts any objects at any time; the live channel holds a bounded number of unread items. The
    subscription attaches before it reads, catches up page by page and goes back to the store on
    a lag or a gap. Other viewers neither read nor change this subscription's state.
  */
module LiveRelay {
  import opened MachineInts
  import opened Wrappers
  import opened LiveFollow

  // ---------------------------------------------------------------- the store's listing

  /** The retained objects past the first `from` committed ones, in order. */
  function Above(committed: seq<Item>, retained: set<int>, from: nat): seq<Item>
    decreases |committed| - from
  {
    if from >= |committed| then []
    else (if from + 1 in retained then [committed[from]] else []) + Above(committed, retained, from + 1)
  }

  function FirstPage(items: seq<Item>): seq<Item> {
    if |items| <= SUBSCRIPTION_PAGE then items else items[..SUBSCRIPTION_PAGE]
  }

  /** Objects are committed with the numbers 1, 2, 3 and so on. */
  predicate Numbered(committed: seq<Item>) {
    && |committed| <= I64_MAX
    && forall i :: 0 <= i < |committed| ==> committed[i].sequence == i + 1
  }

  predicate ListedBy(committed: seq<Item>, retained: set<int>, from: nat, items: seq<Item>) {
    && (forall k :: 0 <= k < |items| ==> && from < items[k].sequence <= |committed|
                                         && items[k].sequence in retained
                                         && committed[items[k].sequence - 1] == items[k])
    && (forall j, k :: 0 <= j < k < |items| ==> items[j].sequence < items[k].sequence)
  }

  /** A listing above the next number is one above this number, alone or behind the next object. */
  lemma ListedFurtherDown(committed: seq<Item>, retained: set<int>, from: nat, rest: seq<Item>)
    requires Numbered(committed) && from < |committed| && ListedBy(committed, retained, from + 1, rest)
    ensures ListedBy(committed, retained, from, rest)
    ensures from + 1 in retained ==> ListedBy(committed, retained, from, [committed[from]] + rest)
  {
    var all := [committed[from]] + rest;
    assert all[0].sequence == from + 1;
    forall k | 1 <= k < |all|
      ensures all[k] == rest[k - 1] && all[k].sequence > from + 1
    {
    }
    forall j, k | 0 <= j < k < |all|
      ensures all[j].sequence < all[k].sequence
    {
      assert j > 0 ==> all[j] == rest[j - 1];
    }
  }

  lemma {:induction false} AboveIsListed(committed: seq<Item>, retained: set<int>, from: nat)
    requires Numbered(committed)
    ensures ListedBy(committed, retained, from, Above(committed, retained, from))
    decreases |committed| - from
  {
    if from >= |committed| {
      NothingIsListed(committed, retained, from);
    } else {
      hide ListedBy;
      AboveIsListed(committed, retained, from + 1);
      var rest := Above(committed, retained, from + 1);
      ListedFurtherDown(committed, retained, from, rest);
      assert [] + rest == rest;
    }
  }

  lemma NothingIsListed(committed: seq<Item>, retained: set<int>, from: nat)
    ensures ListedBy(committed, retained, from, [])
  {
  }

  lemma {:induction false} AboveIsComplete(committed: seq<Item>, retained: set<int>, from: nat, q: int)
    requires from < q <= |committed| && q in retained
    ensures committed[q - 1] in Above(committed, retained, from)
    decreases |committed| - from
  {
    if q != from + 1 {
      AboveIsComplete(committed, retained, from + 1, q);
    }
  }

  // ---------------------------------------------------------------- pages

  /** A page delivers a prefix of its objects: all of them, or up to the first that does not follow. */
  lemma {:induction false} PageDelivers(start: u64, page: Page, n: nat)
    requires n <= |page.items|
    ensures var sent := PageTo(start, page, n);
            var all := Delivered(sent.written);
            && |all| <= n && all == page.items[..|all|]
            && (sent.contiguous ==> |all| == n)
            && (!sent.contiguous ==> |all| < n && page.items[|all|].sequence != SatAddU64(sent.last, 1))
  {
    hide Delivered;
    if n == 0 {
      assert Delivered([]) == [] by { KeysDeliverNothing([]); }
    } else {
      PageDelivers(start, page, n - 1);
      var before, item := PageTo(start, page, n - 1), page.items[n - 1];
      if before.contiguous && item.sequence == SatAddU64(before.last, 1) {
        DeliveredStep(before.written, GroupEnvelope(page, before.group, item.group), item);
        assert page.items[..n] == page.items[..n - 1] + [item];
      }
    }
  }

  lemma KeysDeliverNothing(written: seq<ViewerMessage>)
    requires |written| <= 1 && forall m :: m in written ==> !m.Deliver?
    ensures Delivered(written) == []
  {
    if written != [] {
      assert written[0] in written;
      assert written[..0] == [];
    }
  }

  lemma DeliveredStep(written: seq<ViewerMessage>, keys: seq<ViewerMessage>, item: Item)
    requires |keys| <= 1 && forall m :: m in keys ==> !m.Deliver?
    ensures Delivered(written + keys + [Deliver(item)]) == Delivered(written) + [item]
  {
    KeysDeliverNothing(keys);
    DeliveredConcat(written, keys);
    assert (written + keys + [Deliver(item)])[..|written + keys|] == written + keys;
  }

  /** The objects from one point of the committed log to another. */
  predicate SliceOf(committed: seq<Item>, base: nat, last: nat, all: seq<Item>) {
    && last == base + |all|
    && (all != [] ==> last <= |committed| && all == committed[base..last])
  }

  lemma SliceExtends(committed: seq<Item>, base: nat, middle: nat, a: seq<Item>, b: seq<Item>, last: nat)
    requires SliceOf(committed, base, middle, a) && SliceOf(committed, middle, last, b)
    ensures SliceOf(committed, base, last, a + b)
  {
  }

  /** Reading one page of a numbered store: what arrives is the next part of the committed log. */
  lemma StorePage(
    committed: seq<Item>, retained: set<int>, last: nat, items: seq<Item>, envelopes: map<GroupKey, KeyEnvelope>)
    requires Numbered(committed) && last <= U64_MAX
    requires ListedBy(committed, retained, last, items)
    ensures var sent := WholePage(last, Page(items, envelopes));
            var all := Delivered(sent.written);
            && SliceOf(committed, last, sent.last, all)
            && (sent.contiguous ==> |all| == |items|)
            && |all| <= |items|
            && (forall j :: 0 <= j < |all| ==> items[j].sequence == last + j + 1)
            && sent.last == last + |all|
            && (!sent.contiguous ==> |all| < |items| && items[|all|].sequence > sent.last + 1)
  {
    hide PageTo, Delivered;
    var sent := WholePage(last, Page(items, envelopes));
    var all := Delivered(sent.written);
    PageNumbers(last, Page(items, envelopes));
    var n := |all|;
    if n > 0 {
      assert all[n - 1] == items[n - 1];
      assert forall k :: 0 <= k < n ==> all[k] == items[k];
    }
  }

  lemma PageNumbers(start: u64, page: Page)
    ensures var sent := WholePage(start, page);
            var all := Delivered(sent.written);
            && |all| <= |page.items| && all == page.items[..|all|]
            && sent.last == NthAfter(start, |all|)
            && (forall k :: 0 <= k < |all| ==> all[k].sequence == NthAfter(start, k + 1))
            && (sent.contiguous <==> |all| == |page.items|)
            && (!sent.contiguous ==> page.items[|all|].sequence != SatAddU64(sent.last, 1))
  {
    hide PageTo, Delivered, Gapless;
    PageTracks(start, page, |page.items|);
    GaplessNumbers(start, WholePage(start, page).written);
    PageDelivers(start, page, |page.items|);
  }

  /** The answer of the store to a catch-up read. */
  function StoreAnswer(
    committed: seq<Item>, retained: set<int>, last: nat, envelopes: map<GroupKey, KeyEnvelope>)
    : Page
  {
    Page(FirstPage(Above(committed, retained, last)), envelopes)
  }

  /** A read misses nothing retained: a short page leaves nothing above, and an interrupted one stops
      exactly at an object that is no longer retained. */
  lemma ReadMissesNothing(
    committed: seq<Item>, retained: set<int>, before: Progress, envelopes: map<GroupKey, KeyEnvelope>, q: int)
    requires Numbered(committed) && q in retained && q <= |committed| && before.status == Open
    ensures var reached := ReadReply(before, Some(StoreAnswer(committed, retained, before.last, envelopes)));
            && (reached.status == Settled ==> q <= reached.last)
            && (reached.status == Broken ==> q != reached.last + 1)
  {
    hide WholePage, Delivered, Above, SliceOf, ListedBy;
    var last := before.last;
    var items := FirstPage(Above(committed, retained, last));
    AnswerListed(committed, retained, last, envelopes);
    StorePage(committed, retained, last, items, envelopes);
    Unskipped(committed, retained, last, |Delivered(WholePage(last, Page(items, envelopes)).written)|, q);
  }

  lemma Unskipped(committed: seq<Item>, retained: set<int>, last: nat, n: nat, q: int)
    requires Numbered(committed) && q in retained && q <= |committed| && n <= |Above(committed, retained, last)|
    requires forall j :: 0 <= j < n ==> Above(committed, retained, last)[j].sequence == last + j + 1
    ensures var all := Above(committed, retained, last);
            && (n == |all| ==> q <= last + n)
            && (n < |all| && all[n].sequence > last + n + 1 ==> q != last + n + 1)
  {
    hide Above;
    var all := Above(committed, retained, last);
    if q > last {
      AboveIsListed(committed, retained, last);
      AboveIsComplete(committed, retained, last, q);
      var k :| 0 <= k < |all| && all[k] == committed[q - 1];
      NothingSkipped(all, last, n, k);
    }
  }

  lemma NothingSkipped(all: seq<Item>, last: nat, n: nat, k: nat)
    requires n <= |all| && k < |all|
    requires forall i, j :: 0 <= i < j < |all| ==> all[i].sequence < all[j].sequence
    requires forall j :: 0 <= j < n ==> all[j].sequence == last + j + 1
    ensures k < n ==> all[k].sequence <= last + n
    ensures n < |all| && all[n].sequence > last + n + 1 ==> all[k].sequence != last + n + 1
  {
  }

  // ---------------------------------------------------------------- interleaved steps

  datatype Phase = Idle | Attached | AtEdge(highWater: nat) | Reading(before: Option<u64>) | Following | Ended

  /** The relay and one subscription. `announced` is the highest sequence ever broadcast, `attached` the
      channel position the subscription joined at, and `skipped` the positions it lost to overflows;
      no step reads these two. */
  datatype Relay = Relay(
    committed: seq<Item>, retained: set<int>, awaiting: bool, announced: nat, channel: seq<LiveEvent>,
    phase: Phase, position: nat, base: u64, last: u64, written: seq<ViewerMessage>, attached: nat, skipped: set<nat>)

  datatype Action = Commit(group: GroupKey, content: nat, evicted: set<int>)
                  | Broadcast
                  | Abandon
                  | SendKey(envelope: KeyEnvelope)
                  | Evict(evicted: set<int>)
                  | Attach
                  | ReadAnchor(anchor: u64, retained: Option<Bounds>)
                  | ReadEdge(envelopes: map<GroupKey, KeyEnvelope>)
                  | ReadPage(envelopes: map<GroupKey, KeyEnvelope>)
                  | Receive
                  | Disconnect

  /** What is fixed: the viewer, and how many unread items the channel keeps. */
  datatype Config = Config(recipient: nat, capacity: nat)

  function Initial(): Relay {
    Relay([], {}, false, 0, [], Idle, 0, 0, 0, [], 0, {})
  }

  /** One catch-up page, and what follows the last one. */
  function AfterPage(s: Relay, before: Option<u64>, reached: Progress): Relay {
    var next := s.(last := reached.last, written := reached.written);
    match reached.status
    case Open => next
    case Broken => next.(phase := Ended)
    case Settled =>
      match before
      case None =>
        next.(phase := Following,
              written := reached.written + (if reached.last > 0 then [Live(reached.last)] else []))
      case Some(earlier) =>
        if reached.last == earlier then
          next.(phase := Ended, written := reached.written + [Failure(HistoryUnavailable)])
        else next.(phase := Following)
  }

  /** The stored envelope for the group of the newest object, as long as that object is there. */
  function EdgeKey(s: Relay, highWater: nat, envelopes: map<GroupKey, KeyEnvelope>): (r: seq<ViewerMessage>)
    ensures |r| <= 1 && forall m :: m in r ==> m.Key?
  {
    if highWater !in s.retained || highWater == 0 || highWater > |s.committed| then []
    else
      var group := s.committed[highWater - 1].group;
      if group in envelopes then [Key(envelopes[group])] else []
  }

  /** The channel positions from one up to another. */
  function Positions(from: nat, to: nat): (r: set<nat>)
    ensures forall i :: i in r <==> from <= i < to
  {
    if to <= from then {} else Positions(from, to - 1) + {to - 1}
  }

  function AfterReceive(config: Config, s: Relay): Relay
    requires s.position < |s.channel|
  {
    if |s.channel| - s.position > config.capacity then
      var resumed := |s.channel| - config.capacity;
      s.(position := resumed, skipped := s.skipped + Positions(s.position, resumed), phase := Reading(Some(s.last)))
    else
      var event, next := s.channel[s.position], s.(position := s.position + 1);
      if event.ReceivedItem? && event.item.sequence > s.last && event.item.sequence != SatAddU64(s.last, 1) then
        next.(phase := Reading(Some(s.last)))
      else
        var step := EventStep(config.recipient, s.last, event, []);
        next.(last := step.last, written := s.written + step.written,
              phase := if step.status == Broken then Ended else Following)
  }

  /** One step; an action that cannot happen in a state leaves it as it is. */
  function Step(config: Config, s: Relay, action: Action): Relay {
    match action
    case Commit(group, content, evicted) =>
      if s.awaiting || |s.committed| >= I64_MAX then s
      else
        var sequence := |s.committed| + 1;
        s.(committed := s.committed + [Item(sequence, group, content)],
           retained := s.retained + {sequence} - evicted, awaiting := true)
    case Broadcast =>
      if !s.awaiting || s.committed == [] then s
      else
        s.(channel := s.channel + [ReceivedItem(s.committed[|s.committed| - 1])], announced := |s.committed|,
           awaiting := false)
    case Abandon => s.(awaiting := false)
    case SendKey(envelope) => s.(channel := s.channel + [ReceivedKey(envelope)])
    case Evict(evicted) => s.(retained := s.retained - evicted)
    case Attach =>
      if s.phase != Idle then s else s.(phase := Attached, position := |s.channel|, attached := |s.channel|)
    case ReadAnchor(anchor, bounds) =>
      if s.phase != Attached then s
      else
        s.(phase := if anchor > |s.committed| > 0 then AtEdge(|s.committed|) else Reading(None),
           base := SatSubU64(anchor, 1), last := SatSubU64(anchor, 1),
           written := [Started(anchor, bounds, anchor > |s.committed|)])
    case ReadEdge(envelopes) =>
      if !s.phase.AtEdge? then s
      else s.(phase := Reading(None), written := s.written + EdgeKey(s, s.phase.highWater, envelopes))
    case ReadPage(envelopes) =>
      if !s.phase.Reading? then s
      else if s.last > I64_MAX then s.(phase := Ended)
      else
        AfterPage(s, s.phase.before, ReadReply(Progress(s.last, s.written, Open),
                                               Some(StoreAnswer(s.committed, s.retained, s.last, envelopes))))
    case Receive => if s.phase != Following || s.position >= |s.channel| then s else AfterReceive(config, s)
    case Disconnect => s.(phase := Ended)
  }

  function Run(config: Config, actions: seq<Action>): Relay {
    if actions == [] then Initial()
    else Step(config, Run(config, actions[..|actions| - 1]), actions[|actions| - 1])
  }

  // ---------------------------------------------------------------- what every run keeps

  predicate StoreInvariant(s: Relay) {
    && Numbered(s.committed)
    && (forall q :: q in s.retained ==> 1 <= q <= |s.committed|)
    && s.announced <= |s.committed|
    && (s.awaiting ==> s.announced < |s.committed|)
  }

  predicate GoodEvent(s: Relay, event: LiveEvent) {
    match event
    case ReceivedItem(item) =>
      1 <= item.sequence <= s.announced <= |s.committed| && item == s.committed[item.sequence - 1]
    case ReceivedKey(_) => true
    case _ => false
  }

  predicate ChannelInvariant(s: Relay)
    requires StoreInvariant(s)
  {
    && s.position <= |s.channel|
    && forall i :: 0 <= i < |s.channel| ==> GoodEvent(s, s.channel[i])
  }

  /** What arrived is a slice of the committed log, from the anchor to the last sequence. */
  predicate DeliveredInvariant(s: Relay) {
    SliceOf(s.committed, s.base, s.last, Delivered(s.written))
  }

  predicate UnreadTip(s: Relay) {
    exists i :: s.position <= i < |s.channel| && s.channel[i].ReceivedItem? && s.channel[i].item.sequence == s.announced
  }

  /** Following: either the latest broadcast object is still unread, or nothing broadcast and retained
      lies above the last delivery. */
  predicate CoverInvariant(s: Relay) {
    s.phase == Following ==>
      UnreadTip(s) || forall q :: q in s.retained ==> q <= s.last || q > s.announced
  }

  predicate Invariant(s: Relay) {
    && StoreInvariant(s) && ChannelInvariant(s) && DeliveredInvariant(s) && CoverInvariant(s)
    && (s.phase.Idle? || s.phase.Attached? ==> s.written == [] && s.base == 0)
    && (s.phase.Reading? && s.phase.before.Some? ==> s.phase.before.value <= s.last)
  }

  lemma InitialInvariant()
    ensures Invariant(Initial())
  {
  }

  lemma CommitKeeps(config: Config, s: Relay, action: Action)
    requires Invariant(s) && action.Commit?
    ensures Invariant(Step(config, s, action))
  {
    hide Delivered;
    var next := Step(config, s, action);
    if next != s {
      assert forall i :: 0 <= i < |s.channel| ==> GoodEvent(s, s.channel[i]) ==> GoodEvent(next, s.channel[i]);
      assert Delivered(s.written) != [] ==> next.committed[s.base..s.last] == s.committed[s.base..s.last];
      assert UnreadTip(s) ==> UnreadTip(next);
    }
  }

  lemma ChannelGrows(config: Config, s: Relay, action: Action)
    requires Invariant(s) && (action.Broadcast? || action.SendKey?)
    ensures Invariant(Step(config, s, action))
  {
    hide Delivered;
    var next := Step(config, s, action);
    if next != s {
      assert forall i :: 0 <= i < |s.channel| ==> GoodEvent(s, s.channel[i]) ==> GoodEvent(next, s.channel[i]);
      var i := |s.channel|;
      if action.Broadcast? {
        assert next.channel[i].ReceivedItem? && next.channel[i].item.sequence == next.announced;
      } else if UnreadTip(s) {
        var k :| && s.position <= k < |s.channel|
                 && s.channel[k].ReceivedItem? && s.channel[k].item.sequence == s.announced;
        assert next.channel[k] == s.channel[k];
      }
    }
  }

  lemma ReceiveDelivers(config: Config, s: Relay)
    requires Invariant(s) && s.position < |s.channel|
    ensures DeliveredInvariant(AfterReceive(config, s))
  {
    hide Delivered, SliceOf, UnreadTip;
    var next := AfterReceive(config, s);
    var event := s.channel[s.position];
    assert GoodEvent(s, event);
    if !next.phase.Reading? {
      var step := EventStep(config.recipient, s.last, event, []);
      DeliveredOne(s.written, step.written);
      if step.written != [] && step.written[0].Deliver? {
        OneSlice(s.committed, s.last);
        SliceExtends(s.committed, s.base, s.last, Delivered(s.written), [event.item], next.last);
      } else {
        assert Delivered(s.written) + [] == Delivered(s.written);
      }
    }
  }

  lemma OneSlice(committed: seq<Item>, last: nat)
    ensures last < |committed| ==> SliceOf(committed, last, last + 1, [committed[last]])
  {
  }

  lemma ReceiveCovers(config: Config, s: Relay)
    requires Invariant(s) && s.phase == Following && s.position < |s.channel|
    ensures CoverInvariant(AfterReceive(config, s))
  {
    hide Delivered, SliceOf;
    var next := AfterReceive(config, s);
    var event := s.channel[s.position];
    assert GoodEvent(s, event);
    if next.phase == Following && UnreadTip(s) && !UnreadTip(next) {
      assert event.ReceivedItem? && event.item.sequence == s.announced;
    }
  }

  lemma ReceiveKeeps(config: Config, s: Relay)
    requires Invariant(s)
    ensures Invariant(Step(config, s, Receive))
  {
    hide Delivered, SliceOf, UnreadTip;
    if s.phase == Following && s.position < |s.channel| {
      ReceiveDelivers(config, s);
      ReceiveCovers(config, s);
    }
  }

  lemma DeliveredOne(written: seq<ViewerMessage>, more: seq<ViewerMessage>)
    requires |more| <= 1
    ensures Delivered(written + more)
            == Delivered(written) + (if more != [] && more[0].Deliver? then [more[0].item] else [])
  {
    if more == [] {
      assert written + more == written;
    } else {
      assert (written + more)[..|written|] == written;
    }
  }

  lemma ReadDelivers(s: Relay, page: Page)
    requires Invariant(s) && s.last <= I64_MAX && ListedBy(s.committed, s.retained, s.last, page.items)
    ensures var reached := ReadReply(Progress(s.last, s.written, Open), Some(page));
            SliceOf(s.committed, s.base, reached.last, Delivered(reached.written)) && s.last <= reached.last
  {
    hide Delivered, WholePage, ListedBy, UnreadTip;
    var sent := WholePage(s.last, page);
    StorePage(s.committed, s.retained, s.last, page.items, page.envelopes);
    DeliveredConcat(s.written, sent.written);
    SliceExtends(s.committed, s.base, s.last, Delivered(s.written), Delivered(sent.written), sent.last);
  }

  lemma AfterPageDelivers(s: Relay, before: Option<u64>, reached: Progress)
    requires SliceOf(s.committed, s.base, reached.last, Delivered(reached.written))
    ensures DeliveredInvariant(AfterPage(s, before, reached))
  {
    hide Delivered, SliceOf;
    DeliveredOne(reached.written, [Live(reached.last)]);
    DeliveredOne(reached.written, [Failure(HistoryUnavailable)]);
    assert Delivered(reached.written) + [] == Delivered(reached.written);
    assert reached.written + [] == reached.written;
  }

  lemma ReadPageKeeps(config: Config, s: Relay, action: Action)
    requires Invariant(s) && action.ReadPage?
    ensures Invariant(Step(config, s, action))
  {
    hide Delivered, Above, FirstPage, WholePage, ListedBy, SliceOf, UnreadTip, StoreAnswer, ReadReply;
    if s.phase.Reading? && s.last <= I64_MAX {
      var page := StoreAnswer(s.committed, s.retained, s.last, action.envelopes);
      var start := Progress(s.last, s.written, Open);
      var reached := ReadReply(start, Some(page));
      AnswerListed(s.committed, s.retained, s.last, action.envelopes);
      ReadDelivers(s, page);
      AfterPageDelivers(s, s.phase.before, reached);
      forall q | q in s.retained
        ensures reached.status == Settled ==> q <= reached.last
      {
        ReadMissesNothing(s.committed, s.retained, start, action.envelopes, q);
      }
    }
  }

  lemma AnswerListed(committed: seq<Item>, retained: set<int>, from: nat, envelopes: map<GroupKey, KeyEnvelope>)
    requires Numbered(committed)
    ensures ListedBy(committed, retained, from, StoreAnswer(committed, retained, from, envelopes).items)
  {
    hide Above;
    AboveIsListed(committed, retained, from);
  }

  lemma OtherStepsKeep(config: Config, s: Relay, action: Action)
    requires Invariant(s)
    requires action.Abandon? || action.Evict? || action.Attach? || action.ReadAnchor? || action.ReadEdge?
             || action.Disconnect?
    ensures Invariant(Step(config, s, action))
  {
    hide Delivered, EdgeKey;
    if action.ReadAnchor? {
      KeysDeliverNothing([Started(action.anchor, action.retained, action.anchor > |s.committed|)]);
    } else if action.ReadEdge? && s.phase.AtEdge? {
      var keys := EdgeKey(s, s.phase.highWater, action.envelopes);
      assert keys != [] ==> keys[0] in keys;
      DeliveredOne(s.written, keys);
      assert Delivered(s.written) + [] == Delivered(s.written);
    }
  }

  lemma StepKeepsInvariant(config: Config, s: Relay, action: Action)
    requires Invariant(s)
    ensures Invariant(Step(config, s, action))
  {
    hide Invariant, Step;
    match action
    case Commit(_, _, _) => CommitKeeps(config, s, action);
    case Broadcast => ChannelGrows(config, s, action);
    case SendKey(_) => ChannelGrows(config, s, action);
    case Abandon => OtherStepsKeep(config, s, action);
    case Evict(_) => OtherStepsKeep(config, s, action);
    case Attach => OtherStepsKeep(config, s, action);
    case ReadAnchor(_, _) => OtherStepsKeep(config, s, action);
    case ReadEdge(_) => OtherStepsKeep(config, s, action);
    case ReadPage(_) => ReadPageKeeps(config, s, action);
    case Receive => ReceiveKeeps(config, s);
    case Disconnect => OtherStepsKeep(config, s, action);
  }

  lemma {:induction false} RunKeepsInvariant(config: Config, actions: seq<Action>)
    ensures Invariant(Run(config, actions))
  {
    hide Invariant, Step;
    if actions == [] {
      InitialInvariant();
    } else {
      RunKeepsInvariant(config, actions[..|actions| - 1]);
      StepKeepsInvariant(config, Run(config, actions[..|actions| - 1]), actions[|actions| - 1]);
    }
  }

  // ---------------------------------------------------------------- main theorems

  /** In every interleaving the viewer has received exactly a slice of the committed log, starting at
      its anchor: nothing missing, repeated, reordered or altered. */
  lemma DeliveredIsASliceOfTheLog(config: Config, actions: seq<Action>)
    ensures var s := Run(config, actions);
            var all := Delivered(s.written);
            && s.last == s.base + |all|
            && (all != [] ==> s.last <= |s.committed| && all == s.committed[s.base..s.last])
  {
    hide Run, Delivered;
    RunKeepsInvariant(config, actions);
  }

  /** A viewer that follows and has drained its channel has missed no broadcast object the store
      still retains. */
  lemma NoLostObject(config: Config, actions: seq<Action>)
    requires var s := Run(config, actions); s.phase == Following && s.position == |s.channel|
    ensures var s := Run(config, actions);
            forall q :: q in s.retained && q > s.last ==> q > s.announced
  {
    hide Run, Delivered;
    RunKeepsInvariant(config, actions);
  }

  /** When moreover every commit has been broadcast and the newest object is retained, the viewer
      has the whole log from its anchor. */
  lemma CaughtUpHasEverything(config: Config, actions: seq<Action>)
    requires var s := Run(config, actions);
             && s.phase == Following && s.position == |s.channel|
             && s.announced == |s.committed| && |s.committed| in s.retained && s.base <= |s.committed|
    ensures var s := Run(config, actions); Delivered(s.written) == s.committed[s.base..]
  {
    hide Run, Delivered;
    RunKeepsInvariant(config, actions);
    var s := Run(config, actions);
    NoLostObject(config, actions);
    assert s.last >= |s.committed|;
    assert s.last == |s.committed| ==> s.committed[s.base..s.last] == s.committed[s.base..];
  }

  predicate NoAbandon(actions: seq<Action>) {
    forall a :: a in actions ==> !a.Abandon?
  }

  /** When no session ends between commit and broadcast, every commit but one being handed over has
      been broadcast. */
  lemma {:induction false} AnnouncedOrAwaiting(config: Config, actions: seq<Action>)
    requires NoAbandon(actions)
    ensures var s := Run(config, actions);
            s.announced == if s.awaiting then |s.committed| - 1 else |s.committed|
  {
    hide AfterPage, AfterReceive, ReadReply, StoreAnswer;
    if actions != [] {
      var most, action := actions[..|actions| - 1], actions[|actions| - 1];
      assert action in actions;
      AnnouncedOrAwaiting(config, most);
      if !action.Commit? && !action.Broadcast? {
        OnlyPublishingAnnounces(config, Run(config, most), action);
      }
    }
  }

  lemma OnlyPublishingAnnounces(config: Config, s: Relay, action: Action)
    requires !action.Commit? && !action.Broadcast? && !action.Abandon?
    ensures var next := Step(config, s, action);
            next.committed == s.committed && next.announced == s.announced && next.awaiting == s.awaiting
  {
  }

  /** In such runs a following viewer with a drained channel has missed nothing the store retains, as
      soon as no commit awaits its broadcast. */
  lemma NothingMissedWithoutAbandon(config: Config, actions: seq<Action>)
    requires NoAbandon(actions)
    requires var s := Run(config, actions); s.phase == Following && s.position == |s.channel| && !s.awaiting
    ensures var s := Run(config, actions); forall q :: q in s.retained ==> q <= s.last
  {
    hide Run, Delivered;
    RunKeepsInvariant(config, actions);
    NoLostObject(config, actions);
    AnnouncedOrAwaiting(config, actions);
  }

  // ---------------------------------------------------------------- exact limits

  /** Why `NoAbandon` matters: if a session did end between commit and broadcast, its object would be
      retained, yet a caught-up viewer with a drained channel would not have it. */
  lemma AbandonedCommitWaits(config: Config, group: GroupKey)
    ensures var s := Run(config, [Attach, ReadAnchor(1, None), ReadPage(map[]), Commit(group, 0, {}), Abandon]);
            s.phase == Following && s.position == |s.channel| && !s.awaiting && 1 in s.retained && s.last == 0
  {
    var none := Run(config, []);
    var a1 := [Attach];
    var a2 := a1 + [ReadAnchor(1, None)];
    var a3 := a2 + [ReadPage(map[])];
    var a4 := a3 + [Commit(group, 0, {})];
    var a5 := a4 + [Abandon];
    assert a1[..0] == [] && a2[..1] == a1 && a3[..2] == a2 && a4[..3] == a3 && a5[..4] == a4;
    assert Run(config, a1) == Step(config, none, Attach);
    assert Run(config, a2) == Step(config, Run(config, a1), ReadAnchor(1, None));
    assert Run(config, a3) == Step(config, Run(config, a2), ReadPage(map[]));
    assert Run(config, a4) == Step(config, Run(config, a3), Commit(group, 0, {}));
    assert Run(config, a5) == Step(config, Run(config, a4), Abandon);
    assert a5 == [Attach, ReadAnchor(1, None), ReadPage(map[]), Commit(group, 0, {}), Abandon];
  }

  // ---------------------------------------------------------------- paged and unpaged catch-up

  /** Catching up page by page from a store that does not change. */
  ghost function Paged(
    committed: seq<Item>, retained: set<int>, before: Progress, envelopes: map<GroupKey, KeyEnvelope>)
    : Progress
    requires Numbered(committed)
    decreases if before.status == Open then 1 + U64_MAX - before.last else 0
  {
    if before.status != Open then before
    else
      var reached := ReadReply(before, Some(StoreAnswer(committed, retained, before.last, envelopes)));
      PageMovesOn(committed, retained, before, envelopes);
      Paged(committed, retained, reached, envelopes)
  }

  lemma PageMovesOn(committed: seq<Item>, retained: set<int>, before: Progress, envelopes: map<GroupKey, KeyEnvelope>)
    requires Numbered(committed) && before.status == Open
    ensures var answer := StoreAnswer(committed, retained, before.last, envelopes);
            var reached := ReadReply(before, Some(answer));
            reached.status == Open ==>
              reached.last == before.last + SUBSCRIPTION_PAGE && |answer.items| == SUBSCRIPTION_PAGE
  {
    hide WholePage, Above, SliceOf;
    AnswerListed(committed, retained, before.last, envelopes);
    var answer := StoreAnswer(committed, retained, before.last, envelopes);
    StorePage(committed, retained, before.last, answer.items, envelopes);
  }

  /** The longest run of a listing that continues `last`. */
  function Unbroken(items: seq<Item>, last: nat): nat
    ensures Unbroken(items, last) <= |items|
  {
    if items == [] || items[0].sequence != last + 1 then 0 else 1 + Unbroken(items[1..], last + 1)
  }

  lemma {:induction false} UnbrokenIs(items: seq<Item>, last: nat, n: nat)
    requires n <= |items| && forall j :: 0 <= j < n ==> items[j].sequence == last + j + 1
    requires n < |items| ==> items[n].sequence != last + n + 1
    ensures Unbroken(items, last) == n
  {
    if n > 0 {
      assert items[0].sequence == last + 0 + 1;
      assert forall j :: 0 <= j < n - 1 ==> items[1..][j] == items[j + 1];
      UnbrokenIs(items[1..], last + 1, n - 1);
    }
  }

  lemma AboveNext(committed: seq<Item>, retained: set<int>, last: nat)
    requires Numbered(committed)
    requires Above(committed, retained, last) != [] && Above(committed, retained, last)[0].sequence == last + 1
    ensures last < |committed|
    ensures Above(committed, retained, last) == [committed[last]] + Above(committed, retained, last + 1)
    ensures Unbroken(Above(committed, retained, last), last)
            == 1 + Unbroken(Above(committed, retained, last + 1), last + 1)
  {
    AboveIsListed(committed, retained, last + 1);
    var all, rest := Above(committed, retained, last), Above(committed, retained, last + 1);
    assert all == [committed[last]] + rest;
    assert all[1..] == rest;
  }

  /** Dropping a page of unbroken objects leaves the listing above the last of them. */
  lemma {:induction false} AboveAfterRun(committed: seq<Item>, retained: set<int>, last: nat, n: nat)
    requires Numbered(committed) && n <= |Above(committed, retained, last)|
    requires forall j :: 0 <= j < n ==> Above(committed, retained, last)[j].sequence == last + j + 1
    ensures Above(committed, retained, last + n) == Above(committed, retained, last)[n..]
    ensures Unbroken(Above(committed, retained, last), last)
            == n + Unbroken(Above(committed, retained, last + n), last + n)
    decreases n
  {
    hide Above, Unbroken;
    if n > 0 {
      var all, rest := Above(committed, retained, last), Above(committed, retained, last + 1);
      assert all[0].sequence == last + 0 + 1;
      AboveNext(committed, retained, last);
      assert forall j :: 0 <= j < n - 1 ==> rest[j] == all[j + 1];
      AboveAfterRun(committed, retained, last + 1, n - 1);
      assert all[n..] == rest[n - 1..];
    }
  }

  /** Paged catch-up over a fixed store ends, delivers exactly the unbroken run of one ordered listing
      of everything above, and settles exactly when that listing has no gap. */
  lemma {:induction false} PagedIsUnpaged(
    committed: seq<Item>, retained: set<int>, before: Progress, envelopes: map<GroupKey, KeyEnvelope>)
    requires Numbered(committed) && before.status == Open
    ensures var listing := Above(committed, retained, before.last);
            var n := Unbroken(listing, before.last);
            var reached := Paged(committed, retained, before, envelopes);
            && Delivered(reached.written) == Delivered(before.written) + listing[..n]
            && reached.last == before.last + n
            && reached.status == (if n == |listing| then Settled else Broken)
    decreases U64_MAX - before.last
  {
    hide WholePage, Above, Delivered, StoreAnswer, Unbroken;
    var last := before.last;
    var answer := StoreAnswer(committed, retained, last, envelopes);
    var reached := ReadReply(before, Some(answer));
    DeliveredConcat(before.written, WholePage(last, answer).written);
    PageMovesOn(committed, retained, before, envelopes);
    PagePart(committed, retained, last, envelopes);
    if reached.status == Open {
      AboveAfterRun(committed, retained, last, SUBSCRIPTION_PAGE);
      PagedIsUnpaged(committed, retained, reached, envelopes);
    } else {
      assert answer.items == [] ==> Delivered(before.written) + [] == Delivered(before.written);
    }
  }

  lemma PagePart(committed: seq<Item>, retained: set<int>, last: u64, envelopes: map<GroupKey, KeyEnvelope>)
    requires Numbered(committed)
    ensures var answer := StoreAnswer(committed, retained, last, envelopes);
            var listing := Above(committed, retained, last);
            var sent := WholePage(last, answer);
            && answer.items <= listing
            && (|answer.items| < SUBSCRIPTION_PAGE ==> answer.items == listing)
            && Delivered(sent.written) <= listing
            && |Delivered(sent.written)| <= |answer.items|
            && sent.last == last + |Delivered(sent.written)|
            && (sent.contiguous <==> |Delivered(sent.written)| == |answer.items|)
            && (forall j :: 0 <= j < |Delivered(sent.written)| ==> listing[j].sequence == last + j + 1)
            && (|answer.items| < SUBSCRIPTION_PAGE || !sent.contiguous ==>
                  Unbroken(listing, last) == |Delivered(sent.written)|)
  {
    hide WholePage, Above, Delivered, Unbroken, SliceOf, ListedBy;
    var answer, listing := StoreAnswer(committed, retained, last, envelopes), Above(committed, retained, last);
    var sent := WholePage(last, answer);
    AnswerListed(committed, retained, last, envelopes);
    StorePage(committed, retained, last, answer.items, envelopes);
    PageNumbers(last, answer);
    if |answer.items| < SUBSCRIPTION_PAGE || !sent.contiguous {
      UnbrokenIs(listing, last, |Delivered(sent.written)|);
    }
  }

  // ---------------------------------------------------------------- when going back to the store ends it

  lemma {:induction false} NothingAbove(committed: seq<Item>, retained: set<int>, last: nat)
    requires forall q :: q in retained ==> q <= last
    ensures Above(committed, retained, last) == []
    decreases |committed| - last
  {
    if last < |committed| {
      NothingAbove(committed, retained, last + 1);
    }
  }

  /** One page read ends the subscription exactly when its page has a gap, or it was the first of a
      return to the store and finds nothing. */
  lemma PageReadEndsExactlyWhen(config: Config, s: Relay, envelopes: map<GroupKey, KeyEnvelope>)
    requires Invariant(s) && s.phase.Reading? && s.last <= I64_MAX
    ensures var listing := Above(s.committed, s.retained, s.last);
            var page := FirstPage(listing);
            Step(config, s, ReadPage(envelopes)).phase == Ended
            <==> Unbroken(page, s.last) < |page| || (listing == [] && s.phase.before == Some(s.last))
  {
    hide WholePage, Above, Delivered, Unbroken, SliceOf, ListedBy, UnreadTip, ChannelInvariant, CoverInvariant,
         DeliveredInvariant;
    var answer := StoreAnswer(s.committed, s.retained, s.last, envelopes);
    AnswerListed(s.committed, s.retained, s.last, envelopes);
    StorePage(s.committed, s.retained, s.last, answer.items, envelopes);
    PageNumbers(s.last, answer);
    var n := |Delivered(WholePage(s.last, answer).written)|;
    UnbrokenIs(answer.items, s.last, n);
  }

  /** Reading page after page while nothing else happens. */
  ghost function ReadUntilDone(config: Config, s: Relay, envelopes: map<GroupKey, KeyEnvelope>): Relay
    requires Numbered(s.committed)
    decreases if s.phase.Reading? then 1 + U64_MAX - s.last else 0
  {
    if !s.phase.Reading? then s
    else
      PageMovesOn(s.committed, s.retained, Progress(s.last, s.written, Open), envelopes);
      ReadUntilDone(config, Step(config, s, ReadPage(envelopes)), envelopes)
  }

  lemma PagedIsDone(committed: seq<Item>, retained: set<int>, before: Progress, envelopes: map<GroupKey, KeyEnvelope>)
    requires Numbered(committed) && before.status == Open
    ensures Paged(committed, retained, before, envelopes)
            == Paged(committed, retained,
                     ReadReply(before, Some(StoreAnswer(committed, retained, before.last, envelopes))), envelopes)
  {
  }

  /** Reading until done is the paged catch-up followed by what its end means. */
  lemma {:induction false} ReadUntilDoneIsPaged(config: Config, s: Relay, envelopes: map<GroupKey, KeyEnvelope>)
    requires Numbered(s.committed) && s.phase.Reading? && s.last <= I64_MAX
    ensures ReadUntilDone(config, s, envelopes)
            == AfterPage(s, s.phase.before,
                         Paged(s.committed, s.retained, Progress(s.last, s.written, Open), envelopes))
    decreases U64_MAX - s.last
  {
    hide ReadReply, StoreAnswer, Paged;
    var start := Progress(s.last, s.written, Open);
    var reached := ReadReply(start, Some(StoreAnswer(s.committed, s.retained, s.last, envelopes)));
    PagedIsDone(s.committed, s.retained, start, envelopes);
    PageMovesOn(s.committed, s.retained, start, envelopes);
    var next := Step(config, s, ReadPage(envelopes));
    assert next == AfterPage(s, s.phase.before, reached);
    if reached.status == Open {
      FullPageIsCommitted(s, envelopes);
      ReadUntilDoneIsPaged(config, next, envelopes);
      PagedIsUnpaged(s.committed, s.retained, reached, envelopes);
    } else {
      SettledPaged(s.committed, s.retained, reached, envelopes);
    }
  }

  lemma SettledPaged(committed: seq<Item>, retained: set<int>, reached: Progress, envelopes: map<GroupKey, KeyEnvelope>)
    requires Numbered(committed) && reached.status != Open
    ensures Paged(committed, retained, reached, envelopes) == reached
  {
  }

  lemma FullPageIsCommitted(s: Relay, envelopes: map<GroupKey, KeyEnvelope>)
    requires Numbered(s.committed) && s.last <= I64_MAX
    ensures var reached := ReadReply(Progress(s.last, s.written, Open),
                                     Some(StoreAnswer(s.committed, s.retained, s.last, envelopes)));
            reached.status == Open ==> reached.last <= I64_MAX
  {
    hide WholePage, Above, ListedBy, Delivered, FirstPage;
    var answer := StoreAnswer(s.committed, s.retained, s.last, envelopes);
    AnswerListed(s.committed, s.retained, s.last, envelopes);
    StorePage(s.committed, s.retained, s.last, answer.items, envelopes);
  }

  /** Going back to the store over any number of pages ends the subscription exactly when the listing
      above its last sequence has a gap, or there is nothing to read and it has not moved. */
  lemma ReadingEndsExactlyWhen(config: Config, s: Relay, envelopes: map<GroupKey, KeyEnvelope>)
    requires Invariant(s) && s.phase.Reading? && s.last <= I64_MAX
    ensures var listing := Above(s.committed, s.retained, s.last);
            var done := ReadUntilDone(config, s, envelopes);
            && (done.phase == Ended
                <==> Unbroken(listing, s.last) < |listing| || (listing == [] && s.phase.before == Some(s.last)))
            && (done.phase != Ended ==> done.phase == Following && done.last == s.last + |listing|)
  {
    hide Above, Unbroken, Paged, Delivered, SliceOf, UnreadTip, ChannelInvariant, CoverInvariant, DeliveredInvariant,
         ReadUntilDone;
    ReadUntilDoneIsPaged(config, s, envelopes);
    PagedIsUnpaged(s.committed, s.retained, Progress(s.last, s.written, Open), envelopes);
  }

  /** In every run: a viewer sent back to the store, by an overflow of its channel or by a gap, is ended
      if and only if the store retains nothing above its last sequence or what it retains has a gap. */
  lemma LagEndsExactlyWhen(config: Config, actions: seq<Action>, envelopes: map<GroupKey, KeyEnvelope>)
    requires var s := Run(config, actions);
             s.phase == Following && s.last <= I64_MAX && Step(config, s, Receive).phase.Reading?
    ensures var s := Run(config, actions);
            var listing := Above(s.committed, s.retained, s.last);
            && Numbered(s.committed)
            && (ReadUntilDone(config, Step(config, s, Receive), envelopes).phase == Ended
                <==> listing == [] || Unbroken(listing, s.last) < |listing|)
  {
    hide Run, ReadUntilDone, Above, Unbroken, Invariant;
    RunKeepsInvariant(config, actions);
    var s := Run(config, actions);
    StepKeepsInvariant(config, s, Receive);
    GoesBackFromHere(config, s);
    ReadingEndsExactlyWhen(config, Step(config, s, Receive), envelopes);
  }

  lemma GoesBackFromHere(config: Config, s: Relay)
    requires Invariant(s) && s.phase == Following
    ensures var next := Step(config, s, Receive);
            && Numbered(s.committed)
            && (next.phase.Reading? ==>
                  next.phase.before == Some(s.last) && next.last == s.last
                  && next.committed == s.committed && next.retained == s.retained)
  {
    hide Delivered, SliceOf, UnreadTip, CoverInvariant, ChannelInvariant;
  }

  // ---------------------------------------------------------------- an overflow without loss

  function Repeat(action: Action, n: nat): seq<Action> {
    if n == 0 then [] else Repeat(action, n - 1) + [action]
  }

  lemma {:induction false} KeysFillTheChannel(config: Config, actions: seq<Action>, envelope: KeyEnvelope, n: nat)
    ensures var before, after := Run(config, actions), Run(config, actions + Repeat(SendKey(envelope), n));
            after == before.(channel := after.channel) && |after.channel| == |before.channel| + n
  {
    hide Run, Step;
    if n == 0 {
      assert actions + [] == actions;
    } else {
      KeysFillTheChannel(config, actions, envelope, n - 1);
      var most := actions + Repeat(SendKey(envelope), n - 1);
      assert actions + Repeat(SendKey(envelope), n) == most + [SendKey(envelope)];
      RunsOn(config, most, SendKey(envelope));
      SendKeyFills(config, Run(config, most), envelope);
    }
  }

  lemma SendKeyFills(config: Config, s: Relay, envelope: KeyEnvelope)
    ensures Step(config, s, SendKey(envelope)) == s.(channel := s.channel + [ReceivedKey(envelope)])
  {
  }

  lemma RunsOn(config: Config, actions: seq<Action>, action: Action)
    ensures Run(config, actions + [action]) == Step(config, Run(config, actions), action)
  {
    assert (actions + [action])[..|actions|] == actions;
  }

  /** A viewer joins, and the one object there is reaches it from the store. */
  function Joined(group: GroupKey): seq<Action> {
    [Attach, ReadAnchor(1, None), Commit(group, 0, {}), Broadcast, ReadPage(map[])]
  }

  lemma JoinedState(config: Config, group: GroupKey)
    ensures var s, item := Run(config, Joined(group)), Item(1, group, 0);
            && s.committed == [item] && s.retained == {1} && s.announced == 1 && !s.awaiting
            && s.channel == [ReceivedItem(item)] && s.phase == Following && s.position == 0 && s.last == 1
            && Delivered(s.written) == [item]
  {
    hide Run, AfterPage, ReadReply, StoreAnswer, Delivered;
    var item := Item(1, group, 0);
    assert Joined(group) == Published(group) + [ReadPage(map[])];
    RunsOn(config, Published(group), ReadPage(map[]));
    PublishedState(config, group);
    OneObjectPage(Run(config, Published(group)), item);
  }

  function Published(group: GroupKey): seq<Action> {
    [Attach, ReadAnchor(1, None), Commit(group, 0, {}), Broadcast]
  }

  lemma PublishedState(config: Config, group: GroupKey)
    ensures var item := Item(1, group, 0);
            Run(config, Published(group))
            == Relay([item], {1}, false, 1, [ReceivedItem(item)], Reading(None), 0, 0, 0, [Started(1, None, true)],
                     0, {})
  {
    NothingRun(config);
    hide Run;
    var a1 := [Attach];
    var a2 := a1 + [ReadAnchor(1, None)];
    var a3 := a2 + [Commit(group, 0, {})];
    assert a1 == [] + [Attach] && Published(group) == a3 + [Broadcast];
    RunsOn(config, [], Attach);
    RunsOn(config, a1, ReadAnchor(1, None));
    RunsOn(config, a2, Commit(group, 0, {}));
    RunsOn(config, a3, Broadcast);
  }

  lemma NothingRun(config: Config)
    ensures Run(config, []) == Initial()
  {
  }

  lemma OneObjectPage(s: Relay, item: Item)
    requires s.committed == [item] && item.sequence == 1 && s.retained == {1} && s.last == 0
    requires s.phase == Reading(None) && s.written == [Started(1, None, true)]
    ensures var page := StoreAnswer(s.committed, s.retained, s.last, map[]);
            var next := AfterPage(s, None, ReadReply(Progress(s.last, s.written, Open), Some(page)));
            next.phase == Following && next.last == 1 && Delivered(next.written) == [item]
            && next == s.(phase := next.phase, last := next.last, written := next.written)
  {
    hide Delivered;
    assert Above(s.committed, s.retained, 1) == [];
    assert Above(s.committed, s.retained, 0) == [item];
    var page := Page([item], map[]);
    assert PageTo(0, page, 0) == PageState(0, None, [], true);
    assert WholePage(0, page) == PageState(1, Some(item.group), [] + [] + [Deliver(item)], true);
    assert [] + [] + [Deliver(item)] == [Deliver(item)];
    var three := s.written + [Deliver(item)] + [Live(1)];
    NothingDelivered([Started(1, None, true)]);
    DeliveredOne([], [Started(1, None, true)]);
    DeliveredOne(s.written, [Deliver(item)]);
    DeliveredOne(s.written + [Deliver(item)], [Live(1)]);
    assert Delivered(three) == [item];
  }

  lemma NothingDelivered(written: seq<ViewerMessage>)
    requires |written| == 1 && !written[0].Deliver?
    ensures Delivered(written) == []
  {
    KeysDeliverNothing(written);
  }

  /** A reachable overflow without loss, for every channel capacity: the viewer has every object, as
      many envelopes for other viewers as the channel holds follow, and the subscription ends. */
  lemma LagWithoutLossEndsIt(config: Config, group: GroupKey, envelope: KeyEnvelope)
    ensures var actions := Joined(group) + Repeat(SendKey(envelope), config.capacity) + [Receive, ReadPage(map[])];
            var s := Run(config, actions);
            && s.phase == Ended && Delivered(s.written) == s.committed
            && s.announced == |s.committed| == 1 && !s.awaiting && s.retained == {1}
  {
    hide Delivered, Above;
    JoinedState(config, group);
    KeysFillTheChannel(config, Joined(group), envelope, config.capacity);
    var filled := Joined(group) + Repeat(SendKey(envelope), config.capacity);
    assert filled + [Receive, ReadPage(map[])] == filled + [Receive] + [ReadPage(map[])];
    RunsOn(config, filled, Receive);
    RunsOn(config, filled + [Receive], ReadPage(map[]));
    var s := Run(config, filled + [Receive]);
    NothingAbove(s.committed, s.retained, s.last);
    DeliveredOne(s.written, [Failure(HistoryUnavailable)]);
    assert Delivered(s.written) + [] == Delivered(s.written);
  }

  // ---------------------------------------------------------------- envelopes

  /** In a page every delivered object comes behind its group's stored envelope. */
  lemma {:induction false} PageKeysLead(start: u64, page: Page, n: nat, k: nat)
    requires n <= |page.items| && k < |Delivered(PageTo(start, page, n).written)|
    ensures k < |page.items|
    ensures page.items[k].group in page.envelopes ==>
              Key(page.envelopes[page.items[k].group]) in PageTo(start, page, n).written
  {
    hide Delivered, GroupEnvelope;
    PageDelivers(start, page, n);
    GroupHasKey(start, page, n);
    if n == 0 {
      NothingDeliveredYet();
    } else {
      PageDelivers(start, page, n - 1);
      var before, item := PageTo(start, page, n - 1), page.items[n - 1];
      if k < |Delivered(before.written)| {
        PageKeysLead(start, page, n - 1, k);
        PageWrites(start, page, n);
      }
    }
  }

  lemma NothingDeliveredYet()
    ensures Delivered([]) == []
  {
  }

  lemma PageWrites(start: u64, page: Page, n: nat)
    requires 0 < n <= |page.items|
    ensures PageTo(start, page, n - 1).written <= PageTo(start, page, n).written
  {
  }

  /** The group being sent has had its stored envelope sent. */
  lemma {:induction false} GroupHasKey(start: u64, page: Page, n: nat)
    requires n <= |page.items|
    ensures var sent := PageTo(start, page, n);
            sent.group.Some? && sent.group.value in page.envelopes ==>
              Key(page.envelopes[sent.group.value]) in sent.written
    ensures var sent := PageTo(start, page, n);
            n > 0 && sent.contiguous ==> sent.group == Some(page.items[n - 1].group)
  {
    if n > 0 {
      GroupHasKey(start, page, n - 1);
      PageWrites(start, page, n);
    }
  }

  predicate ForViewer(config: Config, event: LiveEvent) {
    event.ReceivedKey? && event.envelope.recipient == config.recipient
  }

  /** Every envelope for the viewer that was broadcast since it attached and that it has passed was
      forwarded, unless an overflow skipped it. */
  predicate KeysForwarded(config: Config, s: Relay) {
    && s.position <= |s.channel|
    && (s.phase.Attached? ==> s.position == s.attached)
    && (s.phase.Idle? ==> s.position == 0)
    && forall i :: s.attached <= i < s.position && i !in s.skipped && ForViewer(config, s.channel[i]) ==>
                     Key(s.channel[i].envelope) in s.written
  }

  /** Once the anchor is read, messages are only added. */
  predicate Begun(s: Relay) {
    !s.phase.Idle? && !s.phase.Attached?
  }

  lemma WrittenGrows(config: Config, s: Relay, action: Action)
    requires Begun(s)
    ensures Begun(Step(config, s, action))
    ensures s.written <= Step(config, s, action).written
  {
    hide Above, FirstPage, WholePage;
  }

  lemma ReceiveForwards(config: Config, s: Relay)
    requires KeysForwarded(config, s)
    ensures KeysForwarded(config, Step(config, s, Receive))
  {
    var next := Step(config, s, Receive);
    if s.phase == Following && s.position < |s.channel| {
      WrittenGrows(config, s, Receive);
      forall i | next.attached <= i < next.position && i !in next.skipped && ForViewer(config, next.channel[i])
        ensures Key(next.channel[i].envelope) in next.written
      {
        if i == s.position {
          assert next.written == s.written + [Key(s.channel[i].envelope)];
        } else {
          assert i < s.position;
        }
      }
    }
  }

  /** Only joining and receiving move the subscription on the channel. */
  lemma OthersStay(config: Config, s: Relay, action: Action)
    requires !action.Receive?
    ensures var next := Step(config, s, action);
            && s.channel <= next.channel && next.skipped == s.skipped
            && (action.Attach? && s.phase.Idle? ==>
                  next.phase.Attached? && next.position == next.attached == |next.channel|)
            && (!(action.Attach? && s.phase.Idle?) ==>
                  && next.position == s.position && next.attached == s.attached
                  && (next.phase.Idle? ==> s.phase.Idle?) && (next.phase.Attached? ==> s.phase.Attached?))
  {
    hide ReadReply, StoreAnswer, EdgeKey;
  }

  lemma StepForwards(config: Config, s: Relay, action: Action)
    requires KeysForwarded(config, s)
    ensures KeysForwarded(config, Step(config, s, action))
  {
    if action.Receive? {
      ReceiveForwards(config, s);
    } else {
      OthersStay(config, s, action);
      if Begun(s) {
        WrittenGrows(config, s, action);
      }
      hide Step;
    }
  }

  lemma {:induction false} RunForwards(config: Config, actions: seq<Action>)
    ensures KeysForwarded(config, Run(config, actions))
  {
    hide Step;
    if actions != [] {
      RunForwards(config, actions[..|actions| - 1]);
      StepForwards(config, Run(config, actions[..|actions| - 1]), actions[|actions| - 1]);
    }
  }

  /** In every run a viewer that follows with a drained channel has every envelope for it broadcast since
      it attached, except those an overflow skipped. */
  lemma DrainedHasBroadcastKeys(config: Config, actions: seq<Action>, i: nat)
    requires var s := Run(config, actions);
             && s.position == |s.channel| && s.attached <= i < |s.channel| && i !in s.skipped
             && ForViewer(config, s.channel[i])
    ensures Key(Run(config, actions).channel[i].envelope) in Run(config, actions).written
  {
    hide Run;
    RunForwards(config, actions);
  }

  /** In every run, reading a page brings, ahead of each of its objects, the stored envelope of that
      object's group, whatever was skipped before; and nothing written is ever taken back. */
  lemma PageBringsKeys(
    config: Config, actions: seq<Action>, envelopes: map<GroupKey, KeyEnvelope>, more: seq<Action>, k: nat)
    requires var s := Run(config, actions);
             && s.phase.Reading? && s.last <= I64_MAX
             && |Delivered(s.written)| <= k < |Delivered(Step(config, s, ReadPage(envelopes)).written)|
    ensures var item := Delivered(Step(config, Run(config, actions), ReadPage(envelopes)).written)[k];
            item.group in envelopes ==>
              Key(envelopes[item.group]) in Run(config, actions + [ReadPage(envelopes)] + more).written
  {
    RunsOn(config, actions, ReadPage(envelopes));
    hide Run;
    var s := Run(config, actions);
    NewInPage(config, s, envelopes, k);
    RunGrows(config, actions + [ReadPage(envelopes)], more);
  }

  /** Where the opening of a subscription stands: announced but not past the edge envelope, or beyond. */
  predicate Opening(s: Relay, highWater: nat, started: ViewerMessage) {
    && Begun(s)
    && (s.phase.AtEdge? ==>
          s.phase.highWater == highWater && s.written == [started] && started.Started? && started.first > highWater > 0)
  }

  lemma StepKeepsOpening(config: Config, s: Relay, action: Action, highWater: nat, started: ViewerMessage)
    requires Opening(s, highWater, started)
    ensures Opening(Step(config, s, action), highWater, started)
    ensures s.committed <= Step(config, s, action).committed
  {
    hide Above, FirstPage, WholePage, ReadReply, EdgeKey, StoreAnswer;
  }

  lemma {:induction false} RunKeepsOpening(
    config: Config, actions: seq<Action>, more: seq<Action>, highWater: nat, started: ViewerMessage)
    requires Opening(Run(config, actions), highWater, started)
    ensures Opening(Run(config, actions + more), highWater, started)
    ensures Run(config, actions).committed <= Run(config, actions + more).committed
  {
    hide Run, Step, Opening;
    if more == [] {
      assert actions + more == actions;
    } else {
      var most, last := more[..|more| - 1], more[|more| - 1];
      RunKeepsOpening(config, actions, most, highWater, started);
      assert actions + more == actions + most + [last];
      RunsOn(config, actions + most, last);
      StepKeepsOpening(config, Run(config, actions + most), last, highWater, started);
    }
  }

  /** In every run a viewer is first told its anchor, the retained bounds and whether it starts past
      everything committed. If it does and there is a newest object, then, ahead of every object it is
      delivered, it gets the stored envelope of the group of the newest object committed before it
      joined, as long as the store has both when they are read; otherwise it gets nothing there. */
  lemma EdgeKeyLeads(
    config: Config, before: seq<Action>, anchor: u64, bounds: Option<Bounds>, between: seq<Action>,
    envelopes: map<GroupKey, KeyEnvelope>, after: seq<Action>)
    requires Run(config, before).phase == Attached
    ensures var joining, joined := Run(config, before), before + [ReadAnchor(anchor, bounds)];
            var n, reading := |joining.committed|, Run(config, joined + between);
            var written := Run(config, joined + between + [ReadEdge(envelopes)] + after).written;
            && [Started(anchor, bounds, anchor > n)] <= written
            && (reading.phase.AtEdge? ==>
                  && anchor > n > 0
                  && (var group := joining.committed[n - 1].group;
                      if n in reading.retained && group in envelopes then
                        [Started(anchor, bounds, true), Key(envelopes[group])] <= written
                      else
                        reading.written == Run(config, joined + between + [ReadEdge(envelopes)]).written
                        == [Started(anchor, bounds, true)]))
            && (anchor > n > 0 <==> Run(config, joined).phase.AtEdge?)
  {
    hide Run;
    var joining, joined := Run(config, before), before + [ReadAnchor(anchor, bounds)];
    var n, started := |joining.committed|, Started(anchor, bounds, anchor > |joining.committed|);
    RunsOn(config, before, ReadAnchor(anchor, bounds));
    assert Opening(Run(config, joined), n, started);
    RunKeepsOpening(config, joined, between, n, started);
    RunsOn(config, joined + between, ReadEdge(envelopes));
    RunGrows(config, joined, between);
    RunGrows(config, joined, between + [ReadEdge(envelopes)] + after);
    assert joined + (between + [ReadEdge(envelopes)] + after) == joined + between + [ReadEdge(envelopes)] + after;
    RunGrows(config, joined + between + [ReadEdge(envelopes)], after);
  }

  /** What the publishing side does in every run: a commit takes the next number and is retained unless it is
      evicted at once, a broadcast puts the newest commit on the channel, an envelope goes on it as it is,
      eviction removes exactly the named objects, and a viewer that attaches gets what comes from then on. */
  lemma PublishingMeans(config: Config, actions: seq<Action>, action: Action)
    ensures var s, next := Run(config, actions), Run(config, actions + [action]);
            && (action.Commit? && !s.awaiting && |s.committed| < I64_MAX ==>
                  var n := |s.committed| + 1;
                  && next.committed == s.committed + [Item(n, action.group, action.content)] && next.awaiting
                  && (forall q :: q in next.retained <==> (q in s.retained || q == n) && q !in action.evicted))
            && (action.Evict? ==>
                  next.committed == s.committed
                  && forall q :: q in next.retained <==> q in s.retained && q !in action.evicted)
            && (action.Broadcast? && s.awaiting && s.committed != [] ==>
                  && next.channel == s.channel + [ReceivedItem(s.committed[|s.committed| - 1])]
                  && next.announced == |s.committed| && !next.awaiting)
            && (action.SendKey? ==> next.channel == s.channel + [ReceivedKey(action.envelope)])
            && (action.Attach? && s.phase.Idle? ==> next.phase.Attached? && next.position == |s.channel|)
  {
    RunsOn(config, actions, action);
    hide Run;
  }

  /** In every run an overflow costs exactly the oldest unread items: as many as the channel holds stay unread,
      and nothing is written or delivered before the store is read; without one, one item is read. */
  lemma OverflowKeepsTheNewest(config: Config, actions: seq<Action>)
    requires var s := Run(config, actions); s.phase == Following && s.position < |s.channel|
    ensures var s, next := Run(config, actions), Run(config, actions + [Receive]);
            && next.channel == s.channel && next.committed == s.committed && next.retained == s.retained
            && (if |s.channel| - s.position > config.capacity then
                  && next.position == |s.channel| - config.capacity && next.phase == Reading(Some(s.last))
                  && next.written == s.written
                  && (forall i :: i in next.skipped <==> i in s.skipped || s.position <= i < next.position)
                else next.position == s.position + 1 && next.skipped == s.skipped)
  {
    RunsOn(config, actions, Receive);
    hide Run;
  }

  lemma {:induction false} RunGrows(config: Config, actions: seq<Action>, more: seq<Action>)
    requires Begun(Run(config, actions))
    ensures Run(config, actions).written <= Run(config, actions + more).written
    ensures Begun(Run(config, actions + more))
  {
    hide Run, Step;
    if more == [] {
      assert actions + more == actions;
    } else {
      var most, last := more[..|more| - 1], more[|more| - 1];
      RunGrows(config, actions, most);
      assert actions + more == actions + most + [last];
      RunsOn(config, actions + most, last);
      WrittenGrows(config, Run(config, actions + most), last);
    }
  }

  lemma NewInPage(config: Config, s: Relay, envelopes: map<GroupKey, KeyEnvelope>, k: nat)
    requires s.phase.Reading? && s.last <= I64_MAX
    requires |Delivered(s.written)| <= k < |Delivered(Step(config, s, ReadPage(envelopes)).written)|
    ensures var next := Step(config, s, ReadPage(envelopes));
            && Begun(next)
            && (var item := Delivered(next.written)[k];
                item.group in envelopes ==> Key(envelopes[item.group]) in next.written)
  {
    hide Above, FirstPage, PageTo, Delivered;
    var page := StoreAnswer(s.committed, s.retained, s.last, envelopes);
    var reached := ReadReply(Progress(s.last, s.written, Open), Some(page));
    var next := Step(config, s, ReadPage(envelopes));
    DeliveredOne(reached.written, [Live(reached.last)]);
    DeliveredOne(reached.written, [Failure(HistoryUnavailable)]);
    assert Delivered(reached.written) + [] == Delivered(reached.written);
    assert reached.written + [] == reached.written;
    assert Delivered(next.written) == Delivered(reached.written) && reached.written <= next.written;
    if page.items != [] {
      var sent := WholePage(s.last, page);
      DeliveredConcat(s.written, sent.written);
      var j := k - |Delivered(s.written)|;
      PageKeysLead(s.last, page, |page.items|, j);
      PageDelivers(s.last, page, |page.items|);
      assert Delivered(next.written)[k] == page.items[j];
    }
  }

  // ---------------------------------------------------------------- an envelope lost for good

  /** A viewer gets a group's first object live, its envelope is followed by as many others as the
      channel holds, and the page read afterwards has only an object of the next group. */
  function Overtaken(
    config: Config, first: GroupKey, second: GroupKey, mine: KeyEnvelope, other: KeyEnvelope)
    : seq<Action>
  {
    Overflowing(config, first, mine, other) + [Receive] + [Commit(second, 0, {})] + [ReadPage(map[first := mine])]
  }

  function LiveObject(first: GroupKey): seq<Action> {
    [] + [Attach] + [ReadAnchor(1, None)] + [ReadPage(map[])] + [Commit(first, 0, {})] + [Broadcast] + [Receive]
  }

  function Overflowing(config: Config, first: GroupKey, mine: KeyEnvelope, other: KeyEnvelope): seq<Action> {
    LiveObject(first) + [SendKey(mine)] + Repeat(SendKey(other), config.capacity)
  }

  /** The viewer follows and has one object, delivered live. */
  function HasOne(first: GroupKey): Relay {
    var item := Item(1, first, 0);
    Relay([item], {1}, false, 1, [ReceivedItem(item)], Following, 1, 0, 1, [Started(1, None, true), Deliver(item)],
          0, {})
  }

  lemma EmptyRead(config: Config, s: Relay)
    requires s.phase == Reading(None) && s.committed == [] && s.last == 0
    ensures Step(config, s, ReadPage(map[])) == s.(phase := Following)
  {
    assert Above(s.committed, s.retained, s.last) == [];
  }

  lemma LiveObjectState(config: Config, first: GroupKey)
    requires config.capacity > 0
    ensures Run(config, LiveObject(first)) == HasOne(first)
  {
    NothingRun(config);
    var a1 := [] + [Attach];
    var a2 := a1 + [ReadAnchor(1, None)];
    hide Run, Step;
    RunsOn(config, [], Attach);
    RunsOn(config, a1, ReadAnchor(1, None));
    RunsOn(config, a2, ReadPage(map[]));
    JoinSteps(config);
    EmptyRead(config, Initial().(phase := Reading(None), written := [Started(1, None, true)]));
    CommittedAndReceived(config, a2 + [ReadPage(map[])], first);
  }

  lemma JoinSteps(config: Config)
    ensures Step(config, Initial(), Attach) == Initial().(phase := Attached)
    ensures Step(config, Initial().(phase := Attached), ReadAnchor(1, None))
            == Initial().(phase := Reading(None), written := [Started(1, None, true)])
  {
  }

  /** A follower with nothing yet gets the first object from the channel. */
  lemma CommittedAndReceived(config: Config, actions: seq<Action>, first: GroupKey)
    requires config.capacity > 0
    requires Run(config, actions) == Initial().(phase := Following, written := [Started(1, None, true)])
    ensures Run(config, actions + [Commit(first, 0, {})] + [Broadcast] + [Receive]) == HasOne(first)
  {
    hide Run, ReadReply, StoreAnswer, AfterPage;
    RunsOn(config, actions, Commit(first, 0, {}));
    RunsOn(config, actions + [Commit(first, 0, {})], Broadcast);
    RunsOn(config, actions + [Commit(first, 0, {})] + [Broadcast], Receive);
    var item := Item(1, first, 0);
    assert [Started(1, None, true)] + [Deliver(item)] == [Started(1, None, true), Deliver(item)];
  }

  lemma OverflowingState(config: Config, first: GroupKey, mine: KeyEnvelope, other: KeyEnvelope)
    requires config.capacity > 0
    ensures var s := Run(config, Overflowing(config, first, mine, other));
            && s == HasOne(first).(channel := s.channel)
            && |s.channel| == config.capacity + 2
  {
    hide Run, Step, LiveObject;
    LiveObjectState(config, first);
    RunsOn(config, LiveObject(first), SendKey(mine));
    SendKeyFills(config, HasOne(first), mine);
    KeysFillTheChannel(config, LiveObject(first) + [SendKey(mine)], other, config.capacity);
  }

  lemma NextObjectOnly(config: Config, s: Relay, second: GroupKey, envelopes: map<GroupKey, KeyEnvelope>, one: Item)
    requires s.phase == Reading(Some(1)) && s.last == 1 && s.retained == {1, 2} && second !in envelopes
    requires s.committed == [one, Item(2, second, 0)]
    ensures var next := Step(config, s, ReadPage(envelopes));
            next == s.(phase := Following, last := 2, written := s.written + [Deliver(Item(2, second, 0))])
  {
    var item := Item(2, second, 0);
    assert Above(s.committed, s.retained, 2) == [];
    assert Above(s.committed, s.retained, 1) == [item];
    var page := Page([item], envelopes);
    assert PageTo(1, page, 0) == PageState(1, None, [], true);
    assert WholePage(1, page) == PageState(2, Some(second), [] + [] + [Deliver(item)], true);
    assert [] + [] + [Deliver(item)] == [Deliver(item)];
  }

  /** Forwarding can fail for good: for every channel capacity there is a run in which the envelope of a
      group the viewer has an object of is skipped, the store has it, and the viewer goes on following
      without it. */
  lemma SkippedKeyStaysLost(config: Config, first: GroupKey, second: GroupKey, mine: KeyEnvelope, other: KeyEnvelope)
    requires config.capacity > 0 && first != second && mine.recipient == config.recipient && mine.group == first
    ensures var s := Run(config, Overtaken(config, first, second, mine, other));
            && s.phase == Following && s.last == |s.committed| == 2 && s.skipped == {1}
            && Deliver(Item(1, first, 0)) in s.written && Key(mine) !in s.written
  {
    hide Run, Overflowing, ReadReply, StoreAnswer;
    OverflowingState(config, first, mine, other);
    var a0 := Overflowing(config, first, mine, other);
    RunsOn(config, a0, Receive);
    RunsOn(config, a0 + [Receive], Commit(second, 0, {}));
    RunsOn(config, a0 + [Receive] + [Commit(second, 0, {})], ReadPage(map[first := mine]));
    var lagged := Run(config, a0 + [Receive]);
    assert Positions(1, 2) == {1};
    var s := Run(config, a0 + [Receive] + [Commit(second, 0, {})]);
    assert s.committed == [Item(1, first, 0), Item(2, second, 0)] && s.retained == {1, 2};
    NextObjectOnly(config, s, second, map[first := mine], Item(1, first, 0));
  }
}
