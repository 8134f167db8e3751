/** Which publisher session may write a stream.

    Sessions claim streams in one shared set, commit and announce objects only after a claim, and
    when they end they finalize their streams before releasing them. Any number of sessions
    interleave; a session may fail at every point, and a finalization may fail.
  */
module StreamOwnership {

  type Stream = nat

  // ---------------------------------------------------------------- claiming and releasing

  datatype Claim = Claim(online: set<Stream>, touched: set<Stream>, ok: bool)

  /** `claim_online`: a stream already touched stays, a stream of another session is refused. */
  function ClaimOf(online: set<Stream>, touched: set<Stream>, stream: Stream): Claim {
    if stream in touched then Claim(online, touched, true)
    else if stream in online then Claim(online, touched, false)
    else Claim(online + {stream}, touched + {stream}, true)
  }

  class OnlineStreams {
    var streams: set<Stream>

    constructor ()
      ensures streams == {}
    {
      streams := {};
    }
  }

  class PublisherSession {
    const shared: OnlineStreams
    var touched: set<Stream>

    constructor (shared: OnlineStreams)
      ensures this.shared == shared && touched == {}
    {
      this.shared, touched := shared, {};
    }

    method ClaimOnline(stream: Stream) returns (ok: bool)
      modifies this, shared
      ensures Claim(shared.streams, touched, ok) == ClaimOf(old(shared.streams), old(touched), stream)
      ensures old(touched <= shared.streams) ==> touched <= shared.streams
    {
      if stream in touched {
        return true;
      }
      if stream in shared.streams {
        return false;
      }
      shared.streams := shared.streams + {stream};
      touched := touched + {stream};
      return true;
    }

    /** The end of `handle_publisher`: finalize every touched stream, whether or not that succeeds,
        and only then release them all. */
    method Teardown(finalizes: Stream -> bool) returns (attempted: seq<Stream>, failed: set<Stream>)
      modifies shared
      ensures shared.streams == old(shared.streams) - touched
      ensures multiset(attempted) == multiset(touched)
      ensures failed == set s | s in touched && !finalizes(s)
    {
      attempted, failed := FinalizeAll(finalizes);
      var remaining := touched;
      while remaining != {}
        invariant remaining <= touched
        invariant shared.streams == old(shared.streams) - (touched - remaining)
      {
        var stream :| stream in remaining;
        shared.streams := shared.streams - {stream};
        remaining := remaining - {stream};
      }
    }

    /** Every touched stream is finalized once, in some order. */
    method FinalizeAll(finalizes: Stream -> bool) returns (attempted: seq<Stream>, failed: set<Stream>)
      ensures multiset(attempted) == multiset(touched)
      ensures failed == set s | s in touched && !finalizes(s)
    {
      attempted, failed := [], {};
      var rest := touched;
      while rest != {}
        invariant rest <= touched
        invariant multiset(attempted) + multiset(rest) == multiset(touched)
        invariant failed == set s | s in touched - rest && !finalizes(s)
      {
        var stream :| stream in rest;
        assert multiset(rest) == multiset(rest - {stream}) + multiset{stream};
        attempted := attempted + [stream];
        if !finalizes(stream) {
          failed := failed + {stream};
        }
        rest := rest - {stream};
      }
    }
  }

  // ---------------------------------------------------------------- many sessions

  datatype Activity = Serving
                    | Claimed(stream: Stream)
                    | Committed(stream: Stream, sequence: nat)
                    | Ending(unfinalized: set<Stream>)

  datatype Session = Session(touched: set<Stream>, activity: Activity)

  datatype Announcement = Announcement(stream: Stream, sequence: nat)

  /** The shared set, the running sessions, and per stream what the store and the live channel hold.
      `abandoned` are commits whose session failed before announcing them; no step reads it. */
  datatype World = World(
    online: set<Stream>, sessions: map<nat, Session>, highWater: map<Stream, nat>,
    active: set<Stream>, leftActive: set<Stream>, announced: seq<Announcement>, abandoned: set<Announcement>)

  datatype StoreReply = Inserted | Duplicate | Refused

  datatype Action = Connect(id: nat)
                  | ClaimStream(id: nat, stream: Stream, forObject: bool)
                  | StoreObject(id: nat, reply: StoreReply)
                  | Announce(id: nat)
                  | Fail(id: nat)
                  | Finalize(id: nat, stream: Stream, ok: bool)
                  | Release(id: nat)

  function HighWater(w: World, stream: Stream): nat {
    if stream in w.highWater then w.highWater[stream] else 0
  }

  function Ended(session: Session): Session {
    session.(activity := Ending(session.touched))
  }

  /** One step of session `action.id`; an action that cannot happen leaves the world as it is. */
  function Step(w: World, action: Action): World {
    if action.Connect? then
      if action.id in w.sessions then w else w.(sessions := w.sessions[action.id := Session({}, Serving)])
    else if action.id !in w.sessions then w
    else
      var id, session := action.id, w.sessions[action.id];
      match action
      case ClaimStream(_, stream, forObject) =>
        if session.activity != Serving then w
        else
          var claim := ClaimOf(w.online, session.touched, stream);
          var next := Session(claim.touched, if forObject then Claimed(stream) else Serving);
          w.(online := claim.online, sessions := w.sessions[id := if claim.ok then next else Ended(session)])
      case StoreObject(_, reply) =>
        if !session.activity.Claimed? then w
        else
          var stream := session.activity.stream;
          (match reply
           case Inserted =>
             var sequence := HighWater(w, stream) + 1;
             w.(sessions := w.sessions[id := session.(activity := Committed(stream, sequence))],
                highWater := w.highWater[stream := sequence], active := w.active + {stream},
                leftActive := w.leftActive - {stream})
           case Duplicate => w.(sessions := w.sessions[id := session.(activity := Serving)])
           case Refused => w.(sessions := w.sessions[id := Ended(session)]))
      case Announce(_) =>
        if !session.activity.Committed? then w
        else
          w.(sessions := w.sessions[id := session.(activity := Serving)],
             announced := w.announced + [Announcement(session.activity.stream, session.activity.sequence)])
      case Fail(_) =>
        if session.activity.Ending? then w
        else
          w.(sessions := w.sessions[id := Ended(session)],
             abandoned := w.abandoned + (if session.activity.Committed? then
                                           {Announcement(session.activity.stream, session.activity.sequence)}
                                         else {}))
      case Finalize(_, stream, ok) =>
        if !session.activity.Ending? || stream !in session.activity.unfinalized then w
        else
          w.(sessions := w.sessions[id := session.(activity := Ending(session.activity.unfinalized - {stream}))],
             active := if ok then w.active - {stream} else w.active,
             leftActive := if ok then w.leftActive - {stream} else w.leftActive + {stream})
      case Release(_) =>
        if session.activity != Ending({}) then w
        else w.(online := w.online - session.touched, sessions := w.sessions - {id})
  }

  const INITIAL := World({}, map[], map[], {}, {}, [], {})

  function Run(actions: seq<Action>): World {
    if actions == [] then INITIAL
    else Step(Run(actions[..|actions| - 1]), actions[|actions| - 1])
  }

  // ---------------------------------------------------------------- what every run keeps

  function AllTouched(sessions: map<nat, Session>): set<Stream> {
    set id, stream | id in sessions && stream in sessions[id].touched :: stream
  }

  /** The online set is the disjoint union of the sessions' touched sets. */
  predicate SingleOwner(w: World) {
    && w.online == AllTouched(w.sessions)
    && forall i, j :: i in w.sessions && j in w.sessions && i != j ==> w.sessions[i].touched !! w.sessions[j].touched
  }

  /** A session works only on streams it owns, and an announcement still to come is the newest commit. */
  predicate WorksOnOwn(w: World, session: Session) {
    match session.activity
    case Serving => true
    case Claimed(stream) => stream in session.touched
    case Committed(stream, sequence) =>
      && stream in session.touched && sequence == HighWater(w, stream)
      && forall k :: 0 <= k < |w.announced| && w.announced[k].stream == stream ==> w.announced[k].sequence < sequence
    case Ending(unfinalized) => unfinalized <= session.touched
  }

  predicate AllWorkOnOwn(w: World) {
    forall id :: id in w.sessions ==> WorksOnOwn(w, w.sessions[id])
  }

  /** Announcements of one stream rise with its commits, across every session that owned it. */
  predicate AnnouncedInOrder(w: World) {
    && (forall k :: 0 <= k < |w.announced| ==> w.announced[k].sequence <= HighWater(w, w.announced[k].stream))
    && forall j, k :: 0 <= j < k < |w.announced| && w.announced[j].stream == w.announced[k].stream ==>
                        w.announced[j].sequence < w.announced[k].sequence
  }

  /** A group left active in the store has an owner that will finalize it, or its finalization failed. */
  predicate ActiveIsOwned(w: World) {
    forall stream :: stream in w.active && stream !in w.leftActive ==>
      exists id :: id in w.sessions && stream in w.sessions[id].touched
                   && (w.sessions[id].activity.Ending? ==> stream in w.sessions[id].activity.unfinalized)
  }

  predicate Invariant(w: World) {
    SingleOwner(w) && AllWorkOnOwn(w) && AnnouncedInOrder(w) && ActiveIsOwned(w)
  }

  /** Replacing one session's touched set by a larger one, or dropping it. */
  lemma TouchedAfterUpdate(sessions: map<nat, Session>, id: nat, session: Session)
    requires id in sessions ==> sessions[id].touched <= session.touched
    ensures AllTouched(sessions[id := session]) == AllTouched(sessions) + session.touched
  {
    var next := sessions[id := session];
    forall stream | stream in AllTouched(sessions) + session.touched
      ensures stream in AllTouched(next)
    {
      if stream in session.touched {
        assert id in next && stream in next[id].touched;
      } else {
        var k :| k in sessions && stream in sessions[k].touched;
        assert k in next && stream in next[k].touched;
      }
    }
  }

  lemma TouchedAfterRelease(w: World, id: nat)
    requires SingleOwner(w) && id in w.sessions
    ensures AllTouched(w.sessions - {id}) == w.online - w.sessions[id].touched
  {
    var next := w.sessions - {id};
    forall stream | stream in w.online - w.sessions[id].touched
      ensures stream in AllTouched(next)
    {
      var k :| k in w.sessions && stream in w.sessions[k].touched;
      assert k in next && stream in next[k].touched;
    }
  }

  lemma KeepsSingleOwner(w: World, action: Action)
    requires SingleOwner(w)
    ensures SingleOwner(Step(w, action))
  {
    hide AllTouched;
    NoneTouched(w.sessions);
    var next := Step(w, action);
    if action.id in next.sessions && next.sessions != w.sessions {
      TouchedAfterUpdate(w.sessions, action.id, next.sessions[action.id]);
      assert next.sessions == w.sessions[action.id := next.sessions[action.id]];
    }
    if action.Release? && action.id in w.sessions {
      TouchedAfterRelease(w, action.id);
    }
  }

  lemma NoneTouched(sessions: map<nat, Session>)
    ensures forall id :: id in sessions ==> sessions[id].touched <= AllTouched(sessions)
  {
  }

  /** A step touches only its own session, only that session's streams' high-water marks, and announces
      only that session's commit. */
  lemma StepIsLocal(w: World, action: Action)
    requires AllWorkOnOwn(w)
    ensures var next := Step(w, action);
            && (forall id :: id != action.id ==> (id in next.sessions <==> id in w.sessions))
            && (forall id :: id in w.sessions && id != action.id ==> next.sessions[id] == w.sessions[id])
            && (forall stream :: HighWater(next, stream) != HighWater(w, stream) ==>
                                   action.id in w.sessions && stream in w.sessions[action.id].touched)
            && (forall stream :: HighWater(w, stream) <= HighWater(next, stream))
            && w.announced <= next.announced
            && (forall k :: |w.announced| <= k < |next.announced| ==>
                              action.id in w.sessions && next.announced[k].stream in w.sessions[action.id].touched)
  {
    if action.id in w.sessions {
      assert WorksOnOwn(w, w.sessions[action.id]);
    }
  }

  lemma OthersKeepWorking(w: World, action: Action, id: nat)
    requires SingleOwner(w) && AllWorkOnOwn(w) && id in w.sessions && id != action.id
    ensures WorksOnOwn(Step(w, action), w.sessions[id])
  {
    hide Step, HighWater;
    StepIsLocal(w, action);
    var next, session := Step(w, action), w.sessions[id];
    assert WorksOnOwn(w, session);
    if session.activity.Committed? {
      var stream := session.activity.stream;
      assert action.id in w.sessions ==> stream !in w.sessions[action.id].touched;
      assert forall k :: 0 <= k < |w.announced| ==> next.announced[k] == w.announced[k];
    }
  }

  lemma ActorKeepsWorking(w: World, action: Action)
    requires AllWorkOnOwn(w) && AnnouncedInOrder(w) && action.id in Step(w, action).sessions
    ensures WorksOnOwn(Step(w, action), Step(w, action).sessions[action.id])
  {
    if action.id in w.sessions {
      assert WorksOnOwn(w, w.sessions[action.id]);
    }
  }

  lemma KeepsWorkOnOwn(w: World, action: Action)
    requires SingleOwner(w) && AllWorkOnOwn(w) && AnnouncedInOrder(w)
    ensures AllWorkOnOwn(Step(w, action))
  {
    hide Step, WorksOnOwn;
    StepIsLocal(w, action);
    forall id | id in Step(w, action).sessions
      ensures WorksOnOwn(Step(w, action), Step(w, action).sessions[id])
    {
      if id == action.id {
        ActorKeepsWorking(w, action);
      } else {
        OthersKeepWorking(w, action, id);
      }
    }
  }

  lemma KeepsOrder(w: World, action: Action)
    requires AllWorkOnOwn(w) && AnnouncedInOrder(w)
    ensures AnnouncedInOrder(Step(w, action))
  {
    if action.id in w.sessions {
      assert WorksOnOwn(w, w.sessions[action.id]);
    }
  }

  lemma StillOwned(w: World, action: Action, stream: Stream)
    requires SingleOwner(w) && AllWorkOnOwn(w) && ActiveIsOwned(w)
    requires var next := Step(w, action); stream in next.active && stream !in next.leftActive
    ensures var next := Step(w, action);
            exists id :: id in next.sessions && stream in next.sessions[id].touched
                         && (next.sessions[id].activity.Ending? ==> stream in next.sessions[id].activity.unfinalized)
  {
    var next := Step(w, action);
    if action.id in w.sessions {
      assert WorksOnOwn(w, w.sessions[action.id]);
    }
    if stream in w.active && stream !in w.leftActive {
      var id :| id in w.sessions && stream in w.sessions[id].touched
                && (w.sessions[id].activity.Ending? ==> stream in w.sessions[id].activity.unfinalized);
      assert id in next.sessions && stream in next.sessions[id].touched;
    } else {
      assert action.id in next.sessions && stream in next.sessions[action.id].touched;
    }
  }

  lemma StepKeepsInvariant(w: World, action: Action)
    requires Invariant(w)
    ensures Invariant(Step(w, action))
  {
    hide Step, SingleOwner, AllWorkOnOwn, AnnouncedInOrder;
    KeepsSingleOwner(w, action);
    KeepsWorkOnOwn(w, action);
    KeepsOrder(w, action);
    forall stream | stream in Step(w, action).active && stream !in Step(w, action).leftActive
      ensures exists id :: id in Step(w, action).sessions && stream in Step(w, action).sessions[id].touched
                           && (Step(w, action).sessions[id].activity.Ending? ==>
                                 stream in Step(w, action).sessions[id].activity.unfinalized)
    {
      StillOwned(w, action, stream);
    }
  }

  lemma {:induction false} RunKeepsInvariant(actions: seq<Action>)
    ensures Invariant(Run(actions))
  {
    hide Step;
    if actions != [] {
      RunKeepsInvariant(actions[..|actions| - 1]);
      StepKeepsInvariant(Run(actions[..|actions| - 1]), actions[|actions| - 1]);
    }
  }

  // ---------------------------------------------------------------- main theorems

  /** In every interleaving the online streams are exactly the streams of running sessions, and no
      stream belongs to two of them. */
  lemma OnlineIsTheDisjointUnion(actions: seq<Action>)
    ensures var w := Run(actions);
            && w.online == AllTouched(w.sessions)
            && forall i, j :: i in w.sessions && j in w.sessions && i != j ==>
                 w.sessions[i].touched !! w.sessions[j].touched
  {
    hide Run, AllTouched;
    RunKeepsInvariant(actions);
  }

  /** A session commits objects only to a stream it owns and no other session owns, and clears a
      stream's active group only while it still owns the stream. */
  lemma OnlyTheOwnerWrites(actions: seq<Action>, action: Action, stream: Stream)
    requires var w, next := Run(actions), Step(Run(actions), action);
             HighWater(next, stream) != HighWater(w, stream) || (stream in w.active && stream !in next.active)
    ensures var w, next := Run(actions), Step(Run(actions), action);
            && stream in w.online && stream in next.online
            && action.id in w.sessions && stream in w.sessions[action.id].touched
            && forall id :: id in w.sessions && id != action.id ==> stream !in w.sessions[id].touched
  {
    hide Run, AllTouched;
    RunKeepsInvariant(actions);
    var w := Run(actions);
    StepIsLocal(w, action);
    NoneTouched(w.sessions);
    if action.id in w.sessions {
      assert WorksOnOwn(w, w.sessions[action.id]);
    }
  }

  /** A stream nobody has online has no active group left in the store, unless finalizing it failed. */
  lemma OfflineStreamsAreFinalized(actions: seq<Action>, stream: Stream)
    requires stream !in Run(actions).online
    ensures stream in Run(actions).active ==> stream in Run(actions).leftActive
  {
    hide Run, AllTouched;
    RunKeepsInvariant(actions);
    NoneTouched(Run(actions).sessions);
  }

  /** Across all the sessions that ever owned a stream, its announcements appear in commit order and
      none is repeated. */
  lemma AnnouncementsFollowCommits(actions: seq<Action>, j: nat, k: nat)
    requires j < k < |Run(actions).announced| && Run(actions).announced[j].stream == Run(actions).announced[k].stream
    ensures Run(actions).announced[j].sequence < Run(actions).announced[k].sequence
  {
    hide Run;
    RunKeepsInvariant(actions);
  }

  /** A session committed this and has yet to announce it. */
  predicate Announcing(w: World, stream: Stream, sequence: nat) {
    exists id :: id in w.sessions && w.sessions[id].activity == Committed(stream, sequence)
  }

  /** What has become of a commit. */
  predicate Accounted(w: World, stream: Stream, sequence: nat) {
    || Announcement(stream, sequence) in w.announced
    || Announcing(w, stream, sequence)
    || Announcement(stream, sequence) in w.abandoned
  }

  ghost predicate AllAccounted(w: World) {
    forall stream: Stream, sequence: nat :: 1 <= sequence <= HighWater(w, stream) ==> Accounted(w, stream, sequence)
  }

  lemma StepAccounts(w: World, action: Action, stream: Stream, sequence: nat)
    requires 1 <= sequence <= HighWater(Step(w, action), stream)
    requires sequence <= HighWater(w, stream) ==> Accounted(w, stream, sequence)
    ensures Accounted(Step(w, action), stream, sequence)
  {
    var next := Step(w, action);
    if sequence > HighWater(w, stream) {
      assert next.sessions[action.id].activity == Committed(stream, sequence);
    } else if Announcing(w, stream, sequence) {
      var id :| id in w.sessions && w.sessions[id].activity == Committed(stream, sequence);
      if id in next.sessions && next.sessions[id] == w.sessions[id] {
        assert next.sessions[id].activity == Committed(stream, sequence);
      }
    }
  }

  lemma {:induction false} RunAccounts(actions: seq<Action>)
    ensures AllAccounted(Run(actions))
  {
    hide Step, Accounted;
    if actions != [] {
      var most, action := actions[..|actions| - 1], actions[|actions| - 1];
      RunAccounts(most);
      forall stream: Stream, sequence: nat | 1 <= sequence <= HighWater(Step(Run(most), action), stream)
        ensures Accounted(Step(Run(most), action), stream, sequence)
      {
        StepAccounts(Run(most), action, stream, sequence);
      }
    }
  }

  /** In every interleaving each object ever committed to a stream has been announced, or its session is about
      to announce it, or that session failed in between; and only committed objects are announced. */
  lemma EveryCommitIsAnnounced(actions: seq<Action>, stream: Stream, sequence: nat)
    ensures var w := Run(actions);
            && (1 <= sequence <= HighWater(w, stream) ==>
                  || Announcement(stream, sequence) in w.announced || Announcing(w, stream, sequence)
                  || Announcement(stream, sequence) in w.abandoned)
            && (Announcement(stream, sequence) in w.announced || Announcing(w, stream, sequence) ==>
                  sequence <= HighWater(w, stream))
  {
    hide Run, AllTouched;
    RunKeepsInvariant(actions);
    RunAccounts(actions);
    var w := Run(actions);
    if Announcing(w, stream, sequence) {
      var id :| id in w.sessions && w.sessions[id].activity == Committed(stream, sequence);
      assert WorksOnOwn(w, w.sessions[id]);
    }
    assert 1 <= sequence <= HighWater(w, stream) ==> Accounted(w, stream, sequence);
  }

  /** Only a session that fails holding a commit abandons one. */
  lemma AbandonedExactlyWhen(w: World, action: Action)
    ensures var next := Step(w, action);
            && w.abandoned <= next.abandoned
            && forall a :: a in next.abandoned && a !in w.abandoned ==>
                 && action.Fail? && action.id in w.sessions
                 && w.sessions[action.id].activity == Committed(a.stream, a.sequence)
  {
  }

  /** In every run a serving session's claim succeeds exactly when no other session owns the stream; then the
      session owns it, and otherwise the session ends and nothing changes hands. */
  lemma ClaimSucceedsExactlyWhen(actions: seq<Action>, id: nat, stream: Stream, forObject: bool)
    requires var w := Run(actions); id in w.sessions && w.sessions[id].activity == Serving
    ensures var w, next := Run(actions), Step(Run(actions), ClaimStream(id, stream, forObject));
            && id in next.sessions
            && (stream in next.sessions[id].touched
                <==> forall other :: other in w.sessions && other != id ==> stream !in w.sessions[other].touched)
            && (if stream in next.sessions[id].touched then
                  && next.sessions[id] == Session(w.sessions[id].touched + {stream},
                                                  if forObject then Claimed(stream) else Serving)
                  && next.online == w.online + {stream}
                else
                  && next.sessions[id] == Session(w.sessions[id].touched, Ending(w.sessions[id].touched))
                  && next.online == w.online)
  {
    hide Run;
    RunKeepsInvariant(actions);
    var w := Run(actions);
    NoneTouched(w.sessions);
    if stream in w.online {
      var owner :| owner in w.sessions && stream in w.sessions[owner].touched;
    }
  }

  /** A commit takes the next sequence and makes its stream active; a stream stops being active only when its
      owner finalizes it, and is left active only when that fails. */
  lemma ActivityFollowsCommits(w: World, action: Action, stream: Stream)
    ensures var next := Step(w, action);
            var commits := && action == StoreObject(action.id, Inserted) && action.id in w.sessions
                           && w.sessions[action.id].activity == Claimed(stream);
            var finalizes := && action.Finalize? && action.stream == stream && action.id in w.sessions
                             && w.sessions[action.id].activity.Ending?
                             && stream in w.sessions[action.id].activity.unfinalized;
            && HighWater(next, stream) == HighWater(w, stream) + (if commits then 1 else 0)
            && (stream in next.active
                <==> commits || (stream in w.active && !(finalizes && action.ok)))
            && (stream in next.leftActive
                <==> (finalizes && !action.ok) || (stream in w.leftActive && !commits && !finalizes))
            && (commits ==> next.sessions[action.id].activity == Committed(stream, HighWater(next, stream)))
  {
  }

  predicate Ends(next: World, id: nat, touched: set<Stream>) {
    id in next.sessions && next.sessions[id] == Session(touched, Ending(touched))
  }

  /** The life of a session: it starts with nothing, announces what it committed, goes on after a duplicate, ends
      with all its streams still to finalize when the store refuses an object or it fails, and is gone
      with its streams exactly when it has tried to finalize them all. */
  lemma SessionLives(w: World, id: nat)
    ensures id !in w.sessions ==> Step(w, Connect(id)) == w.(sessions := w.sessions[id := Session({}, Serving)])
    ensures id in w.sessions ==>
              var session, touched := w.sessions[id], w.sessions[id].touched;
              && (session.activity.Committed? ==>
                    var a := Announcement(session.activity.stream, session.activity.sequence);
                    Step(w, Announce(id))
                    == w.(sessions := w.sessions[id := Session(touched, Serving)], announced := w.announced + [a]))
              && (session.activity.Claimed? ==>
                    && Ends(Step(w, StoreObject(id, Refused)), id, touched)
                    && Step(w, StoreObject(id, Duplicate))
                       == w.(sessions := w.sessions[id := Session(touched, Serving)]))
              && (!session.activity.Ending? ==> Ends(Step(w, Fail(id)), id, touched))
              && (id !in Step(w, Release(id)).sessions <==> session.activity == Ending({}))
              && (session.activity == Ending({}) ==> Step(w, Release(id)).online == w.online - touched)
  {
  }
}
