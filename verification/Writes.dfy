/** Messages on a connection that takes a number of writes and then fails. */
module Writes {
  /** What gets through of a list of messages. */
  function Through<T>(messages: seq<T>, room: nat): (r: seq<T>)
    ensures r <= messages && (r == messages <==> |messages| <= room)
    ensures |messages| > room ==> |r| == room
  {
    if |messages| <= room then messages else messages[..room]
  }

  /** Once a part got through, the rest has what room is left. */
  lemma ThroughMore<T>(a: seq<T>, b: seq<T>, room: nat)
    requires |a| <= room
    ensures Through(a + b, room) == a + Through(b, room - |a|)
  {
  }

  /** A part that did not get through is all there is. */
  lemma ThroughNoMore<T>(a: seq<T>, whole: seq<T>, room: nat)
    requires |a| > room && a <= whole
    ensures Through(whole, room) == Through(a, room)
  {
  }
}
