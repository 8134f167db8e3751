/** Ranked lists: the stable sort and the binary search the publisher's saved files rely on. */
module Ordering {

  /** What lists are ordered by: up to four numbers, the first that differs deciding. */
  datatype Rank = Rank(first: int, second: int, third: int, fourth: int)

  predicate Below(a: Rank, b: Rank) {
    if a.first != b.first then a.first < b.first
    else if a.second != b.second then a.second < b.second
    else if a.third != b.third then a.third < b.third
    else a.fourth < b.fourth
  }

  /** The rank of one number, and of a pair. */
  function Single(n: int): Rank {
    Rank(n, 0, 0, 0)
  }

  function Pair(major: int, minor: int): Rank {
    Rank(major, minor, 0, 0)
  }

  predicate Ordered<T>(s: seq<T>, rank: T -> Rank) {
    forall i, j :: 0 <= i < j < |s| ==> !Below(rank(s[j]), rank(s[i]))
  }

  /** In strictly rising order, so without repeats. */
  predicate StrictlyOrdered<T>(s: seq<T>, rank: T -> Rank) {
    forall i, j :: 0 <= i < j < |s| ==> Below(rank(s[i]), rank(s[j]))
  }

  /** Put `x` behind everything that does not rank above it. */
  function Insert<T>(s: seq<T>, x: T, rank: T -> Rank): seq<T> {
    if s == [] || !Below(rank(x), rank(s[|s| - 1])) then s + [x]
    else Insert(s[..|s| - 1], x, rank) + [s[|s| - 1]]
  }

  /** A stable sort. */
  function SortBy<T>(s: seq<T>, rank: T -> Rank): seq<T> {
    if s == [] then [] else Insert(SortBy(s[..|s| - 1], rank), s[|s| - 1], rank)
  }

  lemma {:induction false} InsertKeeps<T>(s: seq<T>, x: T, rank: T -> Rank)
    ensures |Insert(s, x, rank)| == |s| + 1
    ensures multiset(Insert(s, x, rank)) == multiset(s) + multiset{x}
  {
    if s != [] && Below(rank(x), rank(s[|s| - 1])) {
      InsertKeeps(s[..|s| - 1], x, rank);
      assert s == s[..|s| - 1] + [s[|s| - 1]];
    }
  }

  lemma InsertMembers<T>(s: seq<T>, x: T, rank: T -> Rank, y: T)
    ensures y in Insert(s, x, rank) <==> y in s || y == x
  {
    InsertKeeps(s, x, rank);
    assert y in multiset(Insert(s, x, rank)) <==> y in multiset(s) + multiset{x};
  }

  lemma OrderedSplit<T>(s: seq<T>, rank: T -> Rank)
    requires s != [] && Ordered(s, rank)
    ensures Ordered(s[..|s| - 1], rank)
    ensures forall y :: y in s[..|s| - 1] ==> !Below(rank(s[|s| - 1]), rank(y))
  {
    var most := s[..|s| - 1];
    assert forall i :: 0 <= i < |most| ==> most[i] == s[i];
  }

  lemma OrderedAppend<T>(s: seq<T>, last: T, rank: T -> Rank)
    requires Ordered(s, rank) && forall y :: y in s ==> !Below(rank(last), rank(y))
    ensures Ordered(s + [last], rank)
  {
    assert forall i :: 0 <= i < |s| ==> s[i] in s;
  }

  lemma StrictSplit<T>(s: seq<T>, rank: T -> Rank)
    requires s != [] && StrictlyOrdered(s, rank)
    ensures StrictlyOrdered(s[..|s| - 1], rank)
    ensures forall y :: y in s[..|s| - 1] ==> Below(rank(y), rank(s[|s| - 1]))
  {
    var most := s[..|s| - 1];
    assert forall i :: 0 <= i < |most| ==> most[i] == s[i];
  }

  lemma StrictAppend<T>(s: seq<T>, last: T, rank: T -> Rank)
    requires StrictlyOrdered(s, rank) && forall y :: y in s ==> Below(rank(y), rank(last))
    ensures StrictlyOrdered(s + [last], rank)
  {
    assert forall i :: 0 <= i < |s| ==> s[i] in s;
  }

  lemma {:induction false} InsertOrders<T>(s: seq<T>, x: T, rank: T -> Rank)
    requires Ordered(s, rank)
    ensures Ordered(Insert(s, x, rank), rank)
  {
    hide Ordered;
    if s == [] {
      assert s + [x] == [x];
      OrderedAppend(s, x, rank);
    } else {
      var most, last := s[..|s| - 1], s[|s| - 1];
      assert s == most + [last];
      OrderedSplit(s, rank);
      if Below(rank(x), rank(last)) {
        InsertOrders(most, x, rank);
        forall y | y in Insert(most, x, rank)
          ensures !Below(rank(last), rank(y))
        {
          InsertMembers(most, x, rank, y);
        }
        OrderedAppend(Insert(most, x, rank), last, rank);
      } else {
        OrderedAppend(s, x, rank);
      }
    }
  }

  lemma {:induction false} InsertOrdersStrictly<T>(s: seq<T>, x: T, rank: T -> Rank)
    requires StrictlyOrdered(s, rank) && forall y :: y in s ==> rank(y) != rank(x)
    ensures StrictlyOrdered(Insert(s, x, rank), rank)
  {
    hide StrictlyOrdered;
    if s == [] {
      StrictAppend(s, x, rank);
    } else {
      var most, last := s[..|s| - 1], s[|s| - 1];
      assert s == most + [last];
      StrictSplit(s, rank);
      if Below(rank(x), rank(last)) {
        InsertOrdersStrictly(most, x, rank);
        forall y | y in Insert(most, x, rank)
          ensures Below(rank(y), rank(last))
        {
          InsertMembers(most, x, rank, y);
        }
        StrictAppend(Insert(most, x, rank), last, rank);
      } else {
        assert last in s;
        StrictAppend(s, x, rank);
      }
    }
  }

  lemma NothingIsOrdered<T>(rank: T -> Rank)
    ensures Ordered([], rank)
  {
  }

  /** The sort returns an ordered list of the same elements. */
  lemma {:induction false} SortByOrders<T>(s: seq<T>, rank: T -> Rank)
    ensures Ordered(SortBy(s, rank), rank)
    ensures multiset(SortBy(s, rank)) == multiset(s)
  {
    hide Below, Ordered;
    if s == [] {
      NothingIsOrdered(rank);
    } else {
      var most, last := s[..|s| - 1], s[|s| - 1];
      SortByOrders(most, rank);
      InsertOrders(SortBy(most, rank), last, rank);
      InsertKeeps(SortBy(most, rank), last, rank);
      assert s == most + [last];
    }
  }

  lemma SortMembers<T>(s: seq<T>, rank: T -> Rank, y: T)
    ensures y in SortBy(s, rank) <==> y in s
  {
    SortByOrders(s, rank);
    assert y in multiset(SortBy(s, rank)) <==> y in multiset(s);
  }

  /** Sorting an ordered list changes nothing, so appending to one and sorting is an insertion. */
  lemma {:induction false} SortOfOrdered<T>(s: seq<T>, x: T, rank: T -> Rank)
    requires Ordered(s, rank)
    ensures SortBy(s, rank) == s
    ensures SortBy(s + [x], rank) == Insert(s, x, rank)
  {
    if s != [] {
      hide Ordered;
      var most, last := s[..|s| - 1], s[|s| - 1];
      assert s == most + [last];
      OrderedSplit(s, rank);
      SortOfOrdered(most, last, rank);
      InsertLast(most, last, rank);
    }
    SortOfPushed(s, x, rank);
  }

  lemma InsertLast<T>(s: seq<T>, x: T, rank: T -> Rank)
    requires forall y :: y in s ==> !Below(rank(x), rank(y))
    ensures Insert(s, x, rank) == s + [x]
  {
    assert s != [] ==> s[|s| - 1] in s;
  }

  lemma SortOfPushed<T>(s: seq<T>, x: T, rank: T -> Rank)
    ensures SortBy(s + [x], rank) == Insert(SortBy(s, rank), x, rank)
  {
    assert (s + [x])[..|s|] == s;
  }

  lemma StrictIsOrdered<T>(s: seq<T>, rank: T -> Rank)
    requires StrictlyOrdered(s, rank)
    ensures Ordered(s, rank)
  {
  }

  /** Appending an element of a new rank and sorting keeps strict order and adds exactly it. */
  lemma PushAndSort<T>(s: seq<T>, x: T, rank: T -> Rank)
    requires StrictlyOrdered(s, rank) && forall y :: y in s ==> rank(y) != rank(x)
    ensures var sorted := SortBy(s + [x], rank);
            && StrictlyOrdered(sorted, rank)
            && |sorted| == |s| + 1
            && (forall y :: y in sorted <==> y in s || y == x)
  {
    StrictIsOrdered(s, rank);
    SortOfOrdered(s, x, rank);
    InsertOrdersStrictly(s, x, rank);
    InsertKeeps(s, x, rank);
    forall y
      ensures y in SortBy(s + [x], rank) <==> y in s || y == x
    {
      InsertMembers(s, x, rank, y);
    }
  }

  /** What `Vec::retain` and `Vec::remove` leave of a strictly ordered list is strictly ordered. */
  function Retain<T>(s: seq<T>, keep: T -> bool): (r: seq<T>) {
    if s == [] then []
    else Retain(s[..|s| - 1], keep) + (if keep(s[|s| - 1]) then [s[|s| - 1]] else [])
  }

  lemma {:induction false} RetainMembers<T>(s: seq<T>, keep: T -> bool, y: T)
    ensures y in Retain(s, keep) <==> y in s && keep(y)
  {
    if s != [] {
      RetainMembers(s[..|s| - 1], keep, y);
      assert s == s[..|s| - 1] + [s[|s| - 1]];
    }
  }

  lemma {:induction false} RetainOrders<T>(s: seq<T>, keep: T -> bool, rank: T -> Rank)
    requires StrictlyOrdered(s, rank)
    ensures StrictlyOrdered(Retain(s, keep), rank)
  {
    hide StrictlyOrdered;
    if s == [] {
      assert Retain(s, keep) == s;
    } else {
      var most, last := s[..|s| - 1], s[|s| - 1];
      assert s == most + [last];
      StrictSplit(s, rank);
      RetainOrders(most, keep, rank);
      forall y | y in Retain(most, keep)
        ensures Below(rank(y), rank(last))
      {
        RetainMembers(most, keep, y);
      }
      StrictAppend(Retain(most, keep), last, rank);
      assert !keep(last) ==> Retain(s, keep) == Retain(most, keep) + [] == Retain(most, keep);
    }
  }

  function RemoveAt<T>(s: seq<T>, k: nat): seq<T>
    requires k < |s|
  {
    s[..k] + s[k + 1..]
  }

  lemma RemoveAtOrders<T>(s: seq<T>, k: nat, rank: T -> Rank)
    requires k < |s| && StrictlyOrdered(s, rank)
    ensures StrictlyOrdered(RemoveAt(s, k), rank)
    ensures forall y :: y in RemoveAt(s, k) <==> y in s && y != s[k]
  {
    var r := RemoveAt(s, k);
    assert forall i :: 0 <= i < |r| ==> r[i] == s[if i < k then i else i + 1];
    forall y | y in s && y != s[k]
      ensures y in r
    {
      var i :| 0 <= i < |s| && s[i] == y;
      assert r[if i < k then i else i - 1] == y;
    }
    assert forall i :: 0 <= i < |r| ==> rank(r[i]) != rank(s[k]);
  }

  /** The search narrows a range around the target. */
  function Found(s: seq<Rank>, target: Rank, low: nat, high: nat): bool
    requires low <= high <= |s|
    decreases high - low
  {
    if low == high then false
    else
      var middle := low + (high - low) / 2;
      if s[middle] == target then true
      else if Below(s[middle], target) then Found(s, target, middle + 1, high)
      else Found(s, target, low, middle)
  }

  method BinarySearch(s: seq<Rank>, target: Rank) returns (found: bool)
    ensures found == Found(s, target, 0, |s|)
  {
    var low, high := 0, |s|;
    while low < high
      invariant 0 <= low <= high <= |s|
      invariant Found(s, target, 0, |s|) == Found(s, target, low, high)
    {
      var middle := low + (high - low) / 2;
      if s[middle] == target {
        return true;
      } else if Below(s[middle], target) {
        low := middle + 1;
      } else {
        high := middle;
      }
    }
    return false;
  }

  /** On a strictly ordered list the search is membership. */
  lemma {:induction false} SearchIsMembership(s: seq<Rank>, target: Rank, low: nat, high: nat)
    requires low <= high <= |s| && forall i, j :: 0 <= i < j < |s| ==> Below(s[i], s[j])
    ensures Found(s, target, low, high) <==> exists k :: low <= k < high && s[k] == target
    decreases high - low
  {
    hide Below;
    if low < high {
      var middle := low + (high - low) / 2;
      Asymmetric(s[middle], target);
      assert forall k :: low <= k < middle ==> Below(s[k], s[middle]);
      assert forall k :: middle < k < high ==> Below(s[middle], s[k]);
      if Below(s[middle], target) {
        SearchIsMembership(s, target, middle + 1, high);
      } else if s[middle] != target {
        SearchIsMembership(s, target, low, middle);
      }
    }
  }

  lemma Asymmetric(a: Rank, b: Rank)
    ensures !(Below(a, b) && Below(b, a))
  {
  }

  /** What the search finds is there, in any list. */
  lemma {:induction false} FoundIsThere(s: seq<Rank>, target: Rank, low: nat, high: nat)
    requires low <= high <= |s| && Found(s, target, low, high)
    ensures exists k :: low <= k < high && s[k] == target
    decreases high - low
  {
    var middle := low + (high - low) / 2;
    if s[middle] != target {
      if Below(s[middle], target) {
        FoundIsThere(s, target, middle + 1, high);
      } else {
        FoundIsThere(s, target, low, middle);
      }
    }
  }

  predicate Distinct(s: seq<Rank>) {
    forall i, j :: 0 <= i < j < |s| ==> s[i] != s[j]
  }

  /** In a list without repeats, finding an element means taking the turn towards it. */
  lemma TurnsTowards(s: seq<Rank>, low: nat, high: nat, k: nat)
    requires low <= k < high <= |s| && Distinct(s) && Found(s, s[k], low, high)
    ensures var middle := low + (high - low) / 2;
            && (k < middle ==> Below(s[k], s[middle]) && Found(s, s[k], low, middle))
            && (k > middle ==> Below(s[middle], s[k]) && Found(s, s[k], middle + 1, high))
  {
    hide Below;
    var middle := low + (high - low) / 2;
    if k != middle {
      Total(s[k], s[middle]);
      if Below(s[middle], s[k]) {
        FoundIsThere(s, s[k], middle + 1, high);
      } else {
        FoundIsThere(s, s[k], low, middle);
      }
    }
  }

  lemma Total(a: Rank, b: Rank)
    ensures a == b || Below(a, b) || Below(b, a)
  {
  }

  lemma BelowChains(a: Rank, b: Rank, c: Rank)
    requires Below(a, b) && Below(b, c)
    ensures Below(a, c)
  {
  }

  /** A list without repeats in which the search finds every element is in order. */
  lemma {:induction false} FindingAllMeansOrdered(s: seq<Rank>, low: nat, high: nat, i: nat, j: nat)
    requires low <= i < j < high <= |s| && Distinct(s)
    requires forall k :: low <= k < high ==> Found(s, s[k], low, high)
    ensures Below(s[i], s[j])
    decreases high - low
  {
    hide Below, Found;
    var middle := low + (high - low) / 2;
    forall k | low <= k < high
      ensures k < middle ==> Below(s[k], s[middle]) && Found(s, s[k], low, middle)
      ensures k > middle ==> Below(s[middle], s[k]) && Found(s, s[k], middle + 1, high)
    {
      TurnsTowards(s, low, high, k);
    }
    if j < middle {
      FindingAllMeansOrdered(s, low, middle, i, j);
    } else if i > middle {
      FindingAllMeansOrdered(s, middle + 1, high, i, j);
    } else if i < middle < j {
      BelowChains(s[i], s[middle], s[j]);
    }
  }

  /** For a list without repeats the search is membership if and only if the list is in order. */
  lemma SearchIsMembershipExactlyWhenOrdered(s: seq<Rank>)
    requires Distinct(s)
    ensures (forall target :: Found(s, target, 0, |s|) <==> target in s)
            <==> forall i, j :: 0 <= i < j < |s| ==> Below(s[i], s[j])
  {
    hide Below, Found;
    if forall i, j :: 0 <= i < j < |s| ==> Below(s[i], s[j]) {
      forall target
        ensures Found(s, target, 0, |s|) <==> target in s
      {
        SearchIsMembership(s, target, 0, |s|);
      }
    }
    if forall target :: Found(s, target, 0, |s|) <==> target in s {
      forall i, j | 0 <= i < j < |s|
        ensures Below(s[i], s[j])
      {
        FindingAllMeansOrdered(s, 0, |s|, i, j);
      }
    }
  }
}
