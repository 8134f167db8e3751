/** Pruning and merging of the publisher's private history of group keys. */
module KeyHistory {
  import opened MachineInts
  import opened Wrappers
  import opened Ordering

  const MAX_KEY_HISTORY_BYTES := 16 * 1024 * 1024
  const MAX_GROUPS_LOADED := 65_536

  datatype Group = Group(
    streamId: nat, epochId: nat, keyGroupId: u64, keyId: nat, contentKey: nat, createdAtMs: i64, contentBytes: u64)

  datatype HistoryError = InvalidHistory | ExceedsFileBound

  // ---------------------------------------------------------------- pruning

  predicate Young(group: Group, nowMs: i64, maxAgeMs: i64) {
    SatSubI64(nowMs, group.createdAtMs) <= maxAgeMs
  }

  predicate AllYoung(groups: seq<Group>, nowMs: i64, maxAgeMs: i64) {
    forall i :: 0 <= i < |groups| ==> Young(groups[i], nowMs, maxAgeMs)
  }

  /** `Vec::retain` by age. */
  function RetainYoung(groups: seq<Group>, nowMs: i64, maxAgeMs: i64): (kept: seq<Group>)
    ensures AllYoung(kept, nowMs, maxAgeMs)
    ensures AllYoung(groups, nowMs, maxAgeMs) ==> kept == groups
    ensures forall group :: group in kept <==> group in groups && Young(group, nowMs, maxAgeMs)
  {
    if groups == [] then []
    else
      assert forall group :: group in groups <==> group == groups[0] || group in groups[1..];
      (if Young(groups[0], nowMs, maxAgeMs) then [groups[0]] else []) + RetainYoung(groups[1..], nowMs, maxAgeMs)
  }

  /** The saturating byte total of the groups from an index on. */
  function SuffixBytes(groups: seq<Group>, from: nat): u64
    requires from <= |groups|
    decreases |groups| - from
  {
    if from == |groups| then 0 else SatAddU64(SuffixBytes(groups, from + 1), groups[from].contentBytes)
  }

  /** Where the backward loop stops when everything from `k` on is already kept. */
  function KeepFrom(groups: seq<Group>, maxContentBytes: u64, k: nat): (keep: nat)
    requires k <= |groups|
    ensures keep <= k
  {
    if k == 0 || (SuffixBytes(groups, k - 1) > maxContentBytes && k < |groups|) then k
    else KeepFrom(groups, maxContentBytes, k - 1)
  }

  function Pruned(groups: seq<Group>, nowMs: i64, maxContentBytes: u64, maxAgeMs: i64): seq<Group> {
    var young := RetainYoung(groups, nowMs, maxAgeMs);
    young[KeepFrom(young, maxContentBytes, |young|)..]
  }

  class RetainedKeys {
    var groups: seq<Group>

    constructor (groups: seq<Group>)
      ensures this.groups == groups
    {
      this.groups := groups;
    }

    /** `prune_key_history`. */
    method Prune(nowMs: i64, maxContentBytes: u64, maxAgeMs: i64)
      modifies this
      ensures groups == Pruned(old(groups), nowMs, maxContentBytes, maxAgeMs)
    {
      groups := RetainYoung(groups, nowMs, maxAgeMs);
      ghost var young := groups;
      var retainedBytes: u64 := 0;
      var keepFrom := |groups|;
      var index := |groups|;
      while index > 0
        invariant 0 <= index == keepFrom <= |groups|
        invariant groups == young
        invariant retainedBytes == SuffixBytes(groups, keepFrom)
        invariant KeepFrom(groups, maxContentBytes, keepFrom) == KeepFrom(groups, maxContentBytes, |groups|)
      {
        index := index - 1;
        var next := SatAddU64(retainedBytes, groups[index].contentBytes);
        if next > maxContentBytes && keepFrom < |groups| {
          break;
        }
        retainedBytes := next;
        keepFrom := index;
      }
      if keepFrom > 0 {
        groups := groups[keepFrom..];
      }
    }
  }

  lemma {:induction false} SuffixBytesMonotone(groups: seq<Group>, i: nat, j: nat)
    requires i <= j <= |groups|
    ensures SuffixBytes(groups, j) <= SuffixBytes(groups, i)
    decreases j - i
  {
    if i < j {
      SuffixBytesMonotone(groups, i + 1, j);
    }
  }

  lemma {:induction false} KeepFromMeaning(groups: seq<Group>, maxContentBytes: u64, k: nat)
    requires k <= |groups|
    requires k < |groups| ==> SuffixBytes(groups, k) <= maxContentBytes || k == |groups| - 1
    ensures var keep := KeepFrom(groups, maxContentBytes, k);
            && (groups != [] ==> keep < |groups|)
            && (keep < |groups| ==> SuffixBytes(groups, keep) <= maxContentBytes || keep == |groups| - 1)
            && (0 < keep < |groups| ==> SuffixBytes(groups, keep - 1) > maxContentBytes)
  {
    if k > 0 && !(SuffixBytes(groups, k - 1) > maxContentBytes && k < |groups|) {
      KeepFromMeaning(groups, maxContentBytes, k - 1);
    }
  }

  // ---------------------------------------------------------------- pruning in plain numbers

  /** Not older than the limit, in plain integers; at the largest limit nothing is too old. */
  predicate WithinAge(group: Group, nowMs: int, maxAgeMs: i64) {
    nowMs - group.createdAtMs <= maxAgeMs || maxAgeMs == I64_MAX
  }

  /** The groups within the age limit, in order. */
  function OfAge(groups: seq<Group>, nowMs: int, maxAgeMs: i64): seq<Group> {
    if groups == [] then []
    else
      var most, last := groups[..|groups| - 1], groups[|groups| - 1];
      if WithinAge(last, nowMs, maxAgeMs) then OfAge(most, nowMs, maxAgeMs) + [last] else OfAge(most, nowMs, maxAgeMs)
  }

  function TotalBytes(groups: seq<Group>): nat {
    if groups == [] then 0 else TotalBytes(groups[..|groups| - 1]) + groups[|groups| - 1].contentBytes
  }

  /** The groups fit the byte limit; every total fits the largest one. */
  predicate Fit(groups: seq<Group>, maxContentBytes: u64) {
    TotalBytes(groups) <= maxContentBytes || maxContentBytes == U64_MAX
  }

  lemma YoungIsWithinAge(group: Group, nowMs: i64, maxAgeMs: i64)
    ensures Young(group, nowMs, maxAgeMs) <==> WithinAge(group, nowMs, maxAgeMs)
  {
  }

  lemma {:induction false} OfAgeConcat(a: seq<Group>, b: seq<Group>, nowMs: int, maxAgeMs: i64)
    ensures OfAge(a + b, nowMs, maxAgeMs) == OfAge(a, nowMs, maxAgeMs) + OfAge(b, nowMs, maxAgeMs)
  {
    hide WithinAge;
    if b == [] {
      assert a + b == a;
    } else {
      assert (a + b)[..|a + b| - 1] == a + b[..|b| - 1];
      OfAgeConcat(a, b[..|b| - 1], nowMs, maxAgeMs);
    }
  }

  lemma {:induction false} RetainYoungIsOfAge(groups: seq<Group>, nowMs: i64, maxAgeMs: i64)
    ensures RetainYoung(groups, nowMs, maxAgeMs) == OfAge(groups, nowMs, maxAgeMs)
  {
    hide Young, WithinAge;
    if groups != [] {
      RetainYoungIsOfAge(groups[1..], nowMs, maxAgeMs);
      YoungIsWithinAge(groups[0], nowMs, maxAgeMs);
      OfAgeConcat([groups[0]], groups[1..], nowMs, maxAgeMs);
      assert groups == [groups[0]] + groups[1..] && [groups[0]][..0] == [];
    }
  }

  lemma {:induction false} TotalOfConcat(a: seq<Group>, b: seq<Group>)
    ensures TotalBytes(a + b) == TotalBytes(a) + TotalBytes(b)
  {
    if b == [] {
      assert a + b == a;
    } else {
      assert (a + b)[..|a + b| - 1] == a + b[..|b| - 1];
      TotalOfConcat(a, b[..|b| - 1]);
    }
  }

  lemma {:induction false} SuffixBytesIsTotal(groups: seq<Group>, from: nat)
    requires from <= |groups|
    ensures SuffixBytes(groups, from)
            == if TotalBytes(groups[from..]) > U64_MAX then U64_MAX else TotalBytes(groups[from..])
    decreases |groups| - from
  {
    if from < |groups| {
      SuffixBytesIsTotal(groups, from + 1);
      assert groups[from..] == [groups[from]] + groups[from + 1..] && [groups[from]][..0] == [];
      TotalOfConcat([groups[from]], groups[from + 1..]);
    }
  }

  /** Pruning keeps a suffix of the groups within the age limit: the longest one whose bytes fit, or the newest
      of them alone when not even that one fits. */
  lemma PrunedIsLongestFittingSuffix(groups: seq<Group>, nowMs: i64, maxContentBytes: u64, maxAgeMs: i64)
    ensures var all, kept := OfAge(groups, nowMs, maxAgeMs), Pruned(groups, nowMs, maxContentBytes, maxAgeMs);
            var from := |all| - |kept|;
            && 0 <= from && kept == all[from..]
            && (all != [] ==> kept != [])
            && (Fit(kept, maxContentBytes) || |kept| == 1)
            && (forall i :: 0 <= i < from ==> !Fit(all[i..], maxContentBytes))
  {
    hide RetainYoung, KeepFrom, SuffixBytes, TotalBytes, OfAge;
    PrunedSuffix(groups, nowMs, maxContentBytes, maxAgeMs);
    RetainYoungIsOfAge(groups, nowMs, maxAgeMs);
    var all, kept := OfAge(groups, nowMs, maxAgeMs), Pruned(groups, nowMs, maxContentBytes, maxAgeMs);
    SuffixBytesIsTotal(all, |all| - |kept|);
    NoBytes();
    forall i | 0 <= i < |all| - |kept|
      ensures !Fit(all[i..], maxContentBytes)
    {
      SuffixBytesIsTotal(all, i);
    }
  }

  lemma NoBytes()
    ensures TotalBytes([]) == 0
  {
  }

  lemma PrunedSuffix(groups: seq<Group>, nowMs: i64, maxContentBytes: u64, maxAgeMs: i64)
    ensures var young, kept := RetainYoung(groups, nowMs, maxAgeMs), Pruned(groups, nowMs, maxContentBytes, maxAgeMs);
            var from := |young| - |kept|;
            && 0 <= from <= |young| && kept == young[from..]
            && (young != [] ==> kept != [])
            && (kept != [] ==> SuffixBytes(young, from) <= maxContentBytes || |kept| == 1)
            && (forall i :: 0 <= i < from ==> SuffixBytes(young, i) > maxContentBytes)
  {
    hide RetainYoung, KeepFrom, SuffixBytes, Young;
    var young := RetainYoung(groups, nowMs, maxAgeMs);
    var keep := KeepFrom(young, maxContentBytes, |young|);
    KeepFromMeaning(young, maxContentBytes, |young|);
    forall i: nat | i < keep
      ensures SuffixBytes(young, i) > maxContentBytes
    {
      SuffixBytesMonotone(young, i, keep - 1);
    }
  }

  lemma {:induction false} SuffixBytesOfSlice(groups: seq<Group>, k: nat, i: nat)
    requires k + i <= |groups|
    ensures SuffixBytes(groups[k..], i) == SuffixBytes(groups, k + i)
    decreases |groups| - i
  {
    if k + i < |groups| {
      SuffixBytesOfSlice(groups, k, i + 1);
    }
  }

  lemma {:induction false} KeepAllFitting(groups: seq<Group>, maxContentBytes: u64, k: nat)
    requires k <= |groups|
    requires SuffixBytes(groups, 0) <= maxContentBytes || |groups| <= 1
    ensures KeepFrom(groups, maxContentBytes, k) == 0
  {
    if k > 0 {
      SuffixBytesMonotone(groups, 0, k - 1);
      KeepAllFitting(groups, maxContentBytes, k - 1);
    }
  }

  lemma KeepAll(groups: seq<Group>, maxContentBytes: u64)
    requires groups != [] ==> SuffixBytes(groups, 0) <= maxContentBytes || |groups| == 1
    ensures KeepFrom(groups, maxContentBytes, |groups|) == 0
  {
    KeepAllFitting(groups, maxContentBytes, |groups|);
  }

  /** Pruning again at the same instant changes nothing. */
  lemma PruningIsIdempotent(groups: seq<Group>, nowMs: i64, maxContentBytes: u64, maxAgeMs: i64)
    ensures var kept := Pruned(groups, nowMs, maxContentBytes, maxAgeMs);
            Pruned(kept, nowMs, maxContentBytes, maxAgeMs) == kept
  {
    hide RetainYoung, KeepFrom, SuffixBytes, Young;
    var young, kept := RetainYoung(groups, nowMs, maxAgeMs), Pruned(groups, nowMs, maxContentBytes, maxAgeMs);
    PrunedSuffix(groups, nowMs, maxContentBytes, maxAgeMs);
    var from := |young| - |kept|;
    assert forall i :: 0 <= i < |kept| ==> kept[i] == young[from + i];
    assert AllYoung(kept, nowMs, maxAgeMs);
    if kept != [] {
      SuffixBytesOfSlice(young, from, 0);
    }
    KeepAll(kept, maxContentBytes);
  }

  // ---------------------------------------------------------------- the shared file

  function OfStream(groups: seq<Group>, streamId: nat): seq<Group> {
    if groups == [] then []
    else (if groups[0].streamId == streamId then [groups[0]] else []) + OfStream(groups[1..], streamId)
  }

  function OtherStreams(groups: seq<Group>, streamId: nat): seq<Group> {
    if groups == [] then []
    else (if groups[0].streamId != streamId then [groups[0]] else []) + OtherStreams(groups[1..], streamId)
  }

  /** The sort key: stream, creation time, epoch, group number. */
  function GroupRank(group: Group): Rank {
    Rank(group.streamId, group.createdAtMs, group.epochId, group.keyGroupId)
  }

  /** A saved history; a missing file reads as an empty one. */
  function Load(file: Option<seq<Group>>): Result<seq<Group>, HistoryError> {
    match file
    case None => Ok([])
    case Some(groups) => if |groups| > MAX_GROUPS_LOADED then Err(InvalidHistory) else Ok(groups)
  }

  function Save(groups: seq<Group>, encodedLen: seq<Group> -> nat): Result<seq<Group>, HistoryError> {
    if encodedLen(groups) > MAX_KEY_HISTORY_BYTES then Err(ExceedsFileBound) else Ok(groups)
  }

  /** `replace_stream_key_history` as a function of the file's contents. */
  function Replaced(file: Option<seq<Group>>, streamId: nat, streamGroups: seq<Group>, encodedLen: seq<Group> -> nat)
    : Result<seq<Group>, HistoryError>
  {
    match Load(file)
    case Err(error) => Err(error)
    case Ok(groups) => Save(SortBy(OtherStreams(groups, streamId) + streamGroups, GroupRank), encodedLen)
  }

  class HistoryFile {
    var contents: Option<seq<Group>>

    /** `replace_stream_key_history`: the file is replaced only when every step succeeds. */
    method ReplaceStream(streamId: nat, streamGroups: seq<Group>, encodedLen: seq<Group> -> nat)
      returns (r: Result<(), HistoryError>)
      modifies this
      ensures var spec := Replaced(old(contents), streamId, streamGroups, encodedLen);
              if spec.Ok? then r == Ok(()) && contents == Some(spec.value)
              else r == Err(spec.error) && contents == old(contents)
    {
      var loaded := Load(contents);
      if loaded.Err? {
        return Err(loaded.error);
      }
      var groups := OtherStreams(loaded.value, streamId);
      groups := groups + streamGroups;
      groups := SortBy(groups, GroupRank);
      var saved := Save(groups, encodedLen);
      if saved.Err? {
        return Err(saved.error);
      }
      contents := Some(saved.value);
      return Ok(());
    }
  }

  lemma {:induction false} StreamCounts(groups: seq<Group>, streamId: nat, group: Group)
    ensures multiset(OtherStreams(groups, streamId))[group]
            == if group.streamId != streamId then multiset(groups)[group] else 0
    ensures multiset(OfStream(groups, streamId))[group]
            == if group.streamId == streamId then multiset(groups)[group] else 0
  {
    if groups != [] {
      assert groups == [groups[0]] + groups[1..];
      StreamCounts(groups[1..], streamId, group);
    }
  }

  /** An update replaces exactly one stream's groups: every other stream keeps its groups as a
      multiset, the updated stream holds the given ones, and the file stays sorted. */
  lemma UpdateTouchesOneStream(
    file: Option<seq<Group>>, streamId: nat, streamGroups: seq<Group>, encodedLen: seq<Group> -> nat)
    requires Replaced(file, streamId, streamGroups, encodedLen).Ok?
    requires forall i :: 0 <= i < |streamGroups| ==> streamGroups[i].streamId == streamId
    ensures var before, after := Load(file).value, Replaced(file, streamId, streamGroups, encodedLen).value;
            && multiset(OtherStreams(after, streamId)) == multiset(OtherStreams(before, streamId))
            && multiset(OfStream(after, streamId)) == multiset(streamGroups)
            && Ordered(after, GroupRank)
  {
    hide OtherStreams, OfStream, SortBy, Ordered;
    var before, after := Load(file).value, Replaced(file, streamId, streamGroups, encodedLen).value;
    var others := OtherStreams(before, streamId);
    SortByOrders(others + streamGroups, GroupRank);
    assert multiset(after) == multiset(others) + multiset(streamGroups);
    forall group: Group
      ensures multiset(OtherStreams(after, streamId))[group] == multiset(others)[group]
      ensures multiset(OfStream(after, streamId))[group] == multiset(streamGroups)[group]
    {
      StreamCounts(before, streamId, group);
      StreamCounts(after, streamId, group);
      if group.streamId != streamId {
        assert group !in streamGroups;
      }
    }
  }

  // ---------------------------------------------------------------- saving and loading

  lemma {:induction false} StreamSizes(groups: seq<Group>, streamId: nat)
    ensures |OtherStreams(groups, streamId)| + |OfStream(groups, streamId)| == |groups|
  {
    if groups != [] {
      StreamSizes(groups[1..], streamId);
    }
  }

  /** An update succeeds exactly when the file loads and the encoding of the other streams' groups with the new
      ones fits 16 MiB; it says which of the two failed. */
  lemma UpdateSucceedsExactlyWhen(
    file: Option<seq<Group>>, streamId: nat, streamGroups: seq<Group>, encodedLen: seq<Group> -> nat)
    ensures var loads := file.None? || |file.value| <= 65_536;
            var others := OtherStreams(if file.None? then [] else file.value, streamId);
            var result := Replaced(file, streamId, streamGroups, encodedLen);
            && (result.Ok? <==> loads && encodedLen(SortBy(others + streamGroups, GroupRank)) <= 16 * 1024 * 1024)
            && (result == Err(InvalidHistory) <==> !loads)
  {
    hide SortBy, OtherStreams;
  }

  /** A successful update leaves a file that loads again if and only if the other streams' groups and
      the new ones together number at most 65,536: a caller can count them, saving does not. */
  lemma UpdateLoadsExactlyWhen(
    file: Option<seq<Group>>, streamId: nat, streamGroups: seq<Group>, encodedLen: seq<Group> -> nat)
    requires Replaced(file, streamId, streamGroups, encodedLen).Ok?
    ensures Load(Some(Replaced(file, streamId, streamGroups, encodedLen).value)).Ok?
            <==> |OtherStreams(Load(file).value, streamId)| + |streamGroups| <= MAX_GROUPS_LOADED
  {
    hide SortBy, OtherStreams;
    var all := OtherStreams(Load(file).value, streamId) + streamGroups;
    SortByOrders(all, GroupRank);
    assert |multiset(SortBy(all, GroupRank))| == |multiset(all)|;
  }

  /** One update of one stream, with the encoding's size function at that time. */
  datatype Update = Update(streamId: nat, streamGroups: seq<Group>, encodedLen: seq<Group> -> nat)

  /** The file after a sequence of updates; a failed one leaves it as it is. */
  function AfterUpdates(file: Option<seq<Group>>, updates: seq<Update>): Option<seq<Group>> {
    if updates == [] then file
    else
      var before, update := AfterUpdates(file, updates[..|updates| - 1]), updates[|updates| - 1];
      var next := Replaced(before, update.streamId, update.streamGroups, update.encodedLen);
      if next.Ok? then Some(next.value) else before
  }

  lemma OneMoreUpdate(file: Option<seq<Group>>, updates: seq<Update>, update: Update)
    ensures var before := AfterUpdates(file, updates);
            var next := Replaced(before, update.streamId, update.streamGroups, update.encodedLen);
            AfterUpdates(file, updates + [update]) == if next.Ok? then Some(next.value) else before
  {
    assert (updates + [update])[..|updates|] == updates;
  }

  /** An oversized file is stuck: no sequence of updates of any streams, pruned to nothing or not, ever
      changes it, and loading it keeps failing. */
  lemma {:induction false} OversizedHistoryIsStuck(groups: seq<Group>, updates: seq<Update>)
    requires |groups| > MAX_GROUPS_LOADED
    ensures AfterUpdates(Some(groups), updates) == Some(groups) && Load(AfterUpdates(Some(groups), updates)).Err?
  {
    if updates != [] {
      OversizedHistoryIsStuck(groups, updates[..|updates| - 1]);
    }
  }

  /** No encoded group takes more than 255 bytes: three 16-byte values, a 32-byte key and at most four
      integers of at most ten bytes, with some to spare; the header takes at most 32. */
  ghost predicate PlausibleEncoding(encodedLen: seq<Group> -> nat) {
    forall groups :: encodedLen(groups) <= 32 + 255 * |groups|
  }

  function SampleGroups(streamId: nat, count: nat): (r: seq<Group>)
    ensures |r| == count && forall i :: 0 <= i < |r| ==> r[i].streamId == streamId
  {
    seq(count, i => Group(streamId, 1, 1, 1, 1, 0, 1))
  }

  lemma {:induction false} NoneOfStream(groups: seq<Group>, streamId: nat)
    requires forall i :: 0 <= i < |groups| ==> groups[i].streamId != streamId
    ensures OtherStreams(groups, streamId) == groups
  {
    if groups != [] {
      NoneOfStream(groups[1..], streamId);
      assert groups == [groups[0]] + groups[1..];
    }
  }

  /** Two streams, one after the other, each writing a loadable half and one group more. */
  function HalfUpdates(encodedLen: seq<Group> -> nat): (r: seq<Update>)
    ensures |r| == 2
  {
    var half := MAX_GROUPS_LOADED / 2 + 1;
    [Update(1, SampleGroups(1, half), encodedLen), Update(2, SampleGroups(2, half), encodedLen)]
  }

  /** Whatever the encoding's sizes, two streams that each keep a loadable number of groups write, update
      by update, a file that can never be loaded again. */
  lemma SavedButUnloadable(encodedLen: seq<Group> -> nat)
    requires PlausibleEncoding(encodedLen)
    ensures Load(AfterUpdates(None, HalfUpdates(encodedLen)[..1])).Ok?
    ensures Load(AfterUpdates(None, HalfUpdates(encodedLen))) == Err(InvalidHistory)
  {
    hide SortBy, OtherStreams, SampleGroups, Replaced;
    var half := MAX_GROUPS_LOADED / 2 + 1;
    var one, two := SampleGroups(1, half), SampleGroups(2, half);
    var updates := HalfUpdates(encodedLen);
    assert updates[..1] == [] + [updates[0]] && updates == updates[..1] + [updates[1]];
    OneMoreUpdate(None, [], updates[0]);
    OneMoreUpdate(None, updates[..1], updates[1]);
    FileAfter(None, 1, one, [], encodedLen);
    assert [] + one == one;
    var first := AfterUpdates(None, updates[..1]);
    assert first == Some(SortBy(one, GroupRank));
    SortedStream(one, 1);
    FileAfter(first, 2, two, first.value, encodedLen);
    SortedSize(first.value + two);
  }

  /** A plausible update that fits writes its groups behind the others and sorts. */
  lemma FileAfter(
    file: Option<seq<Group>>, streamId: nat, streamGroups: seq<Group>, others: seq<Group>,
    encodedLen: seq<Group> -> nat)
    requires PlausibleEncoding(encodedLen) && Load(file) == Ok(others)
    requires forall i :: 0 <= i < |others| ==> others[i].streamId != streamId
    requires 32 + 255 * (|others| + |streamGroups|) <= MAX_KEY_HISTORY_BYTES
    ensures Replaced(file, streamId, streamGroups, encodedLen) == Ok(SortBy(others + streamGroups, GroupRank))
  {
    hide SortBy;
    NoneOfStream(others, streamId);
    SortedSize(others + streamGroups);
  }

  lemma SortedSize(groups: seq<Group>)
    ensures |SortBy(groups, GroupRank)| == |groups|
  {
    hide SortBy;
    SortByOrders(groups, GroupRank);
    assert |multiset(SortBy(groups, GroupRank))| == |multiset(groups)|;
  }

  lemma SortedStream(groups: seq<Group>, streamId: nat)
    requires forall i :: 0 <= i < |groups| ==> groups[i].streamId == streamId
    ensures var sorted := SortBy(groups, GroupRank);
            |sorted| == |groups| && forall i :: 0 <= i < |sorted| ==> sorted[i].streamId == streamId
  {
    hide SortBy;
    SortedSize(groups);
    var sorted := SortBy(groups, GroupRank);
    forall i | 0 <= i < |sorted|
      ensures sorted[i].streamId == streamId
    {
      SortMembers(groups, GroupRank, sorted[i]);
      assert sorted[i] in sorted;
    }
  }
}
