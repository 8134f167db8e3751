/** The two H.264 Annex B scanners and the parameter-set round trip between them.

    The publisher's encoder splits an access unit into NAL units while skipping over
    start codes; the sealing code scans every byte offset for an IDR. Publication works
    only if both see the same IDR units.
  */
module AnnexB {
  import opened MachineInts
  import opened Wrappers

  type Bytes = seq<byte>

  /** A three-byte start code, section B.1 of ITU-T H.264. */
  predicate Code3(s: Bytes, p: nat) {
    p + 3 <= |s| && s[p] == 0 && s[p + 1] == 0 && s[p + 2] == 1
  }

  /** A four-byte start code. */
  predicate Code4(s: Bytes, p: nat) {
    p + 4 <= |s| && s[p] == 0 && s[p + 1] == 0 && s[p + 2] == 0 && s[p + 3] == 1
  }

  /** `nal_unit_type`, Table 7-1 of ITU-T H.264: the low five bits of the header byte. */
  function NalType(header: byte): nat {
    header % 32
  }

  const NAL_IDR := 5
  const NAL_SPS := 7
  const NAL_PPS := 8

  /** An offset at which sealing would see an IDR header behind a start code. */
  predicate IdrAt(s: Bytes, p: nat) {
    Code3(s, p) && p + 3 < |s| && NalType(s[p + 3]) == NAL_IDR
  }

  ghost predicate CarriesIdr(s: Bytes) {
    exists p: nat :: IdrAt(s, p)
  }

  predicate StartsAnnexB(s: Bytes) {
    Code3(s, 0) || Code4(s, 0)
  }

  /** The byte-by-byte scan sealing and opening use. */
  method ContainsH264Idr(s: Bytes) returns (found: bool)
    ensures found <==> CarriesIdr(s)
  {
    var offset := 0;
    while offset + 4 <= |s|
      invariant 0 <= offset <= |s|
      invariant forall p: nat :: p < offset ==> !IdrAt(s, p)
    {
      var nalOffset := if Code4(s, offset) then Some(offset + 4)
                       else if Code3(s, offset) then Some(offset + 3)
                       else None;
      if nalOffset.Some? && nalOffset.value < |s| && NalType(s[nalOffset.value]) == NAL_IDR {
        assert IdrAt(s, nalOffset.value - 3);
        return true;
      }
      offset := offset + 1;
    }
    return false;
  }

  // ---------------------------------------------------------------- the splitter

  datatype StartCode = StartCode(offset: nat, prefix: nat)

  /** Start codes found by the skipping cursor. */
  function Starts(s: Bytes, cursor: nat): (starts: seq<StartCode>)
    requires cursor <= |s|
    ensures forall i :: 0 <= i < |starts| ==>
                          cursor <= starts[i].offset && starts[i].offset + starts[i].prefix <= |s|
    decreases |s| - cursor
  {
    if cursor + 3 > |s| then []
    else if Code3(s, cursor) then [StartCode(cursor, 3)] + Starts(s, cursor + 3)
    else if Code4(s, cursor) then [StartCode(cursor, 4)] + Starts(s, cursor + 4)
    else Starts(s, cursor + 1)
  }

  predicate StartsFit(s: Bytes, starts: seq<StartCode>) {
    forall i :: 0 <= i < |starts| ==> starts[i].offset + starts[i].prefix <= |s|
  }

  /** The nonempty stretches between consecutive start codes. */
  function Slices(s: Bytes, starts: seq<StartCode>): seq<Bytes>
    requires StartsFit(s, starts)
  {
    if starts == [] then []
    else
      var begin := starts[0].offset + starts[0].prefix;
      var end := if |starts| > 1 then starts[1].offset else |s|;
      (if begin < end then [s[begin..end]] else []) + Slices(s, starts[1..])
  }

  function Split(s: Bytes): seq<Bytes> {
    Slices(s, Starts(s, 0))
  }

  /** The cursor loop of `annex_b_nals`. */
  method CollectStarts(accessUnit: Bytes) returns (starts: seq<StartCode>)
    ensures starts == Starts(accessUnit, 0)
  {
    starts := [];
    var cursor := 0;
    while cursor + 3 <= |accessUnit|
      invariant 0 <= cursor <= |accessUnit|
      invariant starts + Starts(accessUnit, cursor) == Starts(accessUnit, 0)
      decreases |accessUnit| - cursor
    {
      if Code3(accessUnit, cursor) {
        starts := starts + [StartCode(cursor, 3)];
        cursor := cursor + 3;
      } else if Code4(accessUnit, cursor) {
        starts := starts + [StartCode(cursor, 4)];
        cursor := cursor + 4;
      } else {
        cursor := cursor + 1;
      }
    }
  }

  /** Where the unit behind the start code numbered `index` begins and ends. */
  function BoundsAt(s: Bytes, starts: seq<StartCode>, index: nat): (nat, nat)
    requires index < |starts|
  {
    (starts[index].offset + starts[index].prefix,
     if index + 1 < |starts| then starts[index + 1].offset else |s|)
  }

  lemma CutStep(s: Bytes, starts: seq<StartCode>, index: nat, cut: seq<Bytes>)
    requires StartsFit(s, starts) && index < |starts|
    ensures var (begin, end) := BoundsAt(s, starts, index);
            cut + Slices(s, starts[index..])
            == (if begin < end then cut + [s[begin..end]] else cut) + Slices(s, starts[index + 1..])
  {
    assert starts[index..][1..] == starts[index + 1..];
  }

  /** `annex_b_nals`: collect start codes, then cut between them. */
  method AnnexBNals(accessUnit: Bytes) returns (nals: seq<Bytes>)
    ensures nals == Split(accessUnit)
  {
    var starts := CollectStarts(accessUnit);
    assert starts[0..] == starts;
    nals := [];
    for index := 0 to |starts|
      invariant nals + Slices(accessUnit, starts[index..]) == Split(accessUnit)
    {
      var (begin, end) := BoundsAt(accessUnit, starts, index);
      CutStep(accessUnit, starts, index, nals);
      if begin < end {
        nals := nals + [accessUnit[begin..end]];
      }
    }
  }

  // ---------------------------------------------------------------- reference definition

  /** Offset of the first start code at or after `c`, or the length when there is none. */
  function NextCode(s: Bytes, c: nat): (q: nat)
    requires c <= |s|
    ensures c <= q <= |s|
    ensures q < |s| ==> Code3(s, q) || Code4(s, q)
    decreases |s| - c
  {
    if c == |s| || Code3(s, c) || Code4(s, c) then c else NextCode(s, c + 1)
  }

  lemma {:induction false} NothingBeforeNextCode(s: Bytes, c: nat, p: nat)
    requires c <= |s| && c <= p < NextCode(s, c)
    ensures !Code3(s, p) && !Code4(s, p)
    decreases |s| - c
  {
    if c < p {
      NothingBeforeNextCode(s, c + 1, p);
    }
  }

  lemma {:induction false} NextCodeIs(s: Bytes, c: nat, q: nat)
    requires c <= q <= |s|
    requires forall p: nat :: c <= p < q ==> !Code3(s, p) && !Code4(s, p)
    requires q < |s| ==> Code3(s, q) || Code4(s, q)
    ensures NextCode(s, c) == q
    decreases q - c
  {
    if c < q {
      NextCodeIs(s, c + 1, q);
    }
  }

  function PrefixAt(s: Bytes, p: nat): nat {
    if Code3(s, p) then 3 else 4
  }

  /** The unit between two offsets, dropped when empty. */
  function Unit(s: Bytes, begin: nat, end: nat): seq<Bytes>
    requires begin <= end <= |s|
  {
    if begin < end then [s[begin..end]] else []
  }

  /** Annex B read as text: find a start code, take everything up to the next one, go on. */
  function ReferenceSplit(s: Bytes, c: nat): seq<Bytes>
    requires c <= |s|
    decreases |s| - c
  {
    var p := NextCode(s, c);
    if p == |s| then []
    else
      var begin := p + PrefixAt(s, p);
      var end := NextCode(s, begin);
      Unit(s, begin, end) + ReferenceSplit(s, end)
  }

  /** The skipping cursor next stops exactly at the first start code at or after it. */
  lemma {:induction false} StartsJump(s: Bytes, c: nat)
    requires c <= |s|
    ensures var p := NextCode(s, c);
            && Starts(s, c) == Starts(s, p)
            && (Starts(s, c) == [] <==> p == |s|)
            && (Starts(s, c) != [] ==> Starts(s, c)[0].offset == p)
    decreases |s| - c
  {
    if c < |s| && !Code3(s, c) && !Code4(s, c) {
      StartsJump(s, c + 1);
      if c + 3 > |s| {
        assert Starts(s, c) == [];
      }
    }
  }

  /** One step of the skipping splitter. */
  lemma SliceStep(s: Bytes, p: nat)
    requires p <= |s| && (Code3(s, p) || Code4(s, p))
    ensures var begin := p + PrefixAt(s, p);
            && begin <= |s|
            && Slices(s, Starts(s, p)) == Unit(s, begin, NextCode(s, begin)) + Slices(s, Starts(s, begin))
  {
    var begin := p + PrefixAt(s, p);
    var head, tail := StartCode(p, PrefixAt(s, p)), Starts(s, begin);
    assert Starts(s, p) == [head] + tail;
    assert ([head] + tail)[1..] == tail;
    StartsJump(s, begin);
  }

  lemma NoSlices(s: Bytes)
    ensures Starts(s, |s|) == [] && Slices(s, []) == []
  {
  }

  lemma {:induction false} SlicesMatchReference(s: Bytes, c: nat)
    requires c <= |s|
    ensures Slices(s, Starts(s, c)) == ReferenceSplit(s, c)
    decreases |s| - c
  {
    hide NextCode, Starts, Slices, Unit;
    var p := NextCode(s, c);
    StartsJump(s, c);
    if p == |s| {
      NoSlices(s);
    } else {
      SliceStep(s, p);
      var begin := p + PrefixAt(s, p);
      var end := NextCode(s, begin);
      SlicesMatchReference(s, end);
      StartsJump(s, begin);
    }
  }

  /** The skipping splitter computes the textbook Annex B decomposition. */
  lemma SplitIsReference(s: Bytes)
    ensures Split(s) == ReferenceSplit(s, 0)
  {
    SlicesMatchReference(s, 0);
  }

  // ---------------------------------------------------------------- scanner agreement

  predicate IdrNal(nal: Bytes) {
    nal != [] && NalType(nal[0]) == NAL_IDR
  }

  ghost predicate HasIdrNal(nals: seq<Bytes>) {
    exists i :: 0 <= i < |nals| && IdrNal(nals[i])
  }

  ghost predicate IdrFrom(s: Bytes, c: nat) {
    exists p: nat :: c <= p && IdrAt(s, p)
  }

  lemma HasIdrOfConcat(a: seq<Bytes>, b: seq<Bytes>)
    ensures HasIdrNal(a + b) <==> HasIdrNal(a) || HasIdrNal(b)
  {
    if i :| 0 <= i < |a + b| && IdrNal((a + b)[i]) {
      if i < |a| {
        assert IdrNal(a[i]);
      } else {
        assert IdrNal(b[i - |a|]);
      }
    }
    if i :| 0 <= i < |a| && IdrNal(a[i]) {
      assert IdrNal((a + b)[i]);
    }
    if i :| 0 <= i < |b| && IdrNal(b[i]) {
      assert IdrNal((a + b)[|a| + i]);
    }
  }

  /** A unit cut behind a start code has type 5 exactly when the scan sees an IDR there. */
  lemma CutUnitIsIdr(s: Bytes, begin: nat)
    requires 3 <= begin <= |s| && Code3(s, begin - 3)
    ensures IdrAt(s, begin - 3) <==> HasIdrNal(Unit(s, begin, NextCode(s, begin)))
  {
    var unit := Unit(s, begin, NextCode(s, begin));
    if IdrAt(s, begin - 3) {
      assert !Code3(s, begin) && !Code4(s, begin);
      assert IdrNal(unit[0]);
    }
  }

  /** A start code hides no other start code the byte scan could see, beyond its own header. */
  lemma SkippedOffsets(s: Bytes, c: nat)
    requires Code3(s, c) || Code4(s, c)
    ensures var begin := c + PrefixAt(s, c); IdrFrom(s, c) <==> IdrAt(s, begin - 3) || IdrFrom(s, begin)
  {
    var begin := c + PrefixAt(s, c);
    assert forall p: nat :: c <= p < begin && p != begin - 3 ==> !IdrAt(s, p);
  }

  lemma {:induction false} SuffixAgreement(s: Bytes, c: nat)
    requires c <= |s|
    ensures HasIdrNal(Slices(s, Starts(s, c))) <==> IdrFrom(s, c)
    decreases |s| - c
  {
    hide NextCode, Slices, Unit;
    if c + 3 > |s| {
      NoSlices(s);
    } else if Code3(s, c) || Code4(s, c) {
      var begin := c + PrefixAt(s, c);
      SliceStep(s, c);
      HasIdrOfConcat(Unit(s, begin, NextCode(s, begin)), Slices(s, Starts(s, begin)));
      CutUnitIsIdr(s, begin);
      SuffixAgreement(s, begin);
      SkippedOffsets(s, c);
    } else {
      SuffixAgreement(s, c + 1);
      assert !IdrAt(s, c);
    }
  }

  /** For every byte string the encoder's splitter and the sealing scan find IDR units alike. */
  lemma ScannersAgree(s: Bytes)
    ensures HasIdrNal(Split(s)) <==> CarriesIdr(s)
  {
    SuffixAgreement(s, 0);
  }

  // ---------------------------------------------------------------- join and split

  /** Each unit behind a four-byte start code, as the epoch configuration is rebuilt. */
  function Join(nals: seq<Bytes>): Bytes {
    if nals == [] then [] else [0, 0, 0, 1] + nals[0] + Join(nals[1..])
  }

  /** A unit no scanner would cut further. */
  ghost predicate Clean(nal: Bytes) {
    nal != [] && forall p: nat :: !Code3(nal, p)
  }

  ghost predicate AllClean(nals: seq<Bytes>) {
    forall i :: 0 <= i < |nals| ==> Clean(nals[i])
  }

  predicate EndsInZeros(s: Bytes, q: nat) {
    forall i :: q <= i < q + 3 && i < |s| ==> s[i] == 0
  }

  /** No start code begins inside a clean unit, even one straddling its end. */
  lemma NoCodeInside(s: Bytes, begin: nat, nal: Bytes, p: nat)
    requires begin + |nal| <= |s| && s[begin..begin + |nal|] == nal
    requires Clean(nal) && EndsInZeros(s, begin + |nal|)
    requires begin <= p < begin + |nal|
    ensures !Code3(s, p) && !Code4(s, p)
  {
    var k := p - begin;
    assert forall i :: 0 <= i < |nal| ==> nal[i] == s[begin + i];
    if p + 3 <= begin + |nal| {
      assert !Code3(nal, k);
    }
    if p + 4 <= begin + |nal| {
      assert !Code3(nal, k + 1);
    }
  }

  /** The joined text behind offset `c` starts with a code, the unit, and the joined rest. */
  lemma JoinLayout(s: Bytes, c: nat, nals: seq<Bytes>)
    requires c <= |s| && s[c..] == Join(nals) && nals != []
    ensures var begin, end := c + 4, c + 4 + |nals[0]|;
            && end <= |s| && Code4(s, c) && !Code3(s, c)
            && s[begin..end] == nals[0]
            && s[end..] == Join(nals[1..])
            && (end < |s| ==> Code4(s, end))
            && EndsInZeros(s, end)
  {
    var begin, end := c + 4, c + 4 + |nals[0]|;
    var j := Join(nals[1..]);
    var t := [0, 0, 0, 1] + nals[0] + j;
    assert s[c..] == t && |t| == 4 + |nals[0]| + |j|;
    assert s[c] == t[0] && s[c + 1] == t[1] && s[c + 2] == t[2] && s[c + 3] == t[3];
    assert s[begin..end] == t[4..4 + |nals[0]|];
    assert s[end..] == t[4 + |nals[0]|..] == j;
    assert forall i :: 0 <= i < |j| ==> s[end + i] == j[i];
    assert j != [] ==> |j| >= 4 && j[0] == 0 && j[1] == 0 && j[2] == 0 && j[3] == 1;
  }

  lemma ReferenceStep(s: Bytes, c: nat, end: nat)
    requires c + 4 < end <= |s| && Code4(s, c) && !Code3(s, c) && NextCode(s, c + 4) == end
    ensures ReferenceSplit(s, c) == [s[c + 4..end]] + ReferenceSplit(s, end)
  {
    hide ReferenceSplit;
    assert NextCode(s, c) == c && PrefixAt(s, c) == 4;
    ReferenceUnfolds(s, c);
  }

  lemma ReferenceUnfolds(s: Bytes, c: nat)
    requires c < |s| && NextCode(s, c) == c
    ensures var begin := c + PrefixAt(s, c);
            var end := NextCode(s, begin);
            ReferenceSplit(s, c) == Unit(s, begin, end) + ReferenceSplit(s, end)
  {
    hide NextCode;
  }

  lemma {:induction false} ReferenceSplitOfJoin(s: Bytes, c: nat, nals: seq<Bytes>)
    requires c <= |s| && s[c..] == Join(nals) && AllClean(nals)
    ensures ReferenceSplit(s, c) == nals
    decreases |nals|
  {
    hide ReferenceSplit, NextCode;
    if nals == [] {
      assert c == |s|;
      NothingToSplit(s);
    } else {
      CleanHead(nals);
      JoinLayout(s, c, nals);
      hide Join, Clean, AllClean, Code3, Code4, EndsInZeros;
      var begin, end := c + 4, c + 4 + |nals[0]|;
      forall p: nat | begin <= p < end
        ensures !Code3(s, p) && !Code4(s, p)
      {
        NoCodeInside(s, begin, nals[0], p);
      }
      NextCodeIs(s, begin, end);
      ReferenceStep(s, c, end);
      ReferenceSplitOfJoin(s, end, nals[1..]);
      assert nals == [nals[0]] + nals[1..];
    }
  }

  lemma NothingToSplit(s: Bytes)
    ensures ReferenceSplit(s, |s|) == []
  {
  }

  lemma CleanHead(nals: seq<Bytes>)
    requires AllClean(nals) && nals != []
    ensures Clean(nals[0]) && nals[0] != [] && AllClean(nals[1..])
  {
  }

  /** Joining units that hold no start code and splitting again gives the same units. */
  lemma SplitOfJoin(nals: seq<Bytes>)
    requires AllClean(nals)
    ensures Split(Join(nals)) == nals
  {
    SplitIsReference(Join(nals));
    assert Join(nals)[0..] == Join(nals);
    ReferenceSplitOfJoin(Join(nals), 0, nals);
  }

  lemma CutUnitIsClean(s: Bytes, begin: nat)
    requires begin <= |s|
    ensures AllClean(Unit(s, begin, NextCode(s, begin)))
  {
    var end := NextCode(s, begin);
    forall p: nat
      ensures !Code3(s[begin..end], p)
    {
      if Code3(s[begin..end], p) {
        assert Code3(s, begin + p);
        NothingBeforeNextCode(s, begin, begin + p);
      }
    }
  }

  lemma {:induction false} ReferenceSplitClean(s: Bytes, c: nat)
    requires c <= |s|
    ensures AllClean(ReferenceSplit(s, c))
    decreases |s| - c
  {
    var p := NextCode(s, c);
    if p < |s| {
      var begin := p + PrefixAt(s, p);
      CutUnitIsClean(s, begin);
      ReferenceSplitClean(s, NextCode(s, begin));
    }
  }

  /** Everything the splitter returns can be joined and split again without change. */
  lemma SplitIsStable(s: Bytes)
    ensures AllClean(Split(s))
    ensures Split(Join(Split(s))) == Split(s)
  {
    SplitIsReference(s);
    ReferenceSplitClean(s, 0);
    SplitOfJoin(Split(s));
  }

  // ---------------------------------------------------------------- encoded frames

  datatype AvcConfig = AvcConfig(sps: Bytes, pps: Bytes)

  datatype EncodedFrame = EncodedFrame(annexB: Bytes, keyframe: bool, config: Option<AvcConfig>)

  datatype FrameError = EmptyFrame | MissingParameterSets

  /** The first unit of one type, as `iter().find` returns it. */
  function FirstOfType(nals: seq<Bytes>, nalType: nat): (found: Option<Bytes>)
    requires forall i :: 0 <= i < |nals| ==> nals[i] != []
    ensures found.Some? ==>
              exists k :: && 0 <= k < |nals| && nals[k] == found.value && NalType(nals[k][0]) == nalType
                          && forall i :: 0 <= i < k ==> NalType(nals[i][0]) != nalType
    ensures found.None? ==> forall i :: 0 <= i < |nals| ==> NalType(nals[i][0]) != nalType
  {
    if nals == [] then None
    else if NalType(nals[0][0]) == nalType then Some(nals[0])
    else
      var later := FirstOfType(nals[1..], nalType);
      assert later.Some? ==>
          forall k :: 0 <= k < |nals| - 1 ==> nals[1..][k] == nals[k + 1];
      later
  }

  lemma {:induction false} SlicesNonEmpty(s: Bytes, starts: seq<StartCode>)
    requires StartsFit(s, starts)
    ensures forall i :: 0 <= i < |Slices(s, starts)| ==> Slices(s, starts)[i] != []
  {
    if starts != [] {
      SlicesNonEmpty(s, starts[1..]);
    }
  }

  /** The units of an access unit; none is empty. */
  function Units(annexB: Bytes): (nals: seq<Bytes>)
    ensures nals == Split(annexB) && forall i :: 0 <= i < |nals| ==> nals[i] != []
  {
    SlicesNonEmpty(annexB, Starts(annexB, 0));
    Split(annexB)
  }

  /** The parameter sets an access unit carries, when it carries both. */
  function ConfigOf(annexB: Bytes): Option<AvcConfig> {
    var sps, pps := FirstOfType(Units(annexB), NAL_SPS), FirstOfType(Units(annexB), NAL_PPS);
    if sps.Some? && pps.Some? then Some(AvcConfig(sps.value, pps.value)) else None
  }

  /** The frame made of an access unit; the hint is the encoder library's own frame type. */
  function FrameOf(annexB: Bytes, keyframeHint: bool): EncodedFrame {
    EncodedFrame(annexB, keyframeHint || FirstOfType(Units(annexB), NAL_IDR).Some?, ConfigOf(annexB))
  }

  /** The encoder's per-run state: the parameter sets seen so far. */
  class FrameInspector {
    var parameterSets: Option<AvcConfig>

    constructor ()
      ensures parameterSets == None
    {
      parameterSets := None;
    }

    /** `inspect_encoded_frame`: classify one access unit and remember its parameter sets. */
    method Inspect(annexB: Bytes, keyframeHint: bool) returns (r: Result<EncodedFrame, FrameError>)
      modifies this
      ensures parameterSets == if annexB != [] && ConfigOf(annexB).Some? then ConfigOf(annexB) else old(parameterSets)
      ensures r == if annexB == [] then Err(EmptyFrame)
                   else if parameterSets.None? then Err(MissingParameterSets)
                   else Ok(FrameOf(annexB, keyframeHint))
    {
      if annexB == [] {
        return Err(EmptyFrame);
      }
      var nals := AnnexBNals(annexB);
      assert nals == Units(annexB);
      var keyframe := keyframeHint || FirstOfType(nals, NAL_IDR).Some?;
      var sps := FirstOfType(nals, NAL_SPS);
      var pps := FirstOfType(nals, NAL_PPS);
      var config := None;
      if sps.Some? && pps.Some? {
        config := Some(AvcConfig(sps.value, pps.value));
        parameterSets := config;
      }
      if parameterSets.None? {
        return Err(MissingParameterSets);
      }
      return Ok(EncodedFrame(annexB, keyframe, config));
    }
  }

  /** The unit is the first of its type. */
  predicate IsFirst(nals: seq<Bytes>, nal: Bytes, nalType: nat) {
    exists k :: && 0 <= k < |nals| && nals[k] == nal && nal != [] && NalType(nal[0]) == nalType
                && forall i :: 0 <= i < k && nals[i] != [] ==> NalType(nals[i][0]) != nalType
  }

  /** A frame is a keyframe when hinted or when sealing's scan sees an IDR; its configuration holds
      the access unit's first SPS and PPS, which no scanner would cut, and it lacks one only when the access unit
      has no SPS or no PPS. */
  lemma FrameMeans(annexB: Bytes, keyframeHint: bool)
    ensures var frame := FrameOf(annexB, keyframeHint);
            && frame.annexB == annexB
            && (frame.keyframe <==> keyframeHint || CarriesIdr(annexB))
            && (frame.config.Some? ==>
                  && IsFirst(Split(annexB), frame.config.value.sps, 7) && Clean(frame.config.value.sps)
                  && IsFirst(Split(annexB), frame.config.value.pps, 8) && Clean(frame.config.value.pps))
            && (frame.config.None? ==>
                  || (forall nal :: nal in Split(annexB) && nal != [] ==> NalType(nal[0]) != NAL_SPS)
                  || (forall nal :: nal in Split(annexB) && nal != [] ==> NalType(nal[0]) != NAL_PPS))
  {
    hide FirstOfType;
    SplitIsStable(annexB);
    ScannersAgree(annexB);
    var nals := Units(annexB);
    if FirstOfType(nals, NAL_IDR).Some? {
      assert HasIdrNal(nals);
    }
  }

  /** The rebuilt epoch configuration is Annex B and splits to exactly its SPS and PPS. */
  lemma EpochConfigurationRoundTrip(annexB: Bytes, sps: Bytes, pps: Bytes)
    requires sps in Split(annexB) && pps in Split(annexB)
    ensures StartsAnnexB(Join([sps, pps]))
    ensures Split(Join([sps, pps])) == [sps, pps]
  {
    SplitIsStable(annexB);
    SplitOfJoin([sps, pps]);
  }
}
