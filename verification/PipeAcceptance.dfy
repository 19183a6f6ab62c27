/**
 Which lists of codecs that a router offers, and selections of them, the worker takes:
 those of pipe consumers and those of ordinary consumers.
 */
module PipeAcceptance {
  import opened Wrappers
  import opened Codecs
  import opened RouterCapabilities
  import opened ProducerMapping
  import opened PipeCodecs
  import opened WorkerValidation
  import opened WorkerStreams

  /** Codecs at rest of a producer that the worker took: it knows them, and one is a media codec. */
  ghost predicate Spoken(ms: seq<Codec>) {
    && (forall m :: m in ms ==> Known(m) && KindOf(m.mimeType) != Fec)
    && (exists m :: m in ms && IsMedia(m))
  }

  /** What the worker sees in the pair offered for a codec at rest. */
  lemma PairKinds(h: H264, m: Codec, caps: seq<Codec>)
    requires WellFormed(caps) && AtRest(h, m, caps) && Known(m) && KindOf(m.mimeType) != Fec
    ensures var pair := PairOf(h, m, caps);
            var k := Target(h, m, caps);
            && !IsRtx(pair[0]) && Known(pair[0]) && Protectable(pair[0]) && IsMedia(pair[0]) == IsMedia(m)
            && pair[0].payloadType == caps[k].payloadType
            && (|pair| == 2 ==>
              && IsRtx(pair[1]) && Known(pair[1]) && !IsMedia(pair[1])
              && k + 1 < |caps| && IsRtx(caps[k + 1])
              && AptIs(pair[1], caps[k].payloadType) && pair[1].payloadType == caps[k + 1].payloadType)
  {
    hide AtRest, KindOf, WellFormed, IsRtx, IsVideo;
    var k := Target(h, m, caps);
    var pair := PairOf(h, m, caps);
    TargetIsMedia(h, m, caps);
    PairIsComplete(m, caps, k);
    RtxOfCapability(caps, k);
    RtxAlike(m.mimeType);
    MimeAtRest(h, m, caps);
    if |pair| == 2 {
      RtxMime(caps, k + 1);
      RtxIsKnown();
    }
  }

  lemma MimeAtRest(h: H264, m: Codec, caps: seq<Codec>)
    requires AtRest(h, m, caps)
    ensures m.mimeType == caps[Target(h, m, caps)].mimeType && !IsRtxMime(m.mimeType)
  {
  }

  lemma RtxMime(caps: seq<Codec>, k: nat)
    requires WellFormed(caps) && k < |caps| && IsRtx(caps[k])
    ensures caps[k].mimeType == RTX_MIME
  {
    assert PairedAt(caps, k);
  }

  /** Two positions carry one payload type iff they stand for the same half of the same capability. */
  lemma SamePayloadTypes(h: H264, m: Codec, y: nat, n: Codec, z: nat, caps: seq<Codec>)
    requires WellFormed(caps) && AtRest(h, m, caps) && AtRest(h, n, caps)
    requires Known(m) && KindOf(m.mimeType) != Fec && Known(n) && KindOf(n.mimeType) != Fec
    requires y < |PairOf(h, m, caps)| && z < |PairOf(h, n, caps)|
    ensures PairOf(h, m, caps)[y].payloadType == PairOf(h, n, caps)[z].payloadType <==>
      Target(h, m, caps) == Target(h, n, caps) && y == z
  {
    hide AtRest, Target, KindOf, IsRtx, RtxPaired, PairOf, AptIs;
    PairKinds(h, m, caps);
    PairKinds(h, n, caps);
    TargetIsMedia(h, m, caps);
    TargetIsMedia(h, n, caps);
    assert caps[Target(h, m, caps) + y].payloadType == PairOf(h, m, caps)[y].payloadType;
    assert caps[Target(h, n, caps) + z].payloadType == PairOf(h, n, caps)[z].payloadType;
  }

  // ----- Selections of pairs

  ghost predicate Chosen(h: H264, ms: seq<Codec>, caps: seq<Codec>, idx: seq<nat>, a: nat, y: nat)
    requires AllAtRest(h, ms, caps)
  {
    a < |ms| && y < |PairOf(h, ms[a], caps)| && Start(h, ms, caps, a) + y in idx
  }

  ghost predicate RepeatedAt(h: H264, ms: seq<Codec>, caps: seq<Codec>, idx: seq<nat>, a: nat, b: nat, y: nat)
    requires AllAtRest(h, ms, caps)
  {
    && a < b < |ms| && Target(h, ms[a], caps) == Target(h, ms[b], caps)
    && Chosen(h, ms, caps, idx, a, y) && Chosen(h, ms, caps, idx, b, y)
  }

  /** The same half of one capability is selected twice. */
  ghost predicate Repeated(h: H264, ms: seq<Codec>, caps: seq<Codec>, idx: seq<nat>)
    requires AllAtRest(h, ms, caps)
  {
    exists a: nat, b: nat, y: nat :: RepeatedAt(h, ms, caps, idx, a, b, y)
  }

  /** With an RTX codec, some media codec that it protects is selected too. */
  ghost predicate RtxCovered(h: H264, ms: seq<Codec>, caps: seq<Codec>, idx: seq<nat>)
    requires AllAtRest(h, ms, caps)
  {
    forall a: nat :: Chosen(h, ms, caps, idx, a, 1) ==>
      exists b: nat :: Chosen(h, ms, caps, idx, b, 0) && Target(h, ms[b], caps) == Target(h, ms[a], caps)
  }

  ghost predicate MediaChosen(h: H264, ms: seq<Codec>, caps: seq<Codec>, idx: seq<nat>)
    requires AllAtRest(h, ms, caps)
  {
    exists a: nat :: Chosen(h, ms, caps, idx, a, 0) && IsMedia(ms[a])
  }

  ghost predicate Within(cs: seq<Codec>, idx: seq<nat>) {
    forall i :: i in idx ==> i < |cs|
  }

  lemma RepeatedIsRefused(h: H264, ms: seq<Codec>, caps: seq<Codec>, idx: seq<nat>, a: nat, b: nat, y: nat)
    requires WellFormed(caps) && AllAtRest(h, ms, caps) && Spoken(ms) && Within(Pairs(h, ms, caps), idx)
    requires RepeatedAt(h, ms, caps, idx, a, b, y)
    ensures !AcceptsAt(Pairs(h, ms, caps), idx)
  {
    hide AtRest, Target, KindOf, WellFormed, Pairs, PairOf, Start, LinkedWithin;
    PairAt(h, ms, caps, a, y);
    PairAt(h, ms, caps, b, y);
    StartGrows(h, ms, caps, a, b);
    SamePayloadTypes(h, ms[a], y, ms[b], y, caps);
    assert Start(h, ms, caps, a) + y < Start(h, ms, caps, b) + y;
  }

  /** What the worker sees at one selected position. */
  lemma SeenAt(h: H264, ms: seq<Codec>, caps: seq<Codec>, idx: seq<nat>, x: nat) returns (a: nat, y: nat)
    requires WellFormed(caps) && AllAtRest(h, ms, caps) && Spoken(ms) && Within(Pairs(h, ms, caps), idx)
    requires RtxCovered(h, ms, caps, idx) && x in idx
    ensures Chosen(h, ms, caps, idx, a, y) && x == Start(h, ms, caps, a) + y
    ensures Pairs(h, ms, caps)[x] == PairOf(h, ms[a], caps)[y]
    ensures Known(Pairs(h, ms, caps)[x]) && LinkedWithin(Pairs(h, ms, caps), idx, x)
    ensures IsMedia(Pairs(h, ms, caps)[x]) ==> y == 0 && IsMedia(ms[a])
  {
    hide AtRest, Target, KindOf, IsRtx, WellFormed, Pairs, PairOf, Start, AptIs;
    a, y := Owner(h, ms, caps, x);
    PairAt(h, ms, caps, a, y);
    PairKinds(h, ms[a], caps);
    if y == 1 {
      assert Chosen(h, ms, caps, idx, a, 1);
      var b: nat :| Chosen(h, ms, caps, idx, b, 0) && Target(h, ms[b], caps) == Target(h, ms[a], caps);
      PairAt(h, ms, caps, b, 0);
      PairKinds(h, ms[b], caps);
      assert Start(h, ms, caps, b) + 0 in idx;
    }
  }

  /** The worker takes such a selection iff nothing in it is repeated and it holds a media codec. */
  lemma SelectedPairsAccepted(h: H264, ms: seq<Codec>, caps: seq<Codec>, idx: seq<nat>)
    requires WellFormed(caps) && AllAtRest(h, ms, caps) && Spoken(ms) && Within(Pairs(h, ms, caps), idx)
    requires RtxCovered(h, ms, caps, idx)
    ensures AcceptsAt(Pairs(h, ms, caps), idx) <==> !Repeated(h, ms, caps, idx) && MediaChosen(h, ms, caps, idx)
  {
    hide AtRest, Target, KindOf, WellFormed, Pairs, PairOf, Start, LinkedWithin, RtxCovered, Spoken, RepeatedAt;
    var cs := Pairs(h, ms, caps);
    if a: nat, b: nat, y: nat :| RepeatedAt(h, ms, caps, idx, a, b, y) {
      RepeatedIsRefused(h, ms, caps, idx, a, b, y);
    } else {
      forall i, j | i in idx && j in idx && i < j
        ensures cs[i].payloadType != cs[j].payloadType
      {
        NotRepeated(h, ms, caps, idx, i, j);
      }
      forall x | x in idx
        ensures Known(cs[x]) && LinkedWithin(cs, idx, x)
      {
        var a, y := SeenAt(h, ms, caps, idx, x);
      }
      MediaSeen(h, ms, caps, idx);
    }
  }

  lemma NotRepeated(h: H264, ms: seq<Codec>, caps: seq<Codec>, idx: seq<nat>, i: nat, j: nat)
    requires WellFormed(caps) && AllAtRest(h, ms, caps) && Spoken(ms) && Within(Pairs(h, ms, caps), idx)
    requires RtxCovered(h, ms, caps, idx) && !Repeated(h, ms, caps, idx) && i in idx && j in idx && i < j
    ensures Pairs(h, ms, caps)[i].payloadType != Pairs(h, ms, caps)[j].payloadType
  {
    hide AtRest, Target, KindOf, WellFormed, Pairs, PairOf, Start, RtxCovered, LinkedWithin;
    var a, y := SeenAt(h, ms, caps, idx, i);
    var b, z := SeenAt(h, ms, caps, idx, j);
    SamePayloadTypes(h, ms[a], y, ms[b], z, caps);
    if a < b {
      assert !RepeatedAt(h, ms, caps, idx, a, b, y);
    } else if b < a {
      StartGrows(h, ms, caps, b, a);
    }
  }

  lemma MediaSeen(h: H264, ms: seq<Codec>, caps: seq<Codec>, idx: seq<nat>)
    requires WellFormed(caps) && AllAtRest(h, ms, caps) && Spoken(ms) && Within(Pairs(h, ms, caps), idx)
    requires RtxCovered(h, ms, caps, idx)
    ensures (exists x: nat :: x in idx && IsMedia(Pairs(h, ms, caps)[x])) <==> MediaChosen(h, ms, caps, idx)
  {
    hide AtRest, Target, KindOf, WellFormed, Pairs, PairOf, Start, RtxCovered, LinkedWithin;
    if x: nat :| x in idx && IsMedia(Pairs(h, ms, caps)[x]) {
      var a, y := SeenAt(h, ms, caps, idx, x);
    }
    if a: nat :| Chosen(h, ms, caps, idx, a, 0) && IsMedia(ms[a]) {
      PairAt(h, ms, caps, a, 0);
      PairKinds(h, ms[a], caps);
      assert Start(h, ms, caps, a) + 0 in idx;
    }
  }

  // ----- Pipe consumers

  lemma AllMediaChosen(h: H264, ms: seq<Codec>, caps: seq<Codec>, enableRtx: bool, idx: seq<nat>)
    requires WellFormed(caps) && AllAtRest(h, ms, caps) && Spoken(ms)
    requires forall i :: i in idx <==> 0 <= i < |Pairs(h, ms, caps)| && (enableRtx || !IsRtx(Pairs(h, ms, caps)[i]))
    ensures forall a :: 0 <= a < |ms| ==> Chosen(h, ms, caps, idx, a, 0)
  {
    hide AtRest, Target, KindOf, IsRtx, WellFormed, Pairs, PairOf, Start;
    forall a | 0 <= a < |ms|
      ensures Chosen(h, ms, caps, idx, a, 0)
    {
      PairAt(h, ms, caps, a, 0);
      PairKinds(h, ms[a], caps);
    }
  }

  /**
   The worker takes what a pipe consumer announces, with RTX or without, iff no two media
   codecs of the producer are matched to the same capability.
   */
  lemma PipedIsAccepted(h: H264, ms: seq<Codec>, caps: seq<Codec>, enableRtx: bool)
    requires WellFormed(caps) && AllAtRest(h, ms, caps) && Spoken(ms)
    ensures Accepts(Piped(Pairs(h, ms, caps), enableRtx)) <==> DistinctTargets(h, ms, caps)
  {
    hide AtRest, Target, KindOf, WellFormed, Pairs, Accepts, Chosen, AcceptsAt, Piped;
    var cs := Pairs(h, ms, caps);
    var idx := PipedSelects(cs, enableRtx);
    SelectionIsAccepted(cs, Piped(cs, enableRtx), idx);
    AllMediaChosen(h, ms, caps, enableRtx, idx);
    assert RtxCovered(h, ms, caps, idx) by {
      ChosenIsOwned(h, ms, caps, idx);
    }
    SelectedPairsAccepted(h, ms, caps, idx);
    assert MediaChosen(h, ms, caps, idx) by {
      var m :| m in ms && IsMedia(m);
      var a :| 0 <= a < |ms| && ms[a] == m;
      assert Chosen(h, ms, caps, idx, a, 0);
    }
    if DistinctTargets(h, ms, caps) {
      assert !Repeated(h, ms, caps, idx);
    } else {
      var a, b :| 0 <= a < b < |ms| && Target(h, ms[a], caps) == Target(h, ms[b], caps);
      assert RepeatedAt(h, ms, caps, idx, a, b, 0);
    }
  }

  lemma ChosenIsOwned(h: H264, ms: seq<Codec>, caps: seq<Codec>, idx: seq<nat>)
    requires AllAtRest(h, ms, caps)
    ensures forall a: nat, y: nat :: Chosen(h, ms, caps, idx, a, y) ==> a < |ms|
  {
  }

  /** Seen from the offered list: it repeats no payload type. */
  lemma DistinctlyOffered(h: H264, ms: seq<Codec>, caps: seq<Codec>)
    requires WellFormed(caps) && AllAtRest(h, ms, caps) && Spoken(ms)
    ensures DistinctPayloadTypes(Pairs(h, ms, caps)) <==> DistinctTargets(h, ms, caps)
  {
    hide AtRest, Target, KindOf, WellFormed, Pairs, PairOf, Start, Spoken;
    var cs := Pairs(h, ms, caps);
    if DistinctTargets(h, ms, caps) {
      forall i, j | 0 <= i < j < |cs|
        ensures cs[i].payloadType != cs[j].payloadType
      {
        PositionsDiffer(h, ms, caps, i, j);
      }
    } else {
      var a, b :| 0 <= a < b < |ms| && Target(h, ms[a], caps) == Target(h, ms[b], caps);
      PositionsRepeat(h, ms, caps, a, b);
    }
  }

  lemma PositionsDiffer(h: H264, ms: seq<Codec>, caps: seq<Codec>, i: nat, j: nat)
    requires WellFormed(caps) && AllAtRest(h, ms, caps) && Spoken(ms) && DistinctTargets(h, ms, caps)
    requires i < j < |Pairs(h, ms, caps)|
    ensures Pairs(h, ms, caps)[i].payloadType != Pairs(h, ms, caps)[j].payloadType
  {
    hide AtRest, Target, KindOf, WellFormed, Pairs, PairOf, Start;
    var a, y := Owner(h, ms, caps, i);
    var b, z := Owner(h, ms, caps, j);
    PairAt(h, ms, caps, a, y);
    PairAt(h, ms, caps, b, z);
    SamePayloadTypes(h, ms[a], y, ms[b], z, caps);
  }

  lemma PositionsRepeat(h: H264, ms: seq<Codec>, caps: seq<Codec>, a: nat, b: nat)
    requires WellFormed(caps) && AllAtRest(h, ms, caps) && Spoken(ms)
    requires a < b < |ms| && Target(h, ms[a], caps) == Target(h, ms[b], caps)
    ensures !DistinctPayloadTypes(Pairs(h, ms, caps))
  {
    hide AtRest, Target, KindOf, WellFormed, Pairs, PairOf, Start;
    PairAt(h, ms, caps, a, 0);
    PairAt(h, ms, caps, b, 0);
    StartGrows(h, ms, caps, a, b);
    SamePayloadTypes(h, ms[a], 0, ms[b], 0, caps);
  }

  // ----- Back to the producer

  /** The media codecs of a producer are matched to pairwise different capabilities. */
  ghost predicate DistinctCapabilities(h: H264, codecs: seq<Codec>, caps: seq<Codec>) {
    forall i, j :: 0 <= i < j < |codecs| && !IsRtx(codecs[i]) && !IsRtx(codecs[j]) ==>
      MatchIndex(h, View(codecs[i]), caps) != MatchIndex(h, View(codecs[j]), caps)
  }

  lemma {:induction false} RestedFrom(h: H264, codecs: seq<Codec>, caps: seq<Codec>)
    requires MediaMatched(h, codecs, caps)
    ensures forall m :: m in RestedMedia(h, codecs, caps) ==>
      exists c :: c in codecs && !IsRtx(c) && m == Rested(h, c, caps)
    ensures forall c :: c in codecs && !IsRtx(c) ==> Rested(h, c, caps) in RestedMedia(h, codecs, caps)
  {
    hide IsRtx, Rested;
    if codecs != [] {
      RestedFrom(h, codecs[1..], caps);
    }
  }

  lemma KindAtRest(h: H264, c: Codec, caps: seq<Codec>)
    requires MatchIndex(h, View(c), caps).Some?
    ensures KindOf(Rested(h, c, caps).mimeType) == KindOf(c.mimeType)
    ensures Rested(h, c, caps).mimeType == caps[MatchIndex(h, View(c), caps).value].mimeType
  {
    hide KindOf;
    KindByLower(c.mimeType, Rested(h, c, caps).mimeType);
  }

  /** What a producer that the worker took comes to rest as. */
  lemma RestedIsSpoken(h: H264, codecs: seq<Codec>, caps: seq<Codec>)
    requires MediaMatched(h, codecs, caps) && Accepts(codecs) && NoFec(caps)
    ensures Spoken(RestedMedia(h, codecs, caps))
  {
    hide KindOf, IsRtx, Rested, RestedMedia, DistinctPayloadTypes, LinkedAt;
    RestedFrom(h, codecs, caps);
    forall c | c in codecs && !IsRtx(c)
      ensures Known(Rested(h, c, caps)) && KindOf(Rested(h, c, caps).mimeType) != Fec
      ensures IsMedia(Rested(h, c, caps)) == IsMedia(c)
    {
      KindAtRest(h, c, caps);
      assert caps[MatchIndex(h, View(c), caps).value] in caps;
    }
    var i :| 0 <= i < |codecs| && IsMedia(codecs[i]);
    MediaIsNotRtx(codecs[i]);
    assert codecs[i] in codecs;
    assert Rested(h, codecs[i], caps) in RestedMedia(h, codecs, caps);
  }

  lemma MediaIsNotRtx(c: Codec)
    requires IsMedia(c)
    ensures !IsRtx(c)
  {
    RtxAlike(c.mimeType);
  }

  /** The capabilities that the media codecs are matched to, in order. */
  ghost function Capabilities(h: H264, codecs: seq<Codec>, caps: seq<Codec>): seq<Option<nat>> {
    if codecs == [] then []
    else if IsRtx(codecs[0]) then Capabilities(h, codecs[1..], caps)
    else [MatchIndex(h, View(codecs[0]), caps)] + Capabilities(h, codecs[1..], caps)
  }

  lemma {:induction false} CapabilitiesAre(h: H264, codecs: seq<Codec>, caps: seq<Codec>)
    requires Lawful(h) && MediaMatched(h, codecs, caps)
    ensures var ms := RestedMedia(h, codecs, caps);
            var ks := Capabilities(h, codecs, caps);
            && |ks| == |ms|
            && forall a :: 0 <= a < |ms| ==> AtRest(h, ms[a], caps) && ks[a] == Some(Target(h, ms[a], caps))
  {
    hide IsRtx, Rested, AtRest, Lawful, MatchIndex, Target;
    if codecs != [] {
      CapabilitiesAre(h, codecs[1..], caps);
      if !IsRtx(codecs[0]) {
        RestedTarget(h, codecs[0], caps);
      }
    }
  }

  lemma {:induction false} CapabilitiesOf(h: H264, codecs: seq<Codec>, caps: seq<Codec>, k: Option<nat>)
    ensures k in Capabilities(h, codecs, caps) <==>
      exists c :: c in codecs && !IsRtx(c) && MatchIndex(h, View(c), caps) == k
  {
    hide IsRtx, MatchIndex;
    if codecs != [] {
      CapabilitiesOf(h, codecs[1..], caps, k);
    }
  }

  lemma {:induction false} CapabilitiesDistinct(h: H264, codecs: seq<Codec>, caps: seq<Codec>)
    ensures Distinct(Capabilities(h, codecs, caps)) <==> DistinctCapabilities(h, codecs, caps)
  {
    hide IsRtx, MatchIndex, DistinctCapabilities;
    FirstDistinct(h, codecs, caps);
    if codecs != [] {
      CapabilitiesDistinct(h, codecs[1..], caps);
      if !IsRtx(codecs[0]) {
        var k := MatchIndex(h, View(codecs[0]), caps);
        CapabilitiesOf(h, codecs[1..], caps, k);
        OneMoreDistinct(k, Capabilities(h, codecs[1..], caps));
      }
    }
  }

  lemma OneMoreDistinct<T>(x: T, s: seq<T>)
    ensures Distinct([x] + s) <==> x !in s && Distinct(s)
  {
    var all := [x] + s;
    if Distinct(all) {
      forall i | 0 <= i < |s|
        ensures s[i] != x
      {
        assert all[0] == x && all[i + 1] == s[i];
      }
      forall i, j | 0 <= i < j < |s|
        ensures s[i] != s[j]
      {
        assert all[i + 1] == s[i] && all[j + 1] == s[j];
      }
    }
  }

  /** The codecs at rest have different targets iff the producer's media codecs have different capabilities. */
  lemma RestedTargets(h: H264, codecs: seq<Codec>, caps: seq<Codec>)
    requires Lawful(h) && MediaMatched(h, codecs, caps) && AllAtRest(h, RestedMedia(h, codecs, caps), caps)
    ensures DistinctTargets(h, RestedMedia(h, codecs, caps), caps) <==> DistinctCapabilities(h, codecs, caps)
  {
    hide AtRest, Lawful, RestedMedia, Capabilities, DistinctCapabilities, Target, MediaMatched;
    CapabilitiesAre(h, codecs, caps);
    CapabilitiesDistinct(h, codecs, caps);
  }

  lemma FirstDistinct(h: H264, codecs: seq<Codec>, caps: seq<Codec>)
    ensures codecs == [] ==> DistinctCapabilities(h, codecs, caps)
    ensures codecs != [] ==> (DistinctCapabilities(h, codecs, caps) <==>
      && DistinctCapabilities(h, codecs[1..], caps)
      && (IsRtx(codecs[0]) ||
          forall c :: c in codecs[1..] && !IsRtx(c) ==>
            MatchIndex(h, View(c), caps) != MatchIndex(h, View(codecs[0]), caps)))
  {
    hide IsRtx, MatchIndex;
    if codecs != [] {
      var rest := codecs[1..];
      if DistinctCapabilities(h, codecs, caps) {
        forall i, j | 0 <= i < j < |rest| && !IsRtx(rest[i]) && !IsRtx(rest[j])
          ensures MatchIndex(h, View(rest[i]), caps) != MatchIndex(h, View(rest[j]), caps)
        {
          assert rest[i] == codecs[i + 1] && rest[j] == codecs[j + 1];
        }
      }
      forall i | 0 < i < |codecs|
        ensures codecs[i] == rest[i - 1] && codecs[i] in rest
      {
      }
    }
  }

  lemma RestedTarget(h: H264, c: Codec, caps: seq<Codec>)
    requires Lawful(h) && !IsRtx(c) && MatchIndex(h, View(c), caps).Some?
    ensures AtRest(h, Rested(h, c, caps), caps)
    ensures Some(Target(h, Rested(h, c, caps), caps)) == MatchIndex(h, View(c), caps)
  {
    RestedIsAtRest(h, c, caps);
  }

  /** The worker is sent adjusted codecs, which makes no difference. */
  lemma AdjustingKeepsAccepted(h: H264, codecs: seq<Codec>, caps: seq<Codec>)
    ensures Accepts(AdjustedCodecs(h, codecs, caps)) <==> Accepts(codecs)
  {
    var adjusted := AdjustedCodecs(h, codecs, caps);
    AdjustedCodecsAt(h, codecs, caps);
    forall i | 0 <= i < |codecs|
      ensures adjusted[i].payloadType == codecs[i].payloadType && adjusted[i].mimeType == codecs[i].mimeType
      ensures IsRtx(codecs[i]) == IsRtx(adjusted[i]) && (IsRtx(codecs[i]) ==> adjusted[i] == codecs[i])
    {
      hide IsRtx;
      AdjustingKeeps(h, codecs[i], caps);
    }
    hide IsRtx, Accepts, AdjustedCodec;
    if Accepts(codecs) {
      AcceptedAlike(codecs, adjusted);
    }
    if Accepts(adjusted) {
      AcceptedAlike(adjusted, codecs);
    }
  }

  lemma AcceptedAlike(a: seq<Codec>, b: seq<Codec>)
    requires |a| == |b| && Accepts(a)
    requires forall i :: 0 <= i < |a| ==> a[i].payloadType == b[i].payloadType && a[i].mimeType == b[i].mimeType
    requires forall i :: 0 <= i < |a| && IsRtx(a[i]) ==> a[i] == b[i]
    ensures Accepts(b)
  {
    hide KindOf, IsRtxMime;
    forall i | 0 <= i < |b|
      ensures Known(b[i]) && LinkedAt(b, i)
    {
      assert Known(a[i]) && LinkedAt(a, i);
      if IsRtx(b[i]) {
        var j :| 0 <= j < |a| && AptIs(a[i], a[j].payloadType) && Protectable(a[j]);
        assert Protectable(b[j]);
      }
    }
    var i :| 0 <= i < |a| && IsMedia(a[i]);
    assert IsMedia(b[i]);
  }

  // ----- The first media codec

  lemma {:induction false} PipedMediaMime(cs: seq<Codec>, enableRtx: bool)
    ensures MediaMime(Piped(cs, enableRtx)) == MediaMime(cs)
  {
    hide IsRtx, KindOf;
    if cs != [] {
      PipedMediaMime(cs[1..], enableRtx);
      if !enableRtx && IsRtx(cs[0]) {
        RtxIsNotMedia(cs[0]);
      }
    }
  }

  lemma RtxIsNotMedia(c: Codec)
    requires IsRtx(c)
    ensures !IsMedia(c)
  {
    hide KindOf, IsRtx;
    if IsMedia(c) {
      MediaIsNotRtx(c);
    }
  }

  lemma {:induction false} PairsMediaMime(h: H264, ms: seq<Codec>, caps: seq<Codec>)
    requires WellFormed(caps) && AllAtRest(h, ms, caps)
    requires forall m :: m in ms ==> Known(m) && KindOf(m.mimeType) != Fec
    ensures MediaMime(Pairs(h, ms, caps)) == MediaMime(ms)
  {
    hide AtRest, KindOf, WellFormed, Target, IsRtx, AptIs;
    if ms != [] {
      assert ms[0] in ms;
      PairsMediaMime(h, ms[1..], caps);
      var pair, rest := PairOf(h, ms[0], caps), Pairs(h, ms[1..], caps);
      assert Pairs(h, ms, caps) == pair + rest;
      PairKinds(h, ms[0], caps);
      MimeOfPair(h, ms[0], caps);
      MediaMimeConcat(pair, rest);
      assert MediaMime(pair) == if IsMedia(ms[0]) then Some(ms[0].mimeType) else None by {
        MediaMimeOfPair(pair);
      }
    }
  }

  lemma MimeOfPair(h: H264, m: Codec, caps: seq<Codec>)
    requires AtRest(h, m, caps)
    ensures PairOf(h, m, caps)[0].mimeType == m.mimeType
  {
    MimeAtRest(h, m, caps);
  }

  lemma MediaMimeOfPair(pair: seq<Codec>)
    requires 1 <= |pair| <= 2 && (|pair| == 2 ==> !IsMedia(pair[1]))
    ensures MediaMime(pair) == if IsMedia(pair[0]) then Some(pair[0].mimeType) else None
  {
    hide IsMedia;
    if |pair| == 2 {
      assert pair[1..] == [pair[1]] && pair[1..][1..] == [];
      assert MediaMime(pair[1..]) == None;
    }
  }

  lemma {:induction false} MediaMimeConcat(a: seq<Codec>, b: seq<Codec>)
    ensures MediaMime(a + b) == if MediaMime(a).Some? then MediaMime(a) else MediaMime(b)
  {
    hide IsMedia;
    if a == [] {
      assert a + b == b;
    } else {
      assert (a + b)[0] == a[0] && (a + b)[1..] == a[1..] + b;
      MediaMimeConcat(a[1..], b);
    }
  }

  /** Mime types that differ in case only. */
  ghost predicate SameMime(a: Option<string>, b: Option<string>) {
    a.Some? == b.Some? && (a.Some? ==> Lower(a.value) == Lower(b.value))
  }

  lemma {:induction false} RestedMediaMime(h: H264, codecs: seq<Codec>, caps: seq<Codec>)
    requires MediaMatched(h, codecs, caps)
    ensures SameMime(MediaMime(RestedMedia(h, codecs, caps)), MediaMime(codecs))
  {
    hide IsRtx, KindOf, Rested, Lower;
    if codecs != [] {
      RestedMediaMime(h, codecs[1..], caps);
      if IsRtx(codecs[0]) {
        RtxIsNotMedia(codecs[0]);
      } else {
        assert codecs[0] in codecs;
        KindAtRest(h, codecs[0], caps);
        LowerAtRest(h, codecs[0], caps);
      }
    }
  }

  lemma LowerAtRest(h: H264, c: Codec, caps: seq<Codec>)
    requires MatchIndex(h, View(c), caps).Some?
    ensures Lower(Rested(h, c, caps).mimeType) == Lower(c.mimeType)
  {
  }

  lemma {:induction false} AdjustedMediaMime(h: H264, codecs: seq<Codec>, caps: seq<Codec>)
    ensures MediaMime(AdjustedCodecs(h, codecs, caps)) == MediaMime(codecs)
  {
    hide KindOf, IsRtx, Matches;
    if codecs != [] {
      AdjustedMediaMime(h, codecs[1..], caps);
    }
  }
}
