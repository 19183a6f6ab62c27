/**
 Codecs across a pipe between routers: what a pipe consumer announces, and why the
 producer made out of it on the other side offers the same codecs again.
 */
module PipeCodecs {
  import opened Wrappers
  import opened Codecs
  import opened RouterCapabilities
  import opened ProducerMapping

  // ----- What a pipe consumer announces

  /** Feedback kept in a pipe: PLI, FIR and, with RTX, generic NACK. */
  predicate IsPipeFeedback(fb: Feedback, enableRtx: bool) {
    || (fb.ftype == Nack && fb.parameter == "pli")
    || (fb.ftype == Ccm && fb.parameter == "fir")
    || (enableRtx && fb.ftype == Nack && fb.parameter == "")
  }

  function PipeFeedback(fbs: seq<Feedback>, enableRtx: bool): (r: seq<Feedback>)
    ensures forall fb :: fb in r <==> fb in fbs && IsPipeFeedback(fb, enableRtx)
  {
    if fbs == [] then []
    else if IsPipeFeedback(fbs[0], enableRtx) then [fbs[0]] + PipeFeedback(fbs[1..], enableRtx)
    else PipeFeedback(fbs[1..], enableRtx)
  }

  function Reduced(c: Codec, enableRtx: bool): Codec {
    c.(rtcpFeedback := PipeFeedback(c.rtcpFeedback, enableRtx))
  }

  function Piped(cs: seq<Codec>, enableRtx: bool): seq<Codec> {
    if cs == [] then []
    else if !enableRtx && IsRtx(cs[0]) then Piped(cs[1..], enableRtx)
    else [Reduced(cs[0], enableRtx)] + Piped(cs[1..], enableRtx)
  }

  method GetPipeCodecs(consumable: seq<Codec>, enableRtx: bool) returns (r: seq<Codec>)
    ensures r == Piped(consumable, enableRtx)
  {
    hide IsRtx, Reduced;
    r := [];
    assert consumable[0..] == consumable;
    for i := 0 to |consumable|
      invariant Piped(consumable, enableRtx) == r + Piped(consumable[i..], enableRtx)
    {
      assert consumable[i..][0] == consumable[i] && consumable[i..][1..] == consumable[i + 1..];
      if enableRtx || !IsRtx(consumable[i]) {
        r := r + [Reduced(consumable[i], enableRtx)];
      }
    }
  }

  lemma {:induction false} PipedConcat(a: seq<Codec>, b: seq<Codec>, enableRtx: bool)
    ensures Piped(a + b, enableRtx) == Piped(a, enableRtx) + Piped(b, enableRtx)
  {
    hide IsRtx, Reduced;
    if a == [] {
      assert a + b == b;
    } else {
      assert (a + b)[0] == a[0] && (a + b)[1..] == a[1..] + b;
      PipedConcat(a[1..], b, enableRtx);
    }
  }

  lemma {:induction false} PipeFeedbackInOrder(a: seq<Feedback>, b: seq<Feedback>, enableRtx: bool)
    ensures PipeFeedback(a + b, enableRtx) == PipeFeedback(a, enableRtx) + PipeFeedback(b, enableRtx)
  {
    hide IsPipeFeedback;
    if a == [] {
      assert a + b == b;
    } else {
      assert (a + b)[0] == a[0] && (a + b)[1..] == a[1..] + b;
      PipeFeedbackInOrder(a[1..], b, enableRtx);
    }
  }

  /**
   A pipe consumer announces the consumable codecs in order, without the RTX ones unless RTX is
   enabled. Of their feedback it keeps PLI and FIR, with RTX also generic NACK, and nothing else.
   */
  lemma {:induction false} PipedAt(cs: seq<Codec>, enableRtx: bool, k: nat) returns (i: nat)
    requires k < |Piped(cs, enableRtx)|
    ensures k <= i < |cs| && (enableRtx || !IsRtx(cs[i])) && (enableRtx ==> i == k && |Piped(cs, enableRtx)| == |cs|)
    ensures var e := Piped(cs, enableRtx)[k];
            && e == cs[i].(rtcpFeedback := e.rtcpFeedback)
            && IsRtx(e) == IsRtx(cs[i])
            && forall fb :: fb in e.rtcpFeedback <==>
              && fb in cs[i].rtcpFeedback
              && fb in {Feedback(Nack, "pli"), Feedback(Ccm, "fir")} + if enableRtx then {Feedback(Nack, "")} else {}
  {
    if !enableRtx && IsRtx(cs[0]) {
      i := PipedAt(cs[1..], enableRtx, k);
      i := i + 1;
    } else if k == 0 {
      i := 0;
      PipedLength(cs, enableRtx);
    } else {
      i := PipedAt(cs[1..], enableRtx, k - 1);
      i := i + 1;
    }
  }

  lemma {:induction false} PipedLength(cs: seq<Codec>, enableRtx: bool)
    ensures enableRtx ==> |Piped(cs, enableRtx)| == |cs|
  {
    hide IsRtx;
    if cs != [] {
      PipedLength(cs[1..], enableRtx);
    }
  }

  /** What a pipe consumer announces is a selection: everything, or without RTX the other codecs. */
  lemma {:induction false} PipedSelects(cs: seq<Codec>, enableRtx: bool) returns (idx: seq<nat>)
    ensures Selects(cs, Piped(cs, enableRtx), idx)
    ensures forall i :: i in idx <==> 0 <= i < |cs| && (enableRtx || !IsRtx(cs[i]))
  {
    hide IsRtx, PipeFeedback, Selects;
    if cs == [] {
      idx := [];
      NoneSelected(cs);
    } else {
      var rest := PipedSelects(cs[1..], enableRtx);
      idx := SelectBehind(cs, Piped(cs[1..], enableRtx), rest);
      if enableRtx || !IsRtx(cs[0]) {
        SelectEarlier(cs, Piped(cs[1..], enableRtx), idx, 0, Reduced(cs[0], enableRtx));
        idx := [0] + idx;
      }
    }
  }

  // ----- Codecs at rest

  /**
   A media codec that negotiation leaves alone: it carries the payload type, mime
   type, clock rate and channels of the capability it is matched to, and its
   parameters need no adjustment.
   */
  ghost predicate AtRest(h: H264, c: Codec, caps: seq<Codec>) {
    && !IsRtx(c)
    && var k := MatchIndex(h, View(c), caps);
    && k.Some?
    && c.payloadType == caps[k.value].payloadType
    && View(c) == View(caps[k.value]).(parameters := c.parameters)
    && Adjusted(h, View(c), View(caps[k.value])) == c.parameters
  }

  ghost predicate AllAtRest(h: H264, ms: seq<Codec>, caps: seq<Codec>) {
    forall m :: m in ms ==> AtRest(h, m, caps)
  }

  ghost function Target(h: H264, m: Codec, caps: seq<Codec>): (k: nat)
    requires AtRest(h, m, caps)
    ensures k < |caps|
  {
    MatchIndex(h, View(m), caps).value
  }

  /** A list of codecs at rest, each followed by the RTX codec of its capability. */
  ghost function Pairs(h: H264, ms: seq<Codec>, caps: seq<Codec>): seq<Codec>
    requires AllAtRest(h, ms, caps)
  {
    if ms == [] then []
    else Pair(ms[0], caps, Target(h, ms[0], caps)) + Pairs(h, ms[1..], caps)
  }

  /**
   What is offered for a capability: its codec with the given parameters and, for video,
   the RTX codec of the capability right after, protecting it.
   */
  lemma PairIsComplete(c: Codec, caps: seq<Codec>, k: nat)
    requires WellFormed(caps) && k < |caps| && !IsRtx(caps[k])
    ensures var pair := Pair(c, caps, k);
            && |pair| == (if IsVideo(caps[k]) then 2 else 1)
            && pair[0].payloadType == caps[k].payloadType && pair[0].parameters == c.parameters && !IsRtx(pair[0])
            && pair[0].rtcpFeedback == caps[k].rtcpFeedback && pair[0].mimeType == caps[k].mimeType
            && pair[0].clockRate == caps[k].clockRate && pair[0].channels == caps[k].channels
            && (|pair| == 2 ==> IsRtx(pair[1]) && AptIs(pair[1], pair[0].payloadType)
                                && k + 1 < |caps| && pair[1] == caps[k + 1].(channels := None))
  {
    hide WellFormed, IsVideo;
    RtxOfCapability(caps, k);
  }

  /** No two codecs at rest are matched to the same capability. */
  ghost predicate DistinctTargets(h: H264, ms: seq<Codec>, caps: seq<Codec>)
    requires AllAtRest(h, ms, caps)
  {
    forall a, b :: 0 <= a < b < |ms| ==> Target(h, ms[a], caps) != Target(h, ms[b], caps)
  }

  // ----- Positions in a list of pairs

  ghost function PairOf(h: H264, m: Codec, caps: seq<Codec>): (pair: seq<Codec>)
    requires AtRest(h, m, caps)
    ensures 1 <= |pair| <= 2
  {
    Pair(m, caps, Target(h, m, caps))
  }

  /** Where the pair of `ms[a]` starts. */
  ghost function Start(h: H264, ms: seq<Codec>, caps: seq<Codec>, a: nat): nat
    requires AllAtRest(h, ms, caps) && a <= |ms|
  {
    if a == 0 then 0 else |PairOf(h, ms[0], caps)| + Start(h, ms[1..], caps, a - 1)
  }

  lemma {:induction false} PairAt(h: H264, ms: seq<Codec>, caps: seq<Codec>, a: nat, y: nat)
    requires AllAtRest(h, ms, caps) && a < |ms| && y < |PairOf(h, ms[a], caps)|
    ensures Start(h, ms, caps, a) + y < |Pairs(h, ms, caps)|
    ensures Pairs(h, ms, caps)[Start(h, ms, caps, a) + y] == PairOf(h, ms[a], caps)[y]
  {
    hide AtRest, Target, Pair;
    assert ms[0] in ms;
    assert Pairs(h, ms, caps) == PairOf(h, ms[0], caps) + Pairs(h, ms[1..], caps);
    if a > 0 {
      PairAt(h, ms[1..], caps, a - 1, y);
    }
  }

  lemma {:induction false} StartGrows(h: H264, ms: seq<Codec>, caps: seq<Codec>, a: nat, b: nat)
    requires AllAtRest(h, ms, caps) && a < b <= |ms|
    ensures Start(h, ms, caps, a) + |PairOf(h, ms[a], caps)| <= Start(h, ms, caps, b)
  {
    hide AtRest, PairOf;
    assert ms[0] in ms;
    if a > 0 {
      StartGrows(h, ms[1..], caps, a - 1, b - 1);
    }
  }

  /** Every position is one in the pair of some codec at rest. */
  lemma {:induction false} Owner(h: H264, ms: seq<Codec>, caps: seq<Codec>, x: nat) returns (a: nat, y: nat)
    requires AllAtRest(h, ms, caps) && x < |Pairs(h, ms, caps)|
    ensures a < |ms| && y < |PairOf(h, ms[a], caps)| && x == Start(h, ms, caps, a) + y
  {
    hide AtRest, Target, Pair;
    assert ms[0] in ms;
    var n := |PairOf(h, ms[0], caps)|;
    assert Pairs(h, ms, caps) == PairOf(h, ms[0], caps) + Pairs(h, ms[1..], caps);
    if x < n {
      a, y := 0, x;
    } else {
      a, y := Owner(h, ms[1..], caps, x - n);
      a := a + 1;
    }
  }

  /** What a matched media codec comes to rest as. */
  ghost function Rested(h: H264, c: Codec, caps: seq<Codec>): Codec
    requires MatchIndex(h, View(c), caps).Some?
  {
    var k := MatchIndex(h, View(c), caps).value;
    caps[k].(parameters := Adjusted(h, View(c), View(caps[k])))
  }

  lemma RestedMatchesAlike(h: H264, c: Codec, caps: seq<Codec>)
    requires Lawful(h) && MatchIndex(h, View(c), caps).Some?
    ensures MatchIndex(h, View(Rested(h, c, caps)), caps) == MatchIndex(h, View(c), caps)
  {
    hide Matches, Lawful, Adjusted;
    var k := MatchIndex(h, View(c), caps).value;
    var r := Rested(h, c, caps);
    forall j | 0 <= j < |caps|
      ensures Matches(h, View(r), View(caps[j])) == Matches(h, View(c), View(caps[j]))
    {
      AdjustedMatchesAlike(h, View(c), View(caps[k]), View(caps[j]));
    }
  }

  lemma RestedIsAtRest(h: H264, c: Codec, caps: seq<Codec>)
    requires Lawful(h) && !IsRtx(c) && MatchIndex(h, View(c), caps).Some?
    ensures AtRest(h, Rested(h, c, caps), caps)
    ensures Target(h, Rested(h, c, caps), caps) == MatchIndex(h, View(c), caps).value
  {
    hide Matches, Lawful, Adjusted, IsRtx;
    var k := MatchIndex(h, View(c), caps).value;
    MatchKeepsRtx(h, c, caps[k]);
    RestedMatchesAlike(h, c, caps);
    AdjustedMatchesAlike(h, View(c), View(caps[k]), View(caps[k]));
    RtxByMime(Rested(h, c, caps), caps[k]);
  }

  lemma RtxByMime(a: Codec, b: Codec)
    requires a.mimeType == b.mimeType
    ensures IsRtx(a) == IsRtx(b)
  {
  }

  ghost predicate MediaMatched(h: H264, codecs: seq<Codec>, caps: seq<Codec>) {
    forall c :: c in codecs && !IsRtx(c) ==> MatchIndex(h, View(c), caps).Some?
  }

  /** The media codecs of a producer, each as what it comes to rest as. */
  ghost function RestedMedia(h: H264, codecs: seq<Codec>, caps: seq<Codec>): seq<Codec>
    requires MediaMatched(h, codecs, caps)
  {
    if codecs == [] then []
    else if IsRtx(codecs[0]) then RestedMedia(h, codecs[1..], caps)
    else
      assert codecs[0] in codecs;
      [Rested(h, codecs[0], caps)] + RestedMedia(h, codecs[1..], caps)
  }

  lemma {:induction false} RestedMediaAtRest(h: H264, codecs: seq<Codec>, caps: seq<Codec>)
    requires Lawful(h)
    requires MediaMatched(h, codecs, caps)
    ensures AllAtRest(h, RestedMedia(h, codecs, caps), caps)
  {
    hide AtRest, IsRtx, Rested;
    if codecs != [] {
      RestedMediaAtRest(h, codecs[1..], caps);
      if !IsRtx(codecs[0]) {
        assert codecs[0] in codecs;
        RestedIsAtRest(h, codecs[0], caps);
      }
    }
  }

  lemma {:induction false} ConsumableArePairs(h: H264, codecs: seq<Codec>, caps: seq<Codec>, entries: seq<MappedCodec>)
    requires Lawful(h)
    requires MediaMatched(h, codecs, caps)
    requires forall c :: c in codecs && !IsRtx(c) ==>
      Lookup(caps, entries, c.payloadType) == MatchIndex(h, View(c), caps)
    requires AllAtRest(h, RestedMedia(h, codecs, caps), caps)
    ensures ConsumableCodecs(AdjustedCodecs(h, codecs, caps), caps, entries) ==
      Some(Pairs(h, RestedMedia(h, codecs, caps), caps))
  {
    hide AtRest, IsRtx, Matches, Lawful, Lookup;
    if codecs != [] {
      var c := codecs[0];
      var adjusted := AdjustedCodecs(h, codecs, caps);
      assert adjusted[0] == AdjustedCodec(h, c, caps) && adjusted[1..] == AdjustedCodecs(h, codecs[1..], caps);
      AdjustingKeeps(h, c, caps);
      if IsRtx(c) {
        ConsumableArePairs(h, codecs[1..], caps, entries);
      } else {
        assert c in codecs;
        var ms := RestedMedia(h, codecs, caps);
        assert ms[0] == Rested(h, c, caps) && ms[1..] == RestedMedia(h, codecs[1..], caps);
        RestedIsAtRest(h, c, caps);
        ConsumableArePairs(h, codecs[1..], caps, entries);
      }
    }
  }

  /**
   The consumable codecs of a producer are pairs at rest: each media codec as the
   capability it was matched to, with the producer's own (adjusted) parameters,
   followed by the RTX codec of that capability.
   */
  lemma ConsumableAtRest(h: H264, codecs: seq<Codec>, caps: seq<Codec>, entries: seq<MappedCodec>)
    requires Lawful(h) && WellFormed(caps) && DistinctMedia(codecs) && IsMapping(h, codecs, caps, entries)
    ensures MediaMatched(h, codecs, caps) && AllAtRest(h, RestedMedia(h, codecs, caps), caps)
    ensures ConsumableCodecs(AdjustedCodecs(h, codecs, caps), caps, entries) ==
      Some(Pairs(h, RestedMedia(h, codecs, caps), caps))
  {
    hide IsRtx, Matches, Lookup, AtRest, Image, WellFormed, DistinctMedia;
    forall c | c in codecs && !IsRtx(c)
      ensures MatchIndex(h, View(c), caps).Some?
      ensures Lookup(caps, entries, c.payloadType) == MatchIndex(h, View(c), caps)
    {
      var i :| 0 <= i < |codecs| && codecs[i] == c;
      assert Image(h, codecs, caps, i).Some?;
      MediaImage(h, codecs, caps, i);
      LookupFindsImage(h, codecs, caps, entries, i);
    }
    RestedMediaAtRest(h, codecs, caps);
    ConsumableArePairs(h, codecs, caps, entries);
  }

  // ----- Across the pipe

  /** The media codec that the pipe consumer announces for `m`. */
  ghost function PipedMedia(h: H264, m: Codec, caps: seq<Codec>, enableRtx: bool): Codec
    requires AtRest(h, m, caps)
  {
    Reduced(caps[Target(h, m, caps)].(parameters := m.parameters), enableRtx)
  }

  ghost predicate HasRtx(h: H264, m: Codec, caps: seq<Codec>)
    requires AtRest(h, m, caps)
  {
    RtxIndex(caps, caps[Target(h, m, caps)].payloadType).Some?
  }

  /** The RTX codec that it announces for `m`. */
  ghost function PipedRtx(h: H264, m: Codec, caps: seq<Codec>, enableRtx: bool): Codec
    requires AtRest(h, m, caps) && HasRtx(h, m, caps)
  {
    Reduced(caps[RtxIndex(caps, caps[Target(h, m, caps)].payloadType).value].(channels := None), enableRtx)
  }

  lemma TargetIsMedia(h: H264, m: Codec, caps: seq<Codec>)
    requires AtRest(h, m, caps)
    ensures !IsRtx(caps[Target(h, m, caps)])
  {
    MatchKeepsRtx(h, m, caps[Target(h, m, caps)]);
  }

  lemma RtxCapability(h: H264, m: Codec, caps: seq<Codec>)
    requires AtRest(h, m, caps) && HasRtx(h, m, caps)
    ensures RtxIndex(caps, caps[Target(h, m, caps)].payloadType).Some?
    ensures IsRtx(caps[RtxIndex(caps, caps[Target(h, m, caps)].payloadType).value])
  {
  }

  lemma PipedPair(h: H264, m: Codec, caps: seq<Codec>, enableRtx: bool)
    requires AtRest(h, m, caps)
    ensures Piped(Pair(m, caps, Target(h, m, caps)), enableRtx) ==
      if enableRtx && HasRtx(h, m, caps) then [PipedMedia(h, m, caps, enableRtx), PipedRtx(h, m, caps, enableRtx)]
      else [PipedMedia(h, m, caps, enableRtx)]
  {
    hide AtRest, IsRtx;
    var pair := Pair(m, caps, Target(h, m, caps));
    TargetIsMedia(h, m, caps);
    RtxByMime(pair[0], caps[Target(h, m, caps)]);
    if HasRtx(h, m, caps) {
      RtxCapability(h, m, caps);
      RtxByMime(pair[1], caps[RtxIndex(caps, caps[Target(h, m, caps)].payloadType).value]);
      assert pair == [pair[0]] + [pair[1]];
      PipedConcat([pair[0]], [pair[1]], enableRtx);
    } else {
      assert pair == [pair[0]];
    }
  }

  ghost predicate IsPipedFrom(h: H264, e: Codec, m: Codec, caps: seq<Codec>, enableRtx: bool) {
    && AtRest(h, m, caps)
    && (|| e == PipedMedia(h, m, caps, enableRtx)
        || (enableRtx && HasRtx(h, m, caps) && e == PipedRtx(h, m, caps, enableRtx)))
  }

  /** Every announced codec comes from one at rest, and every one at rest is announced. */
  lemma {:induction false} PipedMembers(h: H264, ms: seq<Codec>, caps: seq<Codec>, enableRtx: bool)
    requires AllAtRest(h, ms, caps)
    ensures forall e :: e in Piped(Pairs(h, ms, caps), enableRtx) ==>
      exists m :: m in ms && IsPipedFrom(h, e, m, caps, enableRtx)
    ensures forall m :: m in ms ==> PipedMedia(h, m, caps, enableRtx) in Piped(Pairs(h, ms, caps), enableRtx)
  {
    hide AtRest, PipedMedia, PipedRtx, HasRtx;
    if ms != [] {
      var m := ms[0];
      var rest := Pairs(h, ms[1..], caps);
      PipedConcat(Pair(m, caps, Target(h, m, caps)), rest, enableRtx);
      PipedPair(h, m, caps, enableRtx);
      PipedMembers(h, ms[1..], caps, enableRtx);
      forall e | e in Piped(Pairs(h, ms, caps), enableRtx)
        ensures exists n :: n in ms && IsPipedFrom(h, e, n, caps, enableRtx)
      {
        if e in Piped(rest, enableRtx) {
          var n :| n in ms[1..] && IsPipedFrom(h, e, n, caps, enableRtx);
          assert n in ms;
        } else {
          assert IsPipedFrom(h, e, m, caps, enableRtx);
        }
      }
    }
  }

  lemma PipedMediaIsMatched(h: H264, m: Codec, caps: seq<Codec>, enableRtx: bool)
    requires AtRest(h, m, caps)
    ensures var e := PipedMedia(h, m, caps, enableRtx);
            && !IsRtx(e)
            && View(e) == View(m)
            && e.payloadType == caps[Target(h, m, caps)].payloadType
            && MatchIndex(h, View(e), caps) == Some(Target(h, m, caps))
            && AdjustedCodec(h, e, caps) == e
  {
    hide Matches, LooselyMatches;
    TargetIsMedia(h, m, caps);
  }

  lemma PipedRtxIsRtx(h: H264, m: Codec, caps: seq<Codec>, enableRtx: bool)
    requires WellFormed(caps) && AtRest(h, m, caps) && HasRtx(h, m, caps)
    ensures var e := PipedRtx(h, m, caps, enableRtx);
            && IsRtx(e)
            && AptIs(e, caps[Target(h, m, caps)].payloadType)
            && e.payloadType == caps[RtxIndex(caps, caps[Target(h, m, caps)].payloadType).value].payloadType
  {
    hide AtRest, WellFormed;
  }

  /** The two codecs announced under one payload type stand for the same capability. */
  lemma SamePayloadType(h: H264, e: Codec, m: Codec, m': Codec, caps: seq<Codec>, enableRtx: bool)
    requires WellFormed(caps) && AtRest(h, m, caps)
    requires IsPipedFrom(h, e, m', caps, enableRtx) && e.payloadType == caps[Target(h, m, caps)].payloadType
    ensures !IsRtx(e) && MatchIndex(h, View(e), caps) == Some(Target(h, m, caps))
  {
    hide AtRest, RtxPaired, PipedMedia, PipedRtx, HasRtx, AptIs, IsRtx;
    TargetIsMedia(h, m, caps);
    if e == PipedMedia(h, m', caps, enableRtx) {
      PipedMediaIsMatched(h, m', caps, enableRtx);
      assert Target(h, m, caps) == Target(h, m', caps);
    } else {
      PipedRtxIsRtx(h, m', caps, enableRtx);
      RtxCapability(h, m', caps);
      assert false;
    }
  }

  /** Codec `i` of a pipe consumer is mapped to the capability that has its payload type. */
  lemma PipedImage(h: H264, ms: seq<Codec>, caps: seq<Codec>, enableRtx: bool, i: nat)
    requires WellFormed(caps) && AllAtRest(h, ms, caps)
    requires i < |Piped(Pairs(h, ms, caps), enableRtx)|
    ensures var ps := Piped(Pairs(h, ms, caps), enableRtx);
            var k := Image(h, ps, caps, i);
            k.Some? && caps[k.value].payloadType == ps[i].payloadType && AdjustedCodec(h, ps[i], caps) == ps[i]
  {
    hide Image, AtRest, IsRtx, WellFormed, PipedMedia, PipedRtx, HasRtx, AdjustedCodec, Piped;
    var ps := Piped(Pairs(h, ms, caps), enableRtx);
    PipedMembers(h, ms, caps, enableRtx);
    assert ps[i] in ps;
    var m :| m in ms && IsPipedFrom(h, ps[i], m, caps, enableRtx);
    if ps[i] == PipedMedia(h, m, caps, enableRtx) {
      PipedMediaIsMatched(h, m, caps, enableRtx);
      MediaImage(h, ps, caps, i);
    } else {
      PipedRtxImage(h, ms, caps, enableRtx, m, i);
    }
  }

  lemma PipedRtxImage(h: H264, ms: seq<Codec>, caps: seq<Codec>, enableRtx: bool, m: Codec, i: nat)
    requires WellFormed(caps) && AllAtRest(h, ms, caps) && m in ms && HasRtx(h, m, caps)
    requires i < |Piped(Pairs(h, ms, caps), enableRtx)|
    requires Piped(Pairs(h, ms, caps), enableRtx)[i] == PipedRtx(h, m, caps, enableRtx)
    ensures var ps := Piped(Pairs(h, ms, caps), enableRtx);
            var k := Image(h, ps, caps, i);
            k.Some? && caps[k.value].payloadType == ps[i].payloadType && AdjustedCodec(h, ps[i], caps) == ps[i]
  {
    hide Image, AtRest, IsRtx, WellFormed, PipedRtx, HasRtx, AdjustedCodec, Piped, AptIs;
    var ps := Piped(Pairs(h, ms, caps), enableRtx);
    PipedRtxIsRtx(h, m, caps, enableRtx);
    RtxCapability(h, m, caps);
    var a := ProtectedCodec(h, ms, caps, enableRtx, m, i);
    MediaImage(h, ps, caps, a);
    RtxImage(h, ps, caps, i);
    AdjustingKeeps(h, ps[i], caps);
  }

  /** The codec that an announced RTX codec protects. */
  lemma ProtectedCodec(h: H264, ms: seq<Codec>, caps: seq<Codec>, enableRtx: bool, m: Codec, i: nat)
    returns (a: nat)
    requires WellFormed(caps) && AllAtRest(h, ms, caps) && m in ms && HasRtx(h, m, caps)
    requires i < |Piped(Pairs(h, ms, caps), enableRtx)|
    requires Piped(Pairs(h, ms, caps), enableRtx)[i] == PipedRtx(h, m, caps, enableRtx)
    ensures var ps := Piped(Pairs(h, ms, caps), enableRtx);
            && AptIndex(ps, ps[i]) == Some(a)
            && !IsRtx(ps[a])
            && MatchIndex(h, View(ps[a]), caps) == Some(Target(h, m, caps))
  {
    hide AtRest, IsRtx, WellFormed, PipedMedia, PipedRtx, HasRtx;
    var ps := Piped(Pairs(h, ms, caps), enableRtx);
    PipedMembers(h, ms, caps, enableRtx);
    PipedRtxIsRtx(h, m, caps, enableRtx);
    PipedMediaIsMatched(h, m, caps, enableRtx);
    var x :| 0 <= x < |ps| && ps[x] == PipedMedia(h, m, caps, enableRtx);
    a := AptIndex(ps, ps[i]).value;
    assert ps[a] in ps;
    var m' :| m' in ms && IsPipedFrom(h, ps[a], m', caps, enableRtx);
    SamePayloadType(h, ps[a], m, m', caps, enableRtx);
  }

  lemma {:induction false} ConsumedAgain(h: H264, ms: seq<Codec>, caps: seq<Codec>, enableRtx: bool,
                                         entries: seq<MappedCodec>)
    requires AllAtRest(h, ms, caps)
    requires forall m :: m in ms ==>
      Lookup(caps, entries, caps[Target(h, m, caps)].payloadType) == Some(Target(h, m, caps))
    ensures ConsumableCodecs(Piped(Pairs(h, ms, caps), enableRtx), caps, entries) == Some(Pairs(h, ms, caps))
  {
    hide AtRest, IsRtx, Lookup;
    if ms != [] {
      var m := ms[0];
      assert m in ms;
      var pair := Pair(m, caps, Target(h, m, caps));
      var rest := Piped(Pairs(h, ms[1..], caps), enableRtx);
      PipedConcat(pair, Pairs(h, ms[1..], caps), enableRtx);
      PipedPair(h, m, caps, enableRtx);
      PipedMediaIsMatched(h, m, caps, enableRtx);
      ConsumedAgain(h, ms[1..], caps, enableRtx, entries);
      var ps := Piped(Pairs(h, ms, caps), enableRtx);
      assert ps == Piped(pair, enableRtx) + rest;
      assert ps[0] == PipedMedia(h, m, caps, enableRtx);
      if enableRtx && HasRtx(h, m, caps) {
        assert ps[1..][0] == PipedRtx(h, m, caps, enableRtx) && ps[1..][1..] == rest;
        RtxStays(h, m, caps, enableRtx);
      } else {
        assert ps[1..] == rest;
      }
    }
  }

  lemma RtxStays(h: H264, m: Codec, caps: seq<Codec>, enableRtx: bool)
    requires AtRest(h, m, caps) && HasRtx(h, m, caps)
    ensures IsRtx(PipedRtx(h, m, caps, enableRtx))
  {
  }

  /** Lookups in a mapping that sends every payload type to itself. */
  lemma IdentityLookup(h: H264, ms: seq<Codec>, caps: seq<Codec>, enableRtx: bool, entries: seq<MappedCodec>, m: Codec)
    requires WellFormed(caps) && AllAtRest(h, ms, caps) && m in ms
    requires IsMapping(h, Piped(Pairs(h, ms, caps), enableRtx), caps, entries)
    requires forall e :: e in entries ==> e.mappedPayloadType == e.payloadType
    ensures Lookup(caps, entries, caps[Target(h, m, caps)].payloadType) == Some(Target(h, m, caps))
  {
    hide Image, AtRest, IsRtx, RtxPaired, PipedMedia, Piped;
    var ps := Piped(Pairs(h, ms, caps), enableRtx);
    PipedMembers(h, ms, caps, enableRtx);
    PipedMediaIsMatched(h, m, caps, enableRtx);
    var x :| 0 <= x < |ps| && ps[x] == PipedMedia(h, m, caps, enableRtx);
    LookupSucceeds(h, ps, caps, entries, x);
    var e := EntryIndex(entries, ps[x].payloadType).value;
    assert entries[e] in entries;
  }

  /**
   The pipe fixpoint. Mapping what a pipe consumer announces against the same
   capabilities succeeds, adjusts nothing, sends every payload type to itself, and
   yields the very consumable codecs that the pipe started from, RTX codecs included
   even when the pipe dropped them.
   */
  lemma PipeFixpoint(h: H264, ms: seq<Codec>, caps: seq<Codec>, enableRtx: bool, entries: seq<MappedCodec>)
    requires WellFormed(caps) && AllAtRest(h, ms, caps)
    ensures var ps := Piped(Pairs(h, ms, caps), enableRtx);
            && Mapped(h, ps, caps)
            && AdjustedCodecs(h, ps, caps) == ps
            && (IsMapping(h, ps, caps, entries) ==>
              && (forall e :: e in entries ==> e.mappedPayloadType == e.payloadType)
              && ConsumableCodecs(ps, caps, entries) == Some(Pairs(h, ms, caps)))
  {
    hide Image, AtRest, IsRtx, WellFormed, Piped, AdjustedCodec, Lookup;
    var ps := Piped(Pairs(h, ms, caps), enableRtx);
    forall i | 0 <= i < |ps|
      ensures Image(h, ps, caps, i).Some? && AdjustedCodec(h, ps[i], caps) == ps[i]
      ensures caps[Image(h, ps, caps, i).value].payloadType == ps[i].payloadType
    {
      PipedImage(h, ms, caps, enableRtx, i);
    }
    AdjustedCodecsAt(h, ps, caps);
    assert AdjustedCodecs(h, ps, caps) == ps;
    if IsMapping(h, ps, caps, entries) {
      assert forall e :: e in entries ==> e.mappedPayloadType == e.payloadType;
      forall m | m in ms
        ensures Lookup(caps, entries, caps[Target(h, m, caps)].payloadType) == Some(Target(h, m, caps))
      {
        IdentityLookup(h, ms, caps, enableRtx, entries, m);
      }
      ConsumedAgain(h, ms, caps, enableRtx, entries);
    }
  }
}
