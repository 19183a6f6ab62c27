/** Routers and producers, made step by step, for which piping fails or `canConsume` errs. */
module Witnesses {
  import opened Wrappers
  import opened Codecs
  import opened Rtp
  import opened RouterCapabilities
  import opened SupportedCapabilities
  import opened ProducerMapping
  import opened PipeCodecs
  import opened WorkerValidation
  import opened WorkerStreams
  import opened PipeAcceptance
  import opened PipeChain
  import opened Negotiation
  import CanConsume

  // ----- Routers

  const VP8_MIME: string := "video/VP8"
  const VP9_MIME: string := "video/VP9"

  const VP8: MediaCodec := MediaCodec(VP8_MIME, None, 90000, None, map[], [])
  const VP9: MediaCodec := MediaCodec(VP9_MIME, None, 90000, None, map[], [])

  const ROUTER_VP8: Codec := Codec(VP8_MIME, 100, 90000, None, map[], VIDEO_FEEDBACK)
  const ROUTER_RTX8: Codec := Codec(RTX_MIME, 101, 90000, None, map["apt" := Num(100)], [])
  const ROUTER_VP9: Codec := Codec(VP9_MIME, 102, 90000, None, map[], VIDEO_FEEDBACK)
  const ROUTER_RTX9: Codec := Codec(RTX_MIME, 103, 90000, None, map["apt" := Num(102)], [])

  lemma Mimes()
    ensures Lower(VP8_MIME) == "video/vp8" && Lower(VP9_MIME) == "video/vp9" && Lower(RTX_MIME) == "video/rtx"
  {
  }

  lemma AudioIsSlower()
    ensures forall s :: s in OPUS_CODECS + NARROWBAND_CODECS ==> s.clockRate < 90000
    ensures forall s :: s in SILK_CODECS + AUXILIARY_CODECS ==> s.clockRate < 90000
    ensures |OPUS_CODECS + NARROWBAND_CODECS + SILK_CODECS + AUXILIARY_CODECS| == 21
  {
  }

  lemma SupportedAt(j: nat)
    requires j < |SUPPORTED_CODECS|
    ensures j < 21 ==> SUPPORTED_CODECS[j].clockRate < 90000
    ensures 21 <= j ==> SUPPORTED_CODECS[j] == VIDEO_CODECS[j - 21]
  {
    AudioIsSlower();
    hide OPUS_CODECS, NARROWBAND_CODECS, SILK_CODECS, AUXILIARY_CODECS, VIDEO_CODECS;
    var audio := OPUS_CODECS + NARROWBAND_CODECS + SILK_CODECS + AUXILIARY_CODECS;
    assert SUPPORTED_CODECS == audio + VIDEO_CODECS;
    if j < 21 {
      assert SUPPORTED_CODECS[j] == audio[j];
      assert audio[j] in audio;
    }
  }

  lemma VideoIsSupported()
    ensures |SUPPORTED_CODECS| == 25
    ensures VIDEO_CODECS[0] == MediaCodec(VP8_MIME, None, 90000, None, map[], VIDEO_FEEDBACK)
    ensures VIDEO_CODECS[1] == MediaCodec(VP9_MIME, None, 90000, None, map[], VIDEO_FEEDBACK)
  {
  }

  lemma SupportedVp8()
    ensures SupportedIndex(VP8, SUPPORTED_CODECS) == Some(21)
    ensures SupportedIndex(VP9, SUPPORTED_CODECS) == Some(22)
  {
    VideoIsSupported();
    Mimes();
    hide SUPPORTED_CODECS, VIDEO_CODECS, Lower, SameStreams;
    forall j | 0 <= j < 21
      ensures !LooselyMatches(MediaView(VP8), MediaView(SUPPORTED_CODECS[j]))
      ensures !LooselyMatches(MediaView(VP9), MediaView(SUPPORTED_CODECS[j]))
    {
      SupportedAt(j);
    }
    SupportedAt(21);
    SupportedAt(22);
    assert "video/vp8"[8] != "video/vp9"[8] && "video/vp8"[0] != "audio/multiopus"[0];
    assert LooselyMatches(MediaView(VP8), MediaView(SUPPORTED_CODECS[21]));
    assert LooselyMatches(MediaView(VP9), MediaView(SUPPORTED_CODECS[22]));
    assert !LooselyMatches(MediaView(VP9), MediaView(SUPPORTED_CODECS[21]));
  }

  lemma AreVideo()
    ensures HasKind(VP8_MIME, "video/") && HasKind(VP9_MIME, "video/")
    ensures Normalize(VP8) == Success(VP8) && Normalize(VP9) == Success(VP9)
  {
    Mimes();
    assert "video/vp8"[..6] == "video/" && "video/vp9"[..6] == "video/";
  }

  /** What the generator does for one of the two codecs, while no payload type is taken twice. */
  lemma AddVideo(a: Allocation, vp9: bool)
    requires |a.free| >= 2 && PtIndex(a.codecs, a.free[0]).None?
    ensures var mime := if vp9 then VP9_MIME else VP8_MIME;
            var codec := Codec(mime, a.free[0], 90000, None, map[], VIDEO_FEEDBACK);
            Add(SUPPORTED_CODECS, a, if vp9 then VP9 else VP8) ==
            Success(Allocation(a.codecs + [codec, RtxFor(codec, a.free[1])], a.free[2..]))
  {
    SupportedVp8();
    VideoIsSupported();
    AreVideo();
    SupportedAt(21);
    SupportedAt(22);
    hide SUPPORTED_CODECS, VIDEO_CODECS, SupportedIndex, Normalize, HasKind, VIDEO_FEEDBACK;
    var k := if vp9 then 22 else 21;
    var m := if vp9 then VP9 else VP8;
    var s := SUPPORTED_CODECS[k];
    assert s.parameters + m.parameters == map[];
    assert a.free[1..][0] == a.free[1] && a.free[1..][1..] == a.free[2..];
  }

  lemma FirstDynamic()
    ensures DYNAMIC_PAYLOAD_TYPES[..4] == [100, 101, 102, 103] && |DYNAMIC_PAYLOAD_TYPES| == 32
  {
  }

  lemma FirstAdded()
    ensures Add(SUPPORTED_CODECS, START, VP8) ==
      Success(Allocation([ROUTER_VP8, ROUTER_RTX8], DYNAMIC_PAYLOAD_TYPES[2..]))
  {
    hide SUPPORTED_CODECS, VIDEO_FEEDBACK, Add, DYNAMIC_PAYLOAD_TYPES;
    FirstDynamic();
    var free := DYNAMIC_PAYLOAD_TYPES;
    assert free[0] == free[..4][0] == 100 && free[1] == free[..4][1] == 101;
    AddVideo(START, false);
    assert ROUTER_RTX8 == RtxFor(ROUTER_VP8, free[1]);
    assert START.codecs + [ROUTER_VP8, ROUTER_RTX8] == [ROUTER_VP8, ROUTER_RTX8];
  }

  lemma SecondAdded(a: Allocation)
    requires a == Allocation([ROUTER_VP8, ROUTER_RTX8], DYNAMIC_PAYLOAD_TYPES[2..])
    ensures var r := Add(SUPPORTED_CODECS, a, VP9);
            r.Success? && r.value.codecs == [ROUTER_VP8, ROUTER_RTX8, ROUTER_VP9, ROUTER_RTX9]
  {
    hide SUPPORTED_CODECS, VIDEO_FEEDBACK, Add, DYNAMIC_PAYLOAD_TYPES;
    FirstDynamic();
    var free := DYNAMIC_PAYLOAD_TYPES;
    assert a.free[0] == free[..4][2] == 102 && a.free[1] == free[..4][3] == 103;
    AddVideo(a, true);
    assert ROUTER_RTX9 == RtxFor(ROUTER_VP9, 103);
    assert [ROUTER_VP8, ROUTER_RTX8] + [ROUTER_VP9, ROUTER_RTX9] == [ROUTER_VP8, ROUTER_RTX8, ROUTER_VP9, ROUTER_RTX9];
  }

  /** A router configured with VP8, and one configured with VP8 and VP9. */
  lemma Routers()
    ensures Generated(SUPPORTED_CODECS, [VP8]) == Success([ROUTER_VP8, ROUTER_RTX8])
    ensures Generated(SUPPORTED_CODECS, [VP8, VP9]) == Success([ROUTER_VP8, ROUTER_RTX8, ROUTER_VP9, ROUTER_RTX9])
  {
    hide SUPPORTED_CODECS, Add, DYNAMIC_PAYLOAD_TYPES, ROUTER_VP8, ROUTER_RTX8, ROUTER_VP9, ROUTER_RTX9, VP8, VP9;
    FirstAdded();
    var one := Add(SUPPORTED_CODECS, START, VP8).value;
    SecondAdded(one);
    var two := Add(SUPPORTED_CODECS, one, VP9).value;
    assert [VP8][1..] == [] && [VP8, VP9][1..] == [VP9] && [VP9][1..] == [];
    assert AddAll(SUPPORTED_CODECS, one, []) == Success(one) && AddAll(SUPPORTED_CODECS, two, []) == Success(two);
    assert AddAll(SUPPORTED_CODECS, START, [VP8]) == Success(one);
    assert AddAll(SUPPORTED_CODECS, one, [VP9]) == Success(two);
    assert AddAll(SUPPORTED_CODECS, START, [VP8, VP9]) == Success(two);
  }

  // ----- Matching and kinds

  lemma Kinds()
    ensures KindOf(VP8_MIME) == Media && KindOf(VP9_MIME) == Media && KindOf(RTX_MIME) == Rtx
    ensures !IsRtxMime(VP8_MIME) && !IsRtxMime(VP9_MIME) && IsRtxMime(RTX_MIME)
  {
    Mimes();
    RtxIsKnown();
    assert "video/vp8"[..6] == "video/" && "video/vp8"[6..] == VIDEO_SUBTYPES[0];
    assert "video/vp9"[..6] == "video/" && "video/vp9"[6..] == VIDEO_SUBTYPES[1];
    RtxAlike(VP8_MIME);
    RtxAlike(VP9_MIME);
    RtxAlike(RTX_MIME);
  }

  /** A video codec as its mime type alone would have it. */
  function Plainly(mime: string): CodecToMatch {
    CodecToMatch(mime, 90000, None, map[])
  }

  lemma MimesMatch(h: H264, p: Parameters, q: Parameters)
    ensures Matches(h, Plainly(VP8_MIME), Plainly(VP8_MIME)) && Matches(h, Plainly(VP9_MIME), Plainly(VP9_MIME))
    ensures !Matches(h, Plainly(VP8_MIME), Plainly(VP9_MIME)) && !Matches(h, Plainly(VP9_MIME), Plainly(VP8_MIME))
    ensures Matches(h, CodecToMatch(RTX_MIME, 90000, None, p), CodecToMatch(RTX_MIME, 90000, None, q))
    ensures !Matches(h, CodecToMatch(RTX_MIME, 90000, None, p), Plainly(VP8_MIME))
    ensures !Matches(h, Plainly(VP8_MIME), CodecToMatch(RTX_MIME, 90000, None, p))
    ensures !Matches(h, Plainly(VP9_MIME), CodecToMatch(RTX_MIME, 90000, None, p))
  {
    Mimes();
    hide Lower;
    assert "video/vp8"[8] == '8' && "video/vp9"[8] == '9' && "video/rtx"[8] == 'x';
    assert "video/vp8"[0] == "video/vp9"[0] == "video/rtx"[0] == 'v' != "audio/multiopus"[0];
    assert |"video/h264"| == 10;
  }

  // ----- Two media codecs for one capability

  /** A producer of VP8 under two payload types. */
  const TWICE: seq<Codec> :=
    [Codec(VP8_MIME, 96, 90000, None, map[], []), Codec(VP8_MIME, 97, 90000, None, map[], [])]

  lemma TwiceIsTaken(h: H264)
    ensures var caps := [ROUTER_VP8, ROUTER_RTX8];
            Accepts(TWICE) && Mapped(h, TWICE, caps) && !DistinctCapabilities(h, TWICE, caps)
  {
    var caps := [ROUTER_VP8, ROUTER_RTX8];
    Kinds();
    MimesMatch(h, map[], map[]);
    hide KindOf, IsRtxMime, Matches, VIDEO_FEEDBACK;
    assert View(ROUTER_VP8) == Plainly(VP8_MIME) && View(TWICE[0]) == View(TWICE[1]) == Plainly(VP8_MIME);
    assert caps[0] == ROUTER_VP8;
    assert MatchIndex(h, Plainly(VP8_MIME), caps) == Some(0);
    assert IsMedia(TWICE[0]);
    assert Image(h, TWICE, caps, 0) == Image(h, TWICE, caps, 1) == Some(0);
  }

  /** A producer whose encodings were left out has one that every codec can carry. */
  lemma DefaultIsTaken(codecs: seq<Codec>)
    requires Accepts(codecs)
    ensures TakesProducer(codecs, [DEFAULT_ENCODING])
  {
    hide KindOf, DistinctPayloadTypes, LinkedAt;
    MediaMimeExists(codecs);
    hide MediaMime;
    assert !HasLayers(DEFAULT_ENCODING);
  }

  lemma DefaultIsAccepted(h: H264, caps: RtpCapabilities, o: Original) returns (offered: RtpParameters)
    requires o.params.encodings == [] && o.random != ""
    requires Accepts(o.params.codecs) && Mapped(h, o.params.codecs, caps.codecs)
    ensures Accepted(h, Video, caps, o, offered) && |offered.encodings| == 1
  {
    hide Accepts, Mapped, AdjustedCodecs, TakesProducer, CodecsProduced, ConsumableExtensions;
    AdjustingKeepsAccepted(h, o.params.codecs, caps.codecs);
    DefaultIsTaken(AdjustedCodecs(h, o.params.codecs, caps.codecs));
    offered := AcceptedExists(h, Video, caps, o);
  }

  ghost predicate AllDrawn(hops: seq<Hop>) {
    forall i :: 0 <= i < |hops| ==> IsRandomSsrc(hops[i].base) && IsRandomSsrc(hops[i].baseRtx)
  }

  /**
   A router of VP8 and the worker take a producer of VP8 under two payload types, but it
   cannot be piped anywhere: payload type 100 would be announced twice.
   */
  lemma SharedCapabilityCannotBePiped(h: H264, caps: RtpCapabilities, o: Original, dd: Option<Extension>,
                                      routers: seq<RtpCapabilities>, hops: seq<Hop>)
    returns (offered: RtpParameters)
    requires Lawful(h) && IsDescriptor(dd) && o.params.codecs == TWICE && o.params.encodings == [] && o.random != ""
    requires Generated(SUPPORTED_CODECS, [VP8]) == Success(caps.codecs)
    requires hops != [] && |routers| == |hops| && forall i :: 0 <= i < |routers| ==> routers[i] == caps
    requires AllDrawn(hops)
    ensures Accepted(h, Video, caps, o, offered)
    ensures forall cs :: Chain(h, Video, routers, dd, hops, cs) ==> cs[0] != offered
  {
    hide Lawful, SUPPORTED_CODECS, TWICE, ROUTER_VP8, ROUTER_RTX8, VP8, VP9, Accepts, Mapped, DistinctCapabilities;
    hide HopLeads, Accepted, SupportedIsSound, SupportsNoFec, CarriedByFirst, Apart;
    Routers();
    TwiceIsTaken(h);
    offered := DefaultIsAccepted(h, caps, o);
    SupportedCodecsAreSound();
    PipingWorksIff(h, Video, SUPPORTED_CODECS, [VP8], caps, o, offered, dd, routers, hops);
  }

  // ----- Encodings that name the second codec

  const VP9_THEN_VP8: seq<Codec> :=
    [Codec(VP9_MIME, 98, 90000, None, map[], []), Codec(VP8_MIME, 96, 90000, None, map[], [])]

  /** Simulcast of the codec with payload type 96. */
  const NAMING_VP8: seq<Encoding> := [
    Encoding(Some(1), None, Some(96), None, false, None, None),
    Encoding(Some(2), None, Some(96), None, false, None, None)]

  lemma NamingIsTaken()
    ensures Accepts(VP9_THEN_VP8) && TakesProducer(VP9_THEN_VP8, NAMING_VP8)
    ensures MediaMime(VP9_THEN_VP8) == Some(VP9_MIME) && !Fits(VP9_MIME, NAMING_VP8)
  {
    Kinds();
    Mimes();
    hide KindOf, IsRtxMime, Lower;
    assert "video/vp9"[8] != "video/vp8"[8] && |"video/h264"| == 10;
    assert IsMedia(VP9_THEN_VP8[0]) && IsMedia(VP9_THEN_VP8[1]);
    assert PtIndex(VP9_THEN_VP8, 96) == Some(1);
    assert forall i :: 0 <= i < 2 ==> NamesMediaCodec(VP9_THEN_VP8, NAMING_VP8[i]) && SpatialLayers(NAMING_VP8[i]) == 1;
    assert EncodingMime(VP9_THEN_VP8, NAMING_VP8[0]) == Some(VP8_MIME);
  }

  lemma NamingIsMapped(h: H264)
    ensures var caps := [ROUTER_VP8, ROUTER_RTX8, ROUTER_VP9, ROUTER_RTX9];
            Mapped(h, VP9_THEN_VP8, caps) && AdjustedCodecs(h, VP9_THEN_VP8, caps) == VP9_THEN_VP8
  {
    var caps := [ROUTER_VP8, ROUTER_RTX8, ROUTER_VP9, ROUTER_RTX9];
    Kinds();
    Mimes();
    BothAreMatched(h);
    hide KindOf, IsRtxMime, MatchIndex, RtxIndex, VIDEO_FEEDBACK, Lower, Matches;
    var cs := VP9_THEN_VP8;
    assert View(cs[0]) == Plainly(VP9_MIME) && View(cs[1]) == Plainly(VP8_MIME);
    assert Image(h, cs, caps, 0) == Some(2) && Image(h, cs, caps, 1) == Some(0);
    assert |"video/vp8"| == |"video/vp9"| != |"video/h264"|;
    assert AdjustedCodec(h, cs[0], caps) == cs[0] && AdjustedCodec(h, cs[1], caps) == cs[1];
    AdjustedCodecsAt(h, cs, caps);
  }

  /**
   A producer of VP9 and VP8 whose encodings name VP8 may send simulcast, but it cannot be
   piped: encodings on offer name no codec, so that the pipe producer would be one of VP9.
   */
  lemma NamedCodecCannotBePiped(h: H264, caps: RtpCapabilities, o: Original, dd: Option<Extension>,
                                routers: seq<RtpCapabilities>, hops: seq<Hop>)
    returns (offered: RtpParameters)
    requires Lawful(h) && IsDescriptor(dd) && o.params.codecs == VP9_THEN_VP8 && o.params.encodings == NAMING_VP8
    requires o.random != "" && Generated(SUPPORTED_CODECS, [VP8, VP9]) == Success(caps.codecs)
    requires hops != [] && |routers| == |hops| && forall i :: 0 <= i < |routers| ==> routers[i] == caps
    requires AllDrawn(hops)
    ensures Accepted(h, Video, caps, o, offered)
    ensures forall cs :: Chain(h, Video, routers, dd, hops, cs) ==> cs[0] != offered
  {
    hide Lawful, SUPPORTED_CODECS, VP9_THEN_VP8, VP8, VP9, Accepts, Mapped, DistinctCapabilities, TakesProducer;
    hide ROUTER_VP8, ROUTER_RTX8, ROUTER_VP9, ROUTER_RTX9, MediaMime, Fits, AdjustedCodecs, Apart;
    hide HopLeads, CodecsProduced, ConsumableExtensions, SupportedIsSound, SupportsNoFec;
    Routers();
    NamingIsTaken();
    NamingIsMapped(h);
    offered := AcceptedExists(h, Video, caps, o);
    assert |offered.encodings| == 2;
    SupportedCodecsAreSound();
    PipingWorksIff(h, Video, SUPPORTED_CODECS, [VP8, VP9], caps, o, offered, dd, routers, hops);
  }

  // ----- A remote side that canConsume turns away

  const BOTH: seq<Codec> := [
    Codec(VP8_MIME, 96, 90000, None, map[], []), Codec(RTX_MIME, 97, 90000, None, map["apt" := Num(96)], []),
    Codec(VP9_MIME, 98, 90000, None, map[], []), Codec(RTX_MIME, 99, 90000, None, map["apt" := Num(98)], [])]

  lemma BothAreTaken(h: H264)
    ensures Accepts(BOTH)
  {
    Kinds();
    hide KindOf, IsRtxMime;
    assert forall i :: 0 <= i < |BOTH| ==> Known(BOTH[i]);
    assert IsMedia(BOTH[0]);
    assert AptIs(BOTH[1], BOTH[0].payloadType) && Protectable(BOTH[0]);
    assert AptIs(BOTH[3], BOTH[2].payloadType) && Protectable(BOTH[2]);
    assert LinkedAt(BOTH, 0) && LinkedAt(BOTH, 1) && LinkedAt(BOTH, 2) && LinkedAt(BOTH, 3);
  }

  lemma BothAreMatched(h: H264)
    ensures var caps := [ROUTER_VP8, ROUTER_RTX8, ROUTER_VP9, ROUTER_RTX9];
            && MatchIndex(h, Plainly(VP8_MIME), caps) == Some(0)
            && MatchIndex(h, Plainly(VP9_MIME), caps) == Some(2)
            && RtxIndex(caps, 100) == Some(1) && RtxIndex(caps, 102) == Some(3)
  {
    var caps := [ROUTER_VP8, ROUTER_RTX8, ROUTER_VP9, ROUTER_RTX9];
    Kinds();
    MimesMatch(h, ROUTER_RTX8.parameters, ROUTER_RTX9.parameters);
    hide KindOf, IsRtxMime, Matches, VIDEO_FEEDBACK;
    assert View(ROUTER_VP8) == Plainly(VP8_MIME) && View(ROUTER_VP9) == Plainly(VP9_MIME);
    assert View(ROUTER_RTX8) == CodecToMatch(RTX_MIME, 90000, None, ROUTER_RTX8.parameters);
    assert caps[0] == ROUTER_VP8 && caps[1] == ROUTER_RTX8 && caps[2] == ROUTER_VP9 && caps[3] == ROUTER_RTX9;
  }

  lemma BothAreMapped(h: H264)
    ensures Mapped(h, BOTH, [ROUTER_VP8, ROUTER_RTX8, ROUTER_VP9, ROUTER_RTX9])
  {
    var caps := [ROUTER_VP8, ROUTER_RTX8, ROUTER_VP9, ROUTER_RTX9];
    Kinds();
    BothAreMatched(h);
    hide KindOf, IsRtxMime, MatchIndex, RtxIndex, VIDEO_FEEDBACK;
    assert View(BOTH[0]) == Plainly(VP8_MIME) && View(BOTH[2]) == Plainly(VP9_MIME);
    assert AptIndex(BOTH, BOTH[1]) == Some(0) && AptIndex(BOTH, BOTH[3]) == Some(2);
    assert caps[0].payloadType == 100 && caps[2].payloadType == 102;
    assert Image(h, BOTH, caps, 0) == Some(0) && Image(h, BOTH, caps, 2) == Some(2);
    assert Image(h, BOTH, caps, 1) == Some(1) && Image(h, BOTH, caps, 3) == Some(3);
  }

  /** Such a producer offers the codecs of its router. */
  lemma BothAreOffered(h: H264, entries: seq<MappedCodec>)
    requires Lawful(h)
    ensures var caps := [ROUTER_VP8, ROUTER_RTX8, ROUTER_VP9, ROUTER_RTX9];
            && WellFormed(caps)
            && (IsMapping(h, BOTH, caps, entries) ==>
              ConsumableCodecs(AdjustedCodecs(h, BOTH, caps), caps, entries) == Some(caps))
  {
    var caps := [ROUTER_VP8, ROUTER_RTX8, ROUTER_VP9, ROUTER_RTX9];
    assert WellFormed(caps) by {
      hide SUPPORTED_CODECS;
      Routers();
      SupportedCodecsAreSound();
      GeneratedIsWellFormed(SUPPORTED_CODECS, [VP8, VP9]);
    }
    if IsMapping(h, BOTH, caps, entries) {
      BothAreTaken(h);
      AcceptedIsDistinct(BOTH);
      ConsumableAtRest(h, BOTH, caps, entries);
      RestedBoth(h, caps);
      PairsAreAll(h, caps);
    }
  }

  lemma NothingAdjusted(h: H264, c: Codec, caps: seq<Codec>)
    requires c.mimeType == VP8_MIME || c.mimeType == VP9_MIME
    requires MatchIndex(h, View(c), caps).Some? && caps[MatchIndex(h, View(c), caps).value].parameters == c.parameters
    ensures Rested(h, c, caps) == caps[MatchIndex(h, View(c), caps).value]
  {
    Mimes();
    hide Lower, Matches;
    assert |"video/vp8"| == |"video/vp9"| != |"video/h264"|;
  }

  lemma RestedBoth(h: H264, caps: seq<Codec>)
    requires caps == [ROUTER_VP8, ROUTER_RTX8, ROUTER_VP9, ROUTER_RTX9] && MediaMatched(h, BOTH, caps)
    ensures RestedMedia(h, BOTH, caps) == [ROUTER_VP8, ROUTER_VP9]
  {
    Kinds();
    BothAreMatched(h);
    hide KindOf, IsRtxMime, MatchIndex, RtxIndex, VIDEO_FEEDBACK, Rested, MediaMatched;
    var one, two, three := BOTH[1..], BOTH[2..], BOTH[3..];
    assert View(BOTH[0]) == Plainly(VP8_MIME) && View(BOTH[2]) == Plainly(VP9_MIME);
    NothingAdjusted(h, BOTH[0], caps);
    NothingAdjusted(h, BOTH[2], caps);
    assert one[1..] == two && two[1..] == three && three[1..] == [];
    assert one[0] == BOTH[1] && two[0] == BOTH[2] && three[0] == BOTH[3];
    MatchedAfter(h, caps);
    assert RestedMedia(h, three, caps) == [];
    assert RestedMedia(h, two, caps) == [ROUTER_VP9];
    assert RestedMedia(h, one, caps) == [ROUTER_VP9];
  }

  lemma MatchedAfter(h: H264, caps: seq<Codec>)
    requires MediaMatched(h, BOTH, caps)
    ensures MediaMatched(h, BOTH[1..], caps) && MediaMatched(h, BOTH[2..], caps) && MediaMatched(h, BOTH[3..], caps)
    ensures MediaMatched(h, [], caps)
  {
  }

  lemma PairsAreAll(h: H264, caps: seq<Codec>)
    requires caps == [ROUTER_VP8, ROUTER_RTX8, ROUTER_VP9, ROUTER_RTX9]
    requires AllAtRest(h, [ROUTER_VP8, ROUTER_VP9], caps)
    ensures Pairs(h, [ROUTER_VP8, ROUTER_VP9], caps) == caps
  {
    BothAreMatched(h);
    hide AtRest, MatchIndex, RtxIndex, VIDEO_FEEDBACK;
    var ms := [ROUTER_VP8, ROUTER_VP9];
    assert ms[0] in ms && ms[1] in ms;
    assert View(ms[0]) == Plainly(VP8_MIME) && View(ms[1]) == Plainly(VP9_MIME);
    assert Pair(ms[0], caps, 0) == [ROUTER_VP8, ROUTER_RTX8];
    assert Pair(ms[1], caps, 2) == [ROUTER_VP9, ROUTER_RTX9];
    assert ms[1..][1..] == [] && ms[1..][0] == ms[1];
    assert Pairs(h, ms[1..][1..], caps) == [];
    assert Pairs(h, ms[1..], caps) == [ROUTER_VP9, ROUTER_RTX9];
  }

  lemma SecondOnlyIsReceived(h: H264)
    ensures var cs := [ROUTER_VP8, ROUTER_RTX8, ROUTER_VP9, ROUTER_RTX9];
            CanConsume.SecondOnly(h, cs, cs[2..])
  {
    Kinds();
    MimesMatch(h, ROUTER_RTX9.parameters, ROUTER_RTX8.parameters);
    hide KindOf, IsRtxMime, Matches, VIDEO_FEEDBACK;
    assert View(ROUTER_VP8) == Plainly(VP8_MIME) && View(ROUTER_VP9) == Plainly(VP9_MIME);
    assert View(ROUTER_RTX8) == CodecToMatch(RTX_MIME, 90000, None, ROUTER_RTX8.parameters);
    assert View(ROUTER_RTX9) == CodecToMatch(RTX_MIME, 90000, None, ROUTER_RTX9.parameters);
  }

  lemma RouterIsAtRest(h: H264)
    requires Lawful(h)
    ensures AllAtRest(h, [ROUTER_VP8, ROUTER_VP9], [ROUTER_VP8, ROUTER_RTX8, ROUTER_VP9, ROUTER_RTX9])
  {
    var caps := [ROUTER_VP8, ROUTER_RTX8, ROUTER_VP9, ROUTER_RTX9];
    Kinds();
    BothAreMatched(h);
    hide KindOf, IsRtxMime, MatchIndex, RtxIndex, VIDEO_FEEDBACK, Rested, AtRest, Lawful;
    assert View(ROUTER_VP8) == Plainly(VP8_MIME) && View(ROUTER_VP9) == Plainly(VP9_MIME);
    NothingAdjusted(h, ROUTER_VP8, caps);
    NothingAdjusted(h, ROUTER_VP9, caps);
    RestedIsAtRest(h, ROUTER_VP8, caps);
    RestedIsAtRest(h, ROUTER_VP9, caps);
  }

  lemma RouterLeads(h: H264, remote: seq<Codec>)
    requires Lawful(h) && ProfilesPartition(h)
    ensures CanConsume.MediaLeads(h, [ROUTER_VP8, ROUTER_RTX8, ROUTER_VP9, ROUTER_RTX9], remote)
  {
    hide Lawful, ProfilesPartition, ROUTER_VP8, ROUTER_RTX8, ROUTER_VP9, ROUTER_RTX9, WellFormed, AtRest, Pairs, BOTH;
    hide CanConsume.MediaLeads;
    var caps := [ROUTER_VP8, ROUTER_RTX8, ROUTER_VP9, ROUTER_RTX9];
    RouterIsAtRest(h);
    PairsAreAll(h, caps);
    BothAreOffered(h, []);
    CanConsume.PairsLead(h, [ROUTER_VP8, ROUTER_VP9], caps, remote);
  }

  lemma BothProduce(h: H264, kind: MediaKind, params: RtpParameters, caps: RtpCapabilities, base: int,
                    offered: RtpParameters)
    requires Lawful(h) && params.codecs == BOTH && caps.codecs == [ROUTER_VP8, ROUTER_RTX8, ROUTER_VP9, ROUTER_RTX9]
    requires IsProduced(h, kind, params, caps, base, offered)
    ensures offered.codecs == caps.codecs
  {
    hide Lawful, BOTH, ROUTER_VP8, ROUTER_RTX8, ROUTER_VP9, ROUTER_RTX9, Mapped, AreEntries, ConsumableCodecs;
    hide AdjustedCodecs, WellFormed;
    assert CodecsProduced(h, params.codecs, caps.codecs, offered.codecs);
    var entries :| IsMapping(h, BOTH, caps.codecs, entries)
      && ConsumableCodecs(AdjustedCodecs(h, BOTH, caps.codecs), caps.codecs, entries) == Some(offered.codecs);
    BothAreOffered(h, entries);
  }

  /**
   A router of VP8 and VP9, a producer of both with RTX, and a remote side that receives
   VP9 and RTX but not VP8: `canConsume` says no, although the consumer can be made.
   */
  lemma CanConsumeMayUnderestimate(h: H264, caps: RtpCapabilities, o: Original) returns (offered: RtpParameters)
    requires Lawful(h) && ProfilesPartition(h)
    requires o.params.codecs == BOTH && o.params.encodings == [] && o.random != ""
    requires Generated(SUPPORTED_CODECS, [VP8, VP9]) == Success(caps.codecs)
    ensures Accepted(h, Video, caps, o, offered) && offered.codecs == caps.codecs && |caps.codecs| == 4
    ensures var remote := caps.codecs[2..];
            !CanConsume.Predicted(h, offered.codecs, remote) && CanConsume.Consumes(h, offered.codecs, remote, true)
  {
    hide Lawful, ProfilesPartition, SUPPORTED_CODECS, BOTH, ROUTER_VP8, ROUTER_RTX8, ROUTER_VP9, ROUTER_RTX9, VP8, VP9;
    hide Accepts, AdjustedCodecs, Mapped, IsProduced, TakesProducer, CanConsume.SecondOnly, CanConsume.MediaLeads;
    hide CanConsume.Predicted, CanConsume.Consumes, CanConsume.Underestimates;
    Routers();
    BothAreTaken(h);
    BothAreMapped(h);
    offered := DefaultIsAccepted(h, caps, o);
    BothProduce(h, Video, o.Filled(), caps, o.base, offered);
    SecondOnlyIsReceived(h);
    var cs, remote := caps.codecs, caps.codecs[2..];
    CanConsume.SecondOnlyIsUnderestimated(h, cs, remote);
    RouterLeads(h, remote);
    CanConsume.CanConsumeIsExactUnless(h, cs, remote, true);
  }
}
