/**
 The whole negotiation: from the media codecs a router is configured with, through a
 producer and any chain of pipes, to the consumers of the last router.
 */
module Negotiation {
  import opened Wrappers
  import opened Codecs
  import opened Rtp
  import opened RouterCapabilities
  import opened ProducerMapping
  import opened PipeCodecs
  import opened WorkerValidation
  import opened WorkerStreams
  import opened PipeAcceptance
  import opened PipeChain
  import opened SupportedCapabilities
  import ConsumerParameters
  import ConsumerAcceptance
  import CanConsume

  /** Routers configured with media codecs out of the supported ones. */
  ghost predicate Configured(supported: seq<MediaCodec>, media: seq<MediaCodec>, caps: RtpCapabilities) {
    SupportedIsSound(supported) && SupportsNoFec(supported) && Generated(supported, media) == Success(caps.codecs)
  }

  /** A producer before it is made: its parameters, the CNAME of its transport, and the random values drawn. */
  datatype Original = Original(params: RtpParameters, shared: Option<string>, random: string, base: int) {
    function Filled(): RtpParameters {
      Prepared(params, shared, random)
    }
  }

  /** A producer that such a router and the worker took, and what it offers. */
  ghost predicate Accepted(h: H264, kind: MediaKind, caps: RtpCapabilities, o: Original, offered: RtpParameters) {
    && TakesProducer(AdjustedCodecs(h, o.params.codecs, caps.codecs), o.Filled().encodings) && o.random != ""
    && IsProduced(h, kind, o.Filled(), caps, o.base, offered)
  }

  /** The codecs and extensions of real routers are of the kind that the theorems below are about. */
  lemma RoutersAreConfigured(media: seq<MediaCodec>, caps: RtpCapabilities, kind: MediaKind)
    requires Generated(SUPPORTED_CODECS, media) == Success(caps.codecs) && caps.headerExtensions == SUPPORTED_EXTENSIONS
    ensures Configured(SUPPORTED_CODECS, media, caps) && OffersCaptureTime(caps.headerExtensions, kind)
  {
    hide SUPPORTED_CODECS, SUPPORTED_EXTENSIONS, SupportedIsSound, SupportsNoFec, OffersCaptureTime;
    SupportedCodecsAreSound();
    RoutersOfferCaptureTime(kind);
  }

  lemma ConfiguredIsWellFormed(supported: seq<MediaCodec>, media: seq<MediaCodec>, caps: RtpCapabilities)
    requires Configured(supported, media, caps)
    ensures WellFormed(caps.codecs) && NoFec(caps.codecs)
  {
    hide SupportedIsSound, SupportsNoFec, WellFormed, NoFec;
    GeneratedIsWellFormed(supported, media);
    GeneratedHasNoFec(supported, media);
  }

  /**
   What an accepted producer offers is at rest. It repeats a payload type iff two of its codecs
   share a capability, and its streams can be carried iff the first media codec can carry them.
   */
  lemma OfferedIsAtRest(h: H264, kind: MediaKind, supported: seq<MediaCodec>, media: seq<MediaCodec>,
                        caps: RtpCapabilities, o: Original, offered: RtpParameters)
    requires Lawful(h) && Configured(supported, media, caps) && Accepted(h, kind, caps, o, offered)
    ensures WellFormed(caps.codecs) && ParametersAtRest(h, kind, caps, offered)
    ensures SpokenAtRest(h, offered.codecs, caps.codecs) && SameLayers(offered.encodings, o.Filled().encodings)
    ensures Pipeable(offered) <==>
      DistinctCapabilities(h, o.params.codecs, caps.codecs) && CarriedByFirst(o)
    ensures DistinctPayloadTypes(offered.codecs) <==> DistinctCapabilities(h, o.params.codecs, caps.codecs)
  {
    hide Configured, Lawful, WellFormed, NoFec, ParametersAtRest, SpokenAtRest, Accepts, DistinctMedia, Carried;
    hide AdjustedCodecs, DistinctPayloadTypes, DistinctCapabilities, MediaMime, CodecsProduced, ConsumableExtensions;
    hide TakesEncodings, TakesType, StreamsDiffer;
    ConfiguredIsWellFormed(supported, media, caps);
    AdjustingKeepsAccepted(h, o.params.codecs, caps.codecs);
    AcceptedIsDistinct(o.params.codecs);
    ProducedIsAtRest(h, kind, o.Filled(), caps, o.base, offered);
    ProducedIsSpoken(h, kind, o.Filled(), caps, o.base, offered);
    CarriedAlike(MediaMime(offered.codecs), offered.encodings, MediaMime(o.params.codecs), o.Filled().encodings);
    SimulcastIsPlain(h, o, caps.codecs);
  }

  /** The first media codec of the producer can carry its streams, whatever codec its encodings name. */
  ghost predicate CarriedByFirst(o: Original) {
    MediaMime(o.params.codecs).Some? && Fits(MediaMime(o.params.codecs).value, o.Filled().encodings)
  }

  lemma SimulcastIsPlain(h: H264, o: Original, caps: seq<Codec>)
    requires TakesProducer(AdjustedCodecs(h, o.params.codecs, caps), o.Filled().encodings)
    ensures Carried(MediaMime(o.params.codecs), o.Filled().encodings) <==> CarriedByFirst(o)
  {
    hide Accepts, TakesType, StreamsDiffer, MediaMime, Fits, SpatialLayers;
  }

  /** That is so for every accepted producer whose first encoding names no codec. */
  lemma UnnamedIsCarried(h: H264, kind: MediaKind, caps: RtpCapabilities, o: Original, offered: RtpParameters)
    requires Accepted(h, kind, caps, o, offered) && o.Filled().encodings[0].codecPayloadType.None?
    ensures CarriedByFirst(o)
  {
    hide Accepts, TakesEncodings, StreamsDiffer, MediaMime, Fits, IsProduced;
    AdjustedMediaMime(h, o.params.codecs, caps.codecs);
  }

  /**
   Between routers configured alike, a producer that could be piped once can be piped any
   number of times, with or without RTX at each hop. Every router on the way offers what
   the first one offers, SSRCs apart, and announces abs-capture-time iff the original
   producer negotiated it; and neither Node nor the worker refuses the next hop, unless
   the random SSRC bases that it draws for RTX are too close.
   */
  lemma PipesAreTransparent(h: H264, kind: MediaKind, supported: seq<MediaCodec>, media: seq<MediaCodec>,
                            caps: RtpCapabilities, o: Original, dd: Option<Extension>, routers: seq<RtpCapabilities>,
                            hops: seq<Hop>, cs: seq<RtpParameters>, n: nat, next: Hop)
    requires Lawful(h) && IsDescriptor(dd) && Configured(supported, media, caps)
    requires OffersCaptureTime(caps.headerExtensions, kind)
    requires Chain(h, kind, routers, dd, hops, cs) && n < |hops|
    requires forall i :: 0 <= i < |routers| ==> routers[i] == caps
    requires Accepted(h, kind, caps, o, cs[0])
    requires Drawn(hops[n], cs[0].encodings) && Drawn(next, cs[0].encodings)
    ensures cs[n + 1] == cs[0].(encodings := Renumbered(cs[0].encodings, hops[n].mappedBase))
    ensures HasUri(cs[n + 1].headerExtensions, AbsCaptureTime) <==> HasUri(o.params.headerExtensions, AbsCaptureTime)
    ensures var pipe := PipeOf(cs[n + 1], dd, next);
            && Mapped(h, pipe.codecs, caps.codecs)
            && (TakesPipe(pipe.codecs, pipe.encodings) <==> Apart(next, cs[0].encodings))
  {
    hide Lawful, HopLeads, WellFormed, ParametersAtRest, HasUri, Mapped, OffersCaptureTime, Configured, CodecsProduced;
    hide SpokenAtRest, Pipeable, PipeOf, TakesPipe, TakesProducer, Drawn, Apart, DistinctPayloadTypes, SameLayers;
    OfferedIsAtRest(h, kind, supported, media, caps, o, cs[0]);
    ChainFixpoint(h, kind, caps, routers, dd, hops, cs, n);
    ChainKeepsCaptureTime(h, kind, o.Filled(), caps, o.base, routers, dd, hops, cs, n + 1);
    HopFixpoint(h, kind, caps, dd, next, cs[n + 1], cs[n + 1]);
    ChainNeeds(h, kind, caps, routers, dd, hops, cs, n);
    RestedEncodings(h, kind, caps, cs[0]);
    TakenIff(h, kind, caps, dd, next, cs[0], cs[n + 1]);
  }

  /** A producer that Node maps and the worker takes offers something. */
  lemma AcceptedExists(h: H264, kind: MediaKind, caps: RtpCapabilities, o: Original) returns (offered: RtpParameters)
    requires TakesProducer(AdjustedCodecs(h, o.params.codecs, caps.codecs), o.Filled().encodings) && o.random != ""
    requires Mapped(h, o.params.codecs, caps.codecs)
    ensures Accepted(h, kind, caps, o, offered)
  {
    hide TakesProducer, IsProduced, Mapped, AdjustedCodecs;
    offered := ProducedExists(h, kind, o.Filled(), caps, o.base);
  }

  /**
   A producer that was made can be piped along any hops between routers configured alike iff
   its media codecs are matched to pairwise different capabilities, the first of them can carry
   its streams, and no hop draws SSRC bases for RTX that are too close.
   */
  lemma PipingWorksIff(h: H264, kind: MediaKind, supported: seq<MediaCodec>, media: seq<MediaCodec>,
                       caps: RtpCapabilities, o: Original, offered: RtpParameters, dd: Option<Extension>,
                       routers: seq<RtpCapabilities>, hops: seq<Hop>)
    requires Lawful(h) && IsDescriptor(dd) && Configured(supported, media, caps)
    requires Accepted(h, kind, caps, o, offered)
    requires hops != [] && |routers| == |hops| && forall i :: 0 <= i < |routers| ==> routers[i] == caps
    requires forall i :: 0 <= i < |hops| ==> Drawn(hops[i], offered.encodings)
    ensures (exists cs :: Chain(h, kind, routers, dd, hops, cs) && cs[0] == offered) <==>
      && DistinctCapabilities(h, o.params.codecs, caps.codecs) && CarriedByFirst(o)
      && forall i :: 0 <= i < |hops| ==> Apart(hops[i], offered.encodings)
  {
    hide Lawful, HopLeads, Accepted, WellFormed, ParametersAtRest, Configured, SameLayers;
    hide SpokenAtRest, Pipeable, DistinctPayloadTypes, DistinctCapabilities, CarriedByFirst, Drawn, Apart;
    OfferedIsAtRest(h, kind, supported, media, caps, o, offered);
    if cs :| Chain(h, kind, routers, dd, hops, cs) && cs[0] == offered {
      forall i | 0 <= i < |hops|
        ensures Pipeable(offered) && Apart(hops[i], offered.encodings)
      {
        ChainNeeds(h, kind, caps, routers, dd, hops, cs, i);
      }
      assert Apart(hops[0], offered.encodings);
    }
    if Pipeable(offered) && forall i :: 0 <= i < |hops| ==> Apart(hops[i], offered.encodings) {
      var cs := ChainExists(h, kind, caps, routers, dd, hops, offered);
    }
  }

  // ----- Consumers

  /** Whatever a consumer of an accepted producer gets, its RTX codecs protect media codecs that it gets too. */
  lemma ConsumersAreLinked(h: H264, kind: MediaKind, supported: seq<MediaCodec>, media: seq<MediaCodec>,
                           caps: RtpCapabilities,
                           o: Original, offered: RtpParameters, remote: RtpCapabilities, pipe: bool, enableRtx: bool,
                           draw: ConsumerParameters.Draw, out: RtpParameters)
    requires Lawful(h) && Configured(supported, media, caps) && Accepted(h, kind, caps, o, offered)
    requires ConsumerParameters.IsConsumer(h, offered, remote, pipe, enableRtx, draw, out)
    ensures ConsumerParameters.AptsNameMediaIn(out.codecs)
  {
    hide Lawful, WellFormed, AtRest, Configured, Accepted, Spoken;
    hide ConsumerParameters.IsConsumer, ConsumerParameters.AptsNameMediaIn, ParametersAtRest;
    OfferedIsAtRest(h, kind, supported, media, caps, o, offered);
    var ms :| AllAtRest(h, ms, caps.codecs) && Spoken(ms) && offered.codecs == Pairs(h, ms, caps.codecs);
    CanConsume.PairsNameMedia(h, ms, caps.codecs);
    ConsumerParameters.ConsumerRtxIsLinked(h, offered, remote, pipe, enableRtx, draw, out);
  }

  /** On real routers no consumer of an audio producer ever gets feedback for transport-cc. */
  lemma AudioHasNoTransportCc(h: H264, caps: RtpCapabilities, o: Original, offered: RtpParameters,
                              remote: RtpCapabilities, pipe: bool, enableRtx: bool, draw: ConsumerParameters.Draw,
                              out: RtpParameters, k: nat)
    requires caps.headerExtensions == SUPPORTED_EXTENSIONS && IsProduced(h, Audio, o.Filled(), caps, o.base, offered)
    requires ConsumerParameters.IsConsumer(h, offered, remote, pipe, enableRtx, draw, out) && k < |out.codecs|
    ensures forall fb :: fb in out.codecs[k].rtcpFeedback ==> fb.ftype != TransportCc
  {
    hide SUPPORTED_EXTENSIONS, HasUri, CodecsProduced, ConsumableExtensions, ConsumableEncodings;
    hide ConsumerParameters.IsConsumer;
    ConsumerParameters.ConsumerIsCoherent(h, offered, remote, pipe, enableRtx, draw, out);
    ConsumerParameters.ConsumerExtensions(h, offered, remote, pipe, enableRtx, draw, out, 0);
    RoutersOffer(Audio, o.Filled().headerExtensions, TransportWideCc);
    ConsumerParameters.UriIsThere(offered.headerExtensions, TransportWideCc);
    ConsumerParameters.UriIsThere(out.headerExtensions, TransportWideCc);
  }

  /**
   When Node has parameters for a consumer of an accepted producer, the worker takes them
   iff no media codec that the remote side can receive is on offer twice, and it can
   receive one that the worker takes for a media codec.
   */
  lemma ConsumingWorksIff(h: H264, kind: MediaKind, supported: seq<MediaCodec>, media: seq<MediaCodec>,
                          caps: RtpCapabilities,
                          o: Original, offered: RtpParameters, remote: RtpCapabilities, pipe: bool, enableRtx: bool,
                          draw: ConsumerParameters.Draw, out: RtpParameters)
    requires Lawful(h) && ProfilesPartition(h) && Configured(supported, media, caps)
    requires Accepted(h, kind, caps, o, offered)
    requires ConsumerParameters.IsConsumer(h, offered, remote, pipe, enableRtx, draw, out)
    ensures Accepts(out.codecs) <==>
      && !ConsumerAcceptance.RepeatsReceivable(h, offered.codecs, remote.codecs)
      && ConsumerAcceptance.OffersMedia(h, offered.codecs, remote.codecs)
    ensures DistinctCapabilities(h, o.params.codecs, caps.codecs) ==>
      !ConsumerAcceptance.RepeatsReceivable(h, offered.codecs, remote.codecs)
  {
    hide Lawful, ProfilesPartition, WellFormed, AtRest, Configured, Accepted, Spoken, Accepts, DistinctCapabilities;
    hide ConsumerParameters.IsConsumer, ConsumerAcceptance.SharesReceivable, ConsumerAcceptance.ReceivesMedia;
    hide ConsumerAcceptance.OffersMedia, ParametersAtRest;
    OfferedIsAtRest(h, kind, supported, media, caps, o, offered);
    var ms :| AllAtRest(h, ms, caps.codecs) && Spoken(ms) && offered.codecs == Pairs(h, ms, caps.codecs);
    ConsumerAcceptance.ConsumerIsAccepted(h, ms, caps.codecs, offered, remote, pipe, enableRtx, draw, out);
    ConsumerAcceptance.SharedIsRepeated(h, ms, caps.codecs, remote.codecs);
    ConsumerAcceptance.ReceivedIsOffered(h, ms, caps.codecs, remote.codecs);
  }
}
