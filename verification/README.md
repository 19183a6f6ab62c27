# A verified model of mediasoup's control layer

This project models, in Dafny, the control layer of mediasoup: the code in Node (and, where
there is a second implementation, in Rust) that negotiates RTP parameters between producers,
routers and consumers, talks to the worker process over a channel, allocates SCTP stream ids,
and keeps routers, transports, producers and consumers in step when they are closed, piped or
paused. `dafny verify dfyconfig.toml` checks all of it.

Code that computes is modelled by functions; code that loops or updates objects by methods and
classes, each proved to compute what a function of its inputs, or of the old state, says. What
the code is for is then proved about those functions, for all inputs and all runs.

| file | what it models |
|---|---|
| `Codecs.dfy`, `Rtp.dfy` | codecs, mime types, parameters, and the codec matching rule |
| `RouterCapabilities.dfy`, `SupportedCapabilities.dfy` | the payload type allocator (Node and Rust) and the tables it starts from |
| `ProducerMapping.dfy` | the payload type mapping of a producer and the codecs it offers |
| `WorkerValidation.dfy`, `WorkerStreams.dfy` | which codecs and encodings the worker takes |
| `PipeCodecs.dfy`, `PipeAcceptance.dfy`, `PipeChain.dfy` | pipe consumers, what the worker says to them, and chains of pipes between routers |
| `RtxSanitizing.dfy`, `ConsumerParameters.dfy`, `ConsumerAcceptance.dfy`, `CanConsume.dfy` | what a consumer gets, whether the worker takes it, and the test that predicts whether it gets anything |
| `Negotiation.dfy`, `Witnesses.dfy` | all of these stages together, and routers and producers for which they fail |
| `ScalabilityModes.dfy` | scalability modes, as Node and Rust read and print them |
| `FrameDecoder.dfy`, `RequestCorrelator.dfy` | the two halves of the channel to the worker |
| `SctpStreams.dfy` | the SCTP stream id allocator of a transport |
| `CloseCascade.dfy`, `CascadeIndex.dfy`, `EntityClosing.dfy` | the close cascade, what it tells routers, and the entities it runs through |
| `RouterIndex.dfy`, `PauseMirror.dfy` | the index of one router, and pausing through a pipe |

## What is proved

**Negotiation.** The allocator hands out pairwise distinct payload types, puts an RTX codec
right after every video codec, and keeps as free exactly the dynamic types that no codec has; what
it generates for each configured codec, and when it refuses one, is stated without reference to
the free list. The producer mapping succeeds exactly when every codec has a capability of its
format and profile, and commutes with RTX links. What a producer
offers is a fixpoint: along any chain of pipes between routers configured alike, with or without
RTX at each hop, every router offers the same parameters, SSRCs apart
(`Negotiation.PipesAreTransparent`). A hop can still be refused by the worker, which checks the
codecs and encodings of the pipe consumer and of the pipe producer. A producer that was made can
be piped if and only if its media codecs are matched to pairwise different capabilities, the
first of them can carry its streams, and no hop draws SSRC bases for RTX that are too close
(`Negotiation.PipingWorksIff`); `Witnesses.SharedCapabilityCannotBePiped` and
`Witnesses.NamedCodecCannotBePiped` are producers that fail the first two. The worker takes the
codecs of an ordinary consumer if and only if no media codec that the remote side can receive is
on offer twice and it can receive one that the worker takes for a media codec
(`Negotiation.ConsumingWorksIff`). `canConsume` never promises more than Node can generate; it
promises too little in exactly one situation, stated as an if-and-only-if and shown to occur. The
Node and Rust ways of removing orphan RTX codecs agree exactly on the lists characterized in
`RtxSanitizing.NodeAgreesWithRust`.

**Channel.** Messages are delivered independently of how the byte stream is cut into chunks;
data is never discarded if message size, chunk size and 3 fit in the buffer limit, and that
bound is tight. A request is settled by the first response with its id, or aborted by a close before
it, and settles once (`RequestCorrelator.RequestFate`); it is lost exactly when its id comes round
again while it is pending.

**Entities.** A close cascade, re-entrant as it is, closes exactly what can be reached through
open entities and emits 'close' once for each, children strictly before their owner; when it
returns, the index of every open router is again the union of the producers of its open
transports. A listen server that closes breaks this exactly when its transport has producers.
Stream ids in use are pairwise distinct and freed once; they are handed out in cyclic order from
the stored cursor, so that a freed one comes back only after the cursor started over. Observers are told exactly the edges of
the effective pause state. A pipe producer ends in that state if and only if what the original
producer was in Node when the two were compared is the consumer's state when the listeners are
installed, or that state changed since; that state is what the last calls of producer and consumer
say (`PauseMirror.LastCallsDecide`). `PauseMirror.FlipDuringSync` and
`PauseMirror.ResponseAfterComparison` are runs that end wrong.

## Conventions and assumptions

- Random SSRC bases and CNAMEs are parameters, and so are the worker's responses to requests other than
  those that make producers and consumers.
- The H264 profile library is a parameter, constrained by `Codecs.Lawful`: codecs of the same
  profile get an answer, and adopting the answer changes neither the profile nor the answer.
  Where remote sides are concerned, also by `Codecs.ProfilesPartition`: having the same profile
  is symmetric and transitive. `Codecs.LawfulExists` exhibits one such library.
- Some lemmas require the payload types of a producer's media codecs to differ (`DistinctMedia`).
  In `Negotiation.dfy` this follows from the worker having taken the producer.
- Remote capabilities and producer parameters are taken after normalization.
- Where a comment or message of the source disagrees with the code, the code is followed. When
  a listen server closes, a comment in `Transport.listenServerClosed` (lines 366 to 367) says
  that the router need not be told about the producers because it has been closed; the router
  is still open, and `RouterIndex.ListenServerBreaksAgreement` states the consequence. The
  warning in `allocateSctpStreamId` says that the negotiated number of streams is higher than
  the cursor plus one, and is logged when it is lower; the model resets the cursor in the latter
  case.

## Model

| member | source | states |
|---|---|---|
| Codecs.AdjustedMatchesAlike | node/src/ortc.ts:934-1027 | a codec that adopted the capability it strictly matched, profile-level-id adjusted, matches the same capabilities as before and would be adjusted no further |
| Codecs.MatchIndex | node/src/ortc.ts:371-373 | the first capability a codec strictly matches, or that it matches none |
| Codecs.AptIndex | node/src/ortc.ts:391-393 | the first codec whose payload type an RTX codec's apt names, or that there is none |
| Codecs.RtxIndex | node/src/ortc.ts:404-408 | the first RTX codec whose apt is a given payload type, or that there is none |
| Codecs.LawfulExists | node/src/ortc.ts:985-1006 | what the proofs expect of the H264 library can be met |
| Codecs.MatchedAlike | node/src/ortc.ts:934-1010 | codecs that matched one capability and differ in parameters only are matched by the same remote capabilities |
| Codecs.MatchingMeans | node/src/ortc.ts:934-1010 | codecs match iff mime type up to case, clock rate and channels are the same and, for multiopus, the streams; strictly iff also the VP9 profile or the H264 packetization mode and profile are, missing and empty numbers counting as 0 |
| Codecs.AdjustingMeans | node/src/ortc.ts:985-1006 | a strict match with modification changes nothing but the profile-level-id of an H264 codec, which becomes the answer of the library or goes away |
| RouterCapabilities.GenerateNode | node/src/ortc.ts:234-317 | the Node loop, with shift and splice, computes the generated codecs or the first error |
| RouterCapabilities.GenerateRust | rust/src/ortc.rs:266-389 | the Rust loop, with retain and remove, computes the very same codecs or error |
| RouterCapabilities.RemoveFirstKeeps | node/src/ortc.ts:257-261 | splicing a payload type out leaves the others, distinct, and equals retaining all others |
| RouterCapabilities.AddKeepsSound | node/src/ortc.ts:252-316 | one media codec keeps payload types distinct, RTX pairing, and free types dynamic and unused |
| RouterCapabilities.AddConserves | node/src/ortc.ts:252-316 | after any media codec the free types are, in order, exactly the dynamic ones that no generated codec has |
| RouterCapabilities.AddSucceedsIff | node/src/ortc.ts:238-316 | one media codec is added iff it is valid, some supported codec has its format, its configured or static payload type is not in use, and as many dynamic types are unused as it takes; otherwise which error |
| RouterCapabilities.GeneratedIsWellFormed | node/src/ortc.ts:228-317 | generated payload types are pairwise distinct, and RTX codecs are exactly those right after a video codec, with its apt and clock rate and a type in 96..127 |
| RouterCapabilities.GeneratedRepresents | node/src/ortc.ts:238-316 | RTX aside, the generated list represents the configured codecs one by one in order: the first supported codec of the same format, with the configured payload type, else its static one, else the first dynamic type not in use before it, and the configured parameters over its own; the RTX codec takes the first dynamic type unused after that |
| RouterCapabilities.GeneratedTakes | node/src/ortc.ts:252-316 | of the 32 dynamic types a generated list uses exactly one per codec with neither a configured nor a static type, one per configured dynamic type, and one per video codec |
| RouterCapabilities.CapacityFrom | node/src/ortc.ts:267-316 | from any state: success iff enough types are free, failure only for want of one, types handed out in order |
| RouterCapabilities.Capacity | node/src/ortc.ts:36-40 | for dynamic codecs: success iff audio + 2 x video <= 32, no duplicate error, and which types are assigned: 100 to 127, then 96 to 99 |
| SupportedCapabilities.SupportedCodecsAreSound | node/src/supportedRtpCapabilities.ts:3-205 | no supported codec is RTX or FEC and no static payload type is a dynamic one |
| SupportedCapabilities.SupportedAreKnown | worker/src/RTC/RtpDictionaries/RtpCodecMimeType.cpp:24-126 | the worker knows every supported codec, and takes all but CN and telephone-event for media codecs |
| WorkerValidation.RtxAlike | worker/src/RTC/RtpDictionaries/RtpCodecMimeType.cpp:24-126 | on the mime types that the worker knows, it calls RTX exactly what Node's pattern calls RTX |
| WorkerValidation.ValidateCodecs | worker/src/RTC/RtpDictionaries/RtpParameters.cpp:245-306 | the loop passes iff no payload type is repeated and every RTX codec protects a codec of the list; otherwise the codec at which it stops and why |
| WorkerValidation.Validate | worker/src/RTC/RtpDictionaries/RtpParameters.cpp:101-157 | codecs are taken iff all are known, that loop passes, and one is a media codec; otherwise why not |
| WorkerValidation.GeneratedHasNoFec | node/src/ortc.ts:228-317 | no generated router codec is one that RTX may not protect |
| WorkerValidation.SelectionIsAccepted | worker/src/RTC/RtpDictionaries/RtpParameters.cpp:245-306 | a selection of a list with other feedback is accepted iff the selected positions are |
| WorkerStreams.ValidateEncodings | worker/src/RTC/RtpDictionaries/RtpParameters.cpp:309-380 | encodings are taken iff there are some, simulcast has no spatial layers, and codecs they name are media codecs |
| WorkerStreams.RegisterSsrcs | worker/src/RTC/RtpListener.cpp:57-101 | the table accepts a producer iff no two of its media and RTX streams share an SSRC |
| WorkerStreams.CarriedIsTaken | worker/src/RTC/Producer.cpp:36-63 | encodings that name no codec are taken iff the first media codec can carry simulcast or layers as they need |
| WorkerStreams.FitsIff | worker/src/RTC/RtpDictionaries/RtpParameters.cpp:24-60 | a codec can carry the streams iff the worker finds a producer type for them and that type is valid for the codec |
| ProducerMapping.MapMediaCodecs | node/src/ortc.ts:361-382 | every media codec gets the first capability it matches and is adjusted to it; otherwise the first that matches none is reported |
| ProducerMapping.MapRtxCodecs | node/src/ortc.ts:384-419 | every RTX codec gets the RTX capability of what it protects; otherwise the first failing one and why: it names nothing, or an RTX codec not mapped yet, or a codec whose capability has no RTX |
| ProducerMapping.GetMapping | node/src/ortc.ts:352-427 | success iff every codec has an image; then the entries, media codecs first, and the adjusted codecs; else the first offender and which of the four reasons holds |
| ProducerMapping.MappedIff | node/src/ortc.ts:352-427 | against router capabilities mapping succeeds iff every media codec has a capability of its format and profile and every RTX codec names a media codec whose first such capability is a video one, wherever it stands in the list |
| ProducerMapping.MediaImageAgrees | node/src/ortc.ts:361-382 | a media codec is mapped to the first capability with its format and profile, and to none iff there is none |
| ProducerMapping.AdjustedAt | node/src/ortc.ts:985-1006 | the codecs of a mapped producer come back unchanged but for the profile-level-id of H264 codecs, which is the answer for the capability they are mapped to |
| ProducerMapping.RtxCommutes | node/src/ortc.ts:384-419 | an accepted RTX codec protects a media codec, never an RTX one, and its image is the RTX capability of that codec's image |
| ProducerMapping.RtxOfCapability | node/src/ortc.ts:404-408 | the RTX codec found for a capability is the next one if it is a video codec, else there is none |
| ProducerMapping.GetConsumableCodecs | node/src/ortc.ts:463-504 | the loop computes, codec by codec, the capability found through the mapping with the producer's parameters and its RTX codec, or fails with a lookup |
| ProducerMapping.LookupSucceeds | node/src/ortc.ts:468-474 | after a successful mapping both lookups succeed for every media codec |
| ProducerMapping.LookupFindsImage | node/src/ortc.ts:468-474 | with distinct payload types they find the very capability that was matched |
| ProducerMapping.ConsumableIsTotal | node/src/ortc.ts:463-504 | building the consumable codecs never fails after a successful mapping, whatever the payload types |
| PipeCodecs.GetPipeCodecs | node/src/ortc.ts:816-834 | the loop computes the announced codecs of a pipe consumer |
| PipeCodecs.PipedAt | node/src/ortc.ts:821-834 | each announced codec is a consumable one in order, RTX codecs only when enabled; of its feedback exactly NACK PLI and CCM FIR stay, and generic NACK when RTX is enabled |
| PipeCodecs.PipeFeedbackInOrder | node/src/ortc.ts:826-831 | feedback that stays keeps its order |
| PipeCodecs.PairIsComplete | node/src/ortc.ts:476-503 | what is offered for a capability: its codec, field by field, with the producer's parameters and, for video, the RTX codec next to it, without channels, protecting it |
| PipeCodecs.RestedIsAtRest | node/src/ortc.ts:476-483 | a matched codec offered as its capability is matched to that capability again and needs no adjustment |
| PipeCodecs.ConsumableAtRest | node/src/ortc.ts:449-504 | what a producer offers is a list of codecs at rest, each followed by the RTX codec of its capability |
| PipeCodecs.PipedImage | node/src/ortc.ts:352-427 | every codec of a pipe consumer, RTX or not, is mapped to the capability with its own payload type and not adjusted |
| PipeCodecs.PipeFixpoint | node/src/ortc.ts:801-834 | mapping what a pipe consumer announces succeeds, is the identity on payload types, and yields the same consumable codecs, dropped RTX codecs included |
| PipeAcceptance.PipedIsAccepted | worker/src/RTC/RtpDictionaries/RtpParameters.cpp:245-306 | the worker takes the codecs of a pipe consumer, with RTX or without, iff no two media codecs of the producer are matched to the same capability |
| PipeAcceptance.DistinctlyOffered | node/src/ortc.ts:463-504 | which is the case iff the offered list repeats no payload type |
| PipeAcceptance.SelectedPairsAccepted | worker/src/RTC/RtpDictionaries/RtpParameters.cpp:245-306 | any selection in which RTX codecs keep a media codec they protect is taken iff nothing is in it twice and it holds a media codec |
| PipeAcceptance.RestedTargets | node/src/ortc.ts:361-382 | offered codecs have different targets iff the producer's media codecs have different capabilities |
| PipeAcceptance.RestedIsSpoken | node/src/ortc.ts:463-504 | what a producer taken by the worker offers is known to the worker and holds a media codec |
| PipeAcceptance.AdjustingKeepsAccepted | node/src/ortc.ts:934-1010 | adjusting profile-level-ids changes nothing for the worker |
| PipeChain.GetConsumableExtensions | node/src/ortc.ts:506-536 | the loop computes the extensions offered to consumers |
| PipeChain.OfferedExtensions | node/src/ortc.ts:506-536 | an extension is offered, with the router's id and encryption, iff some capability of that kind is neither recvonly nor inactive and, for abs-capture-time, the producer negotiated it |
| PipeChain.OfferedInOrder | node/src/ortc.ts:506-536 | extensions are offered in the order of the capabilities |
| PipeChain.GetConsumableEncodings | node/src/ortc.ts:538-555 | encodings are kept in order, stripped of rid, rtx and codec, and numbered from the mapped base |
| PipeChain.PreparedIs | node/src/Transport.ts:484-511 | a producer without encodings gets one with nothing in it; CNAME apart, nothing else is filled in |
| PipeChain.OneCname | node/src/Transport.ts:493-511 | all producers made one after the other on a transport that is not a pipe get the CNAME of the first, or the random one drawn for it |
| PipeChain.Produce | node/src/Transport.ts:484-533 | mapping and consumable parameters as produce chains them: success iff mapped, and then all fields; which CNAME the producer gets, and the one that its transport settles on |
| PipeChain.GetPipeParameters | node/src/ortc.ts:801-883 | the pipe consumer parameters: codecs, extensions, encodings |
| PipeChain.PipeParametersAre | node/src/ortc.ts:801-883 | a pipe consumer keeps number, order and settings of encodings, CNAME, reduced size and msid; SSRCs count up from the bases, RTX ones iff RTX is enabled |
| PipeChain.PipeExtensionsAre | node/src/ortc.ts:836-859 | exactly the extensions other than MID, abs-send-time and transport-wide-cc, plus the dependency descriptor if there is one, and then sorted by id |
| PipeChain.SortIsStable | node/src/ortc.ts:856-858 | sorting by id keeps the order of extensions with the same id |
| PipeChain.ExtensionFixpoint | node/src/ortc.ts:506-536 | offering extensions again after a pipe offers the same ones |
| PipeChain.PipeSsrcs | node/src/ortc.ts:865-880 | SSRCs fit 32 bits and are distinct within media and within RTX streams, which are there iff RTX is enabled |
| PipeChain.SsrcsCollide | node/src/ortc.ts:865-880 | a media and an RTX stream get the same SSRC iff the bases are less than the number of encodings apart |
| PipeChain.ChainSsrcs | node/src/ortc.ts:429-440 | the SSRCs that consumers see after any number of hops fit 32 bits and are distinct |
| PipeChain.PipeStreams | worker/src/RTC/RtpListener.cpp:57-101 | the worker finds the SSRCs of a pipe producer distinct iff the bases are apart |
| PipeChain.HopKeepsStreams | node/src/Router.ts:1103-1114 | one hop keeps number, order and settings of encodings, CNAME and msid |
| PipeChain.ChainKeepsStreams | node/src/Router.ts:1103-1114 | so does any chain of hops through any routers |
| PipeChain.ChainKeepsCaptureTime | node/src/ortc.ts:515-526 | abs-capture-time is offered after n hops iff the original producer negotiated it |
| PipeChain.RoutersOfferCaptureTime | node/src/supportedRtpCapabilities.ts:292-305 | routers can offer abs-capture-time for both kinds |
| PipeChain.RoutersOffer | node/src/supportedRtpCapabilities.ts:206-333 | which extensions consumers of each kind are offered on real routers, abs-capture-time iff negotiated |
| PipeChain.ProducedIsAtRest | node/src/ortc.ts:449-565 | whatever a producer offers is at rest |
| PipeChain.ProducedIsSpoken | node/src/ortc.ts:449-565 | if the worker took the producer, its offer repeats a payload type iff two media codecs share a capability, and its first media codec stays the first |
| PipeChain.HopIsTaken | worker/src/RTC/Producer.cpp:36-63 | the worker takes pipe consumer and pipe producer iff no payload type is repeated, the first media codec can carry the streams, and the SSRC bases are apart |
| PipeChain.HopFixpoint | node/src/Router.ts:1103-1114 | from there the mapping of a hop succeeds, and a hop changes nothing but SSRCs |
| PipeChain.ChainFixpoint | node/src/Router.ts:1103-1114 | along any chain between routers configured alike every router offers the same |
| PipeChain.ChainNeeds | node/src/Router.ts:1103-1114 | every hop of a chain shows that what it started from meets the worker's conditions |
| PipeChain.ChainExists | node/src/Router.ts:1103-1114 | what is at rest and meets them can be piped along any hops, each one succeeding |
| Negotiation.RoutersAreConfigured | node/src/ortc.ts:215-232 | real routers are of the kind the next two theorems are about |
| Negotiation.PipesAreTransparent | node/src/Router.ts:1098-1114 | all stages together: configured routers, a producer taken by the worker, any chain of pipes: same offer, capture time iff negotiated; the next hop is mapped, and taken iff its SSRC bases are apart |
| Negotiation.PipingWorksIff | node/src/Router.ts:1098-1114 | a producer that was made can be piped along given hops iff its media codecs have different capabilities, the first of them can carry its streams, and every hop draws bases that are apart |
| Negotiation.UnnamedIsCarried | worker/src/RTC/RtpDictionaries/RtpParameters.cpp:309-380 | the first media codec can carry the streams of every producer whose first encoding names no codec |
| Negotiation.OfferedIsAtRest | node/src/ortc.ts:449-565 | what a producer taken by the worker offers is at rest, and when it can be piped |
| Negotiation.ConsumersAreLinked | node/src/ortc.ts:606-680 | all stages together: RTX codecs of any consumer protect media codecs of that consumer |
| Negotiation.AudioHasNoTransportCc | node/src/ortc.ts:682-719 | all stages together: on real routers no consumer of an audio producer gets transport-cc feedback, since routers offer that extension for video only |
| Negotiation.ConsumingWorksIff | worker/src/RTC/Consumer.cpp:42-43 | the worker takes the codecs of a consumer iff no receivable media codec is on offer twice and a media codec is receivable; never twice if the producer's codecs have different capabilities |
| Witnesses.Routers | node/src/ortc.ts:228-317 | what the generator makes of VP8, and of VP8 and VP9 |
| Witnesses.SharedCapabilityCannotBePiped | worker/src/RTC/RtpDictionaries/RtpParameters.cpp:253-260 | VP8 under two payload types: taken as a producer, refused as a pipe |
| Witnesses.NamedCodecCannotBePiped | worker/src/RTC/Producer.cpp:36-63 | VP9 and VP8 with simulcast encodings that name VP8: taken as a producer, refused as a pipe |
| Witnesses.CanConsumeMayUnderestimate | node/src/ortc.ts:592-594 | VP8 and VP9 with RTX towards a side that receives VP9 and RTX only: refused although consuming works, from generated router codecs through an accepted producer |
| RtxSanitizing.SanitizeNode | node/src/ortc.ts:656-672 | the backward splice loop keeps exactly the codecs that NodeKeeps describes; rtxSupported iff an RTX codec is left |
| RtxSanitizing.SanitizeRust | rust/src/ortc.rs:792-815 | collecting positions and removing them in reverse keeps exactly the codecs that RustKeeps describes |
| RtxSanitizing.NodeAgreesWithRust | node/src/ortc.ts:656-672 | both keep the same codecs iff no RTX codec names a payload type carried only by later RTX codecs that protect nothing |
| RtxSanitizing.NodeAndRustPart | rust/src/ortc.rs:792-815 | two RTX codecs on which they differ |
| RtxSanitizing.BothAreTheFilter | node/src/ortc.ts:656-672 | when apt values name media codecs only, both are the filter for media codecs and RTX codecs whose media codec is present |
| ConsumerParameters.GetMatchedCodecs | node/src/ortc.ts:636-654 | the loop computes the matched codecs with the feedback of the remote side |
| ConsumerParameters.GetConsumerParameters | node/src/ortc.ts:606-793 | success iff the sanitized list starts with a media codec; then codecs, extensions, feedback and encodings as specified |
| ConsumerParameters.ConsumerCodecAt | node/src/ortc.ts:636-719 | each codec of a consumer is a receivable consumable one; a feedback of the matched remote capability is there iff it is not generic NACK without RTX, if transport-cc its extension is negotiated, and if REMB abs-send-time is and that extension is not |
| ConsumerParameters.FilteredInOrder | node/src/ortc.ts:649-719 | feedback that stays keeps its order |
| ConsumerParameters.ConsumerExtensions | node/src/ortc.ts:682-687 | a consumer gets exactly the offered extensions that the remote side has under the same id, in order |
| ConsumerParameters.ProducerModeIs | node/src/ortc.ts:730-738 | the scalability mode is that of the first encoding that has one which is not empty |
| ConsumerParameters.ConsumerHasAll | node/src/ortc.ts:636-672 | every receivable media codec is there, and every receivable RTX codec with its media codec |
| ConsumerParameters.ConsumerRtxIsLinked | node/src/ortc.ts:656-672 | every RTX codec of a consumer protects one of its media codecs |
| ConsumerParameters.ConsumerIsCoherent | node/src/ortc.ts:636-790 | without RTX no RTX codec and no generic NACK; transport-cc and REMB feedback only with their extension, never both; RTX SSRCs iff an RTX codec |
| ConsumerParameters.ConsumerStream | node/src/ortc.ts:721-768 | the single encoding has no rid, codec or dtx, RTX takes the next SSRC, the mode stays with one encoding, up to 99 become as many spatial layers, and maxBitrate is the greatest |
| CanConsume.CanConsume | node/src/ortc.ts:570-597 | true iff the first receivable codec is a media codec |
| CanConsume.CanConsumeIsSound | node/src/ortc.ts:570-597 | if it says yes, generating the consumer cannot fail, with or without RTX, for any lists |
| CanConsume.ConsumesIffMediaReceivable | node/src/ortc.ts:625-680 | if receivable RTX codecs come after some receivable media codec, generation succeeds iff some media codec is receivable |
| CanConsume.CanConsumeIsExactUnless | node/src/ortc.ts:591-594 | the two agree iff it is not the case that an RTX codec is the first receivable one and a media codec is receivable too |
| CanConsume.SingleMediaIsExact | node/src/ortc.ts:570-597 | with a single media codec they always agree |
| CanConsume.PairsLead | node/src/ortc.ts:487-503 | which is so for whatever a producer offers, even if its media codecs share a capability |
| CanConsume.ProducerIsConsumable | node/src/ortc.ts:606-680 | both statements for whatever a producer offers |
| CanConsume.SingleCodecProducer | node/src/ortc.ts:570-597 | exactness for a producer with one media codec |
| CanConsume.PairsNameMedia | node/src/ortc.ts:487-503 | RTX codecs that a producer offers name media codecs only |
| ConsumerAcceptance.ConsumerSelects | node/src/ortc.ts:636-672 | the codecs of a consumer are, in order, the receivable media codecs and the receivable RTX codecs that name one of them |
| ConsumerAcceptance.ConsumerIsAccepted | worker/src/RTC/Consumer.cpp:42-43 | the worker takes them iff no two codecs of the producer share a capability that the remote side can receive, and it can receive a media codec |
| ScalabilityModes.PrintParse | node/src/scalabilityModesUtils.ts:3-25 | parsing a printed simulcast mode gives the layers back, up to 99 of each |
| ScalabilityModes.SimulcastLayers | node/src/ortc.ts:740-747 | the spatial layers survive iff there are at most 99 |
| ScalabilityModes.RustAgreesWithNode | rust/src/scalability_modes.rs:122-182 | every string Rust accepts prints back unchanged with the layers Node reads; K-SVC differs for L2T1_KEY only |
| ScalabilityModes.RustAcceptsTheSame | rust/src/scalability_modes.rs:166-181 | Rust accepts exactly the strings in which Node finds layers |
| ScalabilityModes.RustSimulcastUnwrap | rust/src/ortc.rs:900-909 | the parse that Rust unwraps succeeds iff there are at most 99 encodings |
| FrameDecoder.Receiver.OnData | node/src/Channel.ts:72-173 | one chunk: discards iff the buffer would exceed its limit, else delivers and keeps what decoding buffer and chunk gives |
| FrameDecoder.RoundTrip | node/src/Channel.ts:91-117 | decoding encoded messages gives each back, once and in order |
| FrameDecoder.ByteOrder | node/src/Channel.ts:101-105 | the length comes least significant byte first iff the order is little-endian |
| FrameDecoder.DecodeAppend | node/src/Channel.ts:91-172 | decoding can stop anywhere and go on from what was left |
| FrameDecoder.StreamingRefines | node/src/Channel.ts:72-173 | without discards, what is delivered and left depends on the stream only, not on the chunks, and what is left holds no complete frame |
| FrameDecoder.DecodePrefix | node/src/Channel.ts:96-110 | a stream cut anywhere decodes to its complete messages and a proper start of the next frame |
| FrameDecoder.NeverDiscards | node/src/Channel.ts:82-89 | nothing is discarded if message size, chunk size and 3 fit in the limit; then exactly the complete messages are out |
| FrameDecoder.SomeRunDiscards | node/src/Channel.ts:30-31 | otherwise some stream within those sizes loses data |
| RequestCorrelator.Channel.SendRequest | node/src/Channel.ts:300-398 | the new state after a request, sent or not: the next id, the outcome so far and the map entry |
| RequestCorrelator.Channel.ProcessResponse | node/src/Channel.ts:400-444 | a response to a pending request settles it as it says, takes it out of the map and changes nothing else; any other changes nothing |
| RequestCorrelator.Channel.Close | node/src/Channel.ts:199-211 | everything in the map is aborted, nothing else changes |
| RequestCorrelator.RequestIds | node/src/Channel.ts:314-320 | the k-th request carries id (k mod 4294967295) + 1 in every run |
| RequestCorrelator.ResponseSettlesItsRequest | node/src/Channel.ts:400-444 | a response changes at most one request, pending and with the response's id |
| RequestCorrelator.ResponseSettles | node/src/Channel.ts:400-444 | a response to a pending request resolves it with the body or rejects it with the reason, removes its entry, and leaves every other request and entry alone |
| RequestCorrelator.RequestFate | node/src/Channel.ts:300-444 | in every run in which none stays pending for a whole cycle of ids, a request is settled by the first response with its id, as that says, or aborted by a close before it, and else stays pending |
| RequestCorrelator.SettledOnce | node/src/Channel.ts:372-392 | a settled request never changes again in any continuation |
| RequestCorrelator.SendLosesIffIdPending | node/src/Channel.ts:395-396 | a request is lost iff the next id is still in the map |
| RequestCorrelator.IdPendingMeansStale | node/src/Channel.ts:314-320 | which takes one that stayed pending while 4294967294 later ones were sent, so that its id comes next |
| RequestCorrelator.LostForever | node/src/Channel.ts:386-396 | a lost request is never settled, not even by closing |
| RequestCorrelator.FreshRunsLoseNone | node/src/Channel.ts:368-397 | runs in which none stays pending that long lose none |
| RequestCorrelator.NothingUnsettledAfterClose | node/src/Channel.ts:199-211 | in such runs nothing is unsettled once the channel is closed |
| SctpStreams.FirstFree | node/src/Transport.ts:1049-1059 | the loop on the bitmap finds the first free id in cyclic order, or none |
| SctpStreams.Transport.AllocateStreamId | node/src/Transport.ts:1020-1062 | below the negotiated number the first free id in cyclic order from the stored cursor, otherwise the least free id; it is marked, in a bitmap made when first needed, and the cursor moves behind it; none iff all are marked |
| SctpStreams.Transport.BeginConsumeData | node/src/Transport.ts:871-884 | a call gets an id and is in flight, or fails when all are taken |
| SctpStreams.Transport.EndConsumeData | node/src/Transport.ts:923-958 | a response opens the data consumer; a failure keeps the id marked |
| SctpStreams.Transport.CloseDataConsumer | node/src/Transport.ts:958-972 | a close event frees the id of an open data consumer |
| SctpStreams.Transport.CloseAllDataConsumers | node/src/DataConsumer.ts:188-204 | data consumers closed by their transport free nothing |
| SctpStreams.AllocatesFirstFree | node/src/Transport.ts:1036-1061 | with nothing negotiated, or the stored cursor below the negotiated number, the first free id in cyclic order from the cursor; otherwise the least free id; none iff all 65535 are marked |
| SctpStreams.ExceedsNegotiated | node/src/Transport.ts:1028-1045 | an id at or above the negotiated number is handed out iff none from the cursor up to it is free and one above is |
| SctpStreams.RunsAreSound | node/src/Transport.ts:871-972 | in every run marked ids are those in flight, of open data consumers and retained, all different |
| SctpStreams.StreamIdsDiffer | node/src/Transport.ts:871-972 | open data consumers and calls in flight never share an id |
| SctpStreams.CloseFreesOwnId | node/src/DataConsumer.ts:156-186 | closing frees its own id, no other, and only the first time |
| SctpStreams.MarksChange | node/src/Transport.ts:871-972 | what each event does to the marked ids, the calls and the cursor: only a call marks one, only a close event unmarks one |
| SctpStreams.ConsecutiveIds | node/src/Transport.ts:1036-1055 | two successive calls get consecutive ids, whatever happens between them, if the second id is free and below the negotiated number |
| SctpStreams.ReusedOnlyAfterRound | node/src/Transport.ts:1036-1055 | in every run a free id behind the cursor is handed out only after a call for which the cursor had reached the negotiated number or no id from it on was free |
| SctpStreams.RetainedForever | node/src/DataConsumer.ts:188-204 | a retained id stays marked and is never handed out again |
| SctpStreams.WhatIsRetained | node/src/Transport.ts:923-958 | the ids of failed calls and of data consumers closed with their transport are retained for good |
| EntityClosing.Entities.Create | node/src/Transport.ts:567-585 | a new open entity in an open owner of the layer above, and a new producer in the router's index; everything stays consistent |
| EntityClosing.Entities.LinkPeers | node/src/Router.ts:1047-1060 | pipe pairs listen to each other's close, and nothing else changes; consistent iff both are open or both closed |
| EntityClosing.Entities.Close | node/src/Transport.ts:240-300 | close, re-entered through children and peers, by itself or by its owner, has the effect CloseOne says on the closed entities, the events and the index |
| EntityClosing.Entities.CloseEach | node/src/Transport.ts:266-294 | the loops over children and listeners, and what a closing transport tells its router |
| EntityClosing.Entities.CloseEntity | node/src/Router.ts:194-237 | exactly what is reachable through open entities is closed, and everything is consistent again, the index included |
| CloseCascade.CloseOneCascades | node/src/Consumer.ts:207-255 | what a single call, entered at any point of a cascade, guarantees |
| CloseCascade.ClosesExactlyReachable | node/src/Router.ts:1132-1137 | closes exactly what is reachable through open entities, 'close' once for each |
| CloseCascade.ChildrenCloseFirst | node/src/Transport.ts:266-300 | every entity of a cascade emits 'close' strictly after its children |
| CascadeIndex.OneTells | node/src/Transport.ts:266-348 | for every producer that a cascade closes, the router is told or is closed itself; it is told of no open one |
| CascadeIndex.CascadeKeepsIndexed | node/src/Router.ts:489-499 | after any cascade, across routers and transports, the index holds exactly the open producers |
| EntityClosing.RouterIndexIsUnion | node/src/Router.ts:482-499 | between calls, the map of a router is the union of the producers of its open transports, and empty once it is closed |
| EntityClosing.PeersKeepConsistent | node/src/Router.ts:1047-1060 | installing the listeners keeps everything consistent iff both entities are open, or both closed, by then |
| EntityClosing.PairsCloseTogether | node/src/Router.ts:1047-1060 | between calls, peers are both open or both closed, and a closed owner's children are closed and said so before it |
| RouterIndex.Router.AddTransport | node/src/Router.ts:489-494 | a new transport enters the router's map |
| RouterIndex.Router.AddProducer | node/src/Transport.ts:579-585 | a new producer enters its transport and the index |
| RouterIndex.Router.RemoveProducer | node/src/Transport.ts:580-583 | a closed producer leaves both |
| RouterIndex.Router.RemoveTransport | node/src/Transport.ts:240-300 | a closed transport takes its producers out of the index |
| RouterIndex.Router.CloseAll | node/src/Router.ts:194-237 | a closed router clears everything |
| RouterIndex.StepKeepsAgreement | node/src/Router.ts:489-499 | every event but a listen server closing keeps the index the disjoint union of the open transports' producers |
| RouterIndex.EventEffects | node/src/Router.ts:489-499 | what each event adds or removes, other producers being left alone |
| RouterIndex.ListenServerBreaksAgreement | node/src/Transport.ts:350-401 | a listen server that closes keeps the agreement iff the transport has no producers |
| RouterIndex.ListenServerLeavesProducer | node/src/Transport.ts:350-401 | a run of three events after which an open router still finds a closed producer |
| RouterIndex.RunsAgree | node/src/Router.ts:194-270 | agreement in every run without that |
| RouterIndex.LookupFindsLive | node/src/Router.ts:482-483 | a lookup finds exactly the live producers, each in one open transport |
| PauseMirror.Consumer.OnPauseAccepted | node/src/Consumer.ts:293-311 | pause sets the flag, leaves the other one, and tells the observer iff neither was set |
| PauseMirror.Consumer.OnResumeAccepted | node/src/Consumer.ts:313-331 | resume clears the flag, leaves the other one, and tells the observer iff it was set and the other was not |
| PauseMirror.Consumer.OnProducerPause | node/src/Consumer.ts:491-506 | a producer pause notification sets its flag, leaves the other one, and tells the observer iff neither was set |
| PauseMirror.Consumer.OnProducerResume | node/src/Consumer.ts:508-523 | a producer resume notification clears its flag, leaves the other one, and tells the observer iff it was set and the other was not |
| PauseMirror.Producer.OnAccepted | node/src/Producer.ts:241-279 | a producer's flag and its observer event, on edges only |
| PauseMirror.StepTracks | worker/src/RTC/Producer.cpp:374-441 | responses and notifications on their way lead Node to the worker's state |
| PauseMirror.NotificationsAreEdges | worker/src/RTC/Producer.cpp:374-441 | in every run each notification on its way flips what the consumer knows when it arrives, so that the handlers never ignore one |
| PauseMirror.ObserverTellsEdges | node/src/Consumer.ts:293-331 | in every run the observer is told exactly the edges of the effective state, so they alternate |
| PauseMirror.EventuallyMirrors | node/src/Router.ts:1129-1137 | from the moment the listeners are installed: once all has arrived producer, worker and consumer agree, and the pipe producer mirrors the consumer iff it did at that moment or an edge was told since |
| PauseMirror.ConsumerObeysLastCall | node/src/Consumer.ts:293-331 | in every run the consumer's own flag is what its last accepted call says |
| PauseMirror.WorkerObeysLastCall | worker/src/RTC/Producer.cpp:374-441 | in every run the worker is heading for what the last call of the producer says |
| PauseMirror.AnsweredInOrder | node/src/Producer.ts:241-279 | in every run the calls of the producer are answered in order, none lost, and in Node it is what the last answered one says |
| PauseMirror.LastCallsDecide | node/src/Router.ts:1129-1137 | once all has arrived, producer, worker and consumer are what the last call of the producer says, and the pipe producer is paused iff the last call of the consumer or of the producer was a pause, exactly if it was in sync at first or has been told something since |
| PauseMirror.EverythingArrives | node/src/Router.ts:1129-1137 | whatever is on its way arrives by deliveries alone |
| PauseMirror.PipeSettles | node/src/Router.ts:1129-1137 | attached in sync, any run is completed by deliveries alone, and then the pipe producer is what the last calls say |
| PauseMirror.AttachPoint | node/src/Router.ts:1103-1137 | when the listeners are installed, the pipe producer is what the original producer was in Node when the two were compared |
| PauseMirror.PipeGetsAttached | node/src/Router.ts:1103-1137 | a pipe that was asked for gets its listeners, by responses alone |
| PauseMirror.PipeEndsRight | node/src/Router.ts:1103-1137 | from the moment the pipe is asked for: it mirrors in the end iff that is the consumer's state when the listeners are installed, or an edge was told since |
| PauseMirror.QuietPipesEndRight | node/src/Router.ts:1103-1137 | if nobody pauses or resumes until the listeners are installed, it ends as the last calls afterwards say |
| PauseMirror.FlipDuringSync | node/src/Router.ts:1119-1127 | paused while the pipe producer is made and resumed while the correction is awaited: the pipe producer stays paused |
| PauseMirror.ResponseAfterComparison | node/src/Router.ts:1119-1127 | notified before the comparison, the response to the pause arriving after it: the pipe producer goes on |
| PauseMirror.ObserverEchoes | node/src/Router.ts:1131-1134 | attached in sync, the pipe producer's observer is told the same sequence, no request being redundant |

## Left out

- Normalization of loosely typed input: type checks and default values; codec capabilities given to a router are normalized in the model, other input is taken normalized.
- JavaScript numbers that are not integers, and mime types with letters outside ASCII.
- The H264 profile library itself: see the assumptions above.
- Identity of codec objects: codecs are identified by position, and in-place adjustment of a producer's parameters returns a new list.
- RouterCapabilities.GenerateRust: payload types are integers, not 8-bit values.
- The worker's other reasons to refuse a producer or a consumer: an id, MID, RID or SSRC that another one on the transport has, an encoding without SSRC, RID or MID, an extension id of 0, and payload types that do not fit in 8 bits.
- Negotiation.ConsumingWorksIff: states when the worker takes the codecs of an ordinary consumer; what the classes of consumers ask of its encodings is not modelled.
- Rust encodings of a consumer: Rust takes the scalability mode of the first encoding and keeps a zero bitrate.
- Flatbuffers messages, dumps, statistics, logs: field copies; payloads are byte sequences here.
- Process handling, sockets and timers; the delay between notifications and responses is covered by their separate queues in `PauseMirror.dfy`.
- Creation of entities that is overtaken by a close: creation is one step.
- A pipe pair whose creation failed, and the promise it leaves behind; an original producer that closes while it is being piped.
- EntityClosing.Entities.LinkPeers: installs both listeners at once.
- Pause and resume requests that the worker rejects, and pausing a pipe producer by hand.
- What RTP observers do, data producers' own index, and ICE, DTLS and SCTP state: the same patterns, or plain assignments.
- The media algorithms of the worker.
