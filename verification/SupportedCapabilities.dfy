/** The codecs and RTP header extensions that routers support. */
module SupportedCapabilities {
  import opened Wrappers
  import opened Codecs
  import opened RouterCapabilities
  import opened Rtp
  import opened WorkerValidation
  import opened WorkerStreams

  function Plain(t: FeedbackType): Feedback {
    Feedback(t, "")
  }

  const AUDIO_FEEDBACK: seq<Feedback> := [Plain(TransportCc)]

  const OPUS_FEEDBACK: seq<Feedback> := [Plain(Nack), Plain(TransportCc)]

  const VIDEO_FEEDBACK: seq<Feedback> :=
    [Plain(Nack), Feedback(Nack, "pli"), Feedback(Ccm, "fir"), Plain(GoogRemb), Plain(TransportCc)]

  /** An audio codec, with one channel unless told otherwise. */
  function AudioCodec(mime: string, pt: Option<int>, clockRate: int, feedback: seq<Feedback>): MediaCodec {
    MediaCodec(mime, pt, clockRate, Some(1), map[], feedback)
  }

  function Multiopus(channels: int, mapping: string, streams: int, coupled: int): MediaCodec {
    MediaCodec("audio/multiopus", None, 48000, Some(channels),
               map["channel_mapping" := Str(mapping), "num_streams" := Num(streams), "coupled_streams" := Num(coupled)],
               OPUS_FEEDBACK)
  }

  function VideoCodec(mime: string, parameters: Parameters): MediaCodec {
    MediaCodec(mime, None, 90000, None, parameters, VIDEO_FEEDBACK)
  }

  const OPUS_CODECS: seq<MediaCodec> := [
    MediaCodec("audio/opus", None, 48000, Some(2), map[], OPUS_FEEDBACK),
    Multiopus(4, "0,1,2,3", 2, 2),
    Multiopus(6, "0,4,1,2,3,5", 4, 2),
    Multiopus(8, "0,6,1,2,3,4,5,7", 5, 3)]

  const NARROWBAND_CODECS: seq<MediaCodec> := [
    AudioCodec("audio/PCMU", Some(0), 8000, AUDIO_FEEDBACK),
    AudioCodec("audio/PCMA", Some(8), 8000, AUDIO_FEEDBACK),
    AudioCodec("audio/ISAC", None, 32000, AUDIO_FEEDBACK),
    AudioCodec("audio/ISAC", None, 16000, AUDIO_FEEDBACK),
    AudioCodec("audio/G722", Some(9), 8000, AUDIO_FEEDBACK),
    AudioCodec("audio/iLBC", None, 8000, AUDIO_FEEDBACK)]

  const SILK_CODECS: seq<MediaCodec> := [
    AudioCodec("audio/SILK", None, 24000, AUDIO_FEEDBACK),
    AudioCodec("audio/SILK", None, 16000, AUDIO_FEEDBACK),
    AudioCodec("audio/SILK", None, 12000, AUDIO_FEEDBACK),
    AudioCodec("audio/SILK", None, 8000, AUDIO_FEEDBACK)]

  const AUXILIARY_CODECS: seq<MediaCodec> := [
    AudioCodec("audio/CN", Some(13), 32000, []),
    AudioCodec("audio/CN", Some(13), 16000, []),
    AudioCodec("audio/CN", Some(13), 8000, []),
    AudioCodec("audio/telephone-event", None, 48000, []),
    AudioCodec("audio/telephone-event", None, 32000, []),
    AudioCodec("audio/telephone-event", None, 16000, []),
    AudioCodec("audio/telephone-event", None, 8000, [])]

  const VIDEO_CODECS: seq<MediaCodec> := [
    VideoCodec("video/VP8", map[]),
    VideoCodec("video/VP9", map[]),
    VideoCodec("video/H264", map["level-asymmetry-allowed" := Num(1)]),
    VideoCodec("video/AV1", map[])]

  const SUPPORTED_CODECS: seq<MediaCodec> :=
    OPUS_CODECS + NARROWBAND_CODECS + SILK_CODECS + AUXILIARY_CODECS + VIDEO_CODECS

  function Both(uri: ExtensionUri, id: int): seq<ExtensionCapability> {
    [ExtensionCapability(Audio, uri, id, false, SendRecv), ExtensionCapability(Video, uri, id, false, SendRecv)]
  }

  function Only(kind: MediaKind, uri: ExtensionUri, id: int, direction: Direction): seq<ExtensionCapability> {
    [ExtensionCapability(kind, uri, id, false, direction)]
  }

  const SUPPORTED_EXTENSIONS: seq<ExtensionCapability> :=
    Both(Mid, 1)
    + Only(Video, RtpStreamId, 2, RecvOnly)
    + Only(Video, RepairedRtpStreamId, 3, RecvOnly)
    + Both(AbsSendTime, 4)
    + Only(Audio, TransportWideCc, 5, RecvOnly)
    + Only(Video, TransportWideCc, 5, SendRecv)
    + Only(Audio, SsrcAudioLevel, 6, SendRecv)
    + Only(Video, DependencyDescriptor, 7, RecvOnly)
    + Only(Video, VideoOrientation, 8, SendRecv)
    + Only(Video, TimeOffset, 9, SendRecv)
    + Both(AbsCaptureTime, 10)
    + Both(PlayoutDelay, 11)
    + Both(MediasoupPacketId, 12)

  predicate EntryIsSound(s: MediaCodec) {
    && |s.mimeType| > 1 && LowerChar(s.mimeType[|s.mimeType| - 1]) != 'x'
    && LowerChar(s.mimeType[|s.mimeType| - 2]) != 'e'
    && (s.preferredPayloadType.Some? ==> !IsDynamic(s.preferredPayloadType.value))
  }

  predicate EntriesAreSound(supported: seq<MediaCodec>) {
    forall i :: 0 <= i < |supported| ==> EntryIsSound(supported[i])
  }

  lemma AudioEntriesAreSound()
    ensures EntriesAreSound(OPUS_CODECS) && EntriesAreSound(NARROWBAND_CODECS) && EntriesAreSound(SILK_CODECS)
  {
  }

  lemma OtherEntriesAreSound()
    ensures EntriesAreSound(AUXILIARY_CODECS) && EntriesAreSound(VIDEO_CODECS)
  {
  }

  /** A mime type whose last letter but one is not an e cannot be a FEC one. */
  lemma NotFecByLetter(mime: string)
    requires |mime| > 1 && LowerChar(mime[|mime| - 2]) != 'e'
    ensures KindOf(mime) != Fec
  {
    if |mime| > 6 {
      var subtype := Lower(mime)[6..];
      assert |subtype| > 1 ==> subtype[|subtype| - 2] == LowerChar(mime[|mime| - 2]);
      assert "ulpfec"[|"ulpfec"| - 2] == 'e' && "flexfec"[|"flexfec"| - 2] == 'e';
    }
  }

  /** The worker takes the codec for a media codec, or for a complementary one if it is CN or telephone-event. */
  predicate KindIsRight(s: MediaCodec) {
    KindOf(s.mimeType) == if s.mimeType in {"audio/CN", "audio/telephone-event"} then Complementary else Media
  }

  predicate KindsAreRight(supported: seq<MediaCodec>) {
    forall i :: 0 <= i < |supported| ==> KindIsRight(supported[i])
  }

  lemma ByAudioSubtype(mime: string, i: nat)
    requires i < |AUDIO_SUBTYPES| && Lower(mime) == "audio/" + AUDIO_SUBTYPES[i] && AUDIO_SUBTYPES[i] != ""
    ensures KindOf(mime) == Media
  {
    hide AUDIO_SUBTYPES;
    assert Lower(mime)[..6] == "audio/" && Lower(mime)[6..] == AUDIO_SUBTYPES[i];
  }

  lemma OpusIsKnown()
    ensures KindsAreRight(OPUS_CODECS)
  {
    assert Lower("audio/opus") == "audio/" + AUDIO_SUBTYPES[0];
    ByAudioSubtype("audio/opus", 0);
    assert Lower("audio/multiopus") == "audio/" + AUDIO_SUBTYPES[1];
    ByAudioSubtype("audio/multiopus", 1);
    hide KindOf;
  }

  lemma NarrowbandIsKnown()
    ensures KindsAreRight(NARROWBAND_CODECS)
  {
    assert Lower("audio/PCMA") == "audio/" + AUDIO_SUBTYPES[2];
    ByAudioSubtype("audio/PCMA", 2);
    assert Lower("audio/PCMU") == "audio/" + AUDIO_SUBTYPES[3];
    ByAudioSubtype("audio/PCMU", 3);
    assert Lower("audio/ISAC") == "audio/" + AUDIO_SUBTYPES[4];
    ByAudioSubtype("audio/ISAC", 4);
    assert Lower("audio/G722") == "audio/" + AUDIO_SUBTYPES[5];
    ByAudioSubtype("audio/G722", 5);
    assert Lower("audio/iLBC") == "audio/" + AUDIO_SUBTYPES[6];
    ByAudioSubtype("audio/iLBC", 6);
    hide KindOf;
  }

  lemma SilkIsKnown()
    ensures KindsAreRight(SILK_CODECS)
  {
    assert Lower("audio/SILK") == "audio/" + AUDIO_SUBTYPES[7];
    ByAudioSubtype("audio/SILK", 7);
    hide KindOf;
  }

  lemma AuxiliaryIsKnown()
    ensures KindsAreRight(AUXILIARY_CODECS)
  {
    assert Lower("audio/CN") == "audio/" + "cn";
    assert Lower("audio/CN")[..6] == "audio/" && Lower("audio/CN")[6..] == "cn";
    assert Lower("audio/telephone-event") == "audio/" + "telephone-event";
    assert Lower("audio/telephone-event")[..6] == "audio/";
    assert Lower("audio/telephone-event")[6..] == "telephone-event";
    assert KindOf("audio/CN") == Complementary && KindOf("audio/telephone-event") == Complementary;
    hide KindOf;
  }

  lemma VideoIsKnown()
    ensures KindsAreRight(VIDEO_CODECS)
  {
    assert Lower("video/VP8") == "video/vp8" && Lower("video/VP9") == "video/vp9";
    assert Lower("video/H264") == "video/h264" && Lower("video/AV1") == "video/av1";
    VideoSubtypesAreMedia("video/VP8");
    VideoSubtypesAreMedia("video/VP9");
    VideoSubtypesAreMedia("video/H264");
    VideoSubtypesAreMedia("video/AV1");
    hide KindOf;
  }

  /** The worker knows every codec that routers support, and takes all but CN and telephone-event for media codecs. */
  lemma SupportedAreKnown(i: nat)
    requires i < |SUPPORTED_CODECS|
    ensures KindIsRight(SUPPORTED_CODECS[i])
  {
    OpusIsKnown();
    NarrowbandIsKnown();
    SilkIsKnown();
    AuxiliaryIsKnown();
    VideoIsKnown();
    hide KindIsRight, OPUS_CODECS, NARROWBAND_CODECS, SILK_CODECS, AUXILIARY_CODECS, VIDEO_CODECS;
    assert KindsAreRight(SUPPORTED_CODECS);
  }

  /** The table of supported codecs is one that the generator's guarantees apply to, and has no FEC codecs. */
  lemma SupportedCodecsAreSound()
    ensures SupportedIsSound(SUPPORTED_CODECS) && SupportsNoFec(SUPPORTED_CODECS)
  {
    AudioEntriesAreSound();
    OtherEntriesAreSound();
    hide OPUS_CODECS, NARROWBAND_CODECS, SILK_CODECS, AUXILIARY_CODECS, VIDEO_CODECS;
    assert EntriesAreSound(SUPPORTED_CODECS);
    forall s | s in SUPPORTED_CODECS
      ensures !IsRtxMime(s.mimeType) && KindOf(s.mimeType) != Fec
      ensures s.preferredPayloadType.Some? ==> !IsDynamic(s.preferredPayloadType.value)
    {
      NotRtxByLastLetter(s.mimeType);
      NotFecByLetter(s.mimeType);
    }
  }
}
