/** RTP parameters and capabilities, as records. */
module Rtp {
  import opened Wrappers
  import opened Codecs

  datatype MediaKind = Audio | Video

  datatype ExtensionUri =
    | Mid
    | RtpStreamId
    | RepairedRtpStreamId
    | AbsSendTime
    | TransportWideCc
    | SsrcAudioLevel
    | DependencyDescriptor
    | VideoOrientation
    | TimeOffset
    | AbsCaptureTime
    | PlayoutDelay
    | MediasoupPacketId
    | OtherUri(uri: string)

  datatype Direction = SendRecv | SendOnly | RecvOnly | Inactive

  datatype ExtensionCapability = ExtensionCapability(
    kind: MediaKind,
    uri: ExtensionUri,
    preferredId: int,
    preferredEncrypt: bool,
    direction: Direction)

  datatype Extension = Extension(uri: ExtensionUri, id: int, encrypt: bool)

  datatype Encoding = Encoding(
    ssrc: Option<int>,
    rid: Option<string>,
    codecPayloadType: Option<int>,
    rtxSsrc: Option<int>,
    dtx: bool,
    scalabilityMode: Option<string>,
    maxBitrate: Option<int>)

  datatype RtpParameters = RtpParameters(
    codecs: seq<Codec>,
    headerExtensions: seq<Extension>,
    encodings: seq<Encoding>,
    cname: Option<string>,
    reducedSize: bool,
    msid: Option<string>)

  datatype RtpCapabilities = RtpCapabilities(
    codecs: seq<Codec>,
    headerExtensions: seq<ExtensionCapability>)

  /** What `generateRandomNumber` may return. */
  predicate IsRandomSsrc(ssrc: int) {
    100_000_000 <= ssrc < 999_999_999
  }
}
