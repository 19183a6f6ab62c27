/**
 The worker's look at the encodings of a producer: whether they make sense with its codecs,
 and whether its codec can carry the streams they stand for.
 */
module WorkerStreams {
  import opened Wrappers
  import opened Codecs
  import opened Rtp
  import opened RouterCapabilities
  import opened WorkerValidation
  import ScalabilityModes

  function SpatialLayers(e: Encoding): nat {
    ScalabilityModes.ParseNode(e.scalabilityMode).spatial
  }

  predicate HasLayers(e: Encoding) {
    SpatialLayers(e) > 1 || ScalabilityModes.ParseNode(e.scalabilityMode).temporal > 1
  }

  /** The mime type of the first media codec, which encodings use unless they name another one. */
  function MediaMime(codecs: seq<Codec>): Option<string> {
    if codecs == [] then None
    else if IsMedia(codecs[0]) then Some(codecs[0].mimeType)
    else MediaMime(codecs[1..])
  }

  lemma {:induction false} MediaMimeExists(codecs: seq<Codec>)
    ensures MediaMime(codecs).Some? <==> exists i :: 0 <= i < |codecs| && IsMedia(codecs[i])
    ensures forall i :: 0 <= i < |codecs| && IsMedia(codecs[i]) && (forall j :: 0 <= j < i ==> !IsMedia(codecs[j])) ==>
      MediaMime(codecs) == Some(codecs[i].mimeType)
  {
    hide IsMedia;
    if codecs != [] {
      MediaMimeExists(codecs[1..]);
      forall i | 0 < i < |codecs| && IsMedia(codecs[i]) && (forall j :: 0 <= j < i ==> !IsMedia(codecs[j]))
        ensures MediaMime(codecs) == Some(codecs[i].mimeType)
      {
        assert codecs[1..][i - 1] == codecs[i];
        assert forall j :: 0 <= j < i - 1 ==> codecs[1..][j] == codecs[j + 1];
      }
      if i :| 0 < i < |codecs| && IsMedia(codecs[i]) {
        assert codecs[1..][i - 1] == codecs[i];
      }
    }
  }

  // ----- Encodings

  /** An encoding names no codec, or a media codec of the list. */
  predicate NamesMediaCodec(codecs: seq<Codec>, e: Encoding) {
    e.codecPayloadType.Some? ==>
      var k := PtIndex(codecs, e.codecPayloadType.value);
      k.Some? && IsMedia(codecs[k.value])
  }

  /** There is an encoding, simulcast is not mixed with spatial layers, and encodings name media codecs. */
  predicate TakesEncodings(codecs: seq<Codec>, es: seq<Encoding>) {
    && es != []
    && (|es| > 1 ==> forall i :: 0 <= i < |es| ==> SpatialLayers(es[i]) <= 1)
    && (forall i :: 0 <= i < |es| ==> NamesMediaCodec(codecs, es[i]))
  }

  /** Codec `k` is the first with payload type `pt`. */
  ghost predicate IsFirstWithType(codecs: seq<Codec>, pt: int, k: nat)
    requires k < |codecs|
  {
    codecs[k].payloadType == pt && forall j :: 0 <= j < k ==> codecs[j].payloadType != pt
  }

  lemma NamingMeans(codecs: seq<Codec>, e: Encoding)
    ensures NamesMediaCodec(codecs, e) <==> forall pt :: e.codecPayloadType == Some(pt) ==>
      exists k :: 0 <= k < |codecs| && IsFirstWithType(codecs, pt, k) && KindOf(codecs[k].mimeType) == Media
  {
    hide KindOf;
    if e.codecPayloadType.Some? {
      var found := PtIndex(codecs, e.codecPayloadType.value);
      if found.Some? {
        assert IsFirstWithType(codecs, e.codecPayloadType.value, found.value);
      }
    }
  }

  /** The loop of `ValidateEncodings`. */
  method ValidateEncodings(codecs: seq<Codec>, es: seq<Encoding>) returns (ok: bool)
    ensures ok <==> TakesEncodings(codecs, es)
    ensures ok <==>
      && es != []
      && (|es| > 1 ==> forall i :: 0 <= i < |es| ==> ScalabilityModes.ParseNode(es[i].scalabilityMode).spatial <= 1)
      && (forall i, pt :: 0 <= i < |es| && es[i].codecPayloadType == Some(pt) ==>
        exists k :: 0 <= k < |codecs| && IsFirstWithType(codecs, pt, k) && KindOf(codecs[k].mimeType) == Media)
  {
    forall e: Encoding
      ensures SpatialLayers(e) == ScalabilityModes.ParseNode(e.scalabilityMode).spatial
      ensures NamesMediaCodec(codecs, e) <==> forall pt :: e.codecPayloadType == Some(pt) ==>
        exists k :: 0 <= k < |codecs| && IsFirstWithType(codecs, pt, k) && KindOf(codecs[k].mimeType) == Media
    {
      NamingMeans(codecs, e);
    }
    hide SpatialLayers, IsMedia, KindOf, IsFirstWithType, ScalabilityModes.ParseNode;
    if es == [] { return false; }
    for i := 0 to |es|
      invariant |es| > 1 ==> forall j :: 0 <= j < i ==> SpatialLayers(es[j]) <= 1
      invariant forall j :: 0 <= j < i ==> NamesMediaCodec(codecs, es[j])
    {
      if SpatialLayers(es[i]) > 1 && |es| > 1 { return false; }
      if es[i].codecPayloadType.Some? {
        var k := PtIndex(codecs, es[i].codecPayloadType.value);
        if k.None? || !IsMedia(codecs[k.value]) { return false; }
      }
    }
    return true;
  }

  // ----- The type of a producer

  predicate CarriesSimulcast(mime: string) {
    Lower(mime) == "video/vp8" || Lower(mime) == "video/h264"
  }

  predicate CarriesLayers(mime: string) {
    CarriesSimulcast(mime) || Lower(mime) == "video/vp9" || Lower(mime) == "video/av1"
  }

  /** A codec can carry the streams: several encodings are simulcast, one with layers is layered. */
  predicate Fits(mime: string, es: seq<Encoding>) {
    if |es| > 1 then CarriesSimulcast(mime)
    else es != [] && (HasLayers(es[0]) ==> CarriesLayers(mime))
  }

  datatype ProducerType = Simple | Simulcast | Svc

  predicate ValidForCodec(t: ProducerType, mime: string) {
    match t
    case Simple => true
    case Simulcast => KindOf(mime) == Media && Lower(mime) in {"video/vp8", "video/h264"}
    case Svc => KindOf(mime) == Media && Lower(mime) in {"video/vp8", "video/vp9", "video/h264", "video/av1"}
  }

  /** The type that the worker gives to a producer whose first encoding uses that codec. */
  function TypeOf(mime: string, es: seq<Encoding>): Option<ProducerType> {
    if |es| == 1 then
      if SpatialLayers(es[0]) > 1 || ScalabilityModes.ParseNode(es[0].scalabilityMode).temporal > 1 then
        if ValidForCodec(Svc, mime) then Some(Svc)
        else if ValidForCodec(Simulcast, mime) then Some(Simulcast)
        else None
      else Some(Simple)
    else if |es| > 1 then Some(Simulcast)
    else None
  }

  lemma VideoSubtypesAreMedia(mime: string)
    requires Lower(mime) in {"video/vp8", "video/vp9", "video/h264", "video/av1"}
    ensures KindOf(mime) == Media
  {
    assert VIDEO_SUBTYPES[0] == "vp8" && VIDEO_SUBTYPES[1] == "vp9";
    assert VIDEO_SUBTYPES[2] == "h264" && VIDEO_SUBTYPES[3] == "av1";
    assert Lower(mime)[6..] in VIDEO_SUBTYPES;
  }

  /** A codec can carry the streams iff the worker finds a type for them, and one that is valid for the codec. */
  lemma FitsIff(mime: string, es: seq<Encoding>)
    ensures Fits(mime, es) <==> TypeOf(mime, es).Some? && ValidForCodec(TypeOf(mime, es).value, mime)
  {
    if Lower(mime) in {"video/vp8", "video/vp9", "video/h264", "video/av1"} {
      VideoSubtypesAreMedia(mime);
    }
    hide KindOf, Lower, SpatialLayers;
  }

  /** The codec of an encoding. */
  function EncodingMime(codecs: seq<Codec>, e: Encoding): Option<string> {
    if e.codecPayloadType.None? then MediaMime(codecs)
    else
      var k :- PtIndex(codecs, e.codecPayloadType.value);
      Some(codecs[k].mimeType)
  }

  /** The codec of the first encoding decides. */
  predicate TakesType(codecs: seq<Codec>, es: seq<Encoding>) {
    es != [] && EncodingMime(codecs, es[0]).Some? && Fits(EncodingMime(codecs, es[0]).value, es)
  }

  // ----- SSRCs

  /** 0 stands for a missing SSRC. */
  function Ssrc(e: Encoding): int {
    if e.ssrc.Some? then e.ssrc.value else 0
  }

  function RtxSsrc(e: Encoding): int {
    if e.rtxSsrc.Some? then e.rtxSsrc.value else 0
  }

  /** No SSRC is taken twice by the streams of one producer. */
  ghost predicate StreamsDiffer(es: seq<Encoding>) {
    && (forall i, j :: 0 <= i < j < |es| && Ssrc(es[i]) != 0 ==> Ssrc(es[i]) != Ssrc(es[j]))
    && (forall i, j :: 0 <= i < j < |es| && RtxSsrc(es[i]) != 0 ==> RtxSsrc(es[i]) != RtxSsrc(es[j]))
    && (forall i, j :: 0 <= i < |es| && 0 <= j < |es| && Ssrc(es[i]) != 0 ==> Ssrc(es[i]) != RtxSsrc(es[j]))
  }

  /** The table of a transport's RTP listener, filled from the encodings of a producer. */
  method RegisterSsrcs(es: seq<Encoding>) returns (ok: bool)
    ensures ok <==> StreamsDiffer(es)
  {
    hide Ssrc, RtxSsrc;
    var table: set<int> := {};
    for n := 0 to |es|
      invariant StreamsDiffer(es[..n])
      invariant forall x :: x in table <==>
        x != 0 && exists i :: 0 <= i < n && (x == Ssrc(es[i]) || x == RtxSsrc(es[i]))
    {
      assert es[..n + 1][..n] == es[..n] && es[..n + 1][n] == es[n];
      var ssrc := Ssrc(es[n]);
      if ssrc != 0 {
        if ssrc in table {
          return false;
        }
        table := table + {ssrc};
      }
      ssrc := RtxSsrc(es[n]);
      if ssrc != 0 {
        if ssrc in table {
          return false;
        }
        table := table + {ssrc};
      }
    }
    assert es[..|es|] == es;
    return true;
  }

  // ----- Producers and pipes

  /** The worker takes a producer with such codecs and encodings. */
  ghost predicate TakesProducer(codecs: seq<Codec>, es: seq<Encoding>) {
    Accepts(codecs) && TakesEncodings(codecs, es) && TakesType(codecs, es) && StreamsDiffer(es)
  }

  /** It takes a pipe consumer with them, whose encodings need SSRCs, and then a pipe producer. */
  ghost predicate TakesPipe(codecs: seq<Codec>, es: seq<Encoding>) {
    && TakesProducer(codecs, es)
    && forall i :: 0 <= i < |es| ==> Ssrc(es[i]) != 0 && (es[i].rtxSsrc.Some? ==> RtxSsrc(es[i]) != 0)
  }

  /** Encodings that name no codec: the first media codec carries their streams, and simulcast has no spatial layers. */
  predicate Carried(mime: Option<string>, es: seq<Encoding>) {
    && mime.Some? && Fits(mime.value, es)
    && (|es| > 1 ==> forall i :: 0 <= i < |es| ==> SpatialLayers(es[i]) <= 1)
  }

  lemma CarriedIsTaken(codecs: seq<Codec>, es: seq<Encoding>)
    requires forall i :: 0 <= i < |es| ==> es[i].codecPayloadType.None?
    ensures TakesEncodings(codecs, es) && TakesType(codecs, es) <==> Carried(MediaMime(codecs), es)
  {
    hide SpatialLayers, HasLayers, CarriesSimulcast, CarriesLayers, MediaMime;
  }

  /** The same encodings as far as layers are concerned. */
  ghost predicate SameLayers(a: seq<Encoding>, b: seq<Encoding>) {
    |a| == |b| && forall i :: 0 <= i < |a| ==> a[i].scalabilityMode == b[i].scalabilityMode
  }

  lemma CarriedAlike(a: Option<string>, es: seq<Encoding>, b: Option<string>, fs: seq<Encoding>)
    requires SameLayers(es, fs)
    requires a.Some? == b.Some? && (a.Some? ==> Lower(a.value) == Lower(b.value))
    ensures Carried(a, es) == Carried(b, fs)
  {
    hide CarriesSimulcast, CarriesLayers, ScalabilityModes.Captures;
    if a.Some? {
      CarriesByLower(a.value, b.value);
    }
    assert forall i :: 0 <= i < |es| ==> SpatialLayers(es[i]) == SpatialLayers(fs[i]);
  }

  lemma CarriesByLower(a: string, b: string)
    requires Lower(a) == Lower(b)
    ensures CarriesSimulcast(a) == CarriesSimulcast(b) && CarriesLayers(a) == CarriesLayers(b)
  {
  }
}
