/**
 The worker's own look at a list of codecs. The parameters of every producer and every
 consumer go through it, and a request whose codecs it refuses fails.
 */
module WorkerValidation {
  import opened Wrappers
  import opened Codecs
  import opened RouterCapabilities

  // ----- Mime types the worker knows

  datatype Kind = Media | Complementary | Rtx | Fec | OtherFeature | Unknown

  const AUDIO_SUBTYPES: seq<string> := ["opus", "multiopus", "pcma", "pcmu", "isac", "g722", "ilbc", "silk"]
  const VIDEO_SUBTYPES: seq<string> := ["vp8", "vp9", "h264", "av1"]

  function KindOfSubtype(subtype: string): Kind {
    if subtype in AUDIO_SUBTYPES || subtype in VIDEO_SUBTYPES then Media
    else if subtype == "cn" || subtype == "telephone-event" then Complementary
    else if subtype == "rtx" then Rtx
    else if subtype == "ulpfec" || subtype == "flexfec" then Fec
    else if subtype == "x-ulpfecuc" || subtype == "red" then OtherFeature
    else Unknown
  }

  /** What stands after `audio/` or `video/`, without regard to case. */
  function KindOf(mime: string): Kind {
    var lower := Lower(mime);
    if |lower| <= 6 || (lower[..6] != "audio/" && lower[..6] != "video/") then Unknown
    else KindOfSubtype(lower[6..])
  }

  lemma NoSlashInSubtypes()
    ensures forall s :: s in AUDIO_SUBTYPES ==> '/' !in s
    ensures forall s :: s in VIDEO_SUBTYPES ==> '/' !in s
  {
  }

  lemma SlashMeansUnknown(subtype: string, i: nat)
    requires i < |subtype| && subtype[i] == '/'
    ensures KindOfSubtype(subtype) == Unknown
  {
    NoSlashInSubtypes();
    hide AUDIO_SUBTYPES, VIDEO_SUBTYPES;
    assert '/' in subtype;
  }

  /** On the mime types it knows, the worker calls RTX what Node calls RTX. */
  lemma RtxAlike(mime: string)
    requires KindOf(mime) != Unknown
    ensures KindOf(mime) == Rtx <==> IsRtxMime(mime)
  {
    var lower := Lower(mime);
    var n := |lower|;
    assert n == |mime|;
    assert lower[..6][4] == lower[4] == 'o' && lower[..6][5] == lower[5];
    if KindOf(mime) == Rtx {
      assert lower[6..] == "rtx" && n == 9;
      assert lower[n - 4..] == "/rtx";
    }
    if IsRtxMime(mime) {
      assert lower[n - 4..][0] == lower[n - 4] == '/';
      if n - 4 >= 6 {
        SlashMeansUnknown(lower[6..], n - 10);
      } else {
        assert lower[..6][n - 4] == '/';
        assert n == 9;
        assert lower[6..] == lower[n - 4..][1..] == "rtx";
      }
    }
  }

  // ----- Validation

  predicate Known(c: Codec) {
    KindOf(c.mimeType) != Unknown
  }

  /** A codec that RTX may protect. */
  predicate Protectable(c: Codec) {
    KindOf(c.mimeType) != Rtx && KindOf(c.mimeType) != Fec
  }

  predicate IsMedia(c: Codec) {
    KindOf(c.mimeType) == Media
  }

  /** The RTX codec at `i` protects one of the codecs. */
  ghost predicate LinkedAt(codecs: seq<Codec>, i: nat)
    requires i < |codecs|
  {
    IsRtx(codecs[i]) ==>
      exists j :: 0 <= j < |codecs| && AptIs(codecs[i], codecs[j].payloadType) && Protectable(codecs[j])
  }

  /**
   The worker takes the codecs: it knows all of them, no payload type is repeated, RTX
   codecs protect codecs of the list, and there is a media codec.
   */
  ghost predicate Accepts(codecs: seq<Codec>) {
    && (forall i :: 0 <= i < |codecs| ==> Known(codecs[i]))
    && DistinctPayloadTypes(codecs)
    && (forall i :: 0 <= i < |codecs| ==> LinkedAt(codecs, i))
    && (exists i :: 0 <= i < |codecs| && IsMedia(codecs[i]))
  }

  datatype Refusal =
    | UnknownMimeType(index: nat)
    | RepeatedPayloadType(index: nat)
    | AptNamesFeature(index: nat)
    | AptNamesNothing(index: nat)
    | NoMediaCodec

  /** Why a list is refused, and at which codec the worker notices. */
  ghost predicate Justified(codecs: seq<Codec>, r: Refusal) {
    match r
    case UnknownMimeType(i) =>
      && i < |codecs| && KindOf(codecs[i].mimeType) == Unknown
      && forall j :: 0 <= j < i ==> KindOf(codecs[j].mimeType) != Unknown
    case RepeatedPayloadType(i) =>
      && i < |codecs| && DistinctPayloadTypes(codecs[..i])
      && exists j :: 0 <= j < i && codecs[j].payloadType == codecs[i].payloadType
    case AptNamesFeature(i) =>
      && i < |codecs| && IsRtx(codecs[i])
      && var a := AptIndex(codecs, codecs[i]);
      && a.Some? && KindOf(codecs[a.value].mimeType) in {Rtx, Fec}
    case AptNamesNothing(i) => i < |codecs| && IsRtx(codecs[i]) && AptIndex(codecs, codecs[i]).None?
    case NoMediaCodec => forall i :: 0 <= i < |codecs| ==> KindOf(codecs[i].mimeType) != Media
  }

  predicate Linked(codecs: seq<Codec>, i: nat)
    requires i < |codecs|
  {
    var a := AptIndex(codecs, codecs[i]);
    a.Some? && Protectable(codecs[a.value])
  }

  /** If no payload type is repeated, the first codec that RTX codec `i` names is the only one. */
  lemma FirstDecides(codecs: seq<Codec>, i: nat)
    requires i < |codecs| && IsRtx(codecs[i]) && DistinctPayloadTypes(codecs)
    ensures LinkedAt(codecs, i) <==> Linked(codecs, i)
  {
    hide Protectable, IsRtx;
  }

  lemma UnlinkedIsRefused(codecs: seq<Codec>, i: nat)
    requires i < |codecs| && IsRtx(codecs[i]) && !Linked(codecs, i)
    ensures !Accepts(codecs)
  {
    hide Linked, LinkedAt, Known, IsMedia;
    if DistinctPayloadTypes(codecs) {
      FirstDecides(codecs, i);
    }
  }

  lemma AllLinked(codecs: seq<Codec>)
    requires DistinctPayloadTypes(codecs) && forall i :: 0 <= i < |codecs| && IsRtx(codecs[i]) ==> Linked(codecs, i)
    ensures forall i :: 0 <= i < |codecs| ==> LinkedAt(codecs, i)
  {
    forall i | 0 <= i < |codecs|
      ensures LinkedAt(codecs, i)
    {
      if IsRtx(codecs[i]) {
        FirstDecides(codecs, i);
      }
    }
  }

  /** The loop over the codecs of `ValidateCodecs`. */
  method ValidateCodecs(codecs: seq<Codec>) returns (r: Option<Refusal>)
    ensures r.None? <==> DistinctPayloadTypes(codecs) && forall i :: 0 <= i < |codecs| ==> LinkedAt(codecs, i)
    ensures r.Some? ==> !Accepts(codecs) && Justified(codecs, r.value)
  {
    hide KindOf, IsRtx, AptIs, LinkedAt;
    var seen: set<int> := {};
    for i := 0 to |codecs|
      invariant forall pt :: pt in seen <==> exists j :: 0 <= j < i && codecs[j].payloadType == pt
      invariant DistinctPayloadTypes(codecs[..i])
      invariant forall j :: 0 <= j < i && IsRtx(codecs[j]) ==> Linked(codecs, j)
    {
      if codecs[i].payloadType in seen { return Some(RepeatedPayloadType(i)); }
      seen := seen + {codecs[i].payloadType};
      if IsRtx(codecs[i]) {
        var a := AptIndex(codecs, codecs[i]);
        if a.None? || !Protectable(codecs[a.value]) {
          UnlinkedIsRefused(codecs, i);
          if DistinctPayloadTypes(codecs) { FirstDecides(codecs, i); }
          return Some(if a.None? then AptNamesNothing(i) else AptNamesFeature(i));
        }
      }
    }
    assert codecs[..|codecs|] == codecs;
    AllLinked(codecs);
    return None;
  }

  lemma LinksMean(codecs: seq<Codec>)
    requires forall i :: 0 <= i < |codecs| ==> LinkedAt(codecs, i)
    ensures forall i :: 0 <= i < |codecs| && IsRtx(codecs[i]) ==>
      exists j :: 0 <= j < |codecs| && AptIs(codecs[i], codecs[j].payloadType)
                  && KindOf(codecs[j].mimeType) !in {Rtx, Fec}
  {
    hide KindOf, IsRtx, AptIs;
    forall i | 0 <= i < |codecs| && IsRtx(codecs[i])
      ensures exists j :: 0 <= j < |codecs| && AptIs(codecs[i], codecs[j].payloadType)
                          && KindOf(codecs[j].mimeType) !in {Rtx, Fec}
    {
      assert LinkedAt(codecs, i);
    }
  }

  /** All of it: the codecs one by one, `ValidateCodecs`, and the media codec that encodings need. */
  method Validate(codecs: seq<Codec>) returns (r: Option<Refusal>)
    ensures r.None? <==> Accepts(codecs)
    ensures r.Some? ==> Justified(codecs, r.value)
    ensures r.None? ==>
      && DistinctPayloadTypes(codecs)
      && (exists i :: 0 <= i < |codecs| && KindOf(codecs[i].mimeType) == Media)
      && forall i :: 0 <= i < |codecs| ==>
        && KindOf(codecs[i].mimeType) != Unknown
        && (IsRtx(codecs[i]) ==> exists j :: 0 <= j < |codecs| && AptIs(codecs[i], codecs[j].payloadType)
                                             && KindOf(codecs[j].mimeType) !in {Rtx, Fec})
  {
    hide KindOf, DistinctPayloadTypes, LinkedAt;
    for i := 0 to |codecs|
      invariant forall j :: 0 <= j < i ==> Known(codecs[j])
    {
      if !Known(codecs[i]) { return Some(UnknownMimeType(i)); }
    }
    r := ValidateCodecs(codecs);
    if r.Some? { return; }
    LinksMean(codecs);
    for i := 0 to |codecs|
      invariant forall j :: 0 <= j < i ==> !IsMedia(codecs[j])
    {
      if IsMedia(codecs[i]) { return None; }
    }
    return Some(NoMediaCodec);
  }

  // ----- Selections

  /** Acceptance of the codecs of `cs` at some positions. */
  ghost predicate AcceptsAt(cs: seq<Codec>, idx: seq<nat>)
    requires forall i :: i in idx ==> i < |cs|
  {
    && (forall i :: i in idx ==> Known(cs[i]))
    && (forall i, j :: i in idx && j in idx && i < j ==> cs[i].payloadType != cs[j].payloadType)
    && (forall i :: i in idx ==> LinkedWithin(cs, idx, i))
    && (exists i :: i in idx && IsMedia(cs[i]))
  }

  ghost predicate LinkedWithin(cs: seq<Codec>, idx: seq<nat>, i: nat)
    requires i < |cs| && forall i :: i in idx ==> i < |cs|
  {
    IsRtx(cs[i]) ==> exists j :: j in idx && AptIs(cs[i], cs[j].payloadType) && Protectable(cs[j])
  }

  lemma SelectedLinks(cs: seq<Codec>, out: seq<Codec>, idx: seq<nat>, k: nat)
    requires Selects(cs, out, idx) && k < |out|
    ensures LinkedAt(out, k) <==> LinkedWithin(cs, idx, idx[k])
  {
    hide KindOf, IsRtx, AptIs;
    ComesFromKeeps(out[k], cs[idx[k]]);
    if LinkedAt(out, k) && IsRtx(out[k]) {
      var l :| 0 <= l < |out| && AptIs(out[k], out[l].payloadType) && Protectable(out[l]);
      assert idx[l] in idx;
    }
    if LinkedWithin(cs, idx, idx[k]) && IsRtx(out[k]) {
      var j :| j in idx && AptIs(cs[idx[k]], cs[j].payloadType) && Protectable(cs[j]);
      var l :| 0 <= l < |idx| && idx[l] == j;
      assert Protectable(out[l]);
    }
  }

  /** Feedback does not matter, so a selection is accepted by its positions. */
  lemma SelectionIsAccepted(cs: seq<Codec>, out: seq<Codec>, idx: seq<nat>)
    requires Selects(cs, out, idx)
    ensures Accepts(out) <==> AcceptsAt(cs, idx)
  {
    hide KindOf, LinkedAt, LinkedWithin;
    forall k | 0 <= k < |out|
      ensures LinkedAt(out, k) <==> LinkedWithin(cs, idx, idx[k])
    {
      SelectedLinks(cs, out, idx, k);
    }
    if Accepts(out) {
      SelectionForth(cs, out, idx);
    }
    if AcceptsAt(cs, idx) {
      SelectionBack(cs, out, idx);
    }
  }

  lemma SelectionForth(cs: seq<Codec>, out: seq<Codec>, idx: seq<nat>)
    requires Selects(cs, out, idx) && Accepts(out)
    requires forall k :: 0 <= k < |out| ==> LinkedWithin(cs, idx, idx[k])
    ensures AcceptsAt(cs, idx)
  {
    hide KindOf, LinkedAt, LinkedWithin;
    forall i, j | i in idx && j in idx && i < j
      ensures cs[i].payloadType != cs[j].payloadType
    {
      var k :| 0 <= k < |idx| && idx[k] == i;
      var l :| 0 <= l < |idx| && idx[l] == j;
      assert k < l;
    }
    var k :| 0 <= k < |out| && IsMedia(out[k]);
    assert idx[k] in idx;
    forall i | i in idx
      ensures Known(cs[i])
    {
      var k :| 0 <= k < |idx| && idx[k] == i;
      assert Known(out[k]);
    }
  }

  lemma SelectionBack(cs: seq<Codec>, out: seq<Codec>, idx: seq<nat>)
    requires Selects(cs, out, idx) && AcceptsAt(cs, idx)
    requires forall k :: 0 <= k < |out| ==> LinkedAt(out, k)
    ensures Accepts(out)
  {
    hide KindOf, LinkedAt, LinkedWithin;
    forall k, l | 0 <= k < l < |out|
      ensures out[k].payloadType != out[l].payloadType
    {
      assert idx[k] in idx && idx[l] in idx;
    }
    forall k | 0 <= k < |out|
      ensures Known(out[k])
    {
      assert idx[k] in idx;
    }
    var i :| i in idx && IsMedia(cs[i]);
    var k :| 0 <= k < |idx| && idx[k] == i;
    assert IsMedia(out[k]);
  }

  // ----- The codecs of routers

  /** RTX may protect every codec that is not RTX itself. */
  ghost predicate NoFec(codecs: seq<Codec>) {
    forall c :: c in codecs ==> KindOf(c.mimeType) != Fec
  }

  ghost predicate SupportsNoFec(supported: seq<MediaCodec>) {
    forall s :: s in supported ==> KindOf(s.mimeType) != Fec
  }

  lemma {:induction false} AddAllKeepsNoFec(supported: seq<MediaCodec>, a: Allocation, media: seq<MediaCodec>)
    requires SupportsNoFec(supported) && NoFec(a.codecs)
    ensures AddAll(supported, a, media).Success? ==> NoFec(AddAll(supported, a, media).value.codecs)
    decreases |media|
  {
    hide KindOf, Normalize, LooselyMatches, IsVideo;
    if media != [] {
      var next := Add(supported, a, media[0]);
      if next.Success? {
        RtxIsKnown();
        assert supported[SupportedIndex(Normalize(media[0]).value, supported).value] in supported;
        AddAllKeepsNoFec(supported, next.value, media[1..]);
      }
    }
  }

  lemma GeneratedHasNoFec(supported: seq<MediaCodec>, media: seq<MediaCodec>)
    requires SupportsNoFec(supported)
    ensures Generated(supported, media).Success? ==> NoFec(Generated(supported, media).value)
  {
    hide KindOf;
    AddAllKeepsNoFec(supported, START, media);
  }

  lemma KindByLower(a: string, b: string)
    requires Lower(a) == Lower(b)
    ensures KindOf(a) == KindOf(b)
  {
  }

  lemma RtxIsKnown()
    ensures KindOf(RTX_MIME) == Rtx
  {
    assert Lower(RTX_MIME) == "video/rtx";
    assert "video/rtx"[..6] == "video/" && "video/rtx"[6..] == "rtx";
  }
}
