/**
 Producer codecs against router capabilities: the payload type mapping, RTX codecs
 included, and the codecs that consumers are offered.
 */
module ProducerMapping {
  import opened Wrappers
  import opened Codecs
  import opened RouterCapabilities

  datatype MappedCodec = MappedCodec(payloadType: int, mappedPayloadType: int)

  datatype MappingError =
    | UnmatchedCodec(index: nat)
    | MissingMediaCodec(index: nat)
    | UnmappedMediaCodec(index: nat)
    | UnsupportedRtx(index: nat)

  // ----- The capability each producer codec is mapped to

  /**
   The capability that codec `i` is mapped to. A media codec is mapped to the first
   one it matches; an RTX codec to the RTX capability of the one that the codec it
   protects is mapped to, provided that one has been mapped before it.
   */
  function Image(h: H264, codecs: seq<Codec>, caps: seq<Codec>, i: nat): (k: Option<nat>)
    requires i < |codecs|
    ensures k.Some? ==> k.value < |caps|
    decreases if IsRtx(codecs[i]) then i + 1 else 0
  {
    if !IsRtx(codecs[i]) then MatchIndex(h, View(codecs[i]), caps)
    else
      var a :- AptIndex(codecs, codecs[i]);
      if IsRtx(codecs[a]) && a >= i then None
      else
        var k :- Image(h, codecs, caps, a);
        RtxIndex(caps, caps[k].payloadType)
  }

  lemma MediaImage(h: H264, codecs: seq<Codec>, caps: seq<Codec>, i: nat)
    requires i < |codecs| && !IsRtx(codecs[i])
    ensures Image(h, codecs, caps, i) == MatchIndex(h, View(codecs[i]), caps)
  {
  }

  lemma RtxImage(h: H264, codecs: seq<Codec>, caps: seq<Codec>, i: nat)
    requires i < |codecs| && IsRtx(codecs[i])
    ensures var a := AptIndex(codecs, codecs[i]);
            if a.None? || (IsRtx(codecs[a.value]) && a.value >= i) then Image(h, codecs, caps, i) == None
            else
              var k := Image(h, codecs, caps, a.value);
              Image(h, codecs, caps, i) == if k.None? then None else RtxIndex(caps, caps[k.value].payloadType)
  {
  }

  /** Mapping succeeds. */
  ghost predicate Mapped(h: H264, codecs: seq<Codec>, caps: seq<Codec>) {
    forall i :: 0 <= i < |codecs| ==> Image(h, codecs, caps, i).Some?
  }

  /** A media codec once its parameters have been adjusted to the capability it matched. */
  function AdjustedCodec(h: H264, c: Codec, caps: seq<Codec>): Codec {
    var k := MatchIndex(h, View(c), caps);
    if IsRtx(c) || k.None? then c else c.(parameters := Adjusted(h, View(c), View(caps[k.value])))
  }

  function AdjustedCodecs(h: H264, codecs: seq<Codec>, caps: seq<Codec>): seq<Codec> {
    if codecs == [] then []
    else [AdjustedCodec(h, codecs[0], caps)] + AdjustedCodecs(h, codecs[1..], caps)
  }

  lemma {:induction false} AdjustedCodecsAt(h: H264, codecs: seq<Codec>, caps: seq<Codec>)
    ensures |AdjustedCodecs(h, codecs, caps)| == |codecs|
    ensures forall i :: 0 <= i < |codecs| ==> AdjustedCodecs(h, codecs, caps)[i] == AdjustedCodec(h, codecs[i], caps)
  {
    if codecs != [] {
      AdjustedCodecsAt(h, codecs[1..], caps);
    }
  }

  lemma AdjustingKeeps(h: H264, c: Codec, caps: seq<Codec>)
    ensures AdjustedCodec(h, c, caps).payloadType == c.payloadType
    ensures IsRtx(AdjustedCodec(h, c, caps)) == IsRtx(c)
    ensures IsRtx(c) ==> AdjustedCodec(h, c, caps) == c
  {
  }

  /** Positions of the RTX codecs, or of the others, among the first `n`. */
  function Positions(codecs: seq<Codec>, rtx: bool, n: nat): (s: seq<nat>)
    requires n <= |codecs|
    ensures forall j :: 0 <= j < |s| ==> s[j] < n && IsRtx(codecs[s[j]]) == rtx
    ensures forall x :: 0 <= x < n && IsRtx(codecs[x]) == rtx ==> x in s
  {
    if n == 0 then []
    else if IsRtx(codecs[n - 1]) == rtx then Positions(codecs, rtx, n - 1) + [n - 1]
    else Positions(codecs, rtx, n - 1)
  }

  /** The order in which codecs enter the mapping: media codecs first. */
  function InsertionOrder(codecs: seq<Codec>): (s: seq<nat>)
    ensures forall j :: 0 <= j < |s| ==> s[j] < |codecs|
  {
    Positions(codecs, false, |codecs|) + Positions(codecs, true, |codecs|)
  }

  ghost function Entry(h: H264, codecs: seq<Codec>, caps: seq<Codec>, i: nat): MappedCodec
    requires i < |codecs| && Mapped(h, codecs, caps)
  {
    MappedCodec(codecs[i].payloadType, caps[Image(h, codecs, caps, i).value].payloadType)
  }

  ghost predicate AreEntries(h: H264, codecs: seq<Codec>, caps: seq<Codec>, order: seq<nat>, entries: seq<MappedCodec>)
    requires Mapped(h, codecs, caps)
    requires forall j :: 0 <= j < |order| ==> order[j] < |codecs|
  {
    && |entries| == |order|
    && forall j :: 0 <= j < |order| ==> entries[j] == Entry(h, codecs, caps, order[j])
  }

  /** The payload type mapping of a producer. */
  ghost predicate IsMapping(h: H264, codecs: seq<Codec>, caps: seq<Codec>, entries: seq<MappedCodec>) {
    Mapped(h, codecs, caps) && AreEntries(h, codecs, caps, InsertionOrder(codecs), entries)
  }

  lemma MappingExists(h: H264, codecs: seq<Codec>, caps: seq<Codec>) returns (entries: seq<MappedCodec>)
    requires Mapped(h, codecs, caps)
    ensures IsMapping(h, codecs, caps, entries)
  {
    hide Image, IsRtx;
    var order := InsertionOrder(codecs);
    entries := [];
    for i := 0 to |order|
      invariant |entries| == i
      invariant forall j :: 0 <= j < i ==> entries[j] == Entry(h, codecs, caps, order[j])
    {
      entries := entries + [Entry(h, codecs, caps, order[i])];
    }
  }

  lemma PtIndexDependsOnPts(a: seq<Codec>, b: seq<Codec>, pt: int)
    requires |a| == |b| && forall i :: 0 <= i < |a| ==> a[i].payloadType == b[i].payloadType
    ensures PtIndex(a, pt) == PtIndex(b, pt)
  {
  }

  /** `capOf` holds the images of the media codecs before `m` and of the RTX codecs before `n`, and no others. */
  ghost predicate HoldsImages(h: H264, codecs: seq<Codec>, caps: seq<Codec>, capOf: seq<Option<nat>>, m: nat, n: nat) {
    && |capOf| == |codecs|
    && forall j :: 0 <= j < |codecs| ==>
      capOf[j] == if j < (if IsRtx(codecs[j]) then n else m) then Image(h, codecs, caps, j) else None
  }

  /** None of those images is missing. */
  ghost predicate ImagesExist(h: H264, codecs: seq<Codec>, caps: seq<Codec>, m: nat, n: nat) {
    forall j :: 0 <= j < |codecs| && j < (if IsRtx(codecs[j]) then n else m) ==> Image(h, codecs, caps, j).Some?
  }

  /**
   `UnmatchedCodec(i)` reports the first media codec without an image; the other errors, the
   first RTX codec: one that names no codec, or names an RTX codec that is not mapped yet, or
   whose media codec is mapped to a capability without RTX.
   */
  ghost predicate Explains(h: H264, codecs: seq<Codec>, caps: seq<Codec>, e: MappingError) {
    && e.index < |codecs|
    && IsRtx(codecs[e.index]) != e.UnmatchedCodec?
    && Image(h, codecs, caps, e.index).None?
    && (if e.UnmatchedCodec? then ImagesExist(h, codecs, caps, e.index, 0)
        else ImagesExist(h, codecs, caps, |codecs|, e.index))
    && (!e.UnmatchedCodec? ==>
      && var a := AptIndex(codecs, codecs[e.index]);
      && (e.MissingMediaCodec? <==> a.None?)
      && (e.UnmappedMediaCodec? <==> a.Some? && IsRtx(codecs[a.value]) && a.value >= e.index)
      && (e.UnsupportedRtx? ==>
        && var k := Image(h, codecs, caps, a.value);
        k.Some? && RtxIndex(caps, caps[k.value].payloadType).None?))
  }

  /** The first loop: media codecs, which are adjusted as they are matched. */
  method MapMediaCodecs(h: H264, codecs: seq<Codec>, caps: seq<Codec>)
    returns (r: Result<(seq<Option<nat>>, seq<Codec>), MappingError>)
    ensures r.Failure? ==> r.error.UnmatchedCodec? && Explains(h, codecs, caps, r.error)
    ensures r.Success? ==> r.value.1 == AdjustedCodecs(h, codecs, caps)
    ensures r.Success? ==> HoldsImages(h, codecs, caps, r.value.0, |codecs|, 0)
    ensures r.Success? ==> ImagesExist(h, codecs, caps, |codecs|, 0)
  {
    hide Image, IsRtx, Matches, Adjusted;
    var current := codecs;
    var capOf: seq<Option<nat>> := seq(|codecs|, _ => None);
    var i := 0;
    while i < |codecs|
      invariant 0 <= i <= |codecs|
      invariant HoldsImages(h, codecs, caps, capOf, i, 0) && ImagesExist(h, codecs, caps, i, 0)
      invariant |current| == |codecs|
      invariant forall j :: 0 <= j < |codecs| ==>
        current[j] == if j < i then AdjustedCodec(h, codecs[j], caps) else codecs[j]
    {
      AdjustingKeeps(h, codecs[i], caps);
      if !IsRtx(current[i]) {
        MediaImage(h, codecs, caps, i);
        var k := MatchIndex(h, View(current[i]), caps);
        if k.None? { return Failure(UnmatchedCodec(i)); }
        current := current[i := current[i].(parameters := Adjusted(h, View(current[i]), View(caps[k.value])))];
        capOf := capOf[i := k];
      }
      i := i + 1;
    }
    AdjustedCodecsAt(h, codecs, caps);
    assert current == AdjustedCodecs(h, codecs, caps);
    return Success((capOf, current));
  }

  /** The second loop: RTX codecs, through the codec that each one protects. */
  method MapRtxCodecs(h: H264, codecs: seq<Codec>, caps: seq<Codec>, current: seq<Codec>, media: seq<Option<nat>>)
    returns (r: Result<seq<Option<nat>>, MappingError>)
    requires current == AdjustedCodecs(h, codecs, caps)
    requires HoldsImages(h, codecs, caps, media, |codecs|, 0)
    requires ImagesExist(h, codecs, caps, |codecs|, 0)
    ensures r.Failure? ==> !r.error.UnmatchedCodec? && Explains(h, codecs, caps, r.error)
    ensures r.Success? ==> HoldsImages(h, codecs, caps, r.value, |codecs|, |codecs|) && Mapped(h, codecs, caps)
  {
    hide Image, IsRtx, AdjustedCodec, AptIndex, RtxIndex, AptIs, Get;
    AdjustedCodecsAt(h, codecs, caps);
    forall j | 0 <= j < |codecs|
      ensures current[j].payloadType == codecs[j].payloadType
      ensures IsRtx(current[j]) == IsRtx(codecs[j]) && (IsRtx(codecs[j]) ==> current[j] == codecs[j])
    {
      AdjustingKeeps(h, codecs[j], caps);
    }
    var capOf := media;
    var i := 0;
    while i < |codecs|
      invariant 0 <= i <= |codecs|
      invariant HoldsImages(h, codecs, caps, capOf, |codecs|, i) && ImagesExist(h, codecs, caps, |codecs|, i)
    {
      if IsRtx(current[i]) {
        RtxImage(h, codecs, caps, i);
        var a := AptIndex(current, current[i]);
        AptIndexIsKept(codecs, current, i);
        if a.None? { return Failure(MissingMediaCodec(i)); }
        assert capOf[a.value] == None <==> IsRtx(codecs[a.value]) && a.value >= i;
        if capOf[a.value].None? { return Failure(UnmappedMediaCodec(i)); }
        var k := RtxIndex(caps, caps[capOf[a.value].value].payloadType);
        if k.None? { return Failure(UnsupportedRtx(i)); }
        capOf := capOf[i := k];
      }
      i := i + 1;
    }
    return Success(capOf);
  }

  /**
   The whole mapping. On success the producer codecs come back adjusted; on failure
   the error names the first offending codec, media codecs being tried first.
   */
  method GetMapping(h: H264, codecs: seq<Codec>, caps: seq<Codec>)
    returns (r: Result<(seq<MappedCodec>, seq<Codec>), MappingError>)
    ensures r.Success? <==> Mapped(h, codecs, caps)
    ensures r.Success? ==> IsMapping(h, codecs, caps, r.value.0) && r.value.1 == AdjustedCodecs(h, codecs, caps)
    ensures r.Failure? ==> Explains(h, codecs, caps, r.error)
  {
    hide Image, IsRtx, Matches, Adjusted, AdjustedCodec;
    var media := MapMediaCodecs(h, codecs, caps);
    if media.Failure? { return Failure(media.error); }
    var current := media.value.1;
    var all := MapRtxCodecs(h, codecs, caps, current, media.value.0);
    if all.Failure? { return Failure(all.error); }
    var capOf := all.value;
    var order := InsertionOrder(codecs);
    AdjustedCodecsAt(h, codecs, caps);
    var entries: seq<MappedCodec> := [];
    var i := 0;
    while i < |order|
      invariant 0 <= i <= |order| && |entries| == i
      invariant forall j :: 0 <= j < i ==> entries[j] == Entry(h, codecs, caps, order[j])
    {
      AdjustingKeeps(h, codecs[order[i]], caps);
      entries := entries + [MappedCodec(current[order[i]].payloadType, caps[capOf[order[i]].value].payloadType)];
      i := i + 1;
    }
    return Success((entries, current));
  }

  lemma AptIndexIsKept(codecs: seq<Codec>, current: seq<Codec>, i: nat)
    requires |codecs| == |current| && i < |codecs| && codecs[i] == current[i]
    requires forall j :: 0 <= j < |codecs| ==> codecs[j].payloadType == current[j].payloadType
    ensures AptIndex(current, current[i]) == AptIndex(codecs, codecs[i])
  {
    if "apt" in codecs[i].parameters && codecs[i].parameters["apt"].Num? {
      PtIndexDependsOnPts(codecs, current, codecs[i].parameters["apt"].n);
    }
  }

  // ----- When mapping succeeds

  /** `k` is the first capability of the same format and profile as a codec. */
  ghost predicate IsFirstAlike(h: H264, c: Codec, caps: seq<Codec>, k: nat) {
    && k < |caps|
    && SameFormat(View(c), View(caps[k])) && SameProfileOf(h, View(c), View(caps[k]))
    && forall j :: 0 <= j < k ==> !(SameFormat(View(c), View(caps[j])) && SameProfileOf(h, View(c), View(caps[j])))
  }

  /** A media codec is mapped to the first capability of the same format and profile, and to none iff there is none. */
  lemma MediaImageAgrees(h: H264, codecs: seq<Codec>, caps: seq<Codec>, i: nat, k: nat)
    requires i < |codecs| && !IsRtx(codecs[i])
    ensures Image(h, codecs, caps, i) == Some(k) <==> IsFirstAlike(h, codecs[i], caps, k)
  {
    hide Matches, SameFormat, SameProfileOf;
    MediaImage(h, codecs, caps, i);
    forall j | 0 <= j < |caps|
      ensures Matches(h, View(codecs[i]), View(caps[j])) <==>
        SameFormat(View(codecs[i]), View(caps[j])) && SameProfileOf(h, View(codecs[i]), View(caps[j]))
    {
      MatchingMeans(h, View(codecs[i]), View(caps[j]));
    }
  }

  /** A media codec for which there is a capability, and an RTX codec that protects one with a video capability. */
  ghost predicate Mappable(h: H264, codecs: seq<Codec>, caps: seq<Codec>, i: nat)
    requires i < |codecs|
  {
    if !IsRtx(codecs[i]) then exists k: nat :: IsFirstAlike(h, codecs[i], caps, k)
    else
      exists a: nat, k: nat {:trigger IsFirstAlike(h, codecs[a], caps, k)} ::
        && a < |codecs| && AptIs(codecs[i], codecs[a].payloadType) && !IsRtx(codecs[a])
        && (forall j :: 0 <= j < a ==> codecs[j].payloadType != codecs[a].payloadType)
        && IsFirstAlike(h, codecs[a], caps, k) && IsVideo(caps[k])
  }

  /**
   Mapping against the capabilities of a router succeeds iff every media codec has a capability of
   its format and profile, and every RTX codec's apt is the payload type of a media codec, the
   first codec with that type, whose capability is a video one. The order of the codecs does
   not matter otherwise.
   */
  lemma MappedIff(h: H264, codecs: seq<Codec>, caps: seq<Codec>)
    requires WellFormed(caps)
    ensures Mapped(h, codecs, caps) <==> forall i :: 0 <= i < |codecs| ==> Mappable(h, codecs, caps, i)
  {
    hide Mappable, Image, WellFormed;
    if Mapped(h, codecs, caps) {
      forall i | 0 <= i < |codecs|
        ensures Mappable(h, codecs, caps, i)
      {
        if IsRtx(codecs[i]) {
          RtxIsMappable(h, codecs, caps, i);
        } else {
          MediaIsMappable(h, codecs, caps, i);
        }
      }
    }
    if forall i :: 0 <= i < |codecs| ==> Mappable(h, codecs, caps, i) {
      forall i | 0 <= i < |codecs|
        ensures Image(h, codecs, caps, i).Some?
      {
        if IsRtx(codecs[i]) {
          MappableRtxHasImage(h, codecs, caps, i);
        } else {
          MediaIsMappable(h, codecs, caps, i);
        }
      }
    }
  }

  lemma MediaIsMappable(h: H264, codecs: seq<Codec>, caps: seq<Codec>, i: nat)
    requires i < |codecs| && !IsRtx(codecs[i])
    ensures Mappable(h, codecs, caps, i) <==> Image(h, codecs, caps, i).Some?
  {
    hide IsFirstAlike, Image;
    if Image(h, codecs, caps, i).Some? {
      MediaImageAgrees(h, codecs, caps, i, Image(h, codecs, caps, i).value);
    }
    if k: nat :| IsFirstAlike(h, codecs[i], caps, k) {
      MediaImageAgrees(h, codecs, caps, i, k);
    }
  }

  lemma RtxIsMappable(h: H264, codecs: seq<Codec>, caps: seq<Codec>, i: nat)
    requires WellFormed(caps) && Mapped(h, codecs, caps) && i < |codecs| && IsRtx(codecs[i])
    ensures Mappable(h, codecs, caps, i)
  {
    hide IsFirstAlike, Image, IsVideo, IsRtx, WellFormed;
    RtxCommutes(h, codecs, caps, i);
    var a := AptIndex(codecs, codecs[i]).value;
    assert Image(h, codecs, caps, a).Some?;
    var k := Image(h, codecs, caps, a).value;
    MediaImageAgrees(h, codecs, caps, a, k);
    RtxImage(h, codecs, caps, i);
    assert Image(h, codecs, caps, i).Some?;
    RtxOfCapability(caps, k);
  }

  lemma MappableRtxHasImage(h: H264, codecs: seq<Codec>, caps: seq<Codec>, i: nat)
    requires WellFormed(caps) && i < |codecs| && IsRtx(codecs[i]) && Mappable(h, codecs, caps, i)
    ensures Image(h, codecs, caps, i).Some?
  {
    hide SameFormat, SameProfileOf, Image, IsVideo, IsRtx, WellFormed;
    var a: nat, k: nat :| a < |codecs| && AptIs(codecs[i], codecs[a].payloadType) && !IsRtx(codecs[a])
      && (forall j :: 0 <= j < a ==> codecs[j].payloadType != codecs[a].payloadType)
      && IsFirstAlike(h, codecs[a], caps, k) && IsVideo(caps[k]);
    assert AptIndex(codecs, codecs[i]) == Some(a);
    MediaImageAgrees(h, codecs, caps, a, k);
    RtxImage(h, codecs, caps, i);
    MediaImage(h, codecs, caps, a);
    MatchKeepsRtx(h, codecs[a], caps[k]);
    RtxOfCapability(caps, k);
  }

  /**
   What becomes of the codecs of a mapped producer: RTX codecs are left alone, media codecs too
   except for the profile-level-id of H264.
   */
  lemma AdjustedAt(h: H264, codecs: seq<Codec>, caps: seq<Codec>, i: nat)
    requires i < |codecs| && Image(h, codecs, caps, i).Some?
    ensures |AdjustedCodecs(h, codecs, caps)| == |codecs|
    ensures var k := Image(h, codecs, caps, i).value;
            var c, adjusted := codecs[i], AdjustedCodecs(h, codecs, caps)[i];
            && adjusted == c.(parameters := adjusted.parameters)
            && (IsRtx(c) || !SameLetters(c.mimeType, "video/h264") ==> adjusted == c)
            && (forall key :: key != "profile-level-id" ==> SameValue(adjusted.parameters, c.parameters, key))
            && (!IsRtx(c) && SameLetters(c.mimeType, "video/h264") ==>
              && h.answer(c.parameters, caps[k].parameters).Some?
              && var answer := h.answer(c.parameters, caps[k].parameters).value;
              && ("profile-level-id" in adjusted.parameters <==> answer != "")
              && (answer != "" ==> adjusted.parameters["profile-level-id"] == Str(answer)))
  {
    hide Image, IsRtx, Matches, Adjusted, SameLetters;
    AdjustedCodecsAt(h, codecs, caps);
    if !IsRtx(codecs[i]) {
      MediaImage(h, codecs, caps, i);
      AdjustingMeans(h, View(codecs[i]), View(caps[Image(h, codecs, caps, i).value]));
    }
  }

  // ----- RTX links are preserved

  /** In well formed capabilities, the RTX codec of capability `k` is the next one, if it is a video codec. */
  lemma RtxOfCapability(caps: seq<Codec>, k: nat)
    requires WellFormed(caps) && k < |caps|
    ensures RtxIndex(caps, caps[k].payloadType) ==
      if !IsRtx(caps[k]) && IsVideo(caps[k]) then Some(k + 1) else None
  {
    hide IsRtx, IsVideo;
    assert PairedAt(caps, k);
    var j := RtxIndex(caps, caps[k].payloadType);
    if j.Some? {
      assert PairedAt(caps, j.value);
      assert caps[j.value - 1].payloadType == caps[k].payloadType;
    } else {
      assert k + 1 < |caps| ==> PairedAt(caps, k + 1);
    }
  }

  /**
   The mapping commutes with the RTX links: an accepted RTX codec protects a media
   codec, never another RTX codec, and its image is the RTX codec, next in the
   capabilities, of the image of the codec it protects.
   */
  lemma RtxCommutes(h: H264, codecs: seq<Codec>, caps: seq<Codec>, i: nat)
    requires WellFormed(caps) && Mapped(h, codecs, caps)
    requires i < |codecs| && IsRtx(codecs[i])
    ensures AptIndex(codecs, codecs[i]).Some?
    ensures var a := AptIndex(codecs, codecs[i]).value;
            var image := Image(h, codecs, caps, i).value;
            && !IsRtx(codecs[a])
            && image == Image(h, codecs, caps, a).value + 1
            && IsRtx(caps[image])
            && AptIs(caps[image], caps[Image(h, codecs, caps, a).value].payloadType)
  {
    assert Image(h, codecs, caps, i).Some?;
    var a := AptIndex(codecs, codecs[i]).value;
    var k := Image(h, codecs, caps, a).value;
    RtxOfCapability(caps, k);
  }

  // ----- Consumable codecs

  /** `entries.find(e => e.payloadType === pt)`, as an index. */
  function EntryIndex(entries: seq<MappedCodec>, pt: int): (r: Option<nat>)
    ensures r.Some? ==> r.value < |entries| && entries[r.value].payloadType == pt
    ensures r.Some? ==> forall j :: 0 <= j < r.value ==> entries[j].payloadType != pt
    ensures r.None? ==> forall j :: 0 <= j < |entries| ==> entries[j].payloadType != pt
  {
    if entries == [] then None
    else if entries[0].payloadType == pt then Some(0)
    else
      var rest := EntryIndex(entries[1..], pt);
      if rest.None? then None else Some(rest.value + 1)
  }

  /** The capability a producer codec is looked up as; `None` when a lookup fails. */
  function Lookup(caps: seq<Codec>, entries: seq<MappedCodec>, pt: int): (k: Option<nat>)
    ensures k.Some? ==> k.value < |caps|
  {
    var e :- EntryIndex(entries, pt);
    PtIndex(caps, entries[e].mappedPayloadType)
  }

  function ConsumableRtx(caps: seq<Codec>, pt: int): seq<Codec> {
    match RtxIndex(caps, pt)
    case None => []
    case Some(j) => [caps[j].(channels := None)]
  }

  /** What a media codec looked up as capability `k` becomes: the codec and, if there is one, its RTX codec. */
  function Pair(c: Codec, caps: seq<Codec>, k: nat): seq<Codec>
    requires k < |caps|
  {
    [caps[k].(parameters := c.parameters)] + ConsumableRtx(caps, caps[k].payloadType)
  }

  /** The consumable codecs; `None` when a lookup fails. */
  function ConsumableCodecs(codecs: seq<Codec>, caps: seq<Codec>, entries: seq<MappedCodec>): Option<seq<Codec>> {
    if codecs == [] then Some([])
    else if IsRtx(codecs[0]) then ConsumableCodecs(codecs[1..], caps, entries)
    else
      var k :- Lookup(caps, entries, codecs[0].payloadType);
      Prepend(Pair(codecs[0], caps, k), ConsumableCodecs(codecs[1..], caps, entries))
  }

  function Prepend(s: seq<Codec>, rest: Option<seq<Codec>>): Option<seq<Codec>> {
    if rest.None? then None else Some(s + rest.value)
  }

  lemma PrependNothing(rest: Option<seq<Codec>>)
    ensures Prepend([], rest) == rest
  {
    if rest.Some? {
      assert [] + rest.value == rest.value;
    }
  }

  lemma PrependTwice(a: seq<Codec>, b: seq<Codec>, rest: Option<seq<Codec>>)
    ensures Prepend(a, Prepend(b, rest)) == Prepend(a + b, rest)
  {
    if rest.Some? {
      assert a + (b + rest.value) == (a + b) + rest.value;
    }
  }

  method GetConsumableCodecs(codecs: seq<Codec>, caps: seq<Codec>, entries: seq<MappedCodec>)
    returns (r: Option<seq<Codec>>)
    ensures r == ConsumableCodecs(codecs, caps, entries)
  {
    var consumable: seq<Codec> := [];
    var i := 0;
    hide IsRtx;
    assert codecs[0..] == codecs;
    PrependNothing(ConsumableCodecs(codecs, caps, entries));
    while i < |codecs|
      invariant 0 <= i <= |codecs|
      invariant ConsumableCodecs(codecs, caps, entries) ==
        Prepend(consumable, ConsumableCodecs(codecs[i..], caps, entries))
    {
      assert codecs[i..][0] == codecs[i] && codecs[i..][1..] == codecs[i + 1..];
      if !IsRtx(codecs[i]) {
        var e := EntryIndex(entries, codecs[i].payloadType);
        if e.None? { return None; }
        var k := PtIndex(caps, entries[e.value].mappedPayloadType);
        if k.None? { return None; }
        var cap := caps[k.value];
        ghost var before := consumable;
        consumable := consumable +
        [Codec(cap.mimeType, cap.payloadType, cap.clockRate, cap.channels, codecs[i].parameters, cap.rtcpFeedback)];
        var j := RtxIndex(caps, cap.payloadType);
        if j.Some? {
          var rtx := caps[j.value];
          consumable := consumable +
          [Codec(rtx.mimeType, rtx.payloadType, rtx.clockRate, None, rtx.parameters, rtx.rtcpFeedback)];
        }
        assert consumable == before + Pair(codecs[i], caps, k.value);
        PrependTwice(before, Pair(codecs[i], caps, k.value), ConsumableCodecs(codecs[i + 1..], caps, entries));
      }
      i := i + 1;
    }
    assert codecs[i..] == [];
    assert consumable + [] == consumable;
    return Some(consumable);
  }

  /** Media codecs of a producer do not share payload types; the worker refuses producers in which they do. */
  ghost predicate DistinctMedia(codecs: seq<Codec>) {
    forall i, j :: 0 <= i < j < |codecs| && !IsRtx(codecs[i]) && !IsRtx(codecs[j]) ==>
      codecs[i].payloadType != codecs[j].payloadType
  }

  lemma EntryOf(h: H264, codecs: seq<Codec>, caps: seq<Codec>, entries: seq<MappedCodec>, i: nat) returns (j: nat)
    requires IsMapping(h, codecs, caps, entries) && i < |codecs| && !IsRtx(codecs[i])
    ensures j < |Positions(codecs, false, |codecs|)| <= |entries|
    ensures entries[j] == Entry(h, codecs, caps, i)
  {
    var media := Positions(codecs, false, |codecs|);
    assert i in media;
    j :| 0 <= j < |media| && media[j] == i;
    assert InsertionOrder(codecs)[j] == i;
  }

  /** After a successful mapping, both lookups of every media codec succeed. */
  lemma LookupSucceeds(h: H264, codecs: seq<Codec>, caps: seq<Codec>, entries: seq<MappedCodec>, i: nat)
    requires IsMapping(h, codecs, caps, entries) && i < |codecs| && !IsRtx(codecs[i])
    ensures Lookup(caps, entries, codecs[i].payloadType).Some?
  {
    var j := EntryOf(h, codecs, caps, entries, i);
    var e := EntryIndex(entries, codecs[i].payloadType).value;
    var x := InsertionOrder(codecs)[e];
    assert caps[Image(h, codecs, caps, x).value].payloadType == entries[e].mappedPayloadType;
  }

  /** With distinct payload types, the lookups find the very capability that was matched. */
  lemma LookupFindsImage(h: H264, codecs: seq<Codec>, caps: seq<Codec>, entries: seq<MappedCodec>, i: nat)
    requires WellFormed(caps) && DistinctMedia(codecs)
    requires IsMapping(h, codecs, caps, entries) && i < |codecs| && !IsRtx(codecs[i])
    ensures Lookup(caps, entries, codecs[i].payloadType) == Image(h, codecs, caps, i)
  {
    hide Image, IsRtx, RtxPaired;
    LookupSucceeds(h, codecs, caps, entries, i);
    var j := EntryOf(h, codecs, caps, entries, i);
    var e := EntryIndex(entries, codecs[i].payloadType).value;
    var media := Positions(codecs, false, |codecs|);
    assert e <= j;
    assert InsertionOrder(codecs)[e] == media[e];
    var k := PtIndex(caps, entries[e].mappedPayloadType).value;
    assert caps[k].payloadType == caps[Image(h, codecs, caps, i).value].payloadType;
  }

  lemma {:induction false} LookupsSucceed(codecs: seq<Codec>, caps: seq<Codec>, entries: seq<MappedCodec>)
    requires forall c :: c in codecs && !IsRtx(c) ==> Lookup(caps, entries, c.payloadType).Some?
    ensures ConsumableCodecs(codecs, caps, entries).Some?
  {
    if codecs != [] {
      assert codecs[0] in codecs;
      LookupsSucceed(codecs[1..], caps, entries);
    }
  }

  /** Building the consumable codecs never fails after a successful mapping, whatever the payload types. */
  lemma ConsumableIsTotal(h: H264, codecs: seq<Codec>, caps: seq<Codec>, entries: seq<MappedCodec>)
    requires IsMapping(h, codecs, caps, entries)
    ensures ConsumableCodecs(AdjustedCodecs(h, codecs, caps), caps, entries).Some?
  {
    hide Image, IsRtx, AdjustedCodec;
    AdjustedCodecsAt(h, codecs, caps);
    var adjusted := AdjustedCodecs(h, codecs, caps);
    forall c | c in adjusted && !IsRtx(c)
      ensures Lookup(caps, entries, c.payloadType).Some?
    {
      var i :| 0 <= i < |codecs| && adjusted[i] == c;
      AdjustingKeeps(h, codecs[i], caps);
      LookupSucceeds(h, codecs, caps, entries, i);
    }
    LookupsSucceed(adjusted, caps, entries);
  }
}
