/**
 The router capabilities generator: every configured media codec gets a payload
 type, and every video codec an RTX codec right after it.
 */
module RouterCapabilities {
  import opened Wrappers
  import opened Codecs

  /** A codec whose payload type may still have to be chosen. */
  datatype MediaCodec = MediaCodec(
    mimeType: string,
    preferredPayloadType: Option<int>,
    clockRate: int,
    channels: Option<int>,
    parameters: Parameters,
    rtcpFeedback: seq<Feedback>)

  datatype GenerationError = InvalidCodec | UnsupportedCodec | CannotAllocate | DuplicatedPayloadType

  /** The codecs generated so far and the dynamic payload types not handed out yet. */
  datatype Allocation = Allocation(codecs: seq<Codec>, free: seq<int>)

  /** lo, lo + 1, ..., hi - 1. */
  function Interval(lo: int, hi: int): (s: seq<int>)
    requires lo <= hi
    ensures |s| == hi - lo && forall i :: 0 <= i < |s| ==> s[i] == lo + i
    decreases hi - lo
  {
    if lo == hi then [] else Interval(lo, hi - 1) + [hi - 1]
  }

  const DYNAMIC_PAYLOAD_TYPES: seq<int> := Interval(100, 128) + Interval(96, 100)

  function MediaView(m: MediaCodec): CodecToMatch {
    CodecToMatch(m.mimeType, m.clockRate, m.channels, m.parameters)
  }

  /** The codec capability normalizer, on the fields that types leave open. */
  function Normalize(m: MediaCodec): Result<MediaCodec, GenerationError> {
    if !HasKind(m.mimeType, "audio/") && !HasKind(m.mimeType, "video/") then Failure(InvalidCodec)
    else if "apt" in m.parameters && m.parameters["apt"].Str? then Failure(InvalidCodec)
    else if HasKind(m.mimeType, "video/") then Success(m.(channels := None))
    else if m.channels.None? then Success(m.(channels := Some(1)))
    else Success(m)
  }

  /** The first supported codec a media codec loosely matches. */
  function SupportedIndex(m: MediaCodec, supported: seq<MediaCodec>): (r: Option<nat>)
    ensures r.Some? ==> r.value < |supported| && LooselyMatches(MediaView(m), MediaView(supported[r.value]))
    ensures r.Some? ==> forall j :: 0 <= j < r.value ==> !LooselyMatches(MediaView(m), MediaView(supported[j]))
    ensures r.None? ==> forall j :: 0 <= j < |supported| ==> !LooselyMatches(MediaView(m), MediaView(supported[j]))
  {
    if supported == [] then None
    else if LooselyMatches(MediaView(m), MediaView(supported[0])) then Some(0)
    else
      var rest := SupportedIndex(m, supported[1..]);
      if rest.None? then None else Some(rest.value + 1)
  }

  /** `indexOf` followed by `splice(idx, 1)`: drops the first occurrence, if any. */
  function RemoveFirst(s: seq<int>, x: int): seq<int> {
    if s == [] then []
    else if s[0] == x then s[1..]
    else [s[0]] + RemoveFirst(s[1..], x)
  }

  /** `retain(|pt| pt != x)`: drops every occurrence. */
  function Retain(s: seq<int>, x: int): seq<int> {
    if s == [] then []
    else if s[0] == x then Retain(s[1..], x)
    else [s[0]] + Retain(s[1..], x)
  }

  lemma {:induction false} RemoveFirstKeeps(s: seq<int>, x: int)
    requires Distinct(s)
    ensures Distinct(RemoveFirst(s, x)) && x !in RemoveFirst(s, x)
    ensures forall y :: y in RemoveFirst(s, x) ==> y in s
    ensures Retain(s, x) == RemoveFirst(s, x)
  {
    if s != [] {
      RemoveFirstKeeps(s[1..], x);
      if s[0] == x {
        RetainAbsent(s[1..], x);
        assert x !in s[1..];
      } else {
        assert s[0] !in s[1..];
      }
    }
  }

  lemma {:induction false} RetainAbsent(s: seq<int>, x: int)
    requires x !in s
    ensures Retain(s, x) == s
  {
    if s != [] {
      RetainAbsent(s[1..], x);
    }
  }

  function RtxFor(codec: Codec, pt: int): Codec {
    Codec(RTX_MIME, pt, codec.clockRate, None, map["apt" := Num(codec.payloadType)], [])
  }

  /** The payload type for a media codec matched to a supported one, and the free types left. */
  function ChoosePayloadType(m: MediaCodec, s: MediaCodec, free: seq<int>): Result<(int, seq<int>), GenerationError> {
    if m.preferredPayloadType.Some? then
      Success((m.preferredPayloadType.value, RemoveFirst(free, m.preferredPayloadType.value)))
    else if s.preferredPayloadType.Some? then Success((s.preferredPayloadType.value, free))
    else if free == [] then Failure(CannotAllocate)
    else Success((free[0], free[1..]))
  }

  function Merged(s: MediaCodec, pt: int, m: MediaCodec): Codec {
    Codec(s.mimeType, pt, s.clockRate, s.channels, s.parameters + m.parameters, s.rtcpFeedback)
  }

  /** Appends a codec, and its RTX codec when it is a video one. */
  function Append(a: Allocation, codec: Codec): Result<Allocation, GenerationError> {
    if PtIndex(a.codecs, codec.payloadType).Some? then Failure(DuplicatedPayloadType)
    else if !IsVideo(codec) then Success(a.(codecs := a.codecs + [codec]))
    else if a.free == [] then Failure(CannotAllocate)
    else Success(Allocation(a.codecs + [codec, RtxFor(codec, a.free[0])], a.free[1..]))
  }

  /** One media codec. */
  function Add(supported: seq<MediaCodec>, a: Allocation, media: MediaCodec): Result<Allocation, GenerationError> {
    var m :- Normalize(media);
    var k := SupportedIndex(m, supported);
    if k.None? then Failure(UnsupportedCodec)
    else
      var chosen :- ChoosePayloadType(m, supported[k.value], a.free);
      Append(Allocation(a.codecs, chosen.1), Merged(supported[k.value], chosen.0, m))
  }

  /** All of them, in order. */
  function AddAll(supported: seq<MediaCodec>, a: Allocation, media: seq<MediaCodec>)
    : Result<Allocation, GenerationError>
    decreases |media|
  {
    if media == [] then Success(a)
    else
      var next :- Add(supported, a, media[0]);
      AddAll(supported, next, media[1..])
  }

  const START: Allocation := Allocation([], DYNAMIC_PAYLOAD_TYPES)

  function Generated(supported: seq<MediaCodec>, media: seq<MediaCodec>): Result<seq<Codec>, GenerationError> {
    var a :- AddAll(supported, START, media);
    Success(a.codecs)
  }

  /** The Node loop: `shift` and `splice` on the list of dynamic payload types. */
  method GenerateNode(supported: seq<MediaCodec>, media: seq<MediaCodec>)
    returns (r: Result<seq<Codec>, GenerationError>)
    ensures r == Generated(supported, media)
  {
    hide Normalize, IsVideo, LooselyMatches;
    var dynamic := DYNAMIC_PAYLOAD_TYPES;
    var codecs: seq<Codec> := [];
    var i := 0;
    while i < |media|
      invariant 0 <= i <= |media|
      invariant AddAll(supported, START, media) == AddAll(supported, Allocation(codecs, dynamic), media[i..])
    {
      assert media[i..][0] == media[i] && media[i..][1..] == media[i + 1..];
      var normalized := Normalize(media[i]);
      if normalized.Failure? { return Failure(normalized.error); }
      var m := normalized.value;
      var k := SupportedIndex(m, supported);
      if k.None? { return Failure(UnsupportedCodec); }
      var s := supported[k.value];
      var pt: int;
      if m.preferredPayloadType.Some? {
        pt := m.preferredPayloadType.value;
        dynamic := RemoveFirst(dynamic, pt);
      } else if s.preferredPayloadType.Some? {
        pt := s.preferredPayloadType.value;
      } else {
        if dynamic == [] { return Failure(CannotAllocate); }
        pt, dynamic := dynamic[0], dynamic[1..];
      }
      if PtIndex(codecs, pt).Some? { return Failure(DuplicatedPayloadType); }
      var codec := Merged(s, pt, m);
      ghost var before := codecs;
      codecs := codecs + [codec];
      if IsVideo(codec) {
        if dynamic == [] { return Failure(CannotAllocate); }
        codecs := codecs + [RtxFor(codec, dynamic[0])];
        assert codecs == before + [codec, RtxFor(codec, dynamic[0])];
        dynamic := dynamic[1..];
      }
      i := i + 1;
    }
    return Success(codecs);
  }

  /** The Rust loop: `retain` and `remove(0)`, the two codecs of a video pair pushed at the end. */
  method GenerateRust(supported: seq<MediaCodec>, media: seq<MediaCodec>)
    returns (r: Result<seq<Codec>, GenerationError>)
    ensures r == Generated(supported, media)
  {
    hide Normalize, IsVideo, LooselyMatches;
    var dynamic := DYNAMIC_PAYLOAD_TYPES;
    var codecs: seq<Codec> := [];
    var i := 0;
    while i < |media|
      invariant 0 <= i <= |media|
      invariant Distinct(dynamic)
      invariant AddAll(supported, START, media) == AddAll(supported, Allocation(codecs, dynamic), media[i..])
    {
      assert media[i..][0] == media[i] && media[i..][1..] == media[i + 1..];
      var normalized := Normalize(media[i]);
      if normalized.Failure? { return Failure(normalized.error); }
      var m := normalized.value;
      var k := SupportedIndex(m, supported);
      if k.None? { return Failure(UnsupportedCodec); }
      var s := supported[k.value];
      var pt: int;
      if m.preferredPayloadType.Some? {
        pt := m.preferredPayloadType.value;
        RemoveFirstKeeps(dynamic, pt);
        dynamic := Retain(dynamic, pt);
      } else if s.preferredPayloadType.Some? {
        pt := s.preferredPayloadType.value;
      } else {
        if dynamic == [] { return Failure(CannotAllocate); }
        pt, dynamic := dynamic[0], dynamic[1..];
      }
      if PtIndex(codecs, pt).Some? { return Failure(DuplicatedPayloadType); }
      var codec := Merged(s, pt, m);
      if IsVideo(codec) {
        if dynamic == [] { return Failure(CannotAllocate); }
        codecs, dynamic := codecs + [codec, RtxFor(codec, dynamic[0])], dynamic[1..];
      } else {
        codecs := codecs + [codec];
      }
      i := i + 1;
    }
    return Success(codecs);
  }

  // ----- What every step keeps

  predicate IsDynamic(pt: int) { 96 <= pt <= 127 }

  /** The codecs this generator may start from: none is RTX and a static payload type is never a dynamic one. */
  ghost predicate SupportedIsSound(supported: seq<MediaCodec>) {
    forall s :: s in supported ==>
      && !IsRtxMime(s.mimeType)
      && (s.preferredPayloadType.Some? ==> !IsDynamic(s.preferredPayloadType.value))
  }

  ghost predicate DistinctPayloadTypes(codecs: seq<Codec>) {
    forall i, j :: 0 <= i < j < |codecs| ==> codecs[i].payloadType != codecs[j].payloadType
  }

  /** An RTX codec protects the video codec right before it, under a dynamic payload type of its own. */
  ghost predicate RtxFollows(codecs: seq<Codec>, i: nat)
    requires i < |codecs|
  {
    && 0 < i && !IsRtx(codecs[i - 1]) && IsVideo(codecs[i - 1])
    && codecs[i].mimeType == RTX_MIME
    && IsDynamic(codecs[i].payloadType)
    && codecs[i].clockRate == codecs[i - 1].clockRate
    && codecs[i].channels.None?
    && codecs[i].parameters == map["apt" := Num(codecs[i - 1].payloadType)]
    && codecs[i].rtcpFeedback == []
  }

  ghost predicate PairedAt(codecs: seq<Codec>, i: nat)
    requires i < |codecs|
  {
    if IsRtx(codecs[i]) then RtxFollows(codecs, i)
    else IsVideo(codecs[i]) ==> i + 1 < |codecs| && IsRtx(codecs[i + 1])
  }

  /** RTX codecs are exactly the ones right after a video codec, and protect it. */
  ghost predicate RtxPaired(codecs: seq<Codec>) {
    forall i :: 0 <= i < |codecs| ==> PairedAt(codecs, i)
  }

  /** What every generated list of router codecs satisfies. */
  ghost predicate WellFormed(codecs: seq<Codec>) {
    DistinctPayloadTypes(codecs) && RtxPaired(codecs)
  }

  ghost predicate FreeIsUnused(a: Allocation) {
    forall i, j :: 0 <= i < |a.codecs| && 0 <= j < |a.free| ==> a.codecs[i].payloadType != a.free[j]
  }

  ghost predicate FreeIsDynamic(free: seq<int>) {
    Distinct(free) && forall j :: 0 <= j < |free| ==> IsDynamic(free[j])
  }

  ghost predicate Sound(a: Allocation) {
    WellFormed(a.codecs) && FreeIsUnused(a) && FreeIsDynamic(a.free)
  }

  lemma StartIsSound()
    ensures Sound(START)
  {
  }

  lemma AppendKeepsSound(a: Allocation, codec: Codec)
    requires Sound(a) && !IsRtx(codec)
    requires forall j :: 0 <= j < |a.free| ==> a.free[j] != codec.payloadType
    ensures Append(a, codec).Success? ==> Sound(Append(a, codec).value)
  {
    RtxMimeIsRtxVideo();
    var r := Append(a, codec);
    if r.Success? {
      var b := r.value;
      assert forall i :: 0 <= i < |a.codecs| ==> b.codecs[i] == a.codecs[i];
      assert b.codecs[|a.codecs|] == codec;
      forall i | 0 <= i < |b.codecs|
        ensures PairedAt(b.codecs, i)
      {
        if i < |a.codecs| {
          assert PairedAt(a.codecs, i);
        }
      }
    }
  }

  /** One step of the generator keeps the invariant. */
  lemma AddKeepsSound(supported: seq<MediaCodec>, a: Allocation, media: MediaCodec)
    requires SupportedIsSound(supported) && Sound(a)
    ensures Add(supported, a, media).Success? ==> Sound(Add(supported, a, media).value)
  {
    var r := Add(supported, a, media);
    if r.Success? {
      var m := Normalize(media).value;
      var s := supported[SupportedIndex(m, supported).value];
      assert s in supported;
      var chosen := ChoosePayloadType(m, s, a.free).value;
      if m.preferredPayloadType.Some? {
        RemoveFirstKeeps(a.free, chosen.0);
        assert forall j :: 0 <= j < |chosen.1| ==> chosen.1[j] in chosen.1;
      }
      AppendKeepsSound(Allocation(a.codecs, chosen.1), Merged(s, chosen.0, m));
    }
  }

  lemma {:induction false} AddAllKeepsSound(supported: seq<MediaCodec>, a: Allocation, media: seq<MediaCodec>)
    requires SupportedIsSound(supported) && Sound(a)
    ensures AddAll(supported, a, media).Success? ==> Sound(AddAll(supported, a, media).value)
    decreases |media|
  {
    if media != [] {
      AddKeepsSound(supported, a, media[0]);
      var next := Add(supported, a, media[0]);
      if next.Success? {
        AddAllKeepsSound(supported, next.value, media[1..]);
      }
    }
  }

  /**
   Every generated list has pairwise distinct payload types, and its RTX codecs are
   exactly the codecs right after each video codec, protecting it.
   */
  lemma GeneratedIsWellFormed(supported: seq<MediaCodec>, media: seq<MediaCodec>)
    requires SupportedIsSound(supported)
    ensures Generated(supported, media).Success? ==> WellFormed(Generated(supported, media).value)
  {
    StartIsSound();
    AddAllKeepsSound(supported, START, media);
  }

  // ----- The dynamic payload types left

  ghost predicate Uses(codecs: seq<Codec>, pt: int) {
    exists i :: 0 <= i < |codecs| && codecs[i].payloadType == pt
  }

  /** Those of `pool`, in order, that no codec has. */
  ghost function Unused(codecs: seq<Codec>, pool: seq<int>): seq<int> {
    if pool == [] then []
    else if Uses(codecs, pool[0]) then Unused(codecs, pool[1..])
    else [pool[0]] + Unused(codecs, pool[1..])
  }

  /** The free types are exactly the dynamic ones that no codec has. */
  ghost predicate Conserved(a: Allocation) {
    a.free == Unused(a.codecs, DYNAMIC_PAYLOAD_TYPES)
  }

  lemma UsesOneMore(codecs: seq<Codec>, c: Codec, pt: int)
    ensures Uses(codecs + [c], pt) <==> Uses(codecs, pt) || c.payloadType == pt
  {
    var all := codecs + [c];
    assert all[|codecs|] == c;
    if Uses(codecs, pt) {
      var i :| 0 <= i < |codecs| && codecs[i].payloadType == pt;
      assert all[i].payloadType == pt;
    }
  }

  lemma {:induction false} RemoveAbsent(s: seq<int>, x: int)
    requires x !in s
    ensures RemoveFirst(s, x) == s
  {
    if s != [] {
      RemoveAbsent(s[1..], x);
    }
  }

  lemma {:induction false} UnusedIn(codecs: seq<Codec>, pool: seq<int>, pt: int)
    ensures pt in Unused(codecs, pool) <==> pt in pool && !Uses(codecs, pt)
  {
    hide Uses;
    if pool != [] {
      UnusedIn(codecs, pool[1..], pt);
    }
  }

  /** One more codec takes its payload type out of the unused ones, if it was there. */
  lemma {:induction false} UnusedOneMore(codecs: seq<Codec>, c: Codec, pool: seq<int>)
    requires Distinct(pool)
    ensures Unused(codecs + [c], pool) == RemoveFirst(Unused(codecs, pool), c.payloadType)
  {
    hide Uses;
    if pool != [] {
      UsesOneMore(codecs, c, pool[0]);
      UnusedOneMore(codecs, c, pool[1..]);
      if pool[0] == c.payloadType {
        assert c.payloadType !in pool[1..];
        UnusedIn(codecs, pool[1..], c.payloadType);
        RemoveAbsent(Unused(codecs, pool[1..]), c.payloadType);
      }
    }
  }

  lemma PoolIsDynamic()
    ensures Distinct(DYNAMIC_PAYLOAD_TYPES) && |DYNAMIC_PAYLOAD_TYPES| == 32
    ensures forall pt :: pt in DYNAMIC_PAYLOAD_TYPES <==> IsDynamic(pt)
    ensures forall i :: 0 <= i < 32 ==> DYNAMIC_PAYLOAD_TYPES[i] == if i < 28 then 100 + i else 68 + i
  {
    forall pt | IsDynamic(pt)
      ensures pt in DYNAMIC_PAYLOAD_TYPES
    {
      assert DYNAMIC_PAYLOAD_TYPES[if pt < 100 then pt - 68 else pt - 100] == pt;
    }
  }

  lemma AppendConserves(a: Allocation, codec: Codec, free: seq<int>)
    requires Conserved(a) && free == RemoveFirst(a.free, codec.payloadType)
    ensures var r := Append(Allocation(a.codecs, free), codec);
            r.Success? ==> Conserved(r.value)
  {
    PoolIsDynamic();
    hide DYNAMIC_PAYLOAD_TYPES, IsVideo, Unused, Uses;
    UnusedOneMore(a.codecs, codec, DYNAMIC_PAYLOAD_TYPES);
    if free != [] {
      var rtx := RtxFor(codec, free[0]);
      UnusedOneMore(a.codecs + [codec], rtx, DYNAMIC_PAYLOAD_TYPES);
      assert a.codecs + [codec] + [rtx] == a.codecs + [codec, rtx];
    }
  }

  lemma ChoiceConserves(a: Allocation, m: MediaCodec, s: MediaCodec)
    requires Conserved(a) && ChoosePayloadType(m, s, a.free).Success?
    requires s.preferredPayloadType.Some? ==> !IsDynamic(s.preferredPayloadType.value)
    ensures var chosen := ChoosePayloadType(m, s, a.free).value;
            chosen.1 == RemoveFirst(a.free, chosen.0)
  {
    PoolIsDynamic();
    hide DYNAMIC_PAYLOAD_TYPES, Unused;
    if m.preferredPayloadType.None? && s.preferredPayloadType.Some? {
      UnusedIn(a.codecs, DYNAMIC_PAYLOAD_TYPES, s.preferredPayloadType.value);
      RemoveAbsent(a.free, s.preferredPayloadType.value);
    }
  }

  /** A step of the generator keeps the free types exactly the unused ones. */
  lemma AddConserves(supported: seq<MediaCodec>, a: Allocation, media: MediaCodec)
    requires SupportedIsSound(supported) && Conserved(a)
    ensures Add(supported, a, media).Success? ==> Conserved(Add(supported, a, media).value)
  {
    hide Conserved, Normalize, LooselyMatches, Append;
    if Add(supported, a, media).Success? {
      var m := Normalize(media).value;
      var s := supported[SupportedIndex(m, supported).value];
      assert s in supported;
      ChoiceConserves(a, m, s);
      var chosen := ChoosePayloadType(m, s, a.free).value;
      AppendConserves(a, Merged(s, chosen.0, m), chosen.1);
    }
  }

  lemma StartIsConserved()
    ensures Conserved(START)
  {
    AllUnused(DYNAMIC_PAYLOAD_TYPES);
  }

  lemma {:induction false} AllUnused(pool: seq<int>)
    ensures Unused([], pool) == pool
  {
    if pool != [] {
      AllUnused(pool[1..]);
    }
  }

  // ----- What is generated for each media codec

  function NonRtx(codecs: seq<Codec>): seq<Codec> {
    if codecs == [] then []
    else if IsRtx(codecs[|codecs| - 1]) then NonRtx(codecs[..|codecs| - 1])
    else NonRtx(codecs[..|codecs| - 1]) + [codecs[|codecs| - 1]]
  }

  /** The most preferred dynamic payload type that no codec has. */
  ghost predicate IsFirstUnused(codecs: seq<Codec>, pt: int) {
    exists i :: 0 <= i < |DYNAMIC_PAYLOAD_TYPES| && DYNAMIC_PAYLOAD_TYPES[i] == pt && !Uses(codecs, pt)
                && forall j :: 0 <= j < i ==> Uses(codecs, DYNAMIC_PAYLOAD_TYPES[j])
  }

  /** The channels that count: none for video, one for audio unless told otherwise. */
  function CountedChannels(media: MediaCodec): Option<int> {
    if HasKind(media.mimeType, "video/") then None
    else if media.channels.Some? then media.channels
    else Some(1)
  }

  /** What a media codec is looked up by. */
  function Wanted(media: MediaCodec): CodecToMatch {
    CodecToMatch(media.mimeType, media.clockRate, CountedChannels(media), media.parameters)
  }

  /** `k` is the first supported codec of the same format as a media codec. */
  ghost predicate IsSupportedAs(supported: seq<MediaCodec>, media: MediaCodec, k: nat) {
    && k < |supported|
    && SameFormat(Wanted(media), MediaView(supported[k]))
    && forall j :: 0 <= j < k ==> !SameFormat(Wanted(media), MediaView(supported[j]))
  }

  /**
   `c` is what the router offers for a configured media codec, after the codecs `before` it. The
   payload type is the configured one, or else the static one of the supported codec, or else
   the first dynamic one not in use; parameters of the supported codec are overridden by the
   configured ones; everything else is the supported codec's.
   */
  ghost predicate Represents(media: MediaCodec, s: MediaCodec, before: seq<Codec>, c: Codec) {
    && (if media.preferredPayloadType.Some? then c.payloadType == media.preferredPayloadType.value
        else if s.preferredPayloadType.Some? then c.payloadType == s.preferredPayloadType.value
        else IsFirstUnused(before, c.payloadType))
    && !Uses(before, c.payloadType)
    && c.mimeType == s.mimeType && c.clockRate == s.clockRate && c.channels == s.channels
    && c.rtcpFeedback == s.rtcpFeedback
    && (forall key :: Get(c.parameters, key) == Get(media.parameters, key) || key !in media.parameters)
    && (forall key :: Get(c.parameters, key) == Get(s.parameters, key) || key in media.parameters)
  }

  lemma {:induction false} FirstUnusedIn(codecs: seq<Codec>, pool: seq<int>)
    requires Unused(codecs, pool) != []
    ensures exists i :: 0 <= i < |pool| && pool[i] == Unused(codecs, pool)[0] && !Uses(codecs, pool[i])
                        && forall j :: 0 <= j < i ==> Uses(codecs, pool[j])
  {
    hide Uses;
    if !Uses(codecs, pool[0]) {
      assert pool[0] == Unused(codecs, pool)[0];
    } else {
      FirstUnusedIn(codecs, pool[1..]);
      var i :| 0 <= i < |pool| - 1 && pool[1..][i] == Unused(codecs, pool)[0] && !Uses(codecs, pool[1..][i])
        && forall j :: 0 <= j < i ==> Uses(codecs, pool[1..][j]);
      assert forall j :: 0 < j < i + 1 ==> pool[j] == pool[1..][j - 1];
      assert pool[i + 1] == Unused(codecs, pool)[0];
    }
  }

  lemma FreeIsFirstUnused(a: Allocation)
    requires Conserved(a) && a.free != []
    ensures IsFirstUnused(a.codecs, a.free[0])
  {
    hide DYNAMIC_PAYLOAD_TYPES, Uses, Unused;
    FirstUnusedIn(a.codecs, DYNAMIC_PAYLOAD_TYPES);
  }

  lemma AppendAddsOne(a: Allocation, codec: Codec)
    requires !IsRtx(codec) && Append(a, codec).Success?
    ensures NonRtx(Append(a, codec).value.codecs) == NonRtx(a.codecs) + [codec]
  {
    RtxMimeIsRtxVideo();
    var b := Append(a, codec).value.codecs;
    var one := a.codecs + [codec];
    hide IsRtx;
    assert one[..|one| - 1] == a.codecs;
    if IsVideo(codec) {
      assert b[..|b| - 1] == one;
      RtxForIsRtx(codec, a.free[0]);
    }
  }

  lemma RtxForIsRtx(codec: Codec, pt: int)
    ensures IsRtx(RtxFor(codec, pt))
  {
    RtxMimeIsRtxVideo();
  }

  lemma NotRtx(codec: Codec, s: MediaCodec)
    requires codec.mimeType == s.mimeType && !IsRtxMime(s.mimeType)
    ensures !IsRtx(codec)
  {
  }

  lemma NormalizedIs(media: MediaCodec)
    ensures var n := Normalize(media);
            && (n.Success? <==>
              && (HasKind(media.mimeType, "audio/") || HasKind(media.mimeType, "video/"))
              && !("apt" in media.parameters && media.parameters["apt"].Str?))
            && (n.Success? ==> n.value == media.(channels := CountedChannels(media)))
            && (n.Failure? ==> n.error == InvalidCodec)
  {
  }

  lemma ChosenIsRepresented(a: Allocation, m: MediaCodec, s: MediaCodec)
    requires Conserved(a) && ChoosePayloadType(m, s, a.free).Success?
    ensures var pt := ChoosePayloadType(m, s, a.free).value.0;
            if m.preferredPayloadType.Some? then pt == m.preferredPayloadType.value
            else if s.preferredPayloadType.Some? then pt == s.preferredPayloadType.value
            else IsFirstUnused(a.codecs, pt)
  {
    hide Conserved, IsFirstUnused;
    if a.free != [] {
      FreeIsFirstUnused(a);
    }
  }

  lemma MergedRepresents(a: Allocation, media: MediaCodec, s: MediaCodec)
    requires Conserved(a) && ChoosePayloadType(media, s, a.free).Success?
    requires PtIndex(a.codecs, ChoosePayloadType(media, s, a.free).value.0).None?
    ensures Represents(media, s, a.codecs, Merged(s, ChoosePayloadType(media, s, a.free).value.0, media))
  {
    hide Conserved, IsFirstUnused, Uses;
    ChosenIsRepresented(a, media, s);
    NotUsed(a.codecs, ChoosePayloadType(media, s, a.free).value.0);
  }

  lemma ChannelsDoNotMatter(a: Allocation, media: MediaCodec, s: MediaCodec, channels: Option<int>)
    ensures var m := media.(channels := channels);
            && ChoosePayloadType(m, s, a.free) == ChoosePayloadType(media, s, a.free)
            && forall pt :: Merged(s, pt, m) == Merged(s, pt, media)
  {
  }

  /** What one media codec adds: the codec that represents it and, for video, an RTX codec. */
  lemma AddRepresents(supported: seq<MediaCodec>, a: Allocation, media: MediaCodec) returns (k: nat, codec: Codec)
    requires SupportedIsSound(supported) && Conserved(a) && Add(supported, a, media).Success?
    ensures var b := Add(supported, a, media).value.codecs;
            && IsSupportedAs(supported, media, k) && Represents(media, supported[k], a.codecs, codec) && !IsRtx(codec)
            && NonRtx(b) == NonRtx(a.codecs) + [codec]
            && (!IsVideo(codec) ==> b == a.codecs + [codec])
            && (IsVideo(codec) ==> |b| == |a.codecs| + 2 && b[..|a.codecs| + 1] == a.codecs + [codec]
                                   && IsFirstUnused(a.codecs + [codec], b[|a.codecs| + 1].payloadType))
  {
    NormalizedIs(media);
    var m := Normalize(media).value;
    hide Normalize, IsRtx, IsVideo, Conserved, IsFirstUnused, LooselyMatches, NonRtx, IsSupportedAs, Represents;
    hide ChoosePayloadType, Merged;
    k := SupportedIndex(m, supported).value;
    SupportedIsUnique(supported, media, k);
    var s := supported[k];
    assert s in supported;
    ChannelsDoNotMatter(a, media, s, m.channels);
    var chosen := ChoosePayloadType(media, s, a.free).value;
    codec := Merged(s, chosen.0, media);
    MergedTypes(s, chosen.0, media);
    MergedRepresents(a, media, s);
    NotRtx(codec, s);
    AppendAddsOne(Allocation(a.codecs, chosen.1), codec);
    if IsVideo(codec) {
      ChoiceConserves(a, media, s);
      PairIsFirstUnused(a, codec, chosen.1);
    }
  }

  lemma MergedTypes(s: MediaCodec, pt: int, m: MediaCodec)
    ensures Merged(s, pt, m).payloadType == pt && Merged(s, pt, m).mimeType == s.mimeType
  {
  }

  /** The RTX codec takes the first type that is unused once its video codec is there. */
  lemma PairIsFirstUnused(a: Allocation, codec: Codec, free: seq<int>)
    requires Conserved(a) && free == RemoveFirst(a.free, codec.payloadType) && free != []
    ensures IsFirstUnused(a.codecs + [codec], free[0])
  {
    PoolIsDynamic();
    hide DYNAMIC_PAYLOAD_TYPES, Unused, Uses;
    UnusedOneMore(a.codecs, codec, DYNAMIC_PAYLOAD_TYPES);
    FreeIsFirstUnused(Allocation(a.codecs + [codec], free));
  }

  /**
   Position `n` of a generated list holds what is generated for a media codec: what stands there,
   after what stands before it, and the RTX codec behind it.
   */
  ghost predicate RepresentedAt(supported: seq<MediaCodec>, media: MediaCodec, out: seq<Codec>, n: nat) {
    && n < |out| && !IsRtx(out[n])
    && (exists k: nat :: IsSupportedAs(supported, media, k) && Represents(media, supported[k], out[..n], out[n]))
    && (IsVideo(out[n]) ==> n + 1 < |out| && IsFirstUnused(out[..n + 1], out[n + 1].payloadType))
  }

  lemma {:induction false} AllRepresented(supported: seq<MediaCodec>, a: Allocation, media: seq<MediaCodec>, i: nat)
    returns (n: nat)
    requires SupportedIsSound(supported) && Conserved(a) && AddAll(supported, a, media).Success?
    ensures var out := AddAll(supported, a, media).value.codecs;
            && a.codecs <= out && |NonRtx(out)| == |NonRtx(a.codecs)| + |media|
            && (i < |media| ==>
              && |a.codecs| <= n && RepresentedAt(supported, media[i], out, n)
              && |NonRtx(out[..n])| == |NonRtx(a.codecs)| + i)
    decreases |media|
  {
    hide SupportedIsSound, Add, NonRtx, Represents, Conserved, IsRtx, IsVideo, IsFirstUnused, IsSupportedAs;
    n := 0;
    if media != [] {
      var k, codec := AddRepresents(supported, a, media[0]);
      AddConserves(supported, a, media[0]);
      var next := Add(supported, a, media[0]).value;
      n := AllRepresented(supported, next, media[1..], if i == 0 then 0 else i - 1);
      var out := AddAll(supported, a, media).value.codecs;
      var m := |a.codecs|;
      assert a.codecs + [codec] <= next.codecs <= out;
      if i == 0 {
        n := m;
        assert out[..n] == a.codecs && out[n] == codec && out[..n + 1] == a.codecs + [codec];
      }
    }
  }

  /**
   RTX codecs aside, the generated list represents the configured media codecs one by one, in
   order: the i-th of them at the position `n` that has i such codecs before it.
   */
  lemma GeneratedRepresents(supported: seq<MediaCodec>, media: seq<MediaCodec>, i: nat) returns (n: nat)
    requires SupportedIsSound(supported) && Generated(supported, media).Success? && i < |media|
    ensures var out := Generated(supported, media).value;
            && |NonRtx(out)| == |media|
            && RepresentedAt(supported, media[i], out, n) && |NonRtx(out[..n])| == i
  {
    hide SupportedIsSound, RepresentedAt;
    StartIsConserved();
    n := AllRepresented(supported, START, media, i);
  }

  // ----- How many dynamic types are taken

  /** One dynamic type for a codec that has no other or is configured with one, and one for the RTX codec of a video. */
  function TypesTaken(supported: seq<MediaCodec>, media: MediaCodec): nat {
    var k := SupportedIndex(media.(channels := CountedChannels(media)), supported);
    var own :=
      if media.preferredPayloadType.Some? then IsDynamic(media.preferredPayloadType.value)
      else k.Some? && supported[k.value].preferredPayloadType.None?;
    (if own then 1 else 0) + if HasKind(media.mimeType, "video/") then 1 else 0
  }

  function AllTypesTaken(supported: seq<MediaCodec>, media: seq<MediaCodec>): nat {
    if media == [] then 0 else TypesTaken(supported, media[0]) + AllTypesTaken(supported, media[1..])
  }

  lemma {:induction false} RemoveOne(s: seq<int>, x: int)
    ensures |RemoveFirst(s, x)| == |s| - (if x in s then 1 else 0)
  {
    if s != [] && s[0] != x {
      RemoveOne(s[1..], x);
    }
  }

  lemma NotUsed(codecs: seq<Codec>, pt: int)
    ensures PtIndex(codecs, pt).None? <==> !Uses(codecs, pt)
  {
  }

  lemma AddTakes(supported: seq<MediaCodec>, a: Allocation, media: MediaCodec)
    requires SupportedIsSound(supported) && Conserved(a) && Add(supported, a, media).Success?
    ensures |Add(supported, a, media).value.free| + TypesTaken(supported, media) == |a.free|
  {
    NormalizedIs(media);
    PoolIsDynamic();
    var m := Normalize(media).value;
    hide Normalize, HasKind, DYNAMIC_PAYLOAD_TYPES, Unused, Uses, RemoveFirst;
    var s := supported[SupportedIndex(m, supported).value];
    assert s in supported;
    var chosen := ChoosePayloadType(m, s, a.free).value;
    ChoiceConserves(a, m, s);
    RemoveOne(a.free, chosen.0);
    UnusedIn(a.codecs, DYNAMIC_PAYLOAD_TYPES, chosen.0);
    NotUsed(a.codecs, chosen.0);
    KindFollowsMime(m.mimeType, s.mimeType);
  }

  lemma {:induction false} AllTake(supported: seq<MediaCodec>, a: Allocation, media: seq<MediaCodec>)
    requires SupportedIsSound(supported) && Conserved(a) && AddAll(supported, a, media).Success?
    ensures Conserved(AddAll(supported, a, media).value)
    ensures |AddAll(supported, a, media).value.free| + AllTypesTaken(supported, media) == |a.free|
    decreases |media|
  {
    hide SupportedIsSound, Conserved, Add, TypesTaken;
    if media != [] {
      AddTakes(supported, a, media[0]);
      AddConserves(supported, a, media[0]);
      AllTake(supported, Add(supported, a, media[0]).value, media[1..]);
    }
  }

  /** Of the 32 dynamic types, a generated list uses exactly as many as its media codecs take. */
  lemma GeneratedTakes(supported: seq<MediaCodec>, media: seq<MediaCodec>)
    requires SupportedIsSound(supported) && Generated(supported, media).Success?
    ensures |Unused(Generated(supported, media).value, DYNAMIC_PAYLOAD_TYPES)| + AllTypesTaken(supported, media) == 32
  {
    hide SupportedIsSound, Unused, DYNAMIC_PAYLOAD_TYPES, AddAll;
    StartIsConserved();
    StartIsFresh();
    AllTake(supported, START, media);
  }

  // ----- When a media codec is refused

  /** A mime type of one of the kinds, and no text for an apt. */
  predicate IsValid(media: MediaCodec) {
    && (HasKind(media.mimeType, "audio/") || HasKind(media.mimeType, "video/"))
    && ("apt" in media.parameters ==> media.parameters["apt"].Num?)
  }

  /** The payload type that a media codec is configured with or that its supported codec has. */
  function FixedType(media: MediaCodec, s: MediaCodec): Option<int> {
    if media.preferredPayloadType.Some? then media.preferredPayloadType else s.preferredPayloadType
  }

  lemma SupportedIsUnique(supported: seq<MediaCodec>, media: MediaCodec, k: nat)
    ensures var found := SupportedIndex(media.(channels := CountedChannels(media)), supported);
            IsSupportedAs(supported, media, k) <==> found == Some(k)
  {
    hide LooselyMatches, SameFormat;
    SupportedMeans(supported, media);
  }

  lemma SupportedMeans(supported: seq<MediaCodec>, media: MediaCodec)
    ensures forall j :: 0 <= j < |supported| ==>
      (LooselyMatches(Wanted(media), MediaView(supported[j])) <==> SameFormat(Wanted(media), MediaView(supported[j])))
  {
    forall j | 0 <= j < |supported|
      ensures LooselyMatches(Wanted(media), MediaView(supported[j])) <==>
        SameFormat(Wanted(media), MediaView(supported[j]))
    {
      MatchingMeans(H264((_, _) => false, (_, _) => None), Wanted(media), MediaView(supported[j]));
    }
  }

  lemma ChoiceIs(a: Allocation, m: MediaCodec, s: MediaCodec)
    requires Conserved(a)
    ensures var r := ChoosePayloadType(m, s, a.free);
            && (r.Failure? <==> FixedType(m, s).None? && a.free == [])
            && (r.Failure? ==> r.error == CannotAllocate)
            && (r.Success? && FixedType(m, s).Some? ==> r.value.0 == FixedType(m, s).value)
            && (r.Success? && FixedType(m, s).None? ==> r.value.0 == a.free[0])
  {
  }

  /**
   A media codec is added iff it is valid and supported, its configured or static payload type,
   if it has one, is not in use, and as many dynamic types are unused as it takes. Otherwise
   the error is the first of these that fails.
   */
  lemma AddSucceedsIff(supported: seq<MediaCodec>, a: Allocation, media: MediaCodec, k: nat)
    requires SupportedIsSound(supported) && Conserved(a)
    ensures var r := Add(supported, a, media);
            && (r == Failure(InvalidCodec) <==> !IsValid(media))
            && (r == Failure(UnsupportedCodec) <==>
              IsValid(media) && forall s :: s in supported ==> !SameFormat(Wanted(media), MediaView(s)))
            && (IsValid(media) && IsSupportedAs(supported, media, k) ==>
              && var fixed := FixedType(media, supported[k]);
              && var inUse := fixed.Some? && Uses(a.codecs, fixed.value);
              && (r == Failure(DuplicatedPayloadType) <==> inUse)
              && (r.Success? <==> !inUse && TypesTaken(supported, media) <= |Unused(a.codecs, DYNAMIC_PAYLOAD_TYPES)|)
              && (r.Failure? && !inUse ==> r == Failure(CannotAllocate)))
  {
    hide IsValid, SameFormat, Add, Uses, TypesTaken, Unused, DYNAMIC_PAYLOAD_TYPES, Conserved;
    AddLooksUp(supported, a, media);
    SupportedIsUnique(supported, media, k);
    if IsValid(media) && IsSupportedAs(supported, media, k) {
      AppendedIff(supported, a, media, k);
    }
  }

  lemma AddLooksUp(supported: seq<MediaCodec>, a: Allocation, media: MediaCodec)
    ensures var r := Add(supported, a, media);
            && (r == Failure(InvalidCodec) <==> !IsValid(media))
            && (r == Failure(UnsupportedCodec) <==>
              IsValid(media) && forall s :: s in supported ==> !SameFormat(Wanted(media), MediaView(s)))
  {
    NormalizedIs(media);
    SupportedMeans(supported, media);
    hide Normalize, HasKind, LooselyMatches, SameFormat, Merged, IsVideo, RemoveFirst;
    var found := SupportedIndex(media.(channels := CountedChannels(media)), supported);
    if found.Some? {
      assert supported[found.value] in supported;
    }
  }

  lemma AppendedIff(supported: seq<MediaCodec>, a: Allocation, media: MediaCodec, k: nat)
    requires SupportedIsSound(supported) && Conserved(a) && IsValid(media)
    requires SupportedIndex(media.(channels := CountedChannels(media)), supported) == Some(k)
    ensures var r := Add(supported, a, media);
            var fixed := FixedType(media, supported[k]);
            var inUse := fixed.Some? && Uses(a.codecs, fixed.value);
            && (r == Failure(DuplicatedPayloadType) <==> inUse)
            && (r.Success? <==> !inUse && TypesTaken(supported, media) <= |Unused(a.codecs, DYNAMIC_PAYLOAD_TYPES)|)
            && (r.Failure? && !inUse ==> r == Failure(CannotAllocate))
  {
    NormalizedIs(media);
    PoolIsDynamic();
    var m := Normalize(media).value;
    hide Normalize, HasKind, DYNAMIC_PAYLOAD_TYPES, Unused, Uses, RemoveFirst, LooselyMatches;
    var s := supported[k];
    assert s in supported;
    KindFollowsMime(m.mimeType, s.mimeType);
    var choice := ChoosePayloadType(m, s, a.free);
    ChoiceIs(a, m, s);
    if choice.Success? {
      var pt := choice.value.0;
      ChoiceConserves(a, m, s);
      RemoveOne(a.free, pt);
      UnusedIn(a.codecs, DYNAMIC_PAYLOAD_TYPES, pt);
      NotUsed(a.codecs, pt);
    }
  }

  // ----- Capacity

  /** Supported, valid, and given neither an explicit nor a static payload type. */
  predicate NeedsDynamic(supported: seq<MediaCodec>, media: MediaCodec) {
    var n := Normalize(media);
    n.Success? && n.value.preferredPayloadType.None? &&
    var k := SupportedIndex(n.value, supported);
    k.Some? && supported[k.value].preferredPayloadType.None?
  }

  /** One payload type for an audio codec, two for a video one. */
  function NeedOf(m: MediaCodec): nat {
    if HasKind(m.mimeType, "video/") then 2 else 1
  }

  function Need(media: seq<MediaCodec>): nat {
    if media == [] then 0 else NeedOf(media[0]) + Need(media[1..])
  }

  function PayloadTypes(codecs: seq<Codec>): seq<int> {
    seq(|codecs|, i requires 0 <= i < |codecs| => codecs[i].payloadType)
  }

  lemma KindFollowsMime(a: string, b: string)
    requires Lower(a) == Lower(b)
    ensures HasKind(a, "video/") == HasKind(b, "video/")
  {
    assert |Lower(a)| == |a| && |Lower(b)| == |b|;
    if |a| > 6 {
      assert Lower(a)[6] == LowerChar(a[6]) && Lower(b)[6] == LowerChar(b[6]);
    }
  }

  /** The free types are distinct and none of them is in use. */
  ghost predicate FreeIsFresh(a: Allocation) {
    Distinct(a.free) && FreeIsUnused(a)
  }

  /** `b` is `a` after the first `n` free types have been handed out in order. */
  ghost predicate Took(a: Allocation, b: Allocation, n: nat) {
    && n <= |a.free|
    && b.free == a.free[n..]
    && PayloadTypes(b.codecs) == PayloadTypes(a.codecs) + a.free[..n]
  }

  lemma AddTakesNeed(supported: seq<MediaCodec>, a: Allocation, media: MediaCodec)
    requires FreeIsFresh(a) && NeedsDynamic(supported, media)
    ensures Add(supported, a, media).Success? <==> NeedOf(media) <= |a.free|
    ensures Add(supported, a, media).Failure? ==> Add(supported, a, media).error == CannotAllocate
    ensures Add(supported, a, media).Success? ==>
      Took(a, Add(supported, a, media).value, NeedOf(media)) && FreeIsFresh(Add(supported, a, media).value)
  {
    var m := Normalize(media).value;
    hide HasKind, Normalize;
    var s := supported[SupportedIndex(m, supported).value];
    KindFollowsMime(m.mimeType, s.mimeType);
  }

  lemma TookTwice(a: Allocation, b: Allocation, c: Allocation, k: nat, n: nat)
    requires Took(a, b, k) && Took(b, c, n)
    ensures Took(a, c, k + n)
  {
    assert a.free[..k] + a.free[k..][..n] == a.free[..k + n];
  }

  /**
   Capacity is exact. For supported codecs that all take a dynamic payload type,
   generation succeeds iff one type per audio codec and two per video codec are
   free, fails only for want of one, and hands the free types out in order.
   */
  lemma {:induction false} CapacityFrom(supported: seq<MediaCodec>, a: Allocation, media: seq<MediaCodec>)
    requires FreeIsFresh(a)
    requires forall m :: m in media ==> NeedsDynamic(supported, m)
    ensures AddAll(supported, a, media).Success? <==> Need(media) <= |a.free|
    ensures AddAll(supported, a, media).Failure? ==> AddAll(supported, a, media).error == CannotAllocate
    ensures AddAll(supported, a, media).Success? ==> Took(a, AddAll(supported, a, media).value, Need(media))
    decreases |media|
  {
    if media != [] {
      AddTakesNeed(supported, a, media[0]);
      var next := Add(supported, a, media[0]);
      if next.Success? {
        CapacityFrom(supported, next.value, media[1..]);
        var rest := AddAll(supported, next.value, media[1..]);
        if rest.Success? {
          TookTwice(a, next.value, rest.value, NeedOf(media[0]), Need(media[1..]));
        }
      }
    }
  }

  lemma Capacity(supported: seq<MediaCodec>, media: seq<MediaCodec>)
    requires forall m :: m in media ==> NeedsDynamic(supported, m)
    ensures Generated(supported, media).Success? <==> Need(media) <= 32
    ensures Generated(supported, media).Failure? ==> Generated(supported, media).error == CannotAllocate
    ensures Generated(supported, media).Success? ==>
      && PayloadTypes(Generated(supported, media).value) == DYNAMIC_PAYLOAD_TYPES[..Need(media)]
      && forall i :: 0 <= i < Need(media) ==>
        PayloadTypes(Generated(supported, media).value)[i] == if i < 28 then 100 + i else 68 + i
  {
    StartIsFresh();
    PoolIsDynamic();
    hide Add, AddAll, NeedsDynamic, Need, DYNAMIC_PAYLOAD_TYPES, FreeIsFresh;
    CapacityFrom(supported, START, media);
    assert PayloadTypes(START.codecs) == [];
  }

  lemma StartIsFresh()
    ensures FreeIsFresh(START) && |DYNAMIC_PAYLOAD_TYPES| == 32
  {
  }
}
