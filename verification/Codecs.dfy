/**
 Codecs as the negotiation code sees them: mime types compared without regard to
 case, format parameters, and the codec matching rule.

 A capability and the parameters of a negotiated codec have the same shape here;
 `payloadType` is the preferred payload type in a capability. The media kind is
 not stored: the normalizer always overwrites it with the one in the mime type.
 */
module Codecs {
  import opened Wrappers

  datatype Value = Num(n: int) | Str(s: string)

  type Parameters = map<string, Value>

  datatype FeedbackType = Nack | Ccm | GoogRemb | TransportCc | OtherFeedback(name: string)

  datatype Feedback = Feedback(ftype: FeedbackType, parameter: string)

  datatype Codec = Codec(
    mimeType: string,
    payloadType: int,
    clockRate: int,
    channels: Option<int>,
    parameters: Parameters,
    rtcpFeedback: seq<Feedback>)

  /** The fields of a codec that matching looks at. */
  datatype CodecToMatch = CodecToMatch(
    mimeType: string,
    clockRate: int,
    channels: Option<int>,
    parameters: Parameters)

  function View(c: Codec): CodecToMatch {
    CodecToMatch(c.mimeType, c.clockRate, c.channels, c.parameters)
  }

  /** `m` is `c` with other feedback. */
  ghost predicate ComesFrom(m: Codec, c: Codec) {
    m == c.(rtcpFeedback := m.rtcpFeedback)
  }

  lemma ComesFromKeeps(m: Codec, c: Codec)
    requires ComesFrom(m, c)
    ensures IsRtx(m) == IsRtx(c) && forall pt :: AptIs(m, pt) == AptIs(c, pt)
  {
  }

  /** `out` are the codecs of `cs` at the positions `idx`, in order, with other feedback. */
  ghost predicate Selects(cs: seq<Codec>, out: seq<Codec>, idx: seq<nat>) {
    && |idx| == |out|
    && (forall k :: 0 <= k < |idx| ==> idx[k] < |cs| && ComesFrom(out[k], cs[idx[k]]))
    && (forall k, l :: 0 <= k < l < |idx| ==> idx[k] < idx[l])
  }

  lemma NoneSelected(cs: seq<Codec>)
    ensures Selects(cs, [], [])
  {
  }

  lemma SelectEarlier(cs: seq<Codec>, out: seq<Codec>, idx: seq<nat>, i: nat, o: Codec)
    requires Selects(cs, out, idx) && i < |cs| && ComesFrom(o, cs[i]) && forall j :: j in idx ==> i < j
    ensures Selects(cs, [o] + out, [i] + idx)
  {
    hide ComesFrom;
    var all := [i] + idx;
    forall k, l | 0 <= k < l < |all|
      ensures all[k] < all[l]
    {
      assert all[l] in idx;
    }
  }

  /** The same selection with one more codec in front. */
  lemma SelectBehind(cs: seq<Codec>, out: seq<Codec>, idx: seq<nat>) returns (r: seq<nat>)
    requires cs != [] && Selects(cs[1..], out, idx)
    ensures Selects(cs, out, r)
    ensures forall i :: i in r <==> 0 < i && i - 1 in idx
  {
    hide ComesFrom;
    r := seq(|idx|, k requires 0 <= k < |idx| => idx[k] + 1);
    forall i | 0 < i && i - 1 in idx
      ensures i in r
    {
      var k :| 0 <= k < |idx| && idx[k] == i - 1;
      assert r[k] == i;
    }
  }

  /** A selection of a selection. */
  lemma SelectTwice(cs: seq<Codec>, mid: seq<Codec>, out: seq<Codec>, idx: seq<nat>, jdx: seq<nat>)
    returns (r: seq<nat>)
    requires Selects(cs, mid, idx) && Selects(mid, out, jdx)
    ensures Selects(cs, out, r)
    ensures forall i :: i in r <==> exists k :: k in jdx && k < |idx| && idx[k] == i
  {
    r := seq(|jdx|, k requires 0 <= k < |jdx| => idx[jdx[k]]);
    forall k | k in jdx
      ensures k < |idx| && idx[k] in r
    {
      var l :| 0 <= l < |jdx| && jdx[l] == k;
      assert r[l] == idx[k];
    }
  }

  // ----- Mime types

  function LowerChar(c: char): char {
    if 'A' <= c <= 'Z' then (c as int + 32) as char else c
  }

  function Lower(s: string): string {
    seq(|s|, i requires 0 <= i < |s| => LowerChar(s[i]))
  }

  const RTX_MIME: string := "video/rtx"

  predicate IsLineTerminator(c: char) {
    c == '\n' || c == '\r' || c as int == 0x2028 || c as int == 0x2029
  }

  /** The test `/.+\/rtx$/i`. */
  predicate IsRtxMime(mime: string) {
    |mime| >= 5 && Lower(mime)[|mime| - 4..] == "/rtx" && !IsLineTerminator(Lower(mime)[|mime| - 5])
  }

  predicate IsRtx(c: Codec) {
    IsRtxMime(c.mimeType)
  }

  predicate HasKind(mime: string, kind: string)
    requires |kind| == 6
  {
    |mime| > 6 && Lower(mime)[..6] == kind && !IsLineTerminator(mime[6])
  }

  predicate IsVideo(c: Codec) {
    HasKind(c.mimeType, "video/")
  }

  lemma RtxMimeIsRtxVideo()
    ensures IsRtxMime(RTX_MIME) && HasKind(RTX_MIME, "video/")
  {
    assert Lower(RTX_MIME) == "video/rtx";
  }

  /** A mime type whose last letter is not an x cannot be an RTX one. */
  lemma NotRtxByLastLetter(mime: string)
    requires |mime| > 0 && LowerChar(mime[|mime| - 1]) != 'x'
    ensures !IsRtxMime(mime)
  {
    if |mime| >= 5 {
      assert Lower(mime)[|mime| - 4..][3] == LowerChar(mime[|mime| - 1]);
    }
  }

  // ----- Parameters

  function Get(p: Parameters, key: string): Option<Value> {
    if key in p then Some(p[key]) else None
  }

  /** The expression `p[key] || 0`. */
  function OrZero(p: Parameters, key: string): Value {
    if key !in p || p[key] == Str("") then Num(0) else p[key]
  }

  /** The payload type an RTX codec protects, if it names one. */
  predicate AptIs(c: Codec, pt: int) {
    Get(c.parameters, "apt") == Some(Num(pt))
  }

  // ----- The H264 profile library, which is not part of the repository

  /**
   The two functions of the H264 library that matching calls. `answer` is `None`
   when the library throws and `Some("")` when it selects no profile-level-id.
   */
  datatype H264 = H264(
    sameProfile: (Parameters, Parameters) -> bool,
    answer: (Parameters, Parameters) -> Option<string>)

  function WithProfile(p: Parameters, profileLevelId: string): Parameters {
    if profileLevelId == "" then p - {"profile-level-id"}
    else p["profile-level-id" := Str(profileLevelId)]
  }

  /** `p` after adopting the answer to `q`. */
  function Answered(h: H264, p: Parameters, q: Parameters): Parameters
    requires h.answer(p, q).Some?
  {
    WithProfile(p, h.answer(p, q).value)
  }

  ghost predicate LawfulAt(h: H264, p: Parameters, q: Parameters) {
    h.sameProfile(p, q) ==>
      && h.answer(p, q).Some?
      && h.answer(Answered(h, p, q), q) == h.answer(p, q)
      && forall r :: h.sameProfile(Answered(h, p, q), r) == h.sameProfile(p, r)
  }

  /**
   What is expected of the library: codecs of the same profile always get an answer,
   and adopting the answer keeps the profile and the answer.
   */
  ghost predicate Lawful(h: H264) {
    forall p, q :: LawfulAt(h, p, q)
  }

  /** Having the same profile is symmetric and transitive, as it is when two profiles are compared for equality. */
  ghost predicate ProfilesPartition(h: H264) {
    && (forall p, q :: h.sameProfile(p, q) == h.sameProfile(q, p))
    && (forall p, q, r :: h.sameProfile(p, q) && h.sameProfile(q, r) ==> h.sameProfile(p, r))
  }

  /** A library that orders levels within a profile, one letter for each, "a1" being the default. */
  function ProfileAndLevel(p: Parameters): string {
    match Get(p, "profile-level-id")
    case Some(Str(s)) => if s == "" then "a1" else s
    case _ => "a1"
  }

  predicate HasProfile(p: Parameters) {
    "profile-level-id" in p && p["profile-level-id"].Str? && p["profile-level-id"].s != ""
  }

  predicate SameLetter(p: Parameters, q: Parameters) {
    var a, b := ProfileAndLevel(p), ProfileAndLevel(q);
    |a| == 2 && |b| == 2 && a[0] == b[0]
  }

  function LowerLevel(p: Parameters, q: Parameters): Option<string> {
    if !HasProfile(p) && !HasProfile(q) then Some("")
    else if !SameLetter(p, q) then None
    else
      var a, b := ProfileAndLevel(p), ProfileAndLevel(q);
      Some(if a[1] <= b[1] then a else [a[0], b[1]])
  }

  /** What is expected of the library can be met. */
  lemma LawfulExists() returns (h: H264)
    ensures Lawful(h) && ProfilesPartition(h)
  {
    h := H264(SameLetter, LowerLevel);
    forall p, q
      ensures LawfulAt(h, p, q)
    {
      if SameLetter(p, q) {
        var p' := Answered(h, p, q);
        if HasProfile(p) || HasProfile(q) {
          assert ProfileAndLevel(p') == LowerLevel(p, q).value;
        }
      }
    }
  }

  // ----- Matching

  predicate SameStreams(a: Parameters, b: Parameters) {
    && Get(a, "num_streams") == Get(b, "num_streams")
    && Get(a, "coupled_streams") == Get(b, "coupled_streams")
  }

  predicate SameH264(h: H264, a: Parameters, b: Parameters) {
    && OrZero(a, "packetization-mode") == OrZero(b, "packetization-mode")
    && h.sameProfile(a, b)
    && h.answer(a, b).Some?
  }

  /** The matching rule without the `strict` option. */
  predicate LooselyMatches(a: CodecToMatch, b: CodecToMatch) {
    && Lower(a.mimeType) == Lower(b.mimeType)
    && a.clockRate == b.clockRate
    && a.channels == b.channels
    && (Lower(a.mimeType) == "audio/multiopus" ==> SameStreams(a.parameters, b.parameters))
  }

  /** The matching rule with the `strict` option. */
  predicate Matches(h: H264, a: CodecToMatch, b: CodecToMatch) {
    && LooselyMatches(a, b)
    && (Lower(a.mimeType) == "video/h264" ==> SameH264(h, a.parameters, b.parameters))
    && (Lower(a.mimeType) == "video/vp9" ==>
      OrZero(a.parameters, "profile-id") == OrZero(b.parameters, "profile-id"))
  }

  /** The parameters of `a` after it strictly matched `b` with modification allowed. */
  function Adjusted(h: H264, a: CodecToMatch, b: CodecToMatch): Parameters
    requires Matches(h, a, b)
  {
    if Lower(a.mimeType) == "video/h264" then Answered(h, a.parameters, b.parameters)
    else a.parameters
  }

  // ----- What matching means

  /** `lower` is the small letter of `upper`. */
  ghost predicate IsSmallOf(lower: char, upper: char) {
    'A' <= upper <= 'Z' && lower as int == upper as int + 32
  }

  /** The same letters, whatever their case. */
  ghost predicate SameLetters(a: string, b: string) {
    |a| == |b| && forall i :: 0 <= i < |a| ==> a[i] == b[i] || IsSmallOf(a[i], b[i]) || IsSmallOf(b[i], a[i])
  }

  /** Both have the same value for a parameter, or neither has any. */
  ghost predicate SameValue(a: Parameters, b: Parameters, key: string) {
    (key in a <==> key in b) && (key in a ==> a[key] == b[key])
  }

  /** A missing parameter and an empty one count as 0. */
  ghost predicate IsZero(a: Parameters, key: string) {
    key in a ==> a[key] == Num(0) || a[key] == Str("")
  }

  ghost predicate SameNumber(a: Parameters, b: Parameters, key: string) {
    (IsZero(a, key) && IsZero(b, key)) || (!IsZero(a, key) && SameValue(a, b, key))
  }

  /** Mime type, clock rate and channels are the same and, for multiopus, the streams. */
  ghost predicate SameFormat(a: CodecToMatch, b: CodecToMatch) {
    && SameLetters(a.mimeType, b.mimeType)
    && a.clockRate == b.clockRate
    && a.channels == b.channels
    && (SameLetters(a.mimeType, "audio/multiopus") ==>
      SameValue(a.parameters, b.parameters, "num_streams") && SameValue(a.parameters, b.parameters, "coupled_streams"))
  }

  /** The profile is the same, for the two codecs that have profiles. */
  ghost predicate SameProfileOf(h: H264, a: CodecToMatch, b: CodecToMatch) {
    && (SameLetters(a.mimeType, "video/vp9") ==> SameNumber(a.parameters, b.parameters, "profile-id"))
    && (SameLetters(a.mimeType, "video/h264") ==>
      && SameNumber(a.parameters, b.parameters, "packetization-mode")
      && h.sameProfile(a.parameters, b.parameters) && h.answer(a.parameters, b.parameters).Some?)
  }

  lemma SameLettersByLower(a: string, b: string)
    ensures SameLetters(a, b) <==> Lower(a) == Lower(b)
  {
    if Lower(a) == Lower(b) {
      assert |Lower(a)| == |a| && |Lower(b)| == |b|;
      assert forall i :: 0 <= i < |a| ==> Lower(a)[i] == LowerChar(a[i]) && Lower(b)[i] == LowerChar(b[i]);
    }
  }

  lemma LowerIsLower()
    ensures Lower("audio/multiopus") == "audio/multiopus"
    ensures Lower("video/vp9") == "video/vp9" && Lower("video/h264") == "video/h264"
  {
  }

  /** Matching without the `strict` option compares formats, with it profiles as well. */
  lemma MatchingMeans(h: H264, a: CodecToMatch, b: CodecToMatch)
    ensures LooselyMatches(a, b) <==> SameFormat(a, b)
    ensures Matches(h, a, b) <==> SameFormat(a, b) && SameProfileOf(h, a, b)
  {
    LowerIsLower();
    SameLettersByLower(a.mimeType, b.mimeType);
    SameLettersByLower(a.mimeType, "audio/multiopus");
    SameLettersByLower(a.mimeType, "video/vp9");
    SameLettersByLower(a.mimeType, "video/h264");
    hide Lower, SameLetters;
  }

  /**
   Adjusting touches the profile-level-id of an H264 codec only: it becomes the library's answer,
   and goes away when that is empty.
   */
  lemma AdjustingMeans(h: H264, a: CodecToMatch, b: CodecToMatch)
    requires Matches(h, a, b)
    ensures var p := Adjusted(h, a, b);
            && (!SameLetters(a.mimeType, "video/h264") ==> p == a.parameters)
            && (forall key :: key != "profile-level-id" ==> SameValue(p, a.parameters, key))
            && (SameLetters(a.mimeType, "video/h264") ==>
              && h.answer(a.parameters, b.parameters).Some?
              && var answer := h.answer(a.parameters, b.parameters).value;
              && ("profile-level-id" in p <==> answer != "")
              && (answer != "" ==> p["profile-level-id"] == Str(answer)))
  {
    LowerIsLower();
    SameLettersByLower(a.mimeType, "video/h264");
    hide Lower, SameLetters;
  }

  lemma MatchKeepsRtx(h: H264, a: Codec, b: Codec)
    requires Matches(h, View(a), View(b))
    ensures IsRtx(a) == IsRtx(b)
  {
    assert |Lower(a.mimeType)| == |a.mimeType| && |Lower(b.mimeType)| == |b.mimeType|;
  }

  /**
   Adopting the matched capability: a codec that takes over the mime type, clock rate
   and channels of the capability it matched, with its parameters adjusted, matches
   the same capabilities as before and would be adjusted no further.
   */
  lemma AdjustedMatchesAlike(h: H264, a: CodecToMatch, b: CodecToMatch, c: CodecToMatch)
    requires Lawful(h) && Matches(h, a, b)
    ensures var a' := b.(parameters := Adjusted(h, a, b));
            && Matches(h, a', c) == Matches(h, a, c)
            && Matches(h, a', b) && Adjusted(h, a', b) == a'.parameters
  {
    if Lower(a.mimeType) == "video/h264" {
      var p := Adjusted(h, a, b);
      assert LawfulAt(h, a.parameters, b.parameters);
      assert LawfulAt(h, a.parameters, c.parameters);
      assert LawfulAt(h, p, c.parameters);
      assert OrZero(p, "packetization-mode") == OrZero(a.parameters, "packetization-mode");
      assert WithProfile(p, h.answer(p, b.parameters).value) == p;
    }
  }

  /** Codecs that matched one capability and differ in parameters only are matched by the same codecs. */
  lemma MatchedAlike(h: H264, a: CodecToMatch, b: CodecToMatch, c: CodecToMatch, remote: CodecToMatch)
    requires Lawful(h) && ProfilesPartition(h) && Matches(h, a, c) && Matches(h, b, c)
    requires b == a.(parameters := b.parameters) && Matches(h, remote, a)
    ensures Matches(h, remote, b)
  {
    if Lower(a.mimeType) == "video/h264" {
      assert LawfulAt(h, remote.parameters, b.parameters);
      assert h.sameProfile(c.parameters, b.parameters);
      assert h.sameProfile(remote.parameters, c.parameters);
    }
  }

  // ----- Searching

  /** `list.find(c => matchCodecs(codec, c, { strict: true }))`, as an index. */
  function MatchIndex(h: H264, codec: CodecToMatch, list: seq<Codec>): (r: Option<nat>)
    ensures r.Some? ==> r.value < |list| && Matches(h, codec, View(list[r.value]))
    ensures r.Some? ==> forall j :: 0 <= j < r.value ==> !Matches(h, codec, View(list[j]))
    ensures r.None? ==> forall j :: 0 <= j < |list| ==> !Matches(h, codec, View(list[j]))
  {
    if list == [] then None
    else if Matches(h, codec, View(list[0])) then Some(0)
    else
      var rest := MatchIndex(h, codec, list[1..]);
      if rest.None? then None else Some(rest.value + 1)
  }

  /** `list.find(c => c.payloadType === pt)`, as an index. */
  function PtIndex(list: seq<Codec>, pt: int): (r: Option<nat>)
    ensures r.Some? ==> r.value < |list| && list[r.value].payloadType == pt
    ensures r.Some? ==> forall j :: 0 <= j < r.value ==> list[j].payloadType != pt
    ensures r.None? ==> forall j :: 0 <= j < |list| ==> list[j].payloadType != pt
  {
    if list == [] then None
    else if list[0].payloadType == pt then Some(0)
    else
      var rest := PtIndex(list[1..], pt);
      if rest.None? then None else Some(rest.value + 1)
  }

  /** `list.find(c => c.payloadType === codec.parameters['apt'])`, as an index. */
  function AptIndex(list: seq<Codec>, codec: Codec): (r: Option<nat>)
    ensures r.Some? ==> r.value < |list| && AptIs(codec, list[r.value].payloadType)
    ensures r.Some? ==> forall j :: 0 <= j < r.value ==> !AptIs(codec, list[j].payloadType)
    ensures r.None? ==> forall j :: 0 <= j < |list| ==> !AptIs(codec, list[j].payloadType)
  {
    match Get(codec.parameters, "apt")
    case Some(Num(pt)) => PtIndex(list, pt)
    case _ => None
  }

  /** `list.find(c => isRtxCodec(c) && c.parameters['apt'] === pt)`, as an index. */
  function RtxIndex(list: seq<Codec>, pt: int): (r: Option<nat>)
    ensures r.Some? ==> r.value < |list| && IsRtx(list[r.value]) && AptIs(list[r.value], pt)
    ensures r.Some? ==> forall j :: 0 <= j < r.value ==> !(IsRtx(list[j]) && AptIs(list[j], pt))
    ensures r.None? ==> forall j :: 0 <= j < |list| ==> !(IsRtx(list[j]) && AptIs(list[j], pt))
  {
    if list == [] then None
    else if IsRtx(list[0]) && AptIs(list[0], pt) then Some(0)
    else
      var rest := RtxIndex(list[1..], pt);
      if rest.None? then None else Some(rest.value + 1)
  }
}
