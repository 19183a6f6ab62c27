/**
 What one consumer of a producer gets: the consumable codecs reduced to what the
 remote side can receive, and the test that tells beforehand whether there is any.
 */
module ConsumerParameters {
  import opened Wrappers
  import opened Codecs
  import opened Rtp
  import opened RtxSanitizing
  import PipeChain
  import ScalabilityModes

  datatype ConsumerError = NoCompatibleMediaCodecs

  // ----- Codecs the remote side can receive

  /** `remote.find(cap => matchCodecs(cap, c, { strict: true }))`, as an index. */
  function RemoteIndex(h: H264, remote: seq<Codec>, c: Codec): (r: Option<nat>)
    ensures r.Some? ==> r.value < |remote| && Matches(h, View(remote[r.value]), View(c))
    ensures r.Some? ==> forall j :: 0 <= j < r.value ==> !Matches(h, View(remote[j]), View(c))
    ensures r.None? ==> forall j :: 0 <= j < |remote| ==> !Matches(h, View(remote[j]), View(c))
  {
    if remote == [] then None
    else if Matches(h, View(remote[0]), View(c)) then Some(0)
    else
      var rest := RemoteIndex(h, remote[1..], c);
      if rest.None? then None else Some(rest.value + 1)
  }

  predicate Receivable(h: H264, remote: seq<Codec>, c: Codec) {
    RemoteIndex(h, remote, c).Some?
  }

  /** Generic NACK goes away together with RTX. */
  predicate SurvivesRtx(fb: Feedback, enableRtx: bool) {
    enableRtx || fb.ftype != Nack || fb.parameter != ""
  }

  function RtxFeedback(fbs: seq<Feedback>, enableRtx: bool): (r: seq<Feedback>)
    ensures forall fb :: fb in r <==> fb in fbs && SurvivesRtx(fb, enableRtx)
  {
    if fbs == [] then []
    else if SurvivesRtx(fbs[0], enableRtx) then [fbs[0]] + RtxFeedback(fbs[1..], enableRtx)
    else RtxFeedback(fbs[1..], enableRtx)
  }

  function WithFeedback(c: Codec, fbs: seq<Feedback>): Codec {
    c.(rtcpFeedback := fbs)
  }

  predicate IsMatched(h: H264, remote: seq<Codec>, enableRtx: bool, c: Codec) {
    (enableRtx || !IsRtx(c)) && Receivable(h, remote, c)
  }

  /** A matched codec takes the feedback of the remote capability. */
  function MatchedCodec(h: H264, remote: seq<Codec>, enableRtx: bool, c: Codec): Codec
    requires Receivable(h, remote, c)
  {
    WithFeedback(c, RtxFeedback(remote[RemoteIndex(h, remote, c).value].rtcpFeedback, enableRtx))
  }

  function MatchedCodecs(h: H264, consumable: seq<Codec>, remote: seq<Codec>, enableRtx: bool): seq<Codec> {
    if consumable == [] then []
    else if !IsMatched(h, remote, enableRtx, consumable[0]) then MatchedCodecs(h, consumable[1..], remote, enableRtx)
    else
      [MatchedCodec(h, remote, enableRtx, consumable[0])] + MatchedCodecs(h, consumable[1..], remote, enableRtx)
  }

  /** What one turn of the loop adds. */
  lemma OneMatched(h: H264, consumable: seq<Codec>, remote: seq<Codec>, enableRtx: bool, i: nat)
    requires i < |consumable|
    ensures MatchedCodecs(h, consumable[i..], remote, enableRtx) ==
      var rest := MatchedCodecs(h, consumable[i + 1..], remote, enableRtx);
      if !IsMatched(h, remote, enableRtx, consumable[i]) then rest
      else [MatchedCodec(h, remote, enableRtx, consumable[i])] + rest
  {
    hide IsMatched, MatchedCodec;
    assert consumable[i..][0] == consumable[i] && consumable[i..][1..] == consumable[i + 1..];
  }

  method GetMatchedCodecs(h: H264, consumable: seq<Codec>, remote: seq<Codec>, enableRtx: bool) returns (r: seq<Codec>)
    ensures r == MatchedCodecs(h, consumable, remote, enableRtx)
  {
    hide IsRtx, Matches, RemoteIndex, RtxFeedback, MatchedCodecs;
    r := [];
    assert consumable[0..] == consumable;
    for i := 0 to |consumable|
      invariant MatchedCodecs(h, consumable, remote, enableRtx) ==
        r + MatchedCodecs(h, consumable[i..], remote, enableRtx)
    {
      OneMatched(h, consumable, remote, enableRtx, i);
      if enableRtx || !IsRtx(consumable[i]) {
        var k := RemoteIndex(h, remote, consumable[i]);
        if k.Some? {
          r := r + [WithFeedback(consumable[i], RtxFeedback(remote[k.value].rtcpFeedback, enableRtx))];
        }
      }
    }
    assert consumable[|consumable|..] == [];
    NoneMatched(h, remote, enableRtx);
  }

  lemma NoneMatched(h: H264, remote: seq<Codec>, enableRtx: bool)
    ensures MatchedCodecs(h, [], remote, enableRtx) == []
  {
  }

  /** The codecs of a consumer before feedback is reduced; `None` when no media codec comes first. */
  function ConsumerCodecs(h: H264, consumable: seq<Codec>, remote: seq<Codec>, enableRtx: bool): Option<seq<Codec>> {
    var kept := NodeKept(MatchedCodecs(h, consumable, remote, enableRtx), 0);
    if kept == [] || IsRtx(kept[0]) then None else Some(kept)
  }

  // ----- Feedback for bandwidth estimation

  datatype Estimation = ByTransportCc | ByRemb | Unestimated

  function EstimationOf(exts: seq<Extension>): Estimation {
    if PipeChain.HasUri(exts, TransportWideCc) then ByTransportCc
    else if PipeChain.HasUri(exts, AbsSendTime) then ByRemb
    else Unestimated
  }

  predicate SurvivesEstimation(fb: Feedback, e: Estimation) {
    match e
    case ByTransportCc => fb.ftype != GoogRemb
    case ByRemb => fb.ftype != TransportCc
    case Unestimated => fb.ftype != TransportCc && fb.ftype != GoogRemb
  }

  function EstimationFeedback(fbs: seq<Feedback>, e: Estimation): (r: seq<Feedback>)
    ensures forall fb :: fb in r <==> fb in fbs && SurvivesEstimation(fb, e)
  {
    if fbs == [] then []
    else if SurvivesEstimation(fbs[0], e) then [fbs[0]] + EstimationFeedback(fbs[1..], e)
    else EstimationFeedback(fbs[1..], e)
  }

  function ReducedCodecs(cs: seq<Codec>, e: Estimation): (r: seq<Codec>)
    ensures |r| == |cs|
    ensures forall i :: 0 <= i < |cs| ==> r[i] == WithFeedback(cs[i], EstimationFeedback(cs[i].rtcpFeedback, e))
  {
    if cs == [] then []
    else [WithFeedback(cs[0], EstimationFeedback(cs[0].rtcpFeedback, e))] + ReducedCodecs(cs[1..], e)
  }

  // ----- Extensions and encodings

  predicate ExtensionReceivable(remote: seq<ExtensionCapability>, ext: Extension) {
    exists i :: 0 <= i < |remote| && remote[i].preferredId == ext.id && remote[i].uri == ext.uri
  }

  function ReceivableExtensions(exts: seq<Extension>, remote: seq<ExtensionCapability>): (r: seq<Extension>)
    ensures forall e :: e in r <==> e in exts && ExtensionReceivable(remote, e)
  {
    if exts == [] then []
    else if ExtensionReceivable(remote, exts[0]) then [exts[0]] + ReceivableExtensions(exts[1..], remote)
    else ReceivableExtensions(exts[1..], remote)
  }

  /** The first non-empty scalability mode among the encodings. */
  function ProducerMode(es: seq<Encoding>): Option<string> {
    if es == [] then None
    else if es[0].scalabilityMode.Some? && es[0].scalabilityMode.value != "" then es[0].scalabilityMode
    else ProducerMode(es[1..])
  }

  /** With simulcast, the spatial layers are the encodings. */
  function ConsumerMode(es: seq<Encoding>): Option<string> {
    if |es| > 1 then
      Some(ScalabilityModes.SimulcastMode(|es|, ScalabilityModes.ParseNode(ProducerMode(es)).temporal))
    else ProducerMode(es)
  }

  function Bitrate(e: Encoding): int {
    if e.maxBitrate.Some? then e.maxBitrate.value else 0
  }

  /** The greatest `maxBitrate`, or 0 when none is positive. */
  function MaxBitrate(es: seq<Encoding>): (m: int)
    ensures m >= 0 && forall i :: 0 <= i < |es| ==> Bitrate(es[i]) <= m
    ensures m > 0 ==> exists i :: 0 <= i < |es| && Bitrate(es[i]) == m
  {
    if es == [] then 0
    else
      var last := |es| - 1;
      var m := MaxBitrate(es[..last]);
      if Bitrate(es[last]) > m then Bitrate(es[last]) else m
  }

  function ConsumerEncoding(es: seq<Encoding>, ssrc: int, rtx: bool): Encoding {
    var m := MaxBitrate(es);
    Encoding(Some(ssrc), None, None, if rtx then Some(ssrc + 1) else None, false, ConsumerMode(es),
             if m == 0 then None else Some(m))
  }

  // ----- The consumer

  /** The random values that are drawn. */
  datatype Draw = Draw(ssrc: int, base: int, baseRtx: int)

  ghost predicate IsConsumer(h: H264, c: RtpParameters, remote: RtpCapabilities, pipe: bool, enableRtx: bool,
                             draw: Draw, out: RtpParameters)
  {
    && var kept := ConsumerCodecs(h, c.codecs, remote.codecs, enableRtx);
    && kept.Some?
    && out.headerExtensions == ReceivableExtensions(c.headerExtensions, remote.headerExtensions)
    && out.codecs == ReducedCodecs(kept.value, EstimationOf(out.headerExtensions))
    && out.encodings == (
      if pipe then PipeChain.PipeEncodings(c.encodings, HasRtx(out.codecs), draw.base, draw.baseRtx)
      else [ConsumerEncoding(c.encodings, draw.ssrc, HasRtx(out.codecs))])
    && out.cname == c.cname && out.reducedSize == c.reducedSize && out.msid == c.msid
  }

  lemma ReducingKeepsRtx(cs: seq<Codec>, e: Estimation)
    ensures HasRtx(ReducedCodecs(cs, e)) == HasRtx(cs)
  {
    var r := ReducedCodecs(cs, e);
    forall i | 0 <= i < |cs|
      ensures IsRtx(r[i]) == IsRtx(cs[i])
    {
    }
  }

  method GetConsumerParameters(h: H264, c: RtpParameters, remote: RtpCapabilities, pipe: bool, enableRtx: bool,
                               draw: Draw)
    returns (r: Result<RtpParameters, ConsumerError>)
    ensures r.Success? <==> ConsumerCodecs(h, c.codecs, remote.codecs, enableRtx).Some?
    ensures r.Success? ==> IsConsumer(h, c, remote, pipe, enableRtx, draw, r.value)
  {
    hide IsRtx, MatchedCodecs, NodeKept, HasRtx, EstimationOf, EstimationFeedback, ReceivableExtensions;
    hide ConsumerEncoding;
    var matched := GetMatchedCodecs(h, c.codecs, remote.codecs, enableRtx);
    var codecs, rtxSupported := SanitizeNode(matched);
    if codecs == [] || IsRtx(codecs[0]) { return Failure(NoCompatibleMediaCodecs); }
    var exts := ReceivableExtensions(c.headerExtensions, remote.headerExtensions);
    var e := EstimationOf(exts);
    var reduced: seq<Codec> := [];
    for i := 0 to |codecs|
      invariant |reduced| == i
      invariant forall j :: 0 <= j < i ==>
        reduced[j] == WithFeedback(codecs[j], EstimationFeedback(codecs[j].rtcpFeedback, e))
    {
      reduced := reduced + [WithFeedback(codecs[i], EstimationFeedback(codecs[i].rtcpFeedback, e))];
    }
    assert reduced == ReducedCodecs(codecs, e);
    ReducingKeepsRtx(codecs, e);
    var encodings;
    if !pipe {
      encodings := [ConsumerEncoding(c.encodings, draw.ssrc, rtxSupported)];
    } else {
      encodings := PipeChain.PipeEncodings(c.encodings, rtxSupported, draw.base, draw.baseRtx);
    }
    return Success(RtpParameters(reduced, exts, encodings, c.cname, c.reducedSize, c.msid));
  }

  // ----- Coherence of what a consumer gets

  /** The matched codecs are a selection of the consumable ones. */
  lemma {:induction false} MatchedSelects(h: H264, consumable: seq<Codec>, remote: seq<Codec>, enableRtx: bool)
    returns (idx: seq<nat>)
    ensures Selects(consumable, MatchedCodecs(h, consumable, remote, enableRtx), idx)
    ensures forall i :: i in idx <==> 0 <= i < |consumable| && IsMatched(h, remote, enableRtx, consumable[i])
  {
    hide IsRtx, Receivable, Selects, RtxFeedback;
    if consumable == [] {
      idx := [];
      NoneSelected(consumable);
    } else {
      var rest := MatchedCodecs(h, consumable[1..], remote, enableRtx);
      idx := MatchedSelects(h, consumable[1..], remote, enableRtx);
      idx := SelectBehind(consumable, rest, idx);
      if IsMatched(h, remote, enableRtx, consumable[0]) {
        SelectEarlier(consumable, rest, idx, 0, MatchedCodecs(h, consumable, remote, enableRtx)[0]);
        idx := [0] + idx;
      }
    }
  }

  lemma {:induction false} MatchedAt(h: H264, consumable: seq<Codec>, remote: seq<Codec>, enableRtx: bool, k: nat)
    returns (i: nat)
    requires k < |MatchedCodecs(h, consumable, remote, enableRtx)|
    ensures k <= i < |consumable| && IsMatched(h, remote, enableRtx, consumable[i])
    ensures var m := MatchedCodecs(h, consumable, remote, enableRtx)[k];
            && ComesFrom(m, consumable[i])
            && FeedbackFrom(h, remote, consumable[i], enableRtx, m.rtcpFeedback)
  {
    hide IsMatched, MatchedCodec, FeedbackFrom, ComesFrom;
    if !IsMatched(h, remote, enableRtx, consumable[0]) {
      i := MatchedAt(h, consumable[1..], remote, enableRtx, k);
      i := i + 1;
    } else if k == 0 {
      i := 0;
      FeedbackIsFiltered(h, remote, consumable[0], enableRtx);
    } else {
      i := MatchedAt(h, consumable[1..], remote, enableRtx, k - 1);
      i := i + 1;
    }
  }

  /** Feedback is what the matched remote capability has, without generic NACK when RTX is off. */
  ghost predicate FeedbackFrom(h: H264, remote: seq<Codec>, c: Codec, enableRtx: bool, fbs: seq<Feedback>) {
    && Receivable(h, remote, c)
    && forall fb :: fb in fbs <==>
      fb in remote[RemoteIndex(h, remote, c).value].rtcpFeedback && SurvivesRtx(fb, enableRtx)
  }

  lemma FeedbackIsFiltered(h: H264, remote: seq<Codec>, c: Codec, enableRtx: bool)
    requires IsMatched(h, remote, enableRtx, c)
    ensures var m := MatchedCodec(h, remote, enableRtx, c);
            ComesFrom(m, c) && FeedbackFrom(h, remote, c, enableRtx, m.rtcpFeedback)
  {
    hide IsRtx, Matches, RemoteIndex;
  }

  lemma {:induction false} MatchedHas(h: H264, consumable: seq<Codec>, remote: seq<Codec>, enableRtx: bool, i: nat)
    returns (k: nat)
    requires i < |consumable| && Receivable(h, remote, consumable[i]) && (enableRtx || !IsRtx(consumable[i]))
    ensures k < |MatchedCodecs(h, consumable, remote, enableRtx)|
    ensures ComesFrom(MatchedCodecs(h, consumable, remote, enableRtx)[k], consumable[i])
  {
    hide IsRtx, Receivable;
    if i == 0 {
      k := 0;
    } else {
      var c := consumable[0];
      k := MatchedHas(h, consumable[1..], remote, enableRtx, i - 1);
      k := if IsMatched(h, remote, enableRtx, c) then k + 1 else k;
    }
  }

  lemma {:induction false} NamesMediaIsInherited(h: H264, consumable: seq<Codec>, remote: seq<Codec>, enableRtx: bool)
    requires NamesMedia(consumable)
    ensures NamesMedia(MatchedCodecs(h, consumable, remote, enableRtx))
  {
    var m := MatchedCodecs(h, consumable, remote, enableRtx);
    forall a, b | 0 <= a < |m| && 0 <= b < |m| && IsRtx(m[a]) && Protects(m, a, b)
      ensures !IsRtx(m[b])
    {
      hide IsRtx, AptIs, MatchedCodecs;
      var i := MatchedAt(h, consumable, remote, enableRtx, a);
      var j := MatchedAt(h, consumable, remote, enableRtx, b);
      ComesFromKeeps(m[a], consumable[i]);
      ComesFromKeeps(m[b], consumable[j]);
      assert Protects(consumable, i, j);
    }
  }

  ghost predicate AptsNameMediaIn(cs: seq<Codec>) {
    forall i :: 0 <= i < |cs| && IsRtx(cs[i]) ==>
      exists j :: 0 <= j < |cs| && !IsRtx(cs[j]) && AptIs(cs[i], cs[j].payloadType)
  }

  /** Every RTX codec left by the sanitizing loop protects a media codec that is left too. */
  lemma KeptIsClosed(m: seq<Codec>)
    requires NamesMedia(m)
    ensures AptsNameMediaIn(NodeKept(m, 0))
  {
    BothAreTheFilter(m);
    var kept := NodeKept(m, 0);
    forall a | 0 <= a < |kept| && IsRtx(kept[a])
      ensures exists b :: 0 <= b < |kept| && !IsRtx(kept[b]) && AptIs(kept[a], kept[b].payloadType)
    {
      hide IsRtx, NodeKeeps, AptIs;
      var i := NodeKeptAt(m, 0, a);
      var j :| 0 <= j < |m| && !IsRtx(m[j]) && Protects(m, i, j);
      MediaIsKept(m, j);
      var b := NodeKeptHas(m, 0, j);
      assert AptIs(kept[a], kept[b].payloadType);
    }
  }

  lemma ReducingKeepsLinks(cs: seq<Codec>, e: Estimation)
    requires AptsNameMediaIn(cs)
    ensures AptsNameMediaIn(ReducedCodecs(cs, e))
  {
    var r := ReducedCodecs(cs, e);
    forall i | 0 <= i < |r| && IsRtx(r[i])
      ensures exists j :: 0 <= j < |r| && !IsRtx(r[j]) && AptIs(r[i], r[j].payloadType)
    {
      hide IsRtx, AptIs;
      ComesFromKeeps(r[i], cs[i]);
      var j :| 0 <= j < |cs| && !IsRtx(cs[j]) && AptIs(cs[i], cs[j].payloadType);
      ComesFromKeeps(r[j], cs[j]);
    }
  }

  /** Every RTX codec of a consumer protects a media codec of that consumer. */
  lemma ConsumerRtxIsLinked(h: H264, c: RtpParameters, remote: RtpCapabilities, pipe: bool, enableRtx: bool, draw: Draw,
                            out: RtpParameters)
    requires IsConsumer(h, c, remote, pipe, enableRtx, draw, out) && NamesMedia(c.codecs)
    ensures AptsNameMediaIn(out.codecs)
  {
    hide NamesMedia, AptsNameMediaIn, IsRtx, NodeKept, MatchedCodecs;
    var m := MatchedCodecs(h, c.codecs, remote.codecs, enableRtx);
    NamesMediaIsInherited(h, c.codecs, remote.codecs, enableRtx);
    KeptIsClosed(m);
    ReducingKeepsLinks(NodeKept(m, 0), EstimationOf(out.headerExtensions));
  }

  /**
   A feedback that a consumer may keep: not generic NACK without RTX, transport-cc only with the
   extension for it, and REMB only with the absolute send time and without that extension.
   */
  ghost predicate FeedbackMayStay(fb: Feedback, enableRtx: bool, exts: seq<Extension>) {
    && !(!enableRtx && fb.ftype == Nack && fb.parameter == "")
    && (fb.ftype == TransportCc ==> exists e :: e in exts && e.uri == TransportWideCc)
    && (fb.ftype == GoogRemb ==>
      && (exists e :: e in exts && e.uri == AbsSendTime)
      && (forall e :: e in exts ==> e.uri != TransportWideCc))
  }

  lemma SurvivingMeans(fb: Feedback, enableRtx: bool, exts: seq<Extension>)
    ensures SurvivesRtx(fb, enableRtx) && SurvivesEstimation(fb, EstimationOf(exts)) <==>
      FeedbackMayStay(fb, enableRtx, exts)
  {
    UriIsThere(exts, TransportWideCc);
    UriIsThere(exts, AbsSendTime);
    hide PipeChain.HasUri;
  }

  lemma UriIsThere(exts: seq<Extension>, uri: ExtensionUri)
    ensures PipeChain.HasUri(exts, uri) <==> exists e :: e in exts && e.uri == uri
  {
    if e :| e in exts && e.uri == uri {
      var i :| 0 <= i < |exts| && exts[i] == e;
      assert exts[i].uri == uri;
    }
    if PipeChain.HasUri(exts, uri) {
      var i :| 0 <= i < |exts| && exts[i].uri == uri;
      assert exts[i] in exts;
    }
  }

  /** Feedback is filtered item by item, so that what is kept keeps its order. */
  lemma {:induction false} FilteredInOrder(a: seq<Feedback>, b: seq<Feedback>, enableRtx: bool, e: Estimation)
    ensures RtxFeedback(a + b, enableRtx) == RtxFeedback(a, enableRtx) + RtxFeedback(b, enableRtx)
    ensures EstimationFeedback(a + b, e) == EstimationFeedback(a, e) + EstimationFeedback(b, e)
  {
    hide SurvivesRtx, SurvivesEstimation;
    if a == [] {
      assert a + b == b;
    } else {
      assert (a + b)[0] == a[0] && (a + b)[1..] == a[1..] + b;
      FilteredInOrder(a[1..], b, enableRtx, e);
    }
  }

  /**
   A consumer gets the header extensions that the remote side has under the same id, in the
   order in which they are offered.
   */
  lemma ConsumerExtensions(h: H264, c: RtpParameters, remote: RtpCapabilities, pipe: bool, enableRtx: bool, draw: Draw,
                           out: RtpParameters, n: nat)
    requires IsConsumer(h, c, remote, pipe, enableRtx, draw, out) && n <= |c.headerExtensions|
    ensures forall e :: e in out.headerExtensions <==>
      && e in c.headerExtensions
      && exists cap :: cap in remote.headerExtensions && cap.uri == e.uri && cap.preferredId == e.id
    ensures out.headerExtensions == ReceivableExtensions(c.headerExtensions[..n], remote.headerExtensions)
                                    + ReceivableExtensions(c.headerExtensions[n..], remote.headerExtensions)
  {
    hide ConsumerCodecs, ConsumerEncoding;
    assert c.headerExtensions == c.headerExtensions[..n] + c.headerExtensions[n..];
    ReceivableInOrder(c.headerExtensions[..n], c.headerExtensions[n..], remote.headerExtensions);
    forall e
      ensures ExtensionReceivable(remote.headerExtensions, e) <==>
        exists cap :: cap in remote.headerExtensions && cap.uri == e.uri && cap.preferredId == e.id
    {
      if cap :| cap in remote.headerExtensions && cap.uri == e.uri && cap.preferredId == e.id {
        var i :| 0 <= i < |remote.headerExtensions| && remote.headerExtensions[i] == cap;
        assert ExtensionReceivable(remote.headerExtensions, e);
      }
      if ExtensionReceivable(remote.headerExtensions, e) {
        var i :| 0 <= i < |remote.headerExtensions|
          && remote.headerExtensions[i].preferredId == e.id && remote.headerExtensions[i].uri == e.uri;
        assert remote.headerExtensions[i] in remote.headerExtensions;
      }
    }
  }

  lemma {:induction false} ReceivableInOrder(a: seq<Extension>, b: seq<Extension>, remote: seq<ExtensionCapability>)
    ensures ReceivableExtensions(a + b, remote) == ReceivableExtensions(a, remote) + ReceivableExtensions(b, remote)
  {
    hide ExtensionReceivable;
    if a == [] {
      assert a + b == b;
    } else {
      assert (a + b)[0] == a[0] && (a + b)[1..] == a[1..] + b;
      ReceivableInOrder(a[1..], b, remote);
    }
  }

  /** Codec `k` of a consumer, traced back to the consumable one. */
  lemma ConsumerCodecAt(h: H264, c: RtpParameters, remote: RtpCapabilities, pipe: bool, enableRtx: bool, draw: Draw,
                        out: RtpParameters, k: nat) returns (i: nat)
    requires IsConsumer(h, c, remote, pipe, enableRtx, draw, out) && k < |out.codecs|
    ensures i < |c.codecs| && Receivable(h, remote.codecs, c.codecs[i]) && (enableRtx || !IsRtx(c.codecs[i]))
    ensures ComesFrom(out.codecs[k], c.codecs[i])
    ensures forall fb :: fb in out.codecs[k].rtcpFeedback <==>
      && fb in remote.codecs[RemoteIndex(h, remote.codecs, c.codecs[i]).value].rtcpFeedback
      && FeedbackMayStay(fb, enableRtx, out.headerExtensions)
  {
    hide IsRtx, NodeKept, MatchedCodecs, NodeKeeps, SurvivesRtx, SurvivesEstimation, EstimationOf, FeedbackMayStay;
    forall fb
      ensures SurvivesRtx(fb, enableRtx) && SurvivesEstimation(fb, EstimationOf(out.headerExtensions)) <==>
        FeedbackMayStay(fb, enableRtx, out.headerExtensions)
    {
      SurvivingMeans(fb, enableRtx, out.headerExtensions);
    }
    var m := MatchedCodecs(h, c.codecs, remote.codecs, enableRtx);
    var j := NodeKeptAt(m, 0, k);
    i := MatchedAt(h, c.codecs, remote.codecs, enableRtx, j);
  }

  /**
   Coherence of a consumer. Without RTX there is neither an RTX codec nor generic
   NACK. Feedback for transport-cc or REMB occurs only with its extension negotiated,
   and never both. RTX SSRCs are there iff an RTX codec is.
   */
  lemma ConsumerIsCoherent(h: H264, c: RtpParameters, remote: RtpCapabilities, pipe: bool, enableRtx: bool, draw: Draw,
                           out: RtpParameters)
    requires IsConsumer(h, c, remote, pipe, enableRtx, draw, out)
    ensures !enableRtx ==> !HasRtx(out.codecs)
    ensures !enableRtx ==> forall k, fb :: 0 <= k < |out.codecs| && fb in out.codecs[k].rtcpFeedback ==>
      !(fb.ftype == Nack && fb.parameter == "")
    ensures forall k, fb :: 0 <= k < |out.codecs| && fb in out.codecs[k].rtcpFeedback ==>
      && (fb.ftype == TransportCc ==> PipeChain.HasUri(out.headerExtensions, TransportWideCc))
      && (fb.ftype == GoogRemb ==> PipeChain.HasUri(out.headerExtensions, AbsSendTime)
                                   && !PipeChain.HasUri(out.headerExtensions, TransportWideCc))
    ensures |out.encodings| == (if pipe then |c.encodings| else 1)
    ensures forall e :: e in out.encodings ==> e.rtxSsrc.Some? == HasRtx(out.codecs)
    ensures out.codecs != [] && !IsRtx(out.codecs[0])
  {
    hide IsRtx, ConsumerCodecs, PipeChain.HasUri;
    UriIsThere(out.headerExtensions, TransportWideCc);
    UriIsThere(out.headerExtensions, AbsSendTime);
    forall k | 0 <= k < |out.codecs|
      ensures enableRtx || !IsRtx(out.codecs[k])
      ensures forall fb :: fb in out.codecs[k].rtcpFeedback ==> FeedbackMayStay(fb, enableRtx, out.headerExtensions)
    {
      var i := ConsumerCodecAt(h, c, remote, pipe, enableRtx, draw, out, k);
      ComesFromKeeps(out.codecs[k], c.codecs[i]);
    }
    FirstIsMedia(h, c, remote, enableRtx, out);
  }

  lemma FirstIsMedia(h: H264, c: RtpParameters, remote: RtpCapabilities, enableRtx: bool, out: RtpParameters)
    requires var kept := ConsumerCodecs(h, c.codecs, remote.codecs, enableRtx);
             kept.Some? && out.codecs == ReducedCodecs(kept.value, EstimationOf(out.headerExtensions))
    ensures out.codecs != [] && !IsRtx(out.codecs[0])
  {
    var kept := ConsumerCodecs(h, c.codecs, remote.codecs, enableRtx).value;
    assert |out.codecs| == |kept|;
  }

  /** Every media codec that the remote side can receive is there, and every RTX codec together with its media codec. */
  lemma ConsumerHasAll(h: H264, c: RtpParameters, remote: RtpCapabilities, pipe: bool, enableRtx: bool, draw: Draw,
                       out: RtpParameters, i: nat, j: nat) returns (k: nat)
    requires IsConsumer(h, c, remote, pipe, enableRtx, draw, out) && NamesMedia(c.codecs)
    requires i < |c.codecs| && j < |c.codecs|
    requires Receivable(h, remote.codecs, c.codecs[i]) && Receivable(h, remote.codecs, c.codecs[j])
    requires IsRtx(c.codecs[i]) ==> enableRtx && !IsRtx(c.codecs[j]) && Protects(c.codecs, i, j)
    ensures k < |out.codecs| && ComesFrom(out.codecs[k], c.codecs[i])
  {
    hide IsRtx, NodeKept, MatchedCodecs, NodeKeeps, Receivable, AptIs;
    var m := MatchedCodecs(h, c.codecs, remote.codecs, enableRtx);
    NamesMediaIsInherited(h, c.codecs, remote.codecs, enableRtx);
    BothAreTheFilter(m);
    var x := MatchedHas(h, c.codecs, remote.codecs, enableRtx, i);
    ComesFromKeeps(m[x], c.codecs[i]);
    if IsRtx(c.codecs[i]) {
      var y := MatchedHas(h, c.codecs, remote.codecs, enableRtx, j);
      ComesFromKeeps(m[y], c.codecs[j]);
      assert Protects(m, x, y);
    }
    k := NodeKeptHas(m, 0, x);
  }

  predicate HasMode(e: Encoding) {
    e.scalabilityMode.Some? && e.scalabilityMode.value != ""
  }

  /** The mode of the first encoding that has one, an empty text being none. */
  lemma {:induction false} ProducerModeIs(es: seq<Encoding>)
    ensures (forall i :: 0 <= i < |es| ==> !HasMode(es[i])) ==> ProducerMode(es) == None
    ensures forall i :: 0 <= i < |es| && HasMode(es[i]) && (forall j :: 0 <= j < i ==> !HasMode(es[j])) ==>
      ProducerMode(es) == es[i].scalabilityMode
  {
    if es != [] {
      ProducerModeIs(es[1..]);
      assert forall i :: 0 < i < |es| ==> es[i] == es[1..][i - 1];
      forall i | 0 < i < |es| && HasMode(es[i]) && (forall j :: 0 <= j < i ==> !HasMode(es[j]))
        ensures ProducerMode(es) == es[i].scalabilityMode
      {
        assert HasMode(es[1..][i - 1]) && !HasMode(es[0]);
        assert forall j :: 0 <= j < i - 1 ==> !HasMode(es[1..][j]);
      }
    }
  }

  /**
   The single encoding of a consumer. Its RTX stream has the next SSRC; up to 99 simulcast
   encodings become as many spatial layers, with the temporal layers of the producer;
   its maximum bitrate is the greatest of the encodings'.
   */
  lemma ConsumerStream(es: seq<Encoding>, ssrc: int, rtx: bool)
    ensures var e := ConsumerEncoding(es, ssrc, rtx);
            var layers := ScalabilityModes.ParseNode(e.scalabilityMode);
            var produced := ScalabilityModes.ParseNode(ProducerMode(es));
            && e.ssrc == Some(ssrc) && e.rtxSsrc == (if rtx then Some(ssrc + 1) else None)
            && e.rid.None? && e.codecPayloadType.None? && !e.dtx
            && (|es| <= 1 ==> e.scalabilityMode == ProducerMode(es))
            && (2 <= |es| <= 99 ==> layers == ScalabilityModes.Layers(|es|, produced.temporal, false))
            && (|es| > 99 ==> layers == ScalabilityModes.Layers(1, 1, false))
            && (e.maxBitrate.Some? <==> exists i :: 0 <= i < |es| && Bitrate(es[i]) > 0)
            && (e.maxBitrate.Some? ==>
              && (forall i :: 0 <= i < |es| ==> Bitrate(es[i]) <= e.maxBitrate.value)
              && (exists i :: 0 <= i < |es| && es[i].maxBitrate == e.maxBitrate))
  {
    hide ScalabilityModes.Captures, ScalabilityModes.SimulcastMode, MaxBitrate;
    ScalabilityModes.ParsedLayersAreSmall(ProducerMode(es));
    if |es| > 1 {
      ScalabilityModes.SimulcastLayers(|es|, ScalabilityModes.ParseNode(ProducerMode(es)).temporal);
    }
  }
}
