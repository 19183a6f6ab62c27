/**
 Whole RTP parameters through producers and pipes: what a producer offers to its
 consumers, what a pipe consumer carries to the next router, and what any chain of
 such hops conserves.
 */
module PipeChain {
  import opened Wrappers
  import opened Codecs
  import opened Rtp
  import opened RouterCapabilities
  import opened ProducerMapping
  import opened PipeCodecs
  import opened SupportedCapabilities
  import opened WorkerValidation
  import opened WorkerStreams
  import opened PipeAcceptance

  // ----- Header extensions

  predicate HasUri(exts: seq<Extension>, uri: ExtensionUri) {
    exists i :: 0 <= i < |exts| && exts[i].uri == uri
  }

  /** Usable in consumers and, for abs-capture-time, negotiated by the producer. */
  predicate Announced(kind: MediaKind, negotiated: seq<Extension>, cap: ExtensionCapability) {
    && cap.kind == kind
    && (cap.direction == SendRecv || cap.direction == SendOnly)
    && (cap.uri == AbsCaptureTime ==> HasUri(negotiated, AbsCaptureTime))
  }

  /** The router's id for the extension. */
  function Announcement(cap: ExtensionCapability): Extension {
    Extension(cap.uri, cap.preferredId, cap.preferredEncrypt)
  }

  function ConsumableExtensions(kind: MediaKind, negotiated: seq<Extension>, caps: seq<ExtensionCapability>)
    : seq<Extension>
  {
    if caps == [] then []
    else
      var rest := ConsumableExtensions(kind, negotiated, caps[1..]);
      if Announced(kind, negotiated, caps[0]) then
        [Announcement(caps[0])] + rest
      else rest
  }

  /** `cap` lets consumers of that kind have the extension `e`, which must be negotiated if it is abs-capture-time. */
  ghost predicate Offers(cap: ExtensionCapability, kind: MediaKind, negotiated: seq<Extension>, e: Extension) {
    && e.uri == cap.uri && e.id == cap.preferredId && e.encrypt == cap.preferredEncrypt
    && cap.kind == kind && cap.direction != RecvOnly && cap.direction != Inactive
    && (e.uri == AbsCaptureTime ==> exists n :: n in negotiated && n.uri == AbsCaptureTime)
  }

  lemma AnnouncingOffers(kind: MediaKind, negotiated: seq<Extension>, cap: ExtensionCapability, e: Extension)
    ensures Offers(cap, kind, negotiated, e) <==> Announced(kind, negotiated, cap) && e == Announcement(cap)
  {
    if n :| n in negotiated && n.uri == AbsCaptureTime {
      var i :| 0 <= i < |negotiated| && negotiated[i] == n;
      assert negotiated[i].uri == AbsCaptureTime;
    }
  }

  /** Exactly those extensions are offered, under the router's ids. */
  lemma OfferedExtensions(kind: MediaKind, negotiated: seq<Extension>, caps: seq<ExtensionCapability>)
    ensures forall e :: e in ConsumableExtensions(kind, negotiated, caps) <==>
      exists cap :: cap in caps && Offers(cap, kind, negotiated, e)
  {
    hide Announced, Announcement, Offers;
    AnnouncedExtensions(kind, negotiated, caps);
    forall cap, e
      ensures Offers(cap, kind, negotiated, e) <==> Announced(kind, negotiated, cap) && e == Announcement(cap)
    {
      AnnouncingOffers(kind, negotiated, cap, e);
    }
  }

  /** They are offered in the order of the capabilities. */
  lemma {:induction false} OfferedInOrder(kind: MediaKind, negotiated: seq<Extension>,
                                          a: seq<ExtensionCapability>, b: seq<ExtensionCapability>)
    ensures ConsumableExtensions(kind, negotiated, a + b) ==
      ConsumableExtensions(kind, negotiated, a) + ConsumableExtensions(kind, negotiated, b)
  {
    hide Announced;
    if a == [] {
      assert a + b == b;
    } else {
      assert (a + b)[0] == a[0] && (a + b)[1..] == a[1..] + b;
      OfferedInOrder(kind, negotiated, a[1..], b);
    }
  }

  lemma {:induction false} AnnouncedExtensions(kind: MediaKind, negotiated: seq<Extension>,
                                               caps: seq<ExtensionCapability>)
    ensures forall e :: e in ConsumableExtensions(kind, negotiated, caps) <==>
      exists cap :: cap in caps && Announced(kind, negotiated, cap) && e == Announcement(cap)
  {
    hide Announced;
    if caps != [] {
      AnnouncedExtensions(kind, negotiated, caps[1..]);
      forall e | exists cap :: cap in caps && Announced(kind, negotiated, cap) && e == Announcement(cap)
        ensures e in ConsumableExtensions(kind, negotiated, caps)
      {
        var cap :| cap in caps && Announced(kind, negotiated, cap) && e == Announcement(cap);
        assert cap == caps[0] || cap in caps[1..];
      }
    }
  }

  lemma AnnouncedUri(kind: MediaKind, negotiated: seq<Extension>, caps: seq<ExtensionCapability>, uri: ExtensionUri)
    ensures HasUri(ConsumableExtensions(kind, negotiated, caps), uri) <==>
      exists cap :: cap in caps && cap.uri == uri && Announced(kind, negotiated, cap)
  {
    hide Announced, ConsumableExtensions;
    AnnouncedExtensions(kind, negotiated, caps);
    var all := ConsumableExtensions(kind, negotiated, caps);
    if HasUri(all, uri) {
      var i :| 0 <= i < |all| && all[i].uri == uri;
      assert all[i] in all;
    }
    if exists cap :: cap in caps && cap.uri == uri && Announced(kind, negotiated, cap) {
      var cap :| cap in caps && cap.uri == uri && Announced(kind, negotiated, cap);
      assert Announcement(cap) in all;
    }
  }

  lemma {:induction false} SameExtensions(kind: MediaKind, a: seq<Extension>, b: seq<Extension>,
                                          caps: seq<ExtensionCapability>)
    requires forall cap :: cap in caps ==> Announced(kind, a, cap) == Announced(kind, b, cap)
    ensures ConsumableExtensions(kind, a, caps) == ConsumableExtensions(kind, b, caps)
  {
    hide Announced;
    if caps != [] {
      assert caps[0] in caps;
      SameExtensions(kind, a, b, caps[1..]);
    }
  }

  predicate CrossesPipe(uri: ExtensionUri) {
    uri != Mid && uri != AbsSendTime && uri != TransportWideCc
  }

  function Crossing(exts: seq<Extension>): (r: seq<Extension>)
    ensures forall e :: e in r <==> e in exts && CrossesPipe(e.uri)
  {
    if exts == [] then []
    else if CrossesPipe(exts[0].uri) then [exts[0]] + Crossing(exts[1..])
    else Crossing(exts[1..])
  }

  predicate SortedById(s: seq<Extension>) {
    forall i, j :: 0 <= i < j < |s| ==> s[i].id <= s[j].id
  }

  /** Inserts an extension after those whose id is not greater. */
  function InsertById(e: Extension, s: seq<Extension>): (r: seq<Extension>)
    ensures multiset(r) == multiset(s) + multiset{e}
  {
    if s == [] then [e]
    else if e.id < s[0].id then [e] + s
    else
      assert s == [s[0]] + s[1..];
      [s[0]] + InsertById(e, s[1..])
  }

  /** A stable sort by id. */
  function SortById(s: seq<Extension>): (r: seq<Extension>)
    ensures multiset(r) == multiset(s)
  {
    if s == [] then []
    else
      assert s == s[..|s| - 1] + [s[|s| - 1]];
      InsertById(s[|s| - 1], SortById(s[..|s| - 1]))
  }

  lemma {:induction false} InsertKeepsSorted(e: Extension, s: seq<Extension>)
    requires SortedById(s)
    ensures SortedById(InsertById(e, s))
  {
    if s != [] && e.id >= s[0].id {
      InsertKeepsSorted(e, s[1..]);
      var rest := InsertById(e, s[1..]);
      forall i | 0 <= i < |rest|
        ensures s[0].id <= rest[i].id
      {
        assert rest[i] in multiset(rest);
        assert rest[i] == e || rest[i] in s[1..];
      }
    }
  }

  /** Extensions of a pipe consumer come out sorted by id. */
  lemma {:induction false} SortSorts(s: seq<Extension>)
    ensures SortedById(SortById(s))
  {
    if s != [] {
      SortSorts(s[..|s| - 1]);
      InsertKeepsSorted(s[|s| - 1], SortById(s[..|s| - 1]));
    }
  }

  /** Those with a given id. */
  function WithId(s: seq<Extension>, id: int): seq<Extension> {
    if s == [] then []
    else if s[0].id == id then [s[0]] + WithId(s[1..], id)
    else WithId(s[1..], id)
  }

  lemma {:induction false} WithIdConcat(a: seq<Extension>, b: seq<Extension>, id: int)
    ensures WithId(a + b, id) == WithId(a, id) + WithId(b, id)
  {
    if a == [] {
      assert a + b == b;
    } else {
      assert (a + b)[0] == a[0] && (a + b)[1..] == a[1..] + b;
      WithIdConcat(a[1..], b, id);
    }
  }

  lemma {:induction false} NoneWithId(s: seq<Extension>, id: int)
    requires forall i :: 0 <= i < |s| ==> s[i].id != id
    ensures WithId(s, id) == []
  {
    if s != [] {
      NoneWithId(s[1..], id);
    }
  }

  lemma {:induction false} InsertIsStable(e: Extension, s: seq<Extension>, id: int)
    requires SortedById(s)
    ensures WithId(InsertById(e, s), id) == WithId(s, id) + (if e.id == id then [e] else [])
  {
    if s == [] {
    } else if e.id < s[0].id {
      assert InsertById(e, s)[1..] == s;
      if e.id == id { NoneWithId(s, id); }
    } else {
      InsertIsStable(e, s[1..], id);
      assert InsertById(e, s)[1..] == InsertById(e, s[1..]);
    }
  }

  /** Extensions with the same id stay in the order in which they were. */
  lemma {:induction false} SortIsStable(s: seq<Extension>, id: int)
    ensures WithId(SortById(s), id) == WithId(s, id)
  {
    if s != [] {
      var before, last := s[..|s| - 1], s[|s| - 1];
      assert s == before + [last];
      assert SortById(s) == InsertById(last, SortById(before));
      hide SortById, InsertById, SortedById;
      SortIsStable(before, id);
      SortSorts(before);
      InsertIsStable(last, SortById(before), id);
      WithIdConcat(before, [last], id);
      assert WithId([last], id) == if last.id == id then [last] else [];
    }
  }

  /** Extensions of a pipe consumer; `dd` is the cached dependency descriptor. */
  function PipeExtensions(exts: seq<Extension>, dd: Option<Extension>): seq<Extension> {
    if dd.None? then Crossing(exts) else SortById(Crossing(exts) + [dd.value])
  }

  /** A pipe consumer carries the extensions that may cross and the dependency descriptor, sorted by id. */
  lemma PipeExtensionsAre(exts: seq<Extension>, dd: Option<Extension>)
    ensures forall e :: e in PipeExtensions(exts, dd) <==>
      (e in exts && e.uri !in {Mid, AbsSendTime, TransportWideCc}) || dd == Some(e)
    ensures dd.Some? ==> SortedById(PipeExtensions(exts, dd))
  {
    if dd.Some? {
      var all := Crossing(exts) + [dd.value];
      SortSorts(all);
      forall e
        ensures e in SortById(all) <==> e in all
      {
        assert e in SortById(all) <==> e in multiset(SortById(all));
        assert e in all <==> e in multiset(all);
      }
    }
  }

  ghost predicate IsDescriptor(dd: Option<Extension>) {
    dd.Some? ==> dd.value.uri == DependencyDescriptor
  }

  lemma CaptureTimeCrosses(exts: seq<Extension>, dd: Option<Extension>)
    requires IsDescriptor(dd)
    ensures HasUri(PipeExtensions(exts, dd), AbsCaptureTime) == HasUri(exts, AbsCaptureTime)
  {
    var pipe := PipeExtensions(exts, dd);
    PipeExtensionsAre(exts, dd);
    hide PipeExtensions;
    if HasUri(exts, AbsCaptureTime) {
      var i :| 0 <= i < |exts| && exts[i].uri == AbsCaptureTime;
      assert exts[i] in pipe;
    }
    if HasUri(pipe, AbsCaptureTime) {
      var i :| 0 <= i < |pipe| && pipe[i].uri == AbsCaptureTime;
      assert pipe[i] in exts;
    }
  }

  /** Offering extensions again after a pipe offers the same ones. */
  lemma ExtensionFixpoint(kind: MediaKind, negotiated: seq<Extension>, caps: seq<ExtensionCapability>,
                          dd: Option<Extension>)
    requires IsDescriptor(dd)
    ensures var exts := ConsumableExtensions(kind, negotiated, caps);
            ConsumableExtensions(kind, PipeExtensions(exts, dd), caps) == exts
  {
    var exts := ConsumableExtensions(kind, negotiated, caps);
    var pipe := PipeExtensions(exts, dd);
    CaptureTimeCrosses(exts, dd);
    AnnouncedUri(kind, negotiated, caps, AbsCaptureTime);
    assert HasUri(pipe, AbsCaptureTime) == HasUri(exts, AbsCaptureTime);
    forall cap | cap in caps
      ensures Announced(kind, pipe, cap) == Announced(kind, negotiated, cap)
    {
      hide HasUri;
      if cap.uri == AbsCaptureTime && Announced(kind, negotiated, cap) {
        assert HasUri(exts, AbsCaptureTime);
      }
    }
    SameExtensions(kind, pipe, negotiated, caps);
  }

  // ----- Encodings

  const DEFAULT_ENCODING: Encoding := Encoding(None, None, None, None, false, None, None)

  /** An encoding as offered to consumers: only its own SSRC is left to identify it. */
  function Mangled(e: Encoding, ssrc: int): Encoding {
    e.(ssrc := Some(ssrc), rid := None, rtxSsrc := None, codecPayloadType := None)
  }

  function ConsumableEncodings(es: seq<Encoding>, base: int): (r: seq<Encoding>)
    ensures |r| == |es| && forall i :: 0 <= i < |es| ==> r[i] == Mangled(es[i], base + i)
  {
    if es == [] then [] else ConsumableEncodings(es[..|es| - 1], base) + [Mangled(es[|es| - 1], base + |es| - 1)]
  }

  function PipeEncoding(e: Encoding, enableRtx: bool, ssrc: int, rtxSsrc: int): Encoding {
    e.(ssrc := Some(ssrc), rtxSsrc := if enableRtx then Some(rtxSsrc) else None)
  }

  function PipeEncodings(es: seq<Encoding>, enableRtx: bool, base: int, baseRtx: int): (r: seq<Encoding>)
    ensures |r| == |es|
    ensures forall i :: 0 <= i < |es| ==> r[i] == PipeEncoding(es[i], enableRtx, base + i, baseRtx + i)
  {
    if es == [] then []
    else
      var n := |es| - 1;
      PipeEncodings(es[..n], enableRtx, base, baseRtx) + [PipeEncoding(es[n], enableRtx, base + n, baseRtx + n)]
  }

  // ----- Producing

  predicate IsGiven(cname: Option<string>) {
    cname.Some? && cname.value != ""
  }

  /** The CNAME of a producer: the one its transport has settled on, or else its own, or else a random one. */
  function ChosenCname(shared: Option<string>, own: Option<string>, random: string): string {
    if IsGiven(shared) then shared.value else if IsGiven(own) then own.value else random
  }

  /** What `produce` fills in before negotiating. Pipe transports settle on no CNAME. */
  function Prepared(params: RtpParameters, shared: Option<string>, random: string): RtpParameters {
    params.(
    encodings := if params.encodings == [] then [DEFAULT_ENCODING] else params.encodings,
    cname := Some(ChosenCname(shared, params.cname, random)))
  }

  /** Without encodings a producer gets one with nothing in it; apart from the CNAME nothing else is filled in. */
  lemma PreparedIs(params: RtpParameters, shared: Option<string>, random: string)
    ensures var p := Prepared(params, shared, random);
            && p == params.(encodings := p.encodings, cname := p.cname)
            && (params.encodings != [] ==> p.encodings == params.encodings)
            && (params.encodings == [] ==> p.encodings == [Encoding(None, None, None, None, false, None, None)])
  {
  }

  /** The CNAMEs of producers made one after the other on a transport, given the one it settled on before. */
  function Cnames(shared: Option<string>, calls: seq<(RtpParameters, string)>): (r: seq<Option<string>>)
    ensures |r| == |calls|
    decreases |calls|
  {
    if calls == [] then []
    else
      var cname := Prepared(calls[0].0, shared, calls[0].1).cname;
      [cname] + Cnames(cname, calls[1..])
  }

  lemma {:induction false} CnameIsShared(shared: string, calls: seq<(RtpParameters, string)>, i: nat)
    requires shared != "" && i < |calls|
    ensures Cnames(Some(shared), calls)[i] == Some(shared)
  {
    if i > 0 {
      CnameIsShared(shared, calls[1..], i - 1);
    }
  }

  /** All producers of a transport get the CNAME of the first one, or a random one if that has none. */
  lemma {:induction false} OneCname(calls: seq<(RtpParameters, string)>, i: nat)
    requires i < |calls| && calls[0].1 != ""
    ensures var own := calls[0].0.cname;
            Cnames(None, calls)[i] == if own.Some? && own.value != "" then own else Some(calls[0].1)
  {
    var first := Cnames(None, calls)[0].value;
    if i > 0 {
      CnameIsShared(first, calls[1..], i - 1);
    }
  }

  /** `out` are the consumable codecs of a producer. */
  ghost predicate CodecsProduced(h: H264, codecs: seq<Codec>, caps: seq<Codec>, out: seq<Codec>) {
    exists entries ::
      && IsMapping(h, codecs, caps, entries)
      && ConsumableCodecs(AdjustedCodecs(h, codecs, caps), caps, entries) == Some(out)
  }

  /** `out` is what the producer made of `params` offers to consumers. */
  ghost predicate IsProduced(h: H264, kind: MediaKind, params: RtpParameters, caps: RtpCapabilities, base: int,
                             out: RtpParameters)
  {
    && CodecsProduced(h, params.codecs, caps.codecs, out.codecs)
    && out.headerExtensions == ConsumableExtensions(kind, params.headerExtensions, caps.headerExtensions)
    && out.encodings == ConsumableEncodings(params.encodings, base)
    && out.cname == params.cname
    && out.reducedSize
    && out.msid == params.msid
  }

  method GetConsumableExtensions(kind: MediaKind, negotiated: seq<Extension>, caps: seq<ExtensionCapability>)
    returns (exts: seq<Extension>)
    ensures exts == ConsumableExtensions(kind, negotiated, caps)
  {
    hide Announced;
    exts := [];
    assert caps[0..] == caps;
    for i := 0 to |caps|
      invariant ConsumableExtensions(kind, negotiated, caps) == exts + ConsumableExtensions(kind, negotiated, caps[i..])
    {
      assert caps[i..][0] == caps[i] && caps[i..][1..] == caps[i + 1..];
      if Announced(kind, negotiated, caps[i]) {
        exts := exts + [Extension(caps[i].uri, caps[i].preferredId, caps[i].preferredEncrypt)];
      }
    }
  }

  method GetConsumableEncodings(es: seq<Encoding>, base: int) returns (r: seq<Encoding>)
    ensures r == ConsumableEncodings(es, base)
  {
    hide Mangled;
    r := [];
    var mappedSsrc := base;
    for i := 0 to |es|
      invariant |r| == i && mappedSsrc == base + i
      invariant forall j :: 0 <= j < i ==> r[j] == Mangled(es[j], base + j)
    {
      r := r + [Mangled(es[i], mappedSsrc)];
      mappedSsrc := mappedSsrc + 1;
    }
    assert r == ConsumableEncodings(es, base);
  }

  /** Mapping and consumable parameters, as `produce` chains them; `settled` is the transport's CNAME afterwards. */
  method Produce(h: H264, kind: MediaKind, params: RtpParameters, caps: RtpCapabilities, base: int, pipe: bool,
                 shared: Option<string>, random: string)
    returns (r: Result<RtpParameters, MappingError>, settled: Option<string>)
    requires pipe ==> shared.None?
    ensures r.Success? <==> Mapped(h, params.codecs, caps.codecs)
    ensures r.Success? ==> IsProduced(h, kind, Prepared(params, shared, random), caps, base, r.value)
    ensures r.Failure? ==> Explains(h, params.codecs, caps.codecs, r.error)
    ensures settled == if pipe then None else Prepared(params, shared, random).cname
    ensures r.Success? && pipe ==>
      r.value.cname == if params.cname.Some? && params.cname.value != "" then params.cname else Some(random)
    ensures r.Success? && !pipe ==> r.value.cname == settled
  {
    hide Mapped, Explains, AdjustedCodecs, ConsumableCodecs, ConsumableExtensions, ConsumableEncodings;
    var p := params;
    if p.encodings == [] { p := p.(encodings := [DEFAULT_ENCODING]); }
    settled := shared;
    if !pipe {
      if !IsGiven(settled) && IsGiven(p.cname) {
        settled := p.cname;
      } else if !IsGiven(settled) {
        settled := Some(random);
      }
      p := p.(cname := settled);
    } else if !IsGiven(p.cname) {
      p := p.(cname := Some(random));
    }
    assert p == Prepared(params, shared, random);
    var mapping := GetMapping(h, p.codecs, caps.codecs);
    if mapping.Failure? { return Failure(mapping.error), settled; }
    var codecs := GetConsumableCodecs(mapping.value.1, caps.codecs, mapping.value.0);
    ConsumableIsTotal(h, p.codecs, caps.codecs, mapping.value.0);
    var exts := GetConsumableExtensions(kind, p.headerExtensions, caps.headerExtensions);
    var encodings := GetConsumableEncodings(p.encodings, base);
    return Success(RtpParameters(codecs.value, exts, encodings, p.cname, true, p.msid)), settled;
  }

  // ----- Piping

  function PipeParameters(c: RtpParameters, enableRtx: bool, dd: Option<Extension>, base: int, baseRtx: int)
    : RtpParameters
  {
    c.(
    codecs := Piped(c.codecs, enableRtx),
    headerExtensions := PipeExtensions(c.headerExtensions, dd),
    encodings := PipeEncodings(c.encodings, enableRtx, base, baseRtx))
  }

  method GetPipeParameters(c: RtpParameters, enableRtx: bool, dd: Option<Extension>, base: int, baseRtx: int)
    returns (r: RtpParameters)
    ensures r == PipeParameters(c, enableRtx, dd, base, baseRtx)
  {
    var codecs := GetPipeCodecs(c.codecs, enableRtx);
    var exts := Crossing(c.headerExtensions);
    if dd.Some? {
      exts := SortById(exts + [dd.value]);
    }
    var encodings: seq<Encoding> := [];
    for i := 0 to |c.encodings|
      invariant |encodings| == i
      invariant forall j :: 0 <= j < i ==>
        encodings[j] == PipeEncoding(c.encodings[j], enableRtx, base + j, baseRtx + j)
    {
      encodings := encodings + [PipeEncoding(c.encodings[i], enableRtx, base + i, baseRtx + i)];
    }
    assert encodings == PipeEncodings(c.encodings, enableRtx, base, baseRtx);
    return RtpParameters(codecs, exts, encodings, c.cname, c.reducedSize, c.msid);
  }

  /**
   A pipe consumer keeps the number and settings of the encodings, in order, CNAME, reduced
   size and msid; media and RTX SSRCs count up from two bases.
   */
  lemma PipeParametersAre(c: RtpParameters, enableRtx: bool, dd: Option<Extension>, base: int, baseRtx: int)
    ensures var p := PipeParameters(c, enableRtx, dd, base, baseRtx);
            && p.cname == c.cname && p.reducedSize == c.reducedSize && p.msid == c.msid
            && |p.encodings| == |c.encodings|
            && (forall i :: 0 <= i < |c.encodings| ==>
              && p.encodings[i] == c.encodings[i].(ssrc := p.encodings[i].ssrc, rtxSsrc := p.encodings[i].rtxSsrc)
              && p.encodings[i].ssrc == Some(base + i)
              && (enableRtx ==> p.encodings[i].rtxSsrc == Some(baseRtx + i))
              && (!enableRtx ==> p.encodings[i].rtxSsrc == None))
  {
    hide Piped, PipeExtensions;
  }

  predicate IsSsrc(ssrc: Option<int>) {
    ssrc.Some? && 0 < ssrc.value < 0x1_0000_0000
  }

  /** As many encodings as fit above any random base. */
  predicate Countable(es: seq<Encoding>) {
    |es| < 0x1_0000_0000 - 1_000_000_000
  }

  /**
   SSRCs of a pipe consumer. They fit in 32 bits and are pairwise distinct within the
   media streams and within the RTX streams, which are there iff RTX is enabled.
   */
  lemma PipeSsrcs(es: seq<Encoding>, enableRtx: bool, base: int, baseRtx: int)
    requires IsRandomSsrc(base) && IsRandomSsrc(baseRtx) && Countable(es)
    ensures var r := PipeEncodings(es, enableRtx, base, baseRtx);
            && (forall i :: 0 <= i < |r| ==> IsSsrc(r[i].ssrc))
            && (forall i :: 0 <= i < |r| ==> if enableRtx then IsSsrc(r[i].rtxSsrc) else r[i].rtxSsrc.None?)
            && (forall i, j :: 0 <= i < j < |r| ==> r[i].ssrc != r[j].ssrc)
            && (forall i, j :: 0 <= i < j < |r| && enableRtx ==> r[i].rtxSsrc != r[j].rtxSsrc)
  {
  }

  /**
   A media stream and an RTX stream get the same SSRC iff the two random bases are less than
   the number of encodings apart.
   */
  lemma SsrcsCollide(es: seq<Encoding>, base: int, baseRtx: int)
    ensures var r := PipeEncodings(es, true, base, baseRtx);
            (exists i, j :: 0 <= i < |r| && 0 <= j < |r| && r[i].ssrc == r[j].rtxSsrc) <==> -|r| < base - baseRtx < |r|
  {
    var r := PipeEncodings(es, true, base, baseRtx);
    if 0 <= base - baseRtx < |r| {
      assert r[0].ssrc == r[base - baseRtx].rtxSsrc;
    } else if -|r| < base - baseRtx < 0 {
      assert r[baseRtx - base].ssrc == r[0].rtxSsrc;
    }
  }

  // ----- Chains of hops

  /** One hop: pipe consumer options, and the random values drawn on the way. */
  datatype Hop = Hop(enableRtx: bool, base: int, baseRtx: int, mappedBase: int, cname: string)

  function PipeOf(c: RtpParameters, dd: Option<Extension>, hop: Hop): RtpParameters {
    Prepared(PipeParameters(c, hop.enableRtx, dd, hop.base, hop.baseRtx), None, hop.cname)
  }

  /**
   Piping what `c` offers into a router with capabilities `caps` gives a producer that
   offers `next`. The worker takes the codecs and encodings, which it is sent with the pipe
   consumer and again with the pipe producer.
   */
  ghost predicate HopLeads(h: H264, kind: MediaKind, caps: RtpCapabilities, dd: Option<Extension>, hop: Hop,
                           c: RtpParameters, next: RtpParameters)
  {
    && TakesPipe(PipeOf(c, dd, hop).codecs, PipeOf(c, dd, hop).encodings)
    && IsProduced(h, kind, PipeOf(c, dd, hop), caps, hop.mappedBase, next)
  }

  /** `cs[i + 1]` is offered by the router at the end of hop `i`. */
  ghost predicate Chain(h: H264, kind: MediaKind, routers: seq<RtpCapabilities>, dd: Option<Extension>, hops: seq<Hop>,
                        cs: seq<RtpParameters>)
  {
    && |routers| == |hops|
    && |cs| == |hops| + 1
    && forall i :: 0 <= i < |hops| ==> HopLeads(h, kind, routers[i], dd, hops[i], cs[i], cs[i + 1])
  }

  /** The same encodings, renumbered from `base`. */
  function Renumbered(es: seq<Encoding>, base: int): (r: seq<Encoding>)
    ensures |r| == |es| && forall i :: 0 <= i < |es| ==> r[i] == es[i].(ssrc := Some(base + i))
  {
    seq(|es|, i requires 0 <= i < |es| => es[i].(ssrc := Some(base + i)))
  }

  predicate EncodingsOffered(es: seq<Encoding>) {
    es != [] && forall i :: 0 <= i < |es| ==> es[i].rid.None? && es[i].rtxSsrc.None? && es[i].codecPayloadType.None?
  }

  predicate HasCname(c: RtpParameters) {
    c.cname.Some? && c.cname.value != ""
  }

  /** What a hop keeps whatever router it leads to. */
  ghost predicate SameStreamsAs(c: RtpParameters, next: RtpParameters, base: int) {
    next.encodings == Renumbered(c.encodings, base) && next.cname == c.cname && next.msid == c.msid
  }

  lemma HopKeepsStreams(h: H264, kind: MediaKind, caps: RtpCapabilities, dd: Option<Extension>, hop: Hop,
                        c: RtpParameters, next: RtpParameters)
    requires EncodingsOffered(c.encodings) && HasCname(c)
    requires HopLeads(h, kind, caps, dd, hop, c, next)
    ensures SameStreamsAs(c, next, hop.mappedBase)
    ensures EncodingsOffered(next.encodings) && HasCname(next)
  {
    hide CodecsProduced, ConsumableExtensions, PipeExtensions, Piped, TakesPipe;
    var pipe := PipeOf(c, dd, hop);
    assert pipe.encodings == PipeEncodings(c.encodings, hop.enableRtx, hop.base, hop.baseRtx);
    assert next.encodings == Renumbered(c.encodings, hop.mappedBase);
    assert next.encodings != [] by {
      assert |next.encodings| == |c.encodings|;
    }
  }

  /**
   Streams are conserved: along any chain of hops, through any routers, the number,
   order and settings of the encodings stay, only their SSRCs are drawn anew.
   */
  lemma {:induction false} ChainKeepsStreams(h: H264, kind: MediaKind, routers: seq<RtpCapabilities>,
                                             dd: Option<Extension>, hops: seq<Hop>, cs: seq<RtpParameters>, n: nat)
    requires Chain(h, kind, routers, dd, hops, cs) && n < |hops|
    requires EncodingsOffered(cs[0].encodings) && HasCname(cs[0])
    ensures SameStreamsAs(cs[0], cs[n + 1], hops[n].mappedBase)
    ensures EncodingsOffered(cs[n + 1].encodings) && HasCname(cs[n + 1])
  {
    hide HopLeads;
    if n > 0 {
      ChainKeepsStreams(h, kind, routers, dd, hops, cs, n - 1);
    }
    HopKeepsStreams(h, kind, routers[n], dd, hops[n], cs[n], cs[n + 1]);
    assert cs[n + 1].encodings == Renumbered(cs[0].encodings, hops[n].mappedBase);
  }

  /** The SSRCs that consumers see after any number of hops are distinct and fit in 32 bits. */
  lemma ChainSsrcs(h: H264, kind: MediaKind, routers: seq<RtpCapabilities>, dd: Option<Extension>, hops: seq<Hop>,
                   cs: seq<RtpParameters>, n: nat)
    requires Chain(h, kind, routers, dd, hops, cs) && n < |hops|
    requires EncodingsOffered(cs[0].encodings) && HasCname(cs[0])
    requires IsRandomSsrc(hops[n].mappedBase) && Countable(cs[0].encodings)
    ensures var es := cs[n + 1].encodings;
            && |es| == |cs[0].encodings|
            && (forall i :: 0 <= i < |es| ==> IsSsrc(es[i].ssrc))
            && (forall i, j :: 0 <= i < j < |es| ==> es[i].ssrc != es[j].ssrc)
  {
    hide HopLeads, Renumbered;
    ChainKeepsStreams(h, kind, routers, dd, hops, cs, n);
  }

  /** Capabilities under which abs-capture-time can be offered at all. */
  ghost predicate OffersCaptureTime(caps: seq<ExtensionCapability>, kind: MediaKind) {
    exists cap :: cap in caps && cap.uri == AbsCaptureTime && cap.kind == kind
                  && (cap.direction == SendRecv || cap.direction == SendOnly)
  }

  lemma RoutersOfferCaptureTime(kind: MediaKind)
    ensures OffersCaptureTime(SUPPORTED_EXTENSIONS, kind)
  {
    var cap := ExtensionCapability(kind, AbsCaptureTime, 10, false, SendRecv);
    assert cap in Both(AbsCaptureTime, 10);
    assert cap in SUPPORTED_EXTENSIONS;
  }

  /** The extensions that routers let consumers of a kind have. */
  function Sendable(kind: MediaKind): set<ExtensionUri> {
    {Mid, AbsSendTime, AbsCaptureTime, PlayoutDelay, MediasoupPacketId} +
    match kind
    case Audio => {SsrcAudioLevel}
    case Video => {TransportWideCc, VideoOrientation, TimeOffset}
  }

  lemma SupportedIsSendable(cap: ExtensionCapability)
    requires cap in SUPPORTED_EXTENSIONS && (cap.direction == SendRecv || cap.direction == SendOnly)
    ensures cap.uri in Sendable(cap.kind)
  {
  }

  lemma SendableIsSupported(kind: MediaKind, uri: ExtensionUri) returns (cap: ExtensionCapability)
    requires uri in Sendable(kind)
    ensures cap in SUPPORTED_EXTENSIONS && cap.kind == kind && cap.uri == uri && cap.direction == SendRecv
  {
    var id := match uri
      case Mid => 1
      case AbsSendTime => 4
      case TransportWideCc => 5
      case SsrcAudioLevel => 6
      case VideoOrientation => 8
      case TimeOffset => 9
      case AbsCaptureTime => 10
      case PlayoutDelay => 11
      case _ => 12;
    cap := ExtensionCapability(kind, uri, id, false, SendRecv);
  }

  /** What consumers on real routers are offered: exactly these extensions, abs-capture-time only if negotiated. */
  lemma RoutersOffer(kind: MediaKind, negotiated: seq<Extension>, uri: ExtensionUri)
    ensures HasUri(ConsumableExtensions(kind, negotiated, SUPPORTED_EXTENSIONS), uri) <==>
      uri in Sendable(kind) && (uri == AbsCaptureTime ==> HasUri(negotiated, AbsCaptureTime))
  {
    hide SUPPORTED_EXTENSIONS, HasUri, Sendable;
    AnnouncedUri(kind, negotiated, SUPPORTED_EXTENSIONS, uri);
    if uri in Sendable(kind) {
      var cap := SendableIsSupported(kind, uri);
    }
    forall cap | cap in SUPPORTED_EXTENSIONS && Announced(kind, negotiated, cap)
      ensures cap.uri in Sendable(kind)
    {
      SupportedIsSendable(cap);
    }
  }

  lemma CaptureTimeIsOffered(kind: MediaKind, negotiated: seq<Extension>, caps: seq<ExtensionCapability>)
    requires OffersCaptureTime(caps, kind)
    ensures HasUri(ConsumableExtensions(kind, negotiated, caps), AbsCaptureTime) <==> HasUri(negotiated, AbsCaptureTime)
  {
    hide HasUri;
    AnnouncedUri(kind, negotiated, caps, AbsCaptureTime);
  }

  /** abs-capture-time is offered after any number of hops iff the original producer negotiated it. */
  lemma {:induction false} ChainKeepsCaptureTime(h: H264, kind: MediaKind, original: RtpParameters,
                                                 caps: RtpCapabilities, base: int,
                                                 routers: seq<RtpCapabilities>, dd: Option<Extension>, hops: seq<Hop>,
                                                 cs: seq<RtpParameters>, n: nat)
    requires IsDescriptor(dd) && Chain(h, kind, routers, dd, hops, cs) && n <= |hops|
    requires OffersCaptureTime(caps.headerExtensions, kind)
    requires forall i :: 0 <= i < |routers| ==> OffersCaptureTime(routers[i].headerExtensions, kind)
    requires IsProduced(h, kind, original, caps, base, cs[0])
    ensures HasUri(cs[n].headerExtensions, AbsCaptureTime) <==> HasUri(original.headerExtensions, AbsCaptureTime)
  {
    hide OffersCaptureTime, HasUri, CodecsProduced, ConsumableExtensions, ConsumableEncodings, PipeExtensions;
    hide PipeEncodings, Piped, TakesPipe;
    if n == 0 {
      CaptureTimeIsOffered(kind, original.headerExtensions, caps.headerExtensions);
    } else {
      ChainKeepsCaptureTime(h, kind, original, caps, base, routers, dd, hops, cs, n - 1);
      assert HopLeads(h, kind, routers[n - 1], dd, hops[n - 1], cs[n - 1], cs[n - 1 + 1]);
      CaptureTimeCrosses(cs[n - 1].headerExtensions, dd);
      CaptureTimeIsOffered(kind, PipeExtensions(cs[n - 1].headerExtensions, dd), routers[n - 1].headerExtensions);
    }
  }

  /** Consumable parameters that are a fixpoint of pipe hops between routers with these capabilities. */
  ghost predicate ParametersAtRest(h: H264, kind: MediaKind, caps: RtpCapabilities, c: RtpParameters) {
    && (exists ms :: AllAtRest(h, ms, caps.codecs) && c.codecs == Pairs(h, ms, caps.codecs))
    && (exists negotiated :: c.headerExtensions == ConsumableExtensions(kind, negotiated, caps.headerExtensions))
    && EncodingsOffered(c.encodings)
    && HasCname(c)
    && c.reducedSize
  }

  /** What any producer offers is at rest. */
  lemma ProducedIsAtRest(h: H264, kind: MediaKind, params: RtpParameters, caps: RtpCapabilities, base: int,
                         out: RtpParameters)
    requires Lawful(h) && WellFormed(caps.codecs) && DistinctMedia(params.codecs)
    requires params.encodings != [] && HasCname(params)
    requires IsProduced(h, kind, params, caps, base, out)
    ensures ParametersAtRest(h, kind, caps, out)
  {
    hide WellFormed, Lawful, AtRest, IsRtx, Mapped, AreEntries, DistinctMedia, ConsumableExtensions;
    assert CodecsProduced(h, params.codecs, caps.codecs, out.codecs);
    var entries :| IsMapping(h, params.codecs, caps.codecs, entries)
      && ConsumableCodecs(AdjustedCodecs(h, params.codecs, caps.codecs), caps.codecs, entries) == Some(out.codecs);
    ConsumableAtRest(h, params.codecs, caps.codecs, entries);
    assert |out.encodings| == |params.encodings|;
  }

  /** Offered codecs whose media codecs the worker knows. */
  ghost predicate SpokenAtRest(h: H264, codecs: seq<Codec>, caps: seq<Codec>) {
    exists ms :: AllAtRest(h, ms, caps) && Spoken(ms) && codecs == Pairs(h, ms, caps)
  }

  lemma AcceptedIsDistinct(codecs: seq<Codec>)
    requires Accepts(codecs)
    ensures DistinctMedia(codecs)
  {
  }

  /**
   What a producer that the worker took offers repeats a payload type iff two of its
   media codecs are matched to the same capability. Its first media codec stays the first.
   */
  lemma ProducedIsSpoken(h: H264, kind: MediaKind, params: RtpParameters, caps: RtpCapabilities, base: int,
                         out: RtpParameters)
    requires Lawful(h) && WellFormed(caps.codecs) && NoFec(caps.codecs) && Accepts(params.codecs)
    requires IsProduced(h, kind, params, caps, base, out)
    ensures SpokenAtRest(h, out.codecs, caps.codecs)
    ensures DistinctPayloadTypes(out.codecs) <==> DistinctCapabilities(h, params.codecs, caps.codecs)
    ensures SameMime(MediaMime(out.codecs), MediaMime(params.codecs))
  {
    hide WellFormed, Lawful, AtRest, IsRtx, Mapped, AreEntries, DistinctMedia, NoFec, Accepts, DistinctTargets;
    hide DistinctPayloadTypes, DistinctCapabilities, MediaMatched, RestedMedia, MediaMime, KindOf;
    assert CodecsProduced(h, params.codecs, caps.codecs, out.codecs);
    var entries :| IsMapping(h, params.codecs, caps.codecs, entries)
      && ConsumableCodecs(AdjustedCodecs(h, params.codecs, caps.codecs), caps.codecs, entries) == Some(out.codecs);
    AcceptedIsDistinct(params.codecs);
    ConsumableAtRest(h, params.codecs, caps.codecs, entries);
    RestedIsSpoken(h, params.codecs, caps.codecs);
    RestedTargets(h, params.codecs, caps.codecs);
    var ms := RestedMedia(h, params.codecs, caps.codecs);
    DistinctlyOffered(h, ms, caps.codecs);
    PairsMediaMime(h, ms, caps.codecs);
    RestedMediaMime(h, params.codecs, caps.codecs);
  }

  /** The random values of a hop are what the generator returns. */
  ghost predicate Drawn(hop: Hop, es: seq<Encoding>) {
    IsRandomSsrc(hop.base) && IsRandomSsrc(hop.baseRtx) && Countable(es)
  }

  /** With RTX, the bases of media and RTX SSRCs are at least as far apart as there are encodings. */
  predicate Apart(hop: Hop, es: seq<Encoding>) {
    hop.enableRtx ==> hop.base - hop.baseRtx >= |es| || hop.baseRtx - hop.base >= |es|
  }

  lemma PipeStreams(es: seq<Encoding>, hop: Hop)
    requires Drawn(hop, es)
    ensures var r := PipeEncodings(es, hop.enableRtx, hop.base, hop.baseRtx);
            && (forall i :: 0 <= i < |r| ==> Ssrc(r[i]) != 0 && (r[i].rtxSsrc.Some? ==> RtxSsrc(r[i]) != 0))
            && (StreamsDiffer(r) <==> Apart(hop, es))
            && SameLayers(r, es)
  {
    var r := PipeEncodings(es, hop.enableRtx, hop.base, hop.baseRtx);
    hide PipeEncodings;
    if hop.enableRtx && !Apart(hop, es) {
      SsrcsCollide(es, hop.base, hop.baseRtx);
      var i, j :| 0 <= i < |r| && 0 <= j < |r| && r[i].ssrc == r[j].rtxSsrc;
      assert Ssrc(r[i]) == RtxSsrc(r[j]);
    }
  }

  /**
   The worker takes a hop iff what it starts from repeats no payload type, the first media
   codec can carry the streams, and the random SSRC bases are far enough apart.
   */
  lemma HopIsTaken(h: H264, caps: seq<Codec>, dd: Option<Extension>, hop: Hop, c: RtpParameters)
    requires WellFormed(caps) && SpokenAtRest(h, c.codecs, caps) && EncodingsOffered(c.encodings)
    requires Drawn(hop, c.encodings)
    ensures var pipe := PipeOf(c, dd, hop);
            TakesPipe(pipe.codecs, pipe.encodings) <==>
              DistinctPayloadTypes(c.codecs) && Carried(MediaMime(c.codecs), c.encodings) && Apart(hop, c.encodings)
  {
    hide WellFormed, AtRest, Spoken, DistinctTargets, DistinctPayloadTypes, Accepts, Piped, Pairs, Carried, MediaMime;
    hide TakesEncodings, TakesType, StreamsDiffer, Apart, Drawn, PipeExtensions;
    var ms :| AllAtRest(h, ms, caps) && Spoken(ms) && c.codecs == Pairs(h, ms, caps);
    PipedIsAccepted(h, ms, caps, hop.enableRtx);
    DistinctlyOffered(h, ms, caps);
    PipedMediaMime(c.codecs, hop.enableRtx);
    var pipe := PipeOf(c, dd, hop);
    assert pipe.codecs == Piped(c.codecs, hop.enableRtx);
    assert pipe.encodings == PipeEncodings(c.encodings, hop.enableRtx, hop.base, hop.baseRtx);
    PipeStreams(c.encodings, hop);
    CarriedIsTaken(pipe.codecs, pipe.encodings);
    CarriedAlike(MediaMime(c.codecs), pipe.encodings, MediaMime(c.codecs), c.encodings);
  }

  /** From parameters at rest the mapping of a hop always succeeds, and the hop changes nothing but the SSRCs. */
  lemma HopFixpoint(h: H264, kind: MediaKind, caps: RtpCapabilities, dd: Option<Extension>, hop: Hop,
                    c: RtpParameters, next: RtpParameters)
    requires IsDescriptor(dd) && WellFormed(caps.codecs) && ParametersAtRest(h, kind, caps, c)
    ensures Mapped(h, PipeOf(c, dd, hop).codecs, caps.codecs)
    ensures HopLeads(h, kind, caps, dd, hop, c, next) ==>
      next == c.(encodings := Renumbered(c.encodings, hop.mappedBase))
  {
    hide WellFormed, AtRest, IsRtx, Image, Mapped, AreEntries, ConsumableExtensions, PipeExtensions, Piped, TakesPipe;
    var ms :| AllAtRest(h, ms, caps.codecs) && c.codecs == Pairs(h, ms, caps.codecs);
    var negotiated :| c.headerExtensions == ConsumableExtensions(kind, negotiated, caps.headerExtensions);
    PipeFixpoint(h, ms, caps.codecs, hop.enableRtx, []);
    if HopLeads(h, kind, caps, dd, hop, c, next) {
      var pipe := PipeOf(c, dd, hop);
      var entries :| IsMapping(h, pipe.codecs, caps.codecs, entries)
        && ConsumableCodecs(AdjustedCodecs(h, pipe.codecs, caps.codecs), caps.codecs, entries) == Some(next.codecs);
      PipeFixpoint(h, ms, caps.codecs, hop.enableRtx, entries);
      ExtensionFixpoint(kind, negotiated, caps.headerExtensions, dd);
      HopKeepsStreams(h, kind, caps, dd, hop, c, next);
    }
  }

  /**
   The multi-hop fixpoint: along any chain of pipes between routers configured alike,
   with RTX enabled or not at each hop, every router offers what the first one offers
   (codecs, RTX codecs, feedback, parameters, extensions, encodings), SSRCs apart.
   */
  lemma {:induction false} ChainFixpoint(h: H264, kind: MediaKind, caps: RtpCapabilities, routers: seq<RtpCapabilities>,
                                         dd: Option<Extension>, hops: seq<Hop>, cs: seq<RtpParameters>, n: nat)
    requires IsDescriptor(dd) && WellFormed(caps.codecs) && Chain(h, kind, routers, dd, hops, cs) && n < |hops|
    requires forall i :: 0 <= i < |routers| ==> routers[i] == caps
    requires ParametersAtRest(h, kind, caps, cs[0])
    ensures cs[n + 1] == cs[0].(encodings := Renumbered(cs[0].encodings, hops[n].mappedBase))
    ensures ParametersAtRest(h, kind, caps, cs[n + 1])
  {
    hide HopLeads, WellFormed, AtRest;
    if n > 0 {
      ChainFixpoint(h, kind, caps, routers, dd, hops, cs, n - 1);
    }
    assert HopLeads(h, kind, routers[n], dd, hops[n], cs[n], cs[n + 1]);
    HopFixpoint(h, kind, caps, dd, hops[n], cs[n], cs[n + 1]);
    HopKeepsStreams(h, kind, caps, dd, hops[n], cs[n], cs[n + 1]);
    assert cs[n + 1].encodings == Renumbered(cs[0].encodings, hops[n].mappedBase);
  }

  // ----- Chains never get stuck

  lemma ProducedExists(h: H264, kind: MediaKind, params: RtpParameters, caps: RtpCapabilities, base: int)
    returns (out: RtpParameters)
    requires Mapped(h, params.codecs, caps.codecs)
    ensures IsProduced(h, kind, params, caps, base, out)
  {
    hide Mapped, AreEntries, AdjustedCodecs, ConsumableCodecs, ConsumableExtensions, ConsumableEncodings;
    var entries := MappingExists(h, params.codecs, caps.codecs);
    ConsumableIsTotal(h, params.codecs, caps.codecs, entries);
    var codecs := ConsumableCodecs(AdjustedCodecs(h, params.codecs, caps.codecs), caps.codecs, entries).value;
    out := RtpParameters(codecs, ConsumableExtensions(kind, params.headerExtensions, caps.headerExtensions),
                         ConsumableEncodings(params.encodings, base), params.cname, true, params.msid);
  }

  lemma HopExists(h: H264, kind: MediaKind, caps: RtpCapabilities, dd: Option<Extension>, hop: Hop, c: RtpParameters)
    returns (next: RtpParameters)
    requires Mapped(h, PipeOf(c, dd, hop).codecs, caps.codecs)
    requires TakesPipe(PipeOf(c, dd, hop).codecs, PipeOf(c, dd, hop).encodings)
    ensures HopLeads(h, kind, caps, dd, hop, c, next)
  {
    hide Mapped, PipeOf, IsProduced, TakesPipe;
    next := ProducedExists(h, kind, PipeOf(c, dd, hop), caps, hop.mappedBase);
  }

  /** What the worker asks of a hop, it asks of the first one: the codecs and layers are the same at all of them. */
  ghost predicate Pipeable(c: RtpParameters) {
    DistinctPayloadTypes(c.codecs) && Carried(MediaMime(c.codecs), c.encodings)
  }

  lemma PipeableAlike(c: RtpParameters, base: int)
    ensures Pipeable(c.(encodings := Renumbered(c.encodings, base))) <==> Pipeable(c)
  {
    hide DistinctPayloadTypes, MediaMime, Carried;
    CarriedAlike(MediaMime(c.codecs), c.encodings, MediaMime(c.codecs), Renumbered(c.encodings, base));
  }

  /** Every hop of a chain shows that, and that its random SSRC bases are far enough apart. */
  lemma ChainNeeds(h: H264, kind: MediaKind, caps: RtpCapabilities, routers: seq<RtpCapabilities>,
                   dd: Option<Extension>, hops: seq<Hop>, cs: seq<RtpParameters>, n: nat)
    requires IsDescriptor(dd) && WellFormed(caps.codecs) && Chain(h, kind, routers, dd, hops, cs) && n < |hops|
    requires forall i :: 0 <= i < |routers| ==> routers[i] == caps
    requires ParametersAtRest(h, kind, caps, cs[0]) && SpokenAtRest(h, cs[0].codecs, caps.codecs)
    requires Drawn(hops[n], cs[0].encodings)
    ensures Pipeable(cs[0]) && Apart(hops[n], cs[0].encodings)
  {
    hide HopLeads, WellFormed, SpokenAtRest, PipeOf, ParametersAtRest, TakesPipe, Pipeable;
    if n > 0 {
      ChainFixpoint(h, kind, caps, routers, dd, hops, cs, n - 1);
      PipeableAlike(cs[0], hops[n - 1].mappedBase);
    }
    assert HopLeads(h, kind, routers[n], dd, hops[n], cs[n], cs[n + 1]);
    LedIsTaken(h, kind, routers[n], dd, hops[n], cs[n], cs[n + 1]);
    RestedEncodings(h, kind, caps, cs[0]);
    TakenIff(h, kind, caps, dd, hops[n], cs[0], cs[n]);
  }

  lemma LedIsTaken(h: H264, kind: MediaKind, caps: RtpCapabilities, dd: Option<Extension>, hop: Hop,
                   c: RtpParameters, next: RtpParameters)
    requires HopLeads(h, kind, caps, dd, hop, c, next)
    ensures TakesPipe(PipeOf(c, dd, hop).codecs, PipeOf(c, dd, hop).encodings)
  {
    hide TakesPipe, PipeOf, IsProduced;
  }

  lemma RestedEncodings(h: H264, kind: MediaKind, caps: RtpCapabilities, c: RtpParameters)
    requires ParametersAtRest(h, kind, caps, c)
    ensures EncodingsOffered(c.encodings)
  {
  }

  /** The hop from any router on the way, judged by what the first one offers. */
  lemma TakenIff(h: H264, kind: MediaKind, caps: RtpCapabilities, dd: Option<Extension>, hop: Hop, first: RtpParameters,
                 c: RtpParameters)
    requires WellFormed(caps.codecs) && SpokenAtRest(h, first.codecs, caps.codecs) && EncodingsOffered(first.encodings)
    requires c == first || exists base :: c == first.(encodings := Renumbered(first.encodings, base))
    requires Drawn(hop, first.encodings)
    ensures TakesPipe(PipeOf(c, dd, hop).codecs, PipeOf(c, dd, hop).encodings) <==>
      Pipeable(first) && Apart(hop, first.encodings)
  {
    hide WellFormed, SpokenAtRest, TakesPipe, PipeOf, Carried, MediaMime, DistinctPayloadTypes;
    if c != first {
      var base :| c == first.(encodings := Renumbered(first.encodings, base));
      PipeableAlike(first, base);
    }
    HopIsTaken(h, caps.codecs, dd, hop, c);
  }

  /** With that, no hop between routers configured alike fails, however many there are. */
  lemma {:induction false} ChainExists(h: H264, kind: MediaKind, caps: RtpCapabilities, routers: seq<RtpCapabilities>,
                                       dd: Option<Extension>, hops: seq<Hop>, c: RtpParameters)
    returns (cs: seq<RtpParameters>)
    requires IsDescriptor(dd) && WellFormed(caps.codecs) && ParametersAtRest(h, kind, caps, c)
    requires SpokenAtRest(h, c.codecs, caps.codecs) && (hops != [] ==> Pipeable(c))
    requires forall i :: 0 <= i < |hops| ==> Drawn(hops[i], c.encodings) && Apart(hops[i], c.encodings)
    requires |routers| == |hops| && forall i :: 0 <= i < |routers| ==> routers[i] == caps
    ensures Chain(h, kind, routers, dd, hops, cs) && cs[0] == c
    decreases |hops|
  {
    hide HopLeads, WellFormed, ParametersAtRest, PipeOf, Mapped, SpokenAtRest, Pipeable, TakesPipe, Drawn, Apart;
    if hops == [] { return [c]; }
    var n := |hops| - 1;
    var before := ChainExists(h, kind, caps, routers[..n], dd, hops[..n], c);
    if n > 0 {
      ChainFixpoint(h, kind, caps, routers[..n], dd, hops[..n], before, n - 1);
    }
    HopFixpoint(h, kind, caps, dd, hops[n], before[n], before[n]);
    RestedEncodings(h, kind, caps, c);
    TakenIff(h, kind, caps, dd, hops[n], c, before[n]);
    var last := HopExists(h, kind, caps, dd, hops[n], before[n]);
    cs := before + [last];
    forall i | 0 <= i < |hops|
      ensures HopLeads(h, kind, routers[i], dd, hops[i], cs[i], cs[i + 1])
    {
      if i < n {
        assert HopLeads(h, kind, routers[..n][i], dd, hops[..n][i], before[i], before[i + 1]);
      }
    }
  }
}
