/**
 `canConsume` against what it predicts: whether generating the parameters of a
 consumer succeeds.
 */
module CanConsume {
  import opened Wrappers
  import opened Codecs
  import opened RtxSanitizing
  import opened ConsumerParameters
  import opened RouterCapabilities
  import opened ProducerMapping
  import opened PipeCodecs

  /** The first consumable codec, RTX or not, that the remote side can receive. */
  function FirstReceivable(h: H264, cs: seq<Codec>, remote: seq<Codec>): (r: Option<nat>)
    ensures r.Some? ==> r.value < |cs| && Receivable(h, remote, cs[r.value])
    ensures r.Some? ==> forall j :: 0 <= j < r.value ==> !Receivable(h, remote, cs[j])
    ensures r.None? ==> forall j :: 0 <= j < |cs| ==> !Receivable(h, remote, cs[j])
  {
    if cs == [] then None
    else if Receivable(h, remote, cs[0]) then Some(0)
    else
      var rest := FirstReceivable(h, cs[1..], remote);
      if rest.None? then None else Some(rest.value + 1)
  }

  /** It is there and is a media codec. */
  predicate Predicted(h: H264, cs: seq<Codec>, remote: seq<Codec>) {
    var first := FirstReceivable(h, cs, remote);
    first.Some? && !IsRtx(cs[first.value])
  }

  method CanConsume(h: H264, consumable: seq<Codec>, remote: seq<Codec>) returns (r: bool)
    ensures r == Predicted(h, consumable, remote)
  {
    hide IsRtx, Receivable;
    var matching: seq<Codec> := [];
    for i := 0 to |consumable|
      invariant matching == [] ==> forall j :: 0 <= j < i ==> !Receivable(h, remote, consumable[j])
      invariant matching != [] ==>
        var first := FirstReceivable(h, consumable, remote);
        first.Some? && first.value < i && matching[0] == consumable[first.value]
    {
      var k := RemoteIndex(h, remote, consumable[i]);
      ReceivableByIndex(h, remote, consumable[i]);
      if k.Some? {
        matching := matching + [consumable[i]];
      }
    }
    return matching != [] && !IsRtx(matching[0]);
  }

  lemma ReceivableByIndex(h: H264, remote: seq<Codec>, c: Codec)
    ensures Receivable(h, remote, c) == RemoteIndex(h, remote, c).Some?
  {
  }

  predicate Consumes(h: H264, cs: seq<Codec>, remote: seq<Codec>, enableRtx: bool) {
    ConsumerCodecs(h, cs, remote, enableRtx).Some?
  }

  predicate MediaReceivable(h: H264, cs: seq<Codec>, remote: seq<Codec>) {
    exists i :: 0 <= i < |cs| && !IsRtx(cs[i]) && Receivable(h, remote, cs[i])
  }

  // ----- Soundness

  lemma {:induction false} FirstIsMatchedFirst(h: H264, cs: seq<Codec>, remote: seq<Codec>, enableRtx: bool)
    requires Predicted(h, cs, remote)
    ensures var m := MatchedCodecs(h, cs, remote, enableRtx);
            m != [] && !IsRtx(m[0])
  {
    hide IsRtx, Receivable;
    var i := FirstReceivable(h, cs, remote).value;
    if i == 0 {
      ComesFromKeeps(MatchedCodecs(h, cs, remote, enableRtx)[0], cs[0]);
    } else {
      assert FirstReceivable(h, cs[1..], remote) == Some(i - 1);
      FirstIsMatchedFirst(h, cs[1..], remote, enableRtx);
    }
  }

  /** When `canConsume` says yes, no options make generating the consumer parameters fail, whatever the lists. */
  lemma CanConsumeIsSound(h: H264, cs: seq<Codec>, remote: seq<Codec>, enableRtx: bool)
    requires Predicted(h, cs, remote)
    ensures Consumes(h, cs, remote, enableRtx)
  {
    hide IsRtx, MatchedCodecs, NodeKeeps;
    FirstIsMatchedFirst(h, cs, remote, enableRtx);
    MediaIsKept(MatchedCodecs(h, cs, remote, enableRtx), 0);
  }

  // ----- When it is exact

  /** Whatever an RTX codec names is a media codec before it. */
  ghost predicate RtxAfterMedia(cs: seq<Codec>) {
    forall i, j :: 0 <= i < |cs| && 0 <= j < |cs| && IsRtx(cs[i]) && Protects(cs, i, j) ==> j < i && !IsRtx(cs[j])
  }

  /**
   An RTX codec that the remote side can receive together with one it names comes after some
   media codec that it can.
   */
  ghost predicate MediaLeads(h: H264, cs: seq<Codec>, remote: seq<Codec>) {
    forall i, j :: 0 <= i < |cs| && 0 <= j < |cs| && IsRtx(cs[i]) && Protects(cs, i, j)
                   && Receivable(h, remote, cs[i]) && Receivable(h, remote, cs[j]) ==>
      MediaReceivableBefore(h, cs, remote, i)
  }

  ghost predicate MediaReceivableBefore(h: H264, cs: seq<Codec>, remote: seq<Codec>, i: nat)
    requires i <= |cs|
  {
    exists k :: 0 <= k < i && !IsRtx(cs[k]) && Receivable(h, remote, cs[k])
  }

  lemma MediaAheadLeads(h: H264, cs: seq<Codec>, remote: seq<Codec>)
    requires RtxAfterMedia(cs)
    ensures MediaLeads(h, cs, remote)
  {
    hide IsRtx, Receivable, AptIs;
  }

  lemma {:induction false} FirstKept(m: seq<Codec>, a: nat) returns (i: nat)
    requires a <= |m| && NodeKept(m, a) != []
    ensures a <= i < |m| && NodeKeeps(m, i) && NodeKept(m, a)[0] == m[i]
    ensures forall j :: a <= j < i ==> !NodeKeeps(m, j)
    decreases |m| - a
  {
    hide NodeKeeps;
    if NodeKeeps(m, a) {
      i := a;
    } else {
      i := FirstKept(m, a + 1);
    }
  }

  /** Then the sanitized list starts with a media codec unless it has none. */
  lemma KeptStartsWithMedia(h: H264, cs: seq<Codec>, remote: seq<Codec>, enableRtx: bool)
    requires MediaLeads(h, cs, remote)
    ensures var kept := NodeKept(MatchedCodecs(h, cs, remote, enableRtx), 0);
            kept != [] ==> !IsRtx(kept[0])
  {
    hide IsRtx, Receivable, AptIs, MatchedCodecs, ComesFrom, NodeKept, NodeKeeps;
    var m := MatchedCodecs(h, cs, remote, enableRtx);
    if NodeKept(m, 0) != [] {
      var first := FirstKept(m, 0);
      if IsRtx(m[first]) {
        var named := NamedByKept(m, first);
        var idx := MatchedSelects(h, cs, remote, enableRtx);
        ComesFromKeeps(m[first], cs[idx[first]]);
        SelectedPayloadType(cs, m, idx, named);
        assert idx[first] in idx && idx[named] in idx;
        assert Protects(cs, idx[first], idx[named]);
        assert MediaReceivableBefore(h, cs, remote, idx[first]);
        var k :| 0 <= k < idx[first] && !IsRtx(cs[k]) && Receivable(h, remote, cs[k]);
        assert k in idx;
        var l :| 0 <= l < |idx| && idx[l] == k;
        ComesFromKeeps(m[l], cs[k]);
        assert l < first;
        MediaIsKept(m, l);
      }
    }
  }

  lemma NamedByKept(m: seq<Codec>, i: nat) returns (j: nat)
    requires i < |m| && IsRtx(m[i]) && NodeKeeps(m, i)
    ensures j < |m| && Protects(m, i, j)
  {
    j :| 0 <= j < |m| && Protects(m, i, j);
  }

  lemma SelectedPayloadType(cs: seq<Codec>, out: seq<Codec>, idx: seq<nat>, k: nat)
    requires Selects(cs, out, idx) && k < |out|
    ensures out[k].payloadType == cs[idx[k]].payloadType
  {
  }

  /** Generating consumer parameters succeeds iff the remote side can receive some media codec. */
  lemma ConsumesIffMediaReceivable(h: H264, cs: seq<Codec>, remote: seq<Codec>, enableRtx: bool)
    requires MediaLeads(h, cs, remote)
    ensures Consumes(h, cs, remote, enableRtx) <==> MediaReceivable(h, cs, remote)
  {
    hide IsRtx, Receivable, MatchedCodecs, MediaLeads, NodeKeeps;
    var m := MatchedCodecs(h, cs, remote, enableRtx);
    KeptStartsWithMedia(h, cs, remote, enableRtx);
    if NodeKept(m, 0) != [] {
      var j := NodeKeptAt(m, 0, 0);
      var i := MatchedAt(h, cs, remote, enableRtx, j);
      ComesFromKeeps(m[j], cs[i]);
    }
    if i :| 0 <= i < |cs| && !IsRtx(cs[i]) && Receivable(h, remote, cs[i]) {
      var k := MatchedHas(h, cs, remote, enableRtx, i);
      ComesFromKeeps(m[k], cs[i]);
      MediaIsKept(m, k);
      var x := NodeKeptHas(m, 0, k);
    }
  }

  /** The first codec that the remote side can receive is an RTX one, though it can receive a media codec too. */
  predicate Underestimates(h: H264, cs: seq<Codec>, remote: seq<Codec>) {
    var first := FirstReceivable(h, cs, remote);
    first.Some? && IsRtx(cs[first.value]) && MediaReceivable(h, cs, remote)
  }

  /** `canConsume` is wrong iff that happens, and then it says no where consuming works. */
  lemma CanConsumeIsExactUnless(h: H264, cs: seq<Codec>, remote: seq<Codec>, enableRtx: bool)
    requires MediaLeads(h, cs, remote)
    ensures Predicted(h, cs, remote) == Consumes(h, cs, remote, enableRtx) <==> !Underestimates(h, cs, remote)
    ensures Underestimates(h, cs, remote) ==> !Predicted(h, cs, remote) && Consumes(h, cs, remote, enableRtx)
  {
    hide IsRtx, Receivable, MediaLeads, Consumes;
    ConsumesIffMediaReceivable(h, cs, remote, enableRtx);
  }

  /** Every RTX codec names some codec of the list. */
  ghost predicate RtxNamesSome(cs: seq<Codec>) {
    forall i :: 0 <= i < |cs| && IsRtx(cs[i]) ==> exists j :: 0 <= j < |cs| && Protects(cs, i, j)
  }

  ghost predicate OneMedia(cs: seq<Codec>) {
    forall i, j :: 0 <= i < j < |cs| ==> IsRtx(cs[i]) || IsRtx(cs[j])
  }

  /** With a single media codec the two always agree. */
  lemma SingleMediaIsExact(h: H264, cs: seq<Codec>, remote: seq<Codec>, enableRtx: bool)
    requires RtxAfterMedia(cs) && RtxNamesSome(cs) && OneMedia(cs)
    ensures Predicted(h, cs, remote) == Consumes(h, cs, remote, enableRtx)
  {
    MediaAheadLeads(h, cs, remote);
    CanConsumeIsExactUnless(h, cs, remote, enableRtx);
    hide IsRtx, Receivable, AptIs, Consumes, MediaLeads;
  }

  // ----- Consumables of a producer

  /** The halves of a pair, as far as RTX is concerned. */
  lemma Halves(h: H264, m: Codec, caps: seq<Codec>)
    requires WellFormed(caps) && AtRest(h, m, caps)
    ensures var pair := PairOf(h, m, caps);
            var k := Target(h, m, caps);
            && !IsRtx(caps[k]) && !IsRtx(pair[0]) && pair[0].payloadType == caps[k].payloadType
            && (|pair| == 2 ==>
              && IsRtx(pair[1]) && AptIs(pair[1], caps[k].payloadType)
              && k + 1 < |caps| && IsRtx(caps[k + 1]) && pair[1].payloadType == caps[k + 1].payloadType)
  {
    hide AtRest, WellFormed, IsRtx, IsVideo;
    TargetIsMedia(h, m, caps);
    PairIsComplete(m, caps, Target(h, m, caps));
    RtxOfCapability(caps, Target(h, m, caps));
  }

  /** An RTX codec of a pair names exactly the media codecs offered for the same capability. */
  lemma RtxNames(h: H264, ms: seq<Codec>, caps: seq<Codec>, a: nat, b: nat, z: nat)
    requires WellFormed(caps) && AllAtRest(h, ms, caps) && a < |ms| && b < |ms|
    requires |PairOf(h, ms[a], caps)| == 2 && z < |PairOf(h, ms[b], caps)|
    ensures AptIs(PairOf(h, ms[a], caps)[1], PairOf(h, ms[b], caps)[z].payloadType) <==>
      z == 0 && Target(h, ms[a], caps) == Target(h, ms[b], caps)
  {
    hide AtRest, IsRtx, RtxPaired, PairOf, Target;
    Halves(h, ms[a], caps);
    Halves(h, ms[b], caps);
  }

  /** Codecs offered for the same capability can be received alike. */
  lemma ReceivedAlike(h: H264, m: Codec, n: Codec, caps: seq<Codec>, remote: seq<Codec>)
    requires Lawful(h) && ProfilesPartition(h) && AtRest(h, m, caps) && AtRest(h, n, caps)
    requires Target(h, m, caps) == Target(h, n, caps) && Receivable(h, remote, PairOf(h, m, caps)[0])
    ensures Receivable(h, remote, PairOf(h, n, caps)[0])
  {
    hide Lawful, ProfilesPartition, IsRtx, Matches, Adjusted;
    var a, b := PairOf(h, m, caps)[0], PairOf(h, n, caps)[0];
    var k := Target(h, m, caps);
    var r := RemoteIndex(h, remote, a).value;
    assert View(a) == View(m) && View(b) == View(n);
    MatchedAlike(h, View(a), View(b), View(caps[k]), View(remote[r]));
  }

  /** What an RTX codec at one position and a codec that it names at another stand for. */
  lemma RtxPosition(h: H264, ms: seq<Codec>, caps: seq<Codec>, i: nat, j: nat) returns (a: nat, b: nat)
    requires WellFormed(caps) && AllAtRest(h, ms, caps) && i < |Pairs(h, ms, caps)| && j < |Pairs(h, ms, caps)|
    requires IsRtx(Pairs(h, ms, caps)[i]) && Protects(Pairs(h, ms, caps), i, j)
    ensures a < |ms| && b < |ms| && Target(h, ms[a], caps) == Target(h, ms[b], caps)
    ensures 0 < i && Pairs(h, ms, caps)[i - 1] == PairOf(h, ms[a], caps)[0] && !IsRtx(Pairs(h, ms, caps)[i - 1])
    ensures Pairs(h, ms, caps)[j] == PairOf(h, ms[b], caps)[0] && !IsRtx(Pairs(h, ms, caps)[j])
  {
    hide AtRest, IsRtx, WellFormed, Pairs, PairOf, Start, Target, AptIs;
    var y, z;
    a, y := Owner(h, ms, caps, i);
    b, z := Owner(h, ms, caps, j);
    PairAt(h, ms, caps, a, y);
    PairAt(h, ms, caps, b, z);
    PairAt(h, ms, caps, a, 0);
    Halves(h, ms[a], caps);
    Halves(h, ms[b], caps);
    RtxNames(h, ms, caps, a, b, z);
  }

  /** Each RTX codec that a producer offers comes right after a media codec that can be received if any it names can. */
  lemma PairsLead(h: H264, ms: seq<Codec>, caps: seq<Codec>, remote: seq<Codec>)
    requires Lawful(h) && ProfilesPartition(h) && WellFormed(caps) && AllAtRest(h, ms, caps)
    ensures MediaLeads(h, Pairs(h, ms, caps), remote)
  {
    hide AtRest, IsRtx, WellFormed, Pairs, PairOf, Target, Lawful, ProfilesPartition, Receivable, AptIs;
    var cs := Pairs(h, ms, caps);
    forall i, j | 0 <= i < |cs| && 0 <= j < |cs| && IsRtx(cs[i]) && Protects(cs, i, j)
                  && Receivable(h, remote, cs[i]) && Receivable(h, remote, cs[j])
      ensures MediaReceivableBefore(h, cs, remote, i)
    {
      var a, b := RtxPosition(h, ms, caps, i, j);
      ReceivedAlike(h, ms[b], ms[a], caps, remote);
      assert Receivable(h, remote, cs[i - 1]);
    }
  }

  /** For what a producer offers, consuming works iff the remote side can receive one of the media codecs. */
  lemma ProducerIsConsumable(h: H264, ms: seq<Codec>, caps: seq<Codec>, remote: seq<Codec>, enableRtx: bool)
    requires Lawful(h) && ProfilesPartition(h) && WellFormed(caps) && AllAtRest(h, ms, caps)
    ensures var cs := Pairs(h, ms, caps);
            && (Consumes(h, cs, remote, enableRtx) <==> MediaReceivable(h, cs, remote))
            && (Predicted(h, cs, remote) == Consumes(h, cs, remote, enableRtx) <==> !Underestimates(h, cs, remote))
  {
    hide AtRest, WellFormed, MediaLeads, Consumes, MediaReceivable, Underestimates, Lawful, ProfilesPartition, Pairs;
    PairsLead(h, ms, caps, remote);
    ConsumesIffMediaReceivable(h, Pairs(h, ms, caps), remote, enableRtx);
    CanConsumeIsExactUnless(h, Pairs(h, ms, caps), remote, enableRtx);
  }

  /** RTX codecs that a producer offers name media codecs only. */
  lemma PairsNameMedia(h: H264, ms: seq<Codec>, caps: seq<Codec>)
    requires WellFormed(caps) && AllAtRest(h, ms, caps)
    ensures NamesMedia(Pairs(h, ms, caps))
  {
    hide AtRest, IsRtx, WellFormed, Pairs, PairOf, Target, AptIs;
    var cs := Pairs(h, ms, caps);
    forall i, j | 0 <= i < |cs| && 0 <= j < |cs| && IsRtx(cs[i]) && Protects(cs, i, j)
      ensures !IsRtx(cs[j])
    {
      var a, b := RtxPosition(h, ms, caps, i, j);
    }
  }

  lemma SinglePair(h: H264, m: Codec, caps: seq<Codec>)
    requires AtRest(h, m, caps)
    ensures AllAtRest(h, [m], caps) && Pairs(h, [m], caps) == PairOf(h, m, caps)
  {
    hide AtRest, Target, Pair;
    assert AllAtRest(h, [m], caps);
    assert Pairs(h, [m][1..], caps) == [];
  }

  lemma PairIsOrdered(h: H264, m: Codec, caps: seq<Codec>)
    requires WellFormed(caps) && AtRest(h, m, caps)
    ensures var pair := PairOf(h, m, caps);
            RtxAfterMedia(pair) && RtxNamesSome(pair) && OneMedia(pair)
  {
    hide AtRest, WellFormed, PairOf, Target, IsRtx, AptIs;
    var pair := PairOf(h, m, caps);
    Halves(h, m, caps);
    if |pair| == 2 {
      RtxNames(h, [m], caps, 0, 0, 0);
      RtxNames(h, [m], caps, 0, 0, 1);
      assert Protects(pair, 1, 0);
    }
  }

  /** With a single media codec, `canConsume` is exact for whatever a producer offers. */
  lemma SingleCodecProducer(h: H264, m: Codec, caps: seq<Codec>, remote: seq<Codec>, enableRtx: bool)
    requires WellFormed(caps) && AtRest(h, m, caps)
    ensures AllAtRest(h, [m], caps)
    ensures var cs := Pairs(h, [m], caps);
            Predicted(h, cs, remote) == Consumes(h, cs, remote, enableRtx)
  {
    hide AtRest, WellFormed, Pairs, PairOf, Consumes, Predicted, RtxAfterMedia, RtxNamesSome, OneMedia;
    SinglePair(h, m, caps);
    PairIsOrdered(h, m, caps);
    SingleMediaIsExact(h, PairOf(h, m, caps), remote, enableRtx);
  }

  // ----- A shape of lists for which it says no

  /** Two media codecs with RTX, offered to a side that receives the second one and RTX but not the first. */
  ghost predicate SecondOnly(h: H264, cs: seq<Codec>, remote: seq<Codec>) {
    && |cs| == 4 && remote == cs[2..]
    && !IsRtx(cs[0]) && IsRtx(cs[1]) && !IsRtx(cs[2]) && IsRtx(cs[3])
    && Matches(h, View(cs[2]), View(cs[2])) && Matches(h, View(cs[3]), View(cs[1]))
    && !Matches(h, View(cs[2]), View(cs[0])) && !Matches(h, View(cs[3]), View(cs[0]))
  }

  lemma SecondOnlyIsUnderestimated(h: H264, cs: seq<Codec>, remote: seq<Codec>)
    requires SecondOnly(h, cs, remote)
    ensures Underestimates(h, cs, remote)
  {
    hide IsRtx, Matches;
    assert remote[0] == cs[2] && remote[1] == cs[3];
    assert !Receivable(h, remote, cs[0]) && Receivable(h, remote, cs[1]) && Receivable(h, remote, cs[2]);
    assert FirstReceivable(h, cs, remote) == Some(1);
  }
}
