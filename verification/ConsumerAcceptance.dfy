/** Which consumers of a producer the worker takes. */
module ConsumerAcceptance {
  import opened Wrappers
  import opened Codecs
  import opened Rtp
  import opened RtxSanitizing
  import opened RouterCapabilities
  import opened ProducerMapping
  import opened PipeCodecs
  import opened WorkerValidation
  import opened PipeAcceptance
  import opened ConsumerParameters
  import CanConsume

  /** An RTX codec reaches a consumer together with a media codec that it names. */
  ghost predicate Reaches(h: H264, cs: seq<Codec>, remote: seq<Codec>, enableRtx: bool, i: nat)
    requires i < |cs|
  {
    && IsMatched(h, remote, enableRtx, cs[i])
    && (IsRtx(cs[i]) ==> NamesReceivable(h, cs, remote, i))
  }

  ghost predicate NamesReceivable(h: H264, cs: seq<Codec>, remote: seq<Codec>, i: nat)
    requires i < |cs|
  {
    exists j :: 0 <= j < |cs| && !IsRtx(cs[j]) && Protects(cs, i, j) && Receivable(h, remote, cs[j])
  }

  lemma KeptNames(h: H264, cs: seq<Codec>, remote: seq<Codec>, enableRtx: bool, idx: seq<nat>, k: nat)
    requires NamesMedia(cs)
    requires Selects(cs, MatchedCodecs(h, cs, remote, enableRtx), idx)
    requires forall i :: i in idx <==> 0 <= i < |cs| && IsMatched(h, remote, enableRtx, cs[i])
    requires k < |idx|
    ensures NodeKeeps(MatchedCodecs(h, cs, remote, enableRtx), k) <==> Reaches(h, cs, remote, enableRtx, idx[k])
  {
    hide IsRtx, Receivable, AptIs, MatchedCodecs, ComesFrom, NodeKeeps, NamesMedia;
    var m := MatchedCodecs(h, cs, remote, enableRtx);
    NamesMediaIsInherited(h, cs, remote, enableRtx);
    BothAreTheFilter(m);
    assert idx[k] in idx;
    ComesFromKeeps(m[k], cs[idx[k]]);
    if IsRtx(m[k]) {
      if l :| 0 <= l < |m| && !IsRtx(m[l]) && Protects(m, k, l) {
        assert idx[l] in idx;
        ComesFromKeeps(m[l], cs[idx[l]]);
        CanConsume.SelectedPayloadType(cs, m, idx, l);
        assert Protects(cs, idx[k], idx[l]);
      }
      if j :| 0 <= j < |cs| && !IsRtx(cs[j]) && Protects(cs, idx[k], j) && Receivable(h, remote, cs[j]) {
        assert j in idx;
        var l :| 0 <= l < |idx| && idx[l] == j;
        ComesFromKeeps(m[l], cs[j]);
        CanConsume.SelectedPayloadType(cs, m, idx, l);
        assert Protects(m, k, l);
      }
    }
  }

  /** The codecs of a consumer are the selection of those that reach it. */
  lemma ConsumerSelects(h: H264, cs: seq<Codec>, remote: seq<Codec>, enableRtx: bool) returns (r: seq<nat>)
    requires NamesMedia(cs)
    ensures Selects(cs, NodeKept(MatchedCodecs(h, cs, remote, enableRtx), 0), r)
    ensures forall i :: i in r <==> 0 <= i < |cs| && Reaches(h, cs, remote, enableRtx, i)
  {
    hide Selects, IsMatched, MatchedCodecs, NodeKeeps, NodeKept, NamesMedia, NamesReceivable;
    var m := MatchedCodecs(h, cs, remote, enableRtx);
    var idx := MatchedSelects(h, cs, remote, enableRtx);
    var jdx := KeptSelects(m, 0);
    r := SelectTwice(cs, m, NodeKept(m, 0), idx, jdx);
    SelectedLengths(cs, m, idx);
    forall k | 0 <= k < |idx|
      ensures NodeKeeps(m, k) <==> Reaches(h, cs, remote, enableRtx, idx[k])
    {
      KeptNames(h, cs, remote, enableRtx, idx, k);
    }
    forall i | 0 <= i < |cs| && Reaches(h, cs, remote, enableRtx, i)
      ensures i in r
    {
      assert i in idx;
      var k :| 0 <= k < |idx| && idx[k] == i;
      assert k in jdx;
    }
  }

  lemma SelectedLengths(cs: seq<Codec>, out: seq<Codec>, idx: seq<nat>)
    requires Selects(cs, out, idx)
    ensures |idx| == |out| && forall k :: 0 <= k < |idx| ==> idx[k] < |cs|
  {
  }

  // ----- Consumers of what a producer offers

  /** The media half of a pair reaches the consumer iff it can be received; the RTX half needs such a media half. */
  lemma HalfReaches(h: H264, ms: seq<Codec>, caps: seq<Codec>, remote: seq<Codec>, enableRtx: bool, a: nat, y: nat)
    requires Lawful(h) && ProfilesPartition(h) && WellFormed(caps) && AllAtRest(h, ms, caps)
    requires a < |ms| && y < |PairOf(h, ms[a], caps)|
    ensures var i := Start(h, ms, caps, a) + y;
            && i < |Pairs(h, ms, caps)|
            && (y == 0 ==> (Reaches(h, Pairs(h, ms, caps), remote, enableRtx, i) <==>
              Receivable(h, remote, PairOf(h, ms[a], caps)[0])))
            && (y == 1 && Reaches(h, Pairs(h, ms, caps), remote, enableRtx, i) ==>
              Receivable(h, remote, PairOf(h, ms[a], caps)[0]))
  {
    hide AtRest, IsRtx, WellFormed, Pairs, PairOf, Start, Target, Lawful, ProfilesPartition, Receivable, AptIs;
    var cs := Pairs(h, ms, caps);
    var i := Start(h, ms, caps, a) + y;
    PairAt(h, ms, caps, a, y);
    CanConsume.Halves(h, ms[a], caps);
    if y == 1 && Reaches(h, cs, remote, enableRtx, i) {
      var j :| 0 <= j < |cs| && !IsRtx(cs[j]) && Protects(cs, i, j) && Receivable(h, remote, cs[j]);
      var b, z := Owner(h, ms, caps, j);
      PairAt(h, ms, caps, b, z);
      CanConsume.RtxNames(h, ms, caps, a, b, z);
      CanConsume.ReceivedAlike(h, ms[b], ms[a], caps, remote);
    }
  }

  /** Two codecs of the producer share a capability that the remote side can receive. */
  ghost predicate SharesReceivable(h: H264, ms: seq<Codec>, caps: seq<Codec>, remote: seq<Codec>)
    requires AllAtRest(h, ms, caps)
  {
    exists a: nat, b: nat :: a < b < |ms| && Target(h, ms[a], caps) == Target(h, ms[b], caps)
                             && Receivable(h, remote, PairOf(h, ms[a], caps)[0])
  }

  /** It can receive one that the worker takes for a media codec, which CN and telephone-event are not. */
  ghost predicate ReceivesMedia(h: H264, ms: seq<Codec>, caps: seq<Codec>, remote: seq<Codec>)
    requires AllAtRest(h, ms, caps)
  {
    exists a: nat :: a < |ms| && IsMedia(ms[a]) && Receivable(h, remote, PairOf(h, ms[a], caps)[0])
  }

  lemma ReachingIsAccepted(h: H264, ms: seq<Codec>, caps: seq<Codec>, remote: seq<Codec>, enableRtx: bool,
                           idx: seq<nat>)
    requires Lawful(h) && ProfilesPartition(h) && WellFormed(caps) && AllAtRest(h, ms, caps) && Spoken(ms)
    requires forall i :: i in idx <==>
      0 <= i < |Pairs(h, ms, caps)| && Reaches(h, Pairs(h, ms, caps), remote, enableRtx, i)
    ensures Within(Pairs(h, ms, caps), idx)
    ensures AcceptsAt(Pairs(h, ms, caps), idx) <==>
      !SharesReceivable(h, ms, caps, remote) && ReceivesMedia(h, ms, caps, remote)
  {
    hide AtRest, WellFormed, Pairs, PairOf, Start, Target, Lawful, ProfilesPartition, Receivable, Reaches, KindOf;
    hide AcceptsAt, Spoken;
    forall a: nat, y: nat | Chosen(h, ms, caps, idx, a, y)
      ensures a < |ms| && Receivable(h, remote, PairOf(h, ms[a], caps)[0]) && Chosen(h, ms, caps, idx, a, 0)
    {
      HalfReaches(h, ms, caps, remote, enableRtx, a, y);
      HalfReaches(h, ms, caps, remote, enableRtx, a, 0);
    }
    forall a: nat | a < |ms| && Receivable(h, remote, PairOf(h, ms[a], caps)[0])
      ensures Chosen(h, ms, caps, idx, a, 0)
    {
      HalfReaches(h, ms, caps, remote, enableRtx, a, 0);
    }
    hide Chosen;
    SelectedPairsAccepted(h, ms, caps, idx);
    if a: nat, b: nat :| a < b < |ms| && Target(h, ms[a], caps) == Target(h, ms[b], caps)
                         && Receivable(h, remote, PairOf(h, ms[a], caps)[0]) {
      CanConsume.ReceivedAlike(h, ms[a], ms[b], caps, remote);
      assert RepeatedAt(h, ms, caps, idx, a, b, 0);
    }
  }

  /**
   The worker takes a consumer of a producer iff the producer's codecs do not share a
   capability that the remote side can receive, and it can receive a media codec.
   */
  lemma ConsumerIsAccepted(h: H264, ms: seq<Codec>, caps: seq<Codec>, c: RtpParameters, remote: RtpCapabilities,
                           pipe: bool, enableRtx: bool, draw: Draw, out: RtpParameters)
    requires Lawful(h) && ProfilesPartition(h) && WellFormed(caps) && AllAtRest(h, ms, caps) && Spoken(ms)
    requires c.codecs == Pairs(h, ms, caps) && IsConsumer(h, c, remote, pipe, enableRtx, draw, out)
    ensures Accepts(out.codecs) <==>
      !SharesReceivable(h, ms, caps, remote.codecs) && ReceivesMedia(h, ms, caps, remote.codecs)
  {
    hide AtRest, WellFormed, Pairs, Lawful, ProfilesPartition, Spoken, SharesReceivable, ReceivesMedia, Reaches;
    hide NodeKept, MatchedCodecs, Accepts, AcceptsAt, NamesMedia, IsRtx;
    CanConsume.PairsNameMedia(h, ms, caps);
    var kept := NodeKept(MatchedCodecs(h, c.codecs, remote.codecs, enableRtx), 0);
    var idx := ConsumerSelects(h, c.codecs, remote.codecs, enableRtx);
    ReachingIsAccepted(h, ms, caps, remote.codecs, enableRtx, idx);
    assert Selects(c.codecs, out.codecs, idx);
    SelectionIsAccepted(c.codecs, out.codecs, idx);
  }

  // ----- Seen from the offered codecs

  /** Two media codecs on offer have the same payload type, and the remote side can receive it. */
  ghost predicate RepeatsReceivable(h: H264, cs: seq<Codec>, remote: seq<Codec>) {
    exists i, j :: 0 <= i < j < |cs| && !IsRtx(cs[i]) && !IsRtx(cs[j])
                   && cs[i].payloadType == cs[j].payloadType && Receivable(h, remote, cs[i])
  }

  ghost predicate OffersMedia(h: H264, cs: seq<Codec>, remote: seq<Codec>) {
    exists i :: 0 <= i < |cs| && IsMedia(cs[i]) && Receivable(h, remote, cs[i])
  }

  lemma SharedIsRepeated(h: H264, ms: seq<Codec>, caps: seq<Codec>, remote: seq<Codec>)
    requires WellFormed(caps) && AllAtRest(h, ms, caps) && Spoken(ms)
    ensures SharesReceivable(h, ms, caps, remote) <==> RepeatsReceivable(h, Pairs(h, ms, caps), remote)
  {
    hide AtRest, WellFormed, Pairs, PairOf, Start, Target, Receivable, KindOf, IsRtx, AptIs, Spoken;
    var cs := Pairs(h, ms, caps);
    if a: nat, b: nat :| a < b < |ms| && Target(h, ms[a], caps) == Target(h, ms[b], caps)
                         && Receivable(h, remote, PairOf(h, ms[a], caps)[0]) {
      SharedPositions(h, ms, caps, a, b);
    }
    if i, j :| 0 <= i < j < |cs| && !IsRtx(cs[i]) && !IsRtx(cs[j])
               && cs[i].payloadType == cs[j].payloadType && Receivable(h, remote, cs[i]) {
      var a, b := RepeatedPositions(h, ms, caps, i, j);
    }
  }

  lemma SharedPositions(h: H264, ms: seq<Codec>, caps: seq<Codec>, a: nat, b: nat)
    requires WellFormed(caps) && AllAtRest(h, ms, caps) && Spoken(ms)
    requires a < b < |ms| && Target(h, ms[a], caps) == Target(h, ms[b], caps)
    ensures var cs := Pairs(h, ms, caps);
            var i, j := Start(h, ms, caps, a), Start(h, ms, caps, b);
            && i < j < |cs| && cs[i] == PairOf(h, ms[a], caps)[0] && !IsRtx(cs[i]) && !IsRtx(cs[j])
            && cs[i].payloadType == cs[j].payloadType
  {
    hide AtRest, WellFormed, Pairs, PairOf, Start, Target, KindOf, IsRtx, AptIs;
    PairAt(h, ms, caps, a, 0);
    PairAt(h, ms, caps, b, 0);
    StartGrows(h, ms, caps, a, b);
    PairKinds(h, ms[a], caps);
    PairKinds(h, ms[b], caps);
  }

  lemma RepeatedPositions(h: H264, ms: seq<Codec>, caps: seq<Codec>, i: nat, j: nat) returns (a: nat, b: nat)
    requires WellFormed(caps) && AllAtRest(h, ms, caps) && Spoken(ms) && i < j < |Pairs(h, ms, caps)|
    requires var cs := Pairs(h, ms, caps);
             !IsRtx(cs[i]) && !IsRtx(cs[j]) && cs[i].payloadType == cs[j].payloadType
    ensures a < b < |ms| && Target(h, ms[a], caps) == Target(h, ms[b], caps)
    ensures Pairs(h, ms, caps)[i] == PairOf(h, ms[a], caps)[0]
  {
    hide AtRest, WellFormed, Pairs, PairOf, Start, Target, KindOf, IsRtx, AptIs;
    var y, z;
    a, y := Owner(h, ms, caps, i);
    b, z := Owner(h, ms, caps, j);
    PairAt(h, ms, caps, a, y);
    PairAt(h, ms, caps, b, z);
    PairKinds(h, ms[a], caps);
    PairKinds(h, ms[b], caps);
    SamePayloadTypes(h, ms[a], y, ms[b], z, caps);
    if b < a {
      StartGrows(h, ms, caps, b, a);
    }
  }

  lemma ReceivedIsOffered(h: H264, ms: seq<Codec>, caps: seq<Codec>, remote: seq<Codec>)
    requires WellFormed(caps) && AllAtRest(h, ms, caps) && Spoken(ms)
    ensures ReceivesMedia(h, ms, caps, remote) <==> OffersMedia(h, Pairs(h, ms, caps), remote)
  {
    hide AtRest, WellFormed, Pairs, PairOf, Start, Target, Receivable, KindOf, IsRtx, AptIs;
    var cs := Pairs(h, ms, caps);
    if a: nat :| a < |ms| && IsMedia(ms[a]) && Receivable(h, remote, PairOf(h, ms[a], caps)[0]) {
      PairAt(h, ms, caps, a, 0);
      PairKinds(h, ms[a], caps);
    }
    if i :| 0 <= i < |cs| && IsMedia(cs[i]) && Receivable(h, remote, cs[i]) {
      var a, y := Owner(h, ms, caps, i);
      PairAt(h, ms, caps, a, y);
      PairKinds(h, ms[a], caps);
    }
  }
}
