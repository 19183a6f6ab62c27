/**
 Removing RTX codecs that protect nothing from a list of codecs: the backward
 in-place loop of Node, the two-phase removal of Rust, and when they agree.
 */
module RtxSanitizing {
  import opened Wrappers
  import opened Codecs

  /** Codec `j` is one that RTX codec `i` could protect. */
  predicate Protects(cs: seq<Codec>, i: nat, j: nat)
    requires i < |cs| && j < |cs|
  {
    AptIs(cs[i], cs[j].payloadType)
  }

  /** Rust keeps an RTX codec iff the list holds a codec with the payload type it names. */
  predicate RustKeeps(cs: seq<Codec>, i: nat)
    requires i < |cs|
  {
    !IsRtx(cs[i]) || exists j :: 0 <= j < |cs| && Protects(cs, i, j)
  }

  /** Node, going backwards, also wants that codec not to have been removed yet. */
  predicate NodeKeeps(cs: seq<Codec>, i: nat)
    requires i < |cs|
    decreases |cs| - i
  {
    !IsRtx(cs[i]) || exists j :: 0 <= j < |cs| && Protects(cs, i, j) && (j <= i || NodeKeeps(cs, j))
  }

  /** What Node keeps from position `i` on. */
  function NodeKept(cs: seq<Codec>, i: nat): seq<Codec>
    requires i <= |cs|
    decreases |cs| - i
  {
    if i == |cs| then []
    else if NodeKeeps(cs, i) then [cs[i]] + NodeKept(cs, i + 1)
    else NodeKept(cs, i + 1)
  }

  /** What Rust keeps from position `i` on. */
  function RustKept(cs: seq<Codec>, i: nat): seq<Codec>
    requires i <= |cs|
    decreases |cs| - i
  {
    if i == |cs| then []
    else if RustKeeps(cs, i) then [cs[i]] + RustKept(cs, i + 1)
    else RustKept(cs, i + 1)
  }

  ghost predicate HasRtx(cs: seq<Codec>) {
    exists i :: 0 <= i < |cs| && IsRtx(cs[i])
  }

  // ----- Node

  lemma {:induction false} NodeKeptAt(cs: seq<Codec>, i: nat, k: nat) returns (j: nat)
    requires i <= |cs| && k < |NodeKept(cs, i)|
    ensures i <= j < |cs| && NodeKeeps(cs, j) && NodeKept(cs, i)[k] == cs[j]
    decreases |cs| - i
  {
    hide NodeKeeps;
    if !NodeKeeps(cs, i) {
      j := NodeKeptAt(cs, i + 1, k);
    } else if k == 0 {
      j := i;
    } else {
      j := NodeKeptAt(cs, i + 1, k - 1);
    }
  }

  lemma {:induction false} NodeKeptHas(cs: seq<Codec>, i: nat, j: nat) returns (k: nat)
    requires i <= j < |cs| && NodeKeeps(cs, j)
    ensures k < |NodeKept(cs, i)| && NodeKept(cs, i)[k] == cs[j]
    decreases |cs| - i
  {
    hide NodeKeeps;
    if i == j {
      k := 0;
    } else {
      k := NodeKeptHas(cs, i + 1, j);
      k := if NodeKeeps(cs, i) then k + 1 else k;
    }
  }

  /** What Node keeps is a selection of the list. */
  lemma {:induction false} KeptSelects(cs: seq<Codec>, i: nat) returns (idx: seq<nat>)
    requires i <= |cs|
    ensures Selects(cs, NodeKept(cs, i), idx)
    ensures forall j :: j in idx <==> i <= j < |cs| && NodeKeeps(cs, j)
    decreases |cs| - i
  {
    hide NodeKeeps, Selects;
    if i == |cs| {
      idx := [];
      NoneSelected(cs);
    } else {
      idx := KeptSelects(cs, i + 1);
      if NodeKeeps(cs, i) {
        SelectEarlier(cs, NodeKept(cs, i + 1), idx, i, cs[i]);
        idx := [i] + idx;
      }
    }
  }

  /** Searching the list as the Node loop finds it at step `i` decides `NodeKeeps`. */
  lemma NodeSearch(cs: seq<Codec>, i: nat)
    requires i < |cs| && IsRtx(cs[i])
    ensures AptIndex(cs[..i + 1] + NodeKept(cs, i + 1), cs[i]).Some? <==> NodeKeeps(cs, i)
  {
    if NodeKeeps(cs, i) {
      var j :| 0 <= j < |cs| && Protects(cs, i, j) && (j <= i || NodeKeeps(cs, j));
      NodeFinds(cs, i, j);
    } else {
      assert forall j :: 0 <= j < |cs| && Protects(cs, i, j) ==> j > i && !NodeKeeps(cs, j);
      NodeMisses(cs, i);
    }
  }

  lemma NodeFinds(cs: seq<Codec>, i: nat, j: nat)
    requires i < |cs| && j < |cs| && Protects(cs, i, j) && (j <= i || NodeKeeps(cs, j))
    ensures AptIndex(cs[..i + 1] + NodeKept(cs, i + 1), cs[i]).Some?
  {
    hide NodeKeeps, AptIndex;
    var now := cs[..i + 1] + NodeKept(cs, i + 1);
    if j <= i {
      assert now[j] == cs[j];
    } else {
      var k := NodeKeptHas(cs, i + 1, j);
      assert now[i + 1 + k] == cs[j];
    }
  }

  lemma NodeMisses(cs: seq<Codec>, i: nat)
    requires i < |cs| && forall j :: 0 <= j < |cs| && Protects(cs, i, j) ==> j > i && !NodeKeeps(cs, j)
    ensures AptIndex(cs[..i + 1] + NodeKept(cs, i + 1), cs[i]).None?
  {
    hide NodeKeeps, AptIndex;
    var now := cs[..i + 1] + NodeKept(cs, i + 1);
    forall k | 0 <= k < |now|
      ensures !AptIs(cs[i], now[k].payloadType)
    {
      if k <= i {
        assert !Protects(cs, i, k);
      } else {
        var j := NodeKeptAt(cs, i + 1, k - (i + 1));
        assert !Protects(cs, i, j);
      }
    }
  }

  /** The Node loop; `rtxSupported` tells whether an RTX codec is left. */
  method SanitizeNode(matched: seq<Codec>) returns (codecs: seq<Codec>, rtxSupported: bool)
    ensures codecs == NodeKept(matched, 0)
    ensures rtxSupported <==> HasRtx(codecs)
  {
    hide IsRtx, NodeKeeps, AptIndex;
    codecs, rtxSupported := matched, false;
    var idx := |matched|;
    while idx > 0
      invariant 0 <= idx <= |matched|
      invariant codecs == matched[..idx] + NodeKept(matched, idx)
      invariant rtxSupported <==> HasRtx(NodeKept(matched, idx))
    {
      idx := idx - 1;
      ghost var later := NodeKept(matched, idx + 1);
      assert codecs == matched[..idx] + [matched[idx]] + later;
      assert codecs == matched[..idx + 1] + later;
      var codec := codecs[idx];
      if IsRtx(codec) {
        NodeSearch(matched, idx);
        if AptIndex(codecs, codec).Some? {
          rtxSupported := true;
          assert ([codec] + later)[0] == codec;
        } else {
          codecs := codecs[..idx] + codecs[idx + 1..];
        }
      } else {
        MediaIsKept(matched, idx);
        RtxBehindMedia(codec, later);
      }
    }
  }

  lemma MediaIsKept(cs: seq<Codec>, i: nat)
    requires i < |cs| && !IsRtx(cs[i])
    ensures NodeKeeps(cs, i) && RustKeeps(cs, i)
  {
  }

  lemma RtxBehindMedia(c: Codec, cs: seq<Codec>)
    requires !IsRtx(c)
    ensures HasRtx([c] + cs) == HasRtx(cs)
  {
    hide IsRtx;
    if HasRtx(cs) {
      var i :| 0 <= i < |cs| && IsRtx(cs[i]);
      assert ([c] + cs)[i + 1] == cs[i];
    }
    if HasRtx([c] + cs) {
      var i :| 0 <= i < |[c] + cs| && IsRtx(([c] + cs)[i]);
      assert cs[i - 1] == ([c] + cs)[i];
    }
  }

  // ----- Rust

  /** Positions before `n` that Rust collects for removal. */
  function Drops(cs: seq<Codec>, n: nat): (s: seq<nat>)
    requires n <= |cs|
    ensures forall k :: 0 <= k < |s| ==> s[k] < n && !RustKeeps(cs, s[k])
  {
    if n == 0 then []
    else if RustKeeps(cs, n - 1) then Drops(cs, n - 1)
    else Drops(cs, n - 1) + [n - 1]
  }

  /** Removing the collected positions, last one first. */
  function RemoveLast(cs: seq<Codec>, current: seq<Codec>, n: nat): seq<Codec>
    requires n <= |cs| && n <= |current|
  {
    if n == 0 then current
    else if RustKeeps(cs, n - 1) then RemoveLast(cs, current, n - 1)
    else RemoveLast(cs, current[..n - 1] + current[n..], n - 1)
  }

  lemma {:induction false} RemovalKeeps(cs: seq<Codec>, n: nat)
    requires n <= |cs|
    ensures RemoveLast(cs, cs[..n] + RustKept(cs, n), n) == RustKept(cs, 0)
  {
    hide RustKeeps;
    var current := cs[..n] + RustKept(cs, n);
    if n == 0 {
      assert current == RustKept(cs, 0);
    } else {
      RemovalKeeps(cs, n - 1);
      assert cs[..n] == cs[..n - 1] + [cs[n - 1]];
      if RustKeeps(cs, n - 1) {
        assert current == cs[..n - 1] + RustKept(cs, n - 1);
      } else {
        assert current[..n - 1] + current[n..] == cs[..n - 1] + RustKept(cs, n - 1);
      }
    }
  }

  /** The Rust version: collect the positions, then remove them in reverse. */
  method SanitizeRust(matched: seq<Codec>) returns (codecs: seq<Codec>, rtxSupported: bool)
    ensures codecs == RustKept(matched, 0)
    ensures rtxSupported <==> exists i :: 0 <= i < |matched| && IsRtx(matched[i]) && RustKeeps(matched, i)
  {
    hide IsRtx;
    rtxSupported := false;
    var removals: seq<nat> := [];
    for idx := 0 to |matched|
      invariant removals == Drops(matched, idx)
      invariant rtxSupported <==> exists i :: 0 <= i < idx && IsRtx(matched[i]) && RustKeeps(matched, i)
    {
      if IsRtx(matched[idx]) {
        RustSearch(matched, idx);
        if AptIndex(matched, matched[idx]).Some? {
          rtxSupported := true;
        } else {
          removals := removals + [idx];
        }
      }
    }
    codecs := RemoveAll(matched, removals);
  }

  lemma RustSearch(cs: seq<Codec>, i: nat)
    requires i < |cs| && IsRtx(cs[i])
    ensures AptIndex(cs, cs[i]).Some? <==> RustKeeps(cs, i)
  {
    hide IsRtx, AptIndex;
    var found := AptIndex(cs, cs[i]);
    if found.Some? {
      assert Protects(cs, i, found.value);
    }
  }

  method RemoveAll(matched: seq<Codec>, removals: seq<nat>) returns (codecs: seq<Codec>)
    requires removals == Drops(matched, |matched|)
    ensures codecs == RustKept(matched, 0)
  {
    hide RustKeeps;
    codecs := matched;
    var k := |removals|;
    ghost var n: nat := |matched|;
    assert matched[..n] + RustKept(matched, n) == matched;
    RemovalKeeps(matched, n);
    n := SkipKept(matched, codecs, n);
    while k > 0
      invariant 0 <= k <= |removals| && n <= |matched| && n <= |codecs|
      invariant removals[..k] == Drops(matched, n)
      invariant n > 0 ==> !RustKeeps(matched, n - 1)
      invariant RemoveLast(matched, codecs, n) == RustKept(matched, 0)
    {
      k := k - 1;
      assert n > 0 && removals[k] == n - 1 && removals[..k] == Drops(matched, n - 1) by {
        assert removals[..k + 1] == removals[..k] + [removals[k]];
      }
      codecs := codecs[..removals[k]] + codecs[removals[k] + 1..];
      n := SkipKept(matched, codecs, n - 1);
    }
    assert Drops(matched, n) == [];
  }

  /** Moves down to the next position to remove. */
  lemma {:induction false} SkipKept(cs: seq<Codec>, current: seq<Codec>, n: nat) returns (m: nat)
    requires n <= |cs| && n <= |current|
    ensures m <= n && (m > 0 ==> !RustKeeps(cs, m - 1))
    ensures Drops(cs, m) == Drops(cs, n) && RemoveLast(cs, current, m) == RemoveLast(cs, current, n)
    decreases n
  {
    hide RustKeeps;
    if n == 0 || !RustKeeps(cs, n - 1) {
      m := n;
    } else {
      m := SkipKept(cs, current, n - 1);
    }
  }

  // ----- Agreement

  /**
   The RTX codec at `i` names a payload type that only later RTX codecs carry, all of
   which name payload types that nothing in the list carries.
   */
  ghost predicate NamesOrphans(cs: seq<Codec>, i: nat)
    requires i < |cs|
  {
    && IsRtx(cs[i])
    && (exists j :: 0 <= j < |cs| && Protects(cs, i, j))
    && (forall j :: 0 <= j < |cs| && Protects(cs, i, j) ==> i < j && !RustKeeps(cs, j))
  }

  lemma NodeKeepsLess(cs: seq<Codec>, i: nat)
    requires i < |cs| && NodeKeeps(cs, i)
    ensures RustKeeps(cs, i)
  {
  }

  lemma {:induction false} KeepAlike(cs: seq<Codec>, i: nat)
    requires i < |cs| && forall k :: i <= k < |cs| ==> !NamesOrphans(cs, k)
    ensures NodeKeeps(cs, i) == RustKeeps(cs, i)
    decreases |cs| - i
  {
    hide IsRtx, Protects;
    if NodeKeeps(cs, i) {
      NodeKeepsLess(cs, i);
    } else if RustKeeps(cs, i) {
      assert !NamesOrphans(cs, i);
      var j :| 0 <= j < |cs| && Protects(cs, i, j) && !(i < j && !RustKeeps(cs, j));
      if i < j {
        KeepAlike(cs, j);
      }
    }
  }

  lemma OrphansSplit(cs: seq<Codec>, i: nat)
    requires i < |cs| && NamesOrphans(cs, i)
    ensures RustKeeps(cs, i) && !NodeKeeps(cs, i)
  {
    hide IsRtx, Protects;
    if NodeKeeps(cs, i) {
      var j :| 0 <= j < |cs| && Protects(cs, i, j) && (j <= i || NodeKeeps(cs, j));
      NodeKeepsLess(cs, j);
    }
  }

  lemma {:induction false} KeptLengths(cs: seq<Codec>, i: nat)
    requires i <= |cs|
    ensures |NodeKept(cs, i)| <= |RustKept(cs, i)|
    ensures (exists k :: i <= k < |cs| && RustKeeps(cs, k) && !NodeKeeps(cs, k)) ==>
      |NodeKept(cs, i)| < |RustKept(cs, i)|
    decreases |cs| - i
  {
    hide NodeKeeps, RustKeeps;
    if i < |cs| {
      KeptLengths(cs, i + 1);
      if NodeKeeps(cs, i) {
        NodeKeepsLess(cs, i);
      }
    }
  }

  lemma {:induction false} KeptAlike(cs: seq<Codec>, i: nat)
    requires i <= |cs| && forall k :: i <= k < |cs| ==> NodeKeeps(cs, k) == RustKeeps(cs, k)
    ensures NodeKept(cs, i) == RustKept(cs, i)
    decreases |cs| - i
  {
    hide NodeKeeps, RustKeeps;
    if i < |cs| {
      KeptAlike(cs, i + 1);
    }
  }

  /**
   Node and Rust keep the same codecs iff no RTX codec names a payload type that only
   later orphan RTX codecs carry. (Rust then keeps it, Node does not.)
   */
  lemma NodeAgreesWithRust(cs: seq<Codec>)
    ensures NodeKept(cs, 0) == RustKept(cs, 0) <==> forall i :: 0 <= i < |cs| ==> !NamesOrphans(cs, i)
  {
    hide NodeKeeps, RustKeeps, NamesOrphans;
    if i :| 0 <= i < |cs| && NamesOrphans(cs, i) {
      OrphansSplit(cs, i);
      KeptLengths(cs, 0);
    } else {
      forall k | 0 <= k < |cs|
        ensures NodeKeeps(cs, k) == RustKeeps(cs, k)
      {
        KeepAlike(cs, k);
      }
      KeptAlike(cs, 0);
    }
  }

  /** RTX codecs name media codecs only, as in every list that a router negotiates. */
  ghost predicate NamesMedia(cs: seq<Codec>) {
    forall i, j :: 0 <= i < |cs| && 0 <= j < |cs| && IsRtx(cs[i]) && Protects(cs, i, j) ==> !IsRtx(cs[j])
  }

  /** On such lists both are the filter that keeps media codecs and RTX codecs whose media codec is present. */
  lemma BothAreTheFilter(cs: seq<Codec>)
    requires NamesMedia(cs)
    ensures NodeKept(cs, 0) == RustKept(cs, 0)
    ensures forall i :: 0 <= i < |cs| ==>
      (NodeKeeps(cs, i) <==> !IsRtx(cs[i]) || exists j :: 0 <= j < |cs| && !IsRtx(cs[j]) && Protects(cs, i, j))
  {
    forall i | 0 <= i < |cs|
      ensures !NamesOrphans(cs, i)
      ensures NodeKeeps(cs, i) <==> !IsRtx(cs[i]) || exists j :: 0 <= j < |cs| && !IsRtx(cs[j]) && Protects(cs, i, j)
    {
      hide IsRtx, Protects;
      if IsRtx(cs[i]) && exists j :: 0 <= j < |cs| && Protects(cs, i, j) {
        var j :| 0 <= j < |cs| && Protects(cs, i, j);
        MediaIsKept(cs, j);
      }
    }
    NodeAgreesWithRust(cs);
  }

  /** A list on which they part: an RTX codec naming a later RTX codec that protects nothing. */
  lemma NodeAndRustPart(cs: seq<Codec>)
    requires |cs| == 2 && IsRtx(cs[0]) && IsRtx(cs[1])
    requires AptIs(cs[0], cs[1].payloadType) && cs[0].payloadType != cs[1].payloadType
    requires !AptIs(cs[1], cs[0].payloadType) && !AptIs(cs[1], cs[1].payloadType)
    ensures RustKept(cs, 0) == [cs[0]] && NodeKept(cs, 0) == []
  {
    hide IsRtx;
    assert Protects(cs, 0, 1);
    assert NamesOrphans(cs, 0);
    OrphansSplit(cs, 0);
    assert RustKept(cs, 1) == [] && NodeKept(cs, 1) == [] by {
      assert !RustKeeps(cs, 1);
      assert !NodeKeeps(cs, 1);
    }
  }
}
