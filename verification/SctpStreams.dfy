/**
 SCTP stream ids of the data consumers of a transport: a bitmap with a cyclic cursor,
 filled by `consumeData` and cleared by the close events of data consumers.
 */
module SctpStreams {
  import opened Wrappers

  /** The greatest number of streams of an SCTP association. */
  const STREAMS: int := 65535

  // ----- Allocation

  /** The first free id in cyclic order, `idx` positions after `start` or later. */
  function Search(marked: set<nat>, start: nat, idx: nat): Option<nat>
    requires idx <= STREAMS
    decreases STREAMS - idx
  {
    if idx == STREAMS then None
    else
      var id := (start + idx) % STREAMS;
      if id !in marked then Some(id) else Search(marked, start, idx + 1)
  }

  /** The cursor goes back to 0 when it has reached the negotiated number of streams. */
  function Cursor(next: nat, negotiated: Option<nat>): nat {
    if negotiated.Some? && next + 1 > negotiated.value then 0 else next
  }

  function Allocation(marked: set<nat>, next: nat, negotiated: Option<nat>): Option<nat> {
    Search(marked, Cursor(next, negotiated), 0)
  }

  /** How far `id` is from `start`, going around. */
  function Distance(start: nat, id: nat): (d: nat)
    requires id < STREAMS
    ensures d < STREAMS
  {
    (id - start) % STREAMS
  }

  lemma DistanceReaches(start: nat, id: nat)
    requires id < STREAMS
    ensures (start + Distance(start, id)) % STREAMS == id
  {
    var d := id - start;
    assert d == STREAMS * (d / STREAMS) + d % STREAMS;
    assert start + d % STREAMS == id + STREAMS * (-(d / STREAMS));
    AddMultiple(id, -(d / STREAMS));
  }

  lemma AddMultiple(x: int, q: int)
    requires 0 <= x < STREAMS
    ensures (x + STREAMS * q) % STREAMS == x
  {
  }

  lemma DistanceIsUnique(start: nat, d: nat)
    requires d < STREAMS
    ensures Distance(start, (start + d) % STREAMS) == d
  {
    var x := start + d;
    assert x == STREAMS * (x / STREAMS) + x % STREAMS;
    assert x % STREAMS - start == d + STREAMS * (-(x / STREAMS));
    AddMultiple(d, -(x / STREAMS));
  }

  lemma {:induction false} SearchFinds(marked: set<nat>, start: nat, idx: nat)
    requires idx <= STREAMS
    ensures var r := Search(marked, start, idx);
            && (r.Some? ==> r.value < STREAMS && r.value !in marked && idx <= Distance(start, r.value))
            && (forall id :: 0 <= id < STREAMS && idx <= Distance(start, id) && id !in marked ==>
              r.Some? && Distance(start, r.value) <= Distance(start, id))
    decreases STREAMS - idx
  {
    if idx < STREAMS {
      var here := (start + idx) % STREAMS;
      DistanceIsUnique(start, idx);
      SearchFinds(marked, start, idx + 1);
      forall id | 0 <= id < STREAMS && Distance(start, id) == idx
        ensures id == here
      {
        DistanceReaches(start, id);
      }
    }
  }

  /** `id` is the first free id in cyclic order from `next` on. */
  ghost predicate IsNextFree(marked: set<nat>, next: nat, id: nat) {
    && id < STREAMS && id !in marked
    && forall other :: 0 <= other < STREAMS && other !in marked ==> Distance(next, id) <= Distance(next, other)
  }

  /** `id` is the least free id. */
  ghost predicate IsLeastFree(marked: set<nat>, id: nat) {
    && id < STREAMS && id !in marked
    && forall other :: 0 <= other < STREAMS && other !in marked ==> id <= other
  }

  /**
   Allocation fails iff all ids are taken. As long as the cursor is below the negotiated number
   of streams, if there is one, it returns the first free id in cyclic order from the cursor
   on; otherwise the least free id.
   */
  lemma AllocatesFirstFree(marked: set<nat>, next: nat, negotiated: Option<nat>)
    ensures var r := Allocation(marked, next, negotiated);
            && (r.None? <==> forall id :: 0 <= id < STREAMS ==> id in marked)
            && (r.Some? && (negotiated.None? || next < negotiated.value) ==> IsNextFree(marked, next, r.value))
            && (r.Some? && negotiated.Some? && next >= negotiated.value ==> IsLeastFree(marked, r.value))
  {
    hide Search, Distance;
    var start := Cursor(next, negotiated);
    SearchFinds(marked, start, 0);
    var r := Allocation(marked, next, negotiated);
    if r.Some? {
      assert IsNextFree(marked, start, r.value);
      if start == 0 {
        LeastFromZero(marked, r.value);
      }
    }
  }

  lemma LeastFromZero(marked: set<nat>, id: nat)
    requires IsNextFree(marked, 0, id)
    ensures IsLeastFree(marked, id)
  {
    assert forall other :: 0 <= other < STREAMS ==> Distance(0, other) == other;
  }

  /** There is only one such id, so that these conditions say which id is returned. */
  lemma NextFreeIsUnique(marked: set<nat>, next: nat, a: nat, b: nat)
    requires IsNextFree(marked, next, a) && IsNextFree(marked, next, b)
    ensures a == b
  {
    DistanceReaches(next, a);
    DistanceReaches(next, b);
  }

  /** In cyclic order, free ids from the cursor to the end come first. */
  lemma NextFreeGoesOn(marked: set<nat>, next: nat, id: nat)
    requires IsNextFree(marked, next, id) && next <= STREAMS
    ensures id < next <==> forall other :: next <= other < STREAMS ==> other in marked
    ensures next < STREAMS && next !in marked ==> id == next
  {
    assert forall other :: next <= other < STREAMS ==> Distance(next, other) == other - next;
    assert forall other :: 0 <= other < next && other < STREAMS ==> Distance(next, other) == other - next + STREAMS;
  }

  /**
   The negotiated number of streams only moves the cursor. An id at or above it is
   handed out iff none from the cursor up to it is free and some id at or above it is.
   */
  lemma ExceedsNegotiated(marked: set<nat>, next: nat, limit: nat)
    requires 0 < limit < STREAMS && Allocation(marked, next, Some(limit)).Some?
    ensures Allocation(marked, next, Some(limit)).value >= limit <==>
      && (forall id :: (if next < limit then next else 0) <= id < limit ==> id in marked)
      && (exists id :: limit <= id < STREAMS && id !in marked)
  {
    AllocatesFirstFree(marked, next, Some(limit));
    var r := Allocation(marked, next, Some(limit)).value;
    if next < limit {
      assert IsNextFree(marked, next, r);
      assert forall id :: next <= id < STREAMS ==> Distance(next, id) == id - next;
      assert forall id :: 0 <= id < next ==> Distance(next, id) == id - next + STREAMS;
    } else {
      assert IsLeastFree(marked, r);
    }
  }

  // ----- The transport

  /**
   `inFlight` holds the ids of calls of `consumeData` waiting for the worker, `open` those
   of open data consumers, both by call; `retained` those of failed calls and of data
   consumers closed together with the transport, which are never freed.
   */
  datatype State = State(
    marked: set<nat>,
    next: nat,
    negotiated: Option<nat>,
    inFlight: map<nat, nat>,
    open: map<nat, nat>,
    retained: set<nat>)

  datatype Event =
    | Negotiated(max: nat)
    | Begin(call: nat)
    | Complete(call: nat)
    | Fail(call: nat)
    | CloseConsumer(call: nat)
    | TransportClosed

  const INITIAL: State := State({}, 0, None, map[], map[], {})

  predicate Known(s: State, call: nat) {
    call in s.inFlight || call in s.open
  }

  function OnBegin(s: State, call: nat): State {
    if Known(s, call) then s
    else
      var cursor := Cursor(s.next, s.negotiated);
      match Allocation(s.marked, s.next, s.negotiated)
      case None => s.(next := cursor)
      case Some(id) => s.(marked := s.marked + {id}, next := id + 1, inFlight := s.inFlight[call := id])
  }

  function OnComplete(s: State, call: nat): State {
    if call !in s.inFlight then s
    else s.(inFlight := s.inFlight - {call}, open := s.open[call := s.inFlight[call]])
  }

  function OnFail(s: State, call: nat): State {
    if call !in s.inFlight then s
    else s.(inFlight := s.inFlight - {call}, retained := s.retained + {s.inFlight[call]})
  }

  /** Closing a data consumer, by the application or because its data producer was closed. */
  function OnCloseConsumer(s: State, call: nat): State {
    if call !in s.open then s
    else s.(marked := s.marked - {s.open[call]}, open := s.open - {call})
  }

  /** Data consumers closed by their transport do not report it, so that their ids stay marked. */
  function OnTransportClosed(s: State): State {
    s.(open := map[], retained := s.retained + s.open.Values)
  }

  function Step(s: State, e: Event): State {
    match e
    case Negotiated(max) => s.(negotiated := Some(max))
    case Begin(call) => OnBegin(s, call)
    case Complete(call) => OnComplete(s, call)
    case Fail(call) => OnFail(s, call)
    case CloseConsumer(call) => OnCloseConsumer(s, call)
    case TransportClosed => OnTransportClosed(s)
  }

  /** The ids marked in a bitmap. */
  ghost function MarkedIn(bits: seq<bool>): set<nat> {
    set i: nat | 0 <= i < |bits| && bits[i]
  }

  lemma MarkedAt(bits: seq<bool>, id: nat)
    requires id < |bits|
    ensures id in MarkedIn(bits) <==> bits[id]
  {
  }

  lemma MarkOne(bits: seq<bool>, id: nat)
    requires id < |bits|
    ensures MarkedIn(bits[id := true]) == MarkedIn(bits) + {id}
  {
  }

  /** What the search finds from position `idx` on. */
  lemma SearchHere(marked: set<nat>, start: nat, idx: nat)
    requires idx <= STREAMS
    ensures idx == STREAMS ==> Search(marked, start, idx) == None
    ensures idx < STREAMS ==>
      var id := (start + idx) % STREAMS;
      Search(marked, start, idx) == if id !in marked then Some(id) else Search(marked, start, idx + 1)
  {
  }

  lemma NoneMarked(bits: seq<bool>)
    requires forall i :: 0 <= i < |bits| ==> !bits[i]
    ensures MarkedIn(bits) == {}
  {
  }

  /** The loop of `allocateSctpStreamId`. */
  method FirstFree(ids: array<bool>, start: nat) returns (r: Option<nat>)
    requires ids.Length == STREAMS
    ensures r == Search(MarkedIn(ids[..]), start, 0)
    ensures r.Some? ==> r.value < STREAMS
  {
    hide Search, MarkedIn;
    ghost var marked := MarkedIn(ids[..]);
    for idx := 0 to ids.Length
      invariant Search(marked, start, idx) == Search(marked, start, 0)
    {
      var id := (start + idx) % ids.Length;
      SearchHere(marked, start, idx);
      MarkedAt(ids[..], id);
      if !ids[id] { return Some(id); }
    }
    SearchHere(marked, start, STREAMS);
    return None;
  }

  class Transport {
    var streamIds: array?<bool>
    var nextStreamId: nat
    var negotiated: Option<nat>
    var inFlight: map<nat, nat>
    var open: map<nat, nat>
    ghost var retained: set<nat>

    ghost predicate Shaped()
      reads this
    {
      streamIds != null ==> streamIds.Length == STREAMS
    }

    ghost function Marked(): set<nat>
      requires Shaped()
      reads this, streamIds
    {
      if streamIds == null then {} else MarkedIn(streamIds[..])
    }

    ghost function Model(): State
      requires Shaped()
      reads this, streamIds
    {
      State(Marked(), nextStreamId, negotiated, inFlight, open, retained)
    }

    constructor ()
      ensures Shaped() && Model() == INITIAL
    {
      streamIds, nextStreamId, negotiated, inFlight, open, retained := null, 0, None, map[], map[], {};
    }

    /** `allocateSctpStreamId`; `None` when it throws. */
    method AllocateStreamId() returns (r: Option<nat>)
      requires Shaped()
      modifies this`streamIds, this`nextStreamId, streamIds
      ensures Shaped() && (streamIds == old(streamIds) || fresh(streamIds))
      ensures r == Allocation(old(Marked()), old(nextStreamId), negotiated)
      ensures r.None? <==> forall id :: 0 <= id < STREAMS ==> id in old(Marked())
      ensures r.Some? && (negotiated.None? || old(nextStreamId) < negotiated.value) ==>
        IsNextFree(old(Marked()), old(nextStreamId), r.value)
      ensures r.Some? && negotiated.Some? && old(nextStreamId) >= negotiated.value ==>
        IsLeastFree(old(Marked()), r.value)
      ensures Marked() == old(Marked()) + (if r.Some? then {r.value} else {})
      ensures nextStreamId == if r.Some? then r.value + 1 else Cursor(old(nextStreamId), negotiated)
      ensures r.None? ==>
        nextStreamId == if negotiated.Some? && old(nextStreamId) >= negotiated.value then 0 else old(nextStreamId)
    {
      hide Search, MarkedIn, IsNextFree, IsLeastFree;
      AllocatesFirstFree(Marked(), nextStreamId, negotiated);
      ghost var before := Marked();
      if streamIds == null {
        streamIds := new bool[STREAMS](_ => false);
        NoneMarked(streamIds[..]);
      }
      if negotiated.Some? && nextStreamId + 1 > negotiated.value {
        nextStreamId := 0;
      }
      r := FirstFree(streamIds, nextStreamId);
      if r.Some? {
        MarkOne(streamIds[..], r.value);
        streamIds[r.value] := true;
        nextStreamId := r.value + 1;
      }
    }

    method BeginConsumeData(call: nat) returns (ok: bool)
      requires Shaped()
      requires !Known(Model(), call)
      modifies this, streamIds
      ensures Shaped() && Model() == OnBegin(old(Model()), call)
      ensures ok <==> Allocation(old(Marked()), old(nextStreamId), old(negotiated)).Some?
    {
      var id := AllocateStreamId();
      if id.None? { return false; }
      inFlight := inFlight[call := id.value];
      return true;
    }

    method EndConsumeData(call: nat, ok: bool)
      requires Shaped() && call in inFlight
      modifies this
      ensures Shaped() && Model() == (if ok then OnComplete(old(Model()), call) else OnFail(old(Model()), call))
    {
      if ok {
        open := open[call := inFlight[call]];
      } else {
        retained := retained + {inFlight[call]};
      }
      inFlight := inFlight - {call};
    }

    /** The '@close' and '@dataproducerclose' handlers behind the closed flag of the data consumer. */
    method CloseDataConsumer(call: nat)
      requires Shaped() && Sound(Model())
      modifies this, streamIds
      ensures Shaped() && Model() == OnCloseConsumer(old(Model()), call)
    {
      if call !in open { return; }
      var id := open[call];
      open := open - {call};
      assert id in Marked();
      if streamIds != null {
        streamIds[id] := false;
      }
    }

    method CloseAllDataConsumers()
      requires Shaped()
      modifies this
      ensures Shaped() && Model() == OnTransportClosed(old(Model()))
    {
      retained := retained + open.Values;
      open := map[];
    }
  }

  // ----- What holds in every run

  ghost predicate Injective(m: map<nat, nat>) {
    forall a, b :: a in m && b in m && a != b ==> m[a] != m[b]
  }

  /** Marked ids are those in flight, of open data consumers and retained, without overlap. */
  ghost predicate Sound(s: State) {
    && Injective(s.inFlight) && Injective(s.open)
    && s.inFlight.Values !! s.open.Values
    && s.retained !! (s.inFlight.Values + s.open.Values)
    && s.marked == s.inFlight.Values + s.open.Values + s.retained
    && s.inFlight.Keys !! s.open.Keys
    && (forall id :: id in s.marked ==> id < STREAMS)
    && s.next <= STREAMS
  }

  lemma RemovedValues(m: map<nat, nat>, key: nat)
    requires Injective(m) && key in m
    ensures Injective(m - {key}) && (m - {key}).Values == m.Values - {m[key]}
  {
    var r := m - {key};
    forall v | v in m.Values - {m[key]}
      ensures v in r.Values
    {
      var k :| k in m && m[k] == v;
      assert k in r && r[k] == v;
    }
  }

  lemma AddedValues(m: map<nat, nat>, key: nat, v: nat)
    requires Injective(m) && key !in m && v !in m.Values
    ensures Injective(m[key := v]) && m[key := v].Values == m.Values + {v}
  {
    var r := m[key := v];
    assert r[key] == v;
    forall x | x in m.Values
      ensures x in r.Values
    {
      var k :| k in m && m[k] == x;
      assert r[k] == x;
    }
  }

  lemma StepKeepsSound(s: State, e: Event)
    requires Sound(s)
    ensures Sound(Step(s, e))
  {
    match e
    case Negotiated(_) =>
    case Begin(call) =>
      AllocatesFirstFree(s.marked, s.next, s.negotiated);
      var r := Allocation(s.marked, s.next, s.negotiated);
      if !Known(s, call) && r.Some? {
        AddedValues(s.inFlight, call, r.value);
      }
    case Complete(call) =>
      if call in s.inFlight {
        RemovedValues(s.inFlight, call);
        AddedValues(s.open, call, s.inFlight[call]);
      }
    case Fail(call) =>
      if call in s.inFlight {
        RemovedValues(s.inFlight, call);
      }
    case CloseConsumer(call) =>
      if call in s.open {
        RemovedValues(s.open, call);
      }
    case TransportClosed =>
  }

  function Run(s: State, events: seq<Event>): State
    decreases |events|
  {
    if events == [] then s else Run(Step(s, events[0]), events[1..])
  }

  /** In every run the marked ids are exactly those, and all of them are different. */
  lemma {:induction false} RunsAreSound(s: State, events: seq<Event>)
    requires Sound(s)
    ensures Sound(Run(s, events))
    decreases |events|
  {
    if events != [] {
      StepKeepsSound(s, events[0]);
      RunsAreSound(Step(s, events[0]), events[1..]);
    }
  }

  /** Open data consumers never share a stream id, nor does a call in flight get one of theirs. */
  lemma StreamIdsDiffer(events: seq<Event>, a: nat, b: nat)
    requires var s := Run(INITIAL, events); a in s.open && (b in s.open || b in s.inFlight) && a != b
    ensures var s := Run(INITIAL, events);
            && (b in s.open ==> s.open[a] != s.open[b])
            && (b in s.inFlight ==> s.open[a] != s.inFlight[b])
            && s.open[a] in s.marked
  {
    RunsAreSound(INITIAL, events);
    var s := Run(INITIAL, events);
    assert s.open[a] in s.open.Values;
    if b in s.inFlight {
      assert s.inFlight[b] in s.inFlight.Values;
    }
  }

  /** Closing a data consumer frees its own id, and no other, and only the first time. */
  lemma CloseFreesOwnId(events: seq<Event>, call: nat)
    ensures var s := Run(INITIAL, events);
            var t := Step(s, CloseConsumer(call));
            && t.marked == s.marked - (if call in s.open then {s.open[call]} else {})
            && (call in s.open ==> s.open[call] in s.marked)
            && Step(t, CloseConsumer(call)) == t
            && (forall other :: other in s.open && other != call ==> other in t.open && t.open[other] in t.marked)
  {
    RunsAreSound(INITIAL, events);
    var s := Run(INITIAL, events);
    forall other | other in s.open
      ensures s.open[other] in s.open.Values
    {
    }
  }

  // ----- In which order ids are handed out

  /** What each event does to the marked ids, the calls, the cursor and the negotiated number. */
  lemma MarksChange(s: State, e: Event)
    ensures var t := Step(s, e);
            && (e.Begin? && !Known(s, e.call) && (exists id :: 0 <= id < STREAMS && id !in s.marked) ==>
              && e.call in t.inFlight && t.inFlight == s.inFlight[e.call := t.inFlight[e.call]]
              && t.inFlight[e.call] < STREAMS && t.inFlight[e.call] !in s.marked
              && t.marked == s.marked + {t.inFlight[e.call]} && t.next == t.inFlight[e.call] + 1)
            && (e.Begin? && (Known(s, e.call) || forall id :: 0 <= id < STREAMS ==> id in s.marked) ==>
              t == s.(next := t.next) && t.next <= s.next)
            && (e.CloseConsumer? ==> t.marked == s.marked - (if e.call in s.open then {s.open[e.call]} else {}))
            && (e.Complete? && e.call in s.inFlight ==> e.call in t.open && t.open[e.call] == s.inFlight[e.call])
            && (e.Fail? && e.call in s.inFlight ==> !Known(t, e.call) || e.call in s.open)
            && (!e.Begin? && !e.CloseConsumer? ==> t.marked == s.marked)
            && (!e.Begin? ==> t.next == s.next)
            && t.negotiated == if e.Negotiated? then Some(e.max) else s.negotiated
  {
    if e.Begin? {
      AllocatesFirstFree(s.marked, s.next, s.negotiated);
    }
  }

  lemma {:induction false} CursorStays(s: State, events: seq<Event>)
    requires forall i :: 0 <= i < |events| ==> !events[i].Begin?
    ensures Run(s, events).next == s.next
    decreases |events|
  {
    if events != [] {
      MarksChange(s, events[0]);
      hide Step;
      CursorStays(Step(s, events[0]), events[1..]);
    }
  }

  /**
   Ids are handed out one after the other: whatever is closed, completed or failed between two
   calls, the second one gets the id next to the first one's if that is free and below the
   negotiated number of streams.
   */
  lemma ConsecutiveIds(s: State, first: nat, between: seq<Event>, second: nat)
    requires !Known(s, first) && (exists id :: 0 <= id < STREAMS && id !in s.marked)
    requires forall i :: 0 <= i < |between| ==> !between[i].Begin?
    requires var t := Step(s, Begin(first));
             var u := Run(t, between);
             && first in t.inFlight && !Known(u, second)
             && t.inFlight[first] + 1 < STREAMS && t.inFlight[first] + 1 !in u.marked
             && (u.negotiated.None? || t.inFlight[first] + 1 < u.negotiated.value)
    ensures var t := Step(s, Begin(first));
            var v := Step(Run(t, between), Begin(second));
            second in v.inFlight && v.inFlight[second] == t.inFlight[first] + 1
  {
    hide Run, IsNextFree;
    MarksChange(s, Begin(first));
    var t := Step(s, Begin(first));
    CursorStays(t, between);
    var u := Run(t, between);
    AllocatesFirstFree(u.marked, u.next, u.negotiated);
    hide Search;
    NextFreeGoesOn(u.marked, u.next, Allocation(u.marked, u.next, u.negotiated).value);
  }

  /** The next call starts over: the cursor has reached the negotiated number, or no id from it on is free. */
  ghost predicate GoesRound(s: State) {
    || (s.negotiated.Some? && s.next >= s.negotiated.value)
    || (forall id :: s.next <= id < STREAMS ==> id in s.marked)
  }

  lemma BeginGoesOn(s: State, e: Event, x: nat)
    requires s.next <= STREAMS && x < s.next && x !in s.marked && (e.Begin? ==> !GoesRound(s))
    ensures x !in Step(s, e).marked && s.next <= Step(s, e).next <= STREAMS
  {
    MarksChange(s, e);
    if e.Begin? {
      AllocatesFirstFree(s.marked, s.next, s.negotiated);
      hide Search;
      NextFreeGoesOn(s.marked, s.next, Allocation(s.marked, s.next, s.negotiated).value);
    }
  }

  /** A free id behind the cursor is handed out only after some call started over. */
  lemma {:induction false} ReusedOnlyAfterRound(s: State, events: seq<Event>, x: nat) returns (n: nat)
    requires s.next <= STREAMS && x < s.next && x !in s.marked && x in Run(s, events).marked
    ensures n < |events| && events[n].Begin? && GoesRound(Run(s, events[..n]))
    ensures x !in Run(s, events[..n]).marked
    decreases |events|
  {
    hide Step, GoesRound;
    assert events != [];
    if events[0].Begin? && GoesRound(s) {
      n := 0;
      assert events[..0] == [];
    } else {
      BeginGoesOn(s, events[0], x);
      n := ReusedOnlyAfterRound(Step(s, events[0]), events[1..], x);
      n := n + 1;
      assert events[..n][0] == events[0] && events[..n][1..] == events[1..][..n - 1];
    }
  }

  /** The id of a failed call, or of a data consumer closed with its transport, is never handed out again. */
  lemma {:induction false} RetainedForever(s: State, events: seq<Event>, id: nat)
    requires Sound(s) && id in s.retained
    ensures var t := Run(s, events);
            id in t.marked && id !in t.open.Values && id !in t.inFlight.Values && id in t.retained
    decreases |events|
  {
    if events != [] {
      StepKeepsSound(s, events[0]);
      assert id in Step(s, events[0]).retained;
      hide Step, Sound;
      RetainedForever(Step(s, events[0]), events[1..], id);
    }
  }

  lemma WhatIsRetained(s: State, call: nat, events: seq<Event>)
    requires Sound(s)
    ensures call in s.inFlight ==> s.inFlight[call] in Run(Step(s, Fail(call)), events).retained
    ensures call in s.open ==> s.open[call] in Run(Step(s, TransportClosed), events).retained
  {
    StepKeepsSound(s, Fail(call));
    StepKeepsSound(s, TransportClosed);
    hide Run, Sound;
    if call in s.inFlight {
      RetainedForever(Step(s, Fail(call)), events, s.inFlight[call]);
    }
    if call in s.open {
      assert s.open[call] in s.open.Values;
      RetainedForever(Step(s, TransportClosed), events, s.open[call]);
    }
  }
}
