/**
 The sending half of the channel: requests get ids from a wrapping 32-bit counter, and
 responses are matched to them through a map of pending requests.
 */
module RequestCorrelator {

  const MAX_ID: int := 4294967295

  datatype Outcome =
    | Pending
    | NotSent
    | Resolved(body: string)
    | Rejected(reason: string)
    | Aborted

  /** One call of `request` on an open channel, and the state of its promise. */
  datatype Request = Request(id: nat, outcome: Outcome)

  /** `sents` maps the id of a pending request to its position among all requests. */
  datatype State = State(closed: bool, nextId: nat, sents: map<nat, nat>, requests: seq<Request>)

  datatype Verdict = Accepted(body: string) | Error(reason: string) | Neither

  /** How an accepted or refused request is settled. */
  function OutcomeOf(verdict: Verdict): Outcome
    requires !verdict.Neither?
  {
    match verdict
    case Accepted(body) => Resolved(body)
    case Error(reason) => Rejected(reason)
  }

  datatype Event =
    | Send(fits: bool)
    | Response(id: nat, verdict: Verdict)
    | Close

  const INITIAL: State := State(false, 0, map[], [])

  function NextId(id: nat): nat {
    if id < MAX_ID then id + 1 else 1
  }

  /** A request; one that is too big or cannot be written uses up an id but is not waited for. */
  function OnSend(s: State, fits: bool): State {
    if s.closed then s
    else
      var id := NextId(s.nextId);
      State(false, id, if fits then s.sents[id := |s.requests|] else s.sents,
            s.requests + [Request(id, if fits then Pending else NotSent)])
  }

  /** Settling a promise has an effect the first time only. */
  function Settle(requests: seq<Request>, k: nat, outcome: Outcome): (r: seq<Request>)
    requires k < |requests|
    ensures |r| == |requests|
  {
    if requests[k].outcome.Pending? then requests[k := requests[k].(outcome := outcome)] else requests
  }

  function OnResponse(s: State, id: nat, verdict: Verdict): State
    requires forall i :: i in s.sents ==> s.sents[i] < |s.requests|
  {
    if id !in s.sents || verdict.Neither? then s
    else
      s.(sents := s.sents - {id}, requests := Settle(s.requests, s.sents[id], OutcomeOf(verdict)))
  }

  function AbortedIf(r: Request, hit: bool): Request {
    if hit && r.outcome.Pending? then r.(outcome := Aborted) else r
  }

  /** Every pending request that is in the map is aborted; the map itself is left as it is. */
  function Abort(requests: seq<Request>, sents: map<nat, nat>): (r: seq<Request>)
    ensures |r| == |requests|
    ensures forall k :: 0 <= k < |r| ==> r[k] == AbortedIf(requests[k], k in sents.Values)
  {
    seq(|requests|, k requires 0 <= k < |requests| => AbortedIf(requests[k], k in sents.Values))
  }

  /** The requests `hit` have been aborted. */
  ghost predicate AbortedAt(before: seq<Request>, now: seq<Request>, hit: set<nat>) {
    |now| == |before| && forall k :: 0 <= k < |now| ==> now[k] == AbortedIf(before[k], k in hit)
  }

  lemma NoneAborted(before: seq<Request>)
    ensures AbortedAt(before, before, {})
  {
  }

  lemma AbortOneMore(before: seq<Request>, now: seq<Request>, hit: set<nat>, k: nat)
    requires AbortedAt(before, now, hit) && k < |now|
    ensures AbortedAt(before, Settle(now, k, Aborted), hit + {k})
  {
  }

  lemma AllAborted(before: seq<Request>, now: seq<Request>, sents: map<nat, nat>)
    requires AbortedAt(before, now, sents.Values)
    ensures now == Abort(before, sents)
  {
  }

  lemma PendingIfMapped(s: State)
    requires Valid(s) && !s.closed
    ensures forall k :: k in s.sents.Values ==> k < |s.requests| && s.requests[k].outcome.Pending?
  {
    forall k | k in s.sents.Values
      ensures k < |s.requests| && s.requests[k].outcome.Pending?
    {
      var id :| id in s.sents && s.sents[id] == k;
      assert EntryIsSound(s, id);
    }
  }

  function OnClose(s: State): State {
    if s.closed then s else s.(closed := true, requests := Abort(s.requests, s.sents))
  }

  class Channel {
    var closed: bool
    var nextId: nat
    var sents: map<nat, nat>
    var requests: seq<Request>

    function Model(): State
      reads this
    {
      State(closed, nextId, sents, requests)
    }

    constructor ()
      ensures Model() == INITIAL
    {
      closed, nextId, sents, requests := false, 0, map[], [];
    }

    /** `accepted` tells whether a promise is left to be settled later. */
    method SendRequest(fits: bool) returns (accepted: bool)
      modifies this
      ensures Model() == OnSend(old(Model()), fits)
      ensures accepted <==> !old(closed) && fits
      ensures old(closed) ==> Model() == old(Model())
      ensures !old(closed) ==>
        && !closed && nextId == (if old(nextId) < MAX_ID then old(nextId) + 1 else 1)
        && requests == old(requests) + [Request(nextId, if fits then Pending else NotSent)]
        && sents == if fits then old(sents)[nextId := |old(requests)|] else old(sents)
    {
      if closed { return false; }
      nextId := if nextId < MAX_ID then nextId + 1 else 1;
      var id := nextId;
      if !fits {
        requests := requests + [Request(id, NotSent)];
        return false;
      }
      sents := sents[id := |requests|];
      requests := requests + [Request(id, Pending)];
      return true;
    }

    method ProcessResponse(id: nat, verdict: Verdict)
      requires Valid(Model())
      modifies this
      ensures Model() == OnResponse(old(Model()), id, verdict)
      ensures closed == old(closed) && nextId == old(nextId)
      ensures id !in old(sents) || verdict.Neither? ==> Model() == old(Model())
      ensures id in old(sents) && !verdict.Neither? ==> sents == old(sents) - {id}
      ensures id in old(sents) && !verdict.Neither? && !closed ==>
        requests == old(requests)[old(sents)[id] := Request(id, OutcomeOf(verdict))]
      ensures closed ==> requests == old(requests)
    {
      if id in sents { assert EntryIsSound(Model(), id); }
      if id !in sents { return; }
      var k := sents[id];
      match verdict
      case Accepted(body) =>
        sents := sents - {id};
        requests := Settle(requests, k, Resolved(body));
      case Error(reason) =>
        sents := sents - {id};
        requests := Settle(requests, k, Rejected(reason));
      case Neither =>
    }

    method Close()
      requires Valid(Model())
      modifies this
      ensures Model() == OnClose(old(Model()))
      ensures closed && nextId == old(nextId) && sents == old(sents) && |requests| == |old(requests)|
      ensures forall k :: 0 <= k < |requests| ==>
        requests[k] ==
        if !old(closed) && k in old(sents).Values then old(requests)[k].(outcome := Aborted) else old(requests)[k]
    {
      hide Numbered, NextId, Settle, AbortedAt;
      if closed { return; }
      ghost var before := requests;
      closed := true;
      var todo := sents.Keys;
      ghost var hit: set<nat> := {};
      NoneAborted(before);
      while todo != {}
        invariant closed && nextId == old(nextId) && sents == old(sents) && |requests| == |before|
        invariant todo <= sents.Keys && hit <= sents.Values
        invariant forall id :: id in sents && id !in todo ==> sents[id] in hit
        invariant AbortedAt(before, requests, hit)
        decreases |todo|
      {
        var id :| id in todo;
        assert EntryIsSound(old(Model()), id);
        AbortOneMore(before, requests, hit, sents[id]);
        requests := Settle(requests, sents[id], Aborted);
        todo := todo - {id};
        hit := hit + {sents[id]};
      }
      assert hit == sents.Values;
      AllAborted(before, requests, sents);
      PendingIfMapped(old(Model()));
    }
  }

  function Step(s: State, e: Event): State
    requires Valid(s)
  {
    match e
    case Send(fits) => OnSend(s, fits)
    case Response(id, verdict) => OnResponse(s, id, verdict)
    case Close => OnClose(s)
  }

  // ----- What holds in every run

  /** The id of the k-th request. */
  function IdOf(k: nat): nat {
    k % MAX_ID + 1
  }

  ghost predicate Numbered(s: State) {
    && (forall k :: 0 <= k < |s.requests| ==> s.requests[k].id == IdOf(k))
    && s.nextId == (if s.requests == [] then 0 else s.requests[|s.requests| - 1].id)
  }

  predicate EntryIsSound(s: State, id: nat)
    requires id in s.sents
  {
    && s.sents[id] < |s.requests|
    && s.requests[s.sents[id]].id == id
    && s.requests[s.sents[id]].outcome == (if s.closed then Aborted else Pending)
  }

  /** Entries of the map point to requests with their id, pending until the channel is closed. */
  ghost predicate Valid(s: State) {
    Numbered(s) && forall id :: id in s.sents ==> EntryIsSound(s, id)
  }

  lemma StepKeepsNumbered(s: State, e: Event)
    requires Valid(s)
    ensures Numbered(Step(s, e))
  {
    hide IdOf, NextId;
    match e
    case Send(fits) =>
      var n := |s.requests|;
      if n > 0 {
        assert s.nextId == IdOf(n - 1);
        WrapsAround(n);
      } else {
        FirstId();
      }
    case Response(id, verdict) =>
      if id in s.sents { assert EntryIsSound(s, id); }
    case Close =>
  }

  lemma FirstId()
    ensures NextId(0) == IdOf(0)
  {
  }

  lemma WrapsAround(n: nat)
    requires n > 0
    ensures NextId(IdOf(n - 1)) == IdOf(n)
  {
  }

  lemma StepKeepsValid(s: State, e: Event)
    requires Valid(s)
    ensures Valid(Step(s, e))
  {
    StepKeepsNumbered(s, e);
    var t := Step(s, e);
    forall id | id in t.sents
      ensures EntryIsSound(t, id)
    {
      if id in s.sents {
        assert EntryIsSound(s, id);
      }
      if e.Response? && e.id in s.sents {
        assert EntryIsSound(s, e.id);
      }
    }
  }

  ghost function Run(s: State, events: seq<Event>): (t: State)
    requires Valid(s)
    ensures Valid(t)
    decreases |events|
  {
    if events == [] then s
    else
      StepKeepsValid(s, events[0]);
      Run(Step(s, events[0]), events[1..])
  }

  /** The k-th request of any run, counting from 0, carries id `k mod 4294967295 + 1`. */
  lemma RequestIds(events: seq<Event>, k: nat)
    requires k < |Run(INITIAL, events).requests|
    ensures Run(INITIAL, events).requests[k].id == k % MAX_ID + 1
    ensures 1 <= Run(INITIAL, events).requests[k].id <= MAX_ID
  {
    assert Valid(Run(INITIAL, events));
  }

  lemma RunOne(s: State, e: Event)
    requires Valid(s)
    ensures Run(s, [e]) == Step(s, e)
  {
    hide Valid, Step;
    StepKeepsValid(s, e);
    assert [e][1..] == [];
  }

  lemma {:induction false} RunInTwo(s: State, a: seq<Event>, b: seq<Event>)
    requires Valid(s)
    ensures Run(s, a + b) == Run(Run(s, a), b)
    decreases |a|
  {
    hide Valid, Step;
    if a == [] {
      assert a + b == b;
    } else {
      assert (a + b)[0] == a[0] && (a + b)[1..] == a[1..] + b;
      StepKeepsValid(s, a[0]);
      RunInTwo(Step(s, a[0]), a[1..], b);
    }
  }

  // ----- Correlation

  /** A response settles at most one request, a pending one that carries the response's id. */
  lemma ResponseSettlesItsRequest(s: State, id: nat, verdict: Verdict, k: nat)
    requires Valid(s) && k < |s.requests|
    ensures var t := OnResponse(s, id, verdict);
            t.requests[k] != s.requests[k] ==>
              && s.requests[k].id == id && id in s.sents && s.sents[id] == k
              && s.requests[k].outcome.Pending?
              && t.requests[k].outcome ==
                (if verdict.Accepted? then Resolved(verdict.body) else Rejected(verdict.reason))
  {
    if id in s.sents {
      assert EntryIsSound(s, id);
    }
  }

  /**
   A response to a pending request settles it, with the body of an accepted response or the
   reason of a refused one, takes it out of the map, and changes nothing else.
   */
  lemma ResponseSettles(s: State, id: nat, verdict: Verdict)
    requires Valid(s) && id in s.sents && !s.closed && !verdict.Neither?
    ensures var t := OnResponse(s, id, verdict);
            var k := s.sents[id];
            && k < |s.requests| && s.requests[k].id == id && s.requests[k].outcome.Pending?
            && (verdict.Accepted? ==> t.requests[k].outcome == Resolved(verdict.body))
            && (verdict.Error? ==> t.requests[k].outcome == Rejected(verdict.reason))
            && t.requests == s.requests[k := Request(id, t.requests[k].outcome)]
            && id !in t.sents && (forall other :: other != id ==> (other in t.sents <==> other in s.sents))
            && (forall other :: other in t.sents ==> t.sents[other] == s.sents[other])
            && !t.closed && t.nextId == s.nextId
  {
    assert EntryIsSound(s, id);
  }

  lemma StepSettlesOnce(s: State, e: Event, k: nat)
    requires Valid(s) && k < |s.requests|
    ensures |s.requests| <= |Step(s, e).requests| && Step(s, e).requests[k].id == s.requests[k].id
    ensures !s.requests[k].outcome.Pending? ==> Step(s, e).requests[k] == s.requests[k]
  {
    if e.Response? && e.id in s.sents {
      assert EntryIsSound(s, e.id);
    }
  }

  /** Once a request is settled, no continuation of the run changes its outcome. */
  lemma {:induction false} SettledOnce(s: State, events: seq<Event>, k: nat)
    requires Valid(s) && k < |s.requests| && !s.requests[k].outcome.Pending?
    ensures k < |Run(s, events).requests| && Run(s, events).requests[k] == s.requests[k]
    decreases |events|
  {
    if events != [] {
      StepSettlesOnce(s, events[0], k);
      StepKeepsValid(s, events[0]);
      SettledOnce(Step(s, events[0]), events[1..], k);
    }
  }

  /** A pending request whose entry is gone: another one took its id. */
  ghost predicate Lost(s: State, k: nat)
    requires k < |s.requests|
  {
    s.requests[k].outcome.Pending? && k !in s.sents.Values
  }

  lemma StepKeepsLost(s: State, e: Event, k: nat)
    requires Valid(s) && k < |s.requests| && Lost(s, k)
    ensures k < |Step(s, e).requests| && Lost(Step(s, e), k)
  {
    var t := Step(s, e);
    StepSettlesOnce(s, e, k);
    forall id | id in t.sents
      ensures t.sents[id] != k
    {
      assert id in s.sents ==> s.sents[id] != k;
    }
  }

  /** A lost request is never settled, not even by closing the channel. */
  lemma {:induction false} LostForever(s: State, events: seq<Event>, k: nat)
    requires Valid(s) && k < |s.requests| && Lost(s, k)
    ensures k < |Run(s, events).requests| && Run(s, events).requests[k].outcome.Pending?
    decreases |events|
  {
    if events != [] {
      StepKeepsLost(s, events[0], k);
      StepKeepsValid(s, events[0]);
      LostForever(Step(s, events[0]), events[1..], k);
    }
  }

  ghost predicate NoneLost(s: State) {
    forall k :: 0 <= k < |s.requests| ==> !Lost(s, k)
  }

  /** Sending loses a request iff the next id is still in the map of pending ones. */
  lemma SendLosesIffIdPending(s: State)
    requires Valid(s) && NoneLost(s) && !s.closed
    ensures NoneLost(OnSend(s, true)) <==> NextId(s.nextId) !in s.sents
  {
    var t := OnSend(s, true);
    var id := NextId(s.nextId);
    if id in s.sents {
      assert EntryIsSound(s, id);
      var k := s.sents[id];
      forall other | other in t.sents
        ensures t.sents[other] != k
      {
        if other != id {
          assert EntryIsSound(s, other);
        }
      }
      assert Lost(t, k);
    } else {
      forall k | 0 <= k < |t.requests|
        ensures !Lost(t, k)
      {
        if k == |s.requests| {
          assert t.sents[id] == k;
        } else if s.requests[k].outcome.Pending? {
          assert !Lost(s, k);
          var other :| other in s.sents && s.sents[other] == k;
          assert t.sents[other] == k;
        }
      }
    }
  }

  /** That takes a request that stayed pending while 4294967294 later ones were sent, so that its id comes next. */
  lemma IdPendingMeansStale(s: State)
    requires Valid(s) && !s.closed && NextId(s.nextId) in s.sents
    ensures exists k :: 0 <= k && k + MAX_ID <= |s.requests| && s.requests[k].outcome.Pending?
  {
    var id := NextId(s.nextId);
    assert EntryIsSound(s, id);
    var k := s.sents[id];
    var n := |s.requests|;
    assert s.nextId == (n - 1) % MAX_ID + 1;
    WrapsAround(n);
    assert k % MAX_ID == n % MAX_ID;
    assert k + MAX_ID <= n;
  }

  /** No request is still pending after 4294967294 later ones, when its id comes next. */
  ghost predicate Fresh(s: State) {
    forall k :: 0 <= k && k + MAX_ID <= |s.requests| ==> !s.requests[k].outcome.Pending?
  }

  ghost predicate FreshWhenSending(s: State, events: seq<Event>)
    requires Valid(s)
    decreases |events|
  {
    events != [] ==>
      && (events[0].Send? && !s.closed ==> Fresh(s))
      && (StepKeepsValid(s, events[0]); FreshWhenSending(Step(s, events[0]), events[1..]))
  }

  lemma StepKeepsNoneLost(s: State, e: Event)
    requires Valid(s) && NoneLost(s) && (e.Send? && !s.closed ==> Fresh(s))
    ensures NoneLost(Step(s, e))
  {
    var t := Step(s, e);
    match e
    case Send(fits) =>
      if !s.closed && fits {
        if NextId(s.nextId) in s.sents {
          IdPendingMeansStale(s);
        }
        SendLosesIffIdPending(s);
      } else {
        forall k | 0 <= k < |t.requests|
          ensures !Lost(t, k)
        {
          assert k < |s.requests| ==> !Lost(s, k);
        }
      }
    case Response(id, verdict) =>
      forall k | 0 <= k < |t.requests|
        ensures !Lost(t, k)
      {
        ResponseKeepsOthers(s, id, verdict, k);
      }
    case Close =>
      forall k | 0 <= k < |t.requests|
        ensures !Lost(t, k)
      {
        assert !Lost(s, k);
      }
  }

  lemma ResponseKeepsOthers(s: State, id: nat, verdict: Verdict, k: nat)
    requires Valid(s) && k < |s.requests| && !Lost(s, k)
    ensures !Lost(OnResponse(s, id, verdict), k)
  {
    var t := OnResponse(s, id, verdict);
    if t.requests[k].outcome.Pending? {
      var other :| other in s.sents && s.sents[other] == k;
      assert EntryIsSound(s, other);
      if t != s {
        assert EntryIsSound(s, id);
        assert other in t.sents && t.sents[other] == k;
      }
    }
  }

  /** In a run that stays fresh no request is ever lost. */
  lemma {:induction false} FreshRunsLoseNone(s: State, events: seq<Event>)
    requires Valid(s) && NoneLost(s) && FreshWhenSending(s, events)
    ensures NoneLost(Run(s, events))
    decreases |events|
  {
    if events != [] {
      StepKeepsNoneLost(s, events[0]);
      StepKeepsValid(s, events[0]);
      FreshRunsLoseNone(Step(s, events[0]), events[1..]);
    }
  }

  /** Request `k` is open under `id`. */
  ghost predicate Awaits(s: State, id: nat, k: nat) {
    !s.closed && id in s.sents && s.sents[id] == k
  }

  /** What becomes of a request: the first response with its id settles it, unless the channel is closed before. */
  function Fate(id: nat, events: seq<Event>): Outcome {
    if events == [] then Pending
    else
      match events[0]
      case Close => Aborted
      case Response(i, Accepted(body)) => if i == id then Resolved(body) else Fate(id, events[1..])
      case Response(i, Error(reason)) => if i == id then Rejected(reason) else Fate(id, events[1..])
      case _ => Fate(id, events[1..])
  }

  /** Closes the channel or answers `id`. */
  predicate Decides(e: Event, id: nat) {
    e.Close? || (e.Response? && e.id == id && !e.verdict.Neither?)
  }

  lemma DecidedByStep(s: State, e: Event, id: nat, k: nat)
    requires Valid(s) && Awaits(s, id, k) && Decides(e, id)
    ensures |Step(s, e).requests| == |s.requests| && k < |s.requests|
    ensures Step(s, e).requests[k] == Request(id, Fate(id, [e])) && !Fate(id, [e]).Pending?
  {
    assert EntryIsSound(s, id);
    assert id in s.sents && s.sents[id] == k;
    assert k in s.sents.Values;
  }

  lemma LeftByStep(s: State, e: Event, id: nat, k: nat)
    requires Valid(s) && Awaits(s, id, k) && !Decides(e, id) && (e.Send? ==> Fresh(s))
    ensures Awaits(Step(s, e), id, k)
  {
    if e.Send? && NextId(s.nextId) in s.sents {
      IdPendingMeansStale(s);
    }
  }

  lemma {:induction false} AwaitedFate(s: State, events: seq<Event>, id: nat, k: nat)
    requires Valid(s) && Awaits(s, id, k) && FreshWhenSending(s, events)
    ensures k < |Run(s, events).requests| && Run(s, events).requests[k] == Request(id, Fate(id, events))
    decreases |events|
  {
    hide Step, Fresh;
    assert EntryIsSound(s, id);
    if events != [] {
      var e := events[0];
      StepKeepsValid(s, e);
      if Decides(e, id) {
        DecidedByStep(s, e, id, k);
        SettledOnce(Step(s, e), events[1..], k);
      } else {
        LeftByStep(s, e, id, k);
        AwaitedFate(Step(s, e), events[1..], id, k);
      }
    }
  }

  /**
   Correlation, in every run in which no request stays pending for a whole cycle of ids: a
   request sent on an open channel is settled by the first response with its id, with that
   response's body or reason, or aborted by a close before it, and otherwise stays pending.
   */
  lemma RequestFate(s: State, events: seq<Event>)
    requires Valid(s) && !s.closed && FreshWhenSending(Run(s, [Send(true)]), events)
    ensures var k := |s.requests|;
            var end := Run(s, [Send(true)] + events);
            k < |end.requests| && end.requests[k] == Request(IdOf(k), Fate(IdOf(k), events))
  {
    var k := |s.requests|;
    var sent := Run(s, [Send(true)]);
    RunOne(s, Send(true));
    assert sent.requests[k].id == IdOf(k) by { assert Numbered(sent); }
    AwaitedFate(sent, events, IdOf(k), k);
    RunInTwo(s, [Send(true)], events);
  }

  /** Once the channel is closed, exactly the lost requests are still pending. */
  lemma ClosedMeansSettled(s: State, k: nat)
    requires Valid(s) && s.closed && k < |s.requests|
    ensures s.requests[k].outcome.Pending? <==> Lost(s, k)
  {
    assert k in s.sents.Values ==> exists id :: id in s.sents && s.sents[id] == k && EntryIsSound(s, id);
  }

  /** So in a fresh run nothing is left unsettled once the channel is closed. */
  lemma NothingUnsettledAfterClose(events: seq<Event>, k: nat)
    requires FreshWhenSending(INITIAL, events)
    requires Run(INITIAL, events).closed && k < |Run(INITIAL, events).requests|
    ensures !Run(INITIAL, events).requests[k].outcome.Pending?
  {
    assert NoneLost(INITIAL);
    FreshRunsLoseNone(INITIAL, events);
    ClosedMeansSettled(Run(INITIAL, events), k);
  }
}
