/**
 The index of producers that a router keeps next to the producers of each of its
 transports, maintained through the events that transports send to it.
 */
module RouterIndex {
  import opened Wrappers

  type TransportId = nat
  type ProducerId = nat

  datatype Transport = Transport(closed: bool, producers: set<ProducerId>)

  /**
   `transports` holds every transport ever created, `registered` the ones in the router's
   own map, `index` the router's map of producers, and `live` the producers not closed.
   */
  datatype State = State(
    closed: bool,
    transports: map<TransportId, Transport>,
    registered: set<TransportId>,
    index: map<ProducerId, TransportId>,
    live: set<ProducerId>)

  datatype Event =
    | CreateTransport(t: TransportId)
    | Produce(t: TransportId, p: ProducerId)
    | CloseProducer(t: TransportId, p: ProducerId)
    | CloseTransport(t: TransportId)
    | CloseRouter
    | ListenServerClosed(t: TransportId)

  const INITIAL: State := State(false, map[], {}, map[], {})

  predicate IsOpen(s: State, t: TransportId) {
    t in s.transports && !s.transports[t].closed
  }

  function OnCreateTransport(s: State, t: TransportId): State {
    if s.closed || t in s.transports then s
    else s.(transports := s.transports[t := Transport(false, {})], registered := s.registered + {t})
  }

  /** The id of a producer that is still live is refused. */
  function OnProduce(s: State, t: TransportId, p: ProducerId): State {
    if !IsOpen(s, t) || p in s.live then s
    else
      s.(transports := s.transports[t := Transport(false, s.transports[t].producers + {p})],
      index := s.index[p := t],
      live := s.live + {p})
  }

  /** '@close' of the producer reaches its transport, whose '@producerclose' reaches the router. */
  function OnCloseProducer(s: State, t: TransportId, p: ProducerId): State {
    if t !in s.transports || p !in s.transports[t].producers then s
    else
      s.(transports := s.transports[t := s.transports[t].(producers := s.transports[t].producers - {p})],
      index := s.index - {p},
      live := s.live - {p})
  }

  function OnCloseTransport(s: State, t: TransportId): State {
    if !IsOpen(s, t) then s
    else
      State(s.closed, s.transports[t := Transport(true, {})], s.registered - {t},
            s.index - s.transports[t].producers, s.live - s.transports[t].producers)
  }

  /** The producers of the given transports. */
  ghost function ProducersOf(s: State, ts: set<TransportId>): set<ProducerId>
    requires ts <= s.transports.Keys
  {
    set t, p | t in ts && p in s.transports[t].producers :: p
  }

  /** The given transports closed, the others as they are. */
  ghost function WithClosed(transports: map<TransportId, Transport>, ts: set<TransportId>)
    : map<TransportId, Transport>
  {
    map t | t in transports :: if t in ts then Transport(true, {}) else transports[t]
  }

  lemma CloseOneMore(s: State, ts: set<TransportId>, t: TransportId)
    requires ts <= s.transports.Keys && t in s.transports && t !in ts
    ensures t in WithClosed(s.transports, ts) && WithClosed(s.transports, ts)[t] == s.transports[t]
    ensures WithClosed(s.transports, ts)[t := Transport(true, {})] == WithClosed(s.transports, ts + {t})
    ensures ProducersOf(s, ts + {t}) == ProducersOf(s, ts) + s.transports[t].producers
  {
    forall p | p in ProducersOf(s, ts) + s.transports[t].producers
      ensures p in ProducersOf(s, ts + {t})
    {
      if p !in s.transports[t].producers {
        var u :| u in ts && p in s.transports[u].producers;
        assert u in ts + {t};
      }
    }
  }

  lemma NoneClosed(s: State)
    ensures WithClosed(s.transports, {}) == s.transports && ProducersOf(s, {}) == {}
  {
  }

  lemma RemoveOneMore(m: map<ProducerId, TransportId>, done: set<ProducerId>, p: ProducerId)
    ensures (m - done) - {p} == m - (done + {p})
  {
  }

  /** Transports closed by their router do not tell it anything; it clears its maps itself. */
  ghost function OnCloseRouter(s: State): State
    requires s.registered <= s.transports.Keys
  {
    if s.closed then s
    else
      State(true, WithClosed(s.transports, s.registered), {}, map[], s.live - ProducersOf(s, s.registered))
  }

  /** A transport closed by its listen server leaves the router's map, but its producers stay in the index. */
  function OnListenServerClosed(s: State, t: TransportId): State {
    if !IsOpen(s, t) then s
    else
      s.(transports := s.transports[t := Transport(true, {})],
      registered := s.registered - {t},
      live := s.live - s.transports[t].producers)
  }

  ghost function Step(s: State, e: Event): State
    requires s.registered <= s.transports.Keys
  {
    match e
    case CreateTransport(t) => OnCreateTransport(s, t)
    case Produce(t, p) => OnProduce(s, t, p)
    case CloseProducer(t, p) => OnCloseProducer(s, t, p)
    case CloseTransport(t) => OnCloseTransport(s, t)
    case CloseRouter => OnCloseRouter(s)
    case ListenServerClosed(t) => OnListenServerClosed(s, t)
  }

  class Router {
    var closed: bool
    var transports: map<TransportId, Transport>
    var registered: set<TransportId>
    var index: map<ProducerId, TransportId>
    var live: set<ProducerId>

    function Model(): State
      reads this
    {
      State(closed, transports, registered, index, live)
    }

    constructor ()
      ensures Model() == INITIAL
    {
      closed, transports, registered, index, live := false, map[], {}, map[], {};
    }

    method AddTransport(t: TransportId)
      requires !closed && t !in transports
      modifies this
      ensures Model() == OnCreateTransport(old(Model()), t)
    {
      transports := transports[t := Transport(false, {})];
      registered := registered + {t};
    }

    method AddProducer(t: TransportId, p: ProducerId)
      requires IsOpen(Model(), t) && p !in live
      modifies this
      ensures Model() == OnProduce(old(Model()), t, p)
    {
      transports := transports[t := Transport(false, transports[t].producers + {p})];
      index := index[p := t];
      live := live + {p};
    }

    method RemoveProducer(t: TransportId, p: ProducerId)
      modifies this
      ensures Model() == OnCloseProducer(old(Model()), t, p)
    {
      if t !in transports || p !in transports[t].producers { return; }
      live := live - {p};
      transports := transports[t := transports[t].(producers := transports[t].producers - {p})];
      index := index - {p};
    }

    /** `transportClosed` and '@producerclose' for each producer of a closing transport. */
    method DropProducers(ps: set<ProducerId>)
      modifies this`index, this`live
      ensures index == old(index) - ps && live == old(live) - ps
    {
      var todo := ps;
      ghost var done: set<ProducerId> := {};
      while todo != {}
        invariant done + todo == ps
        invariant index == old(index) - done && live == old(live) - done
        decreases |todo|
      {
        var p :| p in todo;
        RemoveOneMore(old(index), done, p);
        live := live - {p};
        index := index - {p};
        todo := todo - {p};
        done := done + {p};
      }
      assert done == ps;
    }

    method RemoveTransport(t: TransportId)
      modifies this
      ensures Model() == OnCloseTransport(old(Model()), t)
    {
      if t !in transports || transports[t].closed { return; }
      transports := transports[t := transports[t].(closed := true)];
      DropProducers(transports[t].producers);
      transports := transports[t := Transport(true, {})];
      registered := registered - {t};
    }

    method CloseAll()
      requires registered <= transports.Keys
      modifies this
      ensures Model() == OnCloseRouter(old(Model()))
    {
      hide WithClosed, ProducersOf;
      if closed { return; }
      NoneClosed(Model());
      ghost var before := Model();
      closed := true;
      var todo := registered;
      ghost var done: set<TransportId> := {};
      while todo != {}
        invariant done + todo == old(registered) && done !! todo
        invariant closed && registered == old(registered) && index == old(index)
        invariant done <= old(transports).Keys && transports == WithClosed(old(transports), done)
        invariant live == old(live) - ProducersOf(before, done)
        decreases |todo|
      {
        var t :| t in todo;
        CloseOneMore(before, done, t);
        live := live - transports[t].producers;
        transports := transports[t := Transport(true, {})];
        todo := todo - {t};
        done := done + {t};
      }
      assert done == before.registered;
      registered, index := {}, map[];
    }
  }

  // ----- Agreement

  ghost predicate FiledAt(s: State, t: TransportId, p: ProducerId) {
    t in s.transports && t in s.registered ==>
      (p in s.transports[t].producers <==> p in s.index && s.index[p] == t)
  }

  /** Each producer in the index belongs to the registered transport it is filed under, and conversely. */
  ghost predicate Filed(s: State) {
    forall t, p :: FiledAt(s, t, p)
  }

  /**
   The router's index is the disjoint union of the producers of its open transports and
   holds exactly the live producers; a closed router has nothing in its maps.
   */
  ghost predicate Agrees(s: State) {
    && s.registered <= s.transports.Keys
    && (forall t :: t in s.transports ==> (t in s.registered <==> !s.transports[t].closed))
    && (forall t :: t in s.transports && s.transports[t].closed ==> s.transports[t].producers == {})
    && Filed(s)
    && (forall p :: p in s.index ==> s.index[p] in s.registered)
    && s.live == s.index.Keys
    && (s.closed ==> s.registered == {} && s.index == map[])
  }

  lemma StepKeepsFiled(s: State, e: Event, t: TransportId, p: ProducerId)
    requires Agrees(s) && !e.ListenServerClosed?
    ensures FiledAt(Step(s, e), t, p)
  {
    assert FiledAt(s, t, p);
    if e.Produce? {
      assert FiledAt(s, t, e.p);
    }
    if e.CloseProducer? {
      assert FiledAt(s, e.t, e.p);
    }
    if e.CloseTransport? {
      assert FiledAt(s, e.t, p);
    }
  }

  lemma StepKeepsAgreement(s: State, e: Event)
    requires Agrees(s) && !e.ListenServerClosed?
    ensures Agrees(Step(s, e))
  {
    forall t, p
      ensures FiledAt(Step(s, e), t, p)
    {
      StepKeepsFiled(s, e, t, p);
    }
    forall p | p in s.index
      ensures p in s.transports[s.index[p]].producers
    {
      assert FiledAt(s, s.index[p], p);
    }
    if e.CloseProducer? {
      assert FiledAt(s, e.t, e.p);
    }
    if e.CloseTransport? {
      forall p
        ensures FiledAt(s, e.t, p)
      {
      }
    }
    if e.CloseRouter? && !s.closed {
      assert forall p :: p in s.live ==> p in ProducersOf(s, s.registered);
    }
  }

  /** What each event does to the index, and that it leaves the other producers alone. */
  lemma EventEffects(s: State, e: Event, other: ProducerId)
    requires Agrees(s)
    ensures var r := Step(s, e);
            && (e.CreateTransport? && !s.closed ==>
              e.t in r.transports && (e.t !in s.transports ==> e.t in r.registered))
            && (e.Produce? && IsOpen(s, e.t) && e.p !in s.live ==>
              e.p in r.live && e.p in r.index && r.index[e.p] == e.t)
            && (e.CloseProducer? && e.p in s.index && s.index[e.p] == e.t ==> e.p !in r.live && e.p !in r.index)
            && (e.CloseTransport? ==>
              && !IsOpen(r, e.t) && e.t !in r.registered
              && (other in r.index <==> other in s.index && s.index[other] != e.t))
            && (e.CloseRouter? ==> r.closed && r.registered == {} && r.index == map[])
            && ((e.Produce? || e.CloseProducer?) && other in s.index && other != e.p ==>
              other in r.index && r.index[other] == s.index[other])
            && (e.CreateTransport? ==> r.index == s.index)
  {
    if e.CloseTransport? {
      assert FiledAt(s, e.t, other);
    }
    if e.CloseProducer? {
      assert FiledAt(s, e.t, e.p);
    }
  }

  /** A transport closed by its listen server breaks the agreement iff it had producers. */
  lemma ListenServerBreaksAgreement(s: State, t: TransportId)
    requires Agrees(s)
    ensures Agrees(OnListenServerClosed(s, t)) <==> !IsOpen(s, t) || s.transports[t].producers == {}
  {
    var r := OnListenServerClosed(s, t);
    assert forall u, p :: FiledAt(s, u, p) && s.transports.Keys >= {u} && u != t ==> FiledAt(r, u, p);
    assert forall p :: p in s.index ==> FiledAt(s, s.index[p], p);
    if IsOpen(s, t) && s.transports[t].producers != {} {
      var p :| p in s.transports[t].producers;
      assert FiledAt(s, t, p);
      assert p in r.index && p !in r.live;
    }
  }

  /** One producer on a transport whose listen server closes: the router goes on finding it. */
  lemma ListenServerLeavesProducer(t: TransportId, p: ProducerId)
    ensures var s := OnProduce(OnCreateTransport(INITIAL, t), t, p);
            var r := OnListenServerClosed(s, t);
            && Agrees(s) && p in s.live
            && !Agrees(r) && !r.closed && p in r.index && p !in r.live && r.registered == {}
  {
    StepKeepsAgreement(INITIAL, CreateTransport(t));
    StepKeepsAgreement(OnCreateTransport(INITIAL, t), Produce(t, p));
    hide Agrees;
    var s := OnProduce(OnCreateTransport(INITIAL, t), t, p);
    ListenServerBreaksAgreement(s, t);
    assert p in s.transports[t].producers;
  }

  ghost predicate AllAgree(s: State, events: seq<Event>) {
    Agrees(s) && forall i :: 0 <= i < |events| ==> !events[i].ListenServerClosed?
  }

  ghost function Run(s: State, events: seq<Event>): State
    requires AllAgree(s, events)
    decreases |events|
  {
    if events == [] then s
    else
      StepKeepsAgreement(s, events[0]);
      Run(Step(s, events[0]), events[1..])
  }

  /** In every run without listen servers closing, the index agrees with the transports. */
  lemma {:induction false} RunsAgree(s: State, events: seq<Event>)
    requires AllAgree(s, events)
    ensures Agrees(Run(s, events))
    decreases |events|
  {
    if events != [] {
      StepKeepsAgreement(s, events[0]);
      RunsAgree(Step(s, events[0]), events[1..]);
    }
  }

  /** Looking a producer up in the router finds it iff it is live, and then in one open transport only. */
  lemma LookupFindsLive(s: State, p: ProducerId)
    requires Agrees(s)
    ensures p in s.index <==> p in s.live
    ensures p in s.live ==> IsOpen(s, s.index[p]) && p in s.transports[s.index[p]].producers
    ensures p in s.live ==> forall t :: t in s.transports && p in s.transports[t].producers ==> t == s.index[p]
    ensures s.closed ==> p !in s.live
  {
    forall t | t in s.transports && p in s.transports[t].producers
      ensures p in s.index && t == s.index[p]
    {
      assert FiledAt(s, t, p);
    }
    assert p in s.live ==> FiledAt(s, s.index[p], p);
  }
}
