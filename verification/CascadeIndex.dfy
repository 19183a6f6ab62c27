/**
 What a close cascade tells the routers, and why their index of producers is right again
 when it is over, however it ran through routers and transports.
 */
module CascadeIndex {
  import opened Wrappers
  import opened CloseCascade

  // ----- What routers are told

  ghost predicate RouterClosed(g: Graph, closed: set<Id>, p: Id) {
    p in g.owner && g.owner[p] in g.owner && g.owner[g.owner[p]] in closed
  }

  /** The router of `p` has been told that it closed, or is closed itself. */
  ghost predicate Told(g: Graph, e: Effect, p: Id) {
    IsKind(g, p, Producer) ==> p in e.dropped || RouterClosed(g, e.closed, p)
  }

  /** Only what is closed is taken out of an index, and routers that close clear theirs. */
  ghost predicate TellsTruth(g: Graph, e: Effect) {
    && e.dropped <= e.closed && e.cleared <= e.closed
    && forall r :: r in e.log && IsKind(g, r, Router) ==> r in e.cleared
  }

  ghost predicate OwnersClosed(g: Graph, closed: set<Id>, list: seq<Id>) {
    forall c :: c in list ==> c in g.owner && g.owner[c] in closed
  }

  lemma TruthInSequence(g: Graph, first: Effect, rest: Effect)
    requires TellsTruth(g, first) && TellsTruth(g, rest) && first.closed <= rest.closed
    ensures TellsTruth(g, InSequence(first, rest))
  {
    hide IsKind;
  }

  lemma ToldLater(g: Graph, first: Effect, rest: Effect, p: Id)
    requires first.closed <= rest.closed && (Told(g, first, p) || Told(g, rest, p))
    ensures Told(g, InSequence(first, rest), p)
  {
  }

  lemma OwnTruth(g: Graph, n: Id, byOwner: bool, children: Effect)
    requires IsGraph(g) && n in g.nodes && n in children.closed && TellsTruth(g, children)
    requires forall c :: c in g.children[n] ==> c in children.closed
    ensures TellsTruth(g, InSequence(children, Own(g, n, byOwner, children.closed)))
  {
    hide IsKind;
  }

  /** The children that `n` closes itself: their router is told by `n`, or is the one that closes `n`. */
  lemma ChildrenAreTold(g: Graph, closed: set<Id>, n: Id, byOwner: bool, children: Effect, p: Id)
    requires Layered(g) && n in g.nodes && closed <= children.closed
    requires byOwner ==> n in g.owner && g.owner[n] in closed
    requires p in g.children[n]
    ensures Told(g, InSequence(children, Own(g, n, byOwner, children.closed)), p)
  {
    hide LinkedInLayers, OwnedInLayers;
    LayerOfChild(g, n, p);
  }

  lemma LayerOfChild(g: Graph, n: Id, p: Id)
    requires Layered(g) && n in g.nodes && p in g.children[n]
    ensures p in g.owner && g.owner[p] == n && (IsKind(g, p, Producer) ==> IsKind(g, n, Transport))
  {
    assert LinkedInLayers(g, n);
    assert OwnedInLayers(g, p);
  }

  lemma {:induction false} OneTells(g: Graph, closed: set<Id>, n: Id, byOwner: bool)
    requires Layered(g) && n in g.nodes && (byOwner ==> n in g.owner && g.owner[n] in closed)
    ensures var e := CloseOne(g, closed, n, byOwner);
            TellsTruth(g, e) && forall p :: p in e.log && !(byOwner && p == n) ==> Told(g, e, p)
    decreases g.nodes - closed, 0
  {
    hide LinkedInLayers, OwnedInLayers, Cascade, DroppedBy, Told, TellsTruth;
    if n in closed {
      NothingTold(g, closed);
    } else {
      LayersOf(g, n);
      OwnersOf(g, n, closed + {n});
      var children := CloseAll(g, closed + {n}, g.children[n], true);
      var peers := CloseAll(g, children.closed, g.peers[n], false);
      AllTell(g, closed + {n}, g.children[n], true);
      AllTell(g, children.closed, g.peers[n], false);
      CloseAllCascades(g, closed + {n}, g.children[n], true);
      RootsClosed(g, closed + {n}, g.children[n], children);
      OwnTruth(g, n, byOwner, children);
      var own := InSequence(children, Own(g, n, byOwner, children.closed));
      TruthInSequence(g, own, peers);
      var e := InSequence(own, peers);
      forall p | p in e.log && !(byOwner && p == n)
        ensures Told(g, e, p)
      {
        if p in peers.log {
        } else if p in g.children[n] {
          ChildrenAreTold(g, closed + {n}, n, byOwner, children, p);
        } else if p in children.log {
          ToldLater(g, children, Own(g, n, byOwner, children.closed), p);
        } else {
          OwnIsTold(g, n, children);
        }
        ToldLater(g, own, peers, p);
      }
    }
  }

  lemma OwnIsTold(g: Graph, n: Id, children: Effect)
    requires IsGraph(g) && n in g.nodes
    ensures Told(g, InSequence(children, Own(g, n, false, children.closed)), n)
  {
  }

  lemma OwnersOf(g: Graph, n: Id, closed: set<Id>)
    requires Layered(g) && n in g.nodes && n in closed
    ensures OwnersClosed(g, closed, g.children[n])
  {
    hide OwnedInLayers;
    assert LinkedInLayers(g, n);
  }

  lemma RootsClosed(g: Graph, closed: set<Id>, list: seq<Id>, e: Effect)
    requires Cascade(g, closed, list, e)
    ensures closed <= e.closed && forall c :: c in list ==> c in e.closed
  {
  }

  lemma NothingTold(g: Graph, closed: set<Id>)
    ensures TellsTruth(g, Nothing(closed))
  {
  }

  lemma {:induction false} AllTell(g: Graph, closed: set<Id>, list: seq<Id>, byOwner: bool)
    requires Layered(g) && Inside(g, list) && (byOwner ==> OwnersClosed(g, closed, list))
    ensures var e := CloseAll(g, closed, list, byOwner);
            TellsTruth(g, e) && forall p :: p in e.log && !(byOwner && p in list) ==> Told(g, e, p)
    decreases g.nodes - closed, |list| + 1
  {
    hide IsGraph, LinkedInLayers, OwnedInLayers, Told, TellsTruth;
    if list == [] {
      NothingTold(g, closed);
    } else {
      var first := CloseOne(g, closed, list[0], byOwner);
      var rest := CloseAll(g, first.closed, list[1..], byOwner);
      OneTells(g, closed, list[0], byOwner);
      AllTell(g, first.closed, list[1..], byOwner);
      TruthInSequence(g, first, rest);
      var e := InSequence(first, rest);
      forall p | p in e.log && !(byOwner && p in list)
        ensures Told(g, e, p)
      {
        ToldLater(g, first, rest, p);
      }
    }
  }

  // ----- The index

  /** The index once routers were told about some producers and some routers cleared theirs, in whatever order. */
  function IndexAfter(index: map<Id, Id>, dropped: set<Id>, cleared: set<Id>): map<Id, Id> {
    map p | p in index && p !in dropped && index[p] !in cleared :: index[p]
  }

  lemma IndexTwice(index: map<Id, Id>, d: set<Id>, c: set<Id>, d': set<Id>, c': set<Id>)
    ensures IndexAfter(IndexAfter(index, d, c), d', c') == IndexAfter(index, d + d', c + c')
  {
  }

  /**
   The index holds exactly the open producers, each under the router of its transport. The
   map of one router is the part that is filed under it.
   */
  ghost predicate Indexed(g: Graph, closed: set<Id>, index: map<Id, Id>) {
    forall p {:trigger FiledAt(g, closed, index, p)} :: FiledAt(g, closed, index, p)
  }

  ghost predicate FiledAt(g: Graph, closed: set<Id>, index: map<Id, Id>, p: Id) {
    && (p in index <==> IsKind(g, p, Producer) && p !in closed)
    && (p in index ==> p in g.owner && g.owner[p] in g.owner && index[p] == g.owner[g.owner[p]])
  }

  /** No open entity is linked to by a closed one. */
  ghost predicate Propagated(g: Graph, closed: set<Id>) {
    forall m :: m in closed ==> LinksClosed(g, closed, m)
  }

  lemma OwnerCloses(g: Graph, closed: set<Id>, c: Id)
    requires Layered(g) && Propagated(g, closed) && c in g.nodes && c in g.owner && g.owner[c] in closed
    ensures c in closed
  {
    hide LinkedInLayers;
    assert OwnedInLayers(g, c);
    assert LinksClosed(g, closed, g.owner[c]);
    assert IsLink(g, g.owner[c], c);
  }

  lemma RouterCloses(g: Graph, closed: set<Id>, p: Id)
    requires Layered(g) && Propagated(g, closed) && p in g.nodes && RouterClosed(g, closed, p)
    ensures p in closed
  {
    hide LinkedInLayers, Propagated;
    assert OwnedInLayers(g, p);
    OwnerCloses(g, closed, g.owner[p]);
    OwnerCloses(g, closed, p);
  }

  lemma RouterOfProducer(g: Graph, p: Id)
    requires Layered(g) && IsKind(g, p, Producer)
    ensures p in g.nodes && p in g.owner && g.owner[p] in g.owner && IsKind(g, g.owner[g.owner[p]], Router)
  {
    hide LinkedInLayers;
    assert OwnedInLayers(g, p);
    assert OwnedInLayers(g, g.owner[p]);
  }

  /** One indexed producer: it is closed by a cascade iff the index no longer holds it. */
  lemma IndexedAt(g: Graph, closed: set<Id>, e: Effect, index: map<Id, Id>, p: Id)
    requires Layered(g) && Propagated(g, closed) && Propagated(g, e.closed) && EmittedOnce(closed, e)
    requires TellsTruth(g, e) && (p in e.log ==> Told(g, e, p))
    requires Indexed(g, closed, index) && p in index
    ensures p in e.closed <==> p in e.dropped || index[p] in e.cleared
  {
    hide Layered, Propagated, Distinct, IsKind;
    assert FiledAt(g, closed, index, p);
    RouterOfProducer(g, p);
    if index[p] in e.cleared {
      assert RouterClosed(g, e.closed, p);
      RouterCloses(g, e.closed, p);
    }
    if p in e.closed && p !in e.dropped {
      assert p in e.log;
      assert index[p] in e.closed;
      if index[p] in closed {
        assert RouterClosed(g, closed, p);
        RouterCloses(g, closed, p);
        assert false;
      }
      assert index[p] in e.log;
    }
  }

  /** After any cascade, however it runs through routers and transports, the index is right again. */
  lemma CascadeKeepsIndexed(g: Graph, closed: set<Id>, n: Id, index: map<Id, Id>)
    requires Layered(g) && n in g.nodes && Propagated(g, closed) && Indexed(g, closed, index)
    requires Propagated(g, CloseOne(g, closed, n, false).closed)
    ensures var e := CloseOne(g, closed, n, false);
            Indexed(g, e.closed, IndexAfter(index, e.dropped, e.cleared))
  {
    hide CloseOne, IsGraph, LinkedInLayers, OwnedInLayers, Propagated, FromSome, LinksClosed, EmittedOnce, TellsTruth;
    hide Told, Indexed, IndexAfter;
    var e := CloseOne(g, closed, n, false);
    OneTells(g, closed, n, false);
    CloseOneCascades(g, closed, n, false);
    Grows(closed, e);
    forall p | p in index
      ensures p in e.closed <==> p in e.dropped || index[p] in e.cleared
    {
      IndexedAt(g, closed, e, index, p);
    }
    IndexedAfter(g, closed, e, index);
  }

  lemma IndexedAfter(g: Graph, closed: set<Id>, e: Effect, index: map<Id, Id>)
    requires Indexed(g, closed, index) && closed <= e.closed
    requires forall p :: p in index ==> (p in e.closed <==> p in e.dropped || index[p] in e.cleared)
    ensures Indexed(g, e.closed, IndexAfter(index, e.dropped, e.cleared))
  {
    hide IsKind;
    forall p
      ensures FiledAt(g, e.closed, IndexAfter(index, e.dropped, e.cleared), p)
    {
      assert FiledAt(g, closed, index, p);
    }
  }
}
