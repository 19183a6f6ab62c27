/**
 The entities of a process as objects that are made, linked and closed, with what holds
 between the calls.
 */
module EntityClosing {
  import opened Wrappers
  import opened CloseCascade
  import opened CascadeIndex

  // ----- The entities of a process

  /** What holds between calls. */
  ghost predicate Consistent(g: Graph, closed: set<Id>, log: seq<Id>, index: map<Id, Id>) {
    && Layered(g)
    && closed <= g.nodes
    && Propagated(g, closed)
    && EmittedOnce({}, Effect(closed, log, {}, {}))
    && Ordered(g, {}, log)
    && Indexed(g, closed, index)
  }

  class Entities {
    var nodes: set<Id>
    var kinds: map<Id, Kind>
    var owner: map<Id, Id>
    var children: map<Id, seq<Id>>
    var peers: map<Id, seq<Id>>
    var closed: set<Id>
    /** Entities whose observer emitted 'close', in order. */
    var log: seq<Id>
    /** The producers in the maps of routers, each with the router whose map it is in. */
    var index: map<Id, Id>

    function Links(): Graph
      reads this
    {
      Graph(nodes, kinds, owner, children, peers)
    }

    ghost predicate Valid()
      reads this
    {
      Consistent(Links(), closed, log, index)
    }

    constructor ()
      ensures Valid() && nodes == {} && closed == {} && log == [] && index == map[]
    {
      nodes, kinds, owner, children, peers := {}, map[], map[], map[], map[];
      closed, log, index := {}, [], map[];
    }

    /** A new open entity, owned by an open one unless it is a router. */
    method Create(id: Id, kind: Kind, parent: Option<Id>)
      requires Valid() && CanCreate(Links(), closed, id, kind, parent)
      modifies this
      ensures Valid() && closed == old(closed) && log == old(log)
      ensures Links() == WithEntity(old(Links()), id, kind, parent)
      ensures index == old(IndexWith(Links(), index, id, kind, parent))
    {
      hide Consistent, CanCreate;
      EntityKeepsConsistent(Links(), closed, log, index, id, kind, parent);
      KnownParent(Links(), closed, log, index, id, kind, parent);
      if kind == Producer {
        index := index[id := owner[parent.value]];
      }
      nodes := nodes + {id};
      kinds := kinds[id := kind];
      peers := peers[id := []];
      children := children[id := []];
      if parent.Some? {
        owner := owner[id := parent.value];
        children := children[parent.value := children[parent.value] + [id]];
      }
    }

    /**
     The 'close' listeners that pipe pairs install on each other, once both are there. If only
     one of them is still open by then, it stays open.
     */
    method LinkPeers(a: Id, b: Id)
      requires Valid() && a in nodes && b in nodes && a != b
      requires a in kinds && b in kinds && kinds[a].Rank() == kinds[b].Rank()
      modifies this
      ensures Links() == WithPeers(old(Links()), a, b) && closed == old(closed) && log == old(log)
      ensures index == old(index)
      ensures Valid() <==> (a in closed <==> b in closed)
    {
      hide Consistent;
      PeersKeepConsistent(Links(), closed, log, index, a, b);
      peers := peers[a := peers[a] + [b]];
      peers := peers[b := peers[b] + [a]];
    }

    /** `close()`, or the call by which its owner closes it, and what that sets off. */
    method Close(n: Id, byOwner: bool)
      requires IsGraph(Links()) && n in nodes
      modifies this`closed, this`log, this`index
      ensures var e := CloseOne(Links(), old(closed), n, byOwner);
              && closed == e.closed && log == old(log) + e.log
              && index == IndexAfter(old(index), e.dropped, e.cleared)
      decreases nodes - closed, 0
    {
      hide CloseOne, CloseAll, IndexAfter, DroppedBy, IsGraph, ToldIn;
      ghost var g := Links();
      GraphLists(g, n);
      ClosedOne(g, closed, n, byOwner);
      if n in closed {
        IndexUntouched(index);
        return;
      }
      closed := closed + {n};
      ghost var kids := CloseAll(g, closed, children[n], true);
      ghost var others := CloseAll(g, kids.closed, peers[n], false);
      if kinds[n] == Producer && !byOwner {
        index := IndexAfter(index, {n}, {});
      }
      CloseEach(children[n], true, kinds[n] == Transport && !byOwner);
      if kinds[n] == Router {
        index := IndexAfter(index, {}, {n});
      }
      log := log + [n];
      CloseEach(peers[n], false, false);
      assert log == old(log) + (kids.log + [n] + others.log);
      IndexAround(g, n, byOwner, old(index), kids, others);
    }

    /** The loop over a collection of entities; a closing transport tells its router about each producer. */
    method CloseEach(list: seq<Id>, byOwner: bool, tell: bool)
      requires IsGraph(Links()) && Inside(Links(), list)
      modifies this`closed, this`log, this`index
      ensures var e := CloseAll(Links(), old(closed), list, byOwner);
              && closed == e.closed && log == old(log) + e.log
              && index == IndexAfter(old(index), e.dropped + ToldIn(Links(), list, tell), e.cleared)
      decreases nodes - closed, |list| + 1
    {
      hide CloseOne, CloseAll, IndexAfter, IsGraph, ToldIn;
      ghost var g := Links();
      ghost var all := CloseAll(g, closed, list, byOwner);
      ghost var before := log;
      ghost var target := IndexAfter(index, all.dropped + ToldIn(g, list, tell), all.cleared);
      assert list[0..] == list;
      for i := 0 to |list|
        invariant g == Links() && old(closed) <= closed
        invariant CloseAll(g, closed, list[i..], byOwner).closed == all.closed
        invariant log + CloseAll(g, closed, list[i..], byOwner).log == before + all.log
        invariant Leads(g, CloseAll(g, closed, list[i..], byOwner), list[i..], tell, index, target)
      {
        assert list[i..][0] == list[i] && list[i..][1..] == list[i + 1..];
        ClosedEach(g, closed, list[i..], byOwner);
        ghost var first := CloseOne(g, closed, list[i], byOwner);
        ghost var was := index;
        Close(list[i], byOwner);
        GraphLists(g, list[i]);
        if tell && kinds[list[i]] == Producer {
          index := IndexAfter(index, {list[i]}, {});
        }
        IndexOneMore(g, first, CloseAll(g, closed, list[i + 1..], byOwner), list[i..], tell, was, target);
      }
      ClosedEach(g, closed, list[|list|..], byOwner);
      NoneTold(g, closed, tell, index, target);
    }

    /**
     A call of `close()` from outside. When it returns, exactly what can be reached through
     open entities is closed, each has said so once, after its children, and the index of every
     router that is still open holds the producers of its open transports.
     */
    method CloseEntity(n: Id)
      requires Valid() && n in nodes
      modifies this`closed, this`log, this`index
      ensures Valid() && n in closed
      ensures forall m :: m in closed <==> m in old(closed) || Reaches(Links(), old(closed), n, m)
    {
      hide CloseOne, Consistent, Reaches, IndexAfter;
      CloseKeepsConsistent(Links(), closed, log, index, n);
      ClosesExactly(Links(), closed, log, index, n);
      Close(n, false);
    }
  }

  lemma ClosesExactly(g: Graph, closed: set<Id>, log: seq<Id>, index: map<Id, Id>, n: Id)
    requires Consistent(g, closed, log, index) && n in g.nodes
    ensures IsGraph(g)
    ensures forall m :: m in CloseOne(g, closed, n, false).closed <==> m in closed || Reaches(g, closed, n, m)
  {
    ClosesExactlyReachable(g, closed, n);
  }

  lemma CloseKeepsConsistent(g: Graph, closed: set<Id>, log: seq<Id>, index: map<Id, Id>, n: Id)
    requires Consistent(g, closed, log, index) && n in g.nodes
    ensures IsGraph(g)
    ensures var e := CloseOne(g, closed, n, false);
            n in e.closed && Consistent(g, e.closed, log + e.log, IndexAfter(index, e.dropped, e.cleared))
  {
    hide Indexed, Ordered, LinkedInLayers, OwnedInLayers, IndexAfter, CloseOne, Reaches, ChildrenFirst;
    var e := CloseOne(g, closed, n, false);
    var before := Effect(closed, log, {}, {});
    CloseOneCascades(g, closed, n, false);
    ClosesExactlyReachable(g, closed, n);
    assert n in [n];
    EmittedInSequence({}, before, e);
    ClosedStaysPropagated(g, closed, e);
    OneIsOrdered(g, closed, n, false);
    OrderInSequence(g, {}, before, e);
    CascadeKeepsIndexed(g, closed, n, index);
    assert EmittedOnce({}, Effect(e.closed, log + e.log, {}, {}));
    forall m | m in e.closed
      ensures m in g.nodes
    {
      if m !in closed {
        ReachedIsNode(g, closed, n, m);
      }
    }
  }

  lemma ReachedIsNode(g: Graph, closed: set<Id>, n: Id, m: Id)
    requires Reaches(g, closed, n, m)
    ensures m in g.nodes
  {
  }

  lemma ClosedStaysPropagated(g: Graph, closed: set<Id>, e: Effect)
    requires Propagated(g, closed) && EmittedOnce(closed, e) && forall m :: m in e.log ==> LinksClosed(g, e.closed, m)
    ensures Propagated(g, e.closed)
  {
    hide Distinct;
    forall m | m in e.closed
      ensures LinksClosed(g, e.closed, m)
    {
      if m in closed {
        assert LinksClosed(g, closed, m);
      }
    }
  }

  /** The graph with one more entity. */
  function WithEntity(g: Graph, id: Id, kind: Kind, parent: Option<Id>): Graph {
    var children := g.children[id := []];
    Graph(g.nodes + {id}, g.kinds[id := kind],
          if parent.None? then g.owner else g.owner[id := parent.value],
          if parent.None? || parent.value !in children then children
          else children[parent.value := children[parent.value] + [id]],
          g.peers[id := []])
  }

  function IndexWith(g: Graph, index: map<Id, Id>, id: Id, kind: Kind, parent: Option<Id>): map<Id, Id> {
    if kind == Producer && parent.Some? && parent.value in g.owner then index[id := g.owner[parent.value]] else index
  }

  /** Routers have no owner; the others are made in an open entity of the layer above. */
  predicate CanCreate(g: Graph, closed: set<Id>, id: Id, kind: Kind, parent: Option<Id>) {
    && id !in g.nodes && (parent.None? <==> kind == Router)
    && (parent.Some? ==>
      && parent.value in g.nodes && parent.value in g.kinds && parent.value !in closed
      && FitsIn(kind, g.kinds[parent.value]))
  }

  predicate FitsIn(kind: Kind, owner: Kind) {
    match kind
    case Router => false
    case Transport => owner == Router
    case Producer => owner == Transport
    case OtherLeaf => owner == Transport || owner == Router
  }

  lemma KnownParent(g: Graph, closed: set<Id>, log: seq<Id>, index: map<Id, Id>, id: Id, kind: Kind, parent: Option<Id>)
    requires Consistent(g, closed, log, index) && CanCreate(g, closed, id, kind, parent)
    ensures kind == Producer ==> parent.Some? && parent.value in g.owner
    ensures parent.Some? ==> parent.value in g.children && parent.value != id
  {
    if kind == Producer {
      assert OwnedInLayers(g, parent.value);
    }
  }

  lemma EntityKeepsConsistent(g: Graph, closed: set<Id>, log: seq<Id>, index: map<Id, Id>, id: Id, kind: Kind,
                              parent: Option<Id>)
    requires Consistent(g, closed, log, index) && CanCreate(g, closed, id, kind, parent)
    ensures Consistent(WithEntity(g, id, kind, parent), closed, log, IndexWith(g, index, id, kind, parent))
  {
    hide LinkedInLayers, OwnedInLayers, WithEntity, Ordered, Indexed, EmittedOnce, Propagated, Inside;
    var more := WithEntity(g, id, kind, parent);
    EntityExtends(g, closed, id, kind, parent);
    EntityIsLayered(g, more, closed, id, kind, parent);
    LogIsClosed(closed, log);
    forall m | m in closed
      ensures more.children[m] == g.children[m] && more.peers[m] == g.peers[m]
    {
      assert ExtendsAt(g, more, id, parent, m);
    }
    UnchangedStaysPropagated(g, more, closed);
    UnchangedStaysOrdered(g, more, closed, log);
    EntityIsIndexed(g, more, closed, log, index, id, kind, parent);
  }

  /** What `more` has for an entity `m` that `g` had already. */
  ghost predicate ExtendsAt(g: Graph, more: Graph, id: Id, parent: Option<Id>, m: Id)
    requires IsGraph(g) && IsGraph(more) && m in g.nodes && m in more.nodes
  {
    && more.kinds[m] == g.kinds[m] && more.peers[m] == g.peers[m]
    && more.children[m] == (if parent == Some(m) then g.children[m] + [id] else g.children[m])
    && (m in more.owner <==> m in g.owner) && (m in g.owner ==> more.owner[m] == g.owner[m])
  }

  ghost predicate Extends(g: Graph, more: Graph, id: Id, kind: Kind, parent: Option<Id>) {
    && IsGraph(g) && IsGraph(more) && id !in g.nodes && more.nodes == g.nodes + {id}
    && (forall m {:trigger ExtendsAt(g, more, id, parent, m)} :: m in g.nodes ==> ExtendsAt(g, more, id, parent, m))
    && more.kinds[id] == kind && more.peers[id] == [] && more.children[id] == []
    && (id in more.owner <==> parent.Some?) && (parent.Some? ==> more.owner[id] == parent.value)
  }

  lemma EntityExtends(g: Graph, closed: set<Id>, id: Id, kind: Kind, parent: Option<Id>)
    requires IsGraph(g) && CanCreate(g, closed, id, kind, parent)
    ensures Extends(g, WithEntity(g, id, kind, parent), id, kind, parent)
  {
    EntityIsGraph(g, closed, id, kind, parent);
    hide Inside;
  }

  lemma EntityIsGraph(g: Graph, closed: set<Id>, id: Id, kind: Kind, parent: Option<Id>)
    requires IsGraph(g) && CanCreate(g, closed, id, kind, parent)
    ensures IsGraph(WithEntity(g, id, kind, parent))
  {
    var more := WithEntity(g, id, kind, parent);
    hide FitsIn, Inside;
    forall n | n in more.nodes
      ensures Inside(more, more.children[n])
    {
      if n == id {
        NoneInside(more);
      } else if parent == Some(n) {
        OneMoreInside(g, more, g.children[n], id);
      } else {
        StaysInside(g, more, g.children[n]);
      }
    }
    forall n | n in more.nodes
      ensures Inside(more, more.peers[n])
    {
      if n == id {
        NoneInside(more);
      } else {
        StaysInside(g, more, g.peers[n]);
      }
    }
  }

  lemma NoneInside(g: Graph)
    ensures Inside(g, [])
  {
  }

  lemma StaysInside(g: Graph, more: Graph, list: seq<Id>)
    requires Inside(g, list) && g.nodes <= more.nodes
    ensures Inside(more, list)
  {
  }

  lemma OneMoreInside(g: Graph, more: Graph, list: seq<Id>, id: Id)
    requires Inside(g, list) && more.nodes == g.nodes + {id}
    ensures Inside(more, list + [id])
  {
  }

  lemma EntityIsLayered(g: Graph, more: Graph, closed: set<Id>, id: Id, kind: Kind, parent: Option<Id>)
    requires Layered(g) && CanCreate(g, closed, id, kind, parent) && Extends(g, more, id, kind, parent)
    ensures Layered(more)
  {
    hide CanCreate, IsGraph, LinkedInLayers, OwnedInLayers, ExtendsAt;
    forall m | m in more.nodes
      ensures LinkedInLayers(more, m) && OwnedInLayers(more, m)
    {
      if m in g.nodes {
        OldStaysLinked(g, more, closed, id, kind, parent, m);
        OldStaysOwned(g, more, closed, id, kind, parent, m);
      } else {
        NewIsLayered(g, more, closed, id, kind, parent);
      }
    }
  }

  lemma OldStaysLinked(g: Graph, more: Graph, closed: set<Id>, id: Id, kind: Kind, parent: Option<Id>, m: Id)
    requires Layered(g) && CanCreate(g, closed, id, kind, parent) && Extends(g, more, id, kind, parent) && m in g.nodes
    ensures LinkedInLayers(more, m)
  {
    hide OwnedInLayers, Inside, FitsIn;
    assert LinkedInLayers(g, m);
    assert ExtendsAt(g, more, id, parent, m);
    forall c | c in more.children[m]
      ensures c in more.nodes && c in more.owner && more.owner[c] == m && more.kinds[c].Rank() < more.kinds[m].Rank()
    {
      if c in g.children[m] {
        assert ExtendsAt(g, more, id, parent, c);
      } else {
        FitsBelow(kind, g.kinds[m]);
      }
    }
    forall p | p in more.peers[m]
      ensures p in more.nodes && more.kinds[p].Rank() == more.kinds[m].Rank()
    {
      assert ExtendsAt(g, more, id, parent, p);
    }
  }

  lemma FitsBelow(kind: Kind, owner: Kind)
    requires FitsIn(kind, owner)
    ensures kind.Rank() < owner.Rank()
  {
  }

  lemma OldStaysOwned(g: Graph, more: Graph, closed: set<Id>, id: Id, kind: Kind, parent: Option<Id>, m: Id)
    requires Layered(g) && CanCreate(g, closed, id, kind, parent) && Extends(g, more, id, kind, parent) && m in g.nodes
    ensures OwnedInLayers(more, m)
  {
    hide LinkedInLayers, Inside;
    assert OwnedInLayers(g, m);
    assert ExtendsAt(g, more, id, parent, m);
    if m in g.owner {
      assert ExtendsAt(g, more, id, parent, g.owner[m]);
    }
  }

  lemma NewIsLayered(g: Graph, more: Graph, closed: set<Id>, id: Id, kind: Kind, parent: Option<Id>)
    requires Layered(g) && CanCreate(g, closed, id, kind, parent) && Extends(g, more, id, kind, parent)
    ensures LinkedInLayers(more, id) && OwnedInLayers(more, id)
  {
    hide Inside;
    if parent.Some? {
      assert ExtendsAt(g, more, id, parent, parent.value);
    }
  }

  lemma UnchangedStaysPropagated(g: Graph, more: Graph, closed: set<Id>)
    requires IsGraph(g) && IsGraph(more) && closed <= g.nodes && Propagated(g, closed)
    requires forall m :: m in closed ==>
      m in more.nodes && more.children[m] == g.children[m] && more.peers[m] == g.peers[m]
    ensures Propagated(more, closed)
  {
    forall m | m in closed
      ensures LinksClosed(more, closed, m)
    {
      forall x | IsLink(more, m, x)
        ensures x in closed
      {
        assert IsLink(g, m, x);
      }
    }
  }

  lemma UnchangedStaysOrdered(g: Graph, more: Graph, closed: set<Id>, log: seq<Id>)
    requires IsGraph(g) && IsGraph(more) && closed <= g.nodes && Ordered(g, {}, log)
    requires forall m :: m in log ==> m in closed
    requires forall m :: m in closed ==> m in more.nodes && more.children[m] == g.children[m]
    ensures Ordered(more, {}, log)
  {
    hide Before;
    forall m | m in log
      ensures ChildrenFirst(more, {}, log, m)
    {
      assert ChildrenFirst(g, {}, log, m);
    }
  }

  lemma EntityIsIndexed(g: Graph, more: Graph, closed: set<Id>, log: seq<Id>, index: map<Id, Id>, id: Id, kind: Kind,
                        parent: Option<Id>)
    requires Consistent(g, closed, log, index) && CanCreate(g, closed, id, kind, parent)
    requires Extends(g, more, id, kind, parent)
    ensures Indexed(more, closed, IndexWith(g, index, id, kind, parent))
  {
    hide Consistent, CanCreate, Inside, Indexed, IsGraph, IsKind;
    KnownParent(g, closed, log, index, id, kind, parent);
    forall p
      ensures FiledAt(more, closed, IndexWith(g, index, id, kind, parent), p)
    {
      EntityIsFiled(g, more, closed, log, index, id, kind, parent, p);
    }
    FiledIsIndexed(more, closed, IndexWith(g, index, id, kind, parent));
  }

  lemma FiledIsIndexed(g: Graph, closed: set<Id>, index: map<Id, Id>)
    requires forall p {:trigger FiledAt(g, closed, index, p)} :: FiledAt(g, closed, index, p)
    ensures Indexed(g, closed, index)
  {
  }

  lemma EntityIsFiled(g: Graph, more: Graph, closed: set<Id>, log: seq<Id>, index: map<Id, Id>, id: Id, kind: Kind,
                      parent: Option<Id>, p: Id)
    requires Consistent(g, closed, log, index) && CanCreate(g, closed, id, kind, parent)
    requires Extends(g, more, id, kind, parent)
    ensures FiledAt(more, closed, IndexWith(g, index, id, kind, parent), p)
  {
    KnownParent(g, closed, log, index, id, kind, parent);
    IndexedAreNodes(g, closed, log, index);
    hide Consistent, CanCreate, Inside;
    assert FiledAt(g, closed, index, p) && FiledAt(g, closed, index, id);
    if p == id {
      if kind == Producer {
        assert ExtendsAt(g, more, id, parent, parent.value);
      }
    } else if p in g.nodes {
      assert ExtendsAt(g, more, id, parent, p);
      if p in index {
        assert ExtendsAt(g, more, id, parent, g.owner[p]);
      }
    }
  }

  lemma IndexedAreNodes(g: Graph, closed: set<Id>, log: seq<Id>, index: map<Id, Id>)
    requires Consistent(g, closed, log, index)
    ensures Indexed(g, closed, index) && closed <= g.nodes
    ensures forall p :: p in index ==> p in g.nodes && p in g.owner && g.owner[p] in g.nodes
  {
    hide Propagated, Ordered, LinkedInLayers, EmittedOnce;
    forall p | p in index
      ensures p in g.nodes && p in g.owner && g.owner[p] in g.nodes
    {
      assert FiledAt(g, closed, index, p);
      assert OwnedInLayers(g, p);
    }
  }

  /** The graph with two entities that listen to each other. */
  function WithPeers(g: Graph, a: Id, b: Id): Graph {
    if a in g.peers && b in g.peers && a != b then
      g.(peers := g.peers[a := g.peers[a] + [b]][b := g.peers[b] + [a]])
    else g
  }

  lemma PeersAreGraph(g: Graph, a: Id, b: Id)
    requires IsGraph(g) && a in g.nodes && b in g.nodes && a != b
    ensures IsGraph(WithPeers(g, a, b))
  {
    var more := WithPeers(g, a, b);
    hide Inside;
    forall n | n in more.nodes
      ensures Inside(more, more.children[n]) && Inside(more, more.peers[n])
    {
      StaysInside(g, more, g.children[n]);
      StaysInside(g, more, g.peers[n]);
      JoinedInside(more, g.peers[n], if n == a then b else a);
    }
  }

  lemma JoinedInside(g: Graph, list: seq<Id>, id: Id)
    requires Inside(g, list) && id in g.nodes
    ensures Inside(g, list + [id])
  {
  }

  lemma PeersStayLayered(g: Graph, a: Id, b: Id)
    requires Layered(g) && a in g.nodes && b in g.nodes && a != b && g.kinds[a].Rank() == g.kinds[b].Rank()
    ensures Layered(WithPeers(g, a, b))
  {
    var more := WithPeers(g, a, b);
    PeersAreGraph(g, a, b);
    hide LinkedInLayers, OwnedInLayers, Inside;
    forall m | m in more.nodes
      ensures LinkedInLayers(more, m) && OwnedInLayers(more, m)
    {
      PeersStayLinked(g, a, b, m);
      PeersStayOwned(g, a, b, m);
    }
  }

  lemma PeersStayLinked(g: Graph, a: Id, b: Id, m: Id)
    requires Layered(g) && a in g.nodes && b in g.nodes && a != b && g.kinds[a].Rank() == g.kinds[b].Rank()
    requires IsGraph(WithPeers(g, a, b)) && m in g.nodes
    ensures LinkedInLayers(WithPeers(g, a, b), m)
  {
    hide OwnedInLayers, Inside;
    assert LinkedInLayers(g, m);
  }

  lemma PeersStayOwned(g: Graph, a: Id, b: Id, m: Id)
    requires Layered(g) && a in g.nodes && b in g.nodes && a != b && IsGraph(WithPeers(g, a, b)) && m in g.nodes
    ensures OwnedInLayers(WithPeers(g, a, b), m)
  {
    hide LinkedInLayers, Inside;
    assert OwnedInLayers(g, m);
  }

  lemma PeersKeepConsistent(g: Graph, closed: set<Id>, log: seq<Id>, index: map<Id, Id>, a: Id, b: Id)
    requires Consistent(g, closed, log, index) && a in g.nodes && b in g.nodes && a != b
    requires a in g.kinds && b in g.kinds && g.kinds[a].Rank() == g.kinds[b].Rank()
    ensures a in g.peers && b in g.peers
    ensures Consistent(WithPeers(g, a, b), closed, log, index) <==> (a in closed <==> b in closed)
  {
    hide LinkedInLayers, OwnedInLayers, Propagated, Ordered, EmittedOnce;
    var more := WithPeers(g, a, b);
    PeersStayLayered(g, a, b);
    LogIsClosed(closed, log);
    UnchangedStaysOrdered(g, more, closed, log);
    assert Indexed(more, closed, index) by {
      hide Layered;
      forall p
        ensures FiledAt(more, closed, index, p)
      {
        assert FiledAt(g, closed, index, p);
      }
    }
    PeersPropagate(g, more, closed, a, b);
  }

  lemma LogIsClosed(closed: set<Id>, log: seq<Id>)
    requires EmittedOnce({}, Effect(closed, log, {}, {}))
    ensures forall m :: m in log ==> m in closed
  {
  }

  lemma PeersPropagate(g: Graph, more: Graph, closed: set<Id>, a: Id, b: Id)
    requires IsGraph(g) && IsGraph(more) && Propagated(g, closed) && a in g.nodes && b in g.nodes && a != b
    requires more == WithPeers(g, a, b)
    ensures Propagated(more, closed) <==> (a in closed <==> b in closed)
  {
    assert IsLink(more, a, b) && IsLink(more, b, a);
    if Propagated(more, closed) {
      assert a in closed ==> LinksClosed(more, closed, a);
      assert b in closed ==> LinksClosed(more, closed, b);
    } else {
      var m, x :| m in closed && IsLink(more, m, x) && x !in closed;
      assert LinksClosed(g, closed, m);
      assert !IsLink(g, m, x);
    }
  }

  lemma ClosedOne(g: Graph, closed: set<Id>, n: Id, byOwner: bool)
    requires IsGraph(g) && n in g.nodes
    ensures n in closed ==> CloseOne(g, closed, n, byOwner) == Nothing(closed)
    ensures n !in closed ==>
      && Inside(g, g.children[n]) && Inside(g, g.peers[n])
      && var kids := CloseAll(g, closed + {n}, g.children[n], true);
      var others := CloseAll(g, kids.closed, g.peers[n], false);
      CloseOne(g, closed, n, byOwner) == InSequence(InSequence(kids, Own(g, n, byOwner, kids.closed)), others)
  {
  }

  lemma ClosedEach(g: Graph, closed: set<Id>, list: seq<Id>, byOwner: bool)
    requires IsGraph(g) && Inside(g, list)
    ensures list == [] ==> CloseAll(g, closed, list, byOwner) == Nothing(closed)
    ensures list != [] ==>
      var first := CloseOne(g, closed, list[0], byOwner);
      CloseAll(g, closed, list, byOwner) == InSequence(first, CloseAll(g, first.closed, list[1..], byOwner))
  {
  }

  /** The producers of a list, if routers are to be told about them. */
  function ToldIn(g: Graph, list: seq<Id>, tell: bool): set<Id> {
    if tell then set c | c in list && IsKind(g, c, Producer) else {}
  }

  /** What is left to do leads from this index to the one that is wanted. */
  ghost predicate Leads(g: Graph, e: Effect, list: seq<Id>, tell: bool, index: map<Id, Id>, target: map<Id, Id>) {
    IndexAfter(index, e.dropped + ToldIn(g, list, tell), e.cleared) == target
  }

  lemma IndexUntouched(index: map<Id, Id>)
    ensures IndexAfter(index, {}, {}) == index
  {
  }

  lemma NoneTold(g: Graph, closed: set<Id>, tell: bool, index: map<Id, Id>, target: map<Id, Id>)
    requires Leads(g, Nothing(closed), [], tell, index, target)
    ensures index == target
  {
    assert ToldIn(g, [], tell) == {};
    IndexUntouched(index);
  }

  lemma IndexOneMore(g: Graph, first: Effect, rest: Effect, list: seq<Id>, tell: bool, index: map<Id, Id>,
                     target: map<Id, Id>)
    requires list != [] && Leads(g, InSequence(first, rest), list, tell, index, target)
    ensures var now := IndexAfter(index, first.dropped, first.cleared);
            var told := tell && IsKind(g, list[0], Producer);
            Leads(g, rest, list[1..], tell, if told then IndexAfter(now, {list[0]}, {}) else now, target)
  {
    hide IndexAfter, IsKind;
    var own: set<Id> := if tell && IsKind(g, list[0], Producer) then {list[0]} else {};
    var later := ToldIn(g, list[1..], tell);
    assert ToldIn(g, list, tell) == own + later;
    var now := IndexAfter(index, first.dropped, first.cleared);
    IndexUntouched(now);
    IndexTwice(index, first.dropped, first.cleared, own, {});
    IndexTwice(index, first.dropped + own, first.cleared + {}, rest.dropped + later, rest.cleared);
    assert first.dropped + own + (rest.dropped + later) == first.dropped + rest.dropped + (own + later);
    assert first.cleared + {} + rest.cleared == first.cleared + rest.cleared;
  }

  lemma IndexAround(g: Graph, n: Id, byOwner: bool, index: map<Id, Id>, kids: Effect, others: Effect)
    requires IsGraph(g) && n in g.nodes
    ensures var e := InSequence(InSequence(kids, Own(g, n, byOwner, kids.closed)), others);
            var a := if g.kinds[n] == Producer && !byOwner then IndexAfter(index, {n}, {}) else index;
            var told := ToldIn(g, g.children[n], g.kinds[n] == Transport && !byOwner);
            var b := IndexAfter(a, kids.dropped + told, kids.cleared);
            var c := if g.kinds[n] == Router then IndexAfter(b, {}, {n}) else b;
            IndexAfter(c, others.dropped + ToldIn(g, g.peers[n], false), others.cleared) ==
            IndexAfter(index, e.dropped, e.cleared)
  {
    hide IndexAfter;
    var own: set<Id> := if g.kinds[n] == Producer && !byOwner then {n} else {};
    var told := ToldIn(g, g.children[n], g.kinds[n] == Transport && !byOwner);
    var self: set<Id> := if g.kinds[n] == Router then {n} else {};
    var a := IndexAfter(index, own, {});
    IndexUntouched(index);
    IndexTwice(index, own, {}, kids.dropped + told, kids.cleared);
    var b := IndexAfter(a, kids.dropped + told, kids.cleared);
    IndexUntouched(b);
    IndexTwice(index, own + (kids.dropped + told), {} + kids.cleared, {}, self);
    IndexTwice(index, own + (kids.dropped + told) + {}, {} + kids.cleared + self, others.dropped + {}, others.cleared);
    assert DroppedBy(g, n, byOwner) == own + told;
    assert own + (kids.dropped + told) + {} + (others.dropped + {}) == kids.dropped + (own + told) + others.dropped;
    assert {} + kids.cleared + self + others.cleared == kids.cleared + self + others.cleared;
  }

  /**
   Between calls, entities that listen to each other are both open or both closed, closed
   owners have no open child, and children have emitted 'close' before their owner.
   */
  lemma PairsCloseTogether(g: Graph, closed: set<Id>, log: seq<Id>, index: map<Id, Id>, a: Id, b: Id)
    requires Consistent(g, closed, log, index) && a in g.nodes && b in g.nodes
    ensures b in g.peers[a] && a in g.peers[b] ==> (a in closed <==> b in closed)
    ensures b in g.children[a] && a in closed ==> b in closed && Before(log, b, a)
  {
    hide Before;
    assert a in closed ==> LinksClosed(g, closed, a);
    assert b in closed ==> LinksClosed(g, closed, b);
    assert b in g.peers[a] || b in g.children[a] ==> IsLink(g, a, b);
    assert a in g.peers[b] ==> IsLink(g, b, a);
    if a in closed {
      assert ChildrenFirst(g, {}, log, a);
    }
  }

  /** Between calls, the map of an open router is the union of the producers of its open transports. */
  lemma RouterIndexIsUnion(g: Graph, closed: set<Id>, log: seq<Id>, index: map<Id, Id>, r: Id, p: Id)
    requires Consistent(g, closed, log, index) && r in g.nodes && g.kinds[r] == Router
    ensures p in index && index[p] == r <==>
      exists t :: IsKind(g, t, Transport) && t !in closed && t in g.children[r]
                  && IsKind(g, p, Producer) && p !in closed && p in g.children[t]
    ensures r in closed ==> !(p in index && index[p] == r)
  {
    assert FiledAt(g, closed, index, p);
    if p in index {
      RouterOfProducer(g, p);
      var t := g.owner[p];
      assert OwnedInLayers(g, p) && OwnedInLayers(g, t);
      if t in closed {
        OwnerCloses(g, closed, p);
      }
      if r in closed && g.owner[t] == r {
        OwnerCloses(g, closed, t);
      }
    }
    forall t | IsKind(g, t, Transport) && t in g.children[r]
               && IsKind(g, p, Producer) && p !in closed && p in g.children[t]
      ensures p in index && index[p] == r
    {
      assert LinkedInLayers(g, r) && LinkedInLayers(g, t);
    }
  }
}
