/**
 The close cascade. Closing an entity marks it closed, closes its children, emits its
 observer's 'close' event, and so closes the peers that listen to that event; each of
 these calls is the same procedure again, entered before the caller is done. On the way
 the routers are told which producers to take out of their index.

 Children are the transports and observers of a router and the producers, consumers, data
 producers and data consumers of a transport. Peers are the two transports of a pipe pair,
 and the pipe consumer and pipe producer made for a piped producer.
 */
module CloseCascade {
  import opened Wrappers

  type Id = nat

  datatype Kind = Router | Transport | Producer | OtherLeaf {
    function Rank(): nat {
      match this
      case Router => 2
      case Transport => 1
      case _ => 0
    }
  }

  /** `owner` is the inverse of `children`. */
  datatype Graph = Graph(
    nodes: set<Id>,
    kinds: map<Id, Kind>,
    owner: map<Id, Id>,
    children: map<Id, seq<Id>>,
    peers: map<Id, seq<Id>>)

  ghost predicate IsGraph(g: Graph) {
    && g.children.Keys == g.nodes && g.peers.Keys == g.nodes && g.kinds.Keys == g.nodes && g.owner.Keys <= g.nodes
    && (forall n :: n in g.nodes ==> Inside(g, g.children[n]))
    && (forall n :: n in g.nodes ==> Inside(g, g.peers[n]))
  }

  ghost predicate Inside(g: Graph, list: seq<Id>) {
    forall i :: 0 <= i < |list| ==> list[i] in g.nodes
  }

  // ----- What a close call does

  /**
   The entities closed afterwards, those whose 'close' event was emitted, in order, the
   producers that routers were told about, and the routers that cleared their index.
   */
  datatype Effect = Effect(closed: set<Id>, log: seq<Id>, dropped: set<Id>, cleared: set<Id>)

  function Nothing(closed: set<Id>): Effect {
    Effect(closed, [], {}, {})
  }

  function InSequence(first: Effect, rest: Effect): Effect {
    Effect(rest.closed, first.log + rest.log, first.dropped + rest.dropped, first.cleared + rest.cleared)
  }

  function IsKind(g: Graph, n: Id, kind: Kind): bool {
    n in g.kinds && g.kinds[n] == kind
  }

  /** The producers that the router of `n` is told about when `n` closes, by itself or by its owner. */
  function DroppedBy(g: Graph, n: Id, byOwner: bool): set<Id> {
    if byOwner || n !in g.children then {}
    else if IsKind(g, n, Producer) then {n}
    else if IsKind(g, n, Transport) then set c | c in g.children[n] && IsKind(g, c, Producer)
    else {}
  }

  function Own(g: Graph, n: Id, byOwner: bool, closed: set<Id>): Effect {
    Effect(closed, [n], DroppedBy(g, n, byOwner), if IsKind(g, n, Router) then {n} else {})
  }

  ghost function CloseOne(g: Graph, closed: set<Id>, n: Id, byOwner: bool): (e: Effect)
    requires IsGraph(g) && n in g.nodes
    ensures closed <= e.closed
    decreases g.nodes - closed, 0
  {
    if n in closed then Nothing(closed)
    else
      var children := CloseAll(g, closed + {n}, g.children[n], true);
      var peers := CloseAll(g, children.closed, g.peers[n], false);
      InSequence(InSequence(children, Own(g, n, byOwner, children.closed)), peers)
  }

  ghost function CloseAll(g: Graph, closed: set<Id>, list: seq<Id>, byOwner: bool): (e: Effect)
    requires IsGraph(g) && Inside(g, list)
    ensures closed <= e.closed
    decreases g.nodes - closed, |list| + 1
  {
    if list == [] then Nothing(closed)
    else
      var first := CloseOne(g, closed, list[0], byOwner);
      InSequence(first, CloseAll(g, first.closed, list[1..], byOwner))
  }

  // ----- Reaching through open entities

  predicate IsLink(g: Graph, a: Id, b: Id) {
    && a in g.children && a in g.peers && (b in g.children[a] || b in g.peers[a])
  }

  ghost predicate IsPath(g: Graph, closed: set<Id>, p: seq<Id>) {
    && p != []
    && (forall i :: 0 <= i < |p| ==> p[i] in g.nodes && p[i] !in closed)
    && (forall i :: 0 <= i < |p| - 1 ==> IsLink(g, p[i], p[i + 1]))
  }

  /** `b` can be reached from `a` through links, all entities on the way being open. */
  ghost predicate Reaches(g: Graph, closed: set<Id>, a: Id, b: Id) {
    exists p :: IsPath(g, closed, p) && p[0] == a && p[|p| - 1] == b
  }

  lemma ReachesItself(g: Graph, closed: set<Id>, n: Id)
    requires n in g.nodes && n !in closed
    ensures Reaches(g, closed, n, n)
  {
    assert IsPath(g, closed, [n]);
  }

  lemma ReachesThrough(g: Graph, closed: set<Id>, n: Id, c: Id, m: Id)
    requires n in g.nodes && n !in closed && IsLink(g, n, c) && Reaches(g, closed, c, m)
    ensures Reaches(g, closed, n, m)
  {
    var p :| IsPath(g, closed, p) && p[0] == c && p[|p| - 1] == m;
    var q := [n] + p;
    assert forall i :: 0 < i < |q| ==> q[i] == p[i - 1];
    assert IsPath(g, closed, q);
  }

  lemma ReachesMore(g: Graph, closed: set<Id>, more: set<Id>, a: Id, b: Id)
    requires closed <= more && Reaches(g, more, a, b)
    ensures Reaches(g, closed, a, b)
  {
    var p :| IsPath(g, more, p) && p[0] == a && p[|p| - 1] == b;
    assert IsPath(g, closed, p);
  }

  // ----- The guarantees of a cascade

  /** Everything that `m` links to is closed. */
  ghost predicate LinksClosed(g: Graph, closed: set<Id>, m: Id) {
    forall x :: IsLink(g, m, x) ==> x in closed
  }

  /** Exactly the newly closed entities emitted, each of them once. */
  ghost predicate EmittedOnce(closed: set<Id>, e: Effect) {
    && closed <= e.closed
    && Distinct(e.log)
    && forall m :: m in e.log <==> m in e.closed && m !in closed
  }

  ghost predicate FromSome(g: Graph, closed: set<Id>, roots: seq<Id>, m: Id) {
    exists r :: r in roots && Reaches(g, closed, r, m)
  }

  ghost predicate Cascade(g: Graph, closed: set<Id>, roots: seq<Id>, e: Effect) {
    && EmittedOnce(closed, e)
    && (forall r :: r in roots ==> r in e.closed)
    && (forall m :: m in e.log ==> LinksClosed(g, e.closed, m))
    && (forall m :: m in e.log ==> FromSome(g, closed, roots, m))
  }

  lemma EmittedInSequence(closed: set<Id>, first: Effect, rest: Effect)
    requires EmittedOnce(closed, first) && EmittedOnce(first.closed, rest)
    ensures EmittedOnce(closed, InSequence(first, rest))
  {
    var log := first.log + rest.log;
    forall i, j | 0 <= i < j < |log|
      ensures log[i] != log[j]
    {
      if i < |first.log| <= j {
        assert log[i] in first.log && log[j] in rest.log;
      }
    }
  }

  lemma CascadeInSequence(g: Graph, closed: set<Id>, x: Id, list: seq<Id>, first: Effect, rest: Effect)
    requires Cascade(g, closed, [x], first) && Cascade(g, first.closed, list, rest)
    ensures Cascade(g, closed, [x] + list, InSequence(first, rest))
  {
    hide EmittedOnce, Reaches;
    var e := InSequence(first, rest);
    EmittedInSequence(closed, first, rest);
    Grows(closed, first);
    Grows(first.closed, rest);
    forall m | m in e.log
      ensures LinksClosed(g, e.closed, m) && FromSome(g, closed, [x] + list, m)
    {
      if m in first.log {
        assert FromSome(g, closed, [x], m);
        assert x in [x] + list;
      } else {
        var r :| r in list && Reaches(g, first.closed, r, m);
        ReachesMore(g, closed, first.closed, r, m);
        assert r in [x] + list;
      }
    }
  }

  lemma Grows(closed: set<Id>, e: Effect)
    requires EmittedOnce(closed, e)
    ensures closed <= e.closed
  {
  }

  lemma NothingToClose(g: Graph, closed: set<Id>, roots: seq<Id>)
    requires forall r :: r in roots ==> r in closed
    ensures Cascade(g, closed, roots, Nothing(closed))
  {
  }

  /** Emitting for `n` itself, between its children and its peers. */
  lemma EmittedAround(g: Graph, closed: set<Id>, n: Id, byOwner: bool, children: Effect, peers: Effect)
    requires n !in closed && EmittedOnce(closed + {n}, children) && EmittedOnce(children.closed, peers)
    ensures EmittedOnce(closed, InSequence(InSequence(children, Own(g, n, byOwner, children.closed)), peers))
  {
    var own := InSequence(children, Own(g, n, byOwner, children.closed));
    assert EmittedOnce(closed, own) by {
      forall i, j | 0 <= i < j < |own.log|
        ensures own.log[i] != own.log[j]
      {
        if j == |children.log| {
          assert own.log[i] in children.log;
        }
      }
    }
    EmittedInSequence(closed, own, peers);
  }

  lemma FromChild(g: Graph, closed: set<Id>, n: Id, list: seq<Id>, m: Id)
    requires n in g.nodes && n !in closed && FromSome(g, closed + {n}, list, m)
    requires forall c :: c in list ==> IsLink(g, n, c)
    ensures Reaches(g, closed, n, m)
  {
    hide Reaches;
    var c :| c in list && Reaches(g, closed + {n}, c, m);
    ReachesMore(g, closed, closed + {n}, c, m);
    ReachesThrough(g, closed, n, c, m);
  }

  lemma FromPeer(g: Graph, closed: set<Id>, n: Id, more: set<Id>, list: seq<Id>, m: Id)
    requires n in g.nodes && n !in closed && closed <= more && FromSome(g, more, list, m)
    requires forall c :: c in list ==> IsLink(g, n, c)
    ensures Reaches(g, closed, n, m)
  {
    hide Reaches;
    var c :| c in list && Reaches(g, more, c, m);
    ReachesMore(g, closed, more, c, m);
    ReachesThrough(g, closed, n, c, m);
  }

  lemma CascadeAround(g: Graph, closed: set<Id>, n: Id, byOwner: bool, children: Effect, peers: Effect)
    requires IsGraph(g) && n in g.nodes && n !in closed
    requires Cascade(g, closed + {n}, g.children[n], children) && Cascade(g, children.closed, g.peers[n], peers)
    ensures Cascade(g, closed, [n], InSequence(InSequence(children, Own(g, n, byOwner, children.closed)), peers))
  {
    hide EmittedOnce, Reaches, IsGraph, DroppedBy, IsKind;
    GraphLists(g, n);
    var e := InSequence(InSequence(children, Own(g, n, byOwner, children.closed)), peers);
    EmittedAround(g, closed, n, byOwner, children, peers);
    Grows(closed + {n}, children);
    Grows(children.closed, peers);
    forall m | m in e.log
      ensures LinksClosed(g, e.closed, m) && FromSome(g, closed, [n], m)
    {
      assert n in [n];
      if m in children.log {
        FromChild(g, closed, n, g.children[n], m);
      } else if m in peers.log {
        FromPeer(g, closed, n, children.closed, g.peers[n], m);
      } else {
        ReachesItself(g, closed, n);
      }
    }
  }

  lemma GraphLists(g: Graph, n: Id)
    requires IsGraph(g) && n in g.nodes
    ensures n in g.children && n in g.peers && n in g.kinds
    ensures Inside(g, g.children[n]) && Inside(g, g.peers[n])
  {
  }

  lemma {:induction false} CloseOneCascades(g: Graph, closed: set<Id>, n: Id, byOwner: bool)
    requires IsGraph(g) && n in g.nodes
    ensures Cascade(g, closed, [n], CloseOne(g, closed, n, byOwner))
    decreases g.nodes - closed, 0
  {
    hide Cascade, IsGraph;
    if n in closed {
      NothingToClose(g, closed, [n]);
    } else {
      GraphLists(g, n);
      var children := CloseAll(g, closed + {n}, g.children[n], true);
      CloseAllCascades(g, closed + {n}, g.children[n], true);
      CloseAllCascades(g, children.closed, g.peers[n], false);
      CascadeAround(g, closed, n, byOwner, children, CloseAll(g, children.closed, g.peers[n], false));
    }
  }

  lemma {:induction false} CloseAllCascades(g: Graph, closed: set<Id>, list: seq<Id>, byOwner: bool)
    requires IsGraph(g) && Inside(g, list)
    ensures Cascade(g, closed, list, CloseAll(g, closed, list, byOwner))
    decreases g.nodes - closed, |list| + 1
  {
    hide Cascade, IsGraph;
    if list == [] {
      NothingToClose(g, closed, []);
    } else {
      var first := CloseOne(g, closed, list[0], byOwner);
      CloseOneCascades(g, closed, list[0], byOwner);
      CloseAllCascades(g, first.closed, list[1..], byOwner);
      CascadeInSequence(g, closed, list[0], list[1..], first, CloseAll(g, first.closed, list[1..], byOwner));
      assert [list[0]] + list[1..] == list;
    }
  }

  lemma {:induction false} PathIsClosed(g: Graph, closed: set<Id>, e: Effect, p: seq<Id>, i: nat)
    requires IsPath(g, closed, p) && i < |p| && p[0] in e.closed && EmittedOnce(closed, e)
    requires forall m :: m in e.log ==> LinksClosed(g, e.closed, m)
    ensures p[i] in e.closed
  {
    if i > 0 {
      PathIsClosed(g, closed, e, p, i - 1);
      assert p[i - 1] in e.log;
      assert IsLink(g, p[i - 1], p[i - 1 + 1]);
    }
  }

  /**
   Closing one entity closes exactly the entities that it reaches through open ones, and
   emits 'close' exactly once for each of them and for no other.
   */
  lemma ClosesExactlyReachable(g: Graph, closed: set<Id>, n: Id)
    requires IsGraph(g) && n in g.nodes
    ensures var e := CloseOne(g, closed, n, false);
            && Distinct(e.log)
            && (forall m :: m in e.log <==> Reaches(g, closed, n, m))
            && (forall m :: m in e.closed <==> m in closed || Reaches(g, closed, n, m))
  {
    var e := CloseOne(g, closed, n, false);
    CloseOneCascades(g, closed, n, false);
    hide CloseOne, CloseAll, IsGraph;
    forall m
      ensures Reaches(g, closed, n, m) <==> m in e.log
    {
      if m in e.log {
        assert FromSome(g, closed, [n], m);
      }
      if Reaches(g, closed, n, m) {
        var p :| IsPath(g, closed, p) && p[0] == n && p[|p| - 1] == m;
        assert n in [n];
        PathIsClosed(g, closed, e, p, |p| - 1);
      }
    }
  }

  // ----- Layers, and the order of events

  ghost predicate LinkedInLayers(g: Graph, n: Id)
    requires IsGraph(g) && n in g.nodes
  {
    && (forall c :: c in g.children[n] ==>
      c in g.nodes && c in g.owner && g.owner[c] == n && g.kinds[c].Rank() < g.kinds[n].Rank())
    && (forall p :: p in g.peers[n] ==> p in g.nodes && g.kinds[p].Rank() == g.kinds[n].Rank())
  }

  ghost predicate OwnedInLayers(g: Graph, n: Id)
    requires IsGraph(g) && n in g.nodes
  {
    && (n in g.owner ==> g.owner[n] in g.nodes && n in g.children[g.owner[n]])
    && (g.kinds[n] == Producer ==> n in g.owner && IsKind(g, g.owner[n], Transport))
    && (g.kinds[n] == Transport ==> n in g.owner && IsKind(g, g.owner[n], Router))
  }

  /** Routers own transports, transports own leaves, and peers are of the same layer. */
  ghost predicate Layered(g: Graph) {
    && IsGraph(g)
    && (forall n {:trigger LinkedInLayers(g, n)} :: n in g.nodes ==> LinkedInLayers(g, n))
    && (forall n {:trigger OwnedInLayers(g, n)} :: n in g.nodes ==> OwnedInLayers(g, n))
  }

  ghost predicate Before(log: seq<Id>, a: Id, b: Id) {
    exists i, j :: 0 <= i < j < |log| && log[i] == a && log[j] == b
  }

  /** The children of `m` that were not closed earlier emit before it. */
  ghost predicate ChildrenFirst(g: Graph, closed: set<Id>, log: seq<Id>, m: Id) {
    m in g.children ==> forall c :: c in g.children[m] ==> c in closed || Before(log, c, m)
  }

  ghost predicate Ordered(g: Graph, closed: set<Id>, log: seq<Id>) {
    forall m :: m in log ==> ChildrenFirst(g, closed, log, m)
  }

  ghost predicate Below(g: Graph, log: seq<Id>, rank: nat) {
    forall m :: m in log ==> m in g.kinds && g.kinds[m].Rank() <= rank
  }

  lemma BeforeInConcat(a: seq<Id>, b: seq<Id>, x: Id, y: Id)
    ensures Before(a, x, y) || Before(b, x, y) || (x in a && y in b) ==> Before(a + b, x, y)
  {
    var s := a + b;
    if Before(a, x, y) {
      var i, j :| 0 <= i < j < |a| && a[i] == x && a[j] == y;
      assert s[i] == x && s[j] == y;
    } else if Before(b, x, y) {
      var i, j :| 0 <= i < j < |b| && b[i] == x && b[j] == y;
      assert s[|a| + i] == x && s[|a| + j] == y;
    } else if x in a && y in b {
      var i :| 0 <= i < |a| && a[i] == x;
      var j :| 0 <= j < |b| && b[j] == y;
      assert s[i] == x && s[|a| + j] == y;
    }
  }

  lemma OrderInSequence(g: Graph, closed: set<Id>, first: Effect, rest: Effect)
    requires EmittedOnce(closed, first) && Ordered(g, closed, first.log) && Ordered(g, first.closed, rest.log)
    ensures Ordered(g, closed, first.log + rest.log)
  {
    forall m | m in first.log + rest.log
      ensures ChildrenFirst(g, closed, first.log + rest.log, m)
    {
      hide Before, Distinct;
      if m in g.children {
        forall c | c in g.children[m]
          ensures c in closed || Before(first.log + rest.log, c, m)
        {
          BeforeInConcat(first.log, rest.log, c, m);
          if m in first.log {
            assert ChildrenFirst(g, closed, first.log, m);
          } else {
            assert ChildrenFirst(g, first.closed, rest.log, m);
          }
        }
      }
    }
  }

  /** Nothing closed on behalf of the children of `n` has `n` as a child. */
  lemma OrderOfOwn(g: Graph, closed: set<Id>, n: Id, children: Effect)
    requires Layered(g) && n in g.nodes && n !in closed
    requires Cascade(g, closed + {n}, g.children[n], children)
    requires Ordered(g, closed + {n}, children.log) && Below(g, children.log, g.kinds[n].Rank())
    ensures Ordered(g, closed, children.log + [n])
  {
    hide Before, Distinct, FromSome, LinksClosed, OwnedInLayers;
    var log := children.log + [n];
    assert LinkedInLayers(g, n);
    forall m | m in log && m in g.children
      ensures ChildrenFirst(g, closed, log, m)
    {
      assert LinkedInLayers(g, m);
      forall c | c in g.children[m]
        ensures c in closed || Before(log, c, m)
      {
        BeforeInConcat(children.log, [n], c, m);
        if m in children.log {
          assert ChildrenFirst(g, closed + {n}, children.log, m);
        }
      }
    }
  }

  lemma {:induction false} OneIsOrdered(g: Graph, closed: set<Id>, n: Id, byOwner: bool)
    requires Layered(g) && n in g.nodes
    ensures var e := CloseOne(g, closed, n, byOwner);
            Ordered(g, closed, e.log) && Below(g, e.log, g.kinds[n].Rank())
    decreases g.nodes - closed, 0
  {
    hide Cascade, Ordered, LinkedInLayers, OwnedInLayers, DroppedBy;
    if n in closed {
      NothingIsOrdered(g, closed);
    } else {
      var rank := g.kinds[n].Rank();
      LayersOf(g, n);
      var children := CloseAll(g, closed + {n}, g.children[n], true);
      var peers := CloseAll(g, children.closed, g.peers[n], false);
      AllIsOrdered(g, closed + {n}, g.children[n], rank, true);
      AllIsOrdered(g, children.closed, g.peers[n], rank, false);
      CloseAllCascades(g, closed + {n}, g.children[n], true);
      CloseAllCascades(g, children.closed, g.peers[n], false);
      OrderOfOwn(g, closed, n, children);
      var own := InSequence(children, Own(g, n, byOwner, children.closed));
      OwnEmitted(g, closed, n, byOwner, children);
      OrderInSequence(g, closed, own, peers);
    }
  }

  lemma OwnEmitted(g: Graph, closed: set<Id>, n: Id, byOwner: bool, children: Effect)
    requires n !in closed && IsGraph(g) && n in g.nodes && Cascade(g, closed + {n}, g.children[n], children)
    ensures EmittedOnce(closed, InSequence(children, Own(g, n, byOwner, children.closed)))
  {
    hide FromSome, LinksClosed, DroppedBy;
    EmittedAround(g, closed, n, byOwner, children, Nothing(children.closed));
    var own := InSequence(children, Own(g, n, byOwner, children.closed));
    assert own.log + [] == own.log;
  }

  lemma LayersOf(g: Graph, n: Id)
    requires Layered(g) && n in g.nodes
    ensures Inside(g, g.children[n]) && Inside(g, g.peers[n])
    ensures Below(g, g.children[n], g.kinds[n].Rank()) && Below(g, g.peers[n], g.kinds[n].Rank())
  {
    hide OwnedInLayers;
    assert LinkedInLayers(g, n);
  }

  lemma NothingIsOrdered(g: Graph, closed: set<Id>)
    ensures Ordered(g, closed, [])
  {
  }

  lemma {:induction false} AllIsOrdered(g: Graph, closed: set<Id>, list: seq<Id>, rank: nat, byOwner: bool)
    requires Layered(g) && Inside(g, list) && Below(g, list, rank)
    ensures var e := CloseAll(g, closed, list, byOwner);
            Ordered(g, closed, e.log) && Below(g, e.log, rank)
    decreases g.nodes - closed, |list| + 1
  {
    hide IsGraph, LinkedInLayers, OwnedInLayers, Ordered, FromSome, LinksClosed;
    if list == [] {
      NothingIsOrdered(g, closed);
    } else {
      var first := CloseOne(g, closed, list[0], byOwner);
      OneIsOrdered(g, closed, list[0], byOwner);
      CloseOneCascades(g, closed, list[0], byOwner);
      AllIsOrdered(g, first.closed, list[1..], rank, byOwner);
      OrderInSequence(g, closed, first, CloseAll(g, first.closed, list[1..], byOwner));
    }
  }

  /** Every entity that a cascade closes emits 'close' strictly after its children. */
  lemma ChildrenCloseFirst(g: Graph, closed: set<Id>, n: Id, m: Id, c: Id)
    requires Layered(g) && n in g.nodes && m in CloseOne(g, closed, n, false).log
    requires m in g.children && c in g.children[m] && c !in closed
    ensures Before(CloseOne(g, closed, n, false).log, c, m)
  {
    OneIsOrdered(g, closed, n, false);
    hide CloseOne;
    assert ChildrenFirst(g, closed, CloseOne(g, closed, n, false).log, m);
  }
}
