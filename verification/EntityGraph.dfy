/** Directed graphs as edge lists: paths, distance and successors. */
module Paths {
  import opened Common

  type NodeId = string

  datatype Edge = Edge(id: string, source: NodeId, target: NodeId)

  ghost predicate HasEdge(edges: seq<Edge>, a: NodeId, b: NodeId) {
    exists i :: 0 <= i < |edges| && edges[i].source == a && edges[i].target == b
  }

  ghost predicate IsPath(edges: seq<Edge>, p: seq<NodeId>) {
    p != [] && forall i :: 0 < i < |p| ==> HasEdge(edges, p[i - 1], p[i])
  }

  ghost predicate Connects(edges: seq<Edge>, p: seq<NodeId>, a: NodeId, b: NodeId) {
    IsPath(edges, p) && p[0] == a && p[|p| - 1] == b
  }

  /** b lies at distance at most n from a. */
  ghost predicate Within(edges: seq<Edge>, a: NodeId, b: NodeId, n: int) {
    exists p :: Connects(edges, p, a, b) && |p| <= n + 1
  }

  /** The targets of a node's edges, in edge order. */
  function Successors(edges: seq<Edge>, a: NodeId): seq<NodeId> {
    if edges == [] then []
    else
      var last := edges[|edges| - 1];
      Successors(edges[..|edges| - 1], a) + if last.source == a then [last.target] else []
  }

  lemma {:induction false} SuccessorsAreEdges(edges: seq<Edge>, a: NodeId, b: NodeId)
    ensures b in Successors(edges, a) <==> HasEdge(edges, a, b)
  {
    if edges != [] {
      var init, last := edges[..|edges| - 1], edges[|edges| - 1];
      SuccessorsAreEdges(init, a, b);
      if HasEdge(init, a, b) {
        var i :| 0 <= i < |init| && init[i].source == a && init[i].target == b;
        assert edges[i] == init[i];
      }
      if HasEdge(edges, a, b) && !(last.source == a && last.target == b) {
        var i :| 0 <= i < |edges| && edges[i].source == a && edges[i].target == b;
        assert init[i] == edges[i];
      }
    }
  }

  /** Each edge of the node contributes its target once, in edge order. */
  lemma {:induction false} SuccessorsInOrder(edges: seq<Edge>, a: NodeId) returns (from: seq<nat>)
    ensures |from| == |Successors(edges, a)| && StrictlyIncreasing(from)
    ensures forall i :: 0 <= i < |from| ==>
              from[i] < |edges| && edges[from[i]].source == a && edges[from[i]].target == Successors(edges, a)[i]
    ensures forall k: nat :: k < |edges| && edges[k].source == a ==> k in from
  {
    from := [];
    if edges != [] {
      var n := |edges| - 1;
      from := SuccessorsInOrder(edges[..n], a);
      if edges[n].source == a {
        from := from + [n];
      }
    }
  }

  lemma PathExtends(edges: seq<Edge>, p: seq<NodeId>, a: NodeId, b: NodeId, c: NodeId)
    requires Connects(edges, p, a, b) && HasEdge(edges, b, c)
    ensures Connects(edges, p + [c], a, c)
  {
  }

  lemma PathShrinks(edges: seq<Edge>, p: seq<NodeId>, a: NodeId, b: NodeId)
    requires Connects(edges, p, a, b) && |p| > 1
    ensures Connects(edges, p[..|p| - 1], a, p[|p| - 2]) && HasEdge(edges, p[|p| - 2], b)
  {
  }

  lemma TrivialPath(edges: seq<Edge>, a: NodeId)
    ensures Connects(edges, [a], a, a)
  {
  }

  /** A set closed under edges holds the end of every path that starts in it. */
  lemma {:induction false} ClosedHoldsPaths(edges: seq<Edge>, closed: set<NodeId>, p: seq<NodeId>, a: NodeId, b: NodeId)
    requires a in closed && forall v, w :: v in closed && HasEdge(edges, v, w) ==> w in closed
    requires Connects(edges, p, a, b)
    ensures b in closed
    decreases |p|
  {
    if |p| > 1 {
      PathShrinks(edges, p, a, b);
      ClosedHoldsPaths(edges, closed, p[..|p| - 1], a, p[|p| - 2]);
    }
  }

  /** Distance at most n + 1 is one edge beyond distance at most n. */
  lemma WithinStep(edges: seq<Edge>, a: NodeId, c: NodeId, n: nat)
    ensures Within(edges, a, c, n + 1) <==>
            Within(edges, a, c, n) || exists b :: Within(edges, a, b, n) && HasEdge(edges, b, c)
  {
    if Within(edges, a, c, n + 1) && !Within(edges, a, c, n) {
      var p :| Connects(edges, p, a, c) && |p| <= n + 2;
      PathShrinks(edges, p, a, c);
      assert Within(edges, a, p[|p| - 2], n);
    }
    if b :| Within(edges, a, b, n) && HasEdge(edges, b, c) {
      var p :| Connects(edges, p, a, b) && |p| <= n + 1;
      PathExtends(edges, p, a, b, c);
    }
    if p :| Connects(edges, p, a, c) && |p| <= n + 1 {
      assert Within(edges, a, c, n + 1);
    }
  }

  lemma NoNegativeDistance(edges: seq<Edge>, a: NodeId, b: NodeId, n: int)
    requires n < 0
    ensures !Within(edges, a, b, n)
  {
  }

  lemma WithinZero(edges: seq<Edge>, a: NodeId, b: NodeId)
    ensures Within(edges, a, b, 0) <==> a == b
    ensures !Within(edges, a, b, -1)
  {
    TrivialPath(edges, a);
  }
}

/** The frontier of the breadth-first search of `shortest_path`. */
module Search {
  import opened Paths

  datatype Item = Item(node: NodeId, path: seq<NodeId>)

  ghost predicate Queued(queue: seq<Item>, v: NodeId) {
    exists i :: 0 <= i < |queue| && queue[i].node == v
  }

  lemma QueuedGrows(queue: seq<Item>, item: Item)
    ensures Queued(queue + [item], item.node)
    ensures forall v :: Queued(queue, v) ==> Queued(queue + [item], v)
  {
    assert (queue + [item])[|queue|] == item;
    forall v | Queued(queue, v) ensures Queued(queue + [item], v) {
      var i :| 0 <= i < |queue| && queue[i].node == v;
      assert (queue + [item])[i].node == v;
    }
  }

  /** Queue entries carry shortest paths, in order of length, and lengths differ by at most one. */
  ghost predicate QueueIsShortest(edges: seq<Edge>, source: NodeId, queue: seq<Item>) {
    && (forall i :: 0 <= i < |queue| ==> Connects(edges, queue[i].path, source, queue[i].node))
    && (forall i, p :: 0 <= i < |queue| && Connects(edges, p, source, queue[i].node) ==> |queue[i].path| <= |p|)
    && (forall i, j :: 0 <= i < j < |queue| ==> |queue[i].path| <= |queue[j].path| <= |queue[i].path| + 1)
  }

  /** Whatever was visited is either queued or fully expanded. */
  ghost predicate VisitedIsClosed(edges: seq<Edge>, visited: set<NodeId>, queue: seq<Item>) {
    && (forall i :: 0 <= i < |queue| ==> queue[i].node in visited)
    && (forall v, w :: v in visited && !Queued(queue, v) && HasEdge(edges, v, w) ==> w in visited)
  }

  /** Every node that a path of at most `length` nodes reaches was visited. */
  ghost predicate VisitedUpTo(edges: seq<Edge>, source: NodeId, visited: set<NodeId>, length: nat) {
    forall p, v :: Connects(edges, p, source, v) && |p| <= length ==> v in visited
  }

  ghost predicate Frontier(edges: seq<Edge>, source: NodeId, visited: set<NodeId>, queue: seq<Item>) {
    && source in visited
    && QueueIsShortest(edges, source, queue)
    && VisitedIsClosed(edges, visited, queue)
    && (queue != [] ==> VisitedUpTo(edges, source, visited, |queue[0].path|))
  }

  lemma FrontierStarts(edges: seq<Edge>, source: NodeId)
    ensures Frontier(edges, source, {source}, [Item(source, [source])])
  {
    TrivialPath(edges, source);
    assert [Item(source, [source])][0].node == source;
  }

  /** What expanding the front of the queue adds: unseen successors, each with its path. */
  ghost predicate Expansion(edges: seq<Edge>, front: Item, visited: set<NodeId>, added: seq<Item>,
                            visited': set<NodeId>)
  {
    && (forall i :: 0 <= i < |added| ==>
          && added[i].node !in visited && added[i].node in visited'
          && HasEdge(edges, front.node, added[i].node)
          && added[i].path == front.path + [added[i].node])
    && visited <= visited'
    && (forall v :: v in visited' ==> v in visited || Queued(added, v))
  }

  lemma AddedIsShortest(edges: seq<Edge>, source: NodeId, visited: set<NodeId>, queue: seq<Item>,
                        added: seq<Item>, visited': set<NodeId>, i: nat)
    requires Frontier(edges, source, visited, queue) && queue != []
    requires Expansion(edges, queue[0], visited, added, visited') && i < |added|
    ensures Connects(edges, added[i].path, source, added[i].node)
    ensures |added[i].path| == |queue[0].path| + 1
    ensures forall p :: Connects(edges, p, source, added[i].node) ==> |added[i].path| <= |p|
  {
    PathExtends(edges, queue[0].path, source, queue[0].node, added[i].node);
  }

  lemma QueueStaysShortest(edges: seq<Edge>, source: NodeId, visited: set<NodeId>, queue: seq<Item>,
                           added: seq<Item>, visited': set<NodeId>)
    requires Frontier(edges, source, visited, queue) && queue != []
    requires Expansion(edges, queue[0], visited, added, visited')
    ensures QueueIsShortest(edges, source, queue[1..] + added)
  {
    var next := queue[1..] + added;
    forall i | 0 <= i < |next|
      ensures Connects(edges, next[i].path, source, next[i].node)
      ensures |queue[0].path| <= |next[i].path| <= |queue[0].path| + 1
      ensures forall p :: Connects(edges, p, source, next[i].node) ==> |next[i].path| <= |p|
    {
      if i < |queue| - 1 {
        assert next[i] == queue[i + 1];
      } else {
        AddedIsShortest(edges, source, visited, queue, added, visited', i - (|queue| - 1));
      }
    }
    forall i, j | 0 <= i < j < |next| ensures |next[i].path| <= |next[j].path| <= |next[i].path| + 1 {
      if j < |queue| - 1 {
        assert next[i] == queue[i + 1] && next[j] == queue[j + 1];
      } else {
        AddedIsShortest(edges, source, visited, queue, added, visited', j - (|queue| - 1));
      }
    }
  }

  lemma QueuedAfterPop(queue: seq<Item>, added: seq<Item>, v: NodeId)
    requires queue != []
    ensures Queued(added, v) ==> Queued(queue[1..] + added, v)
    ensures Queued(queue, v) && v != queue[0].node ==> Queued(queue[1..] + added, v)
  {
    var next := queue[1..] + added;
    if j :| 0 <= j < |added| && added[j].node == v {
      assert next[|queue| - 1 + j].node == v;
    }
    if j :| 0 < j < |queue| && queue[j].node == v {
      assert next[j - 1].node == v;
    }
  }

  lemma VisitedStaysClosed(edges: seq<Edge>, visited: set<NodeId>, queue: seq<Item>,
                           added: seq<Item>, visited': set<NodeId>)
    requires VisitedIsClosed(edges, visited, queue) && queue != []
    requires Expansion(edges, queue[0], visited, added, visited')
    requires forall w :: HasEdge(edges, queue[0].node, w) ==> w in visited'
    ensures VisitedIsClosed(edges, visited', queue[1..] + added)
  {
    var next := queue[1..] + added;
    forall v, w | v in visited' && !Queued(next, v) && HasEdge(edges, v, w) ensures w in visited' {
      QueuedAfterPop(queue, added, v);
    }
  }

  lemma VisitedReachesFurther(edges: seq<Edge>, source: NodeId, visited: set<NodeId>, queue: seq<Item>, length: nat)
    requires source in visited && queue != []
    requires QueueIsShortest(edges, source, queue) && VisitedIsClosed(edges, visited, queue)
    requires VisitedUpTo(edges, source, visited, length) && |queue[0].path| > length > 0
    ensures VisitedUpTo(edges, source, visited, length + 1)
  {
    forall p, v | Connects(edges, p, source, v) && |p| <= length + 1 ensures v in visited {
      if |p| == length + 1 {
        PathShrinks(edges, p, source, v);
        var y := p[|p| - 2];
        assert y in visited;
        assert !Queued(queue, y);
      }
    }
  }

  /** Expanding the front of the queue keeps the frontier. */
  lemma FrontierAdvances(edges: seq<Edge>, source: NodeId, visited: set<NodeId>, queue: seq<Item>,
                         added: seq<Item>, visited': set<NodeId>)
    requires Frontier(edges, source, visited, queue) && queue != []
    requires Expansion(edges, queue[0], visited, added, visited')
    requires forall w :: HasEdge(edges, queue[0].node, w) ==> w in visited'
    ensures Frontier(edges, source, visited', queue[1..] + added)
  {
    var next, length := queue[1..] + added, |queue[0].path|;
    QueueStaysShortest(edges, source, visited, queue, added, visited');
    VisitedStaysClosed(edges, visited, queue, added, visited');
    assert VisitedUpTo(edges, source, visited', length);
    if next != [] && |next[0].path| > length {
      VisitedReachesFurther(edges, source, visited', next, length);
      assert |next[0].path| == length + 1 by {
        if |queue| > 1 {
          assert next[0] == queue[1];
        } else {
          AddedIsShortest(edges, source, visited, queue, added, visited', 0);
        }
      }
    } else if next != [] {
      assert VisitedUpTo(edges, source, visited', |next[0].path|);
    }
  }

  /** The front's unseen successor: its path is a shortest one. */
  lemma FoundIsShortest(edges: seq<Edge>, source: NodeId, visited: set<NodeId>, queue: seq<Item>, target: NodeId)
    requires Frontier(edges, source, visited, queue) && queue != []
    requires target !in visited && HasEdge(edges, queue[0].node, target)
    ensures Connects(edges, queue[0].path + [target], source, target)
    ensures forall p :: Connects(edges, p, source, target) ==> |queue[0].path + [target]| <= |p|
  {
    PathExtends(edges, queue[0].path, source, queue[0].node, target);
  }

  /** An exhausted queue: everything reachable was visited. */
  lemma ExhaustedIsUnreachable(edges: seq<Edge>, source: NodeId, visited: set<NodeId>, target: NodeId)
    requires Frontier(edges, source, visited, []) && target !in visited
    ensures !exists p :: Connects(edges, p, source, target)
  {
    forall v | v in visited ensures !Queued([], v) {
    }
    forall p | Connects(edges, p, source, target) ensures false {
      ClosedHoldsPaths(edges, visited, p, source, target);
    }
  }
}

/** The in-memory repository and the graph on top of it. */
module EntityGraph {
  import opened Common
  import opened Paths
  import opened Search

  datatype Node = Node(id: NodeId, entityId: string, entityType: string)

  datatype GraphError = NodeExists | MissingEndpoint | EdgeExists

  // ----- insertion-ordered dict of edges

  function EdgeIndex(edges: seq<Edge>, id: string): (at: nat)
    ensures at <= |edges|
    ensures at < |edges| ==> edges[at].id == id
    ensures forall i :: 0 <= i < at ==> edges[i].id != id
  {
    if edges == [] || edges[0].id == id then 0 else 1 + EdgeIndex(edges[1..], id)
  }

  /** An old id keeps its place, a new one goes to the end. */
  function Stored(edges: seq<Edge>, e: Edge): seq<Edge> {
    var at := EdgeIndex(edges, e.id);
    if at < |edges| then edges[at := e] else edges + [e]
  }

  function WithoutEdge(edges: seq<Edge>, id: string): seq<Edge> {
    var at := EdgeIndex(edges, id);
    if at < |edges| then edges[..at] + edges[at + 1..] else edges
  }

  predicate Touches(e: Edge, id: NodeId) {
    e.source == id || e.target == id
  }

  ghost function Targets(edges: seq<Edge>): set<NodeId> {
    set i | 0 <= i < |edges| :: edges[i].target
  }

  /** All edges that do not touch the node, in order. */
  function WithoutNode(edges: seq<Edge>, id: NodeId): seq<Edge> {
    if edges == [] then []
    else
      var last := edges[|edges| - 1];
      WithoutNode(edges[..|edges| - 1], id) + if Touches(last, id) then [] else [last]
  }

  ghost predicate IdsDiffer(edges: seq<Edge>) {
    forall i, j :: 0 <= i < j < |edges| ==> edges[i].id != edges[j].id
  }

  /** What every reachable graph satisfies: edges join existing nodes, and no ordered pair has two. */
  ghost predicate Consistent(nodes: map<NodeId, Node>, edges: seq<Edge>) {
    && IdsDiffer(edges)
    && (forall i :: 0 <= i < |edges| ==> edges[i].source in nodes && edges[i].target in nodes)
    && (forall i, j :: 0 <= i < j < |edges| ==>
        edges[i].source != edges[j].source || edges[i].target != edges[j].target)
  }

  /** The edges of the dict after `e` was assigned to its id: `e`, and every edge of another id. */
  ghost predicate HoldsInstead(before: seq<Edge>, e: Edge, after: seq<Edge>) {
    && (forall x :: x in after <==> x == e || (x in before && x.id != e.id))
    && (forall i :: 0 <= i < |before| && before[i].id == e.id ==> after == before[i := e])
    && ((forall i :: 0 <= i < |before| ==> before[i].id != e.id) ==> after == before + [e])
  }

  /** An edge is stored in the place of the one it replaces, or else last, and no other edge is lost. */
  lemma StoredHolds(edges: seq<Edge>, e: Edge)
    requires IdsDiffer(edges)
    ensures HoldsInstead(edges, e, Stored(edges, e))
  {
    var at, after := EdgeIndex(edges, e.id), Stored(edges, e);
    assert at < |after| && after[at] == e;
    forall x | x in edges && x.id != e.id ensures x in after {
      var i :| 0 <= i < |edges| && edges[i] == x;
      assert after[i] == x;
    }
  }

  /** Once stored, the edge joins its ends, and is the path between them. */
  lemma StoredConnects(edges: seq<Edge>, e: Edge)
    requires IdsDiffer(edges)
    ensures HasEdge(Stored(edges, e), e.source, e.target)
    ensures Connects(Stored(edges, e), [e.source, e.target], e.source, e.target)
  {
    var after := Stored(edges, e);
    StoredHolds(edges, e);
    assert e in after;
    var i :| 0 <= i < |after| && after[i] == e;
    assert after[i].source == e.source && after[i].target == e.target;
  }

  /** Removing an edge takes it out of its place and moves nothing else. */
  lemma WithoutEdgePlace(edges: seq<Edge>, id: string)
    requires IdsDiffer(edges)
    ensures forall i :: 0 <= i < |edges| && edges[i].id == id ==> WithoutEdge(edges, id) == edges[..i] + edges[i + 1..]
    ensures (forall i :: 0 <= i < |edges| ==> edges[i].id != id) ==> WithoutEdge(edges, id) == edges
  {
  }

  /** Even when the new edge's id replaces another edge. */
  lemma StoringKeepsConsistent(nodes: map<NodeId, Node>, edges: seq<Edge>, e: Edge)
    requires Consistent(nodes, edges)
    requires e.source in nodes && e.target in nodes && !HasEdge(edges, e.source, e.target)
    ensures Consistent(nodes, Stored(edges, e))
  {
    assert forall i :: 0 <= i < |edges| ==> edges[i].source != e.source || edges[i].target != e.target;
  }

  lemma RemovingEdgeKeepsConsistent(nodes: map<NodeId, Node>, edges: seq<Edge>, id: string)
    requires Consistent(nodes, edges)
    ensures Consistent(nodes, WithoutEdge(edges, id))
    ensures forall e :: e in WithoutEdge(edges, id) <==> e in edges && e.id != id
  {
    var at, left := EdgeIndex(edges, id), WithoutEdge(edges, id);
    if at < |edges| {
      assert forall i :: 0 <= i < |left| ==> left[i] == edges[if i < at then i else i + 1];
    }
    WithoutEdgeMembers(edges, id);
  }

  lemma WithoutEdgeMembers(edges: seq<Edge>, id: string)
    requires IdsDiffer(edges)
    ensures forall e :: e in WithoutEdge(edges, id) <==> e in edges && e.id != id
  {
    var at, left := EdgeIndex(edges, id), WithoutEdge(edges, id);
    if at < |edges| {
      forall e | e in edges && e.id != id ensures e in left {
        var i :| 0 <= i < |edges| && edges[i] == e;
        assert left[if i < at then i else i - 1] == e;
      }
    }
  }

  /** The surviving edges are a subsequence of all edges. */
  lemma {:induction false} WithoutNodeOrder(edges: seq<Edge>, id: NodeId) returns (from: seq<nat>)
    ensures |from| == |WithoutNode(edges, id)| && StrictlyIncreasing(from)
    ensures forall i :: 0 <= i < |from| ==> from[i] < |edges| && WithoutNode(edges, id)[i] == edges[from[i]]
  {
    from := [];
    if edges != [] {
      var n := |edges| - 1;
      from := WithoutNodeOrder(edges[..n], id);
      SurvivorsOfPrefix(edges, n, WithoutNode(edges[..n], id), from);
      if !Touches(edges[n], id) {
        from := from + [n];
      }
    }
  }

  lemma SurvivorsOfPrefix(edges: seq<Edge>, n: nat, left: seq<Edge>, from: seq<nat>)
    requires n < |edges| && |from| == |left| && StrictlyIncreasing(from)
    requires forall i :: 0 <= i < |from| ==> from[i] < n && left[i] == edges[..n][from[i]]
    ensures StrictlyIncreasing(from + [n])
    ensures forall i :: 0 <= i < |from| ==> from[i] < |edges| && left[i] == edges[from[i]]
  {
  }

  lemma {:induction false} WithoutNodeMembers(edges: seq<Edge>, id: NodeId)
    ensures forall e :: e in WithoutNode(edges, id) <==> e in edges && !Touches(e, id)
  {
    if edges != [] {
      var init, last := edges[..|edges| - 1], edges[|edges| - 1];
      WithoutNodeMembers(init, id);
      assert forall e :: e in edges <==> e in init || e == last;
    }
  }

  lemma RemovingNodeKeepsConsistent(nodes: map<NodeId, Node>, edges: seq<Edge>, id: NodeId)
    requires Consistent(nodes, edges)
    ensures Consistent(nodes - {id}, WithoutNode(edges, id))
    ensures forall e :: e in WithoutNode(edges, id) <==> e in edges && !Touches(e, id)
  {
    var left := WithoutNode(edges, id);
    var from := WithoutNodeOrder(edges, id);
    WithoutNodeMembers(edges, id);
    assert forall i :: 0 <= i < |left| ==> left[i] in left;
  }

  class MemoryGraphRepository {
    var nodes: map<NodeId, Node>
    var edges: seq<Edge>

    constructor ()
      ensures nodes == map[] && edges == []
    {
      nodes, edges := map[], [];
    }

    method SaveNode(node: Node)
      modifies this`nodes
      ensures nodes == old(nodes)[node.id := node]
    {
      nodes := nodes[node.id := node];
    }

    method SaveEdge(edge: Edge)
      modifies this`edges
      ensures edges == Stored(old(edges), edge)
      ensures IdsDiffer(old(edges)) ==> HoldsInstead(old(edges), edge, edges)
    {
      if IdsDiffer(edges) {
        StoredHolds(edges, edge);
      }
      var at := EdgeIndex(edges, edge.id);
      edges := if at < |edges| then edges[at := edge] else edges + [edge];
    }

    method DeleteNode(id: NodeId) returns (found: bool)
      modifies this`nodes
      ensures found == (id in old(nodes)) && nodes == old(nodes) - {id}
    {
      found := id in nodes;
      if found {
        nodes := nodes - {id};
      }
    }

    method DeleteEdge(id: string) returns (found: bool)
      modifies this`edges
      ensures found == (EdgeIndex(old(edges), id) < |old(edges)|) && edges == WithoutEdge(old(edges), id)
    {
      var at := EdgeIndex(edges, id);
      found := at < |edges|;
      if found {
        edges := edges[..at] + edges[at + 1..];
      }
    }
  }

  class EntityGraph {
    const repo: MemoryGraphRepository

    ghost predicate Valid()
      reads repo
    {
      Consistent(repo.nodes, repo.edges)
    }

    constructor ()
      ensures Valid() && fresh(repo) && repo.nodes == map[] && repo.edges == []
    {
      repo := new MemoryGraphRepository();
    }

    method CreateNode(node: Node) returns (result: Result<(), GraphError>)
      requires Valid()
      modifies repo
      ensures Valid() && repo.edges == old(repo.edges)
      ensures result == if node.id in old(repo.nodes) then Err(NodeExists) else Ok(())
      ensures repo.nodes == if result.Ok? then old(repo.nodes)[node.id := node] else old(repo.nodes)
    {
      if node.id in repo.nodes {
        return Err(NodeExists);
      }
      repo.SaveNode(node);
      return Ok(());
    }

    method RemoveNode(id: NodeId) returns (found: bool)
      requires Valid()
      modifies repo
      ensures Valid()
      ensures found == (id in old(repo.nodes))
      ensures repo.nodes == old(repo.nodes) - {id}
      ensures repo.edges == WithoutNode(old(repo.edges), id)
      ensures forall e :: e in repo.edges <==> e in old(repo.edges) && e.source != id && e.target != id
    {
      RemovingNodeKeepsConsistent(repo.nodes, repo.edges, id);
      if id !in repo.nodes {
        NothingTouches(repo.nodes, repo.edges, id);
        return false;
      }
      RemoveConnectedEdges(id);
      found := repo.DeleteNode(id);
    }

    method RemoveConnectedEdges(id: NodeId)
      requires Valid()
      modifies repo`edges
      ensures repo.edges == WithoutNode(old(repo.edges), id)
    {
      var edges := repo.edges;
      for i := 0 to |edges|
        invariant repo.edges == WithoutNode(edges[..i], id) + edges[i..]
      {
        DetachStep(edges, id, i);
        if Touches(edges[i], id) {
          var deleted := repo.DeleteEdge(edges[i].id);
        }
      }
      assert edges[..|edges|] == edges;
    }

    method CreateEdge(edge: Edge) returns (result: Result<(), GraphError>)
      requires Valid()
      modifies repo
      ensures Valid() && repo.nodes == old(repo.nodes)
      ensures result == if edge.source !in repo.nodes || edge.target !in repo.nodes then Err(MissingEndpoint)
                        else if HasEdge(old(repo.edges), edge.source, edge.target) then Err(EdgeExists)
                        else Ok(())
      ensures result.Ok? ==> HoldsInstead(old(repo.edges), edge, repo.edges)
      ensures result.Ok? ==> HasEdge(repo.edges, edge.source, edge.target)
      ensures result.Err? ==> repo.edges == old(repo.edges)
    {
      if edge.source !in repo.nodes || edge.target !in repo.nodes {
        return Err(MissingEndpoint);
      }
      for i := 0 to |repo.edges|
        invariant forall k :: 0 <= k < i ==> repo.edges[k].source != edge.source || repo.edges[k].target != edge.target
      {
        if repo.edges[i].source == edge.source && repo.edges[i].target == edge.target {
          return Err(EdgeExists);
        }
      }
      StoringKeepsConsistent(repo.nodes, repo.edges, edge);
      StoredConnects(repo.edges, edge);
      repo.SaveEdge(edge);
      return Ok(());
    }

    method RemoveEdge(id: string) returns (found: bool)
      requires Valid()
      modifies repo
      ensures Valid() && repo.nodes == old(repo.nodes)
      ensures found <==> exists e :: e in old(repo.edges) && e.id == id
      ensures repo.edges == WithoutEdge(old(repo.edges), id)
      ensures forall e :: e in repo.edges <==> e in old(repo.edges) && e.id != id
    {
      RemovingEdgeKeepsConsistent(repo.nodes, repo.edges, id);
      found := repo.DeleteEdge(id);
    }

    /** A path of least length, or None exactly when no path exists; cycles do not matter. */
    method ShortestPath(source: NodeId, target: NodeId) returns (path: Option<seq<NodeId>>)
      ensures path.Some? <==> exists p :: Connects(repo.edges, p, source, target)
      ensures path.Some? ==> Connects(repo.edges, path.value, source, target)
      ensures path.Some? ==> forall p :: Connects(repo.edges, p, source, target) ==> |path.value| <= |p|
    {
      if source == target {
        TrivialPath(repo.edges, source);
        return Some([source]);
      }
      path := Search(source, target);
    }

    /** The search loop for two different nodes. */
    method Search(source: NodeId, target: NodeId) returns (path: Option<seq<NodeId>>)
      requires source != target
      ensures path.Some? <==> exists p :: Connects(repo.edges, p, source, target)
      ensures path.Some? ==> Connects(repo.edges, path.value, source, target)
      ensures path.Some? ==> forall p :: Connects(repo.edges, p, source, target) ==> |path.value| <= |p|
    {
      var visited := {source};
      var queue := [Item(source, [source])];
      FrontierStarts(repo.edges, source);
      ghost var all := {source} + Targets(repo.edges);
      while queue != []
        invariant Frontier(repo.edges, source, visited, queue)
        invariant source in visited && target !in visited && visited <= all
        decreases all - visited, |queue|
      {
        path, visited, queue := Advance(source, target, visited, queue, all);
        if path.Some? {
          return;
        }
      }
      ExhaustedIsUnreachable(repo.edges, source, visited, target);
      return None;
    }

    /** One turn of the loop: the target next to the queue's front, or the front replaced by its unseen successors. */
    method Advance(ghost source: NodeId, target: NodeId, seen: set<NodeId>, items: seq<Item>, ghost all: set<NodeId>)
      returns (path: Option<seq<NodeId>>, visited: set<NodeId>, queue: seq<Item>)
      requires Frontier(repo.edges, source, seen, items) && items != [] && target !in seen
      requires seen <= all && Targets(repo.edges) <= all
      ensures path.Some? ==> Connects(repo.edges, path.value, source, target)
      ensures path.Some? ==> forall p :: Connects(repo.edges, p, source, target) ==> |path.value| <= |p|
      ensures path.None? ==> Frontier(repo.edges, source, visited, queue) && target !in visited
      ensures seen <= visited <= all && (visited == seen ==> |queue| < |items|)
    {
      var front := items[0];
      var found, added;
      found, visited, added := Expand(front, target, seen, all);
      queue := items[1..] + added;
      path := if found then Some(front.path + [target]) else None;
      if found {
        FoundIsShortest(repo.edges, source, seen, items, target);
      } else {
        FrontierAdvances(repo.edges, source, seen, items, added, visited);
      }
    }

    /**
     * The nodes at distance at most `depth`, each with all its successors in edge order when
     * the distance is below `depth`, and with none at distance `depth`.
     */
    method Subgraph(root: NodeId, depth: int) returns (result: map<NodeId, seq<NodeId>>)
      ensures forall x :: x in result <==> Within(repo.edges, root, x, if depth < 0 then 0 else depth)
      ensures forall x :: x in result ==>
                result[x] == if Within(repo.edges, root, x, depth - 1) then Successors(repo.edges, x) else []
    {
      result := map[root := []];
      var currentLevel := {root};
      var d := 0;
      forall x ensures Within(repo.edges, root, x, 0) <==> x == root {
        WithinZero(repo.edges, root, x);
      }
      forall x, n | n < 0 ensures !Within(repo.edges, root, x, n) {
        NoNegativeDistance(repo.edges, root, x, n);
      }
      while d < depth
        invariant depth >= 0 ==> d <= depth
        invariant d >= 0 && (depth < 0 ==> d == 0)
        invariant Levelled(repo.edges, root, d, result, currentLevel)
      {
        var nextLevel;
        result, nextLevel := ExpandLevel(root, d, result, currentLevel);
        currentLevel := nextLevel;
        d := d + 1;
      }
    }

    /** One round of `subgraph`: every node of the level gets its successors; the unseen ones form the next level. */
    method ExpandLevel(root: NodeId, d: nat, before: map<NodeId, seq<NodeId>>, currentLevel: set<NodeId>)
      returns (result: map<NodeId, seq<NodeId>>, nextLevel: set<NodeId>)
      requires Levelled(repo.edges, root, d, before, currentLevel)
      ensures Levelled(repo.edges, root, d + 1, result, nextLevel)
    {
      result, nextLevel := before, {};
      var todo := currentLevel;
      while todo != {}
        invariant todo <= currentLevel && result.Keys == before.Keys
        invariant forall x :: x in before ==>
                    result[x] == if x in currentLevel && x !in todo then Successors(repo.edges, x) else before[x]
        invariant forall x :: x in nextLevel <==>
                    x !in before && exists y :: y in currentLevel && y !in todo && HasEdge(repo.edges, y, x)
        decreases todo
      {
        var node :| node in todo;
        var neighbors, unseen := Neighbors(node, result.Keys);
        result := result[node := neighbors];
        nextLevel := nextLevel + unseen;
        todo := todo - {node};
      }
      LevelAdvances(repo.edges, root, d, before, currentLevel, result, nextLevel);
      result := result + map x | x in nextLevel :: [];
    }

    method Neighbors(node: NodeId, known: set<NodeId>) returns (neighbors: seq<NodeId>, unseen: set<NodeId>)
      ensures neighbors == Successors(repo.edges, node)
      ensures forall x :: x in unseen <==> x !in known && HasEdge(repo.edges, node, x)
    {
      neighbors, unseen := [], {};
      for i := 0 to |repo.edges|
        invariant neighbors == Successors(repo.edges[..i], node)
        invariant forall x :: x in unseen <==> x !in known && x in neighbors
      {
        assert repo.edges[..i + 1][..i] == repo.edges[..i];
        if repo.edges[i].source == node {
          var neighbor := repo.edges[i].target;
          neighbors := neighbors + [neighbor];
          if neighbor !in known {
            unseen := unseen + {neighbor};
          }
        }
      }
      assert repo.edges[..|repo.edges|] == repo.edges;
      forall x ensures x in neighbors <==> HasEdge(repo.edges, node, x) {
        SuccessorsAreEdges(repo.edges, node, x);
      }
    }

    /** The inner loop of `shortest_path`: the unseen successors of the front, or the target among them. */
    method Expand(front: Item, target: NodeId, seen: set<NodeId>, ghost all: set<NodeId>)
      returns (found: bool, visited: set<NodeId>, added: seq<Item>)
      requires target !in seen && seen <= all && Targets(repo.edges) <= all
      ensures found ==> HasEdge(repo.edges, front.node, target)
      ensures !found ==> target !in visited
      ensures Expansion(repo.edges, front, seen, added, visited)
      ensures visited == seen ==> added == []
      ensures !found ==> forall w :: HasEdge(repo.edges, front.node, w) ==> w in visited
      ensures visited <= all
    {
      visited, added := seen, [];
      for i := 0 to |repo.edges|
        invariant target !in visited
        invariant Expansion(repo.edges, front, seen, added, visited)
        invariant added != [] ==> seen < visited
        invariant forall k :: 0 <= k < i && repo.edges[k].source == front.node ==> repo.edges[k].target in visited
        invariant visited <= all
      {
        if repo.edges[i].source == front.node {
          var neighbor := repo.edges[i].target;
          assert neighbor in Targets(repo.edges);
          if neighbor !in visited {
            if neighbor == target {
              return true, visited, added;
            }
            visited := visited + {neighbor};
            QueuedGrows(added, Item(neighbor, front.path + [neighbor]));
            added := added + [Item(neighbor, front.path + [neighbor])];
          }
        }
      }
      found := false;
    }
  }

  /** After d rounds of `subgraph`: all nodes up to distance d, and the level at exactly d. */
  ghost predicate Levelled(edges: seq<Edge>, root: NodeId, d: nat, result: map<NodeId, seq<NodeId>>, level: set<NodeId>)
  {
    && (forall x :: x in result <==> Within(edges, root, x, d))
    && (forall x :: x in level <==> Within(edges, root, x, d) && !Within(edges, root, x, d - 1))
    && (forall x :: x in result ==> result[x] == if Within(edges, root, x, d - 1) then Successors(edges, x) else [])
  }

  lemma LevelAdvances(edges: seq<Edge>, root: NodeId, d: nat, before: map<NodeId, seq<NodeId>>, level: set<NodeId>,
                      result: map<NodeId, seq<NodeId>>, nextLevel: set<NodeId>)
    requires Levelled(edges, root, d, before, level) && result.Keys == before.Keys
    requires forall x :: x in before ==> result[x] == if x in level then Successors(edges, x) else before[x]
    requires forall x :: x in nextLevel <==> x !in before && exists y :: y in level && HasEdge(edges, y, x)
    ensures Levelled(edges, root, d + 1, result + map x | x in nextLevel :: [], nextLevel)
  {
    forall x ensures x in nextLevel <==> Within(edges, root, x, d + 1) && !Within(edges, root, x, d) {
      WithinStep(edges, root, x, d);
      if y :| Within(edges, root, y, d) && HasEdge(edges, y, x) {
        if Within(edges, root, y, d - 1) && d > 0 {
          WithinStep(edges, root, x, d - 1);
        } else {
          WithinZero(edges, root, y);
          assert y in level;
        }
      }
    }
    forall x ensures Within(edges, root, x, d) ==> Within(edges, root, x, d + 1) {
      WithinStep(edges, root, x, d);
    }
  }

  lemma NothingTouches(nodes: map<NodeId, Node>, edges: seq<Edge>, id: NodeId)
    requires Consistent(nodes, edges) && id !in nodes
    ensures WithoutNode(edges, id) == edges && nodes - {id} == nodes
  {
    UnknownTouchesNothing(nodes, edges, id);
    KeepsAll(edges, id);
  }

  lemma UnknownTouchesNothing(nodes: map<NodeId, Node>, edges: seq<Edge>, id: NodeId)
    requires Consistent(nodes, edges) && id !in nodes
    ensures forall i :: 0 <= i < |edges| ==> !Touches(edges[i], id)
  {
  }

  lemma {:induction false} KeepsAll(edges: seq<Edge>, id: NodeId)
    requires forall i :: 0 <= i < |edges| ==> !Touches(edges[i], id)
    ensures WithoutNode(edges, id) == edges
  {
    if edges != [] {
      var init, last := edges[..|edges| - 1], edges[|edges| - 1];
      KeepsAll(init, id);
      assert edges == init + [last];
    }
  }

  /** While a node is being removed, deleting by id takes out exactly the edge at hand. */
  lemma DetachStep(edges: seq<Edge>, id: NodeId, i: nat)
    requires i < |edges| && forall j, k :: 0 <= j < k < |edges| ==> edges[j].id != edges[k].id
    ensures var current := WithoutNode(edges[..i], id) + edges[i..];
            WithoutNode(edges[..i + 1], id) + edges[i + 1..]
            == if Touches(edges[i], id) then WithoutEdge(current, edges[i].id) else current
  {
    var kept, rest := WithoutNode(edges[..i], id), edges[i..];
    WithoutNodeGrows(edges, id, i);
    assert rest[0] == edges[i] && rest[1..] == edges[i + 1..];
    if Touches(edges[i], id) {
      KeptIdsDiffer(edges, id, i);
      DeleteAt(kept, rest);
    } else {
      assert kept + [rest[0]] + rest[1..] == kept + rest;
    }
  }

  lemma WithoutNodeGrows(edges: seq<Edge>, id: NodeId, i: nat)
    requires i < |edges|
    ensures WithoutNode(edges[..i + 1], id)
            == WithoutNode(edges[..i], id) + if Touches(edges[i], id) then [] else [edges[i]]
  {
    assert edges[..i + 1][..i] == edges[..i];
  }

  lemma KeptIdsDiffer(edges: seq<Edge>, id: NodeId, i: nat)
    requires i < |edges| && forall j, k :: 0 <= j < k < |edges| ==> edges[j].id != edges[k].id
    ensures forall k :: 0 <= k < |WithoutNode(edges[..i], id)| ==> WithoutNode(edges[..i], id)[k].id != edges[i].id
  {
    var from := WithoutNodeOrder(edges[..i], id);
    assert forall k :: 0 <= k < |from| ==> edges[..i][from[k]] == edges[from[k]];
  }

  lemma DeleteAt(kept: seq<Edge>, rest: seq<Edge>)
    requires rest != [] && forall k :: 0 <= k < |kept| ==> kept[k].id != rest[0].id
    ensures WithoutEdge(kept + rest, rest[0].id) == kept + rest[1..]
  {
    assert (kept + rest)[|kept|] == rest[0];
    assert forall k :: 0 <= k < |kept| ==> (kept + rest)[k] == kept[k];
    assert EdgeIndex(kept + rest, rest[0].id) == |kept|;
  }
}
