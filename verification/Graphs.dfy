/** The dependency graph of a server: ordering, cycle detection and validation. */
module Graphs {
  import opened Sequences
  import opened Walks

  datatype DependencyNode = DependencyNode(id: string, name: string, kind: string, workloadType: string, port: int)

  /** What a lookup of an unknown id in the node map yields. */
  const ZERO_NODE := DependencyNode("", "", "", "", 0)

  datatype SortError = DependencyCycleDetected

  datatype ValidationError =
    | MissingTarget(nodeId: string, target: string)
    | MissingSource(nodeId: string, source: string)
    | SelfDependency(nodeId: string)
    | CycleDetected(nodeId: string, cycle: seq<string>)

  function Ids(nodes: seq<DependencyNode>): (ids: seq<string>)
    ensures |ids| == |nodes|
    ensures forall i :: 0 <= i < |nodes| ==> ids[i] == nodes[i].id
  {
    seq(|nodes|, i requires 0 <= i < |nodes| => nodes[i].id)
  }

  ghost predicate EndpointsKnown(nodes: seq<DependencyNode>, edges: seq<DependencyEdge>) {
    forall e :: e in edges ==> e.from in Ids(nodes) && e.to in Ids(nodes)
  }

  /** Every edge's target stands before its source. */
  ghost predicate DependenciesFirst(edges: seq<DependencyEdge>, ids: seq<string>) {
    forall e :: e in edges ==> exists i, j :: 0 <= i < j < |ids| && ids[i] == e.to && ids[j] == e.from
  }

  // ----- what the two adjacency maps hold -----

  /** The sources of the edges into `id`, one entry for each parallel edge. */
  ghost function Dependents(edges: seq<DependencyEdge>, id: string): seq<string> {
    if edges == [] then []
    else
      var last := edges[|edges| - 1];
      Dependents(edges[..|edges| - 1], id) + if last.to == id then [last.from] else []
  }

  /** The targets of the edges out of `id`, one entry for each parallel edge. */
  ghost function Targets(edges: seq<DependencyEdge>, id: string): seq<string> {
    if edges == [] then []
    else
      var last := edges[|edges| - 1];
      Targets(edges[..|edges| - 1], id) + if last.from == id then [last.to] else []
  }

  /** The number of edges out of `id` whose target is not in `done`. */
  ghost function Pending(edges: seq<DependencyEdge>, done: set<string>, id: string): nat {
    if edges == [] then 0
    else
      var last := edges[|edges| - 1];
      Pending(edges[..|edges| - 1], done, id) + if last.from == id && last.to !in done then 1 else 0
  }

  ghost function At(adj: map<string, seq<string>>, id: string): seq<string> {
    if id in adj then adj[id] else []
  }

  ghost function Sources(edges: seq<DependencyEdge>): set<string> {
    if edges == [] then {} else Sources(edges[..|edges| - 1]) + {edges[|edges| - 1].from}
  }

  lemma {:induction false} SourcesAreSources(edges: seq<DependencyEdge>)
    ensures forall e :: e in edges ==> e.from in Sources(edges)
    ensures forall id :: id in Sources(edges) ==> exists e :: e in edges && e.from == id
  {
    if edges == [] {
    } else {
      var front := edges[..|edges| - 1];
      assert edges == front + [edges[|edges| - 1]];
      SourcesAreSources(front);
    }
  }

  lemma {:induction false} TargetsAreArcs(edges: seq<DependencyEdge>, id: string)
    ensures forall x :: x in Targets(edges, id) <==> HasArc(edges, id, x)
  {
    if edges == [] {
    } else {
      var front := edges[..|edges| - 1];
      assert edges == front + [edges[|edges| - 1]];
      TargetsAreArcs(front, id);
      assert forall x :: HasArc(front, id, x) ==> HasArc(edges, id, x);
    }
  }

  /** Finishing `node` releases exactly one count per edge into it. */
  lemma {:induction false} PendingAfter(edges: seq<DependencyEdge>, done: set<string>, node: string, id: string)
    requires node !in done
    ensures Pending(edges, done, id) == Pending(edges, done + {node}, id) + multiset(Dependents(edges, node))[id]
  {
    if edges == [] {
    } else {
      PendingAfter(edges[..|edges| - 1], done, node, id);
    }
  }

  lemma {:induction false} PendingZero(edges: seq<DependencyEdge>, done: set<string>, id: string)
    ensures Pending(edges, done, id) == 0 <==> forall e :: e in edges && e.from == id ==> e.to in done
  {
    if edges == [] {
    } else {
      var front := edges[..|edges| - 1];
      assert edges == front + [edges[|edges| - 1]];
      PendingZero(front, done, id);
    }
  }

  lemma {:induction false} DependentsAreSources(edges: seq<DependencyEdge>, id: string)
    ensures Elements(Dependents(edges, id)) <= Sources(edges)
  {
    if edges == [] {
    } else {
      var front := edges[..|edges| - 1];
      assert edges == front + [edges[|edges| - 1]];
      DependentsAreSources(front, id);
    }
  }

  // ----- Kahn's algorithm -----

  /** Between two rounds of the loop: counts, the ready queue and the order built so far. */
  ghost predicate KahnInvariant(edges: seq<DependencyEdge>, inDegree: map<string, int>, queue: seq<string>,
                                sorted: seq<string>) {
    && (forall id :: id in inDegree ==> inDegree[id] == Pending(edges, Elements(sorted), id))
    && (forall id :: id in sorted || id in queue <==> id in inDegree && inDegree[id] == 0)
    && (forall id :: id in queue ==> id !in sorted)
    && Distinct(sorted) && Distinct(queue)
    && Settled(edges, sorted)
  }

  /** The effect of one decrement per entry of `dependents`, zero counts joining the queue. */
  ghost predicate Released(dependents: seq<string>, before: map<string, int>, waiting: seq<string>,
                           inDegree: map<string, int>, queue: seq<string>) {
    && inDegree.Keys == before.Keys
    && (forall id :: id in before ==> inDegree[id] == before[id] - multiset(dependents)[id])
    && waiting <= queue && Distinct(queue)
    && (forall id :: id in queue <==> id in waiting || (id in dependents && id in inDegree && inDegree[id] == 0))
  }

  ghost predicate Counted(nodes: seq<DependencyNode>, edges: seq<DependencyEdge>,
                          adj: map<string, seq<string>>, inDegree: map<string, int>) {
    && (forall id :: At(adj, id) == Dependents(edges, id))
    && inDegree.Keys == Elements(Ids(nodes)) + Sources(edges)
    && (forall id :: id in inDegree ==> inDegree[id] == Pending(edges, {}, id))
  }

  lemma CountedAtFirst(nodes: seq<DependencyNode>, inDegree: map<string, int>)
    requires inDegree.Keys == Elements(Ids(nodes))
    requires forall id :: id in inDegree ==> inDegree[id] == 0
    ensures Counted(nodes, [], map[], inDegree)
  {
    assert Sources([]) == {};
  }

  lemma OneMoreEdge(edges: seq<DependencyEdge>, edge: DependencyEdge)
    ensures forall id ::
              Dependents(edges + [edge], id)
              == Dependents(edges, id) + if edge.to == id then [edge.from] else []
    ensures forall id :: Pending(edges + [edge], {}, id) == Pending(edges, {}, id) + if edge.from == id then 1 else 0
    ensures Sources(edges + [edge]) == Sources(edges) + {edge.from}
  {
    var longer := edges + [edge];
    assert longer[..|longer| - 1] == edges && longer[|longer| - 1] == edge;
  }

  lemma CountedNext(nodes: seq<DependencyNode>, edges: seq<DependencyEdge>, edge: DependencyEdge,
                    adj: map<string, seq<string>>, inDegree: map<string, int>)
    requires Counted(nodes, edges, adj, inDegree)
    ensures Counted(nodes, edges + [edge],
                    adj[edge.to := At(adj, edge.to) + [edge.from]],
                    inDegree[edge.from := (if edge.from in inDegree then inDegree[edge.from] else 0) + 1])
  {
    hide Dependents, Pending, Sources;
    OneMoreEdge(edges, edge);
    if edge.from !in inDegree {
      SourcesAreSources(edges);
      PendingZero(edges, {}, edge.from);
    }
  }

  method ZeroDegrees(nodes: seq<DependencyNode>) returns (inDegree: map<string, int>)
    ensures inDegree.Keys == Elements(Ids(nodes))
    ensures forall id :: id in inDegree ==> inDegree[id] == 0
  {
    inDegree := map[];
    for i := 0 to |nodes|
      invariant inDegree.Keys == Elements(Ids(nodes)[..i])
      invariant forall id :: id in inDegree ==> inDegree[id] == 0
    {
      inDegree := inDegree[nodes[i].id := 0];
      assert Ids(nodes)[..i + 1] == Ids(nodes)[..i] + [nodes[i].id];
    }
    assert Ids(nodes)[..|nodes|] == Ids(nodes);
  }

  method CountEdges(nodes: seq<DependencyNode>, edges: seq<DependencyEdge>)
      returns (adj: map<string, seq<string>>, inDegree: map<string, int>)
    ensures Counted(nodes, edges, adj, inDegree)
  {
    hide Counted;
    adj := map[];
    inDegree := ZeroDegrees(nodes);
    CountedAtFirst(nodes, inDegree);
    assert edges[..0] == [];
    for i := 0 to |edges|
      invariant Counted(nodes, edges[..i], adj, inDegree)
    {
      var edge := edges[i];
      CountedNext(nodes, edges[..i], edge, adj, inDegree);
      assert edges[..i + 1] == edges[..i] + [edge];
      var sources := if edge.to in adj then adj[edge.to] else [];
      adj := adj[edge.to := sources + [edge.from]];
      var count := if edge.from in inDegree then inDegree[edge.from] else 0;
      inDegree := inDegree[edge.from := count + 1];
    }
    assert edges[..|edges|] == edges;
  }

  /** The ids with nothing to wait for, in whatever order the map is walked. */
  method Ready(inDegree: map<string, int>) returns (queue: seq<string>)
    ensures Distinct(queue)
    ensures forall id :: id in queue <==> id in inDegree && inDegree[id] == 0
  {
    queue := [];
    var rest := inDegree.Keys;
    while rest != {}
      invariant rest <= inDegree.Keys
      invariant Distinct(queue)
      invariant forall id :: id in queue <==> id in inDegree.Keys - rest && inDegree[id] == 0
    {
      var id :| id in rest;
      if inDegree[id] == 0 {
        queue := queue + [id];
      }
      rest := rest - {id};
    }
  }

  lemma ReleaseOne(dependents: seq<string>, dependent: string, before: map<string, int>, waiting: seq<string>,
                   inDegree: map<string, int>, queue: seq<string>)
    requires Released(dependents, before, waiting, inDegree, queue)
    requires dependent in before && multiset(dependents)[dependent] < before[dependent]
    requires forall id :: id in waiting && id in before ==> before[id] == 0
    ensures var count := inDegree[dependent] - 1;
            Released(dependents + [dependent], before, waiting, inDegree[dependent := count],
                     if count == 0 then queue + [dependent] else queue)
  {
    assert inDegree[dependent] > 0;
    assert dependent !in queue;
    assert forall id ::
             multiset(dependents + [dependent])[id]
             == multiset(dependents)[id] + if id == dependent then 1 else 0;
  }

  lemma ReleaseNone(before: map<string, int>, waiting: seq<string>)
    requires Distinct(waiting)
    ensures Released([], before, waiting, before, waiting)
  {
  }

  lemma PrefixCount(ids: seq<string>, k: nat)
    requires k < |ids|
    ensures multiset(ids[..k])[ids[k]] < multiset(ids)[ids[k]]
  {
    assert ids == (ids[..k] + [ids[k]]) + ids[k + 1..];
  }

  /** One decrement per entry; an id joins the queue when its count reaches zero. */
  method Release(dependents: seq<string>, before: map<string, int>, waiting: seq<string>)
      returns (inDegree: map<string, int>, queue: seq<string>)
    requires Elements(dependents) <= before.Keys
    requires forall id :: id in before ==> multiset(dependents)[id] <= before[id]
    requires Distinct(waiting) && forall id :: id in waiting && id in before ==> before[id] == 0
    ensures Released(dependents, before, waiting, inDegree, queue) && inDegree.Keys == before.Keys
  {
    hide Released;
    inDegree, queue := before, waiting;
    ReleaseNone(before, waiting);
    assert dependents[..0] == [];
    for k := 0 to |dependents|
      invariant Released(dependents[..k], before, waiting, inDegree, queue) && inDegree.Keys == before.Keys
    {
      var dependent := dependents[k];
      assert dependent in Elements(dependents);
      PrefixCount(dependents, k);
      ReleaseOne(dependents[..k], dependent, before, waiting, inDegree, queue);
      assert dependents[..k + 1] == dependents[..k] + [dependent];
      inDegree := inDegree[dependent := inDegree[dependent] - 1];
      if inDegree[dependent] == 0 {
        queue := queue + [dependent];
      }
    }
    assert dependents[..|dependents|] == dependents;
  }

  /** The counts after a round, and which ids they make ready. */
  lemma KahnCounts(edges: seq<DependencyEdge>, before: map<string, int>, node: string, sorted: seq<string>,
                   inDegree: map<string, int>)
    requires forall id :: id in before ==> before[id] == Pending(edges, Elements(sorted), id)
    requires node !in sorted
    requires inDegree.Keys == before.Keys
    requires forall id :: id in before ==> inDegree[id] == before[id] - multiset(Dependents(edges, node))[id]
    ensures forall id :: id in inDegree ==> inDegree[id] == Pending(edges, Elements(sorted + [node]), id)
    ensures forall id :: id in before ==>
            (inDegree[id] == 0 <==> before[id] == 0 || (id in Dependents(edges, node) && inDegree[id] == 0))
    ensures forall id :: id in before && before[id] == 0 ==> id !in Dependents(edges, node)
  {
    ElementsAppend(sorted, node);
    forall id | id in inDegree
      ensures inDegree[id] == Pending(edges, Elements(sorted + [node]), id)
    {
      PendingAfter(edges, Elements(sorted), node, id);
    }
  }

  /** The invariant survives taking `node` from the queue and releasing its dependents. */
  lemma KahnRound(edges: seq<DependencyEdge>, before: map<string, int>, node: string, waiting: seq<string>,
                  sorted: seq<string>, inDegree: map<string, int>, queue: seq<string>)
    requires KahnInvariant(edges, before, [node] + waiting, sorted)
    requires Sources(edges) <= before.Keys
    requires Released(Dependents(edges, node), before, waiting, inDegree, queue)
    ensures KahnInvariant(edges, inDegree, queue, sorted + [node])
  {
    var ready := [node] + waiting;
    assert ready[0] == node;
    assert forall i :: 0 <= i < |waiting| ==> ready[i + 1] == waiting[i];
    assert forall id :: id in ready <==> id == node || id in waiting;
    assert node !in waiting;
    KahnCounts(edges, before, node, sorted, inDegree);
    SettledAppend(edges, sorted, node) by {
      PendingZero(edges, Elements(sorted), node);
    }
    KahnMembers(edges, before, node, waiting, sorted, inDegree, queue);
  }

  lemma KahnMembers(edges: seq<DependencyEdge>, before: map<string, int>, node: string, waiting: seq<string>,
                    sorted: seq<string>, inDegree: map<string, int>, queue: seq<string>)
    requires forall id :: id in sorted || id == node || id in waiting <==> id in before && before[id] == 0
    requires forall id :: id in waiting ==> id !in sorted && id != node
    requires Sources(edges) <= before.Keys
    requires Released(Dependents(edges, node), before, waiting, inDegree, queue)
    requires forall id :: id in before ==>
             (inDegree[id] == 0 <==> before[id] == 0 || (id in Dependents(edges, node) && inDegree[id] == 0))
    requires forall id :: id in before && before[id] == 0 ==> id !in Dependents(edges, node)
    ensures forall id :: id in sorted + [node] || id in queue <==> id in inDegree && inDegree[id] == 0
    ensures forall id :: id in queue ==> id !in sorted + [node]
  {
    assert forall id :: id in sorted + [node] <==> id in sorted || id == node;
  }

  lemma SettledAppend(edges: seq<DependencyEdge>, order: seq<string>, node: string)
    requires Settled(edges, order)
    requires forall e :: e in edges && e.from == node ==> e.to in order
    ensures Settled(edges, order + [node])
  {
    var longer := order + [node];
    forall k, e | 0 <= k < |longer| && e in edges && e.from == longer[k]
      ensures e.to in longer[..k]
    {
      if k < |order| {
        assert longer[..k] == order[..k];
      } else {
        assert longer[..k] == order;
      }
    }
  }

  /** Nodes left over when the queue has run dry wait for each other. */
  lemma LeftoverIsCyclic(edges: seq<DependencyEdge>, inDegree: map<string, int>, sorted: seq<string>, left: set<string>)
    requires KahnInvariant(edges, inDegree, [], sorted)
    requires left != {} && left <= inDegree.Keys && left !! Elements(sorted)
    requires forall e :: e in edges && e.from in left ==> e.to in left || e.to in sorted
    ensures Cyclic(edges)
  {
    forall x | x in left
      ensures HasSuccessorIn(edges, left, x)
    {
      PendingZero(edges, Elements(sorted), x);
      assert x !in sorted by {
        assert x !in Elements(sorted);
      }
      var e :| e in edges && e.from == x && e.to !in Elements(sorted);
      assert HasArc(edges, x, e.to) && e.to in left;
    }
    NoSinkMeansCyclic(edges, left);
  }

  /** What the order says once the queue has run dry. */
  lemma KahnOutcome(nodes: seq<DependencyNode>, edges: seq<DependencyEdge>, inDegree: map<string, int>,
                    sorted: seq<string>)
    requires KahnInvariant(edges, inDegree, [], sorted)
    requires inDegree.Keys == Elements(Ids(nodes)) + Sources(edges)
    requires EndpointsKnown(nodes, edges)
    ensures |sorted| != |nodes| <==> Cyclic(edges) || !Distinct(Ids(nodes))
    ensures |sorted| == |nodes| ==> Elements(sorted) == Elements(Ids(nodes))
  {
    var ids := Ids(nodes);
    assert Elements(sorted) <= Elements(ids) by {
      SourcesAreSources(edges);
    }
    ElementsSize(sorted);
    ElementsSize(ids);
    SubsetSize(Elements(sorted), Elements(ids));
    if |sorted| == |nodes| {
      SettledIsAcyclic(edges, sorted) by {
        assert forall e :: e in edges ==> e.from in Elements(ids);
      }
    } else if Distinct(ids) {
      var left := Elements(ids) - Elements(sorted);
      if left == {} {
        assert forall x :: x in Elements(ids) ==> x in left || x in Elements(sorted);
        SubsetSize(Elements(ids), Elements(sorted));
        assert false;
      }
      LeftoverIsCyclic(edges, inDegree, sorted, left);
    }
  }

  /** The ids that are counted: the nodes and, known or not, the sources of edges. */
  ghost function Counting(nodes: seq<DependencyNode>, edges: seq<DependencyEdge>): set<string> {
    Elements(Ids(nodes)) + Sources(edges)
  }

  /** What the sort can come up with: each counted id once whose walks end without a repetition among counted ids, with
      dependencies first. */
  ghost predicate IsSortOrder(nodes: seq<DependencyNode>, edges: seq<DependencyEdge>, order: seq<string>) {
    && Distinct(order) && Settled(edges, order)
    && forall id :: id in order <==> id in Counting(nodes, edges) && Resolvable(Counting(nodes, edges), edges, id)
  }

  /** Whatever the endpoints of the edges are, the loop ends with such an order. */
  lemma KahnOrders(nodes: seq<DependencyNode>, edges: seq<DependencyEdge>, inDegree: map<string, int>,
                   sorted: seq<string>)
    requires KahnInvariant(edges, inDegree, [], sorted)
    requires inDegree.Keys == Counting(nodes, edges)
    ensures IsSortOrder(nodes, edges, sorted)
  {
    hide Counting, Resolvable;
    var known := Counting(nodes, edges);
    forall id
      ensures id in sorted <==> id in known && Resolvable(known, edges, id)
    {
      if id in sorted {
        SettledIsResolvable(known, edges, sorted, id);
      } else if id in known {
        forall x | x in known && x !in sorted
          ensures exists y :: y !in sorted && HasArc(edges, x, y)
        {
          PendingZero(edges, Elements(sorted), x);
          var e :| e in edges && e.from == x && e.to !in Elements(sorted);
          assert HasArc(edges, x, e.to) && e.to !in sorted;
        }
        StuckIsUnresolvable(known, edges, sorted, id);
      }
    }
  }

  lemma SettledIsDependenciesFirst(edges: seq<DependencyEdge>, order: seq<string>)
    requires Settled(edges, order)
    requires forall e :: e in edges ==> e.from in order
    ensures DependenciesFirst(edges, order)
  {
    forall e | e in edges
      ensures exists i, j :: 0 <= i < j < |order| && order[i] == e.to && order[j] == e.from
    {
      var j :| 0 <= j < |order| && order[j] == e.from;
      assert e.to in order[..j];
      var i :| 0 <= i < j && order[..j][i] == e.to;
      assert order[i] == e.to;
    }
  }

  /** Looking the ids up gives the nodes back when no id is used twice. */
  lemma LookupIsPermutation(nodes: seq<DependencyNode>, nodeMap: map<string, DependencyNode>,
                            result: seq<DependencyNode>)
    requires Distinct(Ids(nodes)) && Distinct(Ids(result))
    requires Elements(Ids(result)) == Elements(Ids(nodes))
    requires forall n :: n in nodes ==> n.id in nodeMap
    requires forall id :: id in nodeMap ==> nodeMap[id] in nodes && nodeMap[id].id == id
    requires forall n :: n in result ==> n.id in nodeMap && n == nodeMap[n.id]
    ensures multiset(result) == multiset(nodes)
  {
    assert Distinct(nodes) && Distinct(result) by {
      forall i, j | 0 <= i < j < |nodes|
        ensures nodes[i] != nodes[j]
      {
        assert Ids(nodes)[i] != Ids(nodes)[j];
      }
      forall i, j | 0 <= i < j < |result|
        ensures result[i] != result[j]
      {
        assert Ids(result)[i] != Ids(result)[j];
      }
    }
    forall n | n in nodes
      ensures n in result && n == nodeMap[n.id]
    {
      var i :| 0 <= i < |nodes| && nodes[i] == n;
      var m := nodeMap[n.id];
      var k :| 0 <= k < |nodes| && nodes[k] == m;
      assert Ids(nodes)[i] == Ids(nodes)[k];
      assert Ids(nodes)[i] in Elements(Ids(nodes));
      var j :| 0 <= j < |result| && Ids(result)[j] == n.id;
      assert result[j] in result;
    }
    assert Elements(result) == Elements(nodes);
    DistinctPermutation(result, nodes);
  }

  lemma KahnStart(nodes: seq<DependencyNode>, edges: seq<DependencyEdge>, adj: map<string, seq<string>>,
                  inDegree: map<string, int>, queue: seq<string>)
    requires Counted(nodes, edges, adj, inDegree) && Distinct(queue)
    requires forall id :: id in queue <==> id in inDegree && inDegree[id] == 0
    ensures KahnInvariant(edges, inDegree, queue, []) && Sources(edges) <= inDegree.Keys
    ensures inDegree.Keys == Elements(Ids(nodes)) + Sources(edges)
  {
    assert Elements<string>([]) == {};
  }

  /** The counts are large enough for one decrement per dependent. */
  lemma RoundPossible(edges: seq<DependencyEdge>, inDegree: map<string, int>, node: string, waiting: seq<string>,
                      sorted: seq<string>)
    requires KahnInvariant(edges, inDegree, [node] + waiting, sorted)
    requires Sources(edges) <= inDegree.Keys
    ensures Elements(Dependents(edges, node)) <= inDegree.Keys
    ensures forall id :: id in inDegree ==> multiset(Dependents(edges, node))[id] <= inDegree[id]
    ensures Distinct(waiting) && forall id :: id in waiting ==> id in inDegree && inDegree[id] == 0
    ensures |sorted| < |inDegree.Keys|
  {
    var queue := [node] + waiting;
    assert queue[0] == node && forall i :: 0 <= i < |waiting| ==> queue[i + 1] == waiting[i];
    DependentsAreSources(edges, node);
    forall id | id in inDegree
      ensures multiset(Dependents(edges, node))[id] <= inDegree[id]
    {
      PendingAfter(edges, Elements(sorted), node, id);
    }
    ElementsSize(sorted);
    SubsetSize(Elements(sorted) + {node}, inDegree.Keys);
  }

  /** The last node with each id. */
  function NodesById(nodes: seq<DependencyNode>): map<string, DependencyNode> {
    if nodes == [] then map[]
    else
      var last := nodes[|nodes| - 1];
      NodesById(nodes[..|nodes| - 1])[last.id := last]
  }

  /** The nodes behind the ids; an id without a node gives the zero value. */
  function LookedUp(nodes: seq<DependencyNode>, order: seq<string>): (result: seq<DependencyNode>)
    ensures |result| == |order|
  {
    var nodeMap := NodesById(nodes);
    seq(|order|, k requires 0 <= k < |order| => if order[k] in nodeMap then nodeMap[order[k]] else ZERO_NODE)
  }

  lemma {:induction false} NodesByIdAreNodes(nodes: seq<DependencyNode>)
    ensures forall n :: n in nodes ==> n.id in NodesById(nodes)
    ensures forall id :: id in NodesById(nodes) ==> NodesById(nodes)[id] in nodes && NodesById(nodes)[id].id == id
  {
    if nodes == [] {
    } else {
      var front := nodes[..|nodes| - 1];
      assert nodes == front + [nodes[|nodes| - 1]];
      NodesByIdAreNodes(front);
    }
  }

  lemma {:induction false} LastNodeWins(nodes: seq<DependencyNode>, k: nat)
    requires k < |nodes| && forall j :: k < j < |nodes| ==> nodes[j].id != nodes[k].id
    ensures nodes[k].id in NodesById(nodes) && NodesById(nodes)[nodes[k].id] == nodes[k]
  {
    if k < |nodes| - 1 {
      LastNodeWins(nodes[..|nodes| - 1], k);
    }
  }

  method IndexNodes(nodes: seq<DependencyNode>) returns (nodeMap: map<string, DependencyNode>)
    ensures nodeMap == NodesById(nodes)
  {
    nodeMap := map[];
    for i := 0 to |nodes|
      invariant nodeMap == NodesById(nodes[..i])
    {
      assert nodes[..i + 1][..i] == nodes[..i];
      nodeMap := nodeMap[nodes[i].id := nodes[i]];
    }
    assert nodes[..|nodes|] == nodes;
  }

  method LookUp(ghost nodes: seq<DependencyNode>, nodeMap: map<string, DependencyNode>, sorted: seq<string>)
      returns (result: seq<DependencyNode>)
    requires nodeMap == NodesById(nodes)
    ensures result == LookedUp(nodes, sorted)
  {
    result := [];
    for i := 0 to |sorted|
      invariant result == LookedUp(nodes, sorted)[..i]
    {
      result := result + [if sorted[i] in nodeMap then nodeMap[sorted[i]] else ZERO_NODE];
    }
  }

  lemma SortedResult(nodes: seq<DependencyNode>, edges: seq<DependencyEdge>, sorted: seq<string>,
                     result: seq<DependencyNode>)
    requires EndpointsKnown(nodes, edges) && Distinct(Ids(nodes))
    requires Distinct(sorted) && Settled(edges, sorted) && Elements(sorted) == Elements(Ids(nodes))
    requires result == LookedUp(nodes, sorted)
    ensures multiset(result) == multiset(nodes) && DependenciesFirst(edges, Ids(result))
  {
    var nodeMap := NodesById(nodes);
    NodesByIdAreNodes(nodes);
    forall k | 0 <= k < |sorted|
      ensures sorted[k] in nodeMap && result[k].id == sorted[k]
    {
      assert sorted[k] in Elements(Ids(nodes));
      var i :| 0 <= i < |nodes| && Ids(nodes)[i] == sorted[k];
      assert nodes[i].id in nodeMap;
    }
    assert Ids(result) == sorted;
    LookupIsPermutation(nodes, nodeMap, result);
    forall e | e in edges
      ensures e.from in sorted
    {
      assert e.from in Elements(sorted);
    }
    SettledIsDependenciesFirst(edges, sorted);
  }

  lemma SourcesOfTwo(first: DependencyEdge, second: DependencyEdge)
    ensures Sources([first, second]) == {first.from, second.from}
  {
    var edges := [first, second];
    assert edges[..1] == [first] && [first][..0] == [];
    assert Sources([first]) == Sources([]) + {first.from};
    assert Sources(edges) == Sources([first]) + {second.from};
  }

  lemma NodesByIdOfTwo(a: DependencyNode, b: DependencyNode)
    ensures NodesById([a, b]) == map[a.id := a][b.id := b]
  {
    assert [a, b][..1] == [a] && [a][..0] == [];
    assert NodesById([a]) == map[a.id := a];
  }

  /** So a graph that validation rejects can be sorted without an error: of two nodes, one waits for an unknown id and
      is
      missing, and an unknown source takes its place. */
  lemma UnknownSourceSorted(a: DependencyNode, b: DependencyNode, x: string, y: string)
    requires Distinct([a.id, b.id, x, y])
    ensures var edges := [DependencyEdge(x, a.id, UnitDependency), DependencyEdge(b.id, y, UnitDependency)];
            && IsSortOrder([a, b], edges, [a.id, x])
            && LookedUp([a, b], [a.id, x]) == [a, ZERO_NODE]
            && forall order :: IsSortOrder([a, b], edges, order) ==> |order| == 2
  {
    var nodes, order := [a, b], [a.id, x];
    var first, second := DependencyEdge(x, a.id, UnitDependency), DependencyEdge(b.id, y, UnitDependency);
    var edges, known := [first, second], Counting([a, b], [first, second]);
    assert Distinct([a.id, b.id, x, y]) && [a.id, b.id, x, y][0] == a.id && [a.id, b.id, x, y][1] == b.id
           && [a.id, b.id, x, y][2] == x && [a.id, b.id, x, y][3] == y;
    assert known == {a.id, b.id, x} by {
      SourcesOfTwo(first, second);
      assert Ids(nodes)[0] == a.id && Ids(nodes)[1] == b.id && Elements(Ids(nodes)) == {a.id, b.id};
    }
    assert Settled(edges, order) by {
      assert order[..1] == [a.id];
    }
    hide Settled;
    SettledIsResolvable(known, edges, order, a.id);
    SettledIsResolvable(known, edges, order, x);
    assert !Resolvable(known, edges, b.id) by {
      assert second in edges && HasArc(edges, b.id, y);
      assert IsWalk(edges, [b.id, y]);
      assert y in Elements([b.id, y]);
    }
    hide Resolvable;
    assert IsSortOrder(nodes, edges, order);
    NodesByIdOfTwo(a, b);
    forall other | IsSortOrder(nodes, edges, other)
      ensures |other| == 2
    {
      assert Elements(other) == {a.id, x};
      ElementsSize(other);
    }
  }

  // ----- depth-first search -----

  ghost function EdgeTargets(edges: seq<DependencyEdge>): set<string> {
    if edges == [] then {} else EdgeTargets(edges[..|edges| - 1]) + {edges[|edges| - 1].to}
  }

  lemma {:induction false} TargetsAreEdgeTargets(edges: seq<DependencyEdge>, id: string)
    ensures forall x :: x in Targets(edges, id) ==> x in EdgeTargets(edges)
  {
    if edges == [] {
    } else {
      TargetsAreEdgeTargets(edges[..|edges| - 1], id);
    }
  }

  /** An arc from the end of a walk back onto it closes a simple cycle. */
  lemma PathCycle(edges: seq<DependencyEdge>, path: seq<string>, start: nat)
    requires IsWalk(edges, path) && Distinct(path) && start < |path|
    requires HasArc(edges, path[|path| - 1], path[start])
    ensures IsSimpleCycle(edges, path[start..])
    ensures IsWalk(edges, path + [path[start]]) && !Distinct(path + [path[start]])
  {
    WalkSlice(edges, path, start, |path|);
    assert path[start..|path|] == path[start..];
    WalkExtend(edges, path, path[start]);
    var closed := path + [path[start]];
    assert closed[start] == closed[|path|];
  }

  method FirstIndex(path: seq<string>, id: string) returns (index: int)
    ensures id !in path ==> index == -1
    ensures id in path ==> 0 <= index < |path| && path[index] == id && id !in path[..index]
  {
    for i := 0 to |path|
      invariant id !in path[..i]
    {
      if path[i] == id {
        return i;
      }
    }
    index := -1;
  }

  // ----- what the reported lists close -----

  /** Some list ends in `a` and starts with `b`. */
  ghost predicate Closes(cycles: seq<seq<string>>, a: string, b: string) {
    exists c :: c in cycles && c != [] && c[|c| - 1] == a && c[0] == b
  }

  /** How many of the lists do. */
  ghost function Closings(cycles: seq<seq<string>>, a: string, b: string): nat {
    if cycles == [] then 0
    else
      var c := cycles[|cycles| - 1];
      Closings(cycles[..|cycles| - 1], a, b) + if c != [] && c[|c| - 1] == a && c[0] == b then 1 else 0
  }

  /** The walk takes the closing arc of one of the lists. */
  ghost predicate RunsOver(cycles: seq<seq<string>>, p: seq<string>) {
    exists i :: 0 <= i < |p| - 1 && Closes(cycles, p[i], p[i + 1])
  }

  /** Everything an entry of `order` depends on stands before it, or is joined to it by a closing arc. */
  ghost predicate SettledBut(edges: seq<DependencyEdge>, order: seq<string>, cycles: seq<seq<string>>) {
    forall k, e :: 0 <= k < |order| && e in edges && e.from == order[k] ==>
      e.to in order[..k] || Closes(cycles, e.from, e.to)
  }

  /** Every cycle that can be reached from a node is cut by the closing arc of a list, and an arc is closed by no more
      lists than there are edges. */
  ghost predicate ReportsAll(roots: set<string>, edges: seq<DependencyEdge>, cycles: seq<seq<string>>) {
    && (forall c :: c in cycles ==> IsSimpleCycle(edges, c) && ReachedFrom(roots, edges, c[0]))
    && (forall p :: IsClosedWalk(edges, p) && ReachedFrom(roots, edges, p[0]) ==> RunsOver(cycles, p))
    && (forall a, b :: Closings(cycles, a, b) <= multiset(Targets(edges, a))[b])
  }

  lemma {:induction false} ClosingsCount(cycles: seq<seq<string>>, a: string, b: string)
    ensures Closings(cycles, a, b) > 0 <==> Closes(cycles, a, b)
  {
    if cycles == [] {
    } else {
      var front, last := cycles[..|cycles| - 1], cycles[|cycles| - 1];
      assert cycles == front + [last];
      ClosingsCount(front, a, b);
    }
  }

  lemma OneMoreClosing(cycles: seq<seq<string>>, c: seq<string>)
    requires c != []
    ensures forall a, b ::
              Closings(cycles + [c], a, b)
              == Closings(cycles, a, b) + if c[|c| - 1] == a && c[0] == b then 1 else 0
    ensures Closes(cycles + [c], c[|c| - 1], c[0])
  {
    assert (cycles + [c])[..|cycles|] == cycles;
  }

  /** No list was added that closes an arc from one of these ids. */
  ghost predicate SameClosings(before: seq<seq<string>>, after: seq<seq<string>>, ids: set<string>) {
    forall a, b :: a in ids ==> Closings(after, a, b) == Closings(before, a, b)
  }

  /** At most one list was added that closes an arc from `a`, and it closes the one to `next`. */
  ghost predicate AtMostOneMore(before: seq<seq<string>>, after: seq<seq<string>>, a: string, next: string) {
    forall b :: Closings(after, a, b) <= Closings(before, a, b) + if b == next then 1 else 0
  }

  /** Each arc from `a` to one of `targets` is closed by no more lists than it is listed. */
  ghost predicate ClosedWithin(cycles: seq<seq<string>>, a: string, targets: seq<string>) {
    forall b :: Closings(cycles, a, b) <= multiset(targets)[b]
  }

  lemma ClosedWithinNext(before: seq<seq<string>>, after: seq<seq<string>>, a: string, targets: seq<string>,
                         next: string)
    requires ClosedWithin(before, a, targets) && AtMostOneMore(before, after, a, next)
    ensures ClosedWithin(after, a, targets + [next])
  {
    hide Closings;
    assert forall b :: multiset(targets + [next])[b] == multiset(targets)[b] + if b == next then 1 else 0;
  }

  lemma SameClosingsStill(first: seq<seq<string>>, second: seq<seq<string>>, third: seq<seq<string>>, ids: set<string>,
                          more: set<string>)
    requires SameClosings(first, second, ids) && SameClosings(second, third, more) && ids <= more
    ensures SameClosings(first, third, ids)
  {
    hide Closings;
  }

  lemma SameClosingsAtFirst(cycles: seq<seq<string>>, ids: set<string>)
    ensures SameClosings(cycles, cycles, ids)
  {
  }

  /** Each of `targets` is finished, or the arc from `a` to it is closed by a list. */
  ghost predicate Handled(cycles: seq<seq<string>>, finished: seq<string>, a: string, targets: seq<string>) {
    forall x :: x in targets ==> x in finished || Closes(cycles, a, x)
  }

  lemma HandledNext(cycles: seq<seq<string>>, finished: seq<string>, a: string, targets: seq<string>,
                    more: seq<seq<string>>, longer: seq<string>, next: string)
    requires Handled(cycles, finished, a, targets) && cycles <= more && finished <= longer
    requires next in longer || Closes(more, a, next)
    ensures Handled(more, longer, a, targets + [next])
  {
    hide Closes;
    ClosesGrows(cycles, more);
    assert forall x :: x in finished ==> x in longer;
  }

  lemma ClosesGrows(cycles: seq<seq<string>>, more: seq<seq<string>>)
    requires cycles <= more
    ensures forall a, b :: Closes(cycles, a, b) ==> Closes(more, a, b)
  {
    assert forall c :: c in cycles ==> c in more;
  }

  /** What has been reported so far, by the ids that have been entered and finished. */
  ghost predicate ReportInvariant(edges: seq<DependencyEdge>, visited: set<string>, cycles: seq<seq<string>>,
                                  finished: seq<string>) {
    && (forall a, b :: Closings(cycles, a, b) > 0 ==> a in visited && b in visited)
    && (forall a, b :: a in finished ==> Closings(cycles, a, b) <= multiset(Targets(edges, a))[b])
  }

  lemma EnterReport(edges: seq<DependencyEdge>, visited: set<string>, cycles: seq<seq<string>>, finished: seq<string>,
                    node: string)
    requires ReportInvariant(edges, visited, cycles, finished)
    ensures ReportInvariant(edges, visited + {node}, cycles, finished)
  {
  }

  lemma LeaveReport(edges: seq<DependencyEdge>, visited: set<string>, cycles: seq<seq<string>>, finished: seq<string>,
                    node: string)
    requires ReportInvariant(edges, visited, cycles, finished)
    requires ClosedWithin(cycles, node, Targets(edges, node))
    ensures ReportInvariant(edges, visited, cycles, finished + [node])
  {
  }

  lemma AddReport(edges: seq<DependencyEdge>, visited: set<string>, cycles: seq<seq<string>>, finished: seq<string>,
                  c: seq<string>)
    requires ReportInvariant(edges, visited, cycles, finished)
    requires c != [] && c[0] in visited && c[|c| - 1] in visited && c[|c| - 1] !in finished
    ensures ReportInvariant(edges, visited, cycles + [c], finished)
  {
    hide Closings;
    OneMoreClosing(cycles, c);
  }

  /** The state of the search between two statements of the recursion. */
  ghost predicate SearchInvariant(edges: seq<DependencyEdge>, roots: set<string>, visited: set<string>,
                                  recStack: set<string>,
                                  path: seq<string>, cycles: seq<seq<string>>, finished: seq<string>) {
    && recStack == Elements(path) && Distinct(path)
    && (path != [] ==> IsWalk(edges, path) && path[0] in roots)
    && visited == Elements(path) + Elements(finished)
    && Distinct(finished) && (forall id :: id in finished ==> id !in path)
    && (forall c :: c in cycles ==> IsSimpleCycle(edges, c) && ReachedFrom(roots, edges, c[0]))
    && (cycles != [] ==> ReachesCycle(roots, edges))
    && SettledBut(edges, finished, cycles)
  }

  lemma EnterNode(edges: seq<DependencyEdge>, roots: set<string>, visited: set<string>, recStack: set<string>,
                  path: seq<string>, cycles: seq<seq<string>>, finished: seq<string>, node: string)
    requires SearchInvariant(edges, roots, visited, recStack, path, cycles, finished)
    requires node !in visited
    requires if path == [] then node in roots else HasArc(edges, path[|path| - 1], node)
    ensures SearchInvariant(edges, roots, visited + {node}, recStack + {node}, path + [node], cycles, finished)
  {
    if path != [] {
      WalkExtend(edges, path, node);
    }
    ElementsAppend(path, node);
    assert node !in Elements(path) && node !in Elements(finished);
  }

  lemma ReportCycle(edges: seq<DependencyEdge>, roots: set<string>, visited: set<string>, recStack: set<string>,
                    path: seq<string>, cycles: seq<seq<string>>, finished: seq<string>, start: nat)
    requires SearchInvariant(edges, roots, visited, recStack, path, cycles, finished)
    requires start < |path| && HasArc(edges, path[|path| - 1], path[start])
    ensures SearchInvariant(edges, roots, visited, recStack, path, cycles + [path[start..]], finished)
  {
    PathCycle(edges, path, start);
    assert (path + [path[start]])[0] in roots;
    WalkSlice(edges, path, 0, start + 1);
    assert path[0..start + 1][start] == path[start];
    ClosesGrows(cycles, cycles + [path[start..]]);
  }

  lemma LeaveNode(edges: seq<DependencyEdge>, roots: set<string>, visited: set<string>, recStack: set<string>,
                  path: seq<string>, cycles: seq<seq<string>>, finished: seq<string>, node: string)
    requires SearchInvariant(edges, roots, visited, recStack, path + [node], cycles, finished)
    requires forall x :: x in Targets(edges, node) ==> x in finished || Closes(cycles, node, x)
    ensures SearchInvariant(edges, roots, visited, recStack - {node}, path, cycles, finished + [node])
  {
    var longer := path + [node];
    assert longer[|path|] == node && forall i :: 0 <= i < |path| ==> longer[i] == path[i];
    ElementsAppend(path, node);
    ElementsAppend(finished, node);
    if path != [] {
      WalkSlice(edges, longer, 0, |path|);
      assert longer[0..|path|] == path;
    }
    SettledButAppend(edges, finished, cycles, node) by {
      TargetsAreArcs(edges, node);
      assert forall e :: e in edges && e.from == node ==> HasArc(edges, node, e.to);
    }
  }

  lemma SettledButAppend(edges: seq<DependencyEdge>, order: seq<string>, cycles: seq<seq<string>>, node: string)
    requires SettledBut(edges, order, cycles)
    requires forall e :: e in edges && e.from == node ==> e.to in order || Closes(cycles, node, e.to)
    ensures SettledBut(edges, order + [node], cycles)
  {
    var longer := order + [node];
    forall k, e | 0 <= k < |longer| && e in edges && e.from == longer[k]
      ensures e.to in longer[..k] || Closes(cycles, e.from, e.to)
    {
      assert longer[..k] == if k < |order| then order[..k] else order;
    }
  }

  /** The variables that the search for cycles shares between its recursive calls. */
  class CycleSearch {
    const edges: seq<DependencyEdge>
    const adj: map<string, seq<string>>
    ghost const roots: set<string>
    var visited: set<string>
    var recStack: set<string>
    var path: seq<string>
    var cycles: seq<seq<string>>
    ghost var finished: seq<string>

    constructor (edges: seq<DependencyEdge>, adj: map<string, seq<string>>, ghost roots: set<string>)
      requires forall id :: At(adj, id) == Targets(edges, id)
      ensures this.edges == edges && this.adj == adj && this.roots == roots
      ensures Valid() && visited == {} && path == [] && cycles == []
    {
      this.edges, this.adj, this.roots := edges, adj, roots;
      visited, recStack, path, cycles, finished := {}, {}, [], [], [];
      assert forall a, b :: Closings([], a, b) == 0;
    }

    ghost predicate Valid()
      reads this
    {
      && (forall id :: At(adj, id) == Targets(edges, id))
      && visited <= roots + EdgeTargets(edges)
      && SearchInvariant(edges, roots, visited, recStack, path, cycles, finished)
      && ReportInvariant(edges, visited, cycles, finished)
    }

    /** Visits everything below `node` and finishes it; no list that closes an arc from an id entered before is
        added. */
    method Dfs(node: string)
      requires Valid() && node !in visited && node in roots + EdgeTargets(edges)
      requires if path == [] then node in roots else HasArc(edges, path[|path| - 1], node)
      modifies this
      ensures Valid() && path == old(path)
      ensures old(finished) <= finished && old(cycles) <= cycles && old(visited) <= visited
      ensures node in finished && node in visited
      ensures SameClosings(old(cycles), cycles, old(visited))
      decreases roots + EdgeTargets(edges) - visited, 0
    {
      hide SearchInvariant, ReportInvariant, Closings, Targets, ClosedWithin;
      Enter(node);
      VisitTargets(node);
      Leave(node);
    }

    method Enter(node: string)
      requires Valid() && node !in visited && node in roots + EdgeTargets(edges)
      requires if path == [] then node in roots else HasArc(edges, path[|path| - 1], node)
      modifies this
      ensures Valid() && path == old(path) + [node] && visited == old(visited) + {node}
      ensures finished == old(finished) && cycles == old(cycles)
      ensures ClosedWithin(cycles, node, [])
    {
      hide SearchInvariant, Closings, Targets;
      EnterNode(edges, roots, visited, recStack, path, cycles, finished, node);
      EnterReport(edges, visited, cycles, finished, node);
      visited := visited + {node};
      recStack := recStack + {node};
      path := path + [node];
    }

    method Leave(node: string)
      requires Valid() && path != [] && path[|path| - 1] == node
      requires Handled(cycles, finished, node, Targets(edges, node))
      requires ClosedWithin(cycles, node, Targets(edges, node))
      modifies this
      ensures Valid() && path == old(path)[..|old(path)| - 1] && finished == old(finished) + [node]
      ensures visited == old(visited) && cycles == old(cycles)
    {
      hide SearchInvariant, ReportInvariant, Closings, Closes, Targets, ClosedWithin;
      assert path == path[..|path| - 1] + [node];
      LeaveNode(edges, roots, visited, recStack, path[..|path| - 1], cycles, finished, node);
      LeaveReport(edges, visited, cycles, finished, node);
      path := path[..|path| - 1];
      recStack := recStack - {node};
      finished := finished + [node];
    }

    method VisitTargets(node: string)
      requires Valid() && path != [] && path[|path| - 1] == node
      requires ClosedWithin(cycles, node, [])
      modifies this
      ensures Valid() && path == old(path)
      ensures old(finished) <= finished && old(cycles) <= cycles && old(visited) <= visited
      ensures Handled(cycles, finished, node, Targets(edges, node))
      ensures ClosedWithin(cycles, node, Targets(edges, node))
      ensures SameClosings(old(cycles), cycles, old(visited) - {node})
      decreases roots + EdgeTargets(edges) - visited, 3
    {
      hide Valid, Closings, Closes, ClosedWithin, SameClosings, Targets, HasArc, EdgeTargets;
      var targets := TargetsOf(node);
      SameClosingsAtFirst(cycles, visited - {node});
      assert targets[..0] == [] && targets[..|targets|] == targets;
      hide Handled;
      for k := 0 to |targets|
        invariant Valid() && path == old(path)
        invariant old(finished) <= finished && old(cycles) <= cycles && old(visited) <= visited
        invariant Handled(cycles, finished, node, targets[..k])
        invariant ClosedWithin(cycles, node, targets[..k])
        invariant SameClosings(old(cycles), cycles, old(visited) - {node})
      {
        VisitNext(node, targets[..k], targets[k], old(cycles), old(visited) - {node});
        assert targets[..k + 1] == targets[..k] + [targets[k]];
      }
    }

    method TargetsOf(node: string) returns (targets: seq<string>)
      requires Valid() && path != [] && path[|path| - 1] == node
      ensures targets == Targets(edges, node) && node in visited
      ensures forall j :: 0 <= j < |targets| ==> HasArc(edges, node, targets[j]) && targets[j] in EdgeTargets(edges)
    {
      targets := if node in adj then adj[node] else [];
      TargetsAreArcs(edges, node);
      TargetsAreEdgeTargets(edges, node);
    }

    /** One turn of that loop. */
    method VisitNext(node: string, ghost targets: seq<string>, next: string, ghost first: seq<seq<string>>,
                     ghost ids: set<string>)
      requires Valid() && path != [] && path[|path| - 1] == node && HasArc(edges, node, next)
               && next in EdgeTargets(edges)
      requires Handled(cycles, finished, node, targets) && ClosedWithin(cycles, node, targets)
      requires SameClosings(first, cycles, ids) && ids <= visited - {node}
      modifies this
      ensures Valid() && path == old(path)
      ensures old(finished) <= finished && old(cycles) <= cycles && old(visited) <= visited
      ensures Handled(cycles, finished, node, targets + [next]) && ClosedWithin(cycles, node, targets + [next])
      ensures SameClosings(first, cycles, ids)
      decreases roots + EdgeTargets(edges) - visited, 2
    {
      hide Valid, Closings, Closes, Handled, ClosedWithin, SameClosings, AtMostOneMore, Targets, HasArc;
      ghost var before, longer, seen := cycles, finished, visited;
      VisitTarget(next);
      HandledNext(before, longer, node, targets, cycles, finished, next);
      ClosedWithinNext(before, cycles, node, targets, next);
      SameClosingsStill(first, before, cycles, ids, seen - {node});
    }

    /** An arc back onto the path adds the list that it closes, and no other arc adds a list that it would close. */
    method VisitTarget(next: string)
      requires Valid() && path != [] && HasArc(edges, path[|path| - 1], next) && next in EdgeTargets(edges)
      modifies this
      ensures Valid() && path == old(path)
      ensures old(finished) <= finished && old(cycles) <= cycles && old(visited) <= visited
      ensures next in finished || Closes(cycles, path[|path| - 1], next)
      ensures AtMostOneMore(old(cycles), cycles, path[|path| - 1], next)
      ensures SameClosings(old(cycles), cycles, old(visited) - {path[|path| - 1]})
      decreases roots + EdgeTargets(edges) - visited, 1
    {
      hide Closings, Closes, Targets, IsSimpleCycle, SettledBut;
      if next !in visited {
        Dfs(next);
      } else if next in recStack {
        var cycleStart := FirstIndex(path, next);
        if cycleStart >= 0 {
          ghost var c := path[cycleStart..];
          ReportCycle(edges, roots, visited, recStack, path, cycles, finished, cycleStart);
          OneMoreClosing(cycles, c);
          AddReport(edges, visited, cycles, finished, c);
          cycles := cycles + [path[cycleStart..]];
        }
      }
    }
  }

  /** The parallel adjacency map of the depth-first search. */
  method BuildTargets(edges: seq<DependencyEdge>) returns (adj: map<string, seq<string>>)
    ensures forall id :: At(adj, id) == Targets(edges, id)
  {
    adj := map[];
    for i := 0 to |edges|
      invariant forall id :: At(adj, id) == Targets(edges[..i], id)
    {
      var edge := edges[i];
      assert edges[..i + 1][..i] == edges[..i];
      var targets := if edge.from in adj then adj[edge.from] else [];
      adj := adj[edge.from := targets + [edge.to]];
    }
    assert edges[..|edges|] == edges;
  }

  /** With nothing on the path any more, everything that can be reached from a node is finished. */
  lemma {:induction false} ReachedIsFinished(edges: seq<DependencyEdge>, visited: set<string>,
                                             cycles: seq<seq<string>>, finished: seq<string>, q: seq<string>)
    requires SettledBut(edges, finished, cycles) && ReportInvariant(edges, visited, cycles, finished)
    requires visited == Elements(finished) && IsWalk(edges, q) && q[0] in finished
    ensures forall i :: 0 <= i < |q| ==> q[i] in finished
  {
    hide Closings, Closes;
    if |q| == 1 {
    } else {
      var n := |q| - 1;
      WalkSlice(edges, q, 0, n);
      ReachedIsFinished(edges, visited, cycles, finished, q[..n]);
      assert HasArc(edges, q[n - 1], q[n - 1 + 1]);
      var e :| e in edges && e.from == q[n - 1] && e.to == q[n];
      assert q[..n][n - 1] in finished;
      var k :| 0 <= k < |finished| && finished[k] == q[n - 1];
      if e.to !in finished[..k] {
        ClosingsCount(cycles, e.from, e.to);
        assert e.to in visited;
      }
      assert q[n] in finished;
    }
  }

  /** Along a walk of finished ids that takes no closing arc the position only goes down. */
  lemma {:induction false} UncutDescends(edges: seq<DependencyEdge>, cycles: seq<seq<string>>, order: seq<string>,
                                         p: seq<string>, k: nat) returns (end: nat)
    requires SettledBut(edges, order, cycles) && IsWalk(edges, p) && !RunsOver(cycles, p)
    requires k < |order| && order[k] == p[0]
    ensures end + |p| - 1 <= k && order[end] == p[|p| - 1]
  {
    hide Closes;
    if |p| == 1 {
      end := k;
    } else {
      var n := |p| - 1;
      WalkSlice(edges, p, 0, n);
      forall i | 0 <= i < n - 1
        ensures !Closes(cycles, p[..n][i], p[..n][i + 1])
      {
        assert p[..n][i] == p[i] && p[..n][i + 1] == p[i + 1];
      }
      var before := UncutDescends(edges, cycles, order, p[..n], k);
      assert HasArc(edges, p[n - 1], p[n - 1 + 1]);
      assert !Closes(cycles, p[n - 1], p[n - 1 + 1]);
      assert p[n] in order[..before];
      end :| 0 <= end < before && order[end] == p[n];
    }
  }

  /** So a search that is over has reported a list for every cycle that can be reached from a node. */
  lemma SearchIsComplete(edges: seq<DependencyEdge>, roots: set<string>, visited: set<string>, recStack: set<string>,
                         cycles: seq<seq<string>>, finished: seq<string>)
    requires SearchInvariant(edges, roots, visited, recStack, [], cycles, finished)
    requires ReportInvariant(edges, visited, cycles, finished) && roots <= visited
    ensures ReportsAll(roots, edges, cycles)
    ensures cycles == [] <==> !ReachesCycle(roots, edges)
  {
    hide Closings, Closes, Targets;
    assert visited == Elements(finished) by {
      assert Elements<string>([]) == {};
    }
    forall p | IsClosedWalk(edges, p) && ReachedFrom(roots, edges, p[0])
      ensures RunsOver(cycles, p)
    {
      var q :| IsWalk(edges, q) && q[0] in roots && q[|q| - 1] == p[0];
      ReachedIsFinished(edges, visited, cycles, finished, q);
      if !RunsOver(cycles, p) {
        var k :| 0 <= k < |finished| && finished[k] == p[0];
        var end := UncutDescends(edges, cycles, finished, p, k);
        assert false;
      }
    }
    forall a, b
      ensures Closings(cycles, a, b) <= multiset(Targets(edges, a))[b]
    {
      if Closings(cycles, a, b) > 0 {
        assert a in Elements(finished);
      }
    }
    if cycles == [] {
      NoListNoCycle(roots, edges);
    }
  }

  lemma ReachedClosedWalk(roots: set<string>, edges: seq<DependencyEdge>) returns (closed: seq<string>)
    requires ReachesCycle(roots, edges)
    ensures IsClosedWalk(edges, closed) && ReachedFrom(roots, edges, closed[0])
  {
    var p :| IsWalk(edges, p) && p[0] in roots && !Distinct(p);
    var i, j :| 0 <= i < j < |p| && p[i] == p[j];
    WalkSlice(edges, p, i, j + 1);
    WalkSlice(edges, p, 0, i + 1);
    closed := p[i..j + 1];
    var there := p[0..i + 1];
    assert closed[0] == p[i] && closed[|closed| - 1] == p[j] && there[|there| - 1] == p[i];
  }

  lemma NoListNoCycle(roots: set<string>, edges: seq<DependencyEdge>)
    requires forall p :: IsClosedWalk(edges, p) && ReachedFrom(roots, edges, p[0]) ==> RunsOver([], p)
    ensures !ReachesCycle(roots, edges)
  {
    if ReachesCycle(roots, edges) {
      var closed := ReachedClosedWalk(roots, edges);
      assert false;
    }
  }

  // ----- the graph -----

  ghost function MissingEndpoints(nodes: seq<DependencyNode>, edges: seq<DependencyEdge>): seq<ValidationError> {
    if edges == [] then []
    else
      var last := edges[|edges| - 1];
      MissingEndpoints(nodes, edges[..|edges| - 1])
      + (if last.to !in Ids(nodes) then [MissingTarget(last.from, last.to)] else [])
      + (if last.from !in Ids(nodes) then [MissingSource(last.to, last.from)] else [])
  }

  ghost function SelfDependencies(edges: seq<DependencyEdge>): seq<ValidationError> {
    if edges == [] then []
    else
      var last := edges[|edges| - 1];
      SelfDependencies(edges[..|edges| - 1]) + if last.from == last.to then [SelfDependency(last.from)] else []
  }

  ghost function CycleErrors(cycles: seq<seq<string>>): seq<ValidationError>
    requires forall c :: c in cycles ==> c != []
  {
    seq(|cycles|, i requires 0 <= i < |cycles| => assert cycles[i] in cycles; CycleDetected(cycles[i][0], cycles[i]))
  }

  lemma {:induction false} NoMissingEndpoints(nodes: seq<DependencyNode>, edges: seq<DependencyEdge>)
    ensures MissingEndpoints(nodes, edges) == [] <==> EndpointsKnown(nodes, edges)
  {
    if edges == [] {
    } else {
      var front := edges[..|edges| - 1];
      assert edges == front + [edges[|edges| - 1]];
      NoMissingEndpoints(nodes, front);
    }
  }

  lemma {:induction false} NoSelfDependencies(edges: seq<DependencyEdge>)
    ensures SelfDependencies(edges) == [] <==> forall e :: e in edges ==> e.from != e.to
  {
    if edges == [] {
    } else {
      var front := edges[..|edges| - 1];
      assert edges == front + [edges[|edges| - 1]];
      NoSelfDependencies(front);
    }
  }

  /** One error for each end of an edge that no node has, and one for each edge from an id to itself. */
  ghost predicate EndpointsReported(nodes: seq<DependencyNode>, edges: seq<DependencyEdge>,
                                    errors: seq<ValidationError>) {
    && (forall a, b :: MissingTarget(a, b) in errors <==> HasArc(edges, a, b) && b !in Ids(nodes))
    && (forall a, b :: MissingSource(b, a) in errors <==> HasArc(edges, a, b) && a !in Ids(nodes))
    && (forall a :: SelfDependency(a) in errors <==> HasArc(edges, a, a))
  }

  lemma ArcAppend(edges: seq<DependencyEdge>, e: DependencyEdge)
    ensures forall a, b :: HasArc(edges + [e], a, b) <==> HasArc(edges, a, b) || (e.from == a && e.to == b)
  {
    assert forall x :: x in edges + [e] <==> x in edges || x == e;
  }

  lemma {:induction false} MissingMeans(nodes: seq<DependencyNode>, edges: seq<DependencyEdge>)
    ensures var errors := MissingEndpoints(nodes, edges);
            && (forall a, b :: MissingTarget(a, b) in errors <==> HasArc(edges, a, b) && b !in Ids(nodes))
            && (forall a, b :: MissingSource(b, a) in errors <==> HasArc(edges, a, b) && a !in Ids(nodes))
            && (forall a :: SelfDependency(a) !in errors) && (forall a, c :: CycleDetected(a, c) !in errors)
  {
    hide HasArc, Ids;
    if edges == [] {
      NoArcs();
    } else {
      var front, last := edges[..|edges| - 1], edges[|edges| - 1];
      assert edges == front + [last];
      MissingMeans(nodes, front);
      ArcAppend(front, last);
    }
  }

  lemma NoArcs()
    ensures forall a, b :: !HasArc([], a, b)
  {
  }

  lemma {:induction false} SelfMeans(edges: seq<DependencyEdge>)
    ensures forall error :: error in SelfDependencies(edges) <==>
              error.SelfDependency? && HasArc(edges, error.nodeId, error.nodeId)
  {
    hide HasArc;
    if edges == [] {
      NoArcs();
    } else {
      var front, last := edges[..|edges| - 1], edges[|edges| - 1];
      assert edges == front + [last];
      SelfMeans(front);
      ArcAppend(front, last);
    }
  }

  /** Each list found is reported under its first id. */
  ghost predicate CyclesReported(cycles: seq<seq<string>>, errors: seq<ValidationError>) {
    forall a, c :: CycleDetected(a, c) in errors <==> c in cycles && c != [] && c[0] == a
  }

  lemma CyclesMean(cycles: seq<seq<string>>)
    requires forall c :: c in cycles ==> c != []
    ensures CyclesReported(cycles, CycleErrors(cycles))
    ensures forall error :: error in CycleErrors(cycles) ==> error.CycleDetected?
  {
    forall c | c in cycles
      ensures CycleDetected(c[0], c) in CycleErrors(cycles)
    {
      var i :| 0 <= i < |cycles| && cycles[i] == c;
      assert CycleErrors(cycles)[i] == CycleDetected(c[0], c);
    }
  }

  lemma ErrorsMean(nodes: seq<DependencyNode>, edges: seq<DependencyEdge>, cycles: seq<seq<string>>)
    requires forall c :: c in cycles ==> c != []
    ensures var errors := MissingEndpoints(nodes, edges) + SelfDependencies(edges) + CycleErrors(cycles);
            EndpointsReported(nodes, edges, errors) && CyclesReported(cycles, errors)
  {
    hide HasArc, MissingEndpoints, SelfDependencies, CycleErrors;
    MissingMeans(nodes, edges);
    SelfMeans(edges);
    CyclesMean(cycles);
  }

  /** Nothing that validation reports: known endpoints and no cycle. */
  ghost predicate Sound(nodes: seq<DependencyNode>, edges: seq<DependencyEdge>) {
    EndpointsKnown(nodes, edges) && !Cyclic(edges)
  }

  /** A self edge is already a cycle, and known endpoints make every cycle reachable from a node. */
  lemma NothingReported(nodes: seq<DependencyNode>, edges: seq<DependencyEdge>)
    ensures MissingEndpoints(nodes, edges) == [] && SelfDependencies(edges) == []
            && !ReachesCycle(Elements(Ids(nodes)), edges)
            <==> Sound(nodes, edges)
  {
    NoMissingEndpoints(nodes, edges);
    NoSelfDependencies(edges);
    if EndpointsKnown(nodes, edges) {
      CyclicReachesCycle(Elements(Ids(nodes)), edges);
    }
    if e :| e in edges && e.from == e.to {
      assert HasArc(edges, e.from, e.to);
      assert IsClosedWalk(edges, [e.from, e.to]);
    }
  }

  class DependencyGraph {
    var nodes: seq<DependencyNode>
    var edges: seq<DependencyEdge>

    constructor ()
      ensures nodes == [] && edges == []
    {
      nodes, edges := [], [];
    }

    /** On every graph, the nodes of an order that holds exactly the ids that can be resolved, or the failure when there
        are more or fewer of those than nodes. With known endpoints it fails exactly on a cycle or a repeated id and
        otherwise gives a permutation with dependencies first. */
    method TopologicalSort() returns (r: Result<seq<DependencyNode>, SortError>)
      ensures exists order :: IsSortOrder(nodes, edges, order)
                && r == if |order| == |nodes| then Ok(LookedUp(nodes, order)) else Err(DependencyCycleDetected)
      ensures EndpointsKnown(nodes, edges) ==> (r.Err? <==> Cyclic(edges) || !Distinct(Ids(nodes)))
      ensures EndpointsKnown(nodes, edges) && r.Ok? ==>
                multiset(r.value) == multiset(nodes) && DependenciesFirst(edges, Ids(r.value))
    {
      var sorted := KahnOrder();
      if |sorted| != |nodes| {
        return Err(DependencyCycleDetected);
      }
      var nodeMap := IndexNodes(nodes);
      var result := LookUp(nodes, nodeMap, sorted);
      if EndpointsKnown(nodes, edges) {
        SortedResult(nodes, edges, sorted, result);
      }
      r := Ok(result);
    }

    /** The loop over the queue. */
    method KahnOrder() returns (sorted: seq<string>)
      ensures IsSortOrder(nodes, edges, sorted)
      ensures EndpointsKnown(nodes, edges) ==> (|sorted| != |nodes| <==> Cyclic(edges) || !Distinct(Ids(nodes)))
      ensures EndpointsKnown(nodes, edges) && |sorted| == |nodes| ==> Elements(sorted) == Elements(Ids(nodes))
    {
      var adj, inDegree := CountEdges(nodes, edges);
      var queue := Ready(inDegree);
      sorted := [];
      ghost var known := inDegree.Keys;
      KahnStart(nodes, edges, adj, inDegree, queue);
      SourcesAreSources(edges);
      hide KahnInvariant, Released, Pending, Sources, Dependents, Settled, IsSortOrder;
      while queue != []
        invariant inDegree.Keys == known
        invariant KahnInvariant(edges, inDegree, queue, sorted)
        decreases |known| - |sorted|
      {
        var node := queue[0];
        var waiting := queue[1..];
        assert queue == [node] + waiting;
        RoundPossible(edges, inDegree, node, waiting, sorted);
        var dependents := if node in adj then adj[node] else [];
        ghost var before := inDegree;
        inDegree, queue := Release(dependents, inDegree, waiting);
        KahnRound(edges, before, node, waiting, sorted, inDegree, queue);
        sorted := sorted + [node];
      }
      KahnOrders(nodes, edges, inDegree, sorted);
      if EndpointsKnown(nodes, edges) {
        KahnOutcome(nodes, edges, inDegree, sorted);
      }
    }

    /** Every list is a simple cycle that a node reaches, and every closed walk that a node reaches takes the closing
        arc of a list; so the result is empty exactly when no node reaches a cycle. */
    method DetectCycles() returns (cycles: seq<seq<string>>)
      ensures ReportsAll(Elements(Ids(nodes)), edges, cycles)
      ensures cycles == [] <==> !ReachesCycle(Elements(Ids(nodes)), edges)
    {
      hide SearchInvariant, ReportInvariant, ReportsAll, ReachesCycle, Targets, Closings;
      var adj := BuildTargets(edges);
      ghost var roots := Elements(Ids(nodes));
      var search := new CycleSearch(edges, adj, roots);
      for i := 0 to |nodes|
        invariant search.Valid() && search.path == [] && search.edges == edges && search.roots == roots
        invariant forall j :: 0 <= j < i ==> nodes[j].id in search.visited
      {
        if nodes[i].id !in search.visited {
          assert Ids(nodes)[i] in roots;
          search.Dfs(nodes[i].id);
        }
      }
      cycles := search.cycles;
      assert roots <= search.visited;
      SearchIsComplete(edges, roots, search.visited, search.recStack, cycles, search.finished);
    }

    method HasCycle() returns (found: bool)
      ensures found <==> ReachesCycle(Elements(Ids(nodes)), edges)
      ensures EndpointsKnown(nodes, edges) ==> (found <==> Cyclic(edges))
    {
      if EndpointsKnown(nodes, edges) {
        CyclicReachesCycle(Elements(Ids(nodes)), edges);
      }
      var cycles := DetectCycles();
      found := |cycles| > 0;
    }

    /** The sort and the search on one graph: with known endpoints they agree exactly when no id is used twice or there
        is a cycle anyway. A repeated id alone makes the sort fail, and the search finds nothing. */
    method SortAndSearch() returns (sorted: Result<seq<DependencyNode>, SortError>, found: bool)
      ensures EndpointsKnown(nodes, edges) ==> ((sorted.Err? <==> found) <==> Distinct(Ids(nodes)) || Cyclic(edges))
    {
      sorted := TopologicalSort();
      found := HasCycle();
    }

    method EndpointErrors() returns (errors: seq<ValidationError>)
      ensures errors == MissingEndpoints(nodes, edges)
    {
      errors := [];
      var nodeSet := set n | n in nodes :: n.id;
      assert forall id :: id in nodeSet <==> id in Ids(nodes);
      for i := 0 to |edges|
        invariant errors == MissingEndpoints(nodes, edges[..i])
      {
        var edge := edges[i];
        assert edges[..i + 1][..i] == edges[..i];
        if edge.to !in nodeSet {
          errors := errors + [MissingTarget(edge.from, edge.to)];
        }
        if edge.from !in nodeSet {
          errors := errors + [MissingSource(edge.to, edge.from)];
        }
      }
      assert edges[..|edges|] == edges;
    }

    method SelfErrors() returns (errors: seq<ValidationError>)
      ensures errors == SelfDependencies(edges)
    {
      errors := [];
      for i := 0 to |edges|
        invariant errors == SelfDependencies(edges[..i])
      {
        var edge := edges[i];
        assert edges[..i + 1][..i] == edges[..i];
        if edge.from == edge.to {
          errors := errors + [SelfDependency(edge.from)];
        }
      }
      assert edges[..|edges|] == edges;
    }

    method ReportCycles(cycles: seq<seq<string>>) returns (errors: seq<ValidationError>)
      requires forall c :: c in cycles ==> c != []
      ensures errors == CycleErrors(cycles)
    {
      errors := [];
      for i := 0 to |cycles|
        invariant errors == CycleErrors(cycles)[..i]
      {
        assert cycles[i] in cycles;
        errors := errors + [CycleDetected(cycles[i][0], cycles[i])];
      }
    }

    /** The error list, piece by piece, and what it means for it to be empty. */
    method Validate() returns (errors: seq<ValidationError>)
      ensures exists cycles :: ReportsAll(Elements(Ids(nodes)), edges, cycles)
                && errors == MissingEndpoints(nodes, edges) + SelfDependencies(edges) + CycleErrors(cycles)
                && CyclesReported(cycles, errors)
      ensures EndpointsReported(nodes, edges, errors)
      ensures errors == [] <==> Sound(nodes, edges)
    {
      hide Sound, ReachesCycle, MissingEndpoints, SelfDependencies, EndpointsReported, CyclesReported;
      errors := EndpointErrors();
      var selfErrors := SelfErrors();
      var cycles := DetectCycles();
      var cycleErrors := ReportCycles(cycles);
      errors := errors + selfErrors + cycleErrors;
      NothingReported(nodes, edges);
      ErrorsMean(nodes, edges, cycles);
    }

    /** The sort's own result; it succeeds on every graph with distinct ids that validates, and with known endpoints on
        no other. */
    method MigrationOrder() returns (r: Result<seq<DependencyNode>, SortError>)
      ensures exists order :: IsSortOrder(nodes, edges, order)
                && r == if |order| == |nodes| then Ok(LookedUp(nodes, order)) else Err(DependencyCycleDetected)
      ensures Sound(nodes, edges) && Distinct(Ids(nodes)) ==>
                r.Ok? && multiset(r.value) == multiset(nodes) && DependenciesFirst(edges, Ids(r.value))
      ensures EndpointsKnown(nodes, edges) && r.Ok? ==> Sound(nodes, edges) && Distinct(Ids(nodes))
    {
      var sorted := TopologicalSort();
      if sorted.Err? {
        return Err(sorted.error);
      }
      r := Ok(sorted.value);
    }
  }
}
