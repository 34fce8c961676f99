/** Directed walks over the edges of a dependency graph, and the facts that make
    "no cycle" and "there is an order" the same thing. */
module Walks {
  import opened Sequences

  /** Why an edge was added; the text the program formats from these values is not modelled. */
  datatype EdgeReason =
    | ExposesPort(port: int, dbType: string)
    | ProxyPass(port: int, container: string)
    | UpstreamServer(upstream: string, port: int, container: string)
    | UnitDependency
    | NameMatches(dbType: string)
    | EnvSuggests(envVar: string, kind: string)
    | SharedVolume(volume: string)

  /** An edge from -> to means that `from` depends on `to`. */
  datatype DependencyEdge = DependencyEdge(from: string, to: string, reason: EdgeReason)

  predicate HasArc(edges: seq<DependencyEdge>, a: string, b: string) {
    exists e :: e in edges && e.from == a && e.to == b
  }

  ghost predicate IsWalk(edges: seq<DependencyEdge>, p: seq<string>) {
    p != [] && forall i :: 0 <= i < |p| - 1 ==> HasArc(edges, p[i], p[i + 1])
  }

  ghost predicate IsClosedWalk(edges: seq<DependencyEdge>, p: seq<string>) {
    |p| >= 2 && IsWalk(edges, p) && p[0] == p[|p| - 1]
  }

  ghost predicate Cyclic(edges: seq<DependencyEdge>) {
    exists p :: IsClosedWalk(edges, p)
  }

  /** No repeated vertex, consecutive arcs, and an arc that closes the loop. */
  ghost predicate IsSimpleCycle(edges: seq<DependencyEdge>, c: seq<string>) {
    IsWalk(edges, c) && Distinct(c) && HasArc(edges, c[|c| - 1], c[0])
  }

  /** Some walk that starts at one of `roots` visits a vertex twice. */
  ghost predicate ReachesCycle(roots: set<string>, edges: seq<DependencyEdge>) {
    exists p :: IsWalk(edges, p) && p[0] in roots && !Distinct(p)
  }

  /** Everything an entry of `order` depends on stands before it. */
  ghost predicate Settled(edges: seq<DependencyEdge>, order: seq<string>) {
    forall k, e :: 0 <= k < |order| && e in edges && e.from == order[k] ==> e.to in order[..k]
  }

  ghost predicate HasSuccessorIn(edges: seq<DependencyEdge>, within: set<string>, x: string) {
    exists y :: y in within && HasArc(edges, x, y)
  }

  /** Every member of `within` depends on a member of `within`. */
  ghost predicate NoSink(edges: seq<DependencyEdge>, within: set<string>) {
    forall x {:trigger HasSuccessorIn(edges, within, x)} :: x in within ==> HasSuccessorIn(edges, within, x)
  }

  /** Some walk leads from one of `roots` to `id`. */
  ghost predicate ReachedFrom(roots: set<string>, edges: seq<DependencyEdge>, id: string) {
    exists p :: IsWalk(edges, p) && p[0] in roots && p[|p| - 1] == id
  }

  lemma ArcsGrow(edges: seq<DependencyEdge>, longer: seq<DependencyEdge>)
    requires edges <= longer
    ensures forall a, b :: HasArc(edges, a, b) ==> HasArc(longer, a, b)
  {
    assert forall e :: e in edges ==> e in longer;
  }

  lemma WalkSlice(edges: seq<DependencyEdge>, p: seq<string>, i: nat, j: nat)
    requires IsWalk(edges, p) && i < j <= |p|
    ensures IsWalk(edges, p[i..j])
  {
    var q := p[i..j];
    forall k | 0 <= k < |q| - 1
      ensures HasArc(edges, q[k], q[k + 1])
    {
      assert q[k] == p[i + k] && q[k + 1] == p[i + k + 1];
      assert HasArc(edges, p[i + k], p[i + k + 1]);
    }
  }

  lemma WalkExtend(edges: seq<DependencyEdge>, p: seq<string>, next: string)
    requires IsWalk(edges, p) && HasArc(edges, p[|p| - 1], next)
    ensures IsWalk(edges, p + [next])
  {
    var q := p + [next];
    forall k | 0 <= k < |q| - 1
      ensures HasArc(edges, q[k], q[k + 1])
    {
      if k < |p| - 1 {
        assert HasArc(edges, p[k], p[k + 1]);
      }
    }
  }

  lemma SimpleCycleIsCyclic(edges: seq<DependencyEdge>, c: seq<string>)
    requires IsSimpleCycle(edges, c)
    ensures Cyclic(edges)
  {
    WalkExtend(edges, c, c[0]);
    assert IsClosedWalk(edges, c + [c[0]]);
  }

  /** A cycle through vertices that all have outgoing arcs is found from those vertices. */
  lemma CyclicReachesCycle(roots: set<string>, edges: seq<DependencyEdge>)
    requires forall e :: e in edges ==> e.from in roots
    ensures Cyclic(edges) <==> ReachesCycle(roots, edges)
  {
    if Cyclic(edges) {
      var p :| IsClosedWalk(edges, p);
      assert HasArc(edges, p[0], p[1]);
      assert p[0] in roots && !Distinct(p);
    }
    if ReachesCycle(roots, edges) {
      var p :| IsWalk(edges, p) && p[0] in roots && !Distinct(p);
      var i, j :| 0 <= i < j < |p| && p[i] == p[j];
      WalkSlice(edges, p, i, j + 1);
      assert IsClosedWalk(edges, p[i..j + 1]);
    }
  }

  /** A walk of any length inside a set whose members all have a successor in the set. */
  lemma {:induction false} WalkInside(edges: seq<DependencyEdge>, within: set<string>, start: string, length: nat)
      returns (p: seq<string>)
    requires start in within && length >= 1
    requires NoSink(edges, within)
    ensures |p| == length && IsWalk(edges, p) && Elements(p) <= within
  {
    if length == 1 {
      p := [start];
    } else {
      var shorter := WalkInside(edges, within, start, length - 1);
      var x := shorter[|shorter| - 1];
      assert x in Elements(shorter);
      assert HasSuccessorIn(edges, within, x);
      var y :| y in within && HasArc(edges, x, y);
      WalkExtend(edges, shorter, y);
      p := shorter + [y];
      ElementsAppend(shorter, y);
    }
  }

  /** Vertices none of which is without a successor among them contain a cycle. */
  lemma NoSinkMeansCyclic(edges: seq<DependencyEdge>, within: set<string>)
    requires within != {}
    requires NoSink(edges, within)
    ensures Cyclic(edges)
  {
    var start :| start in within;
    var p := WalkInside(edges, within, start, |within| + 1);
    var i, j := Pigeonhole(p, within);
    WalkSlice(edges, p, i, j + 1);
    assert IsClosedWalk(edges, p[i..j + 1]);
  }

  /** Along a walk inside a settled order the position only goes down. */
  lemma {:induction false} WalkDescends(edges: seq<DependencyEdge>, order: seq<string>, p: seq<string>, k: nat)
      returns (end: nat)
    requires Settled(edges, order) && IsWalk(edges, p)
    requires k < |order| && order[k] == p[0]
    ensures end + |p| - 1 <= k && order[end] == p[|p| - 1]
  {
    if |p| == 1 {
      end := k;
    } else {
      WalkSlice(edges, p, 0, |p| - 1);
      var before := WalkDescends(edges, order, p[..|p| - 1], k);
      assert HasArc(edges, p[|p| - 2], p[|p| - 1]);
      assert p[|p| - 1] in order[..before];
      end :| 0 <= end < before && order[end] == p[|p| - 1];
    }
  }

  lemma SettledWalkIsSimple(edges: seq<DependencyEdge>, order: seq<string>, p: seq<string>)
    requires Settled(edges, order) && Distinct(order)
    requires IsWalk(edges, p) && p[0] in order
    ensures Distinct(p)
  {
    var k :| 0 <= k < |order| && order[k] == p[0];
    forall i, j | 0 <= i < j < |p|
      ensures p[i] != p[j]
    {
      WalkSlice(edges, p, 0, i + 1);
      var ki := WalkDescends(edges, order, p[..i + 1], k);
      WalkSlice(edges, p, i, j + 1);
      var kj := WalkDescends(edges, order, p[i..j + 1], ki);
      assert kj < ki;
    }
  }

  /** An order that settles every source of an edge leaves no room for a cycle. */
  lemma SettledIsAcyclic(edges: seq<DependencyEdge>, order: seq<string>)
    requires Settled(edges, order) && Distinct(order)
    requires forall e :: e in edges ==> e.from in order
    ensures !Cyclic(edges)
  {
    if Cyclic(edges) {
      var p :| IsClosedWalk(edges, p);
      assert HasArc(edges, p[0], p[1]);
      SettledWalkIsSimple(edges, order, p);
      assert false;
    }
  }

  /** Every walk from `id` stays among the known vertices and visits none of them twice. */
  ghost predicate Resolvable(known: set<string>, edges: seq<DependencyEdge>, id: string) {
    forall p :: IsWalk(edges, p) && p[0] == id ==> Distinct(p) && Elements(p) <= known
  }

  lemma SettledIsResolvable(known: set<string>, edges: seq<DependencyEdge>, order: seq<string>, id: string)
    requires Settled(edges, order) && Distinct(order) && Elements(order) <= known
    requires id in order
    ensures Resolvable(known, edges, id)
  {
    forall p | IsWalk(edges, p) && p[0] == id
      ensures Distinct(p) && Elements(p) <= known
    {
      SettledWalkIsSimple(edges, order, p);
      var k :| 0 <= k < |order| && order[k] == id;
      forall i | 0 <= i < |p|
        ensures p[i] in known
      {
        WalkSlice(edges, p, 0, i + 1);
        var end := WalkDescends(edges, order, p[..i + 1], k);
        assert order[end] in Elements(order);
      }
    }
  }

  /** A walk that never meets `order`, of the given length unless it leaves the known vertices before. */
  lemma {:induction false} StuckWalk(known: set<string>, edges: seq<DependencyEdge>, order: seq<string>, id: string,
                                     length: nat)
      returns (p: seq<string>)
    requires id in known && id !in order && length >= 1
    requires forall x :: x in known && x !in order ==> exists y :: y !in order && HasArc(edges, x, y)
    ensures IsWalk(edges, p) && p[0] == id && p[|p| - 1] !in order
    ensures Elements(p) <= known ==> |p| == length
  {
    if length == 1 {
      p := [id];
    } else {
      var shorter := StuckWalk(known, edges, order, id, length - 1);
      if Elements(shorter) <= known {
        var x := shorter[|shorter| - 1];
        assert x in Elements(shorter);
        var y :| y !in order && HasArc(edges, x, y);
        WalkExtend(edges, shorter, y);
        p := shorter + [y];
      } else {
        p := shorter;
      }
    }
  }

  lemma StuckIsUnresolvable(known: set<string>, edges: seq<DependencyEdge>, order: seq<string>, id: string)
    requires id in known && id !in order
    requires forall x :: x in known && x !in order ==> exists y :: y !in order && HasArc(edges, x, y)
    ensures !Resolvable(known, edges, id)
  {
    var p := StuckWalk(known, edges, order, id, |known| + 1);
    if Elements(p) <= known {
      var i, j := Pigeonhole(p, known);
    }
  }
}
