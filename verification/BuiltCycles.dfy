/** When a graph that is built from a snapshot has a cycle. */
module BuiltCycles {
  import opened Sequences
  import opened Snapshot
  import opened Walks
  import opened Graphs
  import opened GraphBuilder
  import opened BuiltGraphs

  // ----- edges between containers -----

  ghost predicate MountsOnce(cs: seq<ContainerInfo>) {
    forall c :: c in cs ==> Distinct(c.volumes)
  }

  ghost predicate DistinctNames(cs: seq<ContainerInfo>) {
    forall a, b :: 0 <= a < b < |cs| ==> cs[a].name != cs[b].name
  }

  lemma {:induction false} UsersInOrder(cs: seq<ContainerInfo>, vol: string, i: nat, j: nat) returns (a: nat, b: nat)
    requires MountsOnce(cs) && IsPair(VolumeUsers(cs, vol), i, j)
    ensures a < b < |cs| && VolumeUsers(cs, vol)[i] == cs[a].name && VolumeUsers(cs, vol)[j] == cs[b].name
    ensures vol in cs[a].volumes && vol in cs[b].volumes
  {
    var front, last := cs[..|cs| - 1], cs[|cs| - 1];
    var users := VolumeUsers(front, vol);
    if j < |users| {
      a, b := UsersInOrder(front, vol, i, j);
    } else {
      assert last in cs;
      MountsName(last.name, last.volumes, vol);
      DistinctMultiplicity(last.volumes, vol);
      var m := Mounts(last.name, last.volumes, vol);
      assert m[j - |users|] in m;
      a := UsersAreContainers(front, vol, i);
      b := |cs| - 1;
    }
  }

  /** A variable of the container asks for a message queue. */
  ghost predicate WantsQueue(c: ContainerInfo) {
    exists name :: name in c.envVarNames && AsksForQueue(name)
  }

  predicate AsksForQueue(name: string) {
    !SuggestsDatabase(name) && !SuggestsCache(name) && SuggestsQueue(name)
  }

  /** `to` is the last node on the first queue's port, and `from` a container that wants the queue. */
  ghost predicate QueueArc(snapshot: ServerSnapshot, nodes: seq<DependencyNode>, from: string, to: string) {
    var port := FirstQueuePort(snapshot.messageQueues);
    && port > 0 && port in PortNodes(nodes) && to == PortNodes(nodes)[port]
    && exists c :: c in Containers(snapshot) && from == ContainerId(c.name) && WantsQueue(c)
  }

  ghost predicate ShareVolume(a: ContainerInfo, b: ContainerInfo) {
    exists vol :: vol in a.volumes && vol in b.volumes
  }

  ghost predicate AreSharers(cs: seq<ContainerInfo>, a: int, b: int, from: string, to: string) {
    0 <= a < b < |cs| && from == ContainerId(cs[a].name) && to == ContainerId(cs[b].name) && ShareVolume(cs[a], cs[b])
  }

  /** An earlier and a later container of the snapshot with a volume in common. */
  ghost predicate SharersInOrder(cs: seq<ContainerInfo>, from: string, to: string) {
    exists a, b :: AreSharers(cs, a, b, from, to)
  }

  /** They share a volume, and the builders before the volume builder have not joined them. */
  ghost predicate ShareArc(snapshot: ServerSnapshot, nodes: seq<DependencyNode>, from: string, to: string) {
    SharersInOrder(Containers(snapshot), from, to) && !Joined(FixedEdges(snapshot, nodes), from, to)
  }

  lemma UserMounts(cs: seq<ContainerInfo>, vol: string, a: nat)
    requires a < |cs| && vol in cs[a].volumes
    ensures Mounts(cs[a].name, cs[a].volumes, vol) != []
  {
    MountsName(cs[a].name, cs[a].volumes, vol);
  }

  /** The users of a volume are listed in the order of the snapshot. */
  lemma {:induction false} UserAt(cs: seq<ContainerInfo>, vol: string, a: nat) returns (i: nat)
    requires a < |cs| && vol in cs[a].volumes
    ensures i < |VolumeUsers(cs, vol)| && VolumeUsers(cs, vol)[i] == cs[a].name
  {
    var front, last := cs[..|cs| - 1], cs[|cs| - 1];
    if a < |front| {
      i := UserAt(front, vol, a);
    } else {
      UserMounts(cs, vol, a);
      MountsName(last.name, last.volumes, vol);
      i := |VolumeUsers(front, vol)|;
      assert Mounts(last.name, last.volumes, vol)[0] in Mounts(last.name, last.volumes, vol);
    }
  }

  lemma {:induction false} SharersPair(cs: seq<ContainerInfo>, vol: string, a: nat, b: nat) returns (i: nat, j: nat)
    requires a < b < |cs| && vol in cs[a].volumes && vol in cs[b].volumes
    ensures IsPair(VolumeUsers(cs, vol), i, j)
    ensures VolumeUsers(cs, vol)[i] == cs[a].name && VolumeUsers(cs, vol)[j] == cs[b].name
  {
    var front, last := cs[..|cs| - 1], cs[|cs| - 1];
    if b < |front| {
      i, j := SharersPair(front, vol, a, b);
    } else {
      i := UserAt(front, vol, a);
      UserMounts(cs, vol, b);
      MountsName(last.name, last.volumes, vol);
      j := |VolumeUsers(front, vol)|;
      assert Mounts(last.name, last.volumes, vol)[0] in Mounts(last.name, last.volumes, vol);
    }
  }

  /** With each volume mounted once, a shared-volume edge goes from an earlier to a later container. */
  lemma SharesInOrder(cs: seq<ContainerInfo>, e: DependencyEdge)
    requires MountsOnce(cs) && SharesFrom(cs, e)
    ensures SharersInOrder(cs, e.from, e.to)
  {
    var vol := e.reason.volume;
    var users := VolumeUsers(cs, vol);
    var i, j :| IsPair(users, i, j) && e.from == ContainerId(users[i]) && e.to == ContainerId(users[j]);
    var a, b := UsersInOrder(cs, vol, i, j);
    assert AreSharers(cs, a, b, e.from, e.to);
  }

  lemma {:induction false} EnvVarLinks(edges: seq<DependencyEdge>, id: string, names: seq<string>, name: string,
                                       to: string,
                                       ports: map<int, string>, dbs: seq<DatabaseInfo>, mqs: seq<MessageQueueInfo>)
    requires name in names && Reaches(to, name, ports, dbs, mqs)
    ensures HasArc(WithEnvVars(edges, id, names, ports, dbs, mqs), id, to)
  {
    var front := WithEnvVars(edges, id, names[..|names| - 1], ports, dbs, mqs);
    var all := WithEnvVars(edges, id, names, ports, dbs, mqs);
    ArcsGrow(front, all);
    if name in names[..|names| - 1] {
      EnvVarLinks(edges, id, names[..|names| - 1], name, to, ports, dbs, mqs);
    } else if !HasArc(front, id, to) {
      assert all[|front|].to == to && all[|front|] in all;
    }
  }

  lemma {:induction false} EnvEdgesLink(edges: seq<DependencyEdge>, cs: seq<ContainerInfo>, c: ContainerInfo,
                                        name: string, to: string,
                                        ports: map<int, string>, dbs: seq<DatabaseInfo>, mqs: seq<MessageQueueInfo>)
    requires c in cs && name in c.envVarNames && Reaches(to, name, ports, dbs, mqs)
    ensures HasArc(WithEnvEdges(edges, cs, ports, dbs, mqs), ContainerId(c.name), to)
  {
    var front, last := cs[..|cs| - 1], cs[|cs| - 1];
    var before := WithEnvEdges(edges, front, ports, dbs, mqs);
    if c in front {
      EnvEdgesLink(edges, front, c, name, to, ports, dbs, mqs);
      EnvVarsGrow(before, ContainerId(last.name), last.envVarNames, ports, dbs, mqs);
      ArcsGrow(before, WithEnvEdges(edges, cs, ports, dbs, mqs));
    } else {
      EnvVarLinks(before, ContainerId(c.name), c.envVarNames, name, to, ports, dbs, mqs);
    }
  }

  /** Every container that wants the queue is joined to its node before volumes are looked at. */
  lemma QueueArcsAreLinked(snapshot: ServerSnapshot, nodes: seq<DependencyNode>, from: string, to: string)
    requires QueueArc(snapshot, nodes, from, to)
    ensures HasArc(FixedEdges(snapshot, nodes), from, to)
  {
    var cs := Containers(snapshot);
    var c :| c in cs && from == ContainerId(c.name) && WantsQueue(c);
    var name :| name in c.envVarNames && AsksForQueue(name);
    assert Reaches(to, name, PortNodes(nodes), snapshot.databases, snapshot.messageQueues);
    EnvEdgesLink(PlainEdges(snapshot, nodes), cs, c, name, to, PortNodes(nodes), snapshot.databases,
      snapshot.messageQueues);
  }

  lemma PlainEdgesLeaveContainers(snapshot: ServerSnapshot, nodes: seq<DependencyNode>, e: DependencyEdge)
    requires e in PlainEdges(snapshot, nodes)
    ensures !(KindOf(e.from) == ContainerKind && KindOf(e.to) == ContainerKind)
  {
    var cs, dbs := Containers(snapshot), snapshot.databases;
    if e in ContainerDatabaseEdges(cs, dbs) {
      ContainerDatabaseJoin(cs, dbs, e);
      var db :| db in dbs && e.to == DatabaseId(db.dbType);
      IdKinds(db.dbType);
    } else if e in NginxContainerEdges(snapshot) {
      NginxContainerJoin(snapshot, e);
      var vh :| vh in VHosts(snapshot) && e.from == NginxId(vh.serverName);
      IdKinds(vh.serverName);
    } else if e in UnitEdges(snapshot.services, Ids(nodes)) {
      UnitEdgesJoin(snapshot.services, Ids(nodes), e);
      var svc :| svc in snapshot.services && e.from == ServiceId(svc.name);
      IdKinds(svc.name);
    } else {
      ServiceDatabaseJoin(snapshot.services, dbs, e);
      var svc :| svc in snapshot.services && e.from == ServiceId(svc.name);
      IdKinds(svc.name);
    }
  }

  /** Of the environment variables, only those for a queue can lead to a container. */
  lemma EnvEdgesAreQueueArcs(snapshot: ServerSnapshot, types: map<string, string>, nodes: seq<DependencyNode>,
                             e: DependencyEdge)
    requires nodes == NodesOf(snapshot, types) && KindOf(e.to) == ContainerKind
    requires EnvAdds(e, Containers(snapshot), PortNodes(nodes), snapshot.databases, snapshot.messageQueues)
    ensures QueueArc(snapshot, nodes, e.from, e.to)
  {
    var cs, dbs, mqs := Containers(snapshot), snapshot.databases, snapshot.messageQueues;
    var c, name :| c in cs && name in c.envVarNames && e.from == ContainerId(c.name)
      && Reaches(e.to, name, PortNodes(nodes), dbs, mqs);
    FirstDatabasePortListens(dbs);
    PortNodeKind(snapshot, types, Resolve(name, dbs, mqs).port);
    assert AsksForQueue(name);
  }

  /** With each volume mounted once, an edge between containers leads to the queue's node, or forward to a container
      that shares a volume and that no environment variable has joined. */
  lemma ContainerArcs(snapshot: ServerSnapshot, types: map<string, string>, nodes: seq<DependencyNode>,
                      edges: seq<DependencyEdge>, from: string, to: string)
    requires BuiltFrom(snapshot, types, nodes, edges) && MountsOnce(Containers(snapshot))
    requires HasArc(edges, from, to) && KindOf(from) == ContainerKind && KindOf(to) == ContainerKind
    ensures QueueArc(snapshot, nodes, from, to) || ShareArc(snapshot, nodes, from, to)
  {
    hide PlainEdges, WalksVolumes, SharersInOrder, QueueArc, SharesFrom;
    var cs, fixedEdges := Containers(snapshot), FixedEdges(snapshot, nodes);
    VolumeWalkAddsShares(fixedEdges, edges, cs);
    var e :| e in edges && e.from == from && e.to == to;
    var k :| 0 <= k < |edges| && edges[k] == e;
    if k < |fixedEdges| {
      assert e == fixedEdges[k];
      EnvEdgesAdd(PlainEdges(snapshot, nodes), cs, cs, PortNodes(nodes), snapshot.databases, snapshot.messageQueues, e);
      if e in PlainEdges(snapshot, nodes) {
        PlainEdgesLeaveContainers(snapshot, nodes, e);
      } else {
        EnvEdgesAreQueueArcs(snapshot, types, nodes, e);
      }
    } else {
      SharesInOrder(cs, e);
      JoinedGrows(fixedEdges, edges[..k]);
    }
  }

  // ----- loops through the queue's container -----

  /** Positions of containers, each one behind the one before it and sharing a volume with it. */
  ghost predicate IsSharePath(cs: seq<ContainerInfo>, p: seq<nat>) {
    && p != [] && (forall i :: 0 <= i < |p| ==> p[i] < |cs|)
    && (forall i :: 0 <= i < |p| - 1 ==> p[i] < p[i + 1] && ShareVolume(cs[p[i]], cs[p[i + 1]]))
  }

  /** From the container on the queue's port over shared volumes to a container that wants the queue; one that wants it
      is not reached in the first step, since these two are joined the other way round. */
  ghost predicate ClosesLoop(snapshot: ServerSnapshot, nodes: seq<DependencyNode>, p: seq<nat>) {
    var cs := Containers(snapshot);
    && IsSharePath(cs, p)
    && QueueArc(snapshot, nodes, ContainerId(cs[p[|p| - 1]].name), ContainerId(cs[p[0]].name))
    && (|p| > 1 ==> !WantsQueue(cs[p[1]]))
  }

  ghost predicate QueueLoop(snapshot: ServerSnapshot, nodes: seq<DependencyNode>) {
    exists p :: ClosesLoop(snapshot, nodes, p)
  }

  lemma {:induction false} PathIncreases(cs: seq<ContainerInfo>, p: seq<nat>, i: nat, j: nat)
    requires IsSharePath(cs, p) && i < j < |p|
    ensures p[i] < p[j]
  {
    if j == i + 1 {
    } else {
      PathIncreases(cs, p, i, j - 1);
    }
  }

  lemma SameContainer(cs: seq<ContainerInfo>, a: nat, b: nat)
    requires DistinctNames(cs) && a < |cs| && b < |cs| && ContainerId(cs[a].name) == ContainerId(cs[b].name)
    ensures a == b
  {
    var prefix := |"container:"|;
    assert ContainerId(cs[a].name)[prefix..] == cs[a].name;
    assert ContainerId(cs[b].name)[prefix..] == cs[b].name;
  }

  lemma SharersOf(cs: seq<ContainerInfo>, from: string, to: string) returns (a: nat, b: nat)
    requires SharersInOrder(cs, from, to)
    ensures AreSharers(cs, a, b, from, to)
  {
    var x: int, y: int :| AreSharers(cs, x, y, from, to);
    a, b := x, y;
  }

  lemma PathStart(cs: seq<ContainerInfo>, a: nat)
    requires a < |cs|
    ensures IsSharePath(cs, [a])
  {
  }

  lemma PathBound(cs: seq<ContainerInfo>, p: seq<nat>, i: nat)
    requires IsSharePath(cs, p) && i < |p|
    ensures p[i] < |cs|
  {
  }

  lemma PathExtend(cs: seq<ContainerInfo>, p: seq<nat>, a: int, b: int, from: string, to: string)
    requires IsSharePath(cs, p) && p[|p| - 1] == a && AreSharers(cs, a, b, from, to)
    ensures IsSharePath(cs, p + [b])
  {
    hide ShareVolume;
  }

  lemma {:induction false} PathOfWalk(cs: seq<ContainerInfo>, w: seq<string>) returns (p: seq<nat>)
    requires DistinctNames(cs) && |w| >= 2
    requires forall i :: 0 <= i < |w| - 1 ==> SharersInOrder(cs, w[i], w[i + 1])
    ensures IsSharePath(cs, p) && |p| == |w|
    ensures forall i :: 0 <= i < |w| ==> p[i] < |cs| && w[i] == ContainerId(cs[p[i]].name)
  {
    hide SharersInOrder, ShareVolume, IsSharePath;
    var n := |w|;
    assert SharersInOrder(cs, w[n - 2], w[n - 2 + 1]);
    var a, b := SharersOf(cs, w[n - 2], w[n - 1]);
    if n == 2 {
      p := [a, b];
      PathStart(cs, a);
      PathExtend(cs, [a], a, b, w[n - 2], w[n - 1]);
      assert [a] + [b] == p;
    } else {
      var front := PathOfWalk(cs, w[..n - 1]);
      PathBound(cs, front, n - 2);
      SameContainer(cs, front[n - 2], a);
      PathExtend(cs, front, a, b, w[n - 2], w[n - 1]);
      p := front + [b];
    }
  }

  /** From the queue's node back to it, with shared volumes up to the last step. */
  lemma LoopOfWalk(snapshot: ServerSnapshot, nodes: seq<DependencyNode>, w: seq<string>)
    requires DistinctNames(Containers(snapshot)) && |w| >= 2 && w[0] == w[|w| - 1]
    requires forall i :: 0 <= i < |w| - 2 ==> ShareArc(snapshot, nodes, w[i], w[i + 1])
    requires QueueArc(snapshot, nodes, w[|w| - 2], w[|w| - 1])
    ensures QueueLoop(snapshot, nodes)
  {
    hide FixedEdges, WantsQueue, ShareVolume, IsSharePath;
    var cs, u := Containers(snapshot), w[..|w| - 1];
    var p: seq<nat>;
    if |u| == 1 {
      var c :| c in cs && w[0] == ContainerId(c.name) && WantsQueue(c);
      var a :| 0 <= a < |cs| && cs[a] == c;
      p := [a];
      PathStart(cs, a);
    } else {
      assert forall i :: 0 <= i < |u| - 1 ==> ShareArc(snapshot, nodes, w[i], w[i + 1]);
      p := PathOfWalk(cs, u);
      assert ShareArc(snapshot, nodes, w[0], w[0 + 1]);
      if WantsQueue(cs[p[1]]) {
        assert QueueArc(snapshot, nodes, w[1], w[0]);
        QueueArcsAreLinked(snapshot, nodes, w[1], w[0]);
        assert false;
      }
    }
    assert ClosesLoop(snapshot, nodes, p);
  }

  ghost predicate ContainerStep(snapshot: ServerSnapshot, nodes: seq<DependencyNode>, from: string, to: string) {
    QueueArc(snapshot, nodes, from, to) || ShareArc(snapshot, nodes, from, to)
  }

  /** Going round twice, there is a stretch from the end of one queue edge to the end of the next. */
  lemma QueueStretch(snapshot: ServerSnapshot, nodes: seq<DependencyNode>, p: seq<string>, m: nat)
    requires DistinctNames(Containers(snapshot)) && |p| >= 2 && p[0] == p[|p| - 1] && m < |p| - 1
    requires forall i :: 0 <= i < |p| - 1 ==> ContainerStep(snapshot, nodes, p[i], p[i + 1])
    requires QueueArc(snapshot, nodes, p[m], p[m + 1])
    ensures QueueLoop(snapshot, nodes)
  {
    hide QueueArc, ShareArc, QueueLoop;
    var n := |p| - 1;
    var q := p[..n] + p;
    forall i | 0 <= i < 2 * n
      ensures ContainerStep(snapshot, nodes, q[i], q[i + 1])
    {
      var j := if i < n then i else i - n;
      assert q[i] == p[j] && q[i + 1] == p[j + 1];
    }
    assert q[m + n] == p[m] && q[m + n + 1] == p[m + 1] && q[m + 1] == p[m + 1];
    var k := m + 1;
    while !QueueArc(snapshot, nodes, q[k], q[k + 1])
      invariant m + 1 <= k <= m + n
      invariant forall i :: m + 1 <= i < k ==> ShareArc(snapshot, nodes, q[i], q[i + 1])
      decreases m + n - k
    {
      assert ContainerStep(snapshot, nodes, q[k], q[k + 1]);
      k := k + 1;
    }
    SameQueueNode(snapshot, nodes, p[m], p[m + 1], q[k], q[k + 1]);
    var w := q[m + 1..k + 2];
    forall i | 0 <= i < |w| - 2
      ensures ShareArc(snapshot, nodes, w[i], w[i + 1])
    {
      assert w[i] == q[m + 1 + i] && w[i + 1] == q[m + 1 + i + 1];
    }
    LoopOfWalk(snapshot, nodes, w);
  }

  lemma SameQueueNode(snapshot: ServerSnapshot, nodes: seq<DependencyNode>, a: string, x: string, b: string, y: string)
    requires QueueArc(snapshot, nodes, a, x) && QueueArc(snapshot, nodes, b, y)
    ensures x == y
  {
  }

  /** A cycle among containers is such a loop. */
  lemma ContainerCycleIsQueueLoop(snapshot: ServerSnapshot, nodes: seq<DependencyNode>, p: seq<string>)
    requires DistinctNames(Containers(snapshot)) && |p| >= 2 && p[0] == p[|p| - 1]
    requires forall i :: 0 <= i < |p| - 1 ==> ContainerStep(snapshot, nodes, p[i], p[i + 1])
    ensures QueueLoop(snapshot, nodes)
  {
    hide QueueArc, FixedEdges, QueueLoop;
    if m :| 0 <= m < |p| - 1 && QueueArc(snapshot, nodes, p[m], p[m + 1]) {
      QueueStretch(snapshot, nodes, p, m);
    } else {
      var cs := Containers(snapshot);
      assert forall i :: 0 <= i < |p| - 1 ==>
             ContainerStep(snapshot, nodes, p[i], p[i + 1]) && ShareArc(snapshot, nodes, p[i], p[i + 1]);
      var path := PathOfWalk(cs, p);
      PathIncreases(cs, path, 0, |path| - 1);
      SameContainer(cs, path[0], path[|path| - 1]);
    }
  }

  /** Two containers of the path that share a volume are joined forward. */
  lemma PathArc(snapshot: ServerSnapshot, types: map<string, string>, nodes: seq<DependencyNode>,
                edges: seq<DependencyEdge>, p: seq<nat>, i: nat)
    requires BuiltFrom(snapshot, types, nodes, edges) && MountsOnce(Containers(snapshot))
             && DistinctNames(Containers(snapshot))
    requires ClosesLoop(snapshot, nodes, p) && i < |p| - 1
    ensures HasArc(edges, ContainerId(Containers(snapshot)[p[i]].name),
            ContainerId(Containers(snapshot)[p[i + 1]].name))
  {
    hide FixedEdges, WalksVolumes, ShareArc;
    var cs := Containers(snapshot);
    var x, y := p[i], p[i + 1];
    var a, b := ContainerId(cs[x].name), ContainerId(cs[y].name);
    var vol :| vol in cs[x].volumes && vol in cs[y].volumes;
    var j, k := SharersPair(cs, vol, x, y);
    VolumeWalkAddsShares(FixedEdges(snapshot, nodes), edges, cs);
    assert PairsJoined(edges, VolumeUsers(cs, vol), |VolumeUsers(cs, vol)|);
    assert Joined(edges, a, b);
    if !HasArc(edges, a, b) {
      IdKinds(cs[x].name);
      IdKinds(cs[y].name);
      ContainerArcs(snapshot, types, nodes, edges, b, a);
      NotBackward(snapshot, nodes, p, i);
    }
  }

  lemma NotBackward(snapshot: ServerSnapshot, nodes: seq<DependencyNode>, p: seq<nat>, i: nat)
    requires DistinctNames(Containers(snapshot)) && ClosesLoop(snapshot, nodes, p) && i < |p| - 1
    ensures var cs := Containers(snapshot);
            var a, b := ContainerId(cs[p[i]].name), ContainerId(cs[p[i + 1]].name);
            !QueueArc(snapshot, nodes, b, a) && !ShareArc(snapshot, nodes, b, a)
  {
    hide FixedEdges, WantsQueue, ShareVolume;
    var cs := Containers(snapshot);
    var a, b := ContainerId(cs[p[i]].name), ContainerId(cs[p[i + 1]].name);
    if QueueArc(snapshot, nodes, b, a) {
      SameContainer(cs, p[i], p[0]);
      if i > 0 {
        PathIncreases(cs, p, 0, i);
      }
      var c :| c in cs && b == ContainerId(c.name) && WantsQueue(c);
      var k :| 0 <= k < |cs| && cs[k] == c;
      SameContainer(cs, k, p[1]);
      assert false;
    }
    if ShareArc(snapshot, nodes, b, a) {
      var x: int, y: int :| AreSharers(cs, x, y, b, a);
      SameContainer(cs, x, p[i + 1]);
      SameContainer(cs, y, p[i]);
      assert false;
    }
  }

  lemma QueueLoopIsCyclic(snapshot: ServerSnapshot, types: map<string, string>, nodes: seq<DependencyNode>,
                          edges: seq<DependencyEdge>)
    requires BuiltFrom(snapshot, types, nodes, edges) && MountsOnce(Containers(snapshot))
             && DistinctNames(Containers(snapshot))
    requires QueueLoop(snapshot, nodes)
    ensures Cyclic(edges)
  {
    hide FixedEdges, WalksVolumes, QueueArc, WantsQueue;
    var cs := Containers(snapshot);
    var p :| ClosesLoop(snapshot, nodes, p);
    var w := seq(|p|, i requires 0 <= i < |p| => ContainerId(cs[p[i]].name));
    forall i | 0 <= i < |w| - 1
      ensures HasArc(edges, w[i], w[i + 1])
    {
      PathArc(snapshot, types, nodes, edges, p, i);
    }
    QueueArcsAreLinked(snapshot, nodes, w[|w| - 1], w[0]);
    VolumeWalkAddsShares(FixedEdges(snapshot, nodes), edges, cs);
    ArcsGrow(FixedEdges(snapshot, nodes), edges);
    WalkExtend(edges, w, w[0]);
    assert IsClosedWalk(edges, w + [w[0]]);
  }

  /** In particular, the container on the queue's port depends on itself as soon as one of its own variables asks for
      the queue. */
  lemma QueueContainerIsCyclic(snapshot: ServerSnapshot, types: map<string, string>, nodes: seq<DependencyNode>,
                               edges: seq<DependencyEdge>, id: string)
    requires BuiltFrom(snapshot, types, nodes, edges) && QueueArc(snapshot, nodes, id, id)
    ensures Cyclic(edges)
  {
    hide FixedEdges, WalksVolumes, QueueArc;
    QueueArcsAreLinked(snapshot, nodes, id, id);
    VolumeWalkAddsShares(FixedEdges(snapshot, nodes), edges, Containers(snapshot));
    ArcsGrow(FixedEdges(snapshot, nodes), edges);
    SelfEdgeIsCyclic(edges, id);
  }

  /** Without a message queue that listens there is no such loop. */
  lemma NoQueueNoLoop(snapshot: ServerSnapshot, nodes: seq<DependencyNode>)
    requires forall mq :: mq in snapshot.messageQueues ==> mq.port <= 0
    ensures !QueueLoop(snapshot, nodes)
  {
    NoQueuePort(snapshot.messageQueues);
  }

  lemma {:induction false} NoQueuePort(mqs: seq<MessageQueueInfo>)
    requires forall mq :: mq in mqs ==> mq.port <= 0
    ensures FirstQueuePort(mqs) == 0
  {
    if mqs == [] {
    } else {
      assert mqs[0] in mqs;
      NoQueuePort(mqs[1..]);
    }
  }

  // ----- services -----

  /** Edges between services are exactly the After/Requires edges. */
  lemma ServiceEdgesAreUnitEdges(snapshot: ServerSnapshot, types: map<string, string>, nodes: seq<DependencyNode>,
                                 edges: seq<DependencyEdge>, e: DependencyEdge)
    requires BuiltFrom(snapshot, types, nodes, edges) && e in edges
    requires KindOf(e.from) == ServiceKind && KindOf(e.to) == ServiceKind
    ensures e in UnitEdges(snapshot.services, Ids(nodes))
  {
    var cs, dbs, mqs := Containers(snapshot), snapshot.databases, snapshot.messageQueues;
    EdgeOrigin(snapshot, types, nodes, edges, e);
    if e in ContainerDatabaseEdges(cs, dbs) {
      ContainerDatabaseJoin(cs, dbs, e);
      var c :| c in cs && e.from == ContainerId(c.name);
      IdKinds(c.name);
    } else if e in NginxContainerEdges(snapshot) {
      NginxContainerJoin(snapshot, e);
      var vh :| vh in VHosts(snapshot) && e.from == NginxId(vh.serverName);
      IdKinds(vh.serverName);
    } else if e in UnitEdges(snapshot.services, Ids(nodes)) {
    } else if e in ServiceDatabaseEdges(snapshot.services, dbs) {
      ServiceDatabaseJoin(snapshot.services, dbs, e);
      var db :| db in dbs && e.to == DatabaseId(db.dbType);
      IdKinds(db.dbType);
    } else if EnvAdds(e, cs, PortNodes(nodes), dbs, mqs) {
      var c :| c in cs && e.from == ContainerId(c.name);
      IdKinds(c.name);
    } else {
      SharesJoin(snapshot, types, e);
    }
  }

  lemma UnitEdgesAreEdges(snapshot: ServerSnapshot, types: map<string, string>, nodes: seq<DependencyNode>,
                          edges: seq<DependencyEdge>)
    requires BuiltFrom(snapshot, types, nodes, edges)
    ensures forall e :: e in UnitEdges(snapshot.services, Ids(nodes)) ==> e in edges
  {
    var plain, fixedEdges := PlainEdges(snapshot, nodes), FixedEdges(snapshot, nodes);
    EnvEdgesGrow(plain, Containers(snapshot), PortNodes(nodes), snapshot.databases, snapshot.messageQueues);
    VolumeWalkAddsShares(fixedEdges, edges, Containers(snapshot));
    forall e | e in UnitEdges(snapshot.services, Ids(nodes))
      ensures e in edges
    {
      assert e in plain;
      var k :| 0 <= k < |plain| && plain[k] == e;
      assert fixedEdges[k] == e && edges[k] == e;
    }
  }

  /** A name mounted twice by one container appears twice among the users of the volume. */
  lemma {:induction false} DoubleMountUsers(cs: seq<ContainerInfo>, c: ContainerInfo, vol: string)
      returns (i: nat, j: nat)
    requires c in cs && multiset(c.volumes)[vol] >= 2
    ensures IsPair(VolumeUsers(cs, vol), i, j) && VolumeUsers(cs, vol)[i] == c.name && VolumeUsers(cs, vol)[j] == c.name
  {
    var front, last := cs[..|cs| - 1], cs[|cs| - 1];
    if c in front {
      i, j := DoubleMountUsers(front, c, vol);
    } else {
      assert cs == front + [last] && c == last;
      MountsName(c.name, c.volumes, vol);
      var m := Mounts(c.name, c.volumes, vol);
      i, j := |VolumeUsers(front, vol)|, |VolumeUsers(front, vol)| + 1;
      assert m[0] in m && m[1] in m;
    }
  }

  lemma ListedTwice(volumes: seq<string>) returns (vol: string)
    requires !Distinct(volumes)
    ensures multiset(volumes)[vol] >= 2
  {
    var x, y :| 0 <= x < y < |volumes| && volumes[x] == volumes[y];
    vol := volumes[x];
    var front, back := volumes[..x + 1], volumes[x + 1..];
    assert volumes == front + back;
    assert front[x] == vol && back[y - x - 1] == vol;
    assert vol in front && vol in back;
  }

  lemma DoubleMountIsCyclic(snapshot: ServerSnapshot, types: map<string, string>, nodes: seq<DependencyNode>,
                            edges: seq<DependencyEdge>)
    requires BuiltFrom(snapshot, types, nodes, edges) && !MountsOnce(Containers(snapshot))
    ensures Cyclic(edges)
  {
    hide FixedEdges, SharesFrom;
    var cs := Containers(snapshot);
    var c :| c in cs && !Distinct(c.volumes);
    var vol := ListedTwice(c.volumes);
    var i, j := DoubleMountUsers(cs, c, vol);
    VolumeWalkAddsShares(FixedEdges(snapshot, nodes), edges, cs);
    assert PairsJoined(edges, VolumeUsers(cs, vol), |VolumeUsers(cs, vol)|);
    SelfEdgeIsCyclic(edges, ContainerId(c.name));
  }

  lemma SelfEdgeIsCyclic(edges: seq<DependencyEdge>, id: string)
    requires HasArc(edges, id, id)
    ensures Cyclic(edges)
  {
    assert IsClosedWalk(edges, [id, id]);
  }

  // ----- cycles -----

  /** Without double mounts and queue loops, every cycle is a cycle of After/Requires directives. */
  lemma CyclesAreServiceCycles(snapshot: ServerSnapshot, types: map<string, string>, nodes: seq<DependencyNode>,
                               edges: seq<DependencyEdge>, p: seq<string>)
    requires BuiltFrom(snapshot, types, nodes, edges) && !QueueLoop(snapshot, nodes)
    requires MountsOnce(Containers(snapshot)) && DistinctNames(Containers(snapshot))
    requires IsClosedWalk(edges, p)
    ensures IsClosedWalk(UnitEdges(snapshot.services, Ids(nodes)), p)
  {
    hide BuiltFrom, QueueLoop, QueueArc, ShareArc, MountsOnce, DistinctNames;
    CyclesStayInOneKind(snapshot, types, nodes, edges, p);
    if KindOf(p[0]) == ContainerKind {
      forall i | 0 <= i < |p| - 1
        ensures ContainerStep(snapshot, nodes, p[i], p[i + 1])
      {
        assert HasArc(edges, p[i], p[i + 1]);
        ContainerArcs(snapshot, types, nodes, edges, p[i], p[i + 1]);
      }
      ContainerCycleIsQueueLoop(snapshot, nodes, p);
      assert false;
    }
    forall i | 0 <= i < |p| - 1
      ensures HasArc(UnitEdges(snapshot.services, Ids(nodes)), p[i], p[i + 1])
    {
      assert HasArc(edges, p[i], p[i + 1]);
      var e :| e in edges && e.from == p[i] && e.to == p[i + 1];
      ServiceEdgesAreUnitEdges(snapshot, types, nodes, edges, e);
    }
  }

  lemma DistinctIdsDistinctNames(snapshot: ServerSnapshot, types: map<string, string>)
    requires Distinct(Ids(NodesOf(snapshot, types)))
    ensures DistinctNames(Containers(snapshot))
  {
    var cs, nodes := Containers(snapshot), NodesOf(snapshot, types);
    forall a, b | 0 <= a < b < |cs|
      ensures cs[a].name != cs[b].name
    {
      assert nodes[a] == ContainerNodes(cs, types)[a] && nodes[b] == ContainerNodes(cs, types)[b];
      assert Ids(nodes)[a] != Ids(nodes)[b];
    }
  }

  lemma UnitCycleIsCyclic(snapshot: ServerSnapshot, types: map<string, string>, nodes: seq<DependencyNode>,
                          edges: seq<DependencyEdge>)
    requires BuiltFrom(snapshot, types, nodes, edges) && Cyclic(UnitEdges(snapshot.services, Ids(nodes)))
    ensures Cyclic(edges)
  {
    var units := UnitEdges(snapshot.services, Ids(nodes));
    UnitEdgesAreEdges(snapshot, types, nodes, edges);
    var p :| IsClosedWalk(units, p);
    forall i | 0 <= i < |p| - 1
      ensures HasArc(edges, p[i], p[i + 1])
    {
      assert HasArc(units, p[i], p[i + 1]);
    }
    assert IsClosedWalk(edges, p);
  }

  /** What makes a snapshot's graph cyclic, in whatever order the volumes are walked. */
  ghost predicate HasLoop(snapshot: ServerSnapshot, types: map<string, string>) {
    var nodes := NodesOf(snapshot, types);
    !MountsOnce(Containers(snapshot)) || QueueLoop(snapshot, nodes) || Cyclic(UnitEdges(snapshot.services, Ids(nodes)))
  }

  /** The exact condition for a cycle in a graph built from distinct ids. */
  lemma BuiltGraphCyclic(snapshot: ServerSnapshot, types: map<string, string>, nodes: seq<DependencyNode>,
                         edges: seq<DependencyEdge>)
    requires BuiltFrom(snapshot, types, nodes, edges) && Distinct(Ids(nodes))
    ensures Cyclic(edges) <==> HasLoop(snapshot, types)
  {
    hide WalksVolumes, NodesOf, UnitEdges, MountsOnce, QueueLoop, DistinctNames;
    DistinctIdsDistinctNames(snapshot, types);
    if !MountsOnce(Containers(snapshot)) {
      DoubleMountIsCyclic(snapshot, types, nodes, edges);
    } else if QueueLoop(snapshot, nodes) {
      QueueLoopIsCyclic(snapshot, types, nodes, edges);
    } else if Cyclic(UnitEdges(snapshot.services, Ids(nodes))) {
      UnitCycleIsCyclic(snapshot, types, nodes, edges);
    } else if Cyclic(edges) {
      var p :| IsClosedWalk(edges, p);
      CyclesAreServiceCycles(snapshot, types, nodes, edges, p);
    }
  }

  /** Building the graph of a snapshot and ordering it: when this fails depends on the snapshot alone, and otherwise
      the nodes come with dependencies first. */
  method OrderOf(snapshot: ServerSnapshot, types: map<string, string>)
      returns (g: DependencyGraph, r: Result<seq<DependencyNode>, SortError>)
    ensures BuiltFrom(snapshot, types, g.nodes, g.edges)
    ensures r.Err? <==> !Distinct(Ids(NodesOf(snapshot, types))) || HasLoop(snapshot, types)
    ensures r.Ok? ==> multiset(r.value) == multiset(g.nodes) && DependenciesFirst(g.edges, Ids(r.value))
  {
    hide WalksVolumes, NodesOf, HasLoop, EndpointsKnown, Cyclic, DependenciesFirst;
    g := BuildDependencyGraph(Some(snapshot), types);
    r := g.MigrationOrder();
    BuiltEndpointsKnown(snapshot, types, g.nodes, g.edges);
    if Distinct(Ids(g.nodes)) {
      BuiltGraphCyclic(snapshot, types, g.nodes, g.edges);
    }
  }
}
