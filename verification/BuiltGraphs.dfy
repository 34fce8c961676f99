/** What holds of every graph that can be built from a snapshot, in whatever order the
    volume map is walked. */
module BuiltGraphs {
  import opened Sequences
  import opened Text
  import opened Snapshot
  import opened Walks
  import opened Graphs
  import opened GraphBuilder

  datatype NodeKind = ContainerKind | DatabaseKind | ServiceKind | NginxKind | OtherKind

  function KindOf(id: string): NodeKind {
    if "container:" <= id then ContainerKind
    else if "database:" <= id then DatabaseKind
    else if "service:" <= id then ServiceKind
    else if "nginx:" <= id then NginxKind
    else OtherKind
  }

  /** The pairs of kinds an edge may join. */
  predicate KindsAllowed(from: NodeKind, to: NodeKind) {
    match from
    case ContainerKind => to == DatabaseKind || to == ContainerKind
    case NginxKind => to == ContainerKind
    case ServiceKind => to == ServiceKind || to == DatabaseKind
    case _ => false
  }

  ghost predicate Joins(e: DependencyEdge, ids: seq<string>, from: NodeKind, to: NodeKind) {
    e.from in ids && e.to in ids && KindOf(e.from) == from && KindOf(e.to) == to
  }

  /** An edge that one environment variable of one container adds. */
  ghost predicate EnvAdds(e: DependencyEdge, cs: seq<ContainerInfo>, ports: map<int, string>,
                          dbs: seq<DatabaseInfo>, mqs: seq<MessageQueueInfo>) {
    exists c, name :: c in cs && name in c.envVarNames && e.from == ContainerId(c.name)
      && Reaches(e.to, name, ports, dbs, mqs)
  }

  ghost predicate Reaches(to: string, name: string, ports: map<int, string>, dbs: seq<DatabaseInfo>,
                          mqs: seq<MessageQueueInfo>) {
    var target := Resolve(name, dbs, mqs);
    target.Target? && target.port in ports && to == ports[target.port]
  }

  // ----- where the ids of the nodes come from -----

  lemma IdKinds(name: string)
    ensures KindOf(ContainerId(name)) == ContainerKind && KindOf(DatabaseId(name)) == DatabaseKind
    ensures KindOf(ServiceId(name)) == ServiceKind && KindOf(NginxId(name)) == NginxKind
  {
    assert ContainerId(name)[0] == 'c' && DatabaseId(name)[0] == 'd' && ServiceId(name)[0] == 's'
           && NginxId(name)[0] == 'n';
    assert "container:"[0] == 'c' && "database:"[0] == 'd' && "service:"[0] == 's' && "nginx:"[0] == 'n';
  }

  lemma NodeIds(snapshot: ServerSnapshot, types: map<string, string>)
    ensures var ids := Ids(NodesOf(snapshot, types));
            && (forall c :: c in Containers(snapshot) ==> ContainerId(c.name) in ids)
            && (forall db :: db in snapshot.databases ==> DatabaseId(db.dbType) in ids)
            && (forall svc :: svc in snapshot.services ==> ServiceId(svc.name) in ids)
            && (forall vh :: vh in VHosts(snapshot) ==> NginxId(vh.serverName) in ids)
  {
    var nodes := NodesOf(snapshot, types);
    var ids := Ids(nodes);
    var cs, dbs, svcs, vhs := Containers(snapshot), snapshot.databases, snapshot.services, VHosts(snapshot);
    forall c | c in cs
      ensures ContainerId(c.name) in ids
    {
      var i :| 0 <= i < |cs| && cs[i] == c;
      assert nodes[i] == ContainerNodes(cs, types)[i];
      assert ids[i] == ContainerId(c.name);
    }
    forall db | db in dbs
      ensures DatabaseId(db.dbType) in ids
    {
      var i :| 0 <= i < |dbs| && dbs[i] == db;
      assert nodes[|cs| + i] == DatabaseNodes(dbs, types)[i];
      assert ids[|cs| + i] == DatabaseId(db.dbType);
    }
    forall svc | svc in svcs
      ensures ServiceId(svc.name) in ids
    {
      var i :| 0 <= i < |svcs| && svcs[i] == svc;
      assert nodes[|cs| + |dbs| + i] == ServiceNodes(svcs, types)[i];
      assert ids[|cs| + |dbs| + i] == ServiceId(svc.name);
    }
    forall vh | vh in vhs
      ensures NginxId(vh.serverName) in ids
    {
      var i :| 0 <= i < |vhs| && vhs[i] == vh;
      assert nodes[|cs| + |dbs| + |svcs| + i] == NginxNodes(vhs, types)[i];
      assert ids[|cs| + |dbs| + |svcs| + i] == NginxId(vh.serverName);
    }
  }

  // ----- the edges of each builder -----

  lemma {:induction false} PortMatchesJoin(c: ContainerInfo, pm: PortMapping, dbs: seq<DatabaseInfo>, e: DependencyEdge)
    requires e in PortMatches(c, pm, dbs)
    ensures e.from == ContainerId(c.name) && exists db :: db in dbs && e.to == DatabaseId(db.dbType)
  {
    if e in PortMatches(c, pm, dbs[..|dbs| - 1]) {
      PortMatchesJoin(c, pm, dbs[..|dbs| - 1], e);
    } else {
      assert dbs[|dbs| - 1] in dbs;
    }
  }

  lemma {:induction false} ContainerMatchesJoin(c: ContainerInfo, ports: seq<PortMapping>, dbs: seq<DatabaseInfo>,
                                                e: DependencyEdge)
    requires e in ContainerMatches(c, ports, dbs)
    ensures e.from == ContainerId(c.name) && exists db :: db in dbs && e.to == DatabaseId(db.dbType)
  {
    if e in ContainerMatches(c, ports[..|ports| - 1], dbs) {
      ContainerMatchesJoin(c, ports[..|ports| - 1], dbs, e);
    } else {
      PortMatchesJoin(c, ports[|ports| - 1], dbs, e);
    }
  }

  lemma {:induction false} ContainerDatabaseJoin(cs: seq<ContainerInfo>, dbs: seq<DatabaseInfo>, e: DependencyEdge)
    requires e in ContainerDatabaseEdges(cs, dbs)
    ensures exists c, db :: c in cs && db in dbs && e.from == ContainerId(c.name) && e.to == DatabaseId(db.dbType)
  {
    var last := cs[|cs| - 1];
    if e in ContainerDatabaseEdges(cs[..|cs| - 1], dbs) {
      ContainerDatabaseJoin(cs[..|cs| - 1], dbs, e);
    } else {
      ContainerMatchesJoin(last, last.ports, dbs, e);
      assert last in cs;
    }
  }

  ghost predicate OwnersNamed(owners: map<int, string>, cs: seq<ContainerInfo>) {
    forall port :: port in owners ==> exists c :: c in cs && c.name == owners[port]
  }

  lemma {:induction false} PortOwnersNamed(owners: map<int, string>, c: ContainerInfo, ports: seq<PortMapping>,
                                           cs: seq<ContainerInfo>)
    requires OwnersNamed(owners, cs) && c in cs
    ensures OwnersNamed(PortOwners(owners, c.name, ports), cs)
  {
    if ports == [] {
    } else {
      PortOwnersNamed(owners, c, ports[..|ports| - 1], cs);
    }
  }

  lemma {:induction false} HostPortsNamed(cs: seq<ContainerInfo>)
    ensures OwnersNamed(HostPorts(cs), cs)
  {
    if cs == [] {
    } else {
      var front := cs[..|cs| - 1];
      HostPortsNamed(front);
      assert OwnersNamed(HostPorts(front), cs) by {
        assert forall c :: c in front ==> c in cs;
      }
      PortOwnersNamed(HostPorts(front), cs[|cs| - 1], cs[|cs| - 1].ports, cs);
    }
  }

  ghost predicate FromVHost(e: DependencyEdge, vhs: seq<NginxVHost>, owners: map<int, string>) {
    && (exists vh :: vh in vhs && e.from == NginxId(vh.serverName))
    && (exists port :: port in owners && e.to == ContainerId(owners[port]))
  }

  lemma {:induction false} ProxyEdgesJoin(vhs: seq<NginxVHost>, owners: map<int, string>, e: DependencyEdge)
    requires e in ProxyEdges(vhs, owners)
    ensures FromVHost(e, vhs, owners)
  {
    if e in ProxyEdges(vhs[..|vhs| - 1], owners) {
      ProxyEdgesJoin(vhs[..|vhs| - 1], owners, e);
    } else {
      assert vhs[|vhs| - 1] in vhs;
    }
  }

  lemma {:induction false} UpstreamUsersJoin(upstream: string, port: int, vhs: seq<NginxVHost>,
                                             owners: map<int, string>, e: DependencyEdge)
    requires port in owners && e in UpstreamUsers(upstream, port, owners[port], vhs)
    ensures FromVHost(e, vhs, owners)
  {
    if e in UpstreamUsers(upstream, port, owners[port], vhs[..|vhs| - 1]) {
      UpstreamUsersJoin(upstream, port, vhs[..|vhs| - 1], owners, e);
    } else {
      assert vhs[|vhs| - 1] in vhs;
    }
  }

  lemma {:induction false} AddressEdgesJoin(upstream: string, addresses: seq<string>, vhs: seq<NginxVHost>,
                                            owners: map<int, string>, e: DependencyEdge)
    requires e in AddressEdges(upstream, addresses, vhs, owners)
    ensures FromVHost(e, vhs, owners)
  {
    if e in AddressEdges(upstream, addresses[..|addresses| - 1], vhs, owners) {
      AddressEdgesJoin(upstream, addresses[..|addresses| - 1], vhs, owners, e);
    } else {
      UpstreamUsersJoin(upstream, ExtractPortFromAddress(addresses[|addresses| - 1]), vhs, owners, e);
    }
  }

  lemma {:induction false} UpstreamEdgesJoin(upstreams: seq<UpstreamConfig>, vhs: seq<NginxVHost>,
                                             owners: map<int, string>, e: DependencyEdge)
    requires e in UpstreamEdges(upstreams, vhs, owners)
    ensures FromVHost(e, vhs, owners)
  {
    if e in UpstreamEdges(upstreams[..|upstreams| - 1], vhs, owners) {
      UpstreamEdgesJoin(upstreams[..|upstreams| - 1], vhs, owners, e);
    } else {
      var up := upstreams[|upstreams| - 1];
      AddressEdgesJoin(up.name, up.addresses, vhs, owners, e);
    }
  }

  lemma NginxContainerJoin(snapshot: ServerSnapshot, e: DependencyEdge)
    requires e in NginxContainerEdges(snapshot)
    ensures exists vh :: vh in VHosts(snapshot) && e.from == NginxId(vh.serverName)
    ensures exists c :: c in Containers(snapshot) && e.to == ContainerId(c.name)
  {
    var vhs := VHosts(snapshot);
    var owners := HostPorts(snapshot.docker.value);
    if e in ProxyEdges(vhs, owners) {
      ProxyEdgesJoin(vhs, owners, e);
    } else {
      UpstreamEdgesJoin(snapshot.nginx.value.upstreams, vhs, owners, e);
    }
    HostPortsNamed(snapshot.docker.value);
  }

  lemma {:induction false} DependsOnJoin(svc: string, deps: seq<string>, ids: seq<string>, e: DependencyEdge)
    requires e in DependsOnEdges(svc, deps, ids)
    ensures e.from == ServiceId(svc) && e.to in ids && exists dep :: dep in deps && e.to == ServiceId(dep)
  {
    if e in DependsOnEdges(svc, deps[..|deps| - 1], ids) {
      DependsOnJoin(svc, deps[..|deps| - 1], ids, e);
    } else {
      assert deps[|deps| - 1] in deps;
    }
  }

  lemma {:induction false} UnitEdgesJoin(svcs: seq<SystemService>, ids: seq<string>, e: DependencyEdge)
    requires e in UnitEdges(svcs, ids)
    ensures e.to in ids
    ensures exists svc, dep ::
              svc in svcs && dep in svc.dependsOn && e.from == ServiceId(svc.name) && e.to == ServiceId(dep)
  {
    var last := svcs[|svcs| - 1];
    if e in UnitEdges(svcs[..|svcs| - 1], ids) {
      UnitEdgesJoin(svcs[..|svcs| - 1], ids, e);
    } else {
      DependsOnJoin(last.name, last.dependsOn, ids, e);
      assert last in svcs;
    }
  }

  lemma {:induction false} NamedDatabasesJoin(svc: string, dbs: seq<DatabaseInfo>, e: DependencyEdge)
    requires e in NamedDatabases(svc, dbs)
    ensures e.from == ServiceId(svc) && exists db :: db in dbs && e.to == DatabaseId(db.dbType)
  {
    if e in NamedDatabases(svc, dbs[..|dbs| - 1]) {
      NamedDatabasesJoin(svc, dbs[..|dbs| - 1], e);
    } else {
      assert dbs[|dbs| - 1] in dbs;
    }
  }

  lemma {:induction false} ServiceDatabaseJoin(svcs: seq<SystemService>, dbs: seq<DatabaseInfo>, e: DependencyEdge)
    requires e in ServiceDatabaseEdges(svcs, dbs)
    ensures exists svc, db :: svc in svcs && db in dbs && e.from == ServiceId(svc.name) && e.to == DatabaseId(db.dbType)
  {
    var last := svcs[|svcs| - 1];
    if e in ServiceDatabaseEdges(svcs[..|svcs| - 1], dbs) {
      ServiceDatabaseJoin(svcs[..|svcs| - 1], dbs, e);
    } else {
      NamedDatabasesJoin(last.name, dbs, e);
      assert last in svcs;
    }
  }

  lemma {:induction false} EnvVarsAdd(edges: seq<DependencyEdge>, c: ContainerInfo, names: seq<string>,
                                      cs: seq<ContainerInfo>,
                                      ports: map<int, string>, dbs: seq<DatabaseInfo>, mqs: seq<MessageQueueInfo>,
                                      e: DependencyEdge)
    requires c in cs && Elements(names) <= Elements(c.envVarNames)
    requires e in WithEnvVars(edges, ContainerId(c.name), names, ports, dbs, mqs)
    ensures e in edges || EnvAdds(e, cs, ports, dbs, mqs)
  {
    if names == [] {
    } else {
      var front, name := names[..|names| - 1], names[|names| - 1];
      assert forall n :: n in front ==> n in names;
      if e in WithEnvVars(edges, ContainerId(c.name), front, ports, dbs, mqs) {
        EnvVarsAdd(edges, c, front, cs, ports, dbs, mqs, e);
      } else {
        assert name in Elements(names);
        assert name in c.envVarNames && Reaches(e.to, name, ports, dbs, mqs);
      }
    }
  }

  lemma {:induction false} EnvEdgesAdd(edges: seq<DependencyEdge>, some: seq<ContainerInfo>, cs: seq<ContainerInfo>,
                                       ports: map<int, string>, dbs: seq<DatabaseInfo>, mqs: seq<MessageQueueInfo>,
                                       e: DependencyEdge)
    requires some <= cs
    requires e in WithEnvEdges(edges, some, ports, dbs, mqs)
    ensures e in edges || EnvAdds(e, cs, ports, dbs, mqs)
  {
    if some == [] {
    } else {
      var front, c := some[..|some| - 1], some[|some| - 1];
      assert c == cs[|some| - 1];
      EnvVarsAdd(WithEnvEdges(edges, front, ports, dbs, mqs), c, c.envVarNames, cs, ports, dbs, mqs, e);
      if e in WithEnvEdges(edges, front, ports, dbs, mqs) {
        EnvEdgesAdd(edges, front, cs, ports, dbs, mqs, e);
      }
    }
  }

  /** The builders only append. */
  lemma {:induction false} EnvVarsGrow(edges: seq<DependencyEdge>, id: string, names: seq<string>,
                                       ports: map<int, string>,
                                       dbs: seq<DatabaseInfo>, mqs: seq<MessageQueueInfo>)
    ensures edges <= WithEnvVars(edges, id, names, ports, dbs, mqs)
  {
    if names == [] {
    } else {
      EnvVarsGrow(edges, id, names[..|names| - 1], ports, dbs, mqs);
    }
  }

  lemma {:induction false} EnvEdgesGrow(edges: seq<DependencyEdge>, cs: seq<ContainerInfo>, ports: map<int, string>,
                                        dbs: seq<DatabaseInfo>, mqs: seq<MessageQueueInfo>)
    ensures edges <= WithEnvEdges(edges, cs, ports, dbs, mqs)
  {
    if cs == [] {
    } else {
      var front := cs[..|cs| - 1];
      EnvEdgesGrow(edges, front, ports, dbs, mqs);
      EnvVarsGrow(WithEnvEdges(edges, front, ports, dbs, mqs), ContainerId(cs[|cs| - 1].name), cs[|cs| - 1].envVarNames,
        ports, dbs, mqs);
    }
  }

  // ----- which node a port stands for -----

  lemma {:induction false} PortNodesOfBoth(a: seq<DependencyNode>, b: seq<DependencyNode>)
    ensures PortNodes(a + b) == PortNodes(a) + PortNodes(b)
  {
    if b == [] {
      assert a + b == a;
    } else {
      var front := b[..|b| - 1];
      assert (a + b)[..|a + b| - 1] == a + front;
      PortNodesOfBoth(a, front);
    }
  }

  lemma {:induction false} PortNodesAreNodes(nodes: seq<DependencyNode>, port: int)
    ensures port in PortNodes(nodes) <==> port > 0 && exists n :: n in nodes && n.port == port
    ensures port in PortNodes(nodes) ==> exists n :: n in nodes && n.port == port && n.id == PortNodes(nodes)[port]
  {
    if nodes == [] {
    } else {
      var last := nodes[|nodes| - 1];
      assert nodes == nodes[..|nodes| - 1] + [last];
      PortNodesAreNodes(nodes[..|nodes| - 1], port);
    }
  }

  lemma {:induction false} PortlessNodes(nodes: seq<DependencyNode>)
    requires forall n :: n in nodes ==> n.port <= 0
    ensures PortNodes(nodes) == map[]
  {
    if nodes == [] {
    } else {
      var front := nodes[..|nodes| - 1];
      assert nodes == front + [nodes[|nodes| - 1]];
      PortlessNodes(front);
    }
  }

  /** Only containers and databases have ports, and databases come later. */
  lemma PortNodesOfSnapshot(snapshot: ServerSnapshot, types: map<string, string>)
    ensures PortNodes(NodesOf(snapshot, types))
            == PortNodes(ContainerNodes(Containers(snapshot), types))
              + PortNodes(DatabaseNodes(snapshot.databases, types))
  {
    var cs, dbs, svcs, vhs := ContainerNodes(Containers(snapshot), types), DatabaseNodes(snapshot.databases, types),
                              ServiceNodes(snapshot.services, types), NginxNodes(VHosts(snapshot), types);
    PortNodesOfBoth(cs + dbs + svcs, vhs);
    PortNodesOfBoth(cs + dbs, svcs);
    PortNodesOfBoth(cs, dbs);
    PortlessNodes(svcs);
    PortlessNodes(vhs);
  }

  lemma ContainerPortKind(cs: seq<ContainerInfo>, types: map<string, string>, port: int)
    requires port in PortNodes(ContainerNodes(cs, types))
    ensures KindOf(PortNodes(ContainerNodes(cs, types))[port]) == ContainerKind
    ensures exists c :: c in cs && PortNodes(ContainerNodes(cs, types))[port] == ContainerId(c.name)
  {
    var nodes := ContainerNodes(cs, types);
    PortNodesAreNodes(nodes, port);
    var n :| n in nodes && n.id == PortNodes(nodes)[port];
    var i :| 0 <= i < |nodes| && nodes[i] == n;
    assert cs[i] in cs;
    IdKinds(cs[i].name);
  }

  lemma DatabasePortKind(dbs: seq<DatabaseInfo>, types: map<string, string>, port: int)
    requires port in PortNodes(DatabaseNodes(dbs, types))
    ensures KindOf(PortNodes(DatabaseNodes(dbs, types))[port]) == DatabaseKind
    ensures exists db :: db in dbs && PortNodes(DatabaseNodes(dbs, types))[port] == DatabaseId(db.dbType)
  {
    var nodes := DatabaseNodes(dbs, types);
    PortNodesAreNodes(nodes, port);
    var n :| n in nodes && n.id == PortNodes(nodes)[port];
    var i :| 0 <= i < |nodes| && nodes[i] == n;
    assert dbs[i] in dbs;
    IdKinds(dbs[i].dbType);
  }

  /** A port in the map names a container or a database, and a database when a database listens on it. */
  lemma PortNodeKind(snapshot: ServerSnapshot, types: map<string, string>, port: int)
    requires port in PortNodes(NodesOf(snapshot, types))
    ensures var id := PortNodes(NodesOf(snapshot, types))[port];
            && id in Ids(NodesOf(snapshot, types))
            && (KindOf(id) == ContainerKind || KindOf(id) == DatabaseKind)
            && ((exists db :: db in snapshot.databases && db.port == port) ==> KindOf(id) == DatabaseKind)
  {
    var dbs := DatabaseNodes(snapshot.databases, types);
    PortNodesOfSnapshot(snapshot, types);
    NodeIds(snapshot, types);
    if port in PortNodes(dbs) {
      DatabasePortKind(snapshot.databases, types, port);
    } else {
      ContainerPortKind(Containers(snapshot), types, port);
      PortNodesAreNodes(NodesOf(snapshot, types), port);
      PortNodesAreNodes(dbs, port);
      forall db | db in snapshot.databases
        ensures db.port != port
      {
        var i :| 0 <= i < |dbs| && snapshot.databases[i] == db;
        assert dbs[i] in dbs && dbs[i].port == db.port;
      }
    }
  }

  lemma {:induction false} FirstDatabasePortListens(dbs: seq<DatabaseInfo>)
    ensures FirstDatabasePort(dbs) > 0 ==> exists db :: db in dbs && db.port == FirstDatabasePort(dbs)
    ensures FirstRedisPort(dbs) > 0 ==> exists db :: db in dbs && db.port == FirstRedisPort(dbs)
  {
    if dbs == [] {
    } else {
      FirstDatabasePortListens(dbs[1..]);
      assert dbs[0] in dbs;
    }
  }

  // ----- every edge, by origin -----

  ghost predicate Origin(snapshot: ServerSnapshot, nodes: seq<DependencyNode>, e: DependencyEdge) {
    || e in ContainerDatabaseEdges(Containers(snapshot), snapshot.databases)
    || e in NginxContainerEdges(snapshot)
    || e in UnitEdges(snapshot.services, Ids(nodes))
    || e in ServiceDatabaseEdges(snapshot.services, snapshot.databases)
    || EnvAdds(e, Containers(snapshot), PortNodes(nodes), snapshot.databases, snapshot.messageQueues)
    || SharesFrom(Containers(snapshot), e)
  }

  lemma EdgeOrigin(snapshot: ServerSnapshot, types: map<string, string>, nodes: seq<DependencyNode>,
                   edges: seq<DependencyEdge>, e: DependencyEdge)
    requires BuiltFrom(snapshot, types, nodes, edges) && e in edges
    ensures Origin(snapshot, nodes, e)
  {
    var fixedEdges := FixedEdges(snapshot, nodes);
    VolumeWalkAddsShares(fixedEdges, edges, Containers(snapshot));
    var k :| 0 <= k < |edges| && edges[k] == e;
    if k < |fixedEdges| {
      assert e == fixedEdges[k];
      var cs := Containers(snapshot);
      EnvEdgesAdd(PlainEdges(snapshot, nodes), cs, cs, PortNodes(nodes), snapshot.databases, snapshot.messageQueues, e);
    }
  }

  lemma {:induction false} MountsName(name: string, volumes: seq<string>, vol: string)
    ensures forall u :: u in Mounts(name, volumes, vol) ==> u == name
    ensures |Mounts(name, volumes, vol)| == multiset(volumes)[vol]
  {
    if volumes == [] {
    } else {
      var front := volumes[..|volumes| - 1];
      assert volumes == front + [volumes[|volumes| - 1]];
      MountsName(name, front, vol);
    }
  }

  lemma {:induction false} UsersAreContainers(cs: seq<ContainerInfo>, vol: string, k: nat) returns (a: nat)
    requires k < |VolumeUsers(cs, vol)|
    ensures a < |cs| && VolumeUsers(cs, vol)[k] == cs[a].name && vol in cs[a].volumes
  {
    var front, last := cs[..|cs| - 1], cs[|cs| - 1];
    if k < |VolumeUsers(front, vol)| {
      a := UsersAreContainers(front, vol, k);
    } else {
      MountsName(last.name, last.volumes, vol);
      var m := Mounts(last.name, last.volumes, vol);
      assert m[k - |VolumeUsers(front, vol)|] in m;
      a := |cs| - 1;
    }
  }

  /** Every edge joins two nodes of the graph and only the allowed kinds. */
  lemma EdgesJoinNodes(snapshot: ServerSnapshot, types: map<string, string>, nodes: seq<DependencyNode>,
                       edges: seq<DependencyEdge>, e: DependencyEdge)
    requires BuiltFrom(snapshot, types, nodes, edges) && e in edges
    ensures e.from in Ids(nodes) && e.to in Ids(nodes)
    ensures KindsAllowed(KindOf(e.from), KindOf(e.to))
  {
    var cs, dbs := Containers(snapshot), snapshot.databases;
    EdgeOrigin(snapshot, types, nodes, edges, e);
    NodeIds(snapshot, types);
    if e in ContainerDatabaseEdges(cs, dbs) {
      ContainerDatabaseJoin(cs, dbs, e);
      var c, db :| c in cs && db in dbs && e.from == ContainerId(c.name) && e.to == DatabaseId(db.dbType);
      IdKinds(c.name); IdKinds(db.dbType);
    } else if e in NginxContainerEdges(snapshot) {
      NginxContainerJoin(snapshot, e);
      var vh :| vh in VHosts(snapshot) && e.from == NginxId(vh.serverName);
      var c :| c in cs && e.to == ContainerId(c.name);
      IdKinds(c.name); IdKinds(vh.serverName);
    } else if e in UnitEdges(snapshot.services, Ids(nodes)) {
      UnitEdgesJoin(snapshot.services, Ids(nodes), e);
      var svc, dep :| svc in snapshot.services && dep in svc.dependsOn && e.from == ServiceId(svc.name)
        && e.to == ServiceId(dep);
      IdKinds(svc.name); IdKinds(dep);
    } else if e in ServiceDatabaseEdges(snapshot.services, dbs) {
      ServiceDatabaseJoin(snapshot.services, dbs, e);
      var svc, db :| svc in snapshot.services && db in dbs && e.from == ServiceId(svc.name)
        && e.to == DatabaseId(db.dbType);
      IdKinds(svc.name); IdKinds(db.dbType);
    } else if EnvAdds(e, cs, PortNodes(nodes), dbs, snapshot.messageQueues) {
      var c, name :| c in cs && name in c.envVarNames && e.from == ContainerId(c.name)
        && Reaches(e.to, name, PortNodes(nodes), dbs, snapshot.messageQueues);
      IdKinds(c.name);
      PortNodeKind(snapshot, types, Resolve(name, dbs, snapshot.messageQueues).port);
    } else {
      SharesJoin(snapshot, types, e);
    }
  }

  lemma SharesJoin(snapshot: ServerSnapshot, types: map<string, string>, e: DependencyEdge)
    requires SharesFrom(Containers(snapshot), e)
    ensures Joins(e, Ids(NodesOf(snapshot, types)), ContainerKind, ContainerKind)
  {
    var cs := Containers(snapshot);
    var users := VolumeUsers(cs, e.reason.volume);
    var i, j :| IsPair(users, i, j) && e.from == ContainerId(users[i]) && e.to == ContainerId(users[j]);
    var a := UsersAreContainers(cs, e.reason.volume, i);
    var b := UsersAreContainers(cs, e.reason.volume, j);
    NodeIds(snapshot, types);
    assert cs[a] in cs && cs[b] in cs;
    IdKinds(cs[a].name); IdKinds(cs[b].name);
  }

  lemma BuiltEndpointsKnown(snapshot: ServerSnapshot, types: map<string, string>, nodes: seq<DependencyNode>,
                            edges: seq<DependencyEdge>)
    requires BuiltFrom(snapshot, types, nodes, edges)
    ensures EndpointsKnown(nodes, edges)
  {
    forall e | e in edges
      ensures e.from in Ids(nodes) && e.to in Ids(nodes)
    {
      EdgesJoinNodes(snapshot, types, nodes, edges, e);
    }
  }

  /** A closed walk lies wholly among containers or wholly among services. */
  lemma CyclesStayInOneKind(snapshot: ServerSnapshot, types: map<string, string>, nodes: seq<DependencyNode>,
                            edges: seq<DependencyEdge>, p: seq<string>)
    requires BuiltFrom(snapshot, types, nodes, edges) && IsClosedWalk(edges, p)
    ensures (forall i :: 0 <= i < |p| ==> KindOf(p[i]) == ContainerKind)
            || (forall i :: 0 <= i < |p| ==> KindOf(p[i]) == ServiceKind)
  {
    forall i | 0 <= i < |p| - 1
      ensures KindsAllowed(KindOf(p[i]), KindOf(p[i + 1]))
    {
      assert HasArc(edges, p[i], p[i + 1]);
      var e :| e in edges && e.from == p[i] && e.to == p[i + 1];
      EdgesJoinNodes(snapshot, types, nodes, edges, e);
    }
    var last := |p| - 1;
    assert KindsAllowed(KindOf(p[last - 1]), KindOf(p[last - 1 + 1])) && KindsAllowed(KindOf(p[0]), KindOf(p[0 + 1]));
    assert KindOf(p[0]) == ContainerKind || KindOf(p[0]) == ServiceKind;
    SameKind(p, 0);
  }

  /** From a container or service on a closed walk, the walk stays with that kind. */
  lemma {:induction false} SameKind(p: seq<string>, i: nat)
    requires |p| >= 2 && p[0] == p[|p| - 1] && i < |p|
    requires forall k :: 0 <= k < |p| - 1 ==> KindsAllowed(KindOf(p[k]), KindOf(p[k + 1]))
    requires KindOf(p[i]) == ContainerKind || KindOf(p[i]) == ServiceKind
    ensures forall k :: i <= k < |p| ==> KindOf(p[k]) == KindOf(p[i])
    decreases |p| - i
  {
    if i + 1 < |p| {
      assert KindsAllowed(KindOf(p[i]), KindOf(p[i + 1]));
      if i + 1 < |p| - 1 {
        assert KindsAllowed(KindOf(p[i + 1]), KindOf(p[i + 2]));
      } else {
        assert KindsAllowed(KindOf(p[0]), KindOf(p[1]));
      }
      SameKind(p, i + 1);
    }
  }
}
