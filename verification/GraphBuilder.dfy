/** How a snapshot becomes a dependency graph: the nodes and the six edge builders. */
module GraphBuilder {
  import opened Sequences
  import opened Text
  import opened Snapshot
  import opened Walks
  import opened Graphs

  function ContainerId(name: string): string { "container:" + name }
  function DatabaseId(name: string): string { "database:" + name }
  function ServiceId(name: string): string { "service:" + name }
  function NginxId(name: string): string { "nginx:" + name }

  function Containers(snapshot: ServerSnapshot): seq<ContainerInfo> {
    if snapshot.docker.Some? then snapshot.docker.value else []
  }

  function VHosts(snapshot: ServerSnapshot): seq<NginxVHost> {
    if snapshot.nginx.Some? then snapshot.nginx.value.vhosts else []
  }

  // ----- nodes -----

  function TypeOf(workloadTypes: map<string, string>, id: string): string {
    if id in workloadTypes then workloadTypes[id] else ""
  }

  function ContainerNode(c: ContainerInfo, types: map<string, string>): DependencyNode {
    DependencyNode(ContainerId(c.name), c.name, "container", TypeOf(types, ContainerId(c.name)),
                   if c.ports != [] then c.ports[0].containerPort else 0)
  }

  function DatabaseNode(db: DatabaseInfo, types: map<string, string>): DependencyNode {
    DependencyNode(DatabaseId(db.dbType), db.dbType, "database", TypeOf(types, DatabaseId(db.dbType)), db.port)
  }

  function ServiceNode(svc: SystemService, types: map<string, string>): DependencyNode {
    DependencyNode(ServiceId(svc.name), svc.name, "service", TypeOf(types, ServiceId(svc.name)), 0)
  }

  function NginxNode(vh: NginxVHost, types: map<string, string>): DependencyNode {
    DependencyNode(NginxId(vh.serverName), vh.serverName, "nginx", TypeOf(types, NginxId(vh.serverName)), 0)
  }

  function ContainerNodes(cs: seq<ContainerInfo>, types: map<string, string>): (nodes: seq<DependencyNode>)
    ensures |nodes| == |cs|
  {
    seq(|cs|, i requires 0 <= i < |cs| => ContainerNode(cs[i], types))
  }

  function DatabaseNodes(dbs: seq<DatabaseInfo>, types: map<string, string>): (nodes: seq<DependencyNode>)
    ensures |nodes| == |dbs|
  {
    seq(|dbs|, i requires 0 <= i < |dbs| => DatabaseNode(dbs[i], types))
  }

  function ServiceNodes(svcs: seq<SystemService>, types: map<string, string>): (nodes: seq<DependencyNode>)
    ensures |nodes| == |svcs|
  {
    seq(|svcs|, i requires 0 <= i < |svcs| => ServiceNode(svcs[i], types))
  }

  function NginxNodes(vhs: seq<NginxVHost>, types: map<string, string>): (nodes: seq<DependencyNode>)
    ensures |nodes| == |vhs|
  {
    seq(|vhs|, i requires 0 <= i < |vhs| => NginxNode(vhs[i], types))
  }

  function NodesOf(snapshot: ServerSnapshot, types: map<string, string>): seq<DependencyNode> {
    ContainerNodes(Containers(snapshot), types) + DatabaseNodes(snapshot.databases, types)
    + ServiceNodes(snapshot.services, types) + NginxNodes(VHosts(snapshot), types)
  }

  method AddContainerNodes(g: DependencyGraph, cs: seq<ContainerInfo>, types: map<string, string>)
    modifies g`nodes
    ensures g.nodes == old(g.nodes) + ContainerNodes(cs, types)
  {
    for i := 0 to |cs|
      invariant g.nodes == old(g.nodes) + ContainerNodes(cs, types)[..i]
    {
      g.nodes := g.nodes + [ContainerNode(cs[i], types)];
    }
  }

  method AddDatabaseNodes(g: DependencyGraph, dbs: seq<DatabaseInfo>, types: map<string, string>)
    modifies g`nodes
    ensures g.nodes == old(g.nodes) + DatabaseNodes(dbs, types)
  {
    for i := 0 to |dbs|
      invariant g.nodes == old(g.nodes) + DatabaseNodes(dbs, types)[..i]
    {
      g.nodes := g.nodes + [DatabaseNode(dbs[i], types)];
    }
  }

  method AddServiceNodes(g: DependencyGraph, svcs: seq<SystemService>, types: map<string, string>)
    modifies g`nodes
    ensures g.nodes == old(g.nodes) + ServiceNodes(svcs, types)
  {
    for i := 0 to |svcs|
      invariant g.nodes == old(g.nodes) + ServiceNodes(svcs, types)[..i]
    {
      g.nodes := g.nodes + [ServiceNode(svcs[i], types)];
    }
  }

  method AddNginxNodes(g: DependencyGraph, vhs: seq<NginxVHost>, types: map<string, string>)
    modifies g`nodes
    ensures g.nodes == old(g.nodes) + NginxNodes(vhs, types)
  {
    for i := 0 to |vhs|
      invariant g.nodes == old(g.nodes) + NginxNodes(vhs, types)[..i]
    {
      g.nodes := g.nodes + [NginxNode(vhs[i], types)];
    }
  }

  // ----- container -> database, by port -----

  function PortMatches(c: ContainerInfo, pm: PortMapping, dbs: seq<DatabaseInfo>): seq<DependencyEdge> {
    if dbs == [] then []
    else
      var db := dbs[|dbs| - 1];
      PortMatches(c, pm, dbs[..|dbs| - 1])
      + if db.port > 0 && pm.containerPort == db.port
        then [DependencyEdge(ContainerId(c.name), DatabaseId(db.dbType), ExposesPort(db.port, db.dbType))]
        else []
  }

  function ContainerMatches(c: ContainerInfo, ports: seq<PortMapping>, dbs: seq<DatabaseInfo>): seq<DependencyEdge> {
    if ports == [] then []
    else ContainerMatches(c, ports[..|ports| - 1], dbs) + PortMatches(c, ports[|ports| - 1], dbs)
  }

  function ContainerDatabaseEdges(cs: seq<ContainerInfo>, dbs: seq<DatabaseInfo>): seq<DependencyEdge> {
    if cs == [] then []
    else
      var c := cs[|cs| - 1];
      ContainerDatabaseEdges(cs[..|cs| - 1], dbs) + ContainerMatches(c, c.ports, dbs)
  }

  lemma {:induction false} NoDatabasesNoMatches(cs: seq<ContainerInfo>)
    ensures ContainerDatabaseEdges(cs, []) == []
  {
    if cs == [] {
    } else {
      NoDatabasesNoMatches(cs[..|cs| - 1]);
      NoDatabasesNoPorts(cs[|cs| - 1], cs[|cs| - 1].ports);
    }
  }

  lemma {:induction false} NoDatabasesNoPorts(c: ContainerInfo, ports: seq<PortMapping>)
    ensures ContainerMatches(c, ports, []) == []
  {
    if ports == [] {
    } else {
      NoDatabasesNoPorts(c, ports[..|ports| - 1]);
    }
  }

  method MatchPort(g: DependencyGraph, c: ContainerInfo, pm: PortMapping, dbs: seq<DatabaseInfo>)
    modifies g`edges
    ensures g.edges == old(g.edges) + PortMatches(c, pm, dbs)
  {
    for k := 0 to |dbs|
      invariant g.edges == old(g.edges) + PortMatches(c, pm, dbs[..k])
    {
      var db := dbs[k];
      assert dbs[..k + 1][..k] == dbs[..k];
      if db.port > 0 && pm.containerPort == db.port {
        g.edges := g.edges
          + [DependencyEdge(ContainerId(c.name), DatabaseId(db.dbType), ExposesPort(db.port, db.dbType))];
      }
    }
    assert dbs[..|dbs|] == dbs;
  }

  method MatchPorts(g: DependencyGraph, c: ContainerInfo, dbs: seq<DatabaseInfo>)
    modifies g`edges
    ensures g.edges == old(g.edges) + ContainerMatches(c, c.ports, dbs)
  {
    var ports := c.ports;
    for j := 0 to |ports|
      invariant g.edges == old(g.edges) + ContainerMatches(c, ports[..j], dbs)
    {
      assert ports[..j + 1][..j] == ports[..j];
      MatchPort(g, c, ports[j], dbs);
    }
    assert ports[..|ports|] == ports;
  }

  method BuildContainerDatabaseEdges(g: DependencyGraph, snapshot: ServerSnapshot)
    modifies g`edges
    ensures g.edges == old(g.edges) + ContainerDatabaseEdges(Containers(snapshot), snapshot.databases)
  {
    hide ContainerMatches;
    var cs, dbs := Containers(snapshot), snapshot.databases;
    if snapshot.docker.None? || |dbs| == 0 {
      NoDatabasesNoMatches(cs);
      return;
    }
    for i := 0 to |cs|
      invariant g.edges == old(g.edges) + ContainerDatabaseEdges(cs[..i], dbs)
    {
      assert cs[..i + 1][..i] == cs[..i];
      MatchPorts(g, cs[i], dbs);
    }
    assert cs[..|cs|] == cs;
  }

  // ----- nginx -> container, by host port -----

  function ExtractPortFromURL(url: string): int {
    var parts := Split(url, ':');
    if |parts| < 3 then
      if "https" <= url then 443 else 80
    else
      match Atoi(Split(parts[|parts| - 1], '/')[0])
      case Some(port) => port
      case None => 0
  }

  function ExtractPortFromAddress(addr: string): int {
    var parts := Split(addr, ':');
    if |parts| < 2 then 0
    else
      match Atoi(parts[|parts| - 1])
      case Some(port) => port
      case None => 0
  }

  function PortOwners(owners: map<int, string>, name: string, ports: seq<PortMapping>): map<int, string> {
    if ports == [] then owners
    else
      var rest := PortOwners(owners, name, ports[..|ports| - 1]);
      var port := ports[|ports| - 1].hostPort;
      if port > 0 then rest[port := name] else rest
  }

  /** The last container that publishes a host port. */
  function HostPorts(cs: seq<ContainerInfo>): map<int, string> {
    if cs == [] then map[]
    else PortOwners(HostPorts(cs[..|cs| - 1]), cs[|cs| - 1].name, cs[|cs| - 1].ports)
  }

  function ProxyEdges(vhs: seq<NginxVHost>, owners: map<int, string>): seq<DependencyEdge> {
    if vhs == [] then []
    else
      var vh := vhs[|vhs| - 1];
      var port := ExtractPortFromURL(vh.proxyPass);
      ProxyEdges(vhs[..|vhs| - 1], owners)
      + if vh.proxyPass != "" && port > 0 && port in owners
        then [DependencyEdge(NginxId(vh.serverName), ContainerId(owners[port]), ProxyPass(port, owners[port]))]
        else []
  }

  function UpstreamUsers(upstream: string, port: int, owner: string, vhs: seq<NginxVHost>): seq<DependencyEdge> {
    if vhs == [] then []
    else
      var vh := vhs[|vhs| - 1];
      UpstreamUsers(upstream, port, owner, vhs[..|vhs| - 1])
      + if vh.proxyPass != "" && Contains(vh.proxyPass, upstream)
        then [DependencyEdge(NginxId(vh.serverName), ContainerId(owner), UpstreamServer(upstream, port, owner))]
        else []
  }

  function AddressUsers(upstream: string, address: string, vhs: seq<NginxVHost>,
                        owners: map<int, string>): seq<DependencyEdge> {
    var port := ExtractPortFromAddress(address);
    if port > 0 && port in owners then UpstreamUsers(upstream, port, owners[port], vhs) else []
  }

  function AddressEdges(upstream: string, addresses: seq<string>, vhs: seq<NginxVHost>,
                        owners: map<int, string>): seq<DependencyEdge> {
    if addresses == [] then []
    else
      AddressEdges(upstream, addresses[..|addresses| - 1], vhs, owners)
      + AddressUsers(upstream, addresses[|addresses| - 1], vhs, owners)
  }

  function UpstreamEdges(upstreams: seq<UpstreamConfig>, vhs: seq<NginxVHost>,
                         owners: map<int, string>): seq<DependencyEdge> {
    if upstreams == [] then []
    else
      var up := upstreams[|upstreams| - 1];
      UpstreamEdges(upstreams[..|upstreams| - 1], vhs, owners) + AddressEdges(up.name, up.addresses, vhs, owners)
  }

  function NginxContainerEdges(snapshot: ServerSnapshot): seq<DependencyEdge> {
    if snapshot.nginx.None? || snapshot.docker.None? then []
    else
      var owners := HostPorts(snapshot.docker.value);
      ProxyEdges(snapshot.nginx.value.vhosts, owners)
      + UpstreamEdges(snapshot.nginx.value.upstreams, snapshot.nginx.value.vhosts, owners)
  }

  method MapHostPorts(cs: seq<ContainerInfo>) returns (owners: map<int, string>)
    ensures owners == HostPorts(cs)
  {
    owners := map[];
    for i := 0 to |cs|
      invariant owners == HostPorts(cs[..i])
    {
      var ports := cs[i].ports;
      ghost var before := owners;
      for j := 0 to |ports|
        invariant owners == PortOwners(before, cs[i].name, ports[..j])
      {
        assert ports[..j + 1][..j] == ports[..j];
        if ports[j].hostPort > 0 {
          owners := owners[ports[j].hostPort := cs[i].name];
        }
      }
      assert ports[..|ports|] == ports && cs[..i + 1][..i] == cs[..i];
    }
    assert cs[..|cs|] == cs;
  }

  method BuildProxyEdges(g: DependencyGraph, vhs: seq<NginxVHost>, owners: map<int, string>)
    modifies g`edges
    ensures g.edges == old(g.edges) + ProxyEdges(vhs, owners)
  {
    for i := 0 to |vhs|
      invariant g.edges == old(g.edges) + ProxyEdges(vhs[..i], owners)
    {
      var vh := vhs[i];
      assert vhs[..i + 1][..i] == vhs[..i];
      if vh.proxyPass == "" {
        continue;
      }
      var port := ExtractPortFromURL(vh.proxyPass);
      if port > 0 && port in owners {
        g.edges := g.edges
          + [DependencyEdge(NginxId(vh.serverName), ContainerId(owners[port]), ProxyPass(port, owners[port]))];
      }
    }
    assert vhs[..|vhs|] == vhs;
  }

  method LinkUpstreamUsers(g: DependencyGraph, upstream: string, port: int, owner: string, vhs: seq<NginxVHost>)
    modifies g`edges
    ensures g.edges == old(g.edges) + UpstreamUsers(upstream, port, owner, vhs)
  {
    for j := 0 to |vhs|
      invariant g.edges == old(g.edges) + UpstreamUsers(upstream, port, owner, vhs[..j])
    {
      var vh := vhs[j];
      assert vhs[..j + 1][..j] == vhs[..j];
      if vh.proxyPass != "" && Contains(vh.proxyPass, upstream) {
        g.edges := g.edges
          + [DependencyEdge(NginxId(vh.serverName), ContainerId(owner), UpstreamServer(upstream, port, owner))];
      }
    }
    assert vhs[..|vhs|] == vhs;
  }

  method LinkAddress(g: DependencyGraph, upstream: string, address: string, vhs: seq<NginxVHost>,
                     owners: map<int, string>)
    modifies g`edges
    ensures g.edges == old(g.edges) + AddressUsers(upstream, address, vhs, owners)
  {
    var port := ExtractPortFromAddress(address);
    if port > 0 && port in owners {
      LinkUpstreamUsers(g, upstream, port, owners[port], vhs);
    }
  }

  method BuildUpstreamEdges(g: DependencyGraph, up: UpstreamConfig, vhs: seq<NginxVHost>, owners: map<int, string>)
    modifies g`edges
    ensures g.edges == old(g.edges) + AddressEdges(up.name, up.addresses, vhs, owners)
  {
    hide AddressUsers;
    var addresses := up.addresses;
    for i := 0 to |addresses|
      invariant g.edges == old(g.edges) + AddressEdges(up.name, addresses[..i], vhs, owners)
    {
      assert addresses[..i + 1][..i] == addresses[..i];
      LinkAddress(g, up.name, addresses[i], vhs, owners);
    }
    assert addresses[..|addresses|] == addresses;
  }

  method BuildNginxContainerEdges(g: DependencyGraph, snapshot: ServerSnapshot)
    modifies g`edges
    ensures g.edges == old(g.edges) + NginxContainerEdges(snapshot)
  {
    hide ProxyEdges, AddressEdges, HostPorts;
    if snapshot.nginx.None? || snapshot.docker.None? {
      return;
    }
    var vhs, upstreams := snapshot.nginx.value.vhosts, snapshot.nginx.value.upstreams;
    var owners := MapHostPorts(snapshot.docker.value);
    BuildProxyEdges(g, vhs, owners);
    ghost var before := g.edges;
    for i := 0 to |upstreams|
      invariant g.edges == before + UpstreamEdges(upstreams[..i], vhs, owners)
    {
      assert upstreams[..i + 1][..i] == upstreams[..i];
      BuildUpstreamEdges(g, upstreams[i], vhs, owners);
    }
    assert upstreams[..|upstreams|] == upstreams;
  }

  // ----- service -> service, After/Requires -----

  function DependsOnEdges(svc: string, deps: seq<string>, ids: seq<string>): seq<DependencyEdge> {
    if deps == [] then []
    else
      var dep := deps[|deps| - 1];
      DependsOnEdges(svc, deps[..|deps| - 1], ids)
      + if ServiceId(dep) in ids then [DependencyEdge(ServiceId(svc), ServiceId(dep), UnitDependency)] else []
  }

  function UnitEdges(svcs: seq<SystemService>, ids: seq<string>): seq<DependencyEdge> {
    if svcs == [] then []
    else
      var svc := svcs[|svcs| - 1];
      UnitEdges(svcs[..|svcs| - 1], ids) + DependsOnEdges(svc.name, svc.dependsOn, ids)
  }

  method NodeExists(g: DependencyGraph, id: string) returns (found: bool)
    ensures found <==> id in Ids(g.nodes)
  {
    for i := 0 to |g.nodes|
      invariant id !in Ids(g.nodes)[..i]
    {
      if g.nodes[i].id == id {
        assert Ids(g.nodes)[i] == id;
        return true;
      }
    }
    assert Ids(g.nodes)[..|g.nodes|] == Ids(g.nodes);
    found := false;
  }

  method BuildServiceDependencies(g: DependencyGraph, snapshot: ServerSnapshot)
    modifies g`edges
    ensures g.edges == old(g.edges) + UnitEdges(snapshot.services, Ids(g.nodes))
  {
    var svcs := snapshot.services;
    for i := 0 to |svcs|
      invariant g.edges == old(g.edges) + UnitEdges(svcs[..i], Ids(g.nodes))
    {
      ghost var before := g.edges;
      var deps := svcs[i].dependsOn;
      for j := 0 to |deps|
        invariant g.edges == before + DependsOnEdges(svcs[i].name, deps[..j], Ids(g.nodes))
      {
        assert deps[..j + 1][..j] == deps[..j];
        var found := NodeExists(g, ServiceId(deps[j]));
        if found {
          g.edges := g.edges + [DependencyEdge(ServiceId(svcs[i].name), ServiceId(deps[j]), UnitDependency)];
        }
      }
      assert deps[..|deps|] == deps && svcs[..i + 1][..i] == svcs[..i];
    }
    assert svcs[..|svcs|] == svcs;
  }

  // ----- service -> database, by name -----

  function NamedDatabases(svc: string, dbs: seq<DatabaseInfo>): seq<DependencyEdge> {
    if dbs == [] then []
    else
      var db := dbs[|dbs| - 1];
      NamedDatabases(svc, dbs[..|dbs| - 1])
      + if Contains(ToLower(svc), db.dbType)
        then [DependencyEdge(ServiceId(svc), DatabaseId(db.dbType), NameMatches(db.dbType))]
        else []
  }

  function ServiceDatabaseEdges(svcs: seq<SystemService>, dbs: seq<DatabaseInfo>): seq<DependencyEdge> {
    if svcs == [] then []
    else ServiceDatabaseEdges(svcs[..|svcs| - 1], dbs) + NamedDatabases(svcs[|svcs| - 1].name, dbs)
  }

  method LinkNamedDatabases(g: DependencyGraph, svc: string, dbs: seq<DatabaseInfo>)
    modifies g`edges
    ensures g.edges == old(g.edges) + NamedDatabases(svc, dbs)
  {
    for j := 0 to |dbs|
      invariant g.edges == old(g.edges) + NamedDatabases(svc, dbs[..j])
    {
      assert dbs[..j + 1][..j] == dbs[..j];
      if Contains(ToLower(svc), dbs[j].dbType) {
        g.edges := g.edges + [DependencyEdge(ServiceId(svc), DatabaseId(dbs[j].dbType), NameMatches(dbs[j].dbType))];
      }
    }
    assert dbs[..|dbs|] == dbs;
  }

  method BuildServiceDatabaseEdges(g: DependencyGraph, snapshot: ServerSnapshot)
    modifies g`edges
    ensures g.edges == old(g.edges) + ServiceDatabaseEdges(snapshot.services, snapshot.databases)
  {
    var svcs, dbs := snapshot.services, snapshot.databases;
    for i := 0 to |svcs|
      invariant g.edges == old(g.edges) + ServiceDatabaseEdges(svcs[..i], dbs)
    {
      assert svcs[..i + 1][..i] == svcs[..i];
      LinkNamedDatabases(g, svcs[i].name, dbs);
    }
    assert svcs[..|svcs|] == svcs;
  }

  // ----- container -> database or container, by environment variable -----

  datatype EnvTarget = NoTarget | Target(port: int, kind: string)

  function FirstDatabasePort(dbs: seq<DatabaseInfo>): int {
    if dbs == [] then 0 else if dbs[0].port > 0 then dbs[0].port else FirstDatabasePort(dbs[1..])
  }

  function FirstRedisPort(dbs: seq<DatabaseInfo>): int {
    if dbs == [] then 0
    else if dbs[0].dbType == "redis" && dbs[0].port > 0 then dbs[0].port
    else FirstRedisPort(dbs[1..])
  }

  function FirstQueuePort(mqs: seq<MessageQueueInfo>): int {
    if mqs == [] then 0 else if mqs[0].port > 0 then mqs[0].port else FirstQueuePort(mqs[1..])
  }

  predicate SuggestsDatabase(name: string) {
    var upper := ToUpper(name);
    Contains(upper, "DATABASE") || Contains(upper, "DB_") || Contains(upper, "MYSQL") || Contains(upper, "POSTGRES")
  }

  predicate SuggestsCache(name: string) {
    Contains(ToUpper(name), "REDIS") || Contains(ToUpper(name), "CACHE")
  }

  predicate SuggestsQueue(name: string) {
    var upper := ToUpper(name);
    Contains(upper, "AMQP") || Contains(upper, "RABBIT") || Contains(upper, "QUEUE")
  }

  /** The first case of the switch that matches decides, even when it finds no port. */
  function Resolve(name: string, dbs: seq<DatabaseInfo>, mqs: seq<MessageQueueInfo>): EnvTarget {
    if SuggestsDatabase(name) then
      if FirstDatabasePort(dbs) > 0 then Target(FirstDatabasePort(dbs), "database") else NoTarget
    else if SuggestsCache(name) then
      if FirstRedisPort(dbs) > 0 then Target(FirstRedisPort(dbs), "Redis") else NoTarget
    else if SuggestsQueue(name) then
      if FirstQueuePort(mqs) > 0 then Target(FirstQueuePort(mqs), "queue") else NoTarget
    else NoTarget
  }

  method ResolveEnvVar(name: string, dbs: seq<DatabaseInfo>, mqs: seq<MessageQueueInfo>) returns (target: EnvTarget)
    ensures target == Resolve(name, dbs, mqs)
  {
    if SuggestsDatabase(name) {
      for i := 0 to |dbs|
        invariant FirstDatabasePort(dbs) == FirstDatabasePort(dbs[i..])
      {
        if dbs[i].port > 0 {
          return Target(dbs[i].port, "database");
        }
      }
    } else if SuggestsCache(name) {
      for i := 0 to |dbs|
        invariant FirstRedisPort(dbs) == FirstRedisPort(dbs[i..])
      {
        if dbs[i].dbType == "redis" && dbs[i].port > 0 {
          return Target(dbs[i].port, "Redis");
        }
      }
    } else if SuggestsQueue(name) {
      for i := 0 to |mqs|
        invariant FirstQueuePort(mqs) == FirstQueuePort(mqs[i..])
      {
        if mqs[i].port > 0 {
          return Target(mqs[i].port, "queue");
        }
      }
    }
    target := NoTarget;
  }

  /** The last node that listens on a port. */
  function PortNodes(nodes: seq<DependencyNode>): map<int, string> {
    if nodes == [] then map[]
    else
      var last := nodes[|nodes| - 1];
      if last.port > 0 then PortNodes(nodes[..|nodes| - 1])[last.port := last.id] else PortNodes(nodes[..|nodes| - 1])
  }

  method HasEdge(edges: seq<DependencyEdge>, from: string, to: string) returns (found: bool)
    ensures found <==> HasArc(edges, from, to)
  {
    for i := 0 to |edges|
      invariant !HasArc(edges[..i], from, to)
    {
      if edges[i].from == from && edges[i].to == to {
        return true;
      }
      assert edges[..i + 1] == edges[..i] + [edges[i]];
    }
    assert edges[..|edges|] == edges;
    found := false;
  }

  /** The edges after one variable of container `id`; an edge between the same two nodes is not repeated. */
  function WithEnvVar(edges: seq<DependencyEdge>, id: string, name: string, ports: map<int, string>,
                      dbs: seq<DatabaseInfo>, mqs: seq<MessageQueueInfo>): seq<DependencyEdge> {
    match Resolve(name, dbs, mqs)
    case NoTarget => edges
    case Target(port, kind) =>
      if port in ports && !HasArc(edges, id, ports[port])
      then edges + [DependencyEdge(id, ports[port], EnvSuggests(name, kind))]
      else edges
  }

  function WithEnvVars(edges: seq<DependencyEdge>, id: string, names: seq<string>, ports: map<int, string>,
                       dbs: seq<DatabaseInfo>, mqs: seq<MessageQueueInfo>): seq<DependencyEdge> {
    if names == [] then edges
    else WithEnvVar(WithEnvVars(edges, id, names[..|names| - 1], ports, dbs, mqs), id, names[|names| - 1], ports, dbs,
      mqs)
  }

  function WithEnvEdges(edges: seq<DependencyEdge>, cs: seq<ContainerInfo>, ports: map<int, string>,
                        dbs: seq<DatabaseInfo>, mqs: seq<MessageQueueInfo>): seq<DependencyEdge> {
    if cs == [] then edges
    else
      var c := cs[|cs| - 1];
      WithEnvVars(WithEnvEdges(edges, cs[..|cs| - 1], ports, dbs, mqs), ContainerId(c.name), c.envVarNames, ports, dbs,
        mqs)
  }

  method MapPortNodes(nodes: seq<DependencyNode>) returns (ports: map<int, string>)
    ensures ports == PortNodes(nodes)
  {
    ports := map[];
    for i := 0 to |nodes|
      invariant ports == PortNodes(nodes[..i])
    {
      assert nodes[..i + 1][..i] == nodes[..i];
      if nodes[i].port > 0 {
        ports := ports[nodes[i].port := nodes[i].id];
      }
    }
    assert nodes[..|nodes|] == nodes;
  }

  method BuildEnvVarEdges(g: DependencyGraph, snapshot: ServerSnapshot)
    modifies g`edges
    ensures g.edges == WithEnvEdges(old(g.edges), Containers(snapshot), PortNodes(g.nodes), snapshot.databases,
            snapshot.messageQueues)
  {
    if snapshot.docker.None? {
      return;
    }
    var cs, dbs, mqs := snapshot.docker.value, snapshot.databases, snapshot.messageQueues;
    var ports := MapPortNodes(g.nodes);
    for i := 0 to |cs|
      invariant g.edges == WithEnvEdges(old(g.edges), cs[..i], ports, dbs, mqs)
    {
      var id, names := ContainerId(cs[i].name), cs[i].envVarNames;
      ghost var before := g.edges;
      for j := 0 to |names|
        invariant g.edges == WithEnvVars(before, id, names[..j], ports, dbs, mqs)
      {
        assert names[..j + 1][..j] == names[..j];
        var target := ResolveEnvVar(names[j], dbs, mqs);
        if target.Target? && target.port in ports {
          var known := HasEdge(g.edges, id, ports[target.port]);
          if !known {
            g.edges := g.edges + [DependencyEdge(id, ports[target.port], EnvSuggests(names[j], target.kind))];
          }
        }
      }
      assert names[..|names|] == names && cs[..i + 1][..i] == cs[..i];
    }
    assert cs[..|cs|] == cs;
  }

  // ----- container -> container, shared volumes -----

  /** The names of the containers that mount `vol`, in snapshot order, once for each mount. */
  function Mounts(name: string, volumes: seq<string>, vol: string): seq<string> {
    if volumes == [] then []
    else Mounts(name, volumes[..|volumes| - 1], vol) + if volumes[|volumes| - 1] == vol then [name] else []
  }

  function VolumeUsers(cs: seq<ContainerInfo>, vol: string): seq<string> {
    if cs == [] then []
    else
      var c := cs[|cs| - 1];
      VolumeUsers(cs[..|cs| - 1], vol) + Mounts(c.name, c.volumes, vol)
  }

  ghost predicate SharesFrom(cs: seq<ContainerInfo>, e: DependencyEdge) {
    e.reason.SharedVolume? &&
    exists i, j :: IsPair(VolumeUsers(cs, e.reason.volume), i, j)
                   && e.from == ContainerId(VolumeUsers(cs, e.reason.volume)[i])
                   && e.to == ContainerId(VolumeUsers(cs, e.reason.volume)[j])
  }

  ghost predicate IsPair(users: seq<string>, i: int, j: int) {
    0 <= i < j < |users|
  }

  /** Two ids joined in either direction. */
  ghost predicate Joined(edges: seq<DependencyEdge>, a: string, b: string) {
    HasArc(edges, a, b) || HasArc(edges, b, a)
  }

  /** Every two mounts of `vol`, up to the given positions, are joined. */
  ghost predicate PairsJoined(edges: seq<DependencyEdge>, users: seq<string>, rows: int) {
    forall i, j :: IsPair(users, i, j) && i < rows ==> Joined(edges, ContainerId(users[i]), ContainerId(users[j]))
  }

  /** What the volume builder may add to `before`, whatever order the volumes come in. */
  ghost predicate OnlyShares(before: seq<DependencyEdge>, after: seq<DependencyEdge>, cs: seq<ContainerInfo>) {
    && before <= after
    && (forall k :: |before| <= k < |after| ==>
       SharesFrom(cs, after[k]) && !Joined(after[..k], after[k].from, after[k].to))
  }

  ghost predicate AddsShares(before: seq<DependencyEdge>, after: seq<DependencyEdge>, cs: seq<ContainerInfo>) {
    && OnlyShares(before, after, cs)
    && (forall vol :: PairsJoined(after, VolumeUsers(cs, vol), |VolumeUsers(cs, vol)|))
  }

  // ----- what the two loops over the users of each volume add -----

  ghost function WithPair(edges: seq<DependencyEdge>, vol: string, a: string, b: string): seq<DependencyEdge> {
    if Joined(edges, a, b) then edges else edges + [DependencyEdge(a, b, SharedVolume(vol))]
  }

  /** The pairs of user `i` with the later users before position `j`. */
  ghost function WithRow(edges: seq<DependencyEdge>, vol: string, users: seq<string>, i: nat,
                         j: nat): seq<DependencyEdge>
    requires i < j <= |users|
  {
    if j == i + 1 then edges
    else WithPair(WithRow(edges, vol, users, i, j - 1), vol, ContainerId(users[i]), ContainerId(users[j - 1]))
  }

  ghost function WithUsers(edges: seq<DependencyEdge>, vol: string, users: seq<string>, rows: nat): seq<DependencyEdge>
    requires rows <= |users|
  {
    if rows == 0 then edges
    else WithRow(WithUsers(edges, vol, users, rows - 1), vol, users, rows - 1, |users|)
  }

  ghost function WithVolumes(edges: seq<DependencyEdge>, cs: seq<ContainerInfo>,
                             vols: seq<string>): seq<DependencyEdge> {
    if vols == [] then edges
    else
      var vol := vols[|vols| - 1];
      WithUsers(WithVolumes(edges, cs, vols[..|vols| - 1]), vol, VolumeUsers(cs, vol), |VolumeUsers(cs, vol)|)
  }

  /** `vols` names each mounted volume once, in some order. */
  ghost predicate ListsVolumes(cs: seq<ContainerInfo>, vols: seq<string>) {
    Distinct(vols) && forall vol :: vol in vols <==> VolumeUsers(cs, vol) != []
  }

  /** `after` is what some walk over the volume map makes of `before`. */
  ghost predicate WalksVolumes(before: seq<DependencyEdge>, after: seq<DependencyEdge>, cs: seq<ContainerInfo>) {
    exists vols :: ListsVolumes(cs, vols) && after == WithVolumes(before, cs, vols)
  }

  lemma PairShares(before: seq<DependencyEdge>, edges: seq<DependencyEdge>, cs: seq<ContainerInfo>, vol: string, i: nat,
                   j: nat)
    requires OnlyShares(before, edges, cs) && IsPair(VolumeUsers(cs, vol), i, j)
    ensures var users := VolumeUsers(cs, vol);
            var after := WithPair(edges, vol, ContainerId(users[i]), ContainerId(users[j]));
            && OnlyShares(before, after, cs) && edges <= after
            && Joined(after, ContainerId(users[i]), ContainerId(users[j]))
  {
    var users := VolumeUsers(cs, vol);
    var e := DependencyEdge(ContainerId(users[i]), ContainerId(users[j]), SharedVolume(vol));
    if !Joined(edges, e.from, e.to) {
      assert SharesFrom(cs, e);
      OnlySharesAppend(before, edges, cs, e);
      assert (edges + [e])[|edges|] == e;
    }
  }

  lemma {:induction false} RowShares(before: seq<DependencyEdge>, edges: seq<DependencyEdge>, cs: seq<ContainerInfo>,
                                     vol: string, i: nat, j: nat)
    requires OnlyShares(before, edges, cs) && i < j <= |VolumeUsers(cs, vol)|
    ensures var users := VolumeUsers(cs, vol);
            var after := WithRow(edges, vol, users, i, j);
            && OnlyShares(before, after, cs) && edges <= after
            && forall k :: i < k < j ==> Joined(after, ContainerId(users[i]), ContainerId(users[k]))
  {
    hide OnlyShares, Joined, WithPair;
    if j == i + 1 {
    } else {
      RowShares(before, edges, cs, vol, i, j - 1);
      PairShares(before, WithRow(edges, vol, VolumeUsers(cs, vol), i, j - 1), cs, vol, i, j - 1);
      JoinedGrows(WithRow(edges, vol, VolumeUsers(cs, vol), i, j - 1), WithRow(edges, vol, VolumeUsers(cs, vol), i, j));
    }
  }

  lemma {:induction false} UsersShare(before: seq<DependencyEdge>, edges: seq<DependencyEdge>, cs: seq<ContainerInfo>,
                                      vol: string, rows: nat)
    requires OnlyShares(before, edges, cs) && rows <= |VolumeUsers(cs, vol)|
    ensures var after := WithUsers(edges, vol, VolumeUsers(cs, vol), rows);
            OnlyShares(before, after, cs) && edges <= after && PairsJoined(after, VolumeUsers(cs, vol), rows)
  {
    hide OnlyShares, Joined, WithRow;
    if rows == 0 {
    } else {
      var users := VolumeUsers(cs, vol);
      var front := WithUsers(edges, vol, users, rows - 1);
      UsersShare(before, edges, cs, vol, rows - 1);
      RowShares(before, front, cs, vol, rows - 1, |users|);
      JoinedGrows(front, WithUsers(edges, vol, users, rows));
    }
  }

  lemma {:induction false} VolumesShare(edges: seq<DependencyEdge>, cs: seq<ContainerInfo>, vols: seq<string>)
    ensures OnlyShares(edges, WithVolumes(edges, cs, vols), cs)
    ensures forall vol :: vol in vols ==>
            PairsJoined(WithVolumes(edges, cs, vols), VolumeUsers(cs, vol), |VolumeUsers(cs, vol)|)
  {
    hide Joined, WithUsers;
    if vols == [] {
    } else {
      var n := |vols| - 1;
      var front := WithVolumes(edges, cs, vols[..n]);
      VolumesShare(edges, cs, vols[..n]);
      UsersShare(edges, front, cs, vols[n], |VolumeUsers(cs, vols[n])|);
      JoinedGrows(front, WithVolumes(edges, cs, vols));
    }
  }

  /** Whatever the walk: only edges between mounts of one volume, none between ids that were joined before, and in the
      end every two mounts of a volume are joined. */
  lemma VolumeWalkAddsShares(before: seq<DependencyEdge>, after: seq<DependencyEdge>, cs: seq<ContainerInfo>)
    requires WalksVolumes(before, after, cs)
    ensures AddsShares(before, after, cs)
  {
    hide OnlyShares, Joined;
    var vols :| ListsVolumes(cs, vols) && after == WithVolumes(before, cs, vols);
    VolumesShare(before, cs, vols);
  }

  function UsersIn(users: map<string, seq<string>>, vol: string): seq<string> {
    if vol in users then users[vol] else []
  }

  predicate NoneUnused(users: map<string, seq<string>>) {
    forall vol :: vol in users ==> users[vol] != []
  }

  ghost predicate Mounted(before: map<string, seq<string>>, users: map<string, seq<string>>, name: string,
                          volumes: seq<string>) {
    forall vol :: UsersIn(users, vol) == UsersIn(before, vol) + Mounts(name, volumes, vol)
  }

  lemma MountOne(before: map<string, seq<string>>, users: map<string, seq<string>>, name: string, volumes: seq<string>,
                 last: string)
    requires Mounted(before, users, name, volumes)
    ensures Mounted(before, users[last := UsersIn(users, last) + [name]], name, volumes + [last])
  {
    assert (volumes + [last])[..|volumes|] == volumes;
  }

  method AddMounts(before: map<string, seq<string>>, name: string, volumes: seq<string>)
      returns (users: map<string, seq<string>>)
    requires NoneUnused(before)
    ensures Mounted(before, users, name, volumes) && NoneUnused(users)
  {
    users := before;
    for j := 0 to |volumes|
      invariant NoneUnused(users)
      invariant Mounted(before, users, name, volumes[..j])
    {
      MountOne(before, users, name, volumes[..j], volumes[j]);
      assert volumes[..j] + [volumes[j]] == volumes[..j + 1];
      users := users[volumes[j] := UsersIn(users, volumes[j]) + [name]];
    }
    assert volumes[..|volumes|] == volumes;
  }

  method MapVolumes(cs: seq<ContainerInfo>) returns (users: map<string, seq<string>>)
    ensures forall vol :: UsersIn(users, vol) == VolumeUsers(cs, vol)
    ensures NoneUnused(users)
  {
    users := map[];
    for i := 0 to |cs|
      invariant NoneUnused(users)
      invariant forall vol :: UsersIn(users, vol) == VolumeUsers(cs[..i], vol)
    {
      assert cs[..i + 1][..i] == cs[..i];
      users := AddMounts(users, cs[i].name, cs[i].volumes);
    }
    assert cs[..|cs|] == cs;
  }

  lemma OnlySharesAppend(before: seq<DependencyEdge>, edges: seq<DependencyEdge>, cs: seq<ContainerInfo>,
                         e: DependencyEdge)
    requires OnlyShares(before, edges, cs)
    requires SharesFrom(cs, e) && !Joined(edges, e.from, e.to)
    ensures OnlyShares(before, edges + [e], cs)
  {
    var longer := edges + [e];
    forall k | |before| <= k < |longer|
      ensures SharesFrom(cs, longer[k]) && !Joined(longer[..k], longer[k].from, longer[k].to)
    {
      if k < |edges| {
        assert longer[..k] == edges[..k];
      } else {
        assert longer[..k] == edges;
      }
    }
  }

  lemma JoinedGrows(edges: seq<DependencyEdge>, longer: seq<DependencyEdge>)
    requires edges <= longer
    ensures forall a, b :: Joined(edges, a, b) ==> Joined(longer, a, b)
  {
    ArcsGrow(edges, longer);
  }

  method JoinUsers(g: DependencyGraph, vol: string, users: seq<string>)
    modifies g`edges
    ensures g.edges == WithUsers(old(g.edges), vol, users, |users|)
  {
    for i := 0 to |users|
      invariant g.edges == WithUsers(old(g.edges), vol, users, i)
    {
      ghost var before := g.edges;
      for j := i + 1 to |users|
        invariant g.edges == WithRow(before, vol, users, i, j)
      {
        var a, b := ContainerId(users[i]), ContainerId(users[j]);
        var forward := HasEdge(g.edges, a, b);
        var backward := HasEdge(g.edges, b, a);
        if !forward && !backward {
          g.edges := g.edges + [DependencyEdge(a, b, SharedVolume(vol))];
        }
      }
    }
  }

  method BuildVolumeSharingEdges(g: DependencyGraph, snapshot: ServerSnapshot)
    modifies g`edges
    ensures WalksVolumes(old(g.edges), g.edges, Containers(snapshot))
  {
    hide WithUsers, VolumeUsers;
    ghost var cs, vols := Containers(snapshot), [];
    if snapshot.docker.None? {
      NoVolumes();
      assert ListsVolumes(cs, vols) && g.edges == WithVolumes(old(g.edges), cs, vols);
      return;
    }
    var users := MapVolumes(snapshot.docker.value);
    var rest := users.Keys;
    while rest != {}
      invariant rest <= users.Keys
      invariant Distinct(vols) && forall vol :: vol in vols <==> vol in users.Keys - rest
      invariant g.edges == WithVolumes(old(g.edges), cs, vols)
    {
      var vol :| vol in rest;
      assert UsersIn(users, vol) == VolumeUsers(cs, vol);
      assert (vols + [vol])[..|vols|] == vols;
      if |users[vol]| > 1 {
        JoinUsers(g, vol, users[vol]);
      } else {
        SingleUser(g.edges, vol, users[vol]);
      }
      assert vol !in vols && forall v :: v in vols + [vol] <==> v in vols || v == vol;
      vols := vols + [vol];
      rest := rest - {vol};
    }
    assert ListsVolumes(cs, vols) by {
      forall vol
        ensures vol in vols <==> VolumeUsers(cs, vol) != []
      {
        assert UsersIn(users, vol) == VolumeUsers(cs, vol);
      }
    }
  }

  lemma NoVolumes()
    ensures forall vol :: VolumeUsers([], vol) == []
  {
  }

  lemma SingleUser(edges: seq<DependencyEdge>, vol: string, users: seq<string>)
    requires |users| == 1
    ensures WithUsers(edges, vol, users, |users|) == edges
  {
    assert WithUsers(edges, vol, users, 0) == edges;
  }

  // ----- the whole graph -----

  function PlainEdges(snapshot: ServerSnapshot, nodes: seq<DependencyNode>): seq<DependencyEdge> {
    ContainerDatabaseEdges(Containers(snapshot), snapshot.databases) + NginxContainerEdges(snapshot)
    + UnitEdges(snapshot.services, Ids(nodes)) + ServiceDatabaseEdges(snapshot.services, snapshot.databases)
  }

  /** The edges of the first five builders, which do not depend on any map order. */
  function FixedEdges(snapshot: ServerSnapshot, nodes: seq<DependencyNode>): seq<DependencyEdge> {
    WithEnvEdges(PlainEdges(snapshot, nodes), Containers(snapshot), PortNodes(nodes), snapshot.databases,
      snapshot.messageQueues)
  }

  /** `nodes` and `edges` are exactly what some walk over the volume map builds from the snapshot. */
  ghost predicate BuiltFrom(snapshot: ServerSnapshot, types: map<string, string>, nodes: seq<DependencyNode>,
                            edges: seq<DependencyEdge>) {
    nodes == NodesOf(snapshot, types) && WalksVolumes(FixedEdges(snapshot, nodes), edges, Containers(snapshot))
  }

  method BuildNodes(g: DependencyGraph, snapshot: ServerSnapshot, types: map<string, string>)
    requires g.nodes == []
    modifies g`nodes
    ensures g.nodes == NodesOf(snapshot, types)
  {
    AddContainerNodes(g, Containers(snapshot), types);
    AddDatabaseNodes(g, snapshot.databases, types);
    AddServiceNodes(g, snapshot.services, types);
    AddNginxNodes(g, VHosts(snapshot), types);
  }

  method BuildPlainEdges(g: DependencyGraph, snapshot: ServerSnapshot)
    requires g.edges == []
    modifies g`edges
    ensures g.edges == PlainEdges(snapshot, g.nodes)
  {
    hide ContainerDatabaseEdges, NginxContainerEdges, UnitEdges, ServiceDatabaseEdges;
    BuildContainerDatabaseEdges(g, snapshot);
    BuildNginxContainerEdges(g, snapshot);
    BuildServiceDependencies(g, snapshot);
    BuildServiceDatabaseEdges(g, snapshot);
  }

  method BuildDependencyGraph(snapshot: Option<ServerSnapshot>, types: map<string, string>) returns (g: DependencyGraph)
    ensures fresh(g)
    ensures snapshot.None? ==> g.nodes == [] && g.edges == []
    ensures snapshot.Some? ==> BuiltFrom(snapshot.value, types, g.nodes, g.edges)
  {
    g := new DependencyGraph();
    if snapshot.None? {
      return;
    }
    BuildNodes(g, snapshot.value, types);
    BuildPlainEdges(g, snapshot.value);
    BuildEnvVarEdges(g, snapshot.value);
    BuildVolumeSharingEdges(g, snapshot.value);
  }
}
