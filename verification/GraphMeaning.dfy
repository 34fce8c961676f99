/** The dependency graph read off the snapshot: which edges of each kind a built graph holds, said of the records and
    texts alone. */
module GraphMeaning {
  import opened Sequences
  import opened Text
  import opened TextFacts
  import opened Snapshot
  import opened Walks
  import opened Graphs
  import opened GraphBuilder
  import opened BuiltGraphs
  import opened BuiltCycles

  // ----- the nodes -----

  ghost predicate IsNode(node: DependencyNode, types: map<string, string>, id: string, name: string, kind: string,
                         port: int) {
    && node.id == id && node.name == name && node.kind == kind && node.port == port
    && node.workloadType == if id in types then types[id] else ""
  }

  /** A container is known by its first container port. */
  ghost predicate AreContainers(nodes: seq<DependencyNode>, cs: seq<ContainerInfo>, types: map<string, string>) {
    |nodes| == |cs| && forall i :: 0 <= i < |cs| ==>
      IsNode(nodes[i], types, "container:" + cs[i].name, cs[i].name, "container",
             if cs[i].ports == [] then 0 else cs[i].ports[0].containerPort)
  }

  ghost predicate AreDatabases(nodes: seq<DependencyNode>, dbs: seq<DatabaseInfo>, types: map<string, string>) {
    |nodes| == |dbs| && forall i :: 0 <= i < |dbs| ==>
      IsNode(nodes[i], types, "database:" + dbs[i].dbType, dbs[i].dbType, "database", dbs[i].port)
  }

  ghost predicate AreServices(nodes: seq<DependencyNode>, svcs: seq<SystemService>, types: map<string, string>) {
    |nodes| == |svcs| && forall i :: 0 <= i < |svcs| ==>
      IsNode(nodes[i], types, "service:" + svcs[i].name, svcs[i].name, "service", 0)
  }

  ghost predicate AreVHosts(nodes: seq<DependencyNode>, vhs: seq<NginxVHost>, types: map<string, string>) {
    |nodes| == |vhs| && forall i :: 0 <= i < |vhs| ==>
      IsNode(nodes[i], types, "nginx:" + vhs[i].serverName, vhs[i].serverName, "nginx", 0)
  }

  /** One node for each record, in this order. */
  lemma NodesMean(snapshot: ServerSnapshot, types: map<string, string>)
      returns (containers: seq<DependencyNode>, databases: seq<DependencyNode>, services: seq<DependencyNode>,
               vhosts: seq<DependencyNode>)
    ensures NodesOf(snapshot, types) == containers + databases + services + vhosts
    ensures AreContainers(containers, snapshot.docker.GetOr([]), types)
    ensures AreDatabases(databases, snapshot.databases, types)
    ensures AreServices(services, snapshot.services, types)
    ensures AreVHosts(vhosts, if snapshot.nginx.Some? then snapshot.nginx.value.vhosts else [], types)
  {
    containers, databases := ContainerNodes(Containers(snapshot), types), DatabaseNodes(snapshot.databases, types);
    services, vhosts := ServiceNodes(snapshot.services, types), NginxNodes(VHosts(snapshot), types);
  }

  // ----- a port in an address -----

  lemma LastPiece(head: string, tail: string)
    requires ':' !in tail
    ensures var parts := Split(head + ([':'] + tail), ':');
            |parts| == multiset(head)[':'] + 2 && parts[|parts| - 1] == tail
  {
    var s := head + ([':'] + tail);
    SplitAtSeparator(head, tail, ':');
    SplitAtSeparator(tail, "", ':');
    SplitCounts(head, ':', []);
  }

  /** The number behind the last colon; zero when there is no colon or no number. */
  lemma AddressPort(head: string, tail: string)
    requires ':' !in tail
    ensures ExtractPortFromAddress(tail) == 0
    ensures ExtractPortFromAddress(head + ([':'] + tail)) == match Atoi(tail) case Some(port) => port case None => 0
  {
    LastPiece(head, tail);
    SplitAtSeparator(tail, "", ':');
  }

  /** In a URL with two colons or more: the number between the last colon and the next slash; zero when there is
      none. */
  lemma UrlPort(head: string, port: string, path: string)
    requires ':' in head && ':' !in port + path && '/' !in port && (path == "" || path[0] == '/')
    ensures ExtractPortFromURL(head + ([':'] + (port + path))) == match Atoi(port) case Some(p) => p case None => 0
  {
    LastPiece(head, port + path);
    if path == "" {
      assert port + path == port;
    } else {
      assert port + path == port + (['/'] + path[1..]);
    }
    SplitAtSeparator(port, if path == "" then "" else path[1..], '/');
  }

  /** With fewer than two colons the scheme decides. */
  lemma UrlDefaultPort(url: string)
    requires multiset(url)[':'] < 2
    ensures ExtractPortFromURL(url) == if "https" <= url then 443 else 80
  {
    SplitCounts(url, ':', []);
  }

  // ----- container -> database, by port -----

  ghost predicate ListensFor(c: ContainerInfo, pm: PortMapping, db: DatabaseInfo, e: DependencyEdge) {
    db.port > 0 && pm.containerPort == db.port
    && e == DependencyEdge("container:" + c.name, "database:" + db.dbType, ExposesPort(db.port, db.dbType))
  }

  lemma {:induction false} PortMatchesMean(c: ContainerInfo, pm: PortMapping, dbs: seq<DatabaseInfo>, e: DependencyEdge)
    ensures e in PortMatches(c, pm, dbs) <==> exists db :: db in dbs && ListensFor(c, pm, db, e)
  {
    if dbs != [] {
      var front, last := dbs[..|dbs| - 1], dbs[|dbs| - 1];
      assert dbs == front + [last];
      PortMatchesMean(c, pm, front, e);
      assert ListensFor(c, pm, last, e) ==> last in dbs;
    }
  }

  lemma {:induction false} ContainerMatchesMean(c: ContainerInfo, ports: seq<PortMapping>, dbs: seq<DatabaseInfo>,
                                                e: DependencyEdge)
    ensures e in ContainerMatches(c, ports, dbs) <==>
            exists pm, db :: pm in ports && db in dbs && ListensFor(c, pm, db, e)
  {
    hide ListensFor, PortMatches;
    if ports != [] {
      var front, last := ports[..|ports| - 1], ports[|ports| - 1];
      assert ports == front + [last];
      ContainerMatchesMean(c, front, dbs, e);
      PortMatchesMean(c, last, dbs, e);
    }
  }

  /** A port that the container uses inside is the port of the database. */
  ghost predicate PortEdge(snapshot: ServerSnapshot, e: DependencyEdge) {
    snapshot.docker.Some? && exists c, pm, db ::
      c in snapshot.docker.value && pm in c.ports && db in snapshot.databases && ListensFor(c, pm, db, e)
  }

  lemma {:induction false} ContainerDatabaseMean(cs: seq<ContainerInfo>, dbs: seq<DatabaseInfo>, e: DependencyEdge)
    ensures e in ContainerDatabaseEdges(cs, dbs) <==>
            exists c, pm, db :: c in cs && pm in c.ports && db in dbs && ListensFor(c, pm, db, e)
  {
    hide ListensFor, ContainerMatches;
    if cs != [] {
      var front, last := cs[..|cs| - 1], cs[|cs| - 1];
      assert cs == front + [last];
      ContainerDatabaseMean(front, dbs, e);
      ContainerMatchesMean(last, last.ports, dbs, e);
    }
  }

  // ----- nginx -> container, by host port -----

  ghost predicate Publishes(c: ContainerInfo, port: int) {
    exists pm :: pm in c.ports && pm.hostPort == port
  }

  /** Container `i` is the last one that publishes the host port. */
  ghost predicate LastPublisher(cs: seq<ContainerInfo>, port: int, i: int) {
    port > 0 && 0 <= i < |cs| && Publishes(cs[i], port) && forall k :: i < k < |cs| ==> !Publishes(cs[k], port)
  }

  lemma {:induction false} PortOwnersMean(owners: map<int, string>, c: ContainerInfo, ports: seq<PortMapping>,
                                          port: int)
    ensures var all := PortOwners(owners, c.name, ports);
            var published := port > 0 && exists pm :: pm in ports && pm.hostPort == port;
            && (port in all <==> published || port in owners)
            && (port in all ==> all[port] == if published then c.name else owners[port])
  {
    if ports != [] {
      var front, last := ports[..|ports| - 1], ports[|ports| - 1];
      assert ports == front + [last];
      PortOwnersMean(owners, c, front, port);
      assert last in ports;
    }
  }

  lemma {:induction false} HostPortsMean(cs: seq<ContainerInfo>, port: int)
    ensures port in HostPorts(cs) <==> exists i :: LastPublisher(cs, port, i)
    ensures forall i :: LastPublisher(cs, port, i) ==> port in HostPorts(cs) && HostPorts(cs)[port] == cs[i].name
  {
    if cs != [] {
      var n := |cs| - 1;
      var front, last := cs[..n], cs[n];
      HostPortsMean(front, port);
      PortOwnersMean(HostPorts(front), last, last.ports, port);
      if port > 0 && Publishes(last, port) {
        assert LastPublisher(cs, port, n);
      } else {
        LastPublisherStays(cs, port);
        if i :| LastPublisher(front, port, i) {
          assert LastPublisher(cs, port, i) && cs[i] == front[i];
        }
      }
    }
  }

  lemma LastPublisherStays(cs: seq<ContainerInfo>, port: int)
    requires cs != [] && !(port > 0 && Publishes(cs[|cs| - 1], port))
    ensures forall i :: LastPublisher(cs, port, i) <==> LastPublisher(cs[..|cs| - 1], port, i)
  {
    hide Publishes;
    var front := cs[..|cs| - 1];
    forall i
      ensures LastPublisher(cs, port, i) <==> LastPublisher(front, port, i)
    {
      assert forall k :: 0 <= k < |front| ==> front[k] == cs[k];
      if LastPublisher(cs, port, i) {
        assert i != |cs| - 1;
      }
    }
  }

  ghost predicate PassesTo(cs: seq<ContainerInfo>, vh: NginxVHost, i: int, e: DependencyEdge) {
    var port := ExtractPortFromURL(vh.proxyPass);
    && vh.proxyPass != "" && LastPublisher(cs, port, i)
    && e == DependencyEdge("nginx:" + vh.serverName, "container:" + cs[i].name, ProxyPass(port, cs[i].name))
  }

  lemma {:induction false} ProxyEdgesMean(vhs: seq<NginxVHost>, cs: seq<ContainerInfo>, e: DependencyEdge)
    ensures e in ProxyEdges(vhs, HostPorts(cs)) <==> exists vh, i :: vh in vhs && PassesTo(cs, vh, i, e)
  {
    hide LastPublisher, HostPorts, ExtractPortFromURL;
    if vhs != [] {
      var front, last := vhs[..|vhs| - 1], vhs[|vhs| - 1];
      assert vhs == front + [last];
      ProxyEdgesMean(front, cs, e);
      HostPortsMean(cs, ExtractPortFromURL(last.proxyPass));
      assert ExtractPortFromURL(last.proxyPass) > 0 || forall i :: !PassesTo(cs, last, i, e) by {
        forall i | LastPublisher(cs, ExtractPortFromURL(last.proxyPass), i)
          ensures ExtractPortFromURL(last.proxyPass) > 0
        {
          LastPublisherListens(cs, ExtractPortFromURL(last.proxyPass), i);
        }
      }
      if e in ProxyEdges(vhs, HostPorts(cs)) && e !in ProxyEdges(front, HostPorts(cs)) {
        var i :| LastPublisher(cs, ExtractPortFromURL(last.proxyPass), i);
        assert PassesTo(cs, last, i, e);
      }
    }
  }

  lemma LastPublisherListens(cs: seq<ContainerInfo>, port: int, i: int)
    requires LastPublisher(cs, port, i)
    ensures port > 0 && 0 <= i < |cs|
  {
  }

  /** The proxy target names the host port of the container, which is the last to publish it. */
  ghost predicate ProxyEdge(snapshot: ServerSnapshot, e: DependencyEdge) {
    snapshot.nginx.Some? && snapshot.docker.Some? && exists vh, i ::
      vh in snapshot.nginx.value.vhosts && PassesTo(snapshot.docker.value, vh, i, e)
  }

  ghost predicate ServesThrough(cs: seq<ContainerInfo>, upstream: string, address: string, vh: NginxVHost, i: int,
                                e: DependencyEdge) {
    var port := ExtractPortFromAddress(address);
    && vh.proxyPass != "" && Contains(vh.proxyPass, upstream) && LastPublisher(cs, port, i)
    && e == DependencyEdge("nginx:" + vh.serverName, "container:" + cs[i].name,
                           UpstreamServer(upstream, port, cs[i].name))
  }

  lemma {:induction false} UpstreamUsersMean(upstream: string, port: int, owner: string, vhs: seq<NginxVHost>,
                                             e: DependencyEdge)
    ensures e in UpstreamUsers(upstream, port, owner, vhs) <==>
            exists vh :: vh in vhs && vh.proxyPass != "" && Contains(vh.proxyPass, upstream)
              && e == DependencyEdge("nginx:" + vh.serverName, "container:" + owner,
                                     UpstreamServer(upstream, port, owner))
  {
    if vhs != [] {
      var front, last := vhs[..|vhs| - 1], vhs[|vhs| - 1];
      assert vhs == front + [last];
      UpstreamUsersMean(upstream, port, owner, front, e);
      assert last in vhs;
    }
  }

  lemma AddressUsersMean(upstream: string, address: string, vhs: seq<NginxVHost>, cs: seq<ContainerInfo>,
                         e: DependencyEdge)
    ensures e in AddressUsers(upstream, address, vhs, HostPorts(cs)) <==>
            exists vh, i :: vh in vhs && ServesThrough(cs, upstream, address, vh, i, e)
  {
    hide LastPublisher, HostPorts, ExtractPortFromAddress, UpstreamUsers, Contains;
    var port := ExtractPortFromAddress(address);
    HostPortsMean(cs, port);
    if i :| LastPublisher(cs, port, i) {
      LastPublisherListens(cs, port, i);
      UpstreamUsersMean(upstream, port, cs[i].name, vhs, e);
      if e in UpstreamUsers(upstream, port, cs[i].name, vhs) {
        var vh :| vh in vhs && vh.proxyPass != "" && Contains(vh.proxyPass, upstream)
          && e == DependencyEdge("nginx:" + vh.serverName, "container:" + cs[i].name,
                                 UpstreamServer(upstream, port, cs[i].name));
        assert ServesThrough(cs, upstream, address, vh, i, e);
      }
      if vh, j :| vh in vhs && ServesThrough(cs, upstream, address, vh, j, e) {
        LastPublisherListens(cs, port, j);
        assert cs[j].name == cs[i].name;
      }
    }
  }

  lemma {:induction false} AddressEdgesMean(upstream: string, addresses: seq<string>, vhs: seq<NginxVHost>,
                                            cs: seq<ContainerInfo>, e: DependencyEdge)
    ensures e in AddressEdges(upstream, addresses, vhs, HostPorts(cs)) <==>
            exists address, vh, i :: address in addresses && vh in vhs
                                     && ServesThrough(cs, upstream, address, vh, i, e)
  {
    hide ServesThrough, AddressUsers, HostPorts;
    if addresses != [] {
      var front, last := addresses[..|addresses| - 1], addresses[|addresses| - 1];
      assert addresses == front + [last];
      AddressEdgesMean(upstream, front, vhs, cs, e);
      AddressUsersMean(upstream, last, vhs, cs, e);
    }
  }

  lemma {:induction false} UpstreamEdgesMean(ups: seq<UpstreamConfig>, vhs: seq<NginxVHost>, cs: seq<ContainerInfo>,
                                             e: DependencyEdge)
    ensures e in UpstreamEdges(ups, vhs, HostPorts(cs)) <==>
            exists up, address, vh, i :: up in ups && address in up.addresses && vh in vhs
                                         && ServesThrough(cs, up.name, address, vh, i, e)
  {
    hide ServesThrough, AddressEdges, HostPorts;
    if ups != [] {
      var front, last := ups[..|ups| - 1], ups[|ups| - 1];
      assert ups == front + [last];
      UpstreamEdgesMean(front, vhs, cs, e);
      AddressEdgesMean(last.name, last.addresses, vhs, cs, e);
    }
  }

  /** The virtual host passes to an upstream one of whose servers is at the container's host port. */
  ghost predicate UpstreamEdge(snapshot: ServerSnapshot, e: DependencyEdge) {
    snapshot.nginx.Some? && snapshot.docker.Some? && exists up, address, vh, i ::
      up in snapshot.nginx.value.upstreams && address in up.addresses && vh in snapshot.nginx.value.vhosts
      && ServesThrough(snapshot.docker.value, up.name, address, vh, i, e)
  }

  // ----- services -----

  /** The directive names a service of the snapshot. */
  ghost predicate UnitEdge(snapshot: ServerSnapshot, e: DependencyEdge) {
    exists svc, dep :: svc in snapshot.services && dep in svc.dependsOn && NamesService(snapshot, dep)
      && e == DependencyEdge("service:" + svc.name, "service:" + dep, UnitDependency)
  }

  ghost predicate NamesService(snapshot: ServerSnapshot, name: string) {
    exists svc :: svc in snapshot.services && svc.name == name
  }

  lemma {:induction false} DependsOnMean(svc: string, deps: seq<string>, ids: seq<string>, e: DependencyEdge)
    ensures e in DependsOnEdges(svc, deps, ids) <==>
            exists dep :: dep in deps && "service:" + dep in ids
              && e == DependencyEdge("service:" + svc, "service:" + dep, UnitDependency)
  {
    if deps != [] {
      var front, last := deps[..|deps| - 1], deps[|deps| - 1];
      assert deps == front + [last];
      DependsOnMean(svc, front, ids, e);
      assert last in deps;
    }
  }

  lemma {:induction false} UnitEdgesMean(svcs: seq<SystemService>, ids: seq<string>, e: DependencyEdge)
    ensures e in UnitEdges(svcs, ids) <==>
            exists svc, dep :: svc in svcs && dep in svc.dependsOn && "service:" + dep in ids
              && e == DependencyEdge("service:" + svc.name, "service:" + dep, UnitDependency)
  {
    hide DependsOnEdges;
    if svcs != [] {
      var front, last := svcs[..|svcs| - 1], svcs[|svcs| - 1];
      assert svcs == front + [last];
      UnitEdgesMean(front, ids, e);
      DependsOnMean(last.name, last.dependsOn, ids, e);
    }
  }

  ghost predicate NameEdge(snapshot: ServerSnapshot, e: DependencyEdge) {
    exists svc, db :: svc in snapshot.services && db in snapshot.databases && IsNamedAfter(svc.name, db.dbType, e)
  }

  /** The lower-cased name holds the database type. */
  ghost predicate IsNamedAfter(svc: string, dbType: string, e: DependencyEdge) {
    && (exists k :: StandsAt(ToLower(svc), dbType, k))
    && e == DependencyEdge("service:" + svc, "database:" + dbType, NameMatches(dbType))
  }

  lemma {:induction false} NamedDatabasesMean(svc: string, dbs: seq<DatabaseInfo>, e: DependencyEdge)
    ensures e in NamedDatabases(svc, dbs) <==> exists db :: db in dbs && IsNamedAfter(svc, db.dbType, e)
  {
    hide StandsAt, Contains, ToLower;
    if dbs != [] {
      var front, last := dbs[..|dbs| - 1], dbs[|dbs| - 1];
      assert dbs == front + [last];
      NamedDatabasesMean(svc, front, e);
      ContainsMeans(ToLower(svc), last.dbType);
      assert last in dbs;
    }
  }

  lemma {:induction false} ServiceDatabaseMean(svcs: seq<SystemService>, dbs: seq<DatabaseInfo>, e: DependencyEdge)
    ensures e in ServiceDatabaseEdges(svcs, dbs) <==>
            exists svc, db :: svc in svcs && db in dbs && IsNamedAfter(svc.name, db.dbType, e)
  {
    hide IsNamedAfter, NamedDatabases;
    if svcs != [] {
      var front, last := svcs[..|svcs| - 1], svcs[|svcs| - 1];
      assert svcs == front + [last];
      ServiceDatabaseMean(front, dbs, e);
      NamedDatabasesMean(last.name, dbs, e);
    }
  }

  // ----- which node stands for a port -----

  ghost predicate LastDatabaseAt(dbs: seq<DatabaseInfo>, port: int, i: int) {
    0 <= i < |dbs| && dbs[i].port == port && forall k :: i < k < |dbs| ==> dbs[k].port != port
  }

  ghost predicate FirstPortIs(c: ContainerInfo, port: int) {
    c.ports != [] && c.ports[0].containerPort == port
  }

  ghost predicate LastContainerAt(cs: seq<ContainerInfo>, port: int, i: int) {
    0 <= i < |cs| && FirstPortIs(cs[i], port) && forall k :: i < k < |cs| ==> !FirstPortIs(cs[k], port)
  }

  /** The last database on the port; without one, the last container whose first container port it is. */
  ghost predicate ListensAt(snapshot: ServerSnapshot, port: int, id: string) {
    var cs, dbs := snapshot.docker.GetOr([]), snapshot.databases;
    port > 0 &&
    if exists db :: db in dbs && db.port == port
    then exists i :: LastDatabaseAt(dbs, port, i) && id == "database:" + dbs[i].dbType
    else exists i :: LastContainerAt(cs, port, i) && id == "container:" + cs[i].name
  }

  ghost predicate LastNodeAt(nodes: seq<DependencyNode>, port: int, i: int) {
    0 <= i < |nodes| && nodes[i].port == port && forall k :: i < k < |nodes| ==> nodes[k].port != port
  }

  lemma {:induction false} LastNodeListens(nodes: seq<DependencyNode>, port: int)
    requires port > 0
    ensures port in PortNodes(nodes) <==> exists i :: LastNodeAt(nodes, port, i)
    ensures forall i :: LastNodeAt(nodes, port, i) ==> port in PortNodes(nodes) && PortNodes(nodes)[port] == nodes[i].id
  {
    if nodes != [] {
      var n := |nodes| - 1;
      var front := nodes[..n];
      LastNodeListens(front, port);
      if nodes[n].port == port {
        assert LastNodeAt(nodes, port, n);
      } else {
        forall i
          ensures LastNodeAt(nodes, port, i) <==> LastNodeAt(front, port, i)
        {
          assert forall k :: 0 <= k < n ==> front[k] == nodes[k];
          if LastNodeAt(nodes, port, i) {
            assert i != n;
          }
        }
        if i :| LastNodeAt(front, port, i) {
          assert LastNodeAt(nodes, port, i);
        }
      }
    }
  }

  lemma LastDatabaseMeans(dbs: seq<DatabaseInfo>, types: map<string, string>, port: int)
    ensures forall i :: LastDatabaseAt(dbs, port, i) <==> LastNodeAt(DatabaseNodes(dbs, types), port, i)
  {
    var nodes := DatabaseNodes(dbs, types);
    assert forall k :: 0 <= k < |dbs| ==> nodes[k].port == dbs[k].port;
    hide DatabaseNodes;
  }

  lemma LastContainerMeans(cs: seq<ContainerInfo>, types: map<string, string>, port: int)
    requires port > 0
    ensures forall i :: LastContainerAt(cs, port, i) <==> LastNodeAt(ContainerNodes(cs, types), port, i)
  {
    var nodes := ContainerNodes(cs, types);
    assert forall k :: 0 <= k < |cs| ==> (nodes[k].port == port <==> FirstPortIs(cs[k], port));
    hide ContainerNodes, FirstPortIs;
  }

  lemma PortNodesMean(snapshot: ServerSnapshot, types: map<string, string>, port: int, id: string)
    ensures port in PortNodes(NodesOf(snapshot, types)) && PortNodes(NodesOf(snapshot, types))[port] == id
            <==> ListensAt(snapshot, port, id)
  {
    hide NodesOf, PortNodes;
    var cs, dbs := Containers(snapshot), snapshot.databases;
    var containers, databases := ContainerNodes(cs, types), DatabaseNodes(dbs, types);
    PortNodesOfSnapshot(snapshot, types);
    PortNodesAreNodes(containers, port);
    PortNodesAreNodes(databases, port);
    if port > 0 {
      LastNodeListens(containers, port);
      LastNodeListens(databases, port);
      LastDatabaseMeans(dbs, types, port);
      LastContainerMeans(cs, types, port);
      if db :| db in dbs && db.port == port {
        var k :| 0 <= k < |dbs| && dbs[k] == db;
        assert databases[k] in databases && databases[k].port == port;
      }
      if n :| n in databases && n.port == port {
        var k :| 0 <= k < |databases| && databases[k] == n;
        assert dbs[k] in dbs && dbs[k].port == port;
      }
    }
  }

  // ----- container -> database or container, by environment variable -----

  /** Upper-cased, the name holds one of the words. */
  ghost predicate Mentions(name: string, words: seq<string>) {
    exists i, k :: 0 <= i < |words| && StandsAt(ToUpper(name), words[i], k)
  }

  ghost predicate FirstDatabase(dbs: seq<DatabaseInfo>, i: int) {
    0 <= i < |dbs| && dbs[i].port > 0 && forall k :: 0 <= k < i ==> dbs[k].port <= 0
  }

  ghost predicate FirstRedis(dbs: seq<DatabaseInfo>, i: int) {
    && 0 <= i < |dbs| && dbs[i].dbType == "redis" && dbs[i].port > 0
    && forall k :: 0 <= k < i ==> dbs[k].dbType != "redis" || dbs[k].port <= 0
  }

  ghost predicate FirstQueue(mqs: seq<MessageQueueInfo>, i: int) {
    0 <= i < |mqs| && mqs[i].port > 0 && forall k :: 0 <= k < i ==> mqs[k].port <= 0
  }

  /** The first group of words that the name mentions decides, even when nothing of its kind has a port. */
  ghost predicate AsksFor(snapshot: ServerSnapshot, name: string, port: int, kind: string) {
    var dbs, mqs := snapshot.databases, snapshot.messageQueues;
    if Mentions(name, ["DATABASE", "DB_", "MYSQL", "POSTGRES"])
    then kind == "database" && exists i :: FirstDatabase(dbs, i) && dbs[i].port == port
    else if Mentions(name, ["REDIS", "CACHE"])
    then kind == "Redis" && exists i :: FirstRedis(dbs, i) && dbs[i].port == port
    else Mentions(name, ["AMQP", "RABBIT", "QUEUE"])
         && kind == "queue" && exists i :: FirstQueue(mqs, i) && mqs[i].port == port
  }

  lemma {:induction false} FirstDatabaseMeans(dbs: seq<DatabaseInfo>)
    ensures FirstDatabasePort(dbs) > 0 <==> exists i :: FirstDatabase(dbs, i)
    ensures forall i :: FirstDatabase(dbs, i) ==> FirstDatabasePort(dbs) == dbs[i].port
  {
    if dbs == [] {
    } else if dbs[0].port > 0 {
      assert FirstDatabase(dbs, 0);
    } else {
      FirstDatabaseMeans(dbs[1..]);
      forall i
        ensures FirstDatabase(dbs, i) <==> FirstDatabase(dbs[1..], i - 1)
      {
        assert forall k :: 0 < k < |dbs| ==> dbs[k] == dbs[1..][k - 1];
      }
      if i :| FirstDatabase(dbs[1..], i) {
        assert FirstDatabase(dbs[1..], i + 1 - 1) && FirstDatabase(dbs, i + 1);
      }
    }
  }

  lemma {:induction false} FirstRedisMeans(dbs: seq<DatabaseInfo>)
    ensures FirstRedisPort(dbs) > 0 <==> exists i :: FirstRedis(dbs, i)
    ensures forall i :: FirstRedis(dbs, i) ==> FirstRedisPort(dbs) == dbs[i].port
  {
    if dbs == [] {
    } else if dbs[0].dbType == "redis" && dbs[0].port > 0 {
      assert FirstRedis(dbs, 0);
    } else {
      FirstRedisMeans(dbs[1..]);
      forall i
        ensures FirstRedis(dbs, i) <==> FirstRedis(dbs[1..], i - 1)
      {
        assert forall k :: 0 < k < |dbs| ==> dbs[k] == dbs[1..][k - 1];
      }
      if i :| FirstRedis(dbs[1..], i) {
        assert FirstRedis(dbs[1..], i + 1 - 1) && FirstRedis(dbs, i + 1);
      }
    }
  }

  lemma {:induction false} FirstQueueMeans(mqs: seq<MessageQueueInfo>)
    ensures FirstQueuePort(mqs) > 0 <==> exists i :: FirstQueue(mqs, i)
    ensures forall i :: FirstQueue(mqs, i) ==> FirstQueuePort(mqs) == mqs[i].port
  {
    if mqs == [] {
    } else if mqs[0].port > 0 {
      assert FirstQueue(mqs, 0);
    } else {
      FirstQueueMeans(mqs[1..]);
      forall i
        ensures FirstQueue(mqs, i) <==> FirstQueue(mqs[1..], i - 1)
      {
        assert forall k :: 0 < k < |mqs| ==> mqs[k] == mqs[1..][k - 1];
      }
      if i :| FirstQueue(mqs[1..], i) {
        assert FirstQueue(mqs[1..], i + 1 - 1) && FirstQueue(mqs, i + 1);
      }
    }
  }

  lemma MentionsMeans(name: string, words: seq<string>)
    ensures Mentions(name, words) <==> exists i :: 0 <= i < |words| && Contains(ToUpper(name), words[i])
  {
    hide StandsAt, Contains, ToUpper;
    forall i | 0 <= i < |words|
      ensures Contains(ToUpper(name), words[i]) <==> exists k :: StandsAt(ToUpper(name), words[i], k)
    {
      ContainsMeans(ToUpper(name), words[i]);
    }
  }

  lemma SuggestionsMean(name: string)
    ensures SuggestsDatabase(name) <==> Mentions(name, ["DATABASE", "DB_", "MYSQL", "POSTGRES"])
    ensures SuggestsCache(name) <==> Mentions(name, ["REDIS", "CACHE"])
    ensures SuggestsQueue(name) <==> Mentions(name, ["AMQP", "RABBIT", "QUEUE"])
  {
    hide Contains, ToUpper, Mentions;
    var databases, caches, queues := ["DATABASE", "DB_", "MYSQL", "POSTGRES"], ["REDIS", "CACHE"],
                                     ["AMQP", "RABBIT", "QUEUE"];
    assert databases[0] == "DATABASE" && databases[1] == "DB_" && databases[2] == "MYSQL" && databases[3] == "POSTGRES";
    assert caches[0] == "REDIS" && caches[1] == "CACHE";
    assert queues[0] == "AMQP" && queues[1] == "RABBIT" && queues[2] == "QUEUE";
    MentionsMeans(name, databases);
    MentionsMeans(name, caches);
    MentionsMeans(name, queues);
  }

  lemma ResolveMeans(snapshot: ServerSnapshot, name: string, port: int, kind: string)
    ensures Resolve(name, snapshot.databases, snapshot.messageQueues) == Target(port, kind)
            <==> AsksFor(snapshot, name, port, kind)
    ensures AsksFor(snapshot, name, port, kind) ==> port > 0
  {
    hide Mentions, SuggestsDatabase, SuggestsCache, SuggestsQueue, FirstDatabasePort, FirstRedisPort, FirstQueuePort;
    SuggestionsMean(name);
    FirstDatabaseMeans(snapshot.databases);
    FirstRedisMeans(snapshot.databases);
    FirstQueueMeans(snapshot.messageQueues);
  }

  // ----- the edges of a built graph -----

  ghost predicate PlainEdge(snapshot: ServerSnapshot, e: DependencyEdge) {
    match e.reason
    case ExposesPort(_, _) => PortEdge(snapshot, e)
    case ProxyPass(_, _) => ProxyEdge(snapshot, e)
    case UpstreamServer(_, _, _) => UpstreamEdge(snapshot, e)
    case UnitDependency => UnitEdge(snapshot, e)
    case NameMatches(_) => NameEdge(snapshot, e)
    case _ => false
  }

  lemma NginxEdgesMean(snapshot: ServerSnapshot, e: DependencyEdge)
    ensures e in NginxContainerEdges(snapshot) <==> ProxyEdge(snapshot, e) || UpstreamEdge(snapshot, e)
  {
    hide PassesTo, ServesThrough, ProxyEdges, UpstreamEdges, HostPorts;
    if snapshot.nginx.Some? && snapshot.docker.Some? {
      var vhs, cs := snapshot.nginx.value.vhosts, snapshot.docker.value;
      ProxyEdgesMean(vhs, cs, e);
      UpstreamEdgesMean(snapshot.nginx.value.upstreams, vhs, cs, e);
    }
  }

  lemma ServiceIds(snapshot: ServerSnapshot, types: map<string, string>, name: string)
    ensures "service:" + name in Ids(NodesOf(snapshot, types)) <==> NamesService(snapshot, name)
  {
    NodeIds(snapshot, types);
    if "service:" + name in Ids(NodesOf(snapshot, types)) {
      ServiceOfId(snapshot, types, name);
    }
  }

  lemma PrefixedAlike(a: string, b: string)
    ensures "service:" + a == "service:" + b <==> a == b
  {
    assert ("service:" + a)[8..] == a && ("service:" + b)[8..] == b;
  }

  lemma KindsOfOthers(containers: seq<DependencyNode>, databases: seq<DependencyNode>, vhosts: seq<DependencyNode>,
                      cs: seq<ContainerInfo>, dbs: seq<DatabaseInfo>, vhs: seq<NginxVHost>, types: map<string, string>)
    requires AreContainers(containers, cs, types) && AreDatabases(databases, dbs, types)
             && AreVHosts(vhosts, vhs, types)
    ensures forall i :: 0 <= i < |containers| ==> KindOf(containers[i].id) == ContainerKind
    ensures forall i :: 0 <= i < |databases| ==> KindOf(databases[i].id) == DatabaseKind
    ensures forall i :: 0 <= i < |vhosts| ==> KindOf(vhosts[i].id) == NginxKind
  {
    hide KindOf;
    forall name
      ensures KindOf("container:" + name) == ContainerKind && KindOf("database:" + name) == DatabaseKind
      ensures KindOf("nginx:" + name) == NginxKind
    {
      IdKinds(name);
    }
  }

  lemma ServiceOfId(snapshot: ServerSnapshot, types: map<string, string>, name: string)
    requires "service:" + name in Ids(NodesOf(snapshot, types))
    ensures NamesService(snapshot, name)
  {
    hide NodesOf, KindOf, AreContainers, AreDatabases, AreServices, AreVHosts;
    var containers, databases, services, vhosts := NodesMean(snapshot, types);
    var nodes := containers + databases + services + vhosts;
    var i :| 0 <= i < |nodes| && nodes[i].id == "service:" + name by {
      var m :| 0 <= m < |nodes| && Ids(nodes)[m] == "service:" + name;
      assert nodes[m].id == "service:" + name;
    }
    IdKinds(name);
    KindsOfOthers(containers, databases, vhosts, snapshot.docker.GetOr([]), snapshot.databases,
      if snapshot.nginx.Some? then snapshot.nginx.value.vhosts else [], types);
    var k := i - |containers| - |databases|;
    assert 0 <= k < |services| && services[k] == nodes[i];
    NamedByNode(snapshot, services, types, k, name);
  }

  lemma NamedByNode(snapshot: ServerSnapshot, services: seq<DependencyNode>, types: map<string, string>, k: nat,
                    name: string)
    requires AreServices(services, snapshot.services, types)
    requires k < |services| && services[k].id == "service:" + name
    ensures NamesService(snapshot, name)
  {
    var svc := snapshot.services[k];
    PrefixedAlike(svc.name, name);
    assert svc in snapshot.services;
  }

  lemma PlainEdgesMean(snapshot: ServerSnapshot, types: map<string, string>, e: DependencyEdge)
    ensures e in PlainEdges(snapshot, NodesOf(snapshot, types)) <==> PlainEdge(snapshot, e)
  {
    hide ContainerDatabaseEdges, NginxContainerEdges, UnitEdges, ServiceDatabaseEdges, NodesOf, NamesService;
    var ids := Ids(NodesOf(snapshot, types));
    ContainerDatabaseMean(Containers(snapshot), snapshot.databases, e);
    NginxEdgesMean(snapshot, e);
    UnitEdgesMean(snapshot.services, ids, e);
    ServiceDatabaseMean(snapshot.services, snapshot.databases, e);
    forall dep
      ensures "service:" + dep in ids <==> NamesService(snapshot, dep)
    {
      ServiceIds(snapshot, types, dep);
    }
  }

  /** The variable names a target that a node stands for. */
  ghost predicate EnvEdge(snapshot: ServerSnapshot, e: DependencyEdge) {
    e.reason.EnvSuggests? && snapshot.docker.Some? && exists c, port ::
      c in snapshot.docker.value && e.reason.envVar in c.envVarNames && e.from == "container:" + c.name
      && EnvLeadsTo(snapshot, e.reason.envVar, port, e.reason.kind, e.to)
  }

  ghost predicate EnvLeadsTo(snapshot: ServerSnapshot, name: string, port: int, kind: string, to: string) {
    AsksFor(snapshot, name, port, kind) && ListensAt(snapshot, port, to)
  }

  /** Only such edges are added, and none between two ids that are joined that way. */
  ghost predicate EnvAdded(before: seq<DependencyEdge>, after: seq<DependencyEdge>, snapshot: ServerSnapshot) {
    && before <= after
    && (forall k :: |before| <= k < |after| ==>
      EnvEdge(snapshot, after[k]) && !HasArc(after[..k], after[k].from, after[k].to))
  }

  lemma EnvAddedAppend(before: seq<DependencyEdge>, edges: seq<DependencyEdge>, snapshot: ServerSnapshot,
                       e: DependencyEdge)
    requires EnvAdded(before, edges, snapshot) && EnvEdge(snapshot, e) && !HasArc(edges, e.from, e.to)
    ensures EnvAdded(before, edges + [e], snapshot)
  {
    hide EnvEdge, HasArc;
    var longer := edges + [e];
    forall k | |before| <= k < |longer|
      ensures EnvEdge(snapshot, longer[k]) && !HasArc(longer[..k], longer[k].from, longer[k].to)
    {
      if k < |edges| {
        assert longer[..k] == edges[..k];
      } else {
        assert longer[..k] == edges;
      }
    }
  }

  lemma LeadsMeans(snapshot: ServerSnapshot, types: map<string, string>, name: string, port: int, kind: string,
                   to: string)
    ensures EnvLeadsTo(snapshot, name, port, kind, to) <==>
            var ports := PortNodes(NodesOf(snapshot, types));
            && Resolve(name, snapshot.databases, snapshot.messageQueues) == Target(port, kind)
            && port in ports && ports[port] == to
  {
    hide AsksFor, ListensAt, Resolve, NodesOf, PortNodes;
    ResolveMeans(snapshot, name, port, kind);
    PortNodesMean(snapshot, types, port, to);
  }

  lemma EnvVarAdds(before: seq<DependencyEdge>, edges: seq<DependencyEdge>, snapshot: ServerSnapshot,
                   types: map<string, string>, c: ContainerInfo, name: string)
    requires EnvAdded(before, edges, snapshot) && c in Containers(snapshot) && name in c.envVarNames
    ensures EnvAdded(before, WithEnvVar(edges, ContainerId(c.name), name, PortNodes(NodesOf(snapshot, types)),
                                        snapshot.databases, snapshot.messageQueues), snapshot)
  {
    hide EnvAdded, HasArc, EnvLeadsTo, NodesOf, PortNodes, Resolve;
    var ports := PortNodes(NodesOf(snapshot, types));
    match Resolve(name, snapshot.databases, snapshot.messageQueues)
    case NoTarget =>
    case Target(port, kind) =>
      if port in ports && !HasArc(edges, ContainerId(c.name), ports[port]) {
        var e := DependencyEdge(ContainerId(c.name), ports[port], EnvSuggests(name, kind));
        LeadsMeans(snapshot, types, name, port, kind, ports[port]);
        assert EnvEdge(snapshot, e);
        EnvAddedAppend(before, edges, snapshot, e);
      }
  }

  lemma {:induction false} EnvVarsAdded(before: seq<DependencyEdge>, edges: seq<DependencyEdge>,
                                        snapshot: ServerSnapshot, types: map<string, string>, c: ContainerInfo,
                                        names: seq<string>)
    requires EnvAdded(before, edges, snapshot) && c in Containers(snapshot) && names <= c.envVarNames
    ensures EnvAdded(before, WithEnvVars(edges, ContainerId(c.name), names, PortNodes(NodesOf(snapshot, types)),
                                         snapshot.databases, snapshot.messageQueues), snapshot)
  {
    hide EnvAdded, WithEnvVar, NodesOf, PortNodes;
    if names != [] {
      var n := |names| - 1;
      EnvVarsAdded(before, edges, snapshot, types, c, names[..n]);
      assert names[n] == c.envVarNames[n];
      EnvVarAdds(before, WithEnvVars(edges, ContainerId(c.name), names[..n], PortNodes(NodesOf(snapshot, types)),
                                     snapshot.databases, snapshot.messageQueues), snapshot, types, c, names[n]);
    }
  }

  lemma {:induction false} EnvEdgesAdded(edges: seq<DependencyEdge>, snapshot: ServerSnapshot,
                                         types: map<string, string>, cs: seq<ContainerInfo>)
    requires cs <= Containers(snapshot)
    ensures EnvAdded(edges, WithEnvEdges(edges, cs, PortNodes(NodesOf(snapshot, types)), snapshot.databases,
                                         snapshot.messageQueues), snapshot)
  {
    hide WithEnvVars, NodesOf, PortNodes, EnvEdge, HasArc;
    if cs != [] {
      var n := |cs| - 1;
      EnvEdgesAdded(edges, snapshot, types, cs[..n]);
      assert cs[n] == Containers(snapshot)[n];
      EnvVarsAdded(edges, WithEnvEdges(edges, cs[..n], PortNodes(NodesOf(snapshot, types)), snapshot.databases,
                                       snapshot.messageQueues), snapshot, types, cs[n], cs[n].envVarNames);
    }
  }

  /** Every variable that leads somewhere has joined its container to that node. */
  ghost predicate EnvLinked(snapshot: ServerSnapshot, edges: seq<DependencyEdge>) {
    forall c, name, port, kind, to | snapshot.docker.Some? && c in snapshot.docker.value && name in c.envVarNames
        && EnvLeadsTo(snapshot, name, port, kind, to) ::
      HasArc(edges, "container:" + c.name, to)
  }

  lemma EnvIsLinked(snapshot: ServerSnapshot, types: map<string, string>)
    ensures EnvLinked(snapshot, FixedEdges(snapshot, NodesOf(snapshot, types)))
  {
    hide EnvLeadsTo, NodesOf, PortNodes, Resolve, WithEnvEdges, PlainEdges, HasArc;
    var nodes := NodesOf(snapshot, types);
    forall c, name, port, kind, to | snapshot.docker.Some? && c in snapshot.docker.value && name in c.envVarNames
      && EnvLeadsTo(snapshot, name, port, kind, to)
      ensures HasArc(FixedEdges(snapshot, nodes), "container:" + c.name, to)
    {
      LeadsMeans(snapshot, types, name, port, kind, to);
      EnvEdgesLink(PlainEdges(snapshot, nodes), Containers(snapshot), c, name, to, PortNodes(nodes),
        snapshot.databases, snapshot.messageQueues);
    }
  }

  // ----- container -> container, shared volumes -----

  /** Two mounts of a volume: by an earlier and a later container, or two by the same one. */
  ghost predicate MountBoth(cs: seq<ContainerInfo>, vol: string, a: int, b: int) {
    && 0 <= a <= b < |cs| && vol in cs[a].volumes && vol in cs[b].volumes
    && (a == b ==> multiset(cs[a].volumes)[vol] >= 2)
  }

  ghost predicate ShareEdge(snapshot: ServerSnapshot, e: DependencyEdge) {
    e.reason.SharedVolume? && snapshot.docker.Some? && exists a, b ::
      MountBoth(snapshot.docker.value, e.reason.volume, a, b)
      && e.from == "container:" + snapshot.docker.value[a].name && e.to == "container:" + snapshot.docker.value[b].name
  }

  lemma {:induction false} UsersMount(cs: seq<ContainerInfo>, vol: string, i: nat, j: nat) returns (a: nat, b: nat)
    requires IsPair(VolumeUsers(cs, vol), i, j)
    ensures MountBoth(cs, vol, a, b)
    ensures VolumeUsers(cs, vol)[i] == cs[a].name && VolumeUsers(cs, vol)[j] == cs[b].name
  {
    var front, last := cs[..|cs| - 1], cs[|cs| - 1];
    var users := VolumeUsers(front, vol);
    if j < |users| {
      a, b := UsersMount(front, vol, i, j);
    } else {
      MountsName(last.name, last.volumes, vol);
      var m := Mounts(last.name, last.volumes, vol);
      assert m[j - |users|] in m;
      b := |cs| - 1;
      if i < |users| {
        a := UsersAreContainers(front, vol, i);
      } else {
        a := b;
        assert m[i - |users|] in m;
      }
    }
  }

  lemma SharesMean(snapshot: ServerSnapshot, e: DependencyEdge)
    requires SharesFrom(Containers(snapshot), e)
    ensures ShareEdge(snapshot, e)
  {
    hide VolumeUsers;
    var cs, vol := Containers(snapshot), e.reason.volume;
    var users := VolumeUsers(cs, vol);
    var i, j :| IsPair(users, i, j) && e.from == ContainerId(users[i]) && e.to == ContainerId(users[j]);
    var a, b := UsersMount(cs, vol, i, j);
    assert cs != [];
  }

  /** Every two mounts of one volume are joined, in one direction or the other. */
  ghost predicate SharesLinked(snapshot: ServerSnapshot, edges: seq<DependencyEdge>) {
    var cs := snapshot.docker.GetOr([]);
    forall vol, a, b :: MountBoth(cs, vol, a, b) ==> Joined(edges, "container:" + cs[a].name, "container:" + cs[b].name)
  }

  lemma SharesAreLinked(snapshot: ServerSnapshot, before: seq<DependencyEdge>, edges: seq<DependencyEdge>)
    requires AddsShares(before, edges, Containers(snapshot))
    ensures SharesLinked(snapshot, edges)
  {
    hide OnlyShares, Joined, VolumeUsers;
    var cs := Containers(snapshot);
    forall vol, a, b | MountBoth(cs, vol, a, b)
      ensures Joined(edges, "container:" + cs[a].name, "container:" + cs[b].name)
    {
      var i, j;
      if a == b {
        assert cs[a] in cs;
        i, j := DoubleMountUsers(cs, cs[a], vol);
      } else {
        i, j := SharersPair(cs, vol, a, b);
      }
      assert PairsJoined(edges, VolumeUsers(cs, vol), |VolumeUsers(cs, vol)|);
    }
  }

  // ----- the whole graph -----

  ghost predicate EdgeMeans(snapshot: ServerSnapshot, e: DependencyEdge) {
    PlainEdge(snapshot, e) || EnvEdge(snapshot, e) || ShareEdge(snapshot, e)
  }

  /** The edges of a built graph are these, whatever order the volumes were walked in: every pair that a port, a proxy
      target, an upstream, a directive or a service name joins, under that reason; for each variable that leads to a
      node an edge to it, from this or an earlier reason; and one between any two mounts of a volume that have none in
      either direction. */
  lemma BuiltMeans(snapshot: ServerSnapshot, types: map<string, string>, nodes: seq<DependencyNode>,
                   edges: seq<DependencyEdge>)
    requires BuiltFrom(snapshot, types, nodes, edges)
    ensures forall e :: e in edges ==> EdgeMeans(snapshot, e)
    ensures forall e :: PlainEdge(snapshot, e) ==> e in edges
    ensures EnvLinked(snapshot, edges) && SharesLinked(snapshot, edges)
    ensures forall k :: 0 <= k < |edges| ==>
            && (edges[k].reason.EnvSuggests? ==> !HasArc(edges[..k], edges[k].from, edges[k].to))
            && (edges[k].reason.SharedVolume? ==> !Joined(edges[..k], edges[k].from, edges[k].to))
  {
    hide WalksVolumes, NodesOf, PlainEdges, WithEnvEdges, HasArc, PlainEdge, Joined, SharesFrom, EnvLeadsTo,
      SharesLinked;
    var plain, fixedEdges, cs := PlainEdges(snapshot, nodes), FixedEdges(snapshot, nodes), Containers(snapshot);
    VolumeWalkAddsShares(fixedEdges, edges, cs);
    SharesAreLinked(snapshot, fixedEdges, edges);
    EnvEdgesAdded(plain, snapshot, types, cs);
    EnvIsLinked(snapshot, types);
    ArcsGrow(fixedEdges, edges);
    forall e
      ensures e in plain <==> PlainEdge(snapshot, e)
    {
      PlainEdgesMean(snapshot, types, e);
    }
    forall k | 0 <= k < |edges|
      ensures EdgeMeans(snapshot, edges[k])
      ensures edges[k].reason.EnvSuggests? ==> !HasArc(edges[..k], edges[k].from, edges[k].to)
      ensures edges[k].reason.SharedVolume? ==> !Joined(edges[..k], edges[k].from, edges[k].to)
    {
      BuiltEdgeAt(snapshot, plain, fixedEdges, edges, k);
    }
    assert forall k :: 0 <= k < |plain| ==> plain[k] == edges[k];
  }

  lemma BuiltEdgeAt(snapshot: ServerSnapshot, plain: seq<DependencyEdge>, fixedEdges: seq<DependencyEdge>,
                    edges: seq<DependencyEdge>, k: nat)
    requires EnvAdded(plain, fixedEdges, snapshot) && OnlyShares(fixedEdges, edges, Containers(snapshot))
    requires k < |edges| && forall e :: e in plain ==> PlainEdge(snapshot, e)
    ensures EdgeMeans(snapshot, edges[k])
    ensures edges[k].reason.EnvSuggests? ==> !HasArc(edges[..k], edges[k].from, edges[k].to)
    ensures edges[k].reason.SharedVolume? ==> !Joined(edges[..k], edges[k].from, edges[k].to)
  {
    hide HasArc, Joined, SharesFrom;
    if k < |plain| {
      assert edges[k] == fixedEdges[k] == plain[k];
      assert PlainEdge(snapshot, plain[k]);
      PlainReason(snapshot, plain[k]);
    } else if k < |fixedEdges| {
      assert edges[k] == fixedEdges[k] && edges[..k] == fixedEdges[..k];
    } else {
      SharesMean(snapshot, edges[k]);
    }
  }

  lemma PlainReason(snapshot: ServerSnapshot, e: DependencyEdge)
    requires PlainEdge(snapshot, e)
    ensures !e.reason.EnvSuggests? && !e.reason.SharedVolume?
  {
  }
}
