/** The drift report read off the two snapshots: which changes it holds, said of the records' fields alone. */
module DriftMeaning {
  import opened Sequences
  import opened Text
  import opened TextFacts
  import opened SortedStrings
  import opened Snapshot
  import opened Drift
  import opened DriftFacts

  // ----- which part of the report a change is in -----

  lemma InReport(oldSnap: ServerSnapshot, newSnap: ServerSnapshot, c: DriftChange)
    ensures c in ReportOf(oldSnap, newSnap).changes <==> c in Part(oldSnap, newSnap, c.category)
  {
    hide NameChanges, ItemChanges, DockerChanges, SystemChanges, SortChanges, ServiceItems, PortItems, DiskItems;
    var found := FoundChanges(oldSnap, newSnap);
    if c in ReportOf(oldSnap, newSnap).changes {
      ReportedIsInPart(oldSnap, newSnap, c);
    }
    if c in Part(oldSnap, newSnap, c.category) {
      assert c in found;
      SortPermutes(found);
      assert c in multiset(SortChanges(found));
    }
  }

  // ----- names -----

  /** `name` is one of the values, less the spaces around it, and not blank. */
  ghost predicate Lists(values: seq<string>, name: string) {
    name != "" && exists value :: value in values && TrimSpace(value) == name
  }

  lemma {:induction false} NamesMean(values: seq<string>, name: string)
    ensures name in Names(values) <==> Lists(values, name)
  {
    if values != [] {
      var front, last := values[..|values| - 1], values[|values| - 1];
      assert values == front + [last];
      NamesMean(front, name);
      ShownElements(TrimmedNames(front), last);
    }
  }

  ghost predicate NameChange(oldValues: seq<string>, newValues: seq<string>, c: DriftChange) {
    || (Lists(newValues, c.name) && !Lists(oldValues, c.name)
        && c == DriftChange(c.category, Added, c.name, Nothing, Name(c.name), Info))
    || (Lists(oldValues, c.name) && !Lists(newValues, c.name)
        && c == DriftChange(c.category, Removed, c.name, Name(c.name), Nothing, Warning))
  }

  lemma NameChangesMean(category: Category, oldValues: seq<string>, newValues: seq<string>, c: DriftChange)
    requires c.category == category
    ensures c in NameChanges(category, oldValues, newValues) <==> NameChange(oldValues, newValues, c)
  {
    hide NewNames, Names, Lists;
    var added, removed := NewNames(oldValues, newValues), NewNames(newValues, oldValues);
    NewNamesAreNew(oldValues, newValues);
    NewNamesAreNew(newValues, oldValues);
    NamesMean(oldValues, c.name);
    NamesMean(newValues, c.name);
    NameChangeLists(category, added, removed, c);
  }

  lemma NameChangeLists(category: Category, added: seq<string>, removed: seq<string>, c: DriftChange)
    ensures c in AddedNames(category, added)
            <==> c.name in added && c == DriftChange(category, Added, c.name, Nothing, Name(c.name), Info)
    ensures c in RemovedNames(category, removed)
            <==> c.name in removed && c == DriftChange(category, Removed, c.name, Name(c.name), Nothing, Warning)
  {
    if c.name in added {
      var i :| 0 <= i < |added| && added[i] == c.name;
      assert AddedNames(category, added)[i] == AddedName(category, c.name);
    }
    if c.name in removed {
      var i :| 0 <= i < |removed| && removed[i] == c.name;
      assert RemovedNames(category, removed)[i] == RemovedName(category, c.name);
    }
  }

  // ----- when two records differ -----

  ghost predicate SameNames(a: seq<string>, b: seq<string>) {
    forall name :: Lists(a, name) <==> Lists(b, name)
  }

  lemma SameSlicesMean(a: seq<string>, b: seq<string>)
    ensures SameStringSliceIgnoreOrder(a, b) <==> SameNames(a, b)
  {
    hide UniqueSorted, Names, Lists;
    UniqueSortedNames(a);
    UniqueSortedNames(b);
    forall name
      ensures name in Names(a) <==> Lists(a, name)
      ensures name in Names(b) <==> Lists(b, name)
    {
      NamesMean(a, name);
      NamesMean(b, name);
    }
    if SameNames(a, b) {
      assert Names(a) == Names(b);
      AscendingIsUnique(UniqueSorted(a), UniqueSorted(b));
    }
  }

  lemma ServicesDiffer(a: SystemService, b: SystemService)
    ensures !Changed(ServiceItem(a), ServiceItem(b)) <==>
            && a.description == b.description && a.loadState == b.loadState && a.activeState == b.activeState
            && a.subState == b.subState && a.unitType == b.unitType && SameNames(a.dependsOn, b.dependsOn)
  {
    SameSlicesMean(a.dependsOn, b.dependsOn);
  }

  lemma PortsDiffer(a: OpenPort, b: OpenPort)
    ensures !Changed(PortItem(a), PortItem(b)) <==>
            a.protocol == b.protocol && a.address == b.address && a.process == b.process && a.pid == b.pid
  {
  }

  lemma DisksDiffer(a: DiskPartition, b: DiskPartition)
    ensures !Changed(DiskItem(a), DiskItem(b)) <==>
            && a.filesystem == b.filesystem && a.sizeGB == b.sizeGB && a.usedGB == b.usedGB && a.availGB == b.availGB
            && a.usePercent == b.usePercent
  {
  }

  /** A mapping in `ports` from this host port to this container port, under this protocol, whose case does not count
      and whose trailing spaces do not either. */
  ghost predicate Maps(ports: seq<PortMapping>, host: int, inside: int, protocol: string) {
    exists p :: p in ports && p.hostPort == host && p.containerPort == inside
                && TrimRight(ToLower(p.protocol)) == protocol
  }

  ghost predicate SameMappings(a: seq<PortMapping>, b: seq<PortMapping>) {
    forall host, inside, protocol :: Maps(a, host, inside, protocol) <==> Maps(b, host, inside, protocol)
  }

  function MappingText(host: int, inside: int, protocol: string): string {
    Decimal(host) + "->" + Decimal(inside) + "/" + protocol
  }

  lemma {:induction false} PortStringsMean(ports: seq<PortMapping>, text: string)
    ensures text in PortStrings(ports) <==>
            exists p :: p in ports && text == MappingText(p.hostPort, p.containerPort, ToLower(p.protocol))
  {
    hide Decimal, ToLower;
    if ports != [] {
      var front, last := ports[..|ports| - 1], ports[|ports| - 1];
      assert ports == front + [last];
      PortStringsMean(front, text);
    }
  }

  lemma DecimalChars(n: int)
    ensures Decimal(n) != "" && forall i :: 0 <= i < |Decimal(n)| ==>
            Decimal(n)[i] == '-' || '0' <= Decimal(n)[i] <= '9'
  {
    DecimalDigits(if n >= 0 then n else -n);
    if n < 0 {
      DecimalOfNegative(n);
    }
    hide Decimal;
  }

  lemma DecimalIsUnique(a: int, b: int)
    requires Decimal(a) == Decimal(b)
    ensures a == b
  {
    DecimalReads(a);
    DecimalReads(b);
  }

  ghost function Read(s: string): Option<int> {
    if s == "" then None
    else if s[0] == '-' then (match Digits(s[1..]) case None => None case Some(n) => Some(-(n as int)))
    else match Digits(s) case None => None case Some(n) => Some(n)
  }

  lemma DecimalReads(n: int)
    ensures Read(Decimal(n)) == Some(n)
  {
    if n >= 0 {
      DecimalDigits(n);
      assert '0' <= Decimal(n)[0] <= '9';
    } else {
      DecimalDigits(-n);
      DecimalOfNegative(n);
      assert Decimal(n)[1..] == Decimal(-n);
    }
  }

  /** Two texts cut at the first place where a character stands are alike in both parts. */
  lemma SameCut(a: string, b: string, c: char, s: string, t: string)
    requires c !in a && c !in b && a + [c] + s == b + [c] + t
    ensures a == b && s == t
  {
    if |a| < |b| {
      CutInside(a, b, c, s, t);
    } else if |b| < |a| {
      CutInside(b, a, c, t, s);
    }
    var all := a + [c] + s;
    assert a == all[..|a|] && b == all[..|b|] && s == all[|a| + 1..] && t == all[|b| + 1..];
  }

  lemma CutInside(a: string, b: string, c: char, s: string, t: string)
    requires a + [c] + s == b + [c] + t && |a| < |b|
    ensures c in b
  {
    assert (a + [c] + s)[|a|] == c && (b + [c] + t)[|a|] == b[|a|];
  }

  lemma MappingTextIsUnique(h: int, i: int, p: string, h': int, i': int, p': string)
    requires MappingText(h, i, p) == MappingText(h', i', p')
    ensures h == h' && i == i' && p == p'
  {
    hide Decimal;
    DecimalChars(h); DecimalChars(h'); DecimalChars(i); DecimalChars(i');
    var rest, rest' := Decimal(i) + ['/'] + p, Decimal(i') + ['/'] + p';
    assert MappingText(h, i, p) == (Decimal(h) + "-") + ['>'] + rest;
    assert MappingText(h', i', p') == (Decimal(h') + "-") + ['>'] + rest';
    SameCut(Decimal(h) + "-", Decimal(h') + "-", '>', rest, rest');
    SameCut(Decimal(i), Decimal(i'), '/', p, p');
    assert Decimal(h) == (Decimal(h) + "-")[..|Decimal(h)|];
    assert Decimal(h') == (Decimal(h') + "-")[..|Decimal(h')|];
    DecimalIsUnique(h, h');
    DecimalIsUnique(i, i');
  }

  lemma {:induction false} TrimRightKeeps(a: string, b: string)
    requires a != "" && !IsSpace(a[|a| - 1])
    ensures TrimRight(a + b) == a + TrimRight(b)
    decreases |b|
  {
    if b != "" && IsSpace(b[|b| - 1]) {
      assert (a + b)[..|a + b| - 1] == a + b[..|b| - 1];
      TrimRightKeeps(a, b[..|b| - 1]);
    } else if b == "" {
      assert a + b == a;
    }
  }

  lemma MappingTextTrims(host: int, inside: int, protocol: string)
    ensures TrimSpace(MappingText(host, inside, protocol)) == MappingText(host, inside, TrimRight(protocol))
    ensures MappingText(host, inside, protocol) != ""
  {
    hide Decimal;
    DecimalChars(host);
    var head := Decimal(host) + "->" + Decimal(inside) + "/";
    var text := MappingText(host, inside, protocol);
    assert text == head + protocol && head[0] == Decimal(host)[0] && head[|head| - 1] == '/';
    assert TrimLeft(text) == text;
    TrimRightKeeps(head, protocol);
  }

  lemma MappingsListed(ports: seq<PortMapping>, host: int, inside: int, protocol: string)
    ensures Maps(ports, host, inside, protocol) <==> Lists(PortStrings(ports), MappingText(host, inside, protocol))
  {
    hide MappingText, PortStrings, TrimSpace, ToLower;
    var text := MappingText(host, inside, protocol);
    if Maps(ports, host, inside, protocol) {
      var p :| p in ports && p.hostPort == host && p.containerPort == inside
        && TrimRight(ToLower(p.protocol)) == protocol;
      var whole := MappingText(p.hostPort, p.containerPort, ToLower(p.protocol));
      PortStringsMean(ports, whole);
      MappingTextTrims(host, inside, ToLower(p.protocol));
      MappingTextTrims(host, inside, protocol);
      assert whole in PortStrings(ports) && TrimSpace(whole) == text;
    }
    if Lists(PortStrings(ports), text) {
      var value :| value in PortStrings(ports) && TrimSpace(value) == text;
      PortStringsMean(ports, value);
      var p :| p in ports && value == MappingText(p.hostPort, p.containerPort, ToLower(p.protocol));
      MappingTextTrims(p.hostPort, p.containerPort, ToLower(p.protocol));
      MappingTextIsUnique(p.hostPort, p.containerPort, TrimRight(ToLower(p.protocol)), host, inside, protocol);
    }
  }

  lemma SameMappingsMean(a: seq<PortMapping>, b: seq<PortMapping>)
    ensures SameStringSliceIgnoreOrder(PortStrings(a), PortStrings(b)) <==> SameMappings(a, b)
  {
    hide PortStrings, MappingText, TrimSpace, SameStringSliceIgnoreOrder, Lists, Maps;
    SameSlicesMean(PortStrings(a), PortStrings(b));
    if SameNames(PortStrings(a), PortStrings(b)) {
      forall host, inside, protocol
        ensures Maps(a, host, inside, protocol) <==> Maps(b, host, inside, protocol)
      {
        MappingsListed(a, host, inside, protocol);
        MappingsListed(b, host, inside, protocol);
      }
    }
    if SameMappings(a, b) {
      forall name
        ensures Lists(PortStrings(a), name) <==> Lists(PortStrings(b), name)
      {
        if Lists(PortStrings(a), name) {
          ListedIn(a, b, name);
        }
        if Lists(PortStrings(b), name) {
          ListedIn(b, a, name);
        }
      }
    }
  }

  lemma ListedIn(a: seq<PortMapping>, b: seq<PortMapping>, name: string)
    requires SameMappings(a, b) && Lists(PortStrings(a), name)
    ensures Lists(PortStrings(b), name)
  {
    hide PortStrings, MappingText, TrimSpace, Maps, ToLower;
    var value :| value in PortStrings(a) && TrimSpace(value) == name;
    PortStringsMean(a, value);
    var p :| p in a && value == MappingText(p.hostPort, p.containerPort, ToLower(p.protocol));
    MappingTextTrims(p.hostPort, p.containerPort, ToLower(p.protocol));
    MappingsListed(a, p.hostPort, p.containerPort, TrimRight(ToLower(p.protocol)));
    MappingsListed(b, p.hostPort, p.containerPort, TrimRight(ToLower(p.protocol)));
  }

  /** The name, the environment and the order of ports, volumes and networks do not count; a label that the new
      container lacks counts as an empty one. */
  lemma ContainersDiffer(a: ContainerInfo, b: ContainerInfo)
    ensures !Changed(ContainerItem(a), ContainerItem(b)) <==>
            && a.image == b.image && a.status == b.status && a.state == b.state && SameMappings(a.ports, b.ports)
            && SameNames(a.volumes, b.volumes) && SameNames(a.networks, b.networks) && |a.labels| == |b.labels|
            && forall key :: key in a.labels ==> a.labels[key] == (if key in b.labels then b.labels[key] else "")
  {
    hide SameStringSliceIgnoreOrder, SameMappings, SameNames, PortStrings;
    SameMappingsMean(a.ports, b.ports);
    SameSlicesMean(a.volumes, b.volumes);
    SameSlicesMean(a.networks, b.networks);
  }

  // ----- keys -----

  /** Open ports go by number and protocol, whose case does not count; the other records by their names. */
  lemma PortKeys(a: OpenPort, b: OpenPort)
    ensures KeyOf(PortItem(a)) == KeyOf(PortItem(b)) <==>
            a.port == b.port && ToLower(a.protocol) == ToLower(b.protocol)
  {
    hide Decimal, ToLower;
    if KeyOf(PortItem(a)) == KeyOf(PortItem(b)) {
      DecimalChars(a.port);
      DecimalChars(b.port);
      assert KeyOf(PortItem(a)) == Decimal(a.port) + ['/'] + ToLower(a.protocol);
      assert KeyOf(PortItem(b)) == Decimal(b.port) + ['/'] + ToLower(b.protocol);
      SameCut(Decimal(a.port), Decimal(b.port), '/', ToLower(a.protocol), ToLower(b.protocol));
      DecimalIsUnique(a.port, b.port);
    }
  }

  /** What the other records are compared under, and what they hold. */
  lemma RecordsMean(snap: ServerSnapshot)
    ensures |ItemsIn(snap, Services)| == |snap.services| && |ItemsIn(snap, Network)| == |snap.networkPorts|
            && |ItemsIn(snap, Disk)| == |snap.diskUsage| && |ItemsIn(snap, Docker)| == |snap.docker.GetOr([])|
    ensures forall i :: 0 <= i < |snap.services| ==>
              var item := ItemsIn(snap, Services)[i];
              item == ServiceItem(snap.services[i]) && KeyOf(item) == snap.services[i].name
    ensures forall i :: 0 <= i < |snap.networkPorts| ==> ItemsIn(snap, Network)[i] == PortItem(snap.networkPorts[i])
    ensures forall i :: 0 <= i < |snap.diskUsage| ==>
              var item := ItemsIn(snap, Disk)[i];
              item == DiskItem(snap.diskUsage[i]) && KeyOf(item) == snap.diskUsage[i].mountPoint
    ensures forall i :: 0 <= i < |snap.docker.GetOr([])| ==>
              var item := ItemsIn(snap, Docker)[i];
              item == ContainerItem(snap.docker.value[i]) && KeyOf(item) == snap.docker.value[i].name
  {
  }

  /** Record `i` is the last one with the key. */
  ghost predicate LastWith(items: seq<Item>, key: string, i: int) {
    0 <= i < |items| && KeyOf(items[i]) == key && forall k :: i < k < |items| ==> KeyOf(items[k]) != key
  }

  ghost predicate HasKey(items: seq<Item>, key: string) {
    exists i :: 0 <= i < |items| && KeyOf(items[i]) == key
  }

  lemma {:induction false} IndexMeans(items: seq<Item>, key: string)
    ensures key in IndexBy(items) <==> HasKey(items, key)
    ensures HasKey(items, key) <==> exists i :: LastWith(items, key, i)
    ensures forall i :: LastWith(items, key, i) ==> key in IndexBy(items) && IndexBy(items)[key] == items[i]
  {
    hide KeyOf;
    if items != [] {
      var n := |items| - 1;
      var front := items[..n];
      IndexMeans(front, key);
      assert forall k :: 0 <= k < n ==> front[k] == items[k];
      if KeyOf(items[n]) == key {
        assert LastWith(items, key, n);
      } else {
        forall i
          ensures LastWith(items, key, i) <==> LastWith(front, key, i)
        {
          if LastWith(items, key, i) {
            assert i != n;
          }
        }
        if i :| LastWith(front, key, i) {
          assert LastWith(items, key, i);
        }
      }
    }
  }

  // ----- severities -----

  ghost predicate Active(svc: SystemService) {
    ToLower(svc.activeState) == "active" || ToLower(svc.subState) == "running"
  }

  ghost predicate Running(c: ContainerInfo) {
    ToLower(c.state) == "running" || ToLower(c.status) == "running" || "up " <= ToLower(c.status)
  }

  /** What starts running is worth a note, what stops is critical. */
  lemma ServiceSeverities(a: SystemService, b: SystemService)
    ensures AddedSeverity(ServiceItem(a)) == (if Active(a) then Info else Warning)
    ensures RemovedSeverity(ServiceItem(a)) == (if Active(a) then Critical else Warning)
    ensures var severity := ModifiedSeverity(ServiceItem(a), ServiceItem(b));
            && (severity == Critical <==> Active(a) && !Active(b))
            && (severity == Warning <==>
              && (Active(a) <==> Active(b)) && (a.activeState != b.activeState || a.subState != b.subState))
  {
    hide ToLower;
    CaseOfStates();
  }

  lemma CaseOfStates()
    ensures ToLower("active") == "active" && ToLower("running") == "running"
  {
  }

  lemma ContainerSeverities(a: ContainerInfo, b: ContainerInfo)
    ensures AddedSeverity(ContainerItem(a)) == (if Running(a) then Info else Warning)
    ensures RemovedSeverity(ContainerItem(a)) == (if Running(a) then Critical else Warning)
    ensures var severity := ModifiedSeverity(ContainerItem(a), ContainerItem(b));
            && (severity == Critical <==> Running(a) && !Running(b))
            && (severity == Info <==> !Running(a) && Running(b))
  {
    hide ToLower;
    CaseOfStates();
  }

  /** A partition that is nine tenths full or has filled by fifteen points is critical. */
  lemma OtherSeverities(p: OpenPort, q: OpenPort, a: DiskPartition, b: DiskPartition)
    ensures AddedSeverity(PortItem(p)) == AddedSeverity(DiskItem(a)) == Info
    ensures RemovedSeverity(PortItem(p)) == RemovedSeverity(DiskItem(a)) == ModifiedSeverity(PortItem(p), PortItem(q))
            == Warning
    ensures ModifiedSeverity(DiskItem(a), DiskItem(b))
            == if b.usePercent >= 90.0 || b.usePercent >= a.usePercent + 15.0 then Critical else Warning
  {
  }

  // ----- records compared by key -----

  ghost predicate ItemAdded(before: seq<Item>, after: seq<Item>, c: DriftChange) {
    && c.changeType == Added && !HasKey(before, c.name) && c.oldValue == Nothing
    && exists j :: LastWith(after, c.name, j) && c.newValue == Whole(after[j]) && c.severity == AddedSeverity(after[j])
  }

  ghost predicate ItemRemoved(before: seq<Item>, after: seq<Item>, c: DriftChange) {
    && c.changeType == Removed && !HasKey(after, c.name) && c.newValue == Nothing
    && exists i :: LastWith(before, c.name, i) && c.oldValue == Whole(before[i])
                   && c.severity == RemovedSeverity(before[i])
  }

  ghost predicate ItemModified(before: seq<Item>, after: seq<Item>, c: DriftChange) {
    && c.changeType == Modified
    && exists i, j :: LastWith(before, c.name, i) && LastWith(after, c.name, j) && Changed(before[i], after[j])
         && c.oldValue == Whole(before[i]) && c.newValue == Whole(after[j])
         && c.severity == ModifiedSeverity(before[i], after[j])
  }

  ghost predicate RecordChange(before: seq<Item>, after: seq<Item>, c: DriftChange) {
    ItemAdded(before, after, c) || ItemRemoved(before, after, c) || ItemModified(before, after, c)
  }

  lemma CalledMeans(before: seq<Item>, after: seq<Item>, c: DriftChange)
    ensures CallsFor(IndexBy(before), IndexBy(after), c) <==> RecordChange(before, after, c)
  {
    hide KeyOf, LastWith, HasKey, IndexBy, Changed, AddedSeverity, RemovedSeverity, ModifiedSeverity;
    IndexMeans(before, c.name);
    IndexMeans(after, c.name);
  }

  lemma {:induction false} CalledForAppears(category: Category, before: map<string, Item>, after: map<string, Item>,
                                            keys: seq<string>, c: DriftChange)
    requires KeysFit(before) && KeysFit(after) && c.name in keys && c.category == category && CallsFor(before, after, c)
    ensures c in ChangesAt(category, before, after, keys)
  {
    hide KeyOf, Changed, AddedSeverity, RemovedSeverity, ModifiedSeverity;
    var n := |keys| - 1;
    if keys[n] != c.name {
      CalledForAppears(category, before, after, keys[..n], c);
    }
  }

  lemma ItemChangesMean(category: Category, before: seq<Item>, after: seq<Item>, c: DriftChange)
    requires c.category == category
    ensures c in ItemChanges(category, before, after) <==> RecordChange(before, after, c)
  {
    hide KeyOf, RecordChange, IndexBy, UnionKeys, ChangesAt;
    CalledMeans(before, after, c);
    IndexedItems(before);
    IndexedItems(after);
    UnionKeysListed(before, after);
    ChangesAreCalledFor(category, IndexBy(before), IndexBy(after), UnionKeys(before, after));
    if CallsFor(IndexBy(before), IndexBy(after), c) {
      CalledForAppears(category, IndexBy(before), IndexBy(after), UnionKeys(before, after), c);
    }
  }

  // ----- Docker on one side -----

  ghost predicate OnlyNow(now: seq<ContainerInfo>, c: DriftChange) {
    exists x :: x in now
      && c == DriftChange(Docker, Added, x.name, Nothing, Whole(ContainerItem(x)), if Running(x) then Info else Warning)
  }

  ghost predicate OnlyBefore(was: seq<ContainerInfo>, c: DriftChange) {
    exists x :: x in was && c == DriftChange(Docker, Removed, x.name, Whole(ContainerItem(x)), Nothing,
                                             if Running(x) then Critical else Warning)
  }

  lemma {:induction false} AllOfOneSide(containers: seq<ContainerInfo>, c: DriftChange)
    ensures c in AllAdded(Docker, ContainerItems(containers)) <==> OnlyNow(containers, c)
    ensures c in AllRemoved(Docker, ContainerItems(containers)) <==> OnlyBefore(containers, c)
  {
    hide Running, AddedSeverity, RemovedSeverity;
    if containers != [] {
      var n := |containers| - 1;
      var front, last := containers[..n], containers[n];
      assert containers == front + [last];
      assert ContainerItems(containers)[..n] == ContainerItems(front);
      AllOfOneSide(front, c);
      ContainerSeverities(last, last);
      assert AddedItem(Docker, ContainerItem(last)) == DriftChange(Docker, Added, last.name, Nothing,
        Whole(ContainerItem(last)), if Running(last) then Info else Warning);
      assert RemovedItem(Docker, ContainerItem(last)) == DriftChange(Docker, Removed, last.name,
        Whole(ContainerItem(last)), Nothing, if Running(last) then Critical else Warning);
    }
  }

  ghost predicate DockerChange(before: Option<seq<ContainerInfo>>, after: Option<seq<ContainerInfo>>, c: DriftChange) {
    match (before, after)
    case (None, None) => false
    case (None, Some(now)) => OnlyNow(now, c)
    case (Some(was), None) => OnlyBefore(was, c)
    case (Some(was), Some(now)) =>
      RecordChange(ContainerItems(was), ContainerItems(now), c)
  }

  lemma DockerChangesMean(before: Option<seq<ContainerInfo>>, after: Option<seq<ContainerInfo>>, c: DriftChange)
    requires c.category == Docker
    ensures c in DockerChanges(before, after) <==> DockerChange(before, after, c)
  {
    hide RecordChange, ItemChanges, OnlyNow, OnlyBefore, ContainerItems, AllAdded, AllRemoved;
    match (before, after)
    case (None, None) =>
    case (None, Some(now)) => AllOfOneSide(now, c);
    case (Some(was), None) => AllOfOneSide(was, c);
    case (Some(was), Some(now)) => ItemChangesMean(Docker, ContainerItems(was), ContainerItems(now), c);
  }

  // ----- the host itself -----

  ghost predicate Differs(c: DriftChange, name: string, before: Value, after: Value, severity: Severity) {
    before != after && c == DriftChange(System, Modified, name, before, after, severity)
  }

  ghost predicate OSChange(before: OSInfo, after: OSInfo, c: DriftChange) {
    || Differs(c, "hostname", Name(before.hostname), Name(after.hostname), Critical)
    || Differs(c, "os.distro", Name(before.distro), Name(after.distro), Critical)
    || Differs(c, "os.kernel", Name(before.kernel), Name(after.kernel), Critical)
    || Differs(c, "os.architecture", Name(before.architecture), Name(after.architecture), Warning)
    || Differs(c, "os.timezone", Name(before.timezone), Name(after.timezone), Info)
    || Differs(c, "os.virtualization", Name(before.virtualization), Name(after.virtualization), Warning)
    || Differs(c, "os.uptimeSeconds", Number(before.uptime), Number(after.uptime), Info)
  }

  ghost predicate HardwareChange(before: HardwareInfo, after: HardwareInfo, c: DriftChange) {
    || Differs(c, "hardware.cpuModel", Name(before.cpuModel), Name(after.cpuModel), Warning)
    || Differs(c, "hardware.cpuCores", Number(before.cpuCores), Number(after.cpuCores), Warning)
    || Differs(c, "hardware.ramTotalMb", Number(before.ramTotalMB), Number(after.ramTotalMB), Warning)
    || Differs(c, "hardware.ramUsedMb", Number(before.ramUsedMB), Number(after.ramUsedMB), Warning)
    || Differs(c, "hardware.diskTotalGb", Amount(before.diskTotalGB), Amount(after.diskTotalGB), Warning)
    || Differs(c, "hardware.diskUsedGb", Amount(before.diskUsedGB), Amount(after.diskUsedGB), Warning)
  }

  ghost predicate FieldDiffers(a: Field, b: Field, c: DriftChange) {
    Differs(c, a.name, a.value, b.value, a.severity)
  }

  lemma {:induction false} FieldChangesMean(before: seq<Field>, after: seq<Field>, c: DriftChange)
    requires |before| == |after|
    ensures c in FieldChanges(before, after) <==> exists i :: 0 <= i < |before| && FieldDiffers(before[i], after[i], c)
  {
    if before != [] {
      var n := |before| - 1;
      var front, rest := before[..n], after[..n];
      FieldChangesMean(front, rest, c);
      assert FieldDiffers(before[n], after[n], c) <==> c in FieldChange(before[n], after[n]);
      if c in FieldChanges(front, rest) {
        var i :| 0 <= i < n && FieldDiffers(front[i], rest[i], c);
        assert FieldDiffers(before[i], after[i], c);
      }
      if i :| 0 <= i < |before| && FieldDiffers(before[i], after[i], c) {
        assert i < n ==> FieldDiffers(front[i], rest[i], c);
      }
    }
  }

  lemma OSFields(oldSnap: ServerSnapshot, newSnap: ServerSnapshot, c: DriftChange)
    ensures var before, after := SystemFields(oldSnap), SystemFields(newSnap);
            OSChange(oldSnap.os, newSnap.os, c) <==> exists i :: 0 <= i < 7 && FieldDiffers(before[i], after[i], c)
  {
    hide Differs;
    var before, after := SystemFields(oldSnap), SystemFields(newSnap);
    var os, now := oldSnap.os, newSnap.os;
    assert FieldDiffers(before[0], after[0], c)
           == Differs(c, "hostname", Name(os.hostname), Name(now.hostname), Critical);
    assert FieldDiffers(before[1], after[1], c) == Differs(c, "os.distro", Name(os.distro), Name(now.distro), Critical);
    assert FieldDiffers(before[2], after[2], c) == Differs(c, "os.kernel", Name(os.kernel), Name(now.kernel), Critical);
    assert FieldDiffers(before[3], after[3], c)
           == Differs(c, "os.architecture", Name(os.architecture), Name(now.architecture), Warning);
    assert FieldDiffers(before[4], after[4], c)
           == Differs(c, "os.timezone", Name(os.timezone), Name(now.timezone), Info);
    assert FieldDiffers(before[5], after[5], c)
           == Differs(c, "os.virtualization", Name(os.virtualization), Name(now.virtualization), Warning);
    assert FieldDiffers(before[6], after[6], c)
           == Differs(c, "os.uptimeSeconds", Number(os.uptime), Number(now.uptime), Info);
    hide FieldDiffers, SystemFields;
  }

  lemma HardwareFields(oldSnap: ServerSnapshot, newSnap: ServerSnapshot, c: DriftChange)
    ensures var before, after := SystemFields(oldSnap), SystemFields(newSnap);
            HardwareChange(oldSnap.hardware, newSnap.hardware, c) <==>
            exists i :: 7 <= i < 13 && FieldDiffers(before[i], after[i], c)
  {
    hide Differs;
    var before, after := SystemFields(oldSnap), SystemFields(newSnap);
    var hw, now := oldSnap.hardware, newSnap.hardware;
    assert FieldDiffers(before[7], after[7], c)
           == Differs(c, "hardware.cpuModel", Name(hw.cpuModel), Name(now.cpuModel), Warning);
    assert FieldDiffers(before[8], after[8], c)
           == Differs(c, "hardware.cpuCores", Number(hw.cpuCores), Number(now.cpuCores), Warning);
    assert FieldDiffers(before[9], after[9], c)
           == Differs(c, "hardware.ramTotalMb", Number(hw.ramTotalMB), Number(now.ramTotalMB), Warning);
    assert FieldDiffers(before[10], after[10], c)
           == Differs(c, "hardware.ramUsedMb", Number(hw.ramUsedMB), Number(now.ramUsedMB), Warning);
    assert FieldDiffers(before[11], after[11], c)
           == Differs(c, "hardware.diskTotalGb", Amount(hw.diskTotalGB), Amount(now.diskTotalGB), Warning);
    assert FieldDiffers(before[12], after[12], c)
           == Differs(c, "hardware.diskUsedGb", Amount(hw.diskUsedGB), Amount(now.diskUsedGB), Warning);
    hide FieldDiffers, SystemFields;
  }

  lemma SystemChangesMean(oldSnap: ServerSnapshot, newSnap: ServerSnapshot, c: DriftChange)
    ensures c in SystemChanges(oldSnap, newSnap) <==>
            OSChange(oldSnap.os, newSnap.os, c) || HardwareChange(oldSnap.hardware, newSnap.hardware, c)
  {
    hide FieldDiffers, FieldChanges, SystemFields, OSChange, HardwareChange;
    FieldChangesMean(SystemFields(oldSnap), SystemFields(newSnap), c);
    OSFields(oldSnap, newSnap, c);
    HardwareFields(oldSnap, newSnap, c);
  }

  // ----- the whole report -----

  /** The change is in the report exactly when the snapshots call for it. */
  ghost predicate CalledBySnapshots(oldSnap: ServerSnapshot, newSnap: ServerSnapshot, c: DriftChange) {
    match c.category
    case Packages => NameChange(oldSnap.packages, newSnap.packages, c)
    case Users => NameChange(oldSnap.users, newSnap.users, c)
    case Services => RecordChange(ItemsIn(oldSnap, Services), ItemsIn(newSnap, Services), c)
    case Network => RecordChange(ItemsIn(oldSnap, Network), ItemsIn(newSnap, Network), c)
    case Disk => RecordChange(ItemsIn(oldSnap, Disk), ItemsIn(newSnap, Disk), c)
    case Docker => DockerChange(oldSnap.docker, newSnap.docker, c)
    case System => OSChange(oldSnap.os, newSnap.os, c) || HardwareChange(oldSnap.hardware, newSnap.hardware, c)
  }

  lemma ReportMeans(oldSnap: ServerSnapshot, newSnap: ServerSnapshot, c: DriftChange)
    ensures c in ReportOf(oldSnap, newSnap).changes <==> CalledBySnapshots(oldSnap, newSnap, c)
  {
    hide ReportOf, NameChange, RecordChange, DockerChange, OSChange, HardwareChange,
      NameChanges, ItemChanges, DockerChanges, SystemChanges, ServiceItems, PortItems, DiskItems;
    InReport(oldSnap, newSnap, c);
    match c.category
    case Packages => NameChangesMean(Packages, oldSnap.packages, newSnap.packages, c);
    case Users => NameChangesMean(Users, oldSnap.users, newSnap.users, c);
    case Services => ItemChangesMean(Services, ItemsIn(oldSnap, Services), ItemsIn(newSnap, Services), c);
    case Network => ItemChangesMean(Network, ItemsIn(oldSnap, Network), ItemsIn(newSnap, Network), c);
    case Disk => ItemChangesMean(Disk, ItemsIn(oldSnap, Disk), ItemsIn(newSnap, Disk), c);
    case Docker => DockerChangesMean(oldSnap.docker, newSnap.docker, c);
    case System => SystemChangesMean(oldSnap, newSnap, c);
  }

  // ----- the order -----

  /** Where a value stands in a list of all of them. */
  ghost function Place<T>(all: seq<T>, x: T): nat {
    if all == [] || all[0] == x then 0 else 1 + Place(all[1..], x)
  }

  /** `a` is smaller at the first place where they differ, or ends there. */
  ghost predicate Smaller(a: string, b: string) {
    exists k :: SmallerAt(a, b, k)
  }

  ghost predicate SmallerAt(a: string, b: string, k: int) {
    0 <= k <= |a| && k < |b| && a[..k] == b[..k] && (k == |a| || a[k] < b[k])
  }

  lemma SameStart(a: string, b: string, k: nat)
    requires 0 < k <= |a| && k <= |b| && a[..k] == b[..k]
    ensures a[0] == b[0]
  {
    assert a[0] == a[..k][0] && b[0] == b[..k][0];
  }

  lemma {:induction false} LessMeans(a: string, b: string)
    ensures Less(a, b) <==> Smaller(a, b)
  {
    if a != [] && b != [] && a[0] == b[0] {
      LessMeans(a[1..], b[1..]);
      if k :| SmallerAt(a[1..], b[1..], k) {
        assert a[..k + 1] == [a[0]] + a[1..][..k] && b[..k + 1] == [b[0]] + b[1..][..k];
        assert SmallerAt(a, b, k + 1);
      }
      if k :| SmallerAt(a, b, k) {
        assert a[1..][..k - 1] == a[..k][1..] && b[1..][..k - 1] == b[..k][1..];
        assert SmallerAt(a[1..], b[1..], k - 1);
      }
    } else if Less(a, b) {
      assert SmallerAt(a, b, 0);
    } else if k :| 0 < k <= |a| && k < |b| && a[..k] == b[..k] {
      SameStart(a, b, k);
    }
  }

  ghost predicate InOrder(a: DriftChange, b: DriftChange) {
    var categories := [Packages, Services, Docker, Users, Network, Disk, System];
    var x, y := Place(categories, a.category), Place(categories, b.category);
    var i, j := Place([Added, Removed, Modified], a.changeType), Place([Added, Removed, Modified], b.changeType);
    x < y || (x == y && (i < j || (i == j && (Smaller(a.name, b.name) || (a.name == b.name
      && Place([Critical, Info, Warning], a.severity) <= Place([Critical, Info, Warning], b.severity))))))
  }

  lemma CategoryRankMeans(category: Category)
    ensures CategoryRank(category) == Place([Packages, Services, Docker, Users, Network, Disk, System], category)
  {
  }

  lemma RanksMean(changeType: ChangeType, severity: Severity)
    ensures TypeRank(changeType) == Place([Added, Removed, Modified], changeType)
    ensures SeverityRank(severity) == Place([Critical, Info, Warning], severity)
  {
  }

  /** The changes are listed by category, type, name and severity, each in its own order. */
  lemma ReportIsOrdered(oldSnap: ServerSnapshot, newSnap: ServerSnapshot, i: nat, j: nat)
    requires i < j < |ReportOf(oldSnap, newSnap).changes|
    ensures InOrder(ReportOf(oldSnap, newSnap).changes[i], ReportOf(oldSnap, newSnap).changes[j])
  {
    hide FoundChanges, SortChanges, SummaryOf, Place, Less, Smaller, CategoryRank, TypeRank, SeverityRank;
    SortOrders(FoundChanges(oldSnap, newSnap));
    var a, b := ReportOf(oldSnap, newSnap).changes[i], ReportOf(oldSnap, newSnap).changes[j];
    assert !Precedes(b, a);
    LessMeans(a.name, b.name);
    LessIsTotal(a.name, b.name);
    CategoryRankMeans(a.category);
    CategoryRankMeans(b.category);
    RanksMean(a.changeType, a.severity);
    RanksMean(b.changeType, b.severity);
    RanksDiffer(a, b);
  }

  lemma RanksDiffer(a: DriftChange, b: DriftChange)
    ensures CategoryRank(a.category) == CategoryRank(b.category) <==> a.category == b.category
    ensures TypeRank(a.changeType) == TypeRank(b.changeType) <==> a.changeType == b.changeType
  {
  }
}
