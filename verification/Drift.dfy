/** The difference between two server snapshots. */
module Drift {
  import opened Sequences
  import opened Text
  import opened SortedStrings
  import opened Snapshot

  datatype Category = Packages | Services | Docker | Users | Network | Disk | System

  datatype ChangeType = Added | Removed | Modified

  datatype Severity = Info | Warning | Critical

  /** What changed, before it is formatted. */
  datatype Value = Nothing | Name(text: string) | Number(n: int) | Amount(x: real) | Whole(item: Item)

  /** The records that are compared by key. */
  datatype Item = ServiceItem(service: SystemService) | ContainerItem(container: ContainerInfo)
                | PortItem(port: OpenPort) | DiskItem(disk: DiskPartition)

  datatype DriftChange = DriftChange(category: Category, changeType: ChangeType, name: string, oldValue: Value,
    newValue: Value, severity: Severity)

  datatype DriftSummary = DriftSummary(
    packagesAdded: nat, packagesRemoved: nat, servicesChanged: nat, dockerChanged: nat, usersChanged: nat,
    networkChanged: nat, diskChanged: nat)

  datatype DriftReport = DriftReport(changes: seq<DriftChange>, totalChanges: nat, summary: DriftSummary)

  const NO_CHANGES := DriftSummary(0, 0, 0, 0, 0, 0, 0)

  // ----- names -----

  function TrimmedNames(values: seq<string>): seq<string> {
    if values == [] then []
    else TrimmedNames(values[..|values| - 1]) + Shown(values[|values| - 1])
  }

  function Shown(value: string): seq<string> {
    if TrimSpace(value) == "" then [] else [TrimSpace(value)]
  }

  /** The names that count: trimmed, and not blank. */
  ghost function Names(values: seq<string>): set<string> {
    Elements(TrimmedNames(values))
  }

  function UniqueSorted(values: seq<string>): seq<string> {
    Sorted(TrimmedNames(values))
  }

  lemma UniqueSortedNames(values: seq<string>)
    ensures Ascending(UniqueSorted(values)) && Elements(UniqueSorted(values)) == Names(values)
  {
    SortedIsSorted(TrimmedNames(values));
  }

  method UniqueSortedStrings(values: seq<string>) returns (r: seq<string>)
    ensures r == UniqueSorted(values)
  {
    hide Sorted, Shown;
    var names: set<string> := {};
    for i := 0 to |values|
      invariant names == Names(values[..i])
    {
      assert values[..i + 1][..i] == values[..i];
      var value := TrimSpace(values[i]);
      ShownElements(TrimmedNames(values[..i]), values[i]);
      if value == "" {
        continue;
      }
      names := names + {value};
    }
    assert values[..|values|] == values;
    r := SortSet(names);
    UniqueSortedNames(values);
    AscendingIsUnique(r, UniqueSorted(values));
  }

  lemma ShownElements(names: seq<string>, value: string)
    ensures Elements(names + Shown(value))
            == Elements(names) + if TrimSpace(value) == "" then {} else {TrimSpace(value)}
  {
  }

  predicate SameStringSliceIgnoreOrder(left: seq<string>, right: seq<string>) {
    UniqueSorted(left) == UniqueSorted(right)
  }

  // ----- sets of names -----

  function AddedName(category: Category, name: string): DriftChange {
    DriftChange(category, Added, name, Nothing, Name(name), Info)
  }

  function RemovedName(category: Category, name: string): DriftChange {
    DriftChange(category, Removed, name, Name(name), Nothing, Warning)
  }

  /** The names of `values` that are not among `others`. */
  function Missing(values: seq<string>, others: seq<string>): seq<string> {
    if values == [] then []
    else
      var last := values[|values| - 1];
      Missing(values[..|values| - 1], others) + if last in others then [] else [last]
  }

  function AddedNames(category: Category, names: seq<string>): (changes: seq<DriftChange>)
    ensures |changes| == |names|
  {
    seq(|names|, i requires 0 <= i < |names| => AddedName(category, names[i]))
  }

  function RemovedNames(category: Category, names: seq<string>): (changes: seq<DriftChange>)
    ensures |changes| == |names|
  {
    seq(|names|, i requires 0 <= i < |names| => RemovedName(category, names[i]))
  }

  function NewNames(oldValues: seq<string>, newValues: seq<string>): seq<string> {
    Missing(UniqueSorted(newValues), UniqueSorted(oldValues))
  }

  function NameChanges(category: Category, oldValues: seq<string>, newValues: seq<string>): seq<DriftChange> {
    AddedNames(category, NewNames(oldValues, newValues)) + RemovedNames(category, NewNames(newValues, oldValues))
  }

  method AppendAdded(changes: seq<DriftChange>, category: Category, newSet: seq<string>, oldSet: seq<string>)
      returns (after: seq<DriftChange>, added: nat)
    ensures after == changes + AddedNames(category, Missing(newSet, oldSet)) && added == |Missing(newSet, oldSet)|
  {
    hide AddedName;
    after, added := changes, 0;
    for i := 0 to |newSet|
      invariant after == changes + AddedNames(category, Missing(newSet[..i], oldSet))
      invariant added == |Missing(newSet[..i], oldSet)|
    {
      assert newSet[..i + 1][..i] == newSet[..i];
      if newSet[i] in oldSet {
        continue;
      }
      after, added := after + [AddedName(category, newSet[i])], added + 1;
    }
    assert newSet[..|newSet|] == newSet;
  }

  method AppendRemoved(changes: seq<DriftChange>, category: Category, oldSet: seq<string>, newSet: seq<string>)
      returns (after: seq<DriftChange>, removed: nat)
    ensures after == changes + RemovedNames(category, Missing(oldSet, newSet)) && removed == |Missing(oldSet, newSet)|
  {
    hide RemovedName;
    after, removed := changes, 0;
    for i := 0 to |oldSet|
      invariant after == changes + RemovedNames(category, Missing(oldSet[..i], newSet))
      invariant removed == |Missing(oldSet[..i], newSet)|
    {
      assert oldSet[..i + 1][..i] == oldSet[..i];
      if oldSet[i] in newSet {
        continue;
      }
      after, removed := after + [RemovedName(category, oldSet[i])], removed + 1;
    }
    assert oldSet[..|oldSet|] == oldSet;
  }

  method AppendStringSetChanges(changes: seq<DriftChange>, category: Category, oldValues: seq<string>,
                                newValues: seq<string>)
      returns (after: seq<DriftChange>, added: nat, removed: nat)
    ensures after == changes + NameChanges(category, oldValues, newValues)
    ensures added == |NewNames(oldValues, newValues)| && removed == |NewNames(newValues, oldValues)|
  {
    hide UniqueSorted, AddedNames, RemovedNames, Missing;
    var oldSet := UniqueSortedStrings(oldValues);
    var newSet := UniqueSortedStrings(newValues);
    after, added := AppendAdded(changes, category, newSet, oldSet);
    after, removed := AppendRemoved(after, category, oldSet, newSet);
  }

  // ----- records compared by key -----

  function KeyOf(item: Item): string {
    match item
    case ServiceItem(service) => service.name
    case ContainerItem(container) => container.name
    case PortItem(port) => Decimal(port.port) + "/" + ToLower(port.protocol)
    case DiskItem(disk) => disk.mountPoint
  }

  predicate EqualFold(a: string, b: string) {
    ToLower(a) == ToLower(b)
  }

  predicate IsActiveService(svc: SystemService) {
    EqualFold(svc.activeState, "active") || EqualFold(svc.subState, "running")
  }

  predicate IsRunningContainer(c: ContainerInfo) {
    EqualFold(c.state, "running") || "up " <= ToLower(c.status) || EqualFold(c.status, "running")
  }

  predicate ServiceChanged(a: SystemService, b: SystemService) {
    a.description != b.description || a.loadState != b.loadState || a.activeState != b.activeState
      || a.subState != b.subState
    || a.unitType != b.unitType || !SameStringSliceIgnoreOrder(a.dependsOn, b.dependsOn)
  }

  /** A key that the right map lacks reads as the empty string. */
  predicate SameStringMap(left: map<string, string>, right: map<string, string>) {
    |left| == |right| && forall key :: key in left ==> (if key in right then right[key] else "") == left[key]
  }

  function PortStrings(ports: seq<PortMapping>): seq<string> {
    if ports == [] then []
    else
      var p := ports[|ports| - 1];
      PortStrings(ports[..|ports| - 1])
        + [Decimal(p.hostPort) + "->" + Decimal(p.containerPort) + "/" + ToLower(p.protocol)]
  }

  predicate ContainerChanged(a: ContainerInfo, b: ContainerInfo) {
    a.image != b.image || a.status != b.status || a.state != b.state
    || !SameStringSliceIgnoreOrder(PortStrings(a.ports), PortStrings(b.ports))
    || !SameStringSliceIgnoreOrder(a.volumes, b.volumes) || !SameStringSliceIgnoreOrder(a.networks, b.networks)
    || !SameStringMap(a.labels, b.labels)
  }

  predicate PortChanged(a: OpenPort, b: OpenPort) {
    a.protocol != b.protocol || a.address != b.address || a.process != b.process || a.pid != b.pid
  }

  predicate DiskChanged(a: DiskPartition, b: DiskPartition) {
    a.filesystem != b.filesystem || a.sizeGB != b.sizeGB || a.usedGB != b.usedGB || a.availGB != b.availGB
      || a.usePercent != b.usePercent
  }

  predicate Changed(a: Item, b: Item) {
    match (a, b)
    case (ServiceItem(x), ServiceItem(y)) => ServiceChanged(x, y)
    case (ContainerItem(x), ContainerItem(y)) => ContainerChanged(x, y)
    case (PortItem(x), PortItem(y)) => PortChanged(x, y)
    case (DiskItem(x), DiskItem(y)) => DiskChanged(x, y)
    case _ => true
  }

  function AddedSeverity(item: Item): Severity {
    match item
    case ServiceItem(service) => if IsActiveService(service) then Info else Warning
    case ContainerItem(container) => if IsRunningContainer(container) then Info else Warning
    case _ => Info
  }

  function RemovedSeverity(item: Item): Severity {
    match item
    case ServiceItem(service) => if IsActiveService(service) then Critical else Warning
    case ContainerItem(container) => if IsRunningContainer(container) then Critical else Warning
    case _ => Warning
  }

  function ModifiedSeverity(a: Item, b: Item): Severity {
    match (a, b)
    case (ServiceItem(x), ServiceItem(y)) =>
      if IsActiveService(x) && !IsActiveService(y) then Critical
      else if !IsActiveService(x) && IsActiveService(y) then Info
      else if x.activeState != y.activeState || x.subState != y.subState then Warning
      else Info
    case (ContainerItem(x), ContainerItem(y)) =>
      if IsRunningContainer(x) && !IsRunningContainer(y) then Critical
      else if !IsRunningContainer(x) && IsRunningContainer(y) then Info
      else Warning
    case (DiskItem(x), DiskItem(y)) =>
      if y.usePercent >= 90.0 || y.usePercent - x.usePercent >= 15.0 then Critical else Warning
    case _ => Warning
  }

  function AddedItem(category: Category, item: Item): DriftChange {
    DriftChange(category, Added, KeyOf(item), Nothing, Whole(item), AddedSeverity(item))
  }

  function RemovedItem(category: Category, item: Item): DriftChange {
    DriftChange(category, Removed, KeyOf(item), Whole(item), Nothing, RemovedSeverity(item))
  }

  function ModifiedItem(category: Category, a: Item, b: Item): DriftChange {
    DriftChange(category, Modified, KeyOf(a), Whole(a), Whole(b), ModifiedSeverity(a, b))
  }

  /** The last item with each key. */
  function IndexBy(items: seq<Item>): map<string, Item> {
    if items == [] then map[]
    else
      var last := items[|items| - 1];
      IndexBy(items[..|items| - 1])[KeyOf(last) := last]
  }

  function ChangeAt(category: Category, before: map<string, Item>, after: map<string, Item>,
                    key: string): seq<DriftChange> {
    if key in after && key !in before then [AddedItem(category, after[key])]
    else if key in before && key !in after then [RemovedItem(category, before[key])]
    else if key in before && key in after && Changed(before[key], after[key])
    then [ModifiedItem(category, before[key], after[key])]
    else []
  }

  function ChangesAt(category: Category, before: map<string, Item>, after: map<string, Item>,
                     keys: seq<string>): seq<DriftChange> {
    if keys == [] then []
    else ChangesAt(category, before, after, keys[..|keys| - 1]) + ChangeAt(category, before, after, keys[|keys| - 1])
  }

  function Keys(items: seq<Item>): (keys: seq<string>)
    ensures |keys| == |items|
  {
    seq(|items|, i requires 0 <= i < |items| => KeyOf(items[i]))
  }

  function UnionKeys(before: seq<Item>, after: seq<Item>): seq<string> {
    Sorted(Keys(before) + Keys(after))
  }

  function ItemChanges(category: Category, before: seq<Item>, after: seq<Item>): seq<DriftChange> {
    ChangesAt(category, IndexBy(before), IndexBy(after), UnionKeys(before, after))
  }

  lemma {:induction false} IndexKeys(items: seq<Item>)
    ensures IndexBy(items).Keys == Elements(Keys(items))
  {
    if items == [] {
    } else {
      var front, last := items[..|items| - 1], items[|items| - 1];
      IndexKeys(front);
      assert Keys(items) == Keys(front) + [KeyOf(last)];
      ElementsAppend(Keys(front), KeyOf(last));
    }
  }

  method Index(items: seq<Item>) returns (index: map<string, Item>)
    ensures index == IndexBy(items)
  {
    hide KeyOf;
    index := map[];
    for i := 0 to |items|
      invariant index == IndexBy(items[..i])
    {
      assert items[..i + 1][..i] == items[..i];
      index := index[KeyOf(items[i]) := items[i]];
    }
    assert items[..|items|] == items;
  }

  method CompareAt(category: Category, oldMap: map<string, Item>, newMap: map<string, Item>, key: string)
      returns (changes: seq<DriftChange>)
    ensures changes == ChangeAt(category, oldMap, newMap, key)
  {
    hide KeyOf, Changed, AddedItem, RemovedItem, ModifiedItem;
    changes := [];
    if key !in oldMap && key in newMap {
      changes := [AddedItem(category, newMap[key])];
    } else if key in oldMap && key !in newMap {
      changes := [RemovedItem(category, oldMap[key])];
    } else if key in oldMap && key in newMap && Changed(oldMap[key], newMap[key]) {
      changes := [ModifiedItem(category, oldMap[key], newMap[key])];
    }
  }

  method CompareItems(category: Category, before: seq<Item>, after: seq<Item>) returns (changes: seq<DriftChange>)
    ensures changes == ItemChanges(category, before, after)
  {
    hide KeyOf, ChangeAt, Sorted, UnionKeys, IndexBy, Keys;
    var oldMap := Index(before);
    var newMap := Index(after);
    var keys := SortSet(oldMap.Keys + newMap.Keys);
    UnionOfKeys(before, after, keys);
    changes := [];
    for i := 0 to |keys|
      invariant changes == ChangesAt(category, oldMap, newMap, keys[..i])
    {
      assert keys[..i + 1][..i] == keys[..i];
      var found := CompareAt(category, oldMap, newMap, keys[i]);
      changes := changes + found;
    }
    assert keys[..|keys|] == keys;
  }

  lemma UnionOfKeys(before: seq<Item>, after: seq<Item>, keys: seq<string>)
    requires Ascending(keys) && Elements(keys) == IndexBy(before).Keys + IndexBy(after).Keys
    ensures keys == UnionKeys(before, after)
  {
    IndexKeys(before);
    IndexKeys(after);
    var all := Keys(before) + Keys(after);
    assert Elements(all) == Elements(Keys(before)) + Elements(Keys(after));
    SortedIsSorted(all);
    AscendingIsUnique(keys, Sorted(all));
  }

  // ----- the host itself -----

  datatype Field = Field(name: string, value: Value, severity: Severity)

  function SystemFields(snap: ServerSnapshot): (fields: seq<Field>)
    ensures |fields| == 13
  {
    [Field("hostname", Name(snap.os.hostname), Critical),
     Field("os.distro", Name(snap.os.distro), Critical),
     Field("os.kernel", Name(snap.os.kernel), Critical),
     Field("os.architecture", Name(snap.os.architecture), Warning),
     Field("os.timezone", Name(snap.os.timezone), Info),
     Field("os.virtualization", Name(snap.os.virtualization), Warning),
     Field("os.uptimeSeconds", Number(snap.os.uptime), Info),
     Field("hardware.cpuModel", Name(snap.hardware.cpuModel), Warning),
     Field("hardware.cpuCores", Number(snap.hardware.cpuCores), Warning),
     Field("hardware.ramTotalMb", Number(snap.hardware.ramTotalMB), Warning),
     Field("hardware.ramUsedMb", Number(snap.hardware.ramUsedMB), Warning),
     Field("hardware.diskTotalGb", Amount(snap.hardware.diskTotalGB), Warning),
     Field("hardware.diskUsedGb", Amount(snap.hardware.diskUsedGB), Warning)]
  }

  function FieldChange(before: Field, after: Field): seq<DriftChange> {
    if before.value == after.value then []
    else [DriftChange(System, Modified, before.name, before.value, after.value, before.severity)]
  }

  function FieldChanges(before: seq<Field>, after: seq<Field>): seq<DriftChange>
    requires |before| == |after|
  {
    if before == [] then []
    else
      var n := |before| - 1;
      FieldChanges(before[..n], after[..n]) + FieldChange(before[n], after[n])
  }

  function SystemChanges(oldSnap: ServerSnapshot, newSnap: ServerSnapshot): seq<DriftChange> {
    FieldChanges(SystemFields(oldSnap), SystemFields(newSnap))
  }

  method CompareSystem(oldSnap: ServerSnapshot, newSnap: ServerSnapshot) returns (changes: seq<DriftChange>)
    ensures changes == SystemChanges(oldSnap, newSnap)
  {
    var before, after := SystemFields(oldSnap), SystemFields(newSnap);
    hide SystemFields;
    changes := [];
    for i := 0 to |before|
      invariant changes == FieldChanges(before[..i], after[..i])
    {
      assert before[..i + 1][..i] == before[..i] && after[..i + 1][..i] == after[..i];
      if before[i].value == after[i].value {
        continue;
      }
      changes := changes
        + [DriftChange(System, Modified, before[i].name, before[i].value, after[i].value, before[i].severity)];
    }
    assert before[..|before|] == before && after[..|before|] == after;
  }

  // ----- Docker -----

  function ServiceItems(services: seq<SystemService>): (items: seq<Item>)
    ensures |items| == |services|
  {
    seq(|services|, i requires 0 <= i < |services| => ServiceItem(services[i]))
  }

  function ContainerItems(containers: seq<ContainerInfo>): (items: seq<Item>)
    ensures |items| == |containers|
  {
    seq(|containers|, i requires 0 <= i < |containers| => ContainerItem(containers[i]))
  }

  function PortItems(ports: seq<OpenPort>): (items: seq<Item>)
    ensures |items| == |ports|
  {
    seq(|ports|, i requires 0 <= i < |ports| => PortItem(ports[i]))
  }

  function DiskItems(disks: seq<DiskPartition>): (items: seq<Item>)
    ensures |items| == |disks|
  {
    seq(|disks|, i requires 0 <= i < |disks| => DiskItem(disks[i]))
  }

  function AllAdded(category: Category, items: seq<Item>): seq<DriftChange> {
    if items == [] then [] else AllAdded(category, items[..|items| - 1]) + [AddedItem(category, items[|items| - 1])]
  }

  function AllRemoved(category: Category, items: seq<Item>): seq<DriftChange> {
    if items == [] then [] else AllRemoved(category, items[..|items| - 1]) + [RemovedItem(category, items[|items| - 1])]
  }

  /** Where one snapshot has no Docker at all, every container of the other is reported, namesakes included. */
  function DockerChanges(before: Option<seq<ContainerInfo>>, after: Option<seq<ContainerInfo>>): seq<DriftChange> {
    match (before, after)
    case (None, None) => []
    case (None, Some(now)) => AllAdded(Docker, ContainerItems(now))
    case (Some(was), None) => AllRemoved(Docker, ContainerItems(was))
    case (Some(was), Some(now)) => ItemChanges(Docker, ContainerItems(was), ContainerItems(now))
  }

  method CompareDocker(before: Option<seq<ContainerInfo>>, after: Option<seq<ContainerInfo>>)
      returns (changes: seq<DriftChange>)
    ensures changes == DockerChanges(before, after)
  {
    hide ItemChanges, AddedItem, RemovedItem;
    changes := [];
    if before.None? && after.None? {
      return;
    }
    if before.None? {
      var items := ContainerItems(after.value);
      for i := 0 to |items|
        invariant changes == AllAdded(Docker, items[..i])
      {
        assert items[..i + 1][..i] == items[..i];
        changes := changes + [AddedItem(Docker, items[i])];
      }
      assert items[..|items|] == items;
      return;
    }
    if after.None? {
      var items := ContainerItems(before.value);
      for i := 0 to |items|
        invariant changes == AllRemoved(Docker, items[..i])
      {
        assert items[..i + 1][..i] == items[..i];
        changes := changes + [RemovedItem(Docker, items[i])];
      }
      assert items[..|items|] == items;
      return;
    }
    changes := CompareItems(Docker, ContainerItems(before.value), ContainerItems(after.value));
  }

  // ----- the order of the report -----

  function CategoryRank(category: Category): nat {
    match category
    case Packages => 0
    case Services => 1
    case Docker => 2
    case Users => 3
    case Network => 4
    case Disk => 5
    case System => 6
  }

  function TypeRank(changeType: ChangeType): nat {
    match changeType
    case Added => 0
    case Removed => 1
    case Modified => 2
  }

  /** The severities' texts in alphabetical order. */
  function SeverityRank(severity: Severity): nat {
    match severity
    case Critical => 0
    case Info => 1
    case Warning => 2
  }

  predicate Precedes(a: DriftChange, b: DriftChange) {
    if a.category != b.category then CategoryRank(a.category) < CategoryRank(b.category)
    else if a.changeType != b.changeType then TypeRank(a.changeType) < TypeRank(b.changeType)
    else if a.name != b.name then Less(a.name, b.name)
    else SeverityRank(a.severity) < SeverityRank(b.severity)
  }

  ghost predicate InReportOrder(changes: seq<DriftChange>) {
    forall i, j :: 0 <= i < j < |changes| ==> !Precedes(changes[j], changes[i])
  }

  /** A stable insertion: behind everything that it does not precede. */
  function InsertChange(changes: seq<DriftChange>, c: DriftChange): seq<DriftChange> {
    if changes != [] && Precedes(c, changes[|changes| - 1])
    then InsertChange(changes[..|changes| - 1], c) + [changes[|changes| - 1]]
    else changes + [c]
  }

  /** sort.SliceStable */
  function SortChanges(changes: seq<DriftChange>): seq<DriftChange> {
    if changes == [] then [] else InsertChange(SortChanges(changes[..|changes| - 1]), changes[|changes| - 1])
  }

  // ----- the report -----

  /** What the seven comparisons find, in the order in which they run. */
  function FoundChanges(oldSnap: ServerSnapshot, newSnap: ServerSnapshot): seq<DriftChange> {
    NameChanges(Packages, oldSnap.packages, newSnap.packages)
    + NameChanges(Users, oldSnap.users, newSnap.users)
    + ItemChanges(Services, ServiceItems(oldSnap.services), ServiceItems(newSnap.services))
    + DockerChanges(oldSnap.docker, newSnap.docker)
    + ItemChanges(Network, PortItems(oldSnap.networkPorts), PortItems(newSnap.networkPorts))
    + ItemChanges(Disk, DiskItems(oldSnap.diskUsage), DiskItems(newSnap.diskUsage))
    + SystemChanges(oldSnap, newSnap)
  }

  function SummaryOf(oldSnap: ServerSnapshot, newSnap: ServerSnapshot): DriftSummary {
    DriftSummary(
      |NewNames(oldSnap.packages, newSnap.packages)|,
      |NewNames(newSnap.packages, oldSnap.packages)|,
      |ItemChanges(Services, ServiceItems(oldSnap.services), ServiceItems(newSnap.services))|,
      |DockerChanges(oldSnap.docker, newSnap.docker)|,
      |NameChanges(Users, oldSnap.users, newSnap.users)|,
      |ItemChanges(Network, PortItems(oldSnap.networkPorts), PortItems(newSnap.networkPorts))|,
      |ItemChanges(Disk, DiskItems(oldSnap.diskUsage), DiskItems(newSnap.diskUsage))|)
  }

  method CompareSnapshots(oldSnap: Option<ServerSnapshot>, newSnap: Option<ServerSnapshot>)
      returns (changes: seq<DriftChange>, summary: DriftSummary)
    ensures oldSnap.None? || newSnap.None? ==> changes == [] && summary == NO_CHANGES
    ensures oldSnap.Some? && newSnap.Some? ==>
      changes == SortChanges(FoundChanges(oldSnap.value, newSnap.value))
        && summary == SummaryOf(oldSnap.value, newSnap.value)
  {
    if oldSnap.None? || newSnap.None? {
      return [], NO_CHANGES;
    }
    hide ItemChanges, DockerChanges, SystemChanges, SortChanges, ServiceItems, PortItems, DiskItems, NewNames;
    var before, after := oldSnap.value, newSnap.value;
    var added, removed, usersAdded, usersRemoved;
    changes, added, removed := AppendStringSetChanges([], Packages, before.packages, after.packages);
    changes, usersAdded, usersRemoved := AppendStringSetChanges(changes, Users, before.users, after.users);
    var services := CompareItems(Services, ServiceItems(before.services), ServiceItems(after.services));
    var docker := CompareDocker(before.docker, after.docker);
    var network := CompareItems(Network, PortItems(before.networkPorts), PortItems(after.networkPorts));
    var disk := CompareItems(Disk, DiskItems(before.diskUsage), DiskItems(after.diskUsage));
    var system := CompareSystem(before, after);
    assert [] + NameChanges(Packages, before.packages, after.packages)
           == NameChanges(Packages, before.packages, after.packages);
    changes := changes + services + docker + network + disk + system;
    assert changes == FoundChanges(before, after);
    changes := SortChanges(changes);
    summary := DriftSummary(added, removed, |services|, |docker|, usersAdded + usersRemoved, |network|, |disk|);
  }

  method BuildReport(oldSnap: Option<ServerSnapshot>, newSnap: Option<ServerSnapshot>) returns (report: DriftReport)
    ensures oldSnap.None? || newSnap.None? ==> report == DriftReport([], 0, NO_CHANGES)
    ensures oldSnap.Some? && newSnap.Some? ==> report == ReportOf(oldSnap.value, newSnap.value)
  {
    var changes, summary := CompareSnapshots(oldSnap, newSnap);
    report := DriftReport(changes, |changes|, summary);
  }

  function ReportOf(oldSnap: ServerSnapshot, newSnap: ServerSnapshot): DriftReport {
    var changes := SortChanges(FoundChanges(oldSnap, newSnap));
    DriftReport(changes, |changes|, SummaryOf(oldSnap, newSnap))
  }

  /** The total that the history shows. */
  function HistoryTotal(summary: DriftSummary): nat {
    summary.packagesAdded + summary.packagesRemoved + summary.servicesChanged + summary.dockerChanged
    + summary.usersChanged + summary.networkChanged + summary.diskChanged
  }
}
