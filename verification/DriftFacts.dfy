/** What a drift report is good for: it is exact, mirrored by a swap, and its totals add up. */
module DriftFacts {
  import opened Sequences
  import opened Text
  import opened SortedStrings
  import opened Snapshot
  import opened Drift

  // ----- counting changes -----

  datatype Query =
    | OfCategory(category: Category)
    | OfKind(category: Category, changeType: ChangeType)
    | Named(category: Category, changeType: ChangeType, name: string)
    | Like(change: DriftChange)

  /** A change without its severity. */
  function Bare(c: DriftChange): DriftChange {
    c.(severity := Info)
  }

  predicate Meets(c: DriftChange, q: Query) {
    match q
    case OfCategory(category) => c.category == category
    case OfKind(category, changeType) => c.category == category && c.changeType == changeType
    case Named(category, changeType, name) => c.category == category && c.changeType == changeType && c.name == name
    case Like(change) => Bare(c) == Bare(change)
  }

  function Count(changes: seq<DriftChange>, q: Query): nat {
    if changes == [] then 0
    else Count(changes[..|changes| - 1], q) + if Meets(changes[|changes| - 1], q) then 1 else 0
  }

  lemma {:induction false} CountJoin(a: seq<DriftChange>, b: seq<DriftChange>, q: Query)
    ensures Count(a + b, q) == Count(a, q) + Count(b, q)
  {
    if b == [] {
      assert a + b == a;
    } else {
      assert (a + b)[..|a + b| - 1] == a + b[..|b| - 1];
      CountJoin(a, b[..|b| - 1], q);
    }
  }

  lemma {:induction false} CountNone(changes: seq<DriftChange>, q: Query)
    requires forall i :: 0 <= i < |changes| ==> !Meets(changes[i], q)
    ensures Count(changes, q) == 0
  {
    if changes == [] {
    } else {
      CountNone(changes[..|changes| - 1], q);
    }
  }

  lemma {:induction false} CountAll(changes: seq<DriftChange>, q: Query)
    requires forall i :: 0 <= i < |changes| ==> Meets(changes[i], q)
    ensures Count(changes, q) == |changes|
  {
    if changes == [] {
    } else {
      CountAll(changes[..|changes| - 1], q);
    }
  }

  // ----- sorting -----

  lemma {:induction false} InsertPermutes(changes: seq<DriftChange>, c: DriftChange)
    ensures multiset(InsertChange(changes, c)) == multiset(changes) + multiset{c}
  {
    hide Precedes;
    if changes == [] {
    } else {
      var n := |changes| - 1;
      InsertPermutes(changes[..n], c);
      assert changes == changes[..n] + [changes[n]];
    }
  }

  lemma {:induction false} SortPermutes(changes: seq<DriftChange>)
    ensures multiset(SortChanges(changes)) == multiset(changes)
  {
    hide InsertChange;
    if changes == [] {
    } else {
      var n := |changes| - 1;
      SortPermutes(changes[..n]);
      InsertPermutes(SortChanges(changes[..n]), changes[n]);
      assert changes == changes[..n] + [changes[n]];
    }
  }

  lemma {:induction false} CountInsert(changes: seq<DriftChange>, c: DriftChange, q: Query)
    ensures Count(InsertChange(changes, c), q) == Count(changes, q) + if Meets(c, q) then 1 else 0
  {
    hide Precedes, Meets;
    if changes != [] && Precedes(c, changes[|changes| - 1]) {
      var n := |changes| - 1;
      CountInsert(changes[..n], c, q);
      var rest := InsertChange(changes[..n], c);
      assert (rest + [changes[n]])[..|rest|] == rest;
    } else {
      assert (changes + [c])[..|changes|] == changes;
    }
  }

  lemma {:induction false} CountSort(changes: seq<DriftChange>, q: Query)
    ensures Count(SortChanges(changes), q) == Count(changes, q)
  {
    if changes == [] {
    } else {
      CountSort(changes[..|changes| - 1], q);
      CountInsert(SortChanges(changes[..|changes| - 1]), changes[|changes| - 1], q);
    }
  }

  lemma NotBefore(a: DriftChange, b: DriftChange, c: DriftChange)
    requires !Precedes(b, a) && !Precedes(c, b)
    ensures !Precedes(c, a)
  {
    if Precedes(c, a) && a.category == b.category == c.category && a.changeType == b.changeType == c.changeType {
      if a.name != b.name {
        LessIsTotal(a.name, b.name);
      }
      if b.name != c.name {
        LessIsTotal(b.name, c.name);
      }
      if Less(a.name, b.name) && Less(b.name, c.name) {
        LessIsTransitive(a.name, b.name, c.name);
      }
      if Less(a.name, c.name) {
        LessIsStrict(a.name, c.name);
      }
      if Less(c.name, a.name) {
        LessIsStrict(c.name, a.name);
      }
    }
  }

  lemma PrecedesIsStrict(a: DriftChange, b: DriftChange)
    requires Precedes(a, b)
    ensures !Precedes(b, a)
  {
    if a.category == b.category && a.changeType == b.changeType && a.name != b.name {
      LessIsStrict(a.name, b.name);
    }
  }

  lemma {:induction false} InsertOrdered(changes: seq<DriftChange>, c: DriftChange)
    requires InReportOrder(changes)
    ensures InReportOrder(InsertChange(changes, c))
  {
    hide Precedes;
    if changes == [] {
    } else {
      var n := |changes| - 1;
      var last := changes[n];
      if Precedes(c, last) {
        InsertOrdered(changes[..n], c);
        InsertPermutes(changes[..n], c);
        var rest := InsertChange(changes[..n], c);
        forall i | 0 <= i < |rest|
          ensures !Precedes(last, rest[i])
        {
          assert rest[i] in multiset(rest);
          if rest[i] == c {
            PrecedesIsStrict(c, last);
          } else {
            var k :| 0 <= k < n && changes[k] == rest[i];
          }
        }
      } else {
        forall i | 0 <= i < |changes|
          ensures !Precedes(c, changes[i])
        {
          if i < n {
            NotBefore(changes[i], last, c);
          }
        }
      }
    }
  }

  /** The report lists what was found, reordered by category, type, name and severity. */
  lemma {:induction false} SortOrders(changes: seq<DriftChange>)
    ensures multiset(SortChanges(changes)) == multiset(changes)
    ensures InReportOrder(SortChanges(changes))
  {
    hide InsertChange, Precedes;
    if changes == [] {
    } else {
      SortPermutes(changes);
      SortOrders(changes[..|changes| - 1]);
      InsertOrdered(SortChanges(changes[..|changes| - 1]), changes[|changes| - 1]);
    }
  }

  /** The changes that compare as equal to `c`, in order. */
  function Ties(changes: seq<DriftChange>, c: DriftChange): seq<DriftChange> {
    if changes == [] then []
    else
      var n := |changes| - 1;
      Ties(changes[..n], c) + if Precedes(changes[n], c) || Precedes(c, changes[n]) then [] else [changes[n]]
  }

  lemma {:induction false} InsertTies(changes: seq<DriftChange>, x: DriftChange, c: DriftChange)
    ensures Ties(InsertChange(changes, x), c) == Ties(changes + [x], c)
  {
    hide Precedes;
    if changes != [] && Precedes(x, changes[|changes| - 1]) {
      var n := |changes| - 1;
      var last, rest := changes[n], InsertChange(changes[..n], x);
      InsertTies(changes[..n], x, c);
      assert (rest + [last])[..|rest|] == rest;
      assert (changes[..n] + [x])[..n] == changes[..n] && (changes + [x])[..|changes|] == changes;
      if !Precedes(x, c) && !Precedes(c, x) && !Precedes(last, c) && !Precedes(c, last) {
        NotBefore(last, c, x);
      }
    }
  }

  /** Changes that compare as equal stay in the order in which they were found. */
  lemma {:induction false} SortIsStable(changes: seq<DriftChange>, c: DriftChange)
    ensures Ties(SortChanges(changes), c) == Ties(changes, c)
  {
    hide Precedes;
    if changes == [] {
    } else {
      var n := |changes| - 1;
      var front := SortChanges(changes[..n]);
      SortIsStable(changes[..n], c);
      InsertTies(front, changes[n], c);
      assert (front + [changes[n]])[..|front|] == front;
    }
  }

  // ----- names: the report is exact -----

  lemma {:induction false} MissingElements(values: seq<string>, others: seq<string>)
    requires Distinct(values)
    ensures Distinct(Missing(values, others))
    ensures forall x :: x in Missing(values, others) <==> x in values && x !in others
  {
    if values == [] {
    } else {
      var n := |values| - 1;
      assert values == values[..n] + [values[n]];
      MissingElements(values[..n], others);
    }
  }

  lemma NewNamesAreNew(oldValues: seq<string>, newValues: seq<string>)
    ensures Distinct(NewNames(oldValues, newValues))
    ensures forall x :: x in NewNames(oldValues, newValues) <==> x in Names(newValues) && x !in Names(oldValues)
  {
    hide UniqueSorted;
    UniqueSortedNames(oldValues);
    UniqueSortedNames(newValues);
    AscendingIsDistinct(UniqueSorted(newValues));
    MissingElements(UniqueSorted(newValues), UniqueSorted(oldValues));
    forall x
      ensures x in UniqueSorted(newValues) <==> x in Names(newValues)
      ensures x in UniqueSorted(oldValues) <==> x in Names(oldValues)
    {
      assert x in UniqueSorted(newValues) <==> x in Elements(UniqueSorted(newValues));
      assert x in UniqueSorted(oldValues) <==> x in Elements(UniqueSorted(oldValues));
    }
  }

  lemma {:induction false} CountAddedNames(category: Category, names: seq<string>, changeType: ChangeType, name: string)
    ensures Count(AddedNames(category, names), Named(category, changeType, name))
            == if changeType == Added then multiset(names)[name] else 0
  {
    if names == [] {
    } else {
      var n := |names| - 1;
      assert names == names[..n] + [names[n]];
      assert AddedNames(category, names)[..n] == AddedNames(category, names[..n]);
      CountAddedNames(category, names[..n], changeType, name);
    }
  }

  lemma {:induction false} CountRemovedNames(category: Category, names: seq<string>, changeType: ChangeType,
                                             name: string)
    ensures Count(RemovedNames(category, names), Named(category, changeType, name))
            == if changeType == Removed then multiset(names)[name] else 0
  {
    if names == [] {
    } else {
      var n := |names| - 1;
      assert names == names[..n] + [names[n]];
      assert RemovedNames(category, names)[..n] == RemovedNames(category, names[..n]);
      CountRemovedNames(category, names[..n], changeType, name);
    }
  }

  /** How often a name should be reported as a change of the given type. */
  ghost function Expected(oldValues: seq<string>, newValues: seq<string>, changeType: ChangeType, name: string): nat {
    match changeType
    case Added => if name in Names(newValues) && name !in Names(oldValues) then 1 else 0
    case Removed => if name in Names(oldValues) && name !in Names(newValues) then 1 else 0
    case Modified => 0
  }

  lemma CountNameChanges(category: Category, oldValues: seq<string>, newValues: seq<string>, changeType: ChangeType,
                         name: string)
    ensures Count(NameChanges(category, oldValues, newValues), Named(category, changeType, name))
            == Expected(oldValues, newValues, changeType, name)
  {
    hide NewNames, AddedNames, RemovedNames, Names;
    var added, removed := NewNames(oldValues, newValues), NewNames(newValues, oldValues);
    CountJoin(AddedNames(category, added), RemovedNames(category, removed), Named(category, changeType, name));
    CountAddedNames(category, added, changeType, name);
    CountRemovedNames(category, removed, changeType, name);
    NewNamesAreNew(oldValues, newValues);
    NewNamesAreNew(newValues, oldValues);
    DistinctMultiplicity(added, name);
    DistinctMultiplicity(removed, name);
  }

  // ----- the parts of a report -----

  /** The parts other than the names, by category. */
  function Part(oldSnap: ServerSnapshot, newSnap: ServerSnapshot, category: Category): seq<DriftChange> {
    match category
    case Packages => NameChanges(Packages, oldSnap.packages, newSnap.packages)
    case Users => NameChanges(Users, oldSnap.users, newSnap.users)
    case Services => ItemChanges(Services, ServiceItems(oldSnap.services), ServiceItems(newSnap.services))
    case Docker => DockerChanges(oldSnap.docker, newSnap.docker)
    case Network => ItemChanges(Network, PortItems(oldSnap.networkPorts), PortItems(newSnap.networkPorts))
    case Disk => ItemChanges(Disk, DiskItems(oldSnap.diskUsage), DiskItems(newSnap.diskUsage))
    case System => SystemChanges(oldSnap, newSnap)
  }

  ghost predicate AllOf(changes: seq<DriftChange>, category: Category) {
    forall i :: 0 <= i < |changes| ==> changes[i].category == category
  }

  lemma {:induction false} ItemsOf(category: Category, before: map<string, Item>, after: map<string, Item>,
                                   keys: seq<string>)
    ensures AllOf(ChangesAt(category, before, after, keys), category)
  {
    hide KeyOf, Changed, AddedSeverity, RemovedSeverity, ModifiedSeverity;
    if keys == [] {
    } else {
      ItemsOf(category, before, after, keys[..|keys| - 1]);
    }
  }

  lemma {:induction false} FieldsOf(before: seq<Field>, after: seq<Field>)
    requires |before| == |after|
    ensures AllOf(FieldChanges(before, after), System)
  {
    if before == [] {
    } else {
      FieldsOf(before[..|before| - 1], after[..|after| - 1]);
    }
  }

  lemma {:induction false} AllAddedOf(category: Category, items: seq<Item>)
    ensures AllOf(AllAdded(category, items), category) && AllOf(AllRemoved(category, items), category)
  {
    hide KeyOf, AddedSeverity, RemovedSeverity;
    if items == [] {
    } else {
      AllAddedOf(category, items[..|items| - 1]);
    }
  }

  lemma PartOf(oldSnap: ServerSnapshot, newSnap: ServerSnapshot, category: Category)
    ensures AllOf(Part(oldSnap, newSnap, category), category)
  {
    hide ChangesAt, FieldChanges, SystemFields, IndexBy, UnionKeys, NewNames, AllAdded, AllRemoved;
    match category
    case Packages =>
    case Users =>
    case Services => ItemsOf(Services, IndexBy(ServiceItems(oldSnap.services)), IndexBy(ServiceItems(newSnap.services)),
      UnionKeys(ServiceItems(oldSnap.services), ServiceItems(newSnap.services)));
    case Network => ItemsOf(Network, IndexBy(PortItems(oldSnap.networkPorts)), IndexBy(PortItems(newSnap.networkPorts)),
      UnionKeys(PortItems(oldSnap.networkPorts), PortItems(newSnap.networkPorts)));
    case Disk => ItemsOf(Disk, IndexBy(DiskItems(oldSnap.diskUsage)), IndexBy(DiskItems(newSnap.diskUsage)),
      UnionKeys(DiskItems(oldSnap.diskUsage), DiskItems(newSnap.diskUsage)));
    case System => FieldsOf(SystemFields(oldSnap), SystemFields(newSnap));
    case Docker =>
      match (oldSnap.docker, newSnap.docker)
      case (None, None) =>
      case (None, Some(now)) => AllAddedOf(Docker, ContainerItems(now));
      case (Some(was), None) => AllAddedOf(Docker, ContainerItems(was));
      case (Some(was), Some(now)) => ItemsOf(Docker, IndexBy(ContainerItems(was)), IndexBy(ContainerItems(now)),
        UnionKeys(ContainerItems(was), ContainerItems(now)));
  }

  function CategoryOf(q: Query): Category {
    if q.Like? then q.change.category else q.category
  }

  lemma CountPart(oldSnap: ServerSnapshot, newSnap: ServerSnapshot, category: Category, q: Query)
    ensures category != CategoryOf(q) ==> Count(Part(oldSnap, newSnap, category), q) == 0
  {
    hide Part;
    PartOf(oldSnap, newSnap, category);
    if category != CategoryOf(q) {
      CountNone(Part(oldSnap, newSnap, category), q);
    }
  }

  /** A query about one category counts within that category's part, wherever sorting has put its changes. */
  lemma CountReport(oldSnap: ServerSnapshot, newSnap: ServerSnapshot, q: Query)
    ensures Count(ReportOf(oldSnap, newSnap).changes, q) == Count(Part(oldSnap, newSnap, CategoryOf(q)), q)
  {
    hide Part, SortChanges, SummaryOf, Count, FoundChanges;
    CountSort(FoundChanges(oldSnap, newSnap), q);
    CountFound(oldSnap, newSnap, q);
    CountPart(oldSnap, newSnap, Packages, q);
    CountPart(oldSnap, newSnap, Users, q);
    CountPart(oldSnap, newSnap, Services, q);
    CountPart(oldSnap, newSnap, Docker, q);
    CountPart(oldSnap, newSnap, Network, q);
    CountPart(oldSnap, newSnap, Disk, q);
    CountPart(oldSnap, newSnap, System, q);
  }

  lemma CountFound(oldSnap: ServerSnapshot, newSnap: ServerSnapshot, q: Query)
    ensures Count(FoundChanges(oldSnap, newSnap), q)
            == Count(Part(oldSnap, newSnap, Packages), q) + Count(Part(oldSnap, newSnap, Users), q)
               + Count(Part(oldSnap, newSnap, Services), q) + Count(Part(oldSnap, newSnap, Docker), q)
               + Count(Part(oldSnap, newSnap, Network), q) + Count(Part(oldSnap, newSnap, Disk), q)
               + Count(Part(oldSnap, newSnap, System), q)
  {
    hide Count, NameChanges, ItemChanges, DockerChanges, SystemChanges, ServiceItems, PortItems, DiskItems;
    var p, u, s := Part(oldSnap, newSnap, Packages), Part(oldSnap, newSnap, Users), Part(oldSnap, newSnap, Services);
    var d, n, k := Part(oldSnap, newSnap, Docker), Part(oldSnap, newSnap, Network), Part(oldSnap, newSnap, Disk);
    CountJoin(p, u, q);
    CountJoin(p + u, s, q);
    CountJoin(p + u + s, d, q);
    CountJoin(p + u + s + d, n, q);
    CountJoin(p + u + s + d + n, k, q);
    CountJoin(p + u + s + d + n + k, Part(oldSnap, newSnap, System), q);
  }

  /** Packages and users: each name that is only in the new snapshot is reported as added once, each that is only in
      the old one as removed once, and no other. */
  lemma NamesAreExact(oldSnap: ServerSnapshot, newSnap: ServerSnapshot, changeType: ChangeType, name: string)
    ensures Count(ReportOf(oldSnap, newSnap).changes, Named(Packages, changeType, name))
            == Expected(oldSnap.packages, newSnap.packages, changeType, name)
    ensures Count(ReportOf(oldSnap, newSnap).changes, Named(Users, changeType, name))
            == Expected(oldSnap.users, newSnap.users, changeType, name)
  {
    hide ReportOf, Expected, NameChanges, Count;
    CountReport(oldSnap, newSnap, Named(Packages, changeType, name));
    CountReport(oldSnap, newSnap, Named(Users, changeType, name));
    CountNameChanges(Packages, oldSnap.packages, newSnap.packages, changeType, name);
    CountNameChanges(Users, oldSnap.users, newSnap.users, changeType, name);
  }

  ghost predicate Reported(changes: seq<DriftChange>, category: Category, changeType: ChangeType, name: string) {
    Count(changes, Named(category, changeType, name)) > 0
  }

  /** The old names without the removed ones, together with the added ones, are the new names. */
  lemma OldMinusRemovedPlusAdded(oldSnap: ServerSnapshot, newSnap: ServerSnapshot, name: string)
    ensures var changes := ReportOf(oldSnap, newSnap).changes;
            && (name in Names(newSnap.packages) <==>
                (name in Names(oldSnap.packages) && !Reported(changes, Packages, Removed, name))
                  || Reported(changes, Packages, Added, name))
            && (name in Names(newSnap.users) <==>
                (name in Names(oldSnap.users) && !Reported(changes, Users, Removed, name))
                  || Reported(changes, Users, Added, name))
  {
    hide ReportOf, Count, Names;
    NamesAreExact(oldSnap, newSnap, Added, name);
    NamesAreExact(oldSnap, newSnap, Removed, name);
  }

  // ----- records -----

  /** The key that a query asks for. */
  function NameOf(q: Query): string
    requires q.Named? || q.Like?
  {
    if q.Named? then q.name else q.change.name
  }

  ghost predicate KeysFit(index: map<string, Item>) {
    forall key :: key in index ==> KeyOf(index[key]) == key
  }

  lemma OtherKey(category: Category, before: map<string, Item>, after: map<string, Item>, key: string, q: Query)
    requires KeysFit(before) && KeysFit(after) && (q.Named? || q.Like?) && NameOf(q) != key
    ensures Count(ChangeAt(category, before, after, key), q) == 0
  {
    hide KeyOf, Changed, AddedSeverity, RemovedSeverity, ModifiedSeverity, Count;
    CountNone(ChangeAt(category, before, after, key), q);
  }

  /** What a list of changes says of one key is what was found at that key. */
  lemma {:induction false} CountByKey(category: Category, before: map<string, Item>, after: map<string, Item>,
                                      keys: seq<string>, q: Query)
    requires KeysFit(before) && KeysFit(after) && Distinct(keys) && (q.Named? || q.Like?)
    ensures Count(ChangesAt(category, before, after, keys), q)
            == if NameOf(q) in keys then Count(ChangeAt(category, before, after, NameOf(q)), q) else 0
  {
    hide ChangeAt, KeysFit, NameOf;
    if keys == [] {
    } else {
      var n := |keys| - 1;
      assert keys == keys[..n] + [keys[n]];
      CountByKey(category, before, after, keys[..n], q);
      CountJoin(ChangesAt(category, before, after, keys[..n]), ChangeAt(category, before, after, keys[n]), q);
      if keys[n] != NameOf(q) {
        OtherKey(category, before, after, keys[n], q);
      }
    }
  }

  lemma NothingAt(category: Category, before: map<string, Item>, after: map<string, Item>, key: string, q: Query)
    requires key !in before && key !in after
    ensures Count(ChangeAt(category, before, after, key), q) == 0
  {
  }

  lemma CountItems(category: Category, before: seq<Item>, after: seq<Item>, q: Query)
    requires q.Named? || q.Like?
    ensures Count(ItemChanges(category, before, after), q)
            == Count(ChangeAt(category, IndexBy(before), IndexBy(after), NameOf(q)), q)
  {
    hide KeyOf, ChangesAt, ChangeAt, IndexBy, UnionKeys, Count, NameOf;
    IndexedItems(before);
    IndexedItems(after);
    UnionKeysListed(before, after);
    CountByKey(category, IndexBy(before), IndexBy(after), UnionKeys(before, after), q);
    if NameOf(q) !in UnionKeys(before, after) {
      NothingAt(category, IndexBy(before), IndexBy(after), NameOf(q), q);
    }
  }

  lemma UnionKeysListed(before: seq<Item>, after: seq<Item>)
    ensures Distinct(UnionKeys(before, after))
    ensures forall key :: key in UnionKeys(before, after) <==> key in IndexBy(before) || key in IndexBy(after)
  {
    hide KeyOf, Sorted, IndexBy;
    var all := Keys(before) + Keys(after);
    SortedIsSorted(all);
    AscendingIsDistinct(UnionKeys(before, after));
    IndexKeys(before);
    IndexKeys(after);
    forall key
      ensures key in UnionKeys(before, after) <==> key in IndexBy(before) || key in IndexBy(after)
    {
      assert key in UnionKeys(before, after) <==> key in Elements(Sorted(all));
      assert key in Elements(Keys(before)) <==> key in Keys(before);
      assert key in Elements(Keys(after)) <==> key in Keys(after);
    }
  }

  /** The records of a category in a snapshot. */
  function ItemsIn(snap: ServerSnapshot, category: Category): seq<Item> {
    match category
    case Services => ServiceItems(snap.services)
    case Network => PortItems(snap.networkPorts)
    case Disk => DiskItems(snap.diskUsage)
    case Docker => if snap.docker.Some? then ContainerItems(snap.docker.value) else []
    case _ => []
  }

  /** Records of this category are compared by key. */
  predicate ComparedByKey(oldSnap: ServerSnapshot, newSnap: ServerSnapshot, category: Category) {
    category == Services || category == Network || category == Disk
    || (category == Docker && oldSnap.docker.Some? && newSnap.docker.Some?)
  }

  /** The one change that a key calls for, if it calls for one. */
  ghost predicate CallsFor(before: map<string, Item>, after: map<string, Item>, c: DriftChange) {
    match c.changeType
    case Added =>
      c.name !in before && c.name in after && c.oldValue == Nothing && c.newValue == Whole(after[c.name])
      && c.severity == AddedSeverity(after[c.name])
    case Removed =>
      c.name in before && c.name !in after && c.oldValue == Whole(before[c.name]) && c.newValue == Nothing
      && c.severity == RemovedSeverity(before[c.name])
    case Modified =>
      c.name in before && c.name in after && Changed(before[c.name], after[c.name])
      && c.oldValue == Whole(before[c.name]) && c.newValue == Whole(after[c.name])
      && c.severity == ModifiedSeverity(before[c.name], after[c.name])
  }

  ghost function ExpectedItem(before: map<string, Item>, after: map<string, Item>, changeType: ChangeType,
                              key: string): nat {
    match changeType
    case Added => if key in after && key !in before then 1 else 0
    case Removed => if key in before && key !in after then 1 else 0
    case Modified => if key in before && key in after && Changed(before[key], after[key]) then 1 else 0
  }

  lemma CountAt(category: Category, before: map<string, Item>, after: map<string, Item>, changeType: ChangeType,
                key: string)
    requires KeysFit(before) && KeysFit(after)
    ensures Count(ChangeAt(category, before, after, key), Named(category, changeType, key))
            == ExpectedItem(before, after, changeType, key)
  {
    hide KeyOf, Changed, AddedSeverity, RemovedSeverity, ModifiedSeverity;
  }

  /** Services, ports, disks and containers: of each key there is one addition when only the new snapshot has it, one
      removal when only the old one has it, one modification when both have it and its records differ, and no other. */
  lemma ItemsAreExact(oldSnap: ServerSnapshot, newSnap: ServerSnapshot, category: Category, changeType: ChangeType,
                      key: string)
    requires ComparedByKey(oldSnap, newSnap, category)
    ensures Count(ReportOf(oldSnap, newSnap).changes, Named(category, changeType, key))
            == ExpectedItem(IndexBy(ItemsIn(oldSnap, category)), IndexBy(ItemsIn(newSnap, category)), changeType, key)
  {
    hide ReportOf, Part, Count, ExpectedItem, ItemsIn, IndexBy, KeyOf;
    var before, after := ItemsIn(oldSnap, category), ItemsIn(newSnap, category);
    var q := Named(category, changeType, key);
    CountReport(oldSnap, newSnap, q);
    PartByKey(oldSnap, newSnap, category);
    CountItems(category, before, after, q);
    IndexedItems(before);
    IndexedItems(after);
    CountAt(category, IndexBy(before), IndexBy(after), changeType, key);
  }

  lemma CountOneMore(changes: seq<DriftChange>, c: DriftChange, q: Query)
    ensures Count(changes + [c], q) == Count(changes, q) + if Meets(c, q) then 1 else 0
  {
    assert (changes + [c])[..|changes|] == changes;
  }

  lemma NoneCounted(q: Query)
    ensures Count([], q) == 0 && Keys([]) == []
  {
  }

  lemma OneMoreKey(items: seq<Item>)
    requires items != []
    ensures var keys := Keys(items[..|items| - 1]);
            Keys(items) == keys + [KeyOf(items[|items| - 1])]
            && forall key ::
                 multiset(Keys(items))[key]
                 == multiset(keys)[key] + if key == KeyOf(items[|items| - 1]) then 1 else 0
  {
    hide KeyOf;
    assert Keys(items) == Keys(items[..|items| - 1]) + [KeyOf(items[|items| - 1])];
  }

  lemma {:induction false} CountAllAdded(category: Category, items: seq<Item>, changeType: ChangeType, key: string)
    ensures Count(AllAdded(category, items), Named(category, changeType, key))
            == if changeType == Added then multiset(Keys(items))[key] else 0
  {
    hide KeyOf, AddedSeverity, RemovedSeverity, Count, Keys;
    if items == [] {
      NoneCounted(Named(category, changeType, key));
    } else {
      var front, last := items[..|items| - 1], items[|items| - 1];
      CountAllAdded(category, front, changeType, key);
      OneMoreKey(items);
      CountOneMore(AllAdded(category, front), AddedItem(category, last), Named(category, changeType, key));
    }
  }

  lemma {:induction false} CountAllRemoved(category: Category, items: seq<Item>, changeType: ChangeType, key: string)
    ensures Count(AllRemoved(category, items), Named(category, changeType, key))
            == if changeType == Removed then multiset(Keys(items))[key] else 0
  {
    hide KeyOf, AddedSeverity, RemovedSeverity, Count, Keys;
    if items == [] {
      NoneCounted(Named(category, changeType, key));
    } else {
      var front, last := items[..|items| - 1], items[|items| - 1];
      CountAllRemoved(category, front, changeType, key);
      OneMoreKey(items);
      CountOneMore(AllRemoved(category, front), RemovedItem(category, last), Named(category, changeType, key));
    }
  }

  /** With Docker on one side only, every container of that side is reported, namesakes included. */
  lemma DockerOnOneSide(oldSnap: ServerSnapshot, newSnap: ServerSnapshot, changeType: ChangeType, key: string)
    requires oldSnap.docker.None? || newSnap.docker.None?
    ensures Count(ReportOf(oldSnap, newSnap).changes, Named(Docker, changeType, key))
            == match changeType
               case Added => multiset(Keys(ItemsIn(newSnap, Docker)))[key]
               case Removed => multiset(Keys(ItemsIn(oldSnap, Docker)))[key]
               case Modified => 0
  {
    hide ReportOf, Keys;
    assert Keys([]) == [];
    CountReport(oldSnap, newSnap, Named(Docker, changeType, key));
    if newSnap.docker.Some? {
      CountAllAdded(Docker, ItemsIn(newSnap, Docker), changeType, key);
    } else if oldSnap.docker.Some? {
      CountAllRemoved(Docker, ItemsIn(oldSnap, Docker), changeType, key);
    }
  }

  lemma PartByKey(oldSnap: ServerSnapshot, newSnap: ServerSnapshot, category: Category)
    requires ComparedByKey(oldSnap, newSnap, category)
    ensures Part(oldSnap, newSnap, category)
            == ItemChanges(category, ItemsIn(oldSnap, category), ItemsIn(newSnap, category))
  {
    hide ItemChanges;
  }

  lemma {:induction false} ChangesAreCalledFor(category: Category, before: map<string, Item>, after: map<string, Item>,
                                               keys: seq<string>)
    requires KeysFit(before) && KeysFit(after)
    ensures forall c :: c in ChangesAt(category, before, after, keys) ==> CallsFor(before, after, c)
  {
    if keys == [] {
    } else {
      ChangesAreCalledFor(category, before, after, keys[..|keys| - 1]);
      ChangeIsCalledFor(category, before, after, keys[|keys| - 1]);
    }
  }

  lemma ChangeIsCalledFor(category: Category, before: map<string, Item>, after: map<string, Item>, key: string)
    requires KeysFit(before) && KeysFit(after)
    ensures forall c :: c in ChangeAt(category, before, after, key) ==> CallsFor(before, after, c)
  {
    hide KeyOf, Changed, AddedSeverity, RemovedSeverity, ModifiedSeverity;
  }

  /** Each of them carries the records of its key, and the severity that they call for. */
  lemma ItemValues(oldSnap: ServerSnapshot, newSnap: ServerSnapshot, category: Category, c: DriftChange)
    requires ComparedByKey(oldSnap, newSnap, category) && c in ReportOf(oldSnap, newSnap).changes
             && c.category == category
    ensures CallsFor(IndexBy(ItemsIn(oldSnap, category)), IndexBy(ItemsIn(newSnap, category)), c)
  {
    hide Part, Count, CallsFor, ItemsIn, IndexBy, KeyOf, ChangesAt, UnionKeys, SortChanges, FoundChanges;
    var before, after := ItemsIn(oldSnap, category), ItemsIn(newSnap, category);
    ReportedIsInPart(oldSnap, newSnap, c);
    PartByKey(oldSnap, newSnap, category);
    IndexedItems(before);
    IndexedItems(after);
    ChangesAreCalledFor(category, IndexBy(before), IndexBy(after), UnionKeys(before, after));
  }

  lemma FoundIsInPart(oldSnap: ServerSnapshot, newSnap: ServerSnapshot, c: DriftChange) returns (category: Category)
    requires c in FoundChanges(oldSnap, newSnap)
    ensures c in Part(oldSnap, newSnap, category)
  {
    hide NameChanges, ItemChanges, DockerChanges, SystemChanges, ServiceItems, PortItems, DiskItems;
    category := if c in Part(oldSnap, newSnap, Packages) then Packages
                else if c in Part(oldSnap, newSnap, Users) then Users
                else if c in Part(oldSnap, newSnap, Services) then Services
                else if c in Part(oldSnap, newSnap, Docker) then Docker
                else if c in Part(oldSnap, newSnap, Network) then Network
                else if c in Part(oldSnap, newSnap, Disk) then Disk
                else System;
  }

  lemma ReportedIsInPart(oldSnap: ServerSnapshot, newSnap: ServerSnapshot, c: DriftChange)
    requires c in ReportOf(oldSnap, newSnap).changes
    ensures c in Part(oldSnap, newSnap, c.category)
  {
    hide FoundChanges, SortChanges, Part, SummaryOf;
    SortPermutes(FoundChanges(oldSnap, newSnap));
    assert c in multiset(ReportOf(oldSnap, newSnap).changes);
    var category := FoundIsInPart(oldSnap, newSnap, c);
    PartOf(oldSnap, newSnap, category);
  }

  // ----- totals -----

  lemma SizeOfFound(oldSnap: ServerSnapshot, newSnap: ServerSnapshot)
    ensures |FoundChanges(oldSnap, newSnap)|
            == |Part(oldSnap, newSnap, Packages)| + |Part(oldSnap, newSnap, Users)| + |Part(oldSnap, newSnap, Services)|
               + |Part(oldSnap, newSnap, Docker)| + |Part(oldSnap, newSnap, Network)| + |Part(oldSnap, newSnap, Disk)|
               + |Part(oldSnap, newSnap, System)|
  {
    hide NameChanges, ItemChanges, DockerChanges, SystemChanges, ServiceItems, PortItems, DiskItems;
  }

  lemma SizeOfPart(oldSnap: ServerSnapshot, newSnap: ServerSnapshot, category: Category)
    ensures Count(ReportOf(oldSnap, newSnap).changes, OfCategory(category)) == |Part(oldSnap, newSnap, category)|
  {
    hide ReportOf, Part, Count;
    CountReport(oldSnap, newSnap, OfCategory(category));
    PartOf(oldSnap, newSnap, category);
    CountAll(Part(oldSnap, newSnap, category), OfCategory(category));
  }

  lemma CountPackages(oldSnap: ServerSnapshot, newSnap: ServerSnapshot)
    ensures Count(ReportOf(oldSnap, newSnap).changes, OfKind(Packages, Added))
            == |NewNames(oldSnap.packages, newSnap.packages)|
    ensures Count(ReportOf(oldSnap, newSnap).changes, OfKind(Packages, Removed))
            == |NewNames(newSnap.packages, oldSnap.packages)|
  {
    hide ReportOf, Count, NewNames;
    var added := AddedNames(Packages, NewNames(oldSnap.packages, newSnap.packages));
    var removed := RemovedNames(Packages, NewNames(newSnap.packages, oldSnap.packages));
    CountReport(oldSnap, newSnap, OfKind(Packages, Added));
    CountReport(oldSnap, newSnap, OfKind(Packages, Removed));
    CountJoin(added, removed, OfKind(Packages, Added));
    CountJoin(added, removed, OfKind(Packages, Removed));
    CountAll(added, OfKind(Packages, Added));
    CountNone(removed, OfKind(Packages, Added));
    CountNone(added, OfKind(Packages, Removed));
    CountAll(removed, OfKind(Packages, Removed));
  }

  /** Every counter of the summary is the number of reported changes of its kind, and the total is the seven counters
      together with the system changes, which have no counter. */
  lemma TotalsAddUp(oldSnap: ServerSnapshot, newSnap: ServerSnapshot)
    ensures var r := ReportOf(oldSnap, newSnap);
            && r.totalChanges == |r.changes| == HistoryTotal(r.summary) + Count(r.changes, OfCategory(System))
            && r.summary.packagesAdded == Count(r.changes, OfKind(Packages, Added))
            && r.summary.packagesRemoved == Count(r.changes, OfKind(Packages, Removed))
            && r.summary.usersChanged == Count(r.changes, OfCategory(Users))
            && r.summary.servicesChanged == Count(r.changes, OfCategory(Services))
            && r.summary.dockerChanged == Count(r.changes, OfCategory(Docker))
            && r.summary.networkChanged == Count(r.changes, OfCategory(Network))
            && r.summary.diskChanged == Count(r.changes, OfCategory(Disk))
  {
    hide Count, NewNames, ItemChanges, DockerChanges, SystemChanges, ServiceItems, PortItems, DiskItems, FoundChanges,
      SortChanges;
    SizeOfFound(oldSnap, newSnap);
    SortPermutes(FoundChanges(oldSnap, newSnap));
    assert |ReportOf(oldSnap, newSnap).changes| == |multiset(ReportOf(oldSnap, newSnap).changes)|;
    assert |FoundChanges(oldSnap, newSnap)| == |multiset(FoundChanges(oldSnap, newSnap))|;
    CountPackages(oldSnap, newSnap);
    SizeOfPart(oldSnap, newSnap, Users);
    SizeOfPart(oldSnap, newSnap, Services);
    SizeOfPart(oldSnap, newSnap, Docker);
    SizeOfPart(oldSnap, newSnap, Network);
    SizeOfPart(oldSnap, newSnap, Disk);
    SizeOfPart(oldSnap, newSnap, System);
  }

  lemma {:induction false} NoFieldDiffers(before: seq<Field>, after: seq<Field>)
    requires |before| == |after|
    ensures FieldChanges(before, after) == [] <==> forall i :: 0 <= i < |before| ==> before[i].value == after[i].value
  {
    if before == [] {
    } else {
      NoFieldDiffers(before[..|before| - 1], after[..|after| - 1]);
    }
  }

  /** All that is known of the host is compared. */
  lemma SameHost(oldSnap: ServerSnapshot, newSnap: ServerSnapshot)
    ensures SystemChanges(oldSnap, newSnap) == [] <==> oldSnap.os == newSnap.os && oldSnap.hardware == newSnap.hardware
  {
    var before, after := SystemFields(oldSnap), SystemFields(newSnap);
    NoFieldDiffers(before, after);
    if SystemChanges(oldSnap, newSnap) == [] {
      assert forall i :: 0 <= i < 13 ==> before[i].value == after[i].value;
      assert before[0].value == after[0].value && before[1].value == after[1].value
             && before[2].value == after[2].value;
      assert before[3].value == after[3].value && before[4].value == after[4].value
             && before[5].value == after[5].value;
      assert before[6].value == after[6].value && before[7].value == after[7].value
             && before[8].value == after[8].value;
      assert before[9].value == after[9].value && before[10].value == after[10].value;
      assert before[11].value == after[11].value && before[12].value == after[12].value;
    }
  }

  /** The total that the history shows for the same two snapshots is smaller unless operating system and hardware are
      the same in both. */
  lemma HistoryOmitsSystem(oldSnap: ServerSnapshot, newSnap: ServerSnapshot)
    ensures var r := ReportOf(oldSnap, newSnap);
            && HistoryTotal(r.summary) <= r.totalChanges
            && (HistoryTotal(r.summary) == r.totalChanges <==>
               oldSnap.os == newSnap.os && oldSnap.hardware == newSnap.hardware)
  {
    hide ReportOf, HistoryTotal, Count, SystemChanges;
    TotalsAddUp(oldSnap, newSnap);
    SizeOfPart(oldSnap, newSnap, System);
    SameHost(oldSnap, newSnap);
  }

  // ----- swapping the snapshots -----

  function Flip(changeType: ChangeType): ChangeType {
    match changeType
    case Added => Removed
    case Removed => Added
    case Modified => Modified
  }

  function Mirror(c: DriftChange): DriftChange {
    c.(changeType := Flip(c.changeType), oldValue := c.newValue, newValue := c.oldValue)
  }

  ghost predicate MirroredBy(a: seq<DriftChange>, b: seq<DriftChange>) {
    |a| == |b| && forall i :: 0 <= i < |a| ==> Bare(b[i]) == Bare(Mirror(a[i]))
  }

  lemma {:induction false} CountMirrored(a: seq<DriftChange>, b: seq<DriftChange>, c: DriftChange)
    requires MirroredBy(a, b)
    ensures Count(a, Like(c)) == Count(b, Like(Mirror(c)))
  {
    if a == [] {
    } else {
      var n := |a| - 1;
      CountMirrored(a[..n], b[..n], c);
      assert Bare(b[n]) == Bare(Mirror(a[n]));
    }
  }

  lemma NamesMirrored(category: Category, oldValues: seq<string>, newValues: seq<string>, c: DriftChange)
    ensures Count(NameChanges(category, oldValues, newValues), Like(c))
            == Count(NameChanges(category, newValues, oldValues), Like(Mirror(c)))
  {
    hide NewNames, Count;
    var added, removed := NewNames(oldValues, newValues), NewNames(newValues, oldValues);
    CountJoin(AddedNames(category, added), RemovedNames(category, removed), Like(c));
    CountJoin(AddedNames(category, removed), RemovedNames(category, added), Like(Mirror(c)));
    CountMirrored(AddedNames(category, added), RemovedNames(category, added), c);
    CountMirrored(RemovedNames(category, removed), AddedNames(category, removed), c);
  }

  /** Something other than the labels differs. */
  predicate DiffersBesidesLabels(a: ContainerInfo, b: ContainerInfo) {
    a.image != b.image || a.status != b.status || a.state != b.state
    || !SameStringSliceIgnoreOrder(PortStrings(a.ports), PortStrings(b.ports))
    || !SameStringSliceIgnoreOrder(a.volumes, b.volumes) || !SameStringSliceIgnoreOrder(a.networks, b.networks)
  }

  /** The labels that only `left` has are all empty. */
  predicate BlankAlone(left: map<string, string>, right: map<string, string>) {
    forall key :: key in left && key !in right ==> left[key] == ""
  }

  /** There are more labels on one side, or some label differs, or what stands on one side only is empty on both sides
      or on neither. */
  predicate LabelsComparable(left: map<string, string>, right: map<string, string>) {
    |left| != |right| || (exists key :: key in left && key in right && left[key] != right[key])
    || (BlankAlone(left, right) <==> BlankAlone(right, left))
  }

  predicate SameBothWays(a: Item, b: Item) {
    match (a, b)
    case (ContainerItem(x), ContainerItem(y)) => DiffersBesidesLabels(x, y) || LabelsComparable(x.labels, y.labels)
    case _ => true
  }

  lemma SliceSwap(a: seq<string>, b: seq<string>)
    ensures SameStringSliceIgnoreOrder(a, b) == SameStringSliceIgnoreOrder(b, a)
  {
  }

  lemma LabelsSwap(left: map<string, string>, right: map<string, string>)
    ensures SameStringMap(left, right) == SameStringMap(right, left) <==> LabelsComparable(left, right)
  {
  }

  /** Two records are compared the same in both directions exactly when their labels are comparable or do not matter. */
  lemma ChangedAlike(a: Item, b: Item)
    ensures Changed(a, b) == Changed(b, a) <==> SameBothWays(a, b)
  {
    hide SameStringSliceIgnoreOrder, SameStringMap, LabelsComparable, PortStrings;
    match (a, b)
    case (ContainerItem(x), ContainerItem(y)) =>
      LabelsSwap(x.labels, y.labels);
      SliceSwap(PortStrings(x.ports), PortStrings(y.ports));
      SliceSwap(x.volumes, y.volumes);
      SliceSwap(x.networks, y.networks);
    case (ServiceItem(x), ServiceItem(y)) =>
      SliceSwap(x.dependsOn, y.dependsOn);
    case _ =>
  }

  ghost predicate ComparedAlike(before: map<string, Item>, after: map<string, Item>) {
    && (forall key :: key in before ==> KeyOf(before[key]) == key)
    && (forall key :: key in after ==> KeyOf(after[key]) == key)
    && (forall key :: key in before && key in after ==> SameBothWays(before[key], after[key]))
  }

  lemma NothingMirrored()
    ensures MirroredBy([], [])
  {
  }

  lemma ItemMirrored(category: Category, before: map<string, Item>, after: map<string, Item>, key: string)
    requires ComparedAlike(before, after)
    ensures MirroredBy(ChangeAt(category, before, after, key), ChangeAt(category, after, before, key))
  {
    hide KeyOf, Changed, SameBothWays, AddedSeverity, RemovedSeverity, ModifiedSeverity;
    if key in before && key in after {
      ChangedAlike(before[key], after[key]);
    }
  }

  lemma MirroredJoin(a: seq<DriftChange>, b: seq<DriftChange>, c: seq<DriftChange>, d: seq<DriftChange>)
    requires MirroredBy(a, b) && MirroredBy(c, d)
    ensures MirroredBy(a + c, b + d)
  {
    hide Bare, Mirror;
  }

  lemma {:induction false} ItemsMirrored(category: Category, before: map<string, Item>, after: map<string, Item>,
                                         keys: seq<string>)
    requires ComparedAlike(before, after)
    ensures MirroredBy(ChangesAt(category, before, after, keys), ChangesAt(category, after, before, keys))
  {
    hide ChangeAt, ComparedAlike, MirroredBy;
    if keys == [] {
      assert MirroredBy([], []) by {
        NothingMirrored();
      }
    } else {
      var n := |keys| - 1;
      ItemsMirrored(category, before, after, keys[..n]);
      ItemMirrored(category, before, after, keys[n]);
      MirroredJoin(ChangesAt(category, before, after, keys[..n]), ChangesAt(category, after, before, keys[..n]),
                   ChangeAt(category, before, after, keys[n]), ChangeAt(category, after, before, keys[n]));
    }
  }

  lemma UnionKeysSwap(before: seq<Item>, after: seq<Item>)
    ensures UnionKeys(before, after) == UnionKeys(after, before)
  {
    hide KeyOf, Keys;
    assert Elements(Keys(before) + Keys(after)) == Elements(Keys(after) + Keys(before));
    SameElementsSameOrder(Keys(before) + Keys(after), Keys(after) + Keys(before));
  }

  lemma {:induction false} IndexedItems(items: seq<Item>)
    ensures forall key :: key in IndexBy(items) ==> IndexBy(items)[key] in items && KeyOf(IndexBy(items)[key]) == key
  {
    hide KeyOf;
    if items == [] {
    } else {
      var n := |items| - 1;
      assert items == items[..n] + [items[n]];
      IndexedItems(items[..n]);
    }
  }

  lemma ItemChangesMirrored(category: Category, before: seq<Item>, after: seq<Item>)
    requires AllAlike(before, after)
    ensures MirroredBy(ItemChanges(category, before, after), ItemChanges(category, after, before))
  {
    hide KeyOf, SameBothWays, ChangesAt, UnionKeys, IndexBy;
    UnionKeysSwap(before, after);
    IndexedItems(before);
    IndexedItems(after);
    ItemsMirrored(category, IndexBy(before), IndexBy(after), UnionKeys(before, after));
  }

  /** Where two records count that have the same key, they are compared alike. */
  ghost predicate AllAlike(before: seq<Item>, after: seq<Item>) {
    forall key :: key in IndexBy(before) && key in IndexBy(after) ==>
      SameBothWays(IndexBy(before)[key], IndexBy(after)[key])
  }

  // ----- where they are not compared alike -----

  lemma {:induction false} ChangeAppears(category: Category, before: map<string, Item>, after: map<string, Item>,
                                         keys: seq<string>, key: string)
    requires key in keys && key in before && key in after && Changed(before[key], after[key])
    ensures Count(ChangesAt(category, before, after, keys), Like(ModifiedItem(category, before[key], after[key]))) > 0
  {
    hide ChangeAt, ModifiedItem, Meets;
    var n, c := |keys| - 1, ModifiedItem(category, before[key], after[key]);
    CountJoin(ChangesAt(category, before, after, keys[..n]), ChangeAt(category, before, after, keys[n]), Like(c));
    if keys[n] == key {
      AppearsAt(category, before, after, key);
    } else {
      ChangeAppears(category, before, after, keys[..n], key);
    }
  }

  lemma AppearsAt(category: Category, before: map<string, Item>, after: map<string, Item>, key: string)
    requires key in before && key in after && Changed(before[key], after[key])
    ensures Count(ChangeAt(category, before, after, key), Like(ModifiedItem(category, before[key], after[key]))) > 0
  {
    hide KeyOf, Changed, ModifiedSeverity;
  }

  lemma NotAt(category: Category, before: map<string, Item>, after: map<string, Item>, key: string, c: DriftChange)
    requires key in before ==> KeyOf(before[key]) == key
    requires c.changeType == Modified
             && (c.name in before && c.name in after ==> !Changed(before[c.name], after[c.name]))
    ensures Count(ChangeAt(category, before, after, key), Like(c)) == 0
  {
    hide KeyOf, Changed, Count, AddedSeverity, RemovedSeverity, ModifiedSeverity;
    CountNone(ChangeAt(category, before, after, key), Like(c));
  }

  lemma {:induction false} ChangeAbsent(category: Category, before: map<string, Item>, after: map<string, Item>,
                                        keys: seq<string>, c: DriftChange)
    requires forall key :: key in before ==> KeyOf(before[key]) == key
    requires c.changeType == Modified
             && (c.name in before && c.name in after ==> !Changed(before[c.name], after[c.name]))
    ensures Count(ChangesAt(category, before, after, keys), Like(c)) == 0
  {
    hide KeyOf, Changed, ChangeAt;
    if keys == [] {
    } else {
      var n := |keys| - 1;
      ChangeAbsent(category, before, after, keys[..n], c);
      CountJoin(ChangesAt(category, before, after, keys[..n]), ChangeAt(category, before, after, keys[n]), Like(c));
      NotAt(category, before, after, keys[n], c);
    }
  }

  lemma OneSided(category: Category, before: seq<Item>, after: seq<Item>, key: string)
    requires key in IndexBy(before) && key in IndexBy(after)
    requires Changed(IndexBy(before)[key], IndexBy(after)[key]) && !Changed(IndexBy(after)[key], IndexBy(before)[key])
    ensures var c := ModifiedItem(category, IndexBy(before)[key], IndexBy(after)[key]);
            && c.category == category
            && Count(ItemChanges(category, before, after), Like(c)) > 0
            && Count(ItemChanges(category, after, before), Like(Mirror(c))) == 0
  {
    hide KeyOf, Changed, ChangesAt, UnionKeys, IndexBy, Count, ModifiedSeverity;
    UnionKeysSwap(before, after);
    IndexedItems(before);
    IndexedItems(after);
    KeyIsListed(before, after, key);
    ChangeAppears(category, IndexBy(before), IndexBy(after), UnionKeys(before, after), key);
    var c := ModifiedItem(category, IndexBy(before)[key], IndexBy(after)[key]);
    ChangeAbsent(category, IndexBy(after), IndexBy(before), UnionKeys(before, after), Mirror(c));
  }

  lemma KeyIsListed(before: seq<Item>, after: seq<Item>, key: string)
    requires key in IndexBy(before)
    ensures key in UnionKeys(before, after)
  {
    hide KeyOf, Sorted, IndexBy;
    IndexKeys(before);
    var all := Keys(before) + Keys(after);
    SortedIsSorted(all);
    assert key in Keys(before) by {
      assert key in Elements(Keys(before));
    }
    assert key in Elements(all);
  }

  /** A change that the report of one direction has and the mirrored report of the other lacks. */
  lemma NotMirrored(category: Category, before: seq<Item>, after: seq<Item>) returns (c: DriftChange)
    requires !AllAlike(before, after)
    ensures c.category == category
    ensures Count(ItemChanges(category, before, after), Like(c))
            != Count(ItemChanges(category, after, before), Like(Mirror(c)))
  {
    hide SameBothWays, Changed, IndexBy, ItemChanges, Count, KeyOf, ModifiedSeverity;
    var key :| key in IndexBy(before) && key in IndexBy(after)
      && !SameBothWays(IndexBy(before)[key], IndexBy(after)[key]);
    ChangedAlike(IndexBy(before)[key], IndexBy(after)[key]);
    if Changed(IndexBy(before)[key], IndexBy(after)[key]) {
      OneSided(category, before, after, key);
      c := ModifiedItem(category, IndexBy(before)[key], IndexBy(after)[key]);
    } else {
      OneSided(category, after, before, key);
      c := Mirror(ModifiedItem(category, IndexBy(after)[key], IndexBy(before)[key]));
    }
  }

  lemma {:induction false} FieldsMirrored(before: seq<Field>, after: seq<Field>)
    requires |before| == |after|
    requires forall i :: 0 <= i < |before| ==>
             before[i].name == after[i].name && before[i].severity == after[i].severity
    ensures MirroredBy(FieldChanges(before, after), FieldChanges(after, before))
  {
    if before == [] {
    } else {
      var n := |before| - 1;
      FieldsMirrored(before[..n], after[..n]);
      assert MirroredBy(FieldChange(before[n], after[n]), FieldChange(after[n], before[n]));
    }
  }

  lemma {:induction false} AllMirrored(category: Category, items: seq<Item>)
    ensures MirroredBy(AllAdded(category, items), AllRemoved(category, items))
    ensures MirroredBy(AllRemoved(category, items), AllAdded(category, items))
  {
    hide KeyOf, AddedSeverity, RemovedSeverity;
    if items == [] {
    } else {
      AllMirrored(category, items[..|items| - 1]);
    }
  }

  /** Where both snapshots have Docker, any two containers of one name that count differ in something besides their
      labels or have comparable labels. */
  ghost predicate LabelsAlike(before: Option<seq<ContainerInfo>>, after: Option<seq<ContainerInfo>>) {
    before.Some? && after.Some? ==> AllAlike(ContainerItems(before.value), ContainerItems(after.value))
  }

  lemma DockerMirrored(before: Option<seq<ContainerInfo>>, after: Option<seq<ContainerInfo>>)
    requires LabelsAlike(before, after)
    ensures MirroredBy(DockerChanges(before, after), DockerChanges(after, before))
  {
    hide AllAlike, ItemChanges;
    match (before, after)
    case (None, None) =>
    case (None, Some(now)) => AllMirrored(Docker, ContainerItems(now));
    case (Some(was), None) => AllMirrored(Docker, ContainerItems(was));
    case (Some(was), Some(now)) => ItemChangesMirrored(Docker, ContainerItems(was), ContainerItems(now));
  }

  lemma NoContainers(before: seq<Item>, after: seq<Item>)
    requires forall i :: i in before ==> !i.ContainerItem?
    ensures AllAlike(before, after)
  {
    hide KeyOf, IndexBy;
    IndexedItems(before);
  }

  lemma PartMirrored(oldSnap: ServerSnapshot, newSnap: ServerSnapshot, category: Category)
    requires category != Packages && category != Users
    requires category == Docker ==> LabelsAlike(oldSnap.docker, newSnap.docker)
    ensures MirroredBy(Part(oldSnap, newSnap, category), Part(newSnap, oldSnap, category))
  {
    hide ItemChanges, DockerChanges, FieldChanges, LabelsAlike, AllAlike;
    match category
    case Services =>
      NoContainers(ServiceItems(oldSnap.services), ServiceItems(newSnap.services));
      ItemChangesMirrored(Services, ServiceItems(oldSnap.services), ServiceItems(newSnap.services));
    case Docker => DockerMirrored(oldSnap.docker, newSnap.docker);
    case Network =>
      NoContainers(PortItems(oldSnap.networkPorts), PortItems(newSnap.networkPorts));
      ItemChangesMirrored(Network, PortItems(oldSnap.networkPorts), PortItems(newSnap.networkPorts));
    case Disk =>
      NoContainers(DiskItems(oldSnap.diskUsage), DiskItems(newSnap.diskUsage));
      ItemChangesMirrored(Disk, DiskItems(oldSnap.diskUsage), DiskItems(newSnap.diskUsage));
    case System => FieldsMirrored(SystemFields(oldSnap), SystemFields(newSnap));
  }

  lemma PartCountMirrored(oldSnap: ServerSnapshot, newSnap: ServerSnapshot, c: DriftChange)
    requires c.category == Docker ==> LabelsAlike(oldSnap.docker, newSnap.docker)
    ensures Count(Part(oldSnap, newSnap, c.category), Like(c))
            == Count(Part(newSnap, oldSnap, c.category), Like(Mirror(c)))
  {
    hide Count, LabelsAlike, NameChanges, ItemChanges, DockerChanges, SystemChanges, ServiceItems, PortItems, DiskItems;
    if c.category == Packages {
      NamesMirrored(Packages, oldSnap.packages, newSnap.packages, c);
    } else if c.category == Users {
      NamesMirrored(Users, oldSnap.users, newSnap.users, c);
    } else {
      PartMirrored(oldSnap, newSnap, c.category);
      CountMirrored(Part(oldSnap, newSnap, c.category), Part(newSnap, oldSnap, c.category), c);
    }
  }

  /** The change is reported as often as its mirror image is when the snapshots are swapped, severities aside. */
  ghost predicate SwapMirrored(oldSnap: ServerSnapshot, newSnap: ServerSnapshot, c: DriftChange) {
    Count(ReportOf(oldSnap, newSnap).changes, Like(c)) == Count(ReportOf(newSnap, oldSnap).changes, Like(Mirror(c)))
  }

  lemma MirroredInPart(oldSnap: ServerSnapshot, newSnap: ServerSnapshot, c: DriftChange)
    ensures SwapMirrored(oldSnap, newSnap, c) <==>
            Count(Part(oldSnap, newSnap, c.category), Like(c))
              == Count(Part(newSnap, oldSnap, c.category), Like(Mirror(c)))
  {
    hide ReportOf, Count, Part;
    CountReport(oldSnap, newSnap, Like(c));
    CountReport(newSnap, oldSnap, Like(Mirror(c)));
  }

  /** Swapping the snapshots swaps added with removed and old values with new ones for every category but Docker, and
      for Docker exactly when labels are compared alike. */
  lemma SwapMirrors(oldSnap: ServerSnapshot, newSnap: ServerSnapshot)
    ensures forall c: DriftChange :: c.category != Docker ==> SwapMirrored(oldSnap, newSnap, c)
    ensures (forall c: DriftChange :: SwapMirrored(oldSnap, newSnap, c)) <==>
            LabelsAlike(oldSnap.docker, newSnap.docker)
  {
    hide SwapMirrored, LabelsAlike, Part, Count;
    forall c: DriftChange | c.category != Docker || LabelsAlike(oldSnap.docker, newSnap.docker)
      ensures SwapMirrored(oldSnap, newSnap, c)
    {
      MirroredInPart(oldSnap, newSnap, c);
      PartCountMirrored(oldSnap, newSnap, c);
    }
    if !LabelsAlike(oldSnap.docker, newSnap.docker) {
      var c := DockerNotMirrored(oldSnap, newSnap);
      MirroredInPart(oldSnap, newSnap, c);
    }
  }

  lemma DockerNotMirrored(oldSnap: ServerSnapshot, newSnap: ServerSnapshot) returns (c: DriftChange)
    requires !LabelsAlike(oldSnap.docker, newSnap.docker)
    ensures c.category == Docker
    ensures Count(Part(oldSnap, newSnap, Docker), Like(c)) != Count(Part(newSnap, oldSnap, Docker), Like(Mirror(c)))
  {
    hide AllAlike, ItemChanges, Count;
    c := NotMirrored(Docker, ContainerItems(oldSnap.docker.value), ContainerItems(newSnap.docker.value));
  }

  // ----- labels -----

  /** Where no label is empty, the label comparison is equality. */
  lemma LabelsWithoutBlanks(left: map<string, string>, right: map<string, string>)
    requires forall key :: key in left ==> left[key] != ""
    ensures SameStringMap(left, right) <==> left == right
  {
    if SameStringMap(left, right) {
      assert forall key :: key in left ==> key in right;
      SubsetSize(left.Keys, right.Keys);
      assert |left| == |left.Keys| && |right| == |right.Keys|;
    }
  }

  predicate NoBlankLabel(containers: seq<ContainerInfo>) {
    forall i :: 0 <= i < |containers| ==> forall key :: key in containers[i].labels ==> containers[i].labels[key] != ""
  }

  /** Without empty labels a swap mirrors the whole report. */
  lemma NoBlanksMirrored(oldSnap: ServerSnapshot, newSnap: ServerSnapshot, c: DriftChange)
    requires oldSnap.docker.Some? ==> NoBlankLabel(oldSnap.docker.value)
    requires newSnap.docker.Some? ==> NoBlankLabel(newSnap.docker.value)
    ensures SwapMirrored(oldSnap, newSnap, c)
  {
    hide SwapMirrored, AllAlike, NoBlankLabel;
    if oldSnap.docker.Some? && newSnap.docker.Some? {
      NoBlanksAlike(oldSnap.docker.value, newSnap.docker.value);
    }
    SwapMirrors(oldSnap, newSnap);
  }

  lemma NoBlanksAlike(before: seq<ContainerInfo>, after: seq<ContainerInfo>)
    requires NoBlankLabel(before) && NoBlankLabel(after)
    ensures AllAlike(ContainerItems(before), ContainerItems(after))
  {
    hide KeyOf, IndexBy, LabelsComparable, DiffersBesidesLabels, SameStringMap;
    var was, now := ContainerItems(before), ContainerItems(after);
    IndexedItems(was);
    IndexedItems(now);
    forall key | key in IndexBy(was) && key in IndexBy(now)
      ensures SameBothWays(IndexBy(was)[key], IndexBy(now)[key])
    {
      var x, y := IndexBy(was)[key].container, IndexBy(now)[key].container;
      LabelsWithoutBlanks(x.labels, y.labels);
      LabelsWithoutBlanks(y.labels, x.labels);
      LabelsSwap(x.labels, y.labels);
    }
  }

  /** With an empty label, two snapshots that differ in the labels of one container need not be mirrored. */
  lemma LabelsAsymmetric(snap: ServerSnapshot, x: ContainerInfo)
    ensures var oldSnap := snap.(docker := Some([x.(labels := map["a" := ""])]));
            var newSnap := snap.(docker := Some([x.(labels := map["b" := "x"])]));
            exists c: DriftChange :: !SwapMirrored(oldSnap, newSnap, c)
  {
    hide SwapMirrored, UniqueSorted, PortStrings;
    var a, b := x.(labels := map["a" := ""]), x.(labels := map["b" := "x"]);
    SwapMirrors(snap.(docker := Some([a])), snap.(docker := Some([b])));
    OneItem(ContainerItem(a));
    OneItem(ContainerItem(b));
    assert ContainerItems([a]) == [ContainerItem(a)] && ContainerItems([b]) == [ContainerItem(b)];
    assert !LabelsComparable(a.labels, b.labels) by {
      assert "b" in b.labels && b.labels["b"] == "x";
    }
    assert !SameBothWays(ContainerItem(a), ContainerItem(b));
  }

  lemma OneItem(item: Item)
    ensures IndexBy([item]) == map[KeyOf(item) := item]
  {
    assert [item][..0] == [];
  }
}
