/** The persistent job queue: a table of numbered rows that behaves like a plain sequence. */
module JobQueue {
  import opened Sequences
  import opened Jobs

  datatype QueueRow = QueueRow(job: Job, position: int)

  type Table = map<string, QueueRow>

  datatype QueueError = JobIdEmpty | AlreadyQueued(id: string) | NotQueued(id: string) | ContextDone

  datatype QueueOp = EnqueueOp(job: Job) | DequeueOp | PeekOp | SizeOp | RemoveOp(id: string)

  datatype Answer = Accepted | Rejected(error: QueueError) | Front(job: Option<Job>) | Count(n: nat)

  // ----- the queries -----

  ghost predicate IsFront(t: Table, id: string) {
    id in t && forall other :: other in t ==> t[id].position <= t[other].position
  }

  ghost predicate IsMaxPosition(t: Table, position: int) {
    (exists id :: id in t && t[id].position == position) && forall id :: id in t ==> t[id].position <= position
  }

  /** SELECT ... ORDER BY position ASC LIMIT 1 */
  ghost function FrontId(t: Table): (id: string)
    requires t != map[]
    ensures IsFront(t, id)
    decreases |t|
  {
    var some :| some in t;
    var rest := t - {some};
    assert rest.Keys == t.Keys - {some};
    if rest == map[] then
      assert forall other :: other in t ==> other == some || other in rest;
      some
    else
      var front := FrontId(rest);
      assert forall other :: other in t ==> other == some || other in rest;
      if t[some].position <= t[front].position then some else front
  }

  /** SELECT MAX(position), on a table that has a row */
  ghost function MaxPosition(t: Table): (position: int)
    requires t != map[]
    ensures IsMaxPosition(t, position)
    decreases |t|
  {
    var some :| some in t;
    var rest := t - {some};
    assert rest.Keys == t.Keys - {some};
    if rest == map[] then
      assert forall other :: other in t ==> other == some || other in rest;
      t[some].position
    else
      var highest := MaxPosition(rest);
      assert forall other :: other in t ==> other == some || other in rest;
      if t[some].position >= highest then t[some].position else highest
  }

  ghost function NextPosition(t: Table): int {
    if t == map[] then 1 else MaxPosition(t) + 1
  }

  /** One operation on the table, with the answer its caller gets. */
  ghost function TableStep(t: Table, op: QueueOp): (Table, Answer) {
    match op
    case EnqueueOp(job) =>
      if job.id == "" then (t, Rejected(JobIdEmpty))
      else if job.id in t then (t, Rejected(AlreadyQueued(job.id)))
      else (t[job.id := QueueRow(job, NextPosition(t))], Accepted)
    case DequeueOp => if t == map[] then (t, Front(None)) else (t - {FrontId(t)}, Front(Some(t[FrontId(t)].job)))
    case PeekOp => if t == map[] then (t, Front(None)) else (t, Front(Some(t[FrontId(t)].job)))
    case SizeOp => (t, Count(|t|))
    case RemoveOp(id) => if id in t then (t - {id}, Accepted) else (t, Rejected(NotQueued(id)))
  }

  /** The same operation on the plain sequence of the in-memory queue. */
  function SequenceStep(q: seq<Job>, op: QueueOp): (seq<Job>, Answer) {
    match op
    case EnqueueOp(job) => (q + [job], Accepted)
    case DequeueOp => if q == [] then (q, Front(None)) else (q[1..], Front(Some(q[0])))
    case PeekOp => if q == [] then (q, Front(None)) else (q, Front(Some(q[0])))
    case SizeOp => (q, Count(|q|))
    case RemoveOp(id) => if id in JobIds(q) then (Without(q, id), Accepted) else (q, Rejected(NotQueued(id)))
  }

  // ----- refinement -----

  ghost predicate Holds(t: Table, job: Job) {
    job.id in t && t[job.id].job == job
  }

  ghost predicate Listed(q: seq<Job>, id: string) {
    exists i :: 0 <= i < |q| && q[i].id == id
  }

  ghost predicate Before(t: Table, a: string, b: string) {
    a in t && b in t && t[a].position < t[b].position
  }

  /** `q` lists the rows of the table in the order of their positions. */
  ghost predicate Refines(t: Table, q: seq<Job>) {
    && (forall i :: 0 <= i < |q| ==> Holds(t, q[i]))
    && (forall id :: id in t ==> Listed(q, id))
    && (forall i, j :: 0 <= i < j < |q| ==> Before(t, q[i].id, q[j].id))
  }

  lemma ListedIds(q: seq<Job>, id: string)
    ensures Listed(q, id) <==> id in JobIds(q)
  {
    if Listed(q, id) {
      var i :| 0 <= i < |q| && q[i].id == id;
      assert JobIds(q)[i] == id;
    }
  }

  lemma RefinedIds(t: Table, q: seq<Job>)
    requires Refines(t, q)
    ensures Distinct(JobIds(q)) && |t| == |q|
    ensures forall id :: id in t <==> id in JobIds(q)
  {
    var ids := JobIds(q);
    forall i, j | 0 <= i < j < |q|
      ensures ids[i] != ids[j]
    {
      assert Before(t, q[i].id, q[j].id);
    }
    forall id
      ensures id in t <==> id in ids
    {
      ListedIds(q, id);
      if id in ids {
        var i :| 0 <= i < |q| && ids[i] == id;
        assert Holds(t, q[i]);
      }
    }
    ElementsSize(ids);
    assert Elements(ids) == t.Keys;
    assert |t| == |t.Keys|;
  }

  /** The front row is the first entry, and the last entry has the highest position. */
  lemma RefinedEnds(t: Table, q: seq<Job>)
    requires Refines(t, q) && q != []
    ensures t != map[] && FrontId(t) == q[0].id && t[q[0].id].job == q[0]
    ensures MaxPosition(t) == t[q[|q| - 1].id].position
  {
    var first, last := q[0].id, q[|q| - 1].id;
    assert Holds(t, q[0]) && Holds(t, q[|q| - 1]);
    forall id | id in t
      ensures t[first].position <= t[id].position <= t[last].position
      ensures id != first ==> t[first].position < t[id].position
    {
      assert Listed(q, id);
      var i :| 0 <= i < |q| && q[i].id == id;
      assert i > 0 ==> Before(t, first, id);
      assert i < |q| - 1 ==> Before(t, id, last);
    }
  }

  lemma EnqueueRefines(t: Table, q: seq<Job>, job: Job)
    requires Refines(t, q) && job.id !in t
    ensures Refines(t[job.id := QueueRow(job, NextPosition(t))], q + [job])
  {
    var after, longer := t[job.id := QueueRow(job, NextPosition(t))], q + [job];
    if q != [] {
      RefinedEnds(t, q);
    }
    forall i | 0 <= i < |longer|
      ensures Holds(after, longer[i])
    {
      if i < |q| {
        assert Holds(t, q[i]);
      }
    }
    forall id | id in after
      ensures Listed(longer, id)
    {
      if id == job.id {
        assert longer[|q|].id == id;
      } else {
        assert Listed(q, id);
        var i :| 0 <= i < |q| && q[i].id == id;
        assert longer[i].id == id;
      }
    }
    forall i, j | 0 <= i < j < |longer|
      ensures Before(after, longer[i].id, longer[j].id)
    {
      assert Holds(t, q[i]);
      if j < |q| {
        assert Before(t, q[i].id, q[j].id);
      }
    }
  }

  lemma RemoveAtRefines(t: Table, q: seq<Job>, k: nat, rest: seq<Job>)
    requires Refines(t, q) && Skips(q, k, rest)
    ensures Refines(t - {q[k].id}, rest)
  {
    var after := t - {q[k].id};
    forall i | 0 <= i < |rest|
      ensures Holds(after, rest[i])
    {
      var a := if i < k then i else i + 1;
      assert Holds(t, q[a]);
      assert if a < k then Before(t, q[a].id, q[k].id) else Before(t, q[k].id, q[a].id);
    }
    RemoveAtLists(t, q, k, rest);
    forall i, j | 0 <= i < j < |rest|
      ensures Before(after, rest[i].id, rest[j].id)
    {
      var a, b := if i < k then i else i + 1, if j < k then j else j + 1;
      assert Before(t, q[a].id, q[b].id) && Holds(after, rest[i]) && Holds(after, rest[j]);
    }
  }

  lemma RemoveAtLists(t: Table, q: seq<Job>, k: nat, rest: seq<Job>)
    requires Refines(t, q) && Skips(q, k, rest)
    ensures forall id :: id in t && id != q[k].id ==> Listed(rest, id)
  {
    forall id | id in t && id != q[k].id
      ensures Listed(rest, id)
    {
      assert Listed(q, id);
      var i :| 0 <= i < |q| && q[i].id == id;
      assert rest[if i < k then i else i - 1].id == id;
    }
  }

  lemma DequeueRefines(t: Table, q: seq<Job>)
    requires Refines(t, q) && q != []
    ensures Refines(t - {q[0].id}, q[1..])
  {
    RemoveAtRefines(t, q, 0, q[1..]);
  }

  lemma RemoveRefines(t: Table, q: seq<Job>, id: string)
    requires Refines(t, q)
    ensures Refines(t - {id}, Without(q, id))
  {
    if Listed(q, id) {
      ListedIds(q, id);
      var k := WithoutSkips(q, id);
      RemoveAtRefines(t, q, k, Without(q, id));
    } else {
      RemoveAbsentRefines(t, q, id);
    }
  }

  lemma RemoveAbsentRefines(t: Table, q: seq<Job>, id: string)
    requires Refines(t, q) && !Listed(q, id)
    ensures Refines(t - {id}, Without(q, id))
  {
    ListedIds(q, id);
    AbsentUnchanged(q, id);
    assert t - {id} == t;
  }

  /** The discipline under which ids are used: never empty, never enqueued while still queued. */
  predicate FreshEnqueue(q: seq<Job>, op: QueueOp) {
    op.EnqueueOp? ==> op.job.id != "" && op.job.id !in JobIds(q)
  }

  /** The two queues give the same answer exactly when the enqueued id is fresh, and then stay related. */
  lemma StepRefines(t: Table, q: seq<Job>, op: QueueOp)
    requires Refines(t, q)
    ensures TableStep(t, op).1 == SequenceStep(q, op).1 <==> FreshEnqueue(q, op)
    ensures FreshEnqueue(q, op) ==> Refines(TableStep(t, op).0, SequenceStep(q, op).0)
  {
    RefinedIds(t, q);
    if q != [] {
      RefinedEnds(t, q);
    }
    match op
    case EnqueueOp(job) =>
      if job.id !in t {
        EnqueueRefines(t, q, job);
      }
    case DequeueOp =>
      if q != [] {
        DequeueRefines(t, q);
      }
    case PeekOp =>
    case SizeOp =>
    case RemoveOp(id) =>
      if id in t {
        RemoveRefines(t, q, id);
      }
  }

  // ----- whole histories -----

  ghost function TableAnswers(t: Table, ops: seq<QueueOp>): seq<Answer>
    decreases |ops|
  {
    if ops == [] then [] else [TableStep(t, ops[0]).1] + TableAnswers(TableStep(t, ops[0]).0, ops[1..])
  }

  function SequenceAnswers(q: seq<Job>, ops: seq<QueueOp>): seq<Answer>
    decreases |ops|
  {
    if ops == [] then [] else [SequenceStep(q, ops[0]).1] + SequenceAnswers(SequenceStep(q, ops[0]).0, ops[1..])
  }

  predicate FreshEnqueues(q: seq<Job>, ops: seq<QueueOp>)
    decreases |ops|
  {
    ops != [] ==> FreshEnqueue(q, ops[0]) && FreshEnqueues(SequenceStep(q, ops[0]).0, ops[1..])
  }

  /** No caller can tell the table from the sequence exactly when ids are used with discipline. */
  lemma {:induction false} TableRefinesSequence(t: Table, q: seq<Job>, ops: seq<QueueOp>)
    requires Refines(t, q)
    ensures TableAnswers(t, ops) == SequenceAnswers(q, ops) <==> FreshEnqueues(q, ops)
    decreases |ops|
  {
    if ops == [] {
    } else {
      StepRefines(t, q, ops[0]);
      if FreshEnqueue(q, ops[0]) {
        TableRefinesSequence(TableStep(t, ops[0]).0, SequenceStep(q, ops[0]).0, ops[1..]);
        var x, y := TableAnswers(TableStep(t, ops[0]).0, ops[1..]),
          SequenceAnswers(SequenceStep(q, ops[0]).0, ops[1..]);
        assert TableAnswers(t, ops)[1..] == x && SequenceAnswers(q, ops)[1..] == y;
      } else {
        assert TableAnswers(t, ops)[0] != SequenceAnswers(q, ops)[0];
      }
    }
  }

  /** Everything that went in and came out of a table that started empty. */
  datatype History = History(table: Table, entered: seq<Job>, left: seq<Job>, removed: multiset<Job>)

  ghost function Record(h: History, op: QueueOp): History {
    var (table, answer) := TableStep(h.table, op);
    match op
    case EnqueueOp(job) => if answer == Accepted then h.(table := table, entered := h.entered + [job]) else h
    case DequeueOp =>
      if answer.Front? && answer.job.Some? then h.(table := table, left := h.left + [answer.job.value]) else h
    case RemoveOp(id) =>
      if id in h.table then h.(table := table, removed := h.removed + multiset{h.table[id].job}) else h
    case _ => h
  }

  ghost function HistoryOf(ops: seq<QueueOp>): History {
    if ops == [] then History(map[], [], [], multiset{}) else Record(HistoryOf(ops[..|ops| - 1]), ops[|ops| - 1])
  }

  /** Whatever left the table, followed by what is still queued, is what entered, in order. */
  ghost predicate InOrder(h: History, q: seq<Job>) {
    && Refines(h.table, q)
    && IsSubsequence(h.left + q, h.entered)
    && multiset(h.entered) == multiset(h.left) + h.removed + multiset(q)
  }

  lemma {:induction false} SubsequenceRemoveAt<T>(sub: seq<T>, s: seq<T>, k: nat)
    requires IsSubsequence(sub, s) && k < |sub|
    ensures IsSubsequence(sub[..k] + sub[k + 1..], s)
    decreases |s|
  {
    var shorter := sub[..k] + sub[k + 1..];
    if k == |sub| - 1 {
      assert shorter == sub[..|sub| - 1];
      SubsequenceDropLast(sub, s);
    } else {
      assert shorter[..|shorter| - 1] == sub[..|sub| - 1][..k] + sub[..|sub| - 1][k + 1..];
      if sub[|sub| - 1] == s[|s| - 1] {
        SubsequenceRemoveAt(sub[..|sub| - 1], s[..|s| - 1], k);
      } else {
        SubsequenceRemoveAt(sub, s[..|s| - 1], k);
      }
    }
  }

  lemma SubsequenceGrow<T>(sub: seq<T>, s: seq<T>, x: T)
    requires IsSubsequence(sub, s)
    ensures IsSubsequence(sub + [x], s + [x])
  {
    assert (sub + [x])[..|sub|] == sub && (s + [x])[..|s|] == s;
  }

  lemma EnqueueInOrder(h: History, q: seq<Job>, job: Job)
    requires InOrder(h, q) && job.id != "" && job.id !in h.table
    ensures InOrder(Record(h, EnqueueOp(job)), q + [job])
  {
    EnqueueRefines(h.table, q, job);
    SubsequenceGrow(h.left + q, h.entered, job);
    assert h.left + (q + [job]) == h.left + q + [job];
  }

  lemma MoveFront<T>(left: seq<T>, q: seq<T>)
    requires q != []
    ensures left + q == (left + [q[0]]) + q[1..]
    ensures multiset(left) + multiset(q) == multiset(left + [q[0]]) + multiset(q[1..])
  {
    assert q == [q[0]] + q[1..];
  }

  lemma Regroup<T>(left: multiset<T>, removed: multiset<T>, rest: multiset<T>, left': multiset<T>, rest': multiset<T>)
    requires left + rest == left' + rest'
    ensures left + removed + rest == left' + removed + rest'
  {
    assert left + removed + rest == left + rest + removed;
    assert left' + removed + rest' == left' + rest' + removed;
  }

  lemma MoveOver<T>(left: multiset<T>, removed: multiset<T>, rest: multiset<T>, x: multiset<T>)
    ensures left + removed + (rest + x) == left + (removed + x) + rest
  {
  }

  lemma DequeueInOrder(h: History, q: seq<Job>)
    requires InOrder(h, q) && q != []
    ensures InOrder(Record(h, DequeueOp), q[1..])
  {
    RefinedEnds(h.table, q);
    var after := Record(h, DequeueOp);
    assert after.left == h.left + [q[0]] && after.table == h.table - {q[0].id};
    assert Refines(after.table, q[1..]) by {
      DequeueRefines(h.table, q);
    }
    MoveFront(h.left, q);
    Regroup(multiset(h.left), h.removed, multiset(q), multiset(after.left), multiset(q[1..]));
  }

  lemma TakenOut(q: seq<Job>, left: seq<Job>, entered: seq<Job>, id: string) returns (job: Job)
    requires id in JobIds(q) && IsSubsequence(left + q, entered)
    ensures job in q && job.id == id
    ensures multiset(q) == multiset(Without(q, id)) + multiset{job}
    ensures IsSubsequence(left + Without(q, id), entered)
  {
    var k := WithoutSkips(q, id);
    SkipsAsSlices(q, k, Without(q, id));
    job := q[k];
    TakeOut(q, k);
    SubsequenceTakeOut(left, q, entered, k);
  }

  lemma RemoveInOrder(h: History, q: seq<Job>, id: string)
    requires InOrder(h, q) && id in JobIds(q) && id in h.table
    ensures InOrder(Record(h, RemoveOp(id)), Without(q, id))
  {
    var job := TakenOut(q, h.left, h.entered, id);
    assert h.table[id].job == job;
    RemoveRefines(h.table, q, id);
    MoveOver(multiset(h.left), h.removed, multiset(Without(q, id)), multiset{job});
  }

  lemma TakeOut<T>(q: seq<T>, k: nat)
    requires k < |q|
    ensures multiset(q) == multiset(q[..k] + q[k + 1..]) + multiset{q[k]}
  {
    assert q == q[..k] + [q[k]] + q[k + 1..];
  }

  lemma SubsequenceTakeOut<T>(left: seq<T>, q: seq<T>, entered: seq<T>, k: nat)
    requires IsSubsequence(left + q, entered) && k < |q|
    ensures IsSubsequence(left + (q[..k] + q[k + 1..]), entered)
  {
    SubsequenceRemoveAt(left + q, entered, |left| + k);
    SliceAcross(left, q, k);
  }

  lemma SliceAcross<T>(left: seq<T>, q: seq<T>, k: nat)
    requires k < |q|
    ensures left + (q[..k] + q[k + 1..]) == (left + q)[..|left| + k] + (left + q)[|left| + k + 1..]
  {
  }

  lemma RecordKeepsOrder(h: History, q: seq<Job>, op: QueueOp) returns (after: seq<Job>)
    requires InOrder(h, q)
    ensures InOrder(Record(h, op), after)
  {
    RefinedIds(h.table, q);
    after := q;
    if op.EnqueueOp? && op.job.id != "" && op.job.id !in h.table {
      EnqueueInOrder(h, q, op.job);
      after := q + [op.job];
    } else if op.DequeueOp? && q != [] {
      DequeueInOrder(h, q);
      after := q[1..];
    } else if op.RemoveOp? && op.id in h.table {
      RemoveInOrder(h, q, op.id);
      after := Without(q, op.id);
    }
  }

  /** First in, first out, removed jobs skipped and none lost, however often positions are reused. */
  lemma {:induction false} FirstInFirstOut(ops: seq<QueueOp>) returns (q: seq<Job>)
    ensures InOrder(HistoryOf(ops), q)
  {
    if ops == [] {
      q := [];
    } else {
      var before := FirstInFirstOut(ops[..|ops| - 1]);
      q := RecordKeepsOrder(HistoryOf(ops[..|ops| - 1]), before, ops[|ops| - 1]);
    }
  }

  // ----- the two implementations -----

  class SQLiteJobQueue {
    var table: Table
    ghost var Contents: seq<Job>

    ghost predicate Valid()
      reads this
    {
      Refines(table, Contents)
    }

    constructor ()
      ensures Valid() && table == map[] && Contents == []
    {
      table, Contents := map[], [];
    }

    method Enqueue(contextDone: bool, job: Job) returns (r: Result<(), QueueError>)
      requires Valid()
      modifies this
      ensures Valid()
      ensures r == if job.id == "" then Err(JobIdEmpty) else if contextDone then Err(ContextDone)
                   else if job.id in JobIds(old(Contents)) then Err(AlreadyQueued(job.id)) else Ok(())
      ensures r.Ok? ==> Contents == old(Contents) + [job] && table == TableStep(old(table), EnqueueOp(job)).0
      ensures r.Err? ==> Contents == old(Contents) && table == old(table)
    {
      if job.id == "" {
        return Err(JobIdEmpty);
      }
      if contextDone {
        return Err(ContextDone);
      }
      StepRefines(table, Contents, EnqueueOp(job));
      var nextPos := SelectNextPosition();
      if job.id in table {
        return Err(AlreadyQueued(job.id));
      }
      table := table[job.id := QueueRow(job, nextPos)];
      Contents := Contents + [job];
      r := Ok(());
    }

    method Dequeue(contextDone: bool) returns (r: Result<Option<Job>, QueueError>)
      requires Valid()
      modifies this
      ensures Valid()
      ensures contextDone ==> r == Err(ContextDone) && Contents == old(Contents) && table == old(table)
      ensures !contextDone ==> table == TableStep(old(table), DequeueOp).0
      ensures !contextDone && old(Contents) == [] ==> r == Ok(None) && Contents == []
      ensures !contextDone && old(Contents) != [] ==> r == Ok(Some(old(Contents)[0])) && Contents == old(Contents)[1..]
    {
      if contextDone {
        return Err(ContextDone);
      }
      RefinedIds(table, Contents);
      if table == map[] {
        return Ok(None);
      }
      RefinedEnds(table, Contents);
      DequeueRefines(table, Contents);
      var id := SelectFront();
      r := Ok(Some(table[id].job));
      table := table - {id};
      Contents := Contents[1..];
    }

    method Peek(contextDone: bool) returns (r: Result<Option<Job>, QueueError>)
      requires Valid()
      ensures contextDone ==> r == Err(ContextDone)
      ensures !contextDone ==> r == Ok(if Contents == [] then None else Some(Contents[0]))
    {
      if contextDone {
        return Err(ContextDone);
      }
      RefinedIds(table, Contents);
      if table == map[] {
        return Ok(None);
      }
      RefinedEnds(table, Contents);
      var id := SelectFront();
      r := Ok(Some(table[id].job));
    }

    method Remove(contextDone: bool, id: string) returns (r: Result<(), QueueError>)
      requires Valid()
      modifies this
      ensures Valid()
      ensures contextDone ==> r == Err(ContextDone) && Contents == old(Contents) && table == old(table)
      ensures !contextDone ==> (r.Ok? <==> id in JobIds(old(Contents)))
      ensures !contextDone ==> table == TableStep(old(table), RemoveOp(id)).0 && Contents == Without(old(Contents), id)
    {
      if contextDone {
        return Err(ContextDone);
      }
      RefinedIds(table, Contents);
      RemoveRefines(table, Contents, id);
      if id !in table {
        AbsentUnchanged(Contents, id);
        return Err(NotQueued(id));
      }
      table := table - {id};
      Contents := Without(Contents, id);
      r := Ok(());
    }

    method SelectNextPosition() returns (nextPos: int)
      requires Valid()
      ensures nextPos == NextPosition(table)
      ensures table == map[] ==> nextPos == 1
      ensures forall id :: id in table ==> table[id].position < nextPos
      ensures table != map[] ==> exists id :: id in table && table[id].position == nextPos - 1
    {
      if table == map[] {
        return 1;
      }
      var maxPos := SelectMaxPosition();
      nextPos := maxPos + 1;
    }

    method SelectMaxPosition() returns (position: int)
      requires Valid() && table != map[]
      ensures position == MaxPosition(table) && IsMaxPosition(table, position)
    {
      var rest := table.Keys;
      var first :| first in rest;
      position := table[first].position;
      rest := rest - {first};
      while rest != {}
        invariant rest <= table.Keys
        invariant exists id :: id in table && table[id].position == position
        invariant forall id :: id in table.Keys - rest ==> table[id].position <= position
      {
        var id :| id in rest;
        if table[id].position > position {
          position := table[id].position;
        }
        rest := rest - {id};
      }
    }

    method SelectFront() returns (front: string)
      requires Valid() && table != map[]
      ensures front == FrontId(table)
    {
      var rest := table.Keys;
      front :| front in rest;
      rest := rest - {front};
      while rest != {}
        invariant rest <= table.Keys && front in table
        invariant forall id :: id in table.Keys - rest ==> table[front].position <= table[id].position
      {
        var id :| id in rest;
        if table[id].position < table[front].position {
          front := id;
        }
        rest := rest - {id};
      }
      RefinedIds(table, Contents);
      FrontIsUnique(table, Contents, front);
    }
  }

  lemma FrontIsUnique(t: Table, q: seq<Job>, id: string)
    requires Refines(t, q) && IsFront(t, id)
    ensures id == FrontId(t)
  {
    assert Listed(q, id);
    var i :| 0 <= i < |q| && q[i].id == id;
    RefinedEnds(t, q);
    assert i > 0 ==> Before(t, q[0].id, id);
  }

  /** `rest` is `jobs` without the first entry that has the id, which is entry `k`. */
  ghost predicate TakesOut(jobs: seq<Job>, id: string, k: int, rest: seq<Job>) {
    && 0 <= k < |jobs| && jobs[k].id == id && rest == jobs[..k] + jobs[k + 1..]
    && forall j :: 0 <= j < k ==> jobs[j].id != id
  }

  class InMemoryJobQueue {
    var jobs: seq<Job>

    constructor ()
      ensures jobs == []
    {
      jobs := [];
    }

    method Enqueue(job: Job)
      modifies this
      ensures jobs == SequenceStep(old(jobs), EnqueueOp(job)).0 == old(jobs) + [job]
    {
      jobs := jobs + [job];
    }

    method Dequeue() returns (job: Option<Job>)
      modifies this
      ensures jobs == SequenceStep(old(jobs), DequeueOp).0 && Front(job) == SequenceStep(old(jobs), DequeueOp).1
      ensures old(jobs) == [] ==> job == None && jobs == []
      ensures old(jobs) != [] ==> job == Some(old(jobs)[0]) && jobs == old(jobs)[1..]
    {
      if |jobs| == 0 {
        return None;
      }
      job := Some(jobs[0]);
      jobs := jobs[1..];
    }

    method Remove(id: string) returns (removed: bool)
      modifies this
      ensures jobs == SequenceStep(old(jobs), RemoveOp(id)).0
      ensures removed <==> SequenceStep(old(jobs), RemoveOp(id)).1 == Accepted
      ensures !removed ==> jobs == old(jobs) && forall k :: 0 <= k < |jobs| ==> jobs[k].id != id
      ensures removed ==> exists k :: TakesOut(old(jobs), id, k, jobs)
    {
      for i := 0 to |jobs|
        invariant jobs == old(jobs) && forall k :: 0 <= k < i ==> jobs[k].id != id
      {
        if jobs[i].id == id {
          SplitAtFirst(jobs, id, i);
          SkipsAsSlices(jobs, i, Without(jobs, id));
          jobs := jobs[..i] + jobs[i + 1..];
          assert TakesOut(old(jobs), id, i, jobs);
          return true;
        }
      }
      removed := false;
    }
  }
}
