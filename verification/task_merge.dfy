/**
 The unified task list of the mobile view: managed tasks, then agent-protocol tasks, then execution
 records, each added unless an earlier row already stands for it.
 */
module TaskMerge {
  import opened Options

  /** A row of the list. Protocol tasks carry no execution id. */
  datatype Summary = Summary(taskId: string, executionId: Option<string>, createdAt: int, state: string)

  datatype ProtocolTask = ProtocolTask(taskId: string, createdAt: int, state: string)

  /** An execution record of any source; its ids may be missing or empty, its times and status missing. */
  datatype RawRecord = RawRecord(taskId: Option<string>, executionId: Option<string>, startedAt: Option<int>,
                                 createdAt: Option<int>, taskCreatedAt: Option<int>, status: Option<string>)

  /** A present, non-empty id. */
  predicate Defined(id: Option<string>) {
    id.Some? && id.value != ""
  }

  /** The id a record is listed under: its task id if it has one, even an empty one, else its execution id. */
  function RowId(raw: RawRecord): Option<string> {
    if raw.taskId.Some? then raw.taskId else raw.executionId
  }

  predicate Identified(raw: RawRecord) {
    Defined(RowId(raw))
  }

  /** Some row already stands for this record. */
  predicate Represented(rows: map<string, Summary>, raw: RawRecord) {
    || (Defined(RowId(raw)) && RowId(raw).value in rows)
    || (Defined(raw.executionId) && raw.executionId.value in rows)
    || (Defined(raw.executionId) && exists id <- rows :: rows[id].executionId == raw.executionId)
  }

  predicate OwnKeys(rows: map<string, Summary>) {
    forall id <- rows :: rows[id].taskId == id
  }

  /** No two rows name the same execution. */
  predicate OneRowPerExecution(rows: map<string, Summary>) {
    forall x, y :: x in rows && y in rows && x != y && Defined(rows[x].executionId) ==>
      rows[x].executionId != rows[y].executionId
  }

  function FromProtocol(ap: ProtocolTask): Summary {
    Summary(ap.taskId, None, ap.createdAt, ap.state)
  }

  function StateOf(status: Option<string>): string {
    var s := if status.Some? then status.value else "completed";
    if s == "running" then "running"
    else if s == "queued" || s == "pending" then "queued"
    else if s == "failed" then "failed"
    else if s == "blocked" then "blocked"
    else if s == "cancelled" then "cancelled"
    else "completed"
  }

  function FromRecord(raw: RawRecord, now: int): Summary
    requires Identified(raw)
  {
    var start := if raw.startedAt.Some? then raw.startedAt else if raw.createdAt.Some? then raw.createdAt else raw.taskCreatedAt;
    Summary(RowId(raw).value, raw.executionId, if start.Some? then start.value else now, StateOf(raw.status))
  }

  /** What the row of a record says. */
  predicate Describes(row: Summary, raw: RawRecord, now: int) {
    && Some(row.taskId) == (match raw.taskId case Some(_) => raw.taskId case None => raw.executionId)
    && row.taskId != "" && row.executionId == raw.executionId
    && row.createdAt == (match (raw.startedAt, raw.createdAt, raw.taskCreatedAt)
                         case (Some(t), _, _) => t
                         case (None, Some(t), _) => t
                         case (None, None, Some(t)) => t
                         case (None, None, None) => now)
    && (raw.status in {Some("running"), Some("queued"), Some("failed"), Some("blocked"), Some("cancelled")} ==> Some(row.state) == raw.status)
    && (raw.status == Some("pending") ==> row.state == "queued")
    && (raw.status !in {Some("running"), Some("queued"), Some("pending"), Some("failed"), Some("blocked"), Some("cancelled")} ==>
          row.state == "completed")
  }

  lemma RowDescribes(raw: RawRecord, now: int)
    requires Identified(raw)
    ensures Describes(FromRecord(raw, now), raw, now)
  {
  }

  /** Two records that one row could stand for. */
  predicate Related(raw: RawRecord, other: RawRecord) {
    || RowId(raw) == RowId(other)
    || (Defined(raw.executionId) && raw.executionId in {RowId(other), other.executionId})
  }

  predicate Extends(rows: map<string, Summary>, more: map<string, Summary>) {
    forall id <- rows :: id in more && more[id] == rows[id]
  }

  lemma AddRecord(rows: map<string, Summary>, raw: RawRecord, now: int)
    requires OwnKeys(rows) && Identified(raw) && !Represented(rows, raw)
    ensures var more := rows[RowId(raw).value := FromRecord(raw, now)];
            OwnKeys(more) && (OneRowPerExecution(rows) ==> OneRowPerExecution(more)) && Extends(rows, more) && Represented(more, raw)
  {
  }

  /** A row, once there, goes on standing for what it stands for. */
  lemma RepresentedStays(rows: map<string, Summary>, more: map<string, Summary>, raw: RawRecord)
    requires Extends(rows, more) && Represented(rows, raw)
    ensures Represented(more, raw)
  {
    if Defined(raw.executionId) && exists id <- rows :: rows[id].executionId == raw.executionId {
      var id :| id in rows && rows[id].executionId == raw.executionId;
      assert id in more && more[id].executionId == raw.executionId;
    }
  }

  /** Of the first `n` tasks each that is not managed, and is the first of its id, has the row of its id. */
  predicate FirstTaskListed(managed: map<string, Summary>, tasks: seq<ProtocolTask>, n: nat, rows: map<string, Summary>)
    requires n <= |tasks|
  {
    forall k: nat :: k < n && tasks[k].taskId !in managed && (forall l: nat :: l < k ==> tasks[l].taskId != tasks[k].taskId) ==>
      tasks[k].taskId in rows && rows[tasks[k].taskId] == FromProtocol(tasks[k])
  }

  method AddProtocolTasks(managed: map<string, Summary>, tasks: seq<ProtocolTask>) returns (rows: map<string, Summary>)
    requires OwnKeys(managed)
    ensures OwnKeys(rows) && (OneRowPerExecution(managed) ==> OneRowPerExecution(rows)) && Extends(managed, rows)
    ensures rows.Keys == managed.Keys + set ap | ap in tasks :: ap.taskId
    ensures forall id <- rows :: id !in managed ==> exists ap <- tasks :: rows[id] == FromProtocol(ap)
    ensures FirstTaskListed(managed, tasks, |tasks|, rows)
  {
    rows := managed;
    for k := 0 to |tasks|
      invariant FirstTaskListed(managed, tasks, k, rows)
      invariant OwnKeys(rows) && (OneRowPerExecution(managed) ==> OneRowPerExecution(rows)) && Extends(managed, rows)
      invariant rows.Keys == managed.Keys + set ap | ap in tasks[..k] :: ap.taskId
      invariant forall id <- rows :: id !in managed ==> exists ap <- tasks :: rows[id] == FromProtocol(ap)
    {
      assert tasks[..k + 1] == tasks[..k] + [tasks[k]];
      if tasks[k].taskId !in rows {
        rows := rows[tasks[k].taskId := FromProtocol(tasks[k])];
      }
    }
    assert tasks[..|tasks|] == tasks;
  }

  /** Record `k` has row `row`. */
  predicate IsRow(raws: seq<RawRecord>, clock: nat -> int, k: nat, row: Summary) {
    k < |raws| && Identified(raws[k]) && row == FromRecord(raws[k], clock(k))
  }

  /** The rows added beyond `first` are those of the first `n` records, none of an execution that `first` lists as a task. */
  ghost predicate RowsOf(first: map<string, Summary>, raws: seq<RawRecord>, n: nat, clock: nat -> int, rows: map<string, Summary>) {
    forall id <- rows :: id !in first ==>
      && (exists k: nat :: k < n && IsRow(raws, clock, k, rows[id]))
      && (Defined(rows[id].executionId) ==> rows[id].executionId.value !in first)
  }

  /** No earlier row or record is related to record `k`. */
  predicate IsNew(first: map<string, Summary>, raws: seq<RawRecord>, k: nat)
    requires k < |raws|
  {
    Identified(raws[k]) && !Represented(first, raws[k]) && forall l: nat :: l < k ==> !Related(raws[k], raws[l])
  }

  predicate HasOwnRow(raws: seq<RawRecord>, clock: nat -> int, k: nat, rows: map<string, Summary>)
    requires k < |raws|
  {
    Identified(raws[k]) && RowId(raws[k]).value in rows && rows[RowId(raws[k]).value] == FromRecord(raws[k], clock(k))
  }

  /** First come, first listed: such a record has a row of its own. */
  predicate FirstComeListed(first: map<string, Summary>, raws: seq<RawRecord>, n: nat, clock: nat -> int, rows: map<string, Summary>)
    requires n <= |raws|
  {
    forall k: nat :: k < n && IsNew(first, raws, k) ==> HasOwnRow(raws, clock, k, rows)
  }

  lemma NewIsNotRepresented(first: map<string, Summary>, raws: seq<RawRecord>, n: nat, clock: nat -> int, rows: map<string, Summary>)
    requires n < |raws| && OwnKeys(first) && OwnKeys(rows) && Extends(first, rows) && RowsOf(first, raws, n, clock, rows)
    requires IsNew(first, raws, n)
    ensures !Represented(rows, raws[n])
  {
    var raw := raws[n];
    forall id | id in rows
      ensures Some(id) != RowId(raw) && (Defined(raw.executionId) ==> raw.executionId !in {Some(id), rows[id].executionId})
    {
      if id !in first {
        var k: nat :| k < n && IsRow(raws, clock, k, rows[id]);
        assert !Related(raw, raws[k]);
      }
    }
  }

  /** The rows with the row of record `n`, unless some row already stands for it. */
  function WithRecord(rows: map<string, Summary>, raws: seq<RawRecord>, n: nat, clock: nat -> int): map<string, Summary>
    requires n < |raws|
  {
    if Identified(raws[n]) && !Represented(rows, raws[n]) then rows[RowId(raws[n]).value := FromRecord(raws[n], clock(n))] else rows
  }

  lemma RowsStep(first: map<string, Summary>, raws: seq<RawRecord>, n: nat, clock: nat -> int, rows: map<string, Summary>)
    requires n < |raws| && Extends(first, rows) && RowsOf(first, raws, n, clock, rows)
    ensures RowsOf(first, raws, n + 1, clock, WithRecord(rows, raws, n, clock))
  {
    var more := WithRecord(rows, raws, n, clock);
    forall id | id in more && id !in first
      ensures exists k: nat :: k < n + 1 && IsRow(raws, clock, k, more[id])
      ensures Defined(more[id].executionId) ==> more[id].executionId.value !in first
    {
      if id in rows && more[id] == rows[id] {
        var k: nat :| k < n && IsRow(raws, clock, k, rows[id]);
      } else {
        assert IsRow(raws, clock, n, more[id]);
      }
    }
  }

  lemma ListedStep(first: map<string, Summary>, raws: seq<RawRecord>, n: nat, clock: nat -> int, rows: map<string, Summary>)
    requires n < |raws| && OwnKeys(first) && OwnKeys(rows) && Extends(first, rows)
    requires RowsOf(first, raws, n, clock, rows) && FirstComeListed(first, raws, n, clock, rows)
    ensures FirstComeListed(first, raws, n + 1, clock, WithRecord(rows, raws, n, clock))
  {
    if IsNew(first, raws, n) { NewIsNotRepresented(first, raws, n, clock, rows); }
    forall k: nat | k < n && IsNew(first, raws, k) ensures HasOwnRow(raws, clock, k, WithRecord(rows, raws, n, clock)) {
      assert HasOwnRow(raws, clock, k, rows);
    }
  }

  method AddRecords(first: map<string, Summary>, raws: seq<RawRecord>, clock: nat -> int) returns (rows: map<string, Summary>)
    requires OwnKeys(first)
    ensures OwnKeys(rows) && (OneRowPerExecution(first) ==> OneRowPerExecution(rows)) && Extends(first, rows)
    ensures forall raw <- raws :: Identified(raw) ==> Represented(rows, raw)
    ensures RowsOf(first, raws, |raws|, clock, rows) && FirstComeListed(first, raws, |raws|, clock, rows)
  {
    rows := first;
    for k := 0 to |raws|
      invariant OwnKeys(rows) && (OneRowPerExecution(first) ==> OneRowPerExecution(rows)) && Extends(first, rows)
      invariant AllRepresented(rows, raws, k)
      invariant RowsOf(first, raws, k, clock, rows) && FirstComeListed(first, raws, k, clock, rows)
    {
      RowsStep(first, raws, k, clock, rows);
      ListedStep(first, raws, k, clock, rows);
      RepresentedStep(rows, raws, k, clock);
      if Identified(raws[k]) && !Represented(rows, raws[k]) {
        rows := rows[RowId(raws[k]).value := FromRecord(raws[k], clock(k))];
      }
    }
  }

  predicate AllRepresented(rows: map<string, Summary>, raws: seq<RawRecord>, n: nat)
    requires n <= |raws|
  {
    forall l :: 0 <= l < n && Identified(raws[l]) ==> Represented(rows, raws[l])
  }

  lemma RepresentedStep(rows: map<string, Summary>, raws: seq<RawRecord>, n: nat, clock: nat -> int)
    requires n < |raws| && OwnKeys(rows) && AllRepresented(rows, raws, n)
    ensures var more := WithRecord(rows, raws, n, clock);
            && OwnKeys(more) && (OneRowPerExecution(rows) ==> OneRowPerExecution(more)) && Extends(rows, more)
            && AllRepresented(more, raws, n + 1)
  {
    var more := WithRecord(rows, raws, n, clock);
    if Identified(raws[n]) && !Represented(rows, raws[n]) { AddRecord(rows, raws[n], clock(n)); }
    forall l | 0 <= l < n && Identified(raws[l]) ensures Represented(more, raws[l]) {
      RepresentedStays(rows, more, raws[l]);
    }
  }

  /** A managed or protocol task already stands for the record. */
  predicate Taken(managed: map<string, Summary>, tasks: seq<ProtocolTask>, raw: RawRecord) {
    || (exists id <- managed :: Some(id) in {RowId(raw), raw.executionId} || managed[id].executionId == raw.executionId)
    || (exists ap <- tasks :: Some(ap.taskId) in {RowId(raw), raw.executionId})
  }

  /** Nothing listed or seen before stands for record `k`. */
  predicate Unclaimed(managed: map<string, Summary>, tasks: seq<ProtocolTask>, raws: seq<RawRecord>, k: nat)
    requires k < |raws|
  {
    Identified(raws[k]) && !Taken(managed, tasks, raws[k]) && forall l: nat :: l < k ==> !Related(raws[k], raws[l])
  }

  lemma UntakenIsNew(managed: map<string, Summary>, tasks: seq<ProtocolTask>, raws: seq<RawRecord>, k: nat, first: map<string, Summary>)
    requires k < |raws| && Unclaimed(managed, tasks, raws, k)
    requires Extends(managed, first) && first.Keys == managed.Keys + set ap | ap in tasks :: ap.taskId
    requires forall id <- first :: id !in managed ==> first[id].executionId.None?
    ensures IsNew(first, raws, k)
  {
  }

  /** A row stands for a record: under its task id, under its execution id, or naming its execution. */
  ghost predicate StandsFor(rows: map<string, Summary>, raw: RawRecord) {
    exists id <- rows :: Some(id) in {raw.taskId, raw.executionId} || rows[id].executionId == raw.executionId
  }

  lemma RepresentedMeans(rows: map<string, Summary>, raw: RawRecord)
    requires OwnKeys(rows) && Represented(rows, raw)
    ensures StandsFor(rows, raw)
  {
    if Defined(RowId(raw)) && RowId(raw).value in rows {
      assert Some(RowId(raw).value) in {raw.taskId, raw.executionId};
    } else if Defined(raw.executionId) && raw.executionId.value in rows {
      assert Some(raw.executionId.value) in {raw.taskId, raw.executionId};
    }
  }

  /**
   The merge behind the list. Every managed task keeps its row, every protocol task not managed has its own,
   and every execution record with an id is represented by some row. No other rows exist, each is described by
   its source, each task id has one row, and no execution is named twice exactly when the managed tasks name
   none twice. Records come first come, first listed; `clock(k)` is read for one that gives no time.
   */
  method MergeTasks(managed: map<string, Summary>, tasks: seq<ProtocolTask>, raws: seq<RawRecord>, clock: nat -> int)
      returns (rows: map<string, Summary>)
    requires OwnKeys(managed)
    ensures OwnKeys(rows) && Extends(managed, rows)
    ensures forall ap <- tasks :: ap.taskId in rows
    ensures FirstTaskListed(managed, tasks, |tasks|, rows)
    ensures forall raw <- raws :: (match raw.taskId case Some(id) => id != "" case None => raw.executionId !in {None, Some("")}) ==>
                                    StandsFor(rows, raw)
    ensures forall id <- rows ::
              || id in managed
              || (exists ap <- tasks :: ap.taskId == id && rows[id] == Summary(id, None, ap.createdAt, ap.state))
              || (exists k: nat :: k < |raws| && Describes(rows[id], raws[k], clock(k)))
    ensures forall id <- rows :: id !in managed && (forall ap <- tasks :: ap.taskId != id) && Defined(rows[id].executionId) ==>
              rows[id].executionId.value !in managed && forall ap <- tasks :: ap.taskId != rows[id].executionId.value
    ensures OneRowPerExecution(rows) <==> OneRowPerExecution(managed)
    ensures forall k: nat :: k < |raws| && Unclaimed(managed, tasks, raws, k) ==> HasOwnRow(raws, clock, k, rows)
  {
    var withTasks := AddProtocolTasks(managed, tasks);
    rows := AddRecords(withTasks, raws, clock);
    forall k: nat | k < |raws| && Unclaimed(managed, tasks, raws, k) ensures HasOwnRow(raws, clock, k, rows) {
      UntakenIsNew(managed, tasks, raws, k, withTasks);
    }
    forall raw | raw in raws && Identified(raw) ensures StandsFor(rows, raw) {
      RepresentedMeans(rows, raw);
    }
    forall id | id in rows && id !in withTasks
      ensures exists k: nat :: k < |raws| && Describes(rows[id], raws[k], clock(k))
    {
      var k: nat :| k < |raws| && IsRow(raws, clock, k, rows[id]);
      RowDescribes(raws[k], clock(k));
    }
  }
}
