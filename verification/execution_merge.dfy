/**
 Durable execution records: how a worker's report is completed, merged into the stored record inside one
 atomic update, and mirrored in the bounded in-memory list.
 */
module ExecutionMerge {
  import opened Options

  const MAX_EXECUTION_RECORDS := 5_000

  /** What a reporter sends; every field but the id may be missing. */
  datatype Report = Report(
    id: string,
    taskId: Option<string>,
    taskRef: Option<string>,
    status: Option<string>,
    createdAt: Option<int>,
    completedAt: Option<int>,
    recordEpoch: Option<int>,
    executionEpoch: Option<int>,
    errors: Option<seq<string>>,
    error: Option<string>,
    result: Option<string>,
    revision: Option<int>)

  datatype Execution = Execution(
    id: string,
    taskId: string,
    status: string,
    createdAt: int,
    completedAt: Option<int>,
    leaseEpoch: Option<int>,
    errors: seq<string>,
    error: Option<string>,
    result: Option<string>,
    revision: int)

  predicate Terminal(status: string) {
    status in {"completed", "failed", "cancelled", "recorded"}
  }

  function OrElse<T>(o: Option<T>, p: Option<T>): Option<T> {
    if o.Some? then o else p
  }

  /** A string field counts only when it is present and not empty. */
  function Filled(o: Option<string>, fallback: string): string {
    if o.Some? && o.value != "" then o.value else fallback
  }

  function NonEmpty(ss: seq<string>): seq<string> {
    if ss == [] then [] else (if ss[0] == "" then [] else [ss[0]]) + NonEmpty(ss[1..])
  }

  function EpochOf(r: Report): Option<int> { OrElse(r.recordEpoch, r.executionEpoch) }

  /** The complete record a first report becomes. A report without a status counts as completed. */
  function Build(r: Report, now: int): Execution {
    var status := Filled(r.status, "completed");
    Execution(
      r.id,
      Filled(r.taskId, Filled(r.taskRef, r.id)),
      status,
      if r.createdAt.Some? then r.createdAt.value else now,
      OrElse(r.completedAt, if Terminal(status) then Some(now) else None),
      EpochOf(r),
      if r.errors.Some? then NonEmpty(r.errors.value) else if Filled(r.error, "") != "" then [r.error.value] else [],
      r.error,
      r.result,
      if r.revision.Some? && r.revision.value > 0 then r.revision.value else 1)
  }

  /** A report from an older lease than the stored one. */
  predicate Fenced(cur: Execution, r: Report) {
    cur.leaseEpoch.Some? && EpochOf(r).Some? && EpochOf(r).value < cur.leaseEpoch.value
  }

  predicate Accepts(cur: Execution, r: Report) {
    !Fenced(cur, r) && !Terminal(cur.status)
  }

  /** `existing`, then each of `incoming` that is not listed yet. */
  function AppendNew(existing: seq<string>, incoming: seq<string>): seq<string> {
    if incoming == [] then existing
    else
      var all := AppendNew(existing, incoming[..|incoming| - 1]);
      var last := incoming[|incoming| - 1];
      if last in all then all else all + [last]
  }

  function Merge(cur: Execution, r: Report, now: int): Execution {
    if !Accepts(cur, r) then cur
    else
      var incoming := Build(r, now);
      Execution(
        r.id,
        cur.taskId,
        incoming.status,
        cur.createdAt,
        OrElse(incoming.completedAt, cur.completedAt),
        OrElse(incoming.leaseEpoch, cur.leaseEpoch),
        AppendNew(NonEmpty(cur.errors), incoming.errors),
        OrElse(r.error, cur.error),
        OrElse(r.result, cur.result),
        cur.revision + 1)
  }

  function Upsert(cur: Option<Execution>, r: Report, now: int): Execution {
    if cur.None? then Build(r, now) else Merge(cur.value, r, now)
  }

  // ----- Every sequence of reports for one execution -----

  /** The reports for one id in the order the store applied them, with the clock at each. */
  datatype Entry = Entry(report: Report, now: int)

  /** The stored record after the first `n` reports. */
  function StoredAfter(log: seq<Entry>, n: nat): Option<Execution>
    requires n <= |log|
  {
    if n == 0 then None else Some(Upsert(StoredAfter(log, n - 1), log[n - 1].report, log[n - 1].now))
  }

  /** How many of the reports `i`, ..., `j - 1` were merged. */
  function AcceptedBetween(log: seq<Entry>, i: nat, j: nat): nat
    requires 1 <= i <= j <= |log|
  {
    if i == j then 0
    else AcceptedBetween(log, i, j - 1) + if Accepts(StoredAfter(log, j - 1).value, log[j - 1].report) then 1 else 0
  }

  /** `f` extends `e` by entries it did not have, each once. */
  predicate GrownFrom(e: seq<string>, f: seq<string>) {
    && |e| <= |f| && (forall k :: 0 <= k < |e| ==> f[k] == e[k])
    && forall l, k :: 0 <= l < k < |f| && |e| <= k ==> f[l] != f[k]
  }

  lemma {:induction false} NonEmptyKeeps(ss: seq<string>)
    requires "" !in ss
    ensures NonEmpty(ss) == ss
  {
    if ss != [] { NonEmptyKeeps(ss[1..]); }
  }

  lemma {:induction false} NonEmptyHasNone(ss: seq<string>)
    ensures "" !in NonEmpty(ss)
  {
    if ss != [] { NonEmptyHasNone(ss[1..]); }
  }

  lemma {:induction false} AppendNewGrows(existing: seq<string>, incoming: seq<string>)
    requires "" !in existing && "" !in incoming
    ensures GrownFrom(existing, AppendNew(existing, incoming)) && "" !in AppendNew(existing, incoming)
    ensures forall x <- incoming :: x in AppendNew(existing, incoming)
  {
    if incoming != [] {
      var init, last := incoming[..|incoming| - 1], incoming[|incoming| - 1];
      AppendNewGrows(existing, init);
      assert incoming == init + [last];
    }
  }

  lemma {:induction false} ErrorsAreNeverEmpty(log: seq<Entry>, n: nat)
    requires 0 < n <= |log|
    ensures "" !in StoredAfter(log, n).value.errors
  {
    var last := log[n - 1];
    var incoming := Build(last.report, last.now).errors;
    assert "" !in incoming by {
      if last.report.errors.Some? { NonEmptyHasNone(last.report.errors.value); }
    }
    if n > 1 {
      ErrorsAreNeverEmpty(log, n - 1);
      var cur := StoredAfter(log, n - 1).value;
      NonEmptyKeeps(cur.errors);
      AppendNewGrows(cur.errors, incoming);
    }
  }

  /** What one merge keeps. */
  predicate Follows(e: Execution, f: Execution) {
    && f.taskId == e.taskId && f.createdAt == e.createdAt
    && (e.leaseEpoch.Some? ==> f.leaseEpoch.Some? && e.leaseEpoch.value <= f.leaseEpoch.value)
    && (e.completedAt.Some? ==> f.completedAt.Some?)
    && (Terminal(e.status) ==> f == e)
  }

  lemma GrownKeeps(e: seq<string>, f: seq<string>, x: string)
    requires GrownFrom(e, f) && x in e
    ensures x in f
  {
    var m :| 0 <= m < |e| && e[m] == x;
    assert f[m] == x;
  }

  lemma GrownTransitive(d: seq<string>, e: seq<string>, f: seq<string>)
    requires GrownFrom(d, e) && GrownFrom(e, f)
    ensures GrownFrom(d, f)
  {
  }

  lemma MergeFollows(cur: Execution, r: Report, now: int)
    requires "" !in cur.errors
    ensures Follows(cur, Merge(cur, r, now)) && GrownFrom(cur.errors, Merge(cur, r, now).errors)
    ensures Merge(cur, r, now).revision == cur.revision + if Accepts(cur, r) then 1 else 0
    ensures Merge(cur, r, now) != cur <==> Accepts(cur, r)
  {
    NonEmptyKeeps(cur.errors);
    if r.errors.Some? { NonEmptyHasNone(r.errors.value); }
    AppendNewGrows(cur.errors, Build(r, now).errors);
  }

  lemma HistoryStep(log: seq<Entry>, n: nat)
    requires 1 <= n < |log|
    ensures var e, f := StoredAfter(log, n).value, StoredAfter(log, n + 1).value;
            Follows(e, f) && f.revision == e.revision + if Accepts(e, log[n].report) then 1 else 0
  {
    ErrorsAreNeverEmpty(log, n);
    MergeFollows(StoredAfter(log, n).value, log[n].report, log[n].now);
  }

  lemma ErrorsStep(log: seq<Entry>, n: nat)
    requires 1 <= n < |log|
    ensures GrownFrom(StoredAfter(log, n).value.errors, StoredAfter(log, n + 1).value.errors)
  {
    ErrorsAreNeverEmpty(log, n);
    MergeFollows(StoredAfter(log, n).value, log[n].report, log[n].now);
  }

  lemma {:induction false} RevisionCountsMerges(log: seq<Entry>, i: nat, j: nat)
    requires 1 <= i <= j <= |log|
    ensures StoredAfter(log, j).value.revision == StoredAfter(log, i).value.revision + AcceptedBetween(log, i, j)
  {
    if i < j {
      RevisionCountsMerges(log, i, j - 1);
      HistoryStep(log, j - 1);
    }
  }

  /** `f` is a later version of `e`. */
  predicate Later(e: Execution, f: Execution) {
    Follows(e, f) && GrownFrom(e.errors, f.errors)
  }

  lemma StepIsLater(log: seq<Entry>, n: nat)
    requires 1 <= n < |log|
    ensures Later(StoredAfter(log, n).value, StoredAfter(log, n + 1).value)
  {
    HistoryStep(log, n);
    ErrorsStep(log, n);
  }

  lemma LaterIsTransitive(d: Execution, e: Execution, f: Execution)
    requires Later(d, e) && Later(e, f)
    ensures Later(d, f)
  {
    GrownTransitive(d.errors, e.errors, f.errors);
  }

  /** A transitive relation that holds from each version to the next holds from each to every later one. */
  lemma {:induction false} Chain(later: (Execution, Execution) -> bool, version: nat -> Execution, i: nat, j: nat)
    requires i < j && forall k: nat :: i <= k < j ==> later(version(k), version(k + 1))
    requires forall d, e, f :: later(d, e) && later(e, f) ==> later(d, f)
    ensures later(version(i), version(j))
  {
    assert later(version(j - 1), version(j - 1 + 1));
    if i < j - 1 { Chain(later, version, i, j - 1); }
  }

  lemma HistoryFollows(log: seq<Entry>, i: nat, j: nat)
    requires 1 <= i <= j <= |log|
    ensures Later(StoredAfter(log, i).value, StoredAfter(log, j).value)
  {
    if i < j {
      var version := (k: nat) => StoredAfter(log, if 1 <= k <= |log| then k else 1).value;
      forall k: nat | i <= k < j ensures Later(version(k), version(k + 1)) {
        StepIsLater(log, k);
      }
      forall d, e, f | Later(d, e) && Later(e, f) ensures Later(d, f) {
        LaterIsTransitive(d, e, f);
      }
      Chain(Later, version, i, j);
    }
  }

  /**
   Between any two moments of a history: task id and creation time stay those of the first report, the
   lease epoch never drops, a terminal record never changes, the revision counts the accepted merges, and
   errors only grow by entries not listed before.
   */
  lemma HistoryOnlyMovesForward(log: seq<Entry>, i: nat, j: nat)
    requires 1 <= i <= j <= |log|
    ensures Follows(StoredAfter(log, i).value, StoredAfter(log, j).value)
    ensures GrownFrom(StoredAfter(log, i).value.errors, StoredAfter(log, j).value.errors)
    ensures StoredAfter(log, j).value.revision == StoredAfter(log, i).value.revision + AcceptedBetween(log, i, j)
  {
    HistoryFollows(log, i, j);
    RevisionCountsMerges(log, i, j);
  }

  /**
   The first report fixes the task id and the creation time of every later record: its own task id, else that
   of the task object, else the execution id, the first that is not empty; the time it gives, else the clock.
   */
  lemma FirstReportFixesIdentity(log: seq<Entry>, j: nat)
    requires 1 <= j <= |log|
    ensures var r, e := log[0].report, StoredAfter(log, j).value;
            && (e.taskId == if r.taskId.Some? && r.taskId.value != "" then r.taskId.value
                            else if r.taskRef.Some? && r.taskRef.value != "" then r.taskRef.value else r.id)
            && (e.createdAt == match r.createdAt case Some(t) => t case None => log[0].now)
    ensures StoredAfter(log, 1).value.revision == match log[0].report.revision case Some(v) => if v > 0 then v else 1 case None => 1
  {
    HistoryFollows(log, 1, j);
    assert StoredAfter(log, 0).None? && StoredAfter(log, 1) == Some(Build(log[0].report, log[0].now));
  }

  /** The report carries this lease epoch: at the top level or, if there is none, in its execution part. */
  predicate Sends(r: Report, epoch: int) {
    r.recordEpoch == Some(epoch) || (r.recordEpoch.None? && r.executionEpoch == Some(epoch))
  }

  /** The stored epoch is at least `epoch`. */
  predicate EpochReached(cur: Option<Execution>, epoch: int) {
    cur.Some? && cur.value.leaseEpoch.Some? && epoch <= cur.value.leaseEpoch.value
  }

  lemma EpochStep(cur: Option<Execution>, r: Report, now: int, epoch: int)
    requires EpochReached(cur, epoch) || (Sends(r, epoch) && (cur.None? || Accepts(cur.value, r)))
    ensures EpochReached(Some(Upsert(cur, r, now)), epoch)
  {
  }

  /** Once a report of some lease epoch was applied, no report of a lower epoch changes the record again. */
  lemma StaleWorkerIsFenced(log: seq<Entry>, i: nat, j: nat, epoch: int, lower: int)
    requires i < j < |log| && Applied(log, i) && Sends(log[i].report, epoch) && Sends(log[j].report, lower) && lower < epoch
    ensures StoredAfter(log, j + 1) == StoredAfter(log, j)
  {
    EpochStaysReached(log, i, j, epoch);
    FencedChangesNothing(log, j);
  }

  lemma {:induction false} EpochStaysReached(log: seq<Entry>, i: nat, j: nat, epoch: int)
    requires i < j <= |log| && Applied(log, i) && Sends(log[i].report, epoch)
    ensures EpochReached(StoredAfter(log, j), epoch)
  {
    if i + 1 < j { EpochStaysReached(log, i, j - 1, epoch); }
    EpochStep(StoredAfter(log, j - 1), log[j - 1].report, log[j - 1].now, epoch);
  }

  lemma FencedChangesNothing(log: seq<Entry>, j: nat)
    requires 0 < j < |log| && Fenced(StoredAfter(log, j).value, log[j].report)
    ensures StoredAfter(log, j + 1) == StoredAfter(log, j)
  {
  }

  /** Report `k` was taken into the record. */
  predicate Applied(log: seq<Entry>, k: nat)
    requires k < |log|
  {
    k == 0 || Accepts(StoredAfter(log, k).value, log[k].report)
  }

  /** What the reports that were applied said last: the field of the latest one that has it. */
  function Latest<T>(log: seq<Entry>, n: nat, field: Entry -> Option<T>): Option<T>
    requires n <= |log|
  {
    if n == 0 then None
    else if Applied(log, n - 1) && field(log[n - 1]).Some? then field(log[n - 1])
    else Latest(log, n - 1, field)
  }

  /** A report without a status, or with an empty one, says that the execution is completed. */
  function SaidStatus(e: Entry): Option<string> {
    if e.report.status in {None, Some("")} then Some("completed") else e.report.status
  }

  /** A report of an end without a time means now. */
  function SaidCompletion(e: Entry): Option<int> {
    match e.report.completedAt
    case Some(t) => Some(t)
    case None => if SaidStatus(e).value in {"completed", "failed", "cancelled", "recorded"} then Some(e.now) else None
  }

  function SaidEpoch(e: Entry): Option<int> {
    match (e.report.recordEpoch, e.report.executionEpoch)
    case (Some(epoch), _) => Some(epoch)
    case (None, epoch) => epoch
  }

  function SaidError(e: Entry): Option<string> { e.report.error }

  function SaidResult(e: Entry): Option<string> { e.report.result }

  /** Field by field the record shows what was said last by the reports that were applied. */
  lemma {:induction false} RecordShowsLatest(log: seq<Entry>, n: nat)
    requires 0 < n <= |log|
    ensures var e := StoredAfter(log, n).value;
            && Some(e.status) == Latest(log, n, SaidStatus) && e.completedAt == Latest(log, n, SaidCompletion)
            && e.leaseEpoch == Latest(log, n, SaidEpoch)
            && e.error == Latest(log, n, SaidError) && e.result == Latest(log, n, SaidResult)
  {
    if n > 1 { RecordShowsLatest(log, n - 1); }
    ShowsStep(StoredAfter(log, n - 1), log[n - 1]);
  }

  /** One field after a report: what it says, if it is applied and says something, else as before. */
  function Said<T>(cur: Option<Execution>, entry: Entry, said: Option<T>, before: Option<T>): Option<T> {
    if (cur.None? || Accepts(cur.value, entry.report)) && said.Some? then said else before
  }

  lemma ShowsStep(cur: Option<Execution>, entry: Entry)
    ensures var e := Upsert(cur, entry.report, entry.now);
            && Some(e.status) == Said(cur, entry, SaidStatus(entry), if cur.Some? then Some(cur.value.status) else None)
            && e.completedAt == Said(cur, entry, SaidCompletion(entry), if cur.Some? then cur.value.completedAt else None)
            && e.leaseEpoch == Said(cur, entry, SaidEpoch(entry), if cur.Some? then cur.value.leaseEpoch else None)
            && e.error == Said(cur, entry, SaidError(entry), if cur.Some? then cur.value.error else None)
            && e.result == Said(cur, entry, SaidResult(entry), if cur.Some? then cur.value.result else None)
  {
  }

  /** Exactly which reports are applied: the first, and later ones while the record is not ended and no newer lease has reported. */
  lemma AppliedIff(log: seq<Entry>, k: nat)
    requires 0 < k < |log|
    ensures StoredAfter(log, k + 1) != StoredAfter(log, k) <==> Applied(log, k)
    ensures Applied(log, k) <==>
            && Latest(log, k, SaidStatus) !in {Some("completed"), Some("failed"), Some("cancelled"), Some("recorded")}
            && (match (Latest(log, k, SaidEpoch), SaidEpoch(log[k]))
                case (Some(newest), Some(epoch)) => newest <= epoch
                case _ => true)
  {
    RecordShowsLatest(log, k);
    ErrorsAreNeverEmpty(log, k);
    MergeFollows(StoredAfter(log, k).value, log[k].report, log[k].now);
  }

  /** The report names this error: in its list or, if it has no list, as its single error. */
  predicate Names(r: Report, x: string) {
    x != "" && if r.errors.Some? then x in r.errors.value else r.error == Some(x)
  }

  lemma {:induction false} NonEmptyMembers(ss: seq<string>, x: string)
    ensures x in NonEmpty(ss) <==> x != "" && x in ss
  {
    if ss != [] {
      NonEmptyMembers(ss[1..], x);
      assert ss == [ss[0]] + ss[1..];
    }
  }

  lemma BuiltErrorsAreNamed(r: Report, now: int, x: string)
    ensures x in Build(r, now).errors <==> Names(r, x)
  {
    if r.errors.Some? { NonEmptyMembers(r.errors.value, x); }
  }

  lemma {:induction false} AppendNewMembers(existing: seq<string>, incoming: seq<string>, x: string)
    ensures x in AppendNew(existing, incoming) <==> x in existing || x in incoming
  {
    if incoming != [] {
      var init, last := incoming[..|incoming| - 1], incoming[|incoming| - 1];
      AppendNewMembers(existing, init, x);
      assert incoming == init + [last];
    }
  }

  lemma ErrorsOfUpsert(cur: Option<Execution>, entry: Entry, x: string)
    requires cur.Some? ==> "" !in cur.value.errors
    ensures x in Upsert(cur, entry.report, entry.now).errors <==>
            || (cur.Some? && x in cur.value.errors)
            || ((cur.None? || Accepts(cur.value, entry.report)) && Names(entry.report, x))
  {
    BuiltErrorsAreNamed(entry.report, entry.now, x);
    if cur.Some? {
      NonEmptyKeeps(cur.value.errors);
      AppendNewMembers(cur.value.errors, Build(entry.report, entry.now).errors, x);
    }
  }

  /** The errors of the record are exactly those that applied reports named: none is lost and none is made up. */
  lemma {:induction false} ErrorsAreKept(log: seq<Entry>, n: nat, x: string)
    requires 0 < n <= |log|
    ensures x in StoredAfter(log, n).value.errors <==> exists k: nat :: k < n && Applied(log, k) && Names(log[k].report, x)
  {
    if n > 1 {
      ErrorsAreKept(log, n - 1, x);
      ErrorsAreNeverEmpty(log, n - 1);
    }
    ErrorsOfUpsert(StoredAfter(log, n - 1), log[n - 1], x);
  }

  /** A terminal record stands, whatever is reported later and under whatever epoch. */
  lemma FirstTerminalIsFinal(log: seq<Entry>, i: nat, j: nat)
    requires 1 <= i <= j <= |log| && StoredAfter(log, i).value.status in {"completed", "failed", "cancelled", "recorded"}
    ensures StoredAfter(log, j) == StoredAfter(log, i)
  {
    HistoryFollows(log, i, j);
  }

  // ----- The store and the in-memory list -----

  predicate DistinctIds(list: seq<Execution>) {
    forall k, l :: 0 <= k < l < |list| ==> list[k].id != list[l].id
  }

  /** `k` is the first position of `id` in the list, or its length. */
  predicate FirstIndex(list: seq<Execution>, id: string, k: nat) {
    && k <= |list| && (k < |list| ==> list[k].id == id)
    && forall l :: 0 <= l < k ==> list[l].id != id
  }

  /** The list with `e` in the place of the entry of its id or, if there is none, at the end of at most 5,000 entries. */
  function Listing(list: seq<Execution>, e: Execution): seq<Execution> {
    if exists x <- list :: x.id == e.id
    then seq(|list|, k requires 0 <= k < |list| => if list[k].id == e.id then e else list[k])
    else (if |list| < 5_000 then list else list[|list| - 4_999..]) + [e]
  }

  lemma ListingKeeps(list: seq<Execution>, e: Execution)
    requires DistinctIds(list) && |list| <= MAX_EXECUTION_RECORDS
    ensures DistinctIds(Listing(list, e)) && |Listing(list, e)| <= MAX_EXECUTION_RECORDS
    ensures e in Listing(list, e)
    ensures forall x <- Listing(list, e) :: x == e || (x in list && x.id != e.id)
  {
    var kept := Listing(list, e);
    if exists x <- list :: x.id == e.id {
      var x :| x in list && x.id == e.id;
      var k :| 0 <= k < |list| && list[k] == x;
      assert kept[k] == e;
    } else {
      assert kept[|kept| - 1] == e;
    }
  }

  /** `e` is an earlier version of `f`, or the same one. */
  predicate Earlier(e: Execution, f: Execution) {
    && f.id == e.id && Follows(e, f) && GrownFrom(e.errors, f.errors)
    && e.revision <= f.revision && (e.revision == f.revision ==> e == f)
  }

  lemma EarlierStep(e: Execution, f: Execution, r: Report, now: int)
    requires Earlier(e, f) && "" !in f.errors && r.id == f.id
    ensures Earlier(e, Merge(f, r, now)) && "" !in Merge(f, r, now).errors
  {
    MergeFollows(f, r, now);
    GrownTransitive(e.errors, f.errors, Merge(f, r, now).errors);
    NonEmptyKeeps(f.errors);
    BuiltErrors(r, now);
    AppendNewGrows(f.errors, Build(r, now).errors);
  }

  lemma BuiltErrors(r: Report, now: int)
    ensures "" !in Build(r, now).errors
  {
    if r.errors.Some? { NonEmptyHasNone(r.errors.value); }
  }

  /** The list of one process beside a store that other processes write to as well. */
  class ExecutionLog {
    var store: map<string, Execution>
    var executions: seq<Execution>

    /** The list holds each id at most once and within its bound, each as it is or once was in the store. */
    ghost predicate Valid()
      reads this
    {
      && (forall id <- store :: store[id].id == id && "" !in store[id].errors)
      && (forall e <- executions :: e.id in store && Earlier(e, store[e.id]))
      && DistinctIds(executions)
      && |executions| <= MAX_EXECUTION_RECORDS
    }

    /** A process starts with an empty list beside whatever the merges of others have stored. */
    constructor (contents: map<string, Execution>)
      requires forall id <- contents :: contents[id].id == id && "" !in contents[id].errors
      ensures Valid() && store == contents && executions == []
    {
      store, executions := contents, [];
    }

    method MergeErrors(existing: seq<string>, incoming: seq<string>) returns (merged: seq<string>)
      ensures merged == AppendNew(existing, incoming)
    {
      merged := existing;
      for k := 0 to |incoming|
        invariant merged == AppendNew(existing, incoming[..k])
      {
        assert incoming[..k + 1][..k] == incoming[..k];
        if incoming[k] !in merged {
          merged := merged + [incoming[k]];
        }
      }
      assert incoming[..|incoming|] == incoming;
    }

    /** The update callback. */
    method MergeInto(cur: Execution, r: Report, now: int) returns (next: Execution)
      ensures next == Merge(cur, r, now)
    {
      if Fenced(cur, r) || Terminal(cur.status) { return cur; }
      var incoming := Build(r, now);
      var errors := MergeErrors(NonEmpty(cur.errors), incoming.errors);
      next := Execution(r.id, cur.taskId, incoming.status, cur.createdAt,
                        OrElse(incoming.completedAt, cur.completedAt), OrElse(incoming.leaseEpoch, cur.leaseEpoch),
                        errors, OrElse(r.error, cur.error), OrElse(r.result, cur.result), cur.revision + 1);
    }

    /** The atomic update of the store, by this process or another one: no list is told. */
    method UpdateStore(r: Report, now: int) returns (next: Execution)
      requires Valid() && r.id != ""
      modifies this`store
      ensures Valid() && store == old(store)[r.id := next]
      ensures next == Upsert(if r.id in old(store) then Some(old(store)[r.id]) else None, r, now)
    {
      if r.id in store {
        next := MergeInto(store[r.id], r, now);
        EarlierStep(store[r.id], store[r.id], r, now);
        forall e | e in executions && e.id == r.id ensures Earlier(e, next) {
          EarlierStep(e, store[r.id], r, now);
        }
      } else {
        next := Build(r, now);
        BuiltErrors(r, now);
      }
      store := store[r.id := next];
    }

    /** Records a report; a report without an id is refused and changes nothing. */
    method RecordExecution(r: Report, now: int) returns (stored: Option<Execution>)
      requires Valid()
      modifies this
      ensures Valid()
      ensures stored.None? <==> r.id == ""
      ensures stored.None? ==> store == old(store) && executions == old(executions)
      ensures stored.Some? ==>
                && store == old(store)[r.id := stored.value]
                && stored.value == Upsert(if r.id in old(store) then Some(old(store)[r.id]) else None, r, now)
                && executions == Listing(old(executions), stored.value)
    {
      if r.id == "" { return None; }
      var next := UpdateStore(r, now);
      CacheRecord(next);
      stored := Some(next);
    }

    /** Puts a version of a record that is or was stored into the list. */
    method CacheRecord(e: Execution)
      requires Valid() && e.id in store && Earlier(e, store[e.id])
      modifies this`executions
      ensures Valid() && executions == Listing(old(executions), e)
    {
      ListingKeeps(executions, e);
      PutRecord(e);
    }

    /** Replaces the entry of this id, or adds one and drops the oldest beyond the bound. */
    method PutRecord(e: Execution)
      requires DistinctIds(executions) && |executions| <= MAX_EXECUTION_RECORDS
      modifies this`executions
      ensures executions == Listing(old(executions), e)
    {
      var k := FindIndex(e.id);
      if k < |executions| {
        executions := executions[k := e];
      } else {
        executions := executions + [e];
        if |executions| > MAX_EXECUTION_RECORDS {
          executions := executions[|executions| - MAX_EXECUTION_RECORDS..];
        }
      }
    }

    method FindIndex(id: string) returns (k: nat)
      ensures FirstIndex(executions, id, k)
    {
      k := 0;
      while k < |executions| && executions[k].id != id
        invariant k <= |executions|
        invariant forall l :: 0 <= l < k ==> executions[l].id != id
      {
        k := k + 1;
      }
    }
  }
}
