/**
 The key-value store behind the dispatcher, seen as a log of single writes. `dispatch/` holds the
 records, `dispatch-pending/` an index of those that still need a worker. A process may stop after any
 write, so what has to hold is stated for every prefix of the log.
 */
module DispatchStore {
  import opened Options
  import opened DispatchRecord

  datatype IndexEntry = IndexEntry(computerId: string, at: Option<int>)

  datatype Store = Store(dispatch: map<string, Dispatch>, pending: map<string, IndexEntry>)

  datatype Write =
    | PutIndex(id: string, entry: IndexEntry)
    | DropIndex(id: string)
    | Create(id: string, computerId: string, request: Request)
    | Change(id: string, step: Step)
    | Drop(id: string)

  function Lookup(s: Store, id: string): Option<Dispatch> {
    if id in s.dispatch then Some(s.dispatch[id]) else None
  }

  function Apply(s: Store, w: Write): Store {
    match w
    case PutIndex(id, entry) => s.(pending := s.pending[id := entry])
    case DropIndex(id) => s.(pending := s.pending - {id})
    case Create(id, computerId, request) =>
      if id in s.dispatch then s else s.(dispatch := s.dispatch[id := NewRecord(computerId, request)])
    case Change(id, step) =>
      if id in s.dispatch then s.(dispatch := s.dispatch[id := After(s.dispatch[id], step)]) else s
    case Drop(id) => s.(dispatch := s.dispatch - {id})
  }

  predicate Unfinished(s: Store, id: string) {
    id in s.dispatch && s.dispatch[id].outcome.None?
  }

  /** Every record that still needs a worker is in the index. */
  predicate Covered(s: Store) {
    forall id <- s.dispatch :: Unfinished(s, id) ==> id in s.pending
  }

  /** Records are filed under their own request id. */
  predicate WellKeyed(s: Store) {
    forall id <- s.dispatch :: s.dispatch[id].request.requestId == id
  }

  /** The order of writes the dispatcher keeps: index before record, outcome before un-indexing or deleting. */
  predicate Disciplined(s: Store, w: Write) {
    match w
    case DropIndex(id) => !Unfinished(s, id)
    case Create(id, _, request) => id in s.pending && request.requestId == id
    case Drop(id) => !Unfinished(s, id)
    case _ => true
  }

  /** The store after the first `n` writes. */
  function Replay(s: Store, log: seq<Write>, n: nat): Store
    requires n <= |log|
  {
    if n == 0 then s else Apply(Replay(s, log, n - 1), log[n - 1])
  }

  predicate DisciplinedAt(s: Store, log: seq<Write>, k: nat) {
    k < |log| && Disciplined(Replay(s, log, k), log[k])
  }

  predicate AllDisciplined(s: Store, log: seq<Write>) {
    forall k: nat :: k < |log| ==> DisciplinedAt(s, log, k)
  }

  lemma {:induction false} ReplayPrefix(s: Store, log: seq<Write>, w: Write, n: nat)
    requires n <= |log|
    ensures Replay(s, log + [w], n) == Replay(s, log, n)
  {
    if n > 0 { ReplayPrefix(s, log, w, n - 1); }
  }

  lemma ReplayExtend(s: Store, log: seq<Write>, w: Write)
    ensures Replay(s, log + [w], |log| + 1) == Apply(Replay(s, log, |log|), w)
    ensures AllDisciplined(s, log) && Disciplined(Replay(s, log, |log|), w) ==> AllDisciplined(s, log + [w])
  {
    ReplayPrefix(s, log, w, |log|);
    if AllDisciplined(s, log) && Disciplined(Replay(s, log, |log|), w) {
      forall k: nat | k < |log + [w]| ensures DisciplinedAt(s, log + [w], k) {
        ReplayPrefix(s, log, w, k);
        assert k < |log| ==> DisciplinedAt(s, log, k);
      }
    }
  }

  lemma UpdateKeepsRequest(r: Dispatch, step: Step)
    ensures After(r, step).request == r.request
    ensures r.outcome.Some? ==> After(r, step).outcome.Some?
  {
  }

  lemma CoverageStep(s: Store, w: Write)
    requires Disciplined(s, w)
    ensures Covered(s) ==> Covered(Apply(s, w))
    ensures WellKeyed(s) ==> WellKeyed(Apply(s, w))
  {
    var t := Apply(s, w);
    if w.Change? && w.id in s.dispatch {
      UpdateKeepsRequest(s.dispatch[w.id], w.step);
    }
    forall id | id in t.dispatch
      ensures Covered(s) && Unfinished(t, id) ==> id in t.pending
      ensures WellKeyed(s) ==> t.dispatch[id].request.requestId == id
    {
      assert id in s.dispatch || (w.Create? && w.id == id);
    }
  }

  /**
   The order of writes is not only enough but needed: a write loses track of pending work exactly when it
   un-indexes an unfinished record or creates a record that is not indexed yet.
   */
  lemma CoverageKeptIff(s: Store, w: Write)
    requires Covered(s)
    ensures Covered(Apply(s, w)) <==>
            match w
            case DropIndex(id) => !Unfinished(s, id)
            case Create(id, _, _) => id in s.dispatch || id in s.pending
            case _ => true
  {
    var t := Apply(s, w);
    if w.Change? && w.id in s.dispatch {
      UpdateKeepsRequest(s.dispatch[w.id], w.step);
    }
    if w.DropIndex? && Unfinished(s, w.id) {
      assert Unfinished(t, w.id) && w.id !in t.pending;
    }
    if w.Create? && w.id !in s.dispatch && w.id !in s.pending {
      assert Unfinished(t, w.id) && w.id !in t.pending;
    }
    assert forall id :: Unfinished(t, id) ==> Unfinished(s, id) || (w.Create? && w.id == id);
  }

  /** No disciplined write, and so no crash between two writes, ever loses track of pending work. */
  lemma {:induction false} CoverageSurvivesCrashes(s: Store, log: seq<Write>, from: nat, k: nat)
    requires AllDisciplined(s, log) && from <= k <= |log| && Covered(Replay(s, log, from))
    ensures Covered(Replay(s, log, k))
  {
    if from < k {
      CoverageSurvivesCrashes(s, log, from, k - 1);
      assert DisciplinedAt(s, log, k - 1);
      CoverageStep(Replay(s, log, k - 1), log[k - 1]);
    }
  }

  lemma {:induction false} KeysSurviveCrashes(s: Store, log: seq<Write>, from: nat, k: nat)
    requires AllDisciplined(s, log) && from <= k <= |log| && WellKeyed(Replay(s, log, from))
    ensures WellKeyed(Replay(s, log, k))
  {
    if from < k {
      KeysSurviveCrashes(s, log, from, k - 1);
      assert DisciplinedAt(s, log, k - 1);
      CoverageStep(Replay(s, log, k - 1), log[k - 1]);
    }
  }

  // ----- What whole passes over the store compute -----

  /** The result a scan of all of `dispatch/` for unfinished records would give. */
  function FullScan(d: map<string, Dispatch>): map<string, Dispatch> {
    map id | id in d && d[id].outcome.None? :: d[id]
  }

  /** What an index that covers everything finds, and in general all that redelivery can see. */
  function IndexScan(s: Store): map<string, Dispatch> {
    map id | id in s.pending && Unfinished(s, id) :: s.dispatch[id]
  }

  /** Reading the index finds what a scan of all records would, exactly when it covers them. */
  lemma IndexFindsAllIff(s: Store)
    ensures IndexScan(s) == FullScan(s.dispatch) <==> Covered(s)
  {
    if IndexScan(s) == FullScan(s.dispatch) {
      forall id | id in s.dispatch && Unfinished(s, id) ensures id in s.pending {
        assert id in FullScan(s.dispatch);
      }
    }
  }

  /** A pass reads the clock anew for every entry: the reading made when the entry of this id is handled. */
  type Clock = string -> int

  /** Recovery reads the clock three times for an entry: before the update, inside it, and for what it writes. */
  datatype Reading = Reading(look: int, guard: int, stamp: int)

  type Sweep = string -> Reading

  ghost predicate Forward(sweep: Sweep) {
    forall id :: sweep(id).look <= sweep(id).guard <= sweep(id).stamp
  }

  /** Recovery hands out no lease; its step carries the smallest lease duration a process may use. */
  function ReconcileStep(offline: set<string>, t: Reading): Step {
    Step(Reconcile(offline), t.look, t.stamp, MIN_LEASE_MS)
  }

  /** An entry that the first look does not skip is not found live inside the update either: the first look decides. */
  lemma FirstLookDecides(r: Dispatch, offline: set<string>, t: Reading, leaseMs: int)
    requires t.look <= t.guard && !Live(r, t.look)
    ensures After(r, Step(Reconcile(offline), t.guard, t.stamp, leaseMs)) == After(r, ReconcileStep(offline, t))
  {
  }

  function Reconciled(d: map<string, Dispatch>, offline: set<string>, sweep: Sweep): map<string, Dispatch> {
    map id | id in d :: After(d[id], ReconcileStep(offline, sweep(id)))
  }

  /**
   One recovery pass ends exactly the records that are spent when it looks at them, marks exactly the free
   records of offline owners, touches nothing else, and repeating it at the same times changes nothing.
   */
  lemma ReconcilePassMeaning(d: map<string, Dispatch>, offline: set<string>, sweep: Sweep)
    ensures var d' := Reconciled(d, offline, sweep);
            && d'.Keys == d.Keys && Reconciled(d', offline, sweep) == d'
            && forall id <- d ::
                 match PhaseAt(d[id], sweep(id).look)
                 case Spent => EndedAs(d[id], d'[id], "UNKNOWN_OUTCOME", Failed("UNKNOWN_OUTCOME", d[id].attempt), sweep(id).stamp)
                 case Free => d'[id] == if d[id].computerId in offline then d[id].(orphaned := true) else d[id]
                 case _ => d'[id] == d[id]
  {
    forall id | id in d ensures
      After(After(d[id], ReconcileStep(offline, sweep(id))), ReconcileStep(offline, sweep(id))) ==
      After(d[id], ReconcileStep(offline, sweep(id)))
    {
      ReconcileMeaning(d[id], offline, ReconcileStep(offline, sweep(id)));
    }
  }

  /** Index entries a recovery pass leaves: it skips live leases and forgets what has an outcome. */
  predicate KeepsIndexed(d: map<string, Dispatch>, id: string, look: int) {
    id !in d || d[id].outcome.None? || Live(d[id], look)
  }

  const ORPHAN_INDEX_MS := 60_000

  function EntryTime(entry: IndexEntry): int {
    if entry.at.Some? then entry.at.value else 0
  }

  /** Index entries a refresh leaves: unfinished work, and young entries whose record is not written yet. */
  predicate KeepsEntry(d: map<string, Dispatch>, id: string, entry: IndexEntry, now: int) {
    if id in d then d[id].outcome.None? else now - EntryTime(entry) <= ORPHAN_INDEX_MS
  }

  /** A refresh that has not looked at the entries in `todo` yet. */
  function RefreshPart(s: Store, todo: set<string>, clock: Clock): Store {
    s.(pending := map id | id in s.pending && (id in todo || KeepsEntry(s.dispatch, id, s.pending[id], clock(id)))
                    :: s.pending[id])
  }

  function Refreshed(s: Store, clock: Clock): Store {
    RefreshPart(s, {}, clock)
  }

  /** What a refresh writes for one index entry. */
  function RefreshEntry(s: Store, id: string, entry: IndexEntry, now: int): Store {
    if KeepsEntry(s.dispatch, id, entry, now) then s else Apply(s, DropIndex(id))
  }

  /** The unfinished records a refresh has met so far. */
  function Seen(s: Store, todo: set<string>): set<string> {
    set id | id in s.pending && id !in todo && Unfinished(s, id)
  }

  lemma RefreshStep(s: Store, todo: set<string>, clock: Clock, id: string)
    requires todo <= s.pending.Keys && id in todo
    ensures RefreshPart(s, todo - {id}, clock) == RefreshEntry(RefreshPart(s, todo, clock), id, s.pending[id], clock(id))
    ensures Seen(s, todo - {id}) == if Unfinished(s, id) then Seen(s, todo) + {id} else Seen(s, todo)
  {
  }

  lemma RefreshStart(s: Store, clock: Clock)
    ensures RefreshPart(s, s.pending.Keys, clock) == s
  {
  }

  /** A refresh loses no unfinished work, and neither makes nor loses coverage. */
  lemma RefreshKeeps(s: Store, clock: Clock)
    ensures IndexScan(Refreshed(s, clock)) == IndexScan(s)
    ensures Covered(Refreshed(s, clock)) <==> Covered(s)
  {
    var t := Refreshed(s, clock);
    assert forall id :: Unfinished(s, id) ==> (id in t.pending <==> id in s.pending) && Unfinished(t, id);
  }

  /** Exactly the entries of unfinished records stay, and those at most a minute old whose record is still to be written. */
  lemma RefreshKeepsIff(s: Store, clock: Clock, id: string)
    ensures Refreshed(s, clock).dispatch == s.dispatch && Refreshed(s, clock).pending.Keys <= s.pending.Keys
    ensures id in s.pending ==>
              var written := id in Refreshed(s, clock).pending;
              match (Lookup(s, id), s.pending[id].at)
              case (Some(r), _) => written <==> r.outcome.None?
              case (None, Some(at)) => written <==> clock(id) - at <= 60_000
              case (None, None) => written <==> clock(id) <= 60_000
    ensures id in Refreshed(s, clock).pending ==> Refreshed(s, clock).pending[id] == s.pending[id]
  {
  }

  lemma RefreshEnd(s: Store, clock: Clock, cache: map<string, Dispatch>, live: set<string>)
    requires live == Seen(s, {}) && forall id <- live :: id in cache && cache[id] == s.dispatch[id]
    ensures var t, kept := Refreshed(s, clock), map id | id in cache && id in live :: cache[id];
            && kept == IndexScan(t) && (Covered(t) <==> kept == FullScan(t.dispatch))
            && (Covered(t) <==> Covered(s))
  {
    RefreshKeeps(s, clock);
    IndexFindsAllIff(Refreshed(s, clock));
    assert (map id | id in cache && id in live :: cache[id]) == IndexScan(s);
  }

  /** Completed records whose completion time is known and lies before `cutoff`. */
  predicate Expired(r: Dispatch, cutoff: int) {
    r.outcome.Some? && r.completedAt.Some? && r.completedAt.value < cutoff
  }

  predicate Stale(r: Dispatch, cutoff: Option<int>) {
    cutoff.Some? && Expired(r, cutoff.value)
  }

  /** The ids under which the start-up scan indexes the unfinished records among `keys`: those of their requests. */
  function IndexedIds(d: map<string, Dispatch>, keys: set<string>): set<string> {
    set key | key in d && key in keys && d[key].outcome.None? :: d[key].request.requestId
  }

  /** The ids it deletes for the completed records among `keys`. */
  function DroppedIds(d: map<string, Dispatch>, keys: set<string>, cutoff: Option<int>): set<string> {
    set key | key in d && key in keys && Stale(d[key], cutoff) :: d[key].request.requestId
  }

  /** An entry the scan of `s` writes for the record under `key`. */
  predicate Adds(s: Store, key: string, id: string, entry: IndexEntry, clock: Clock) {
    Unfinished(s, key) && s.dispatch[key].request.requestId == id && entry == IndexEntry(s.dispatch[key].computerId, Some(clock(key)))
  }

  /** What a start-up scan that has seen the records under `keys` has made of `s`, whatever `s` holds. */
  ghost predicate Reindexing(s: Store, keys: set<string>, cutoff: Option<int>, clock: Clock, t: Store) {
    && t.dispatch == s.dispatch - DroppedIds(s.dispatch, keys, cutoff)
    && t.pending.Keys == s.pending.Keys + IndexedIds(s.dispatch, keys)
    && (forall id <- s.pending :: t.pending[id] == s.pending[id])
    && forall id <- t.pending :: id !in s.pending ==> exists key :: key in keys && Adds(s, key, id, t.pending[id], clock)
  }

  ghost predicate Reindexed(s: Store, cutoff: Option<int>, clock: Clock, t: Store) {
    Reindexing(s, s.dispatch.Keys, cutoff, clock, t)
  }

  /** What the start-up scan makes of the store for one record. */
  function ReindexEntry(s: Store, r: Dispatch, indexed: bool, cutoff: Option<int>, now: int): Store {
    var id := r.request.requestId;
    if r.outcome.None? then if indexed then s else Apply(s, PutIndex(id, IndexEntry(r.computerId, Some(now))))
    else if Stale(r, cutoff) then Apply(s, Drop(id)) else s
  }

  lemma IdsStep(d: map<string, Dispatch>, keys: set<string>, cutoff: Option<int>, key: string)
    requires key in d
    ensures var id := d[key].request.requestId;
            && IndexedIds(d, keys + {key}) == IndexedIds(d, keys) + (if d[key].outcome.None? then {id} else {})
            && DroppedIds(d, keys + {key}, cutoff) == DroppedIds(d, keys, cutoff) + (if Stale(d[key], cutoff) then {id} else {})
  {
    var id := d[key].request.requestId;
    forall x | x in IndexedIds(d, keys) + (if d[key].outcome.None? then {id} else {}) ensures x in IndexedIds(d, keys + {key}) {
      if x in IndexedIds(d, keys) {
        var k :| k in d && k in keys && d[k].outcome.None? && d[k].request.requestId == x;
        assert k in keys + {key};
      }
    }
    forall x | x in DroppedIds(d, keys, cutoff) + (if Stale(d[key], cutoff) then {id} else {})
      ensures x in DroppedIds(d, keys + {key}, cutoff)
    {
      if x in DroppedIds(d, keys, cutoff) {
        var k :| k in d && k in keys && Stale(d[k], cutoff) && d[k].request.requestId == x;
        assert k in keys + {key};
      }
    }
  }

  lemma ReindexStart(s: Store, cutoff: Option<int>, clock: Clock)
    ensures Reindexing(s, {}, cutoff, clock, s)
  {
  }

  lemma ReindexStep(s: Store, keys: set<string>, cutoff: Option<int>, clock: Clock, key: string, t: Store)
    requires Reindexing(s, keys, cutoff, clock, t) && key in s.dispatch
    ensures var r := s.dispatch[key];
            Reindexing(s, keys + {key}, cutoff, clock,
                       ReindexEntry(t, r, r.request.requestId in s.pending, cutoff, clock(key)))
  {
    var r := s.dispatch[key];
    IdsStep(s.dispatch, keys, cutoff, key);
    var u := ReindexEntry(t, r, r.request.requestId in s.pending, cutoff, clock(key));
    forall id | id in u.pending && id !in s.pending
      ensures exists k :: k in keys + {key} && Adds(s, k, id, u.pending[id], clock)
    {
      AddedBy(s, keys, cutoff, clock, key, t, id);
    }
  }

  /** Among records filed under their own ids the scan deletes only finished ones. */
  lemma ReindexDisciplined(s: Store, keys: set<string>, cutoff: Option<int>, clock: Clock, key: string, t: Store)
    requires Reindexing(s, keys, cutoff, clock, t) && key in s.dispatch && WellKeyed(s)
    ensures s.dispatch[key].outcome.Some? ==> !Unfinished(t, s.dispatch[key].request.requestId)
  {
  }

  lemma AddedBy(s: Store, keys: set<string>, cutoff: Option<int>, clock: Clock, key: string, t: Store, id: string)
    requires Reindexing(s, keys, cutoff, clock, t) && key in s.dispatch && id !in s.pending
    requires id in ReindexEntry(t, s.dispatch[key], s.dispatch[key].request.requestId in s.pending, cutoff, clock(key)).pending
    ensures var r := s.dispatch[key];
            var u := ReindexEntry(t, r, r.request.requestId in s.pending, cutoff, clock(key));
            exists k :: k in keys + {key} && Adds(s, k, id, u.pending[id], clock)
  {
    var r := s.dispatch[key];
    var u := ReindexEntry(t, r, r.request.requestId in s.pending, cutoff, clock(key));
    if id == r.request.requestId && r.outcome.None? {
      assert key in keys + {key} && Adds(s, key, id, u.pending[id], clock);
    } else {
      var k :| k in keys && Adds(s, k, id, t.pending[id], clock);
      assert k in keys + {key} && Adds(s, k, id, u.pending[id], clock);
    }
  }

  /**
   Exactly when the start-up scan makes the index cover all unfinished records, whatever the store held: each
   one that is left was indexed under its key before, or some unfinished record has that key as request id.
   */
  lemma ReindexCoversIff(s: Store, cutoff: Option<int>, clock: Clock, t: Store)
    requires Reindexed(s, cutoff, clock, t)
    ensures Covered(t) <==>
            forall key <- s.dispatch :: Unfinished(s, key) && key !in DroppedIds(s.dispatch, s.dispatch.Keys, cutoff) ==>
              key in s.pending || key in IndexedIds(s.dispatch, s.dispatch.Keys)
  {
    assert forall key :: Unfinished(t, key) <==> Unfinished(s, key) && key !in DroppedIds(s.dispatch, s.dispatch.Keys, cutoff);
  }

  /** Records filed under their own ids are all covered, and no unfinished one is lost. */
  lemma ReindexCovers(s: Store, cutoff: Option<int>, clock: Clock, t: Store)
    requires Reindexed(s, cutoff, clock, t) && WellKeyed(s)
    ensures Covered(t) && WellKeyed(t)
    ensures t.dispatch == map id | id in s.dispatch && !Stale(s.dispatch[id], cutoff) :: s.dispatch[id]
    ensures FullScan(t.dispatch) == FullScan(s.dispatch)
    ensures forall id :: id in t.pending && id !in s.pending ==>
              id in s.dispatch && s.dispatch[id].outcome.None?
              && t.pending[id].computerId == s.dispatch[id].computerId && t.pending[id].at == Some(clock(id))
  {
    forall key | key in s.dispatch
      ensures key in DroppedIds(s.dispatch, s.dispatch.Keys, cutoff) <==> Stale(s.dispatch[key], cutoff)
      ensures Unfinished(s, key) ==> key in IndexedIds(s.dispatch, s.dispatch.Keys)
    {
      assert s.dispatch[key].request.requestId == key;
    }
  }

  /** A record filed under another id than its own stays out of sight. */
  lemma MisfiledIsNotCovered(t: Store, clock: Clock)
    requires Reindexed(Store(map["a" := NewRecord("w", Request("b", "e", ReadOnly))], map[]), None, clock, t)
    ensures !Covered(t)
  {
    assert Unfinished(t, "a") && "a" !in t.pending;
  }

  /** A recovery pass that has not looked at the index entries in `todo` yet. */
  function ReconcilePart(s: Store, todo: set<string>, offline: set<string>, sweep: Sweep): Store {
    var d := map id | id in s.dispatch :: if id in s.pending && id !in todo
                                          then After(s.dispatch[id], ReconcileStep(offline, sweep(id))) else s.dispatch[id];
    Store(d, map id | id in s.pending && (id in todo || KeepsIndexed(d, id, sweep(id).look)) :: s.pending[id])
  }

  /** The store after a whole recovery pass. */
  function Recovered(s: Store, offline: set<string>, sweep: Sweep): Store {
    ReconcilePart(s, {}, offline, sweep)
  }

  lemma ReconcileStart(s: Store, offline: set<string>, sweep: Sweep)
    ensures ReconcilePart(s, s.pending.Keys, offline, sweep) == s
  {
  }

  /** What a recovery pass writes for one index entry. */
  function ReconcileEntry(s: Store, id: string, offline: set<string>, t: Reading): Store {
    var c := Apply(s, Change(id, ReconcileStep(offline, t)));
    if KeepsIndexed(c.dispatch, id, t.look) then c else Apply(c, DropIndex(id))
  }

  /** The program skips an entry it need not write, to the same effect. */
  lemma ReconcileEntryCases(s: Store, id: string, offline: set<string>, t: Reading)
    ensures id !in s.dispatch || Live(s.dispatch[id], t.look) ==> ReconcileEntry(s, id, offline, t) == s
    ensures (&& id in s.dispatch && s.dispatch[id].outcome.None? && !Opaque(s.dispatch[id])
             && (s.dispatch[id].computerId !in offline || s.dispatch[id].orphaned)) ==>
              ReconcileEntry(s, id, offline, t) == s
    ensures id in s.dispatch && !Live(s.dispatch[id], t.look) ==>
              var r := After(s.dispatch[id], ReconcileStep(offline, t));
              ReconcileEntry(s, id, offline, t) ==
              Store(s.dispatch[id := r], if r.outcome.Some? then s.pending - {id} else s.pending)
  {
    if id in s.dispatch {
      assert s.dispatch[id := s.dispatch[id]] == s.dispatch;
    }
  }

  lemma ReconcileNext(s: Store, todo: set<string>, offline: set<string>, sweep: Sweep, id: string)
    requires todo <= s.pending.Keys && id in todo
    ensures ReconcilePart(s, todo - {id}, offline, sweep) == ReconcileEntry(ReconcilePart(s, todo, offline, sweep), id, offline, sweep(id))
  {
    var t, u := ReconcilePart(s, todo, offline, sweep), ReconcilePart(s, todo - {id}, offline, sweep);
    var c := Apply(t, Change(id, ReconcileStep(offline, sweep(id))));
    assert u.dispatch == c.dispatch;
  }

  lemma ReconcileEnd(s: Store, offline: set<string>, sweep: Sweep)
    requires Covered(s)
    ensures Recovered(s, offline, sweep).dispatch == Reconciled(s.dispatch, offline, sweep)
    ensures Recovered(s, offline, sweep).pending ==
            map id | id in s.pending && !(&& id in s.dispatch && Reconciled(s.dispatch, offline, sweep)[id].outcome.Some?
                                          && !Live(s.dispatch[id], sweep(id).look)) :: s.pending[id]
  {
    forall id | id in s.dispatch && id !in s.pending
      ensures After(s.dispatch[id], ReconcileStep(offline, sweep(id))) == s.dispatch[id]
    {
      assert !Unfinished(s, id);
      ReconcileMeaning(s.dispatch[id], offline, ReconcileStep(offline, sweep(id)));
    }
  }

  /** Pruning that has not looked at the records in `todo` yet. It also deletes what completed exactly at the cutoff. */
  function PrunePart(d: map<string, Dispatch>, todo: set<string>, cutoff: int): map<string, Dispatch> {
    map id | id in d && (id in todo || !Expired(d[id], cutoff + 1)) :: d[id]
  }

  function Pruned(d: map<string, Dispatch>, cutoff: int): map<string, Dispatch> {
    PrunePart(d, {}, cutoff)
  }

  lemma PruneStart(d: map<string, Dispatch>, cutoff: int)
    ensures PrunePart(d, d.Keys, cutoff) == d
  {
  }

  lemma PruneStep(d: map<string, Dispatch>, todo: set<string>, cutoff: int, id: string)
    requires todo <= d.Keys && id in todo
    ensures var e := PrunePart(d, todo, cutoff);
            && id in e && e[id] == d[id]
            && PrunePart(d, todo - {id}, cutoff) == (if Expired(d[id], cutoff + 1) then e - {id} else e)
            && |e - {id}| == |e| - 1
  {
    var e := PrunePart(d, todo, cutoff);
    assert (e - {id}).Keys == e.Keys - {id};
    assert |(e - {id}).Keys| == |e.Keys| - 1;
  }
}
