/**
 The dispatcher object of one API process: its cache of unfinished records, its open worker streams and
 the shared store. Operations of several processes may follow each other in any order, so nothing is
 assumed about the cache when an operation starts.
 */
module TaskDispatch {
  import opened Options
  import opened DispatchRecord
  import opened DispatchStore

  const MAX_QUEUED_PER_COMPUTER := 100

  datatype DispatchReply = Accepted | QueueFull | AlreadyDispatched

  /** What a worker stream is sent: unfinished when its turn comes, not under a live lease, for a connected computer. */
  predicate Deliverable(d: map<string, Dispatch>, streams: set<string>, only: Option<string>, clock: Clock, id: string) {
    && id in d && d[id].outcome.None? && !Live(d[id], clock(id))
    && d[id].computerId in streams && (only.None? || only.value == d[id].computerId)
  }

  class TaskDispatcher {
    var store: Store
    var records: map<string, Dispatch>
    var streams: set<string>
    const leaseMs: int
    const retentionMs: Option<int>
    ghost var base: Store
    ghost var log: seq<Write>

    /** The store is what the logged writes made of its contents after start-up, and every write kept the discipline. */
    ghost predicate Valid()
      reads this
    {
      MIN_LEASE_MS <= leaseMs && store == Replay(base, log, |log|) && AllDisciplined(base, log)
    }

    constructor (contents: Store, leaseMs: int, retentionMs: Option<int>)
      requires MIN_LEASE_MS <= leaseMs
      ensures Valid() && store == base == contents && records == map[] && streams == {} && log == []
      ensures this.leaseMs == leaseMs && this.retentionMs == retentionMs
    {
      this.leaseMs, this.retentionMs := leaseMs, retentionMs;
      store, base, log := contents, contents, [];
      records, streams := map[], {};
    }

    /** One write to the store. Stopping here leaves exactly the replay of the log behind. */
    method PutRaw(w: Write)
      requires store == Replay(base, log, |log|)
      modifies this`store, this`log
      ensures store == Apply(old(store), w) == Replay(base, log, |log|) && log == old(log) + [w]
      ensures old(AllDisciplined(base, log) && Disciplined(store, w)) ==> AllDisciplined(base, log)
    {
      ReplayExtend(base, log, w);
      store := Apply(store, w);
      log := log + [w];
    }

    /** A write in the order the dispatcher keeps. */
    method Put(w: Write)
      requires Valid() && Disciplined(store, w)
      modifies this`store, this`log
      ensures Valid() && store == Apply(old(store), w) && log == old(log) + [w]
      ensures old(Covered(store)) ==> Covered(store)
    {
      CoverageStep(store, w);
      PutRaw(w);
    }

    /** One atomic read-modify-write of a record, logged whatever it is told; a callback that throws changes nothing. */
    method AtomicUpdate(id: string, step: Step) returns (result: Result<Dispatch>)
      requires Valid()
      modifies this`store, this`log
      ensures Valid() && old(log) <= log && (old(Covered(store)) ==> Covered(store))
      ensures result == Update(Lookup(old(store), id), step)
      ensures store.dispatch == Changed(old(store), id, step)
      ensures log == old(log) + [Change(id, step)] && store.pending == old(store).pending
      ensures result.Err? ==> store == old(store)
      ensures result.Ok? ==> store.dispatch == old(store).dispatch[id := result.value]
    {
      result := Update(Lookup(store, id), step);
      RefusedChangesNothing(store, id, step);
      Put(Change(id, step));
    }

    /** Forgets a finished record: the cache entry, then the index entry. */
    method Forget(id: string)
      requires Valid() && !Unfinished(store, id)
      modifies this`store, this`log, this`records
      ensures Valid() && old(log) <= log && (old(Covered(store)) ==> Covered(store))
      ensures store == old(store).(pending := old(store).pending - {id}) && records == old(records) - {id}
    {
      records := records - {id};
      Put(DropIndex(id));
    }

    /**
     Start-up scan, whatever the store holds: index every unfinished record, drop completed ones past their
     retention. `writes` are its own writes; the log of the dispatcher begins after it.
     */
    method ReconcileIndex(now: int, clock: Clock) returns (ghost writes: seq<Write>)
      requires Valid() && store == base && log == []
      modifies this`store, this`log, this`base
      ensures Valid() && store == base && log == []
      ensures Reindexed(old(store), StartupCutoff(retentionMs, now), clock, store)
      ensures store == Replay(old(store), writes, |writes|)
      ensures WellKeyed(old(store)) ==> AllDisciplined(old(store), writes)
    {
      ReindexAll(StartupCutoff(retentionMs, now), clock);
      writes, base, log := log, store, [];
    }

    method ReindexAll(cutoff: Option<int>, clock: Clock)
      requires store == base && log == []
      modifies this`store, this`log
      ensures store == Replay(base, log, |log|) && Reindexed(base, cutoff, clock, store)
      ensures WellKeyed(base) ==> AllDisciplined(base, log)
    {
      var indexed := store.pending.Keys;
      var first := store;
      var todo := first.dispatch.Keys;
      ghost var seen: set<string> := {};
      ReindexStart(first, cutoff, clock);
      while todo != {}
        invariant store == Replay(base, log, |log|) && seen + todo == first.dispatch.Keys
        invariant Reindexing(first, seen, cutoff, clock, store)
        invariant WellKeyed(first) ==> AllDisciplined(base, log)
        decreases |todo|
      {
        var key :| key in todo;
        ReindexOne(first, seen, key, indexed, cutoff, clock);
        todo := todo - {key};
        seen := seen + {key};
      }
      assert seen == first.dispatch.Keys;
    }

    /** The body of the start-up scan for one record, which it takes to be filed under the id of its request. */
    method ReindexOne(first: Store, ghost seen: set<string>, key: string, indexed: set<string>, cutoff: Option<int>, clock: Clock)
      requires store == Replay(base, log, |log|) && key in first.dispatch && indexed == first.pending.Keys
      requires Reindexing(first, seen, cutoff, clock, store)
      modifies this`store, this`log
      ensures store == Replay(base, log, |log|)
      ensures Reindexing(first, seen + {key}, cutoff, clock, store)
      ensures old(AllDisciplined(base, log)) && WellKeyed(first) ==> AllDisciplined(base, log)
    {
      ReindexStep(first, seen, cutoff, clock, key, store);
      if WellKeyed(first) { ReindexDisciplined(first, seen, cutoff, clock, key, store); }
      var record := first.dispatch[key];
      var id := record.request.requestId;
      if record.outcome.None? {
        if id !in indexed {
          PutRaw(PutIndex(id, IndexEntry(record.computerId, Some(clock(key)))));
        }
      } else if cutoff.Some? && record.completedAt.Some? && record.completedAt.value < cutoff.value {
        PutRaw(Drop(id));
      }
    }

    /** Reload the cache from the index; drop index entries of finished or never-written records. */
    method Refresh(clock: Clock)
      requires Valid()
      modifies this`store, this`log, this`records
      ensures Valid() && old(log) <= log && (Covered(store) <==> old(Covered(store)))
      ensures store == Refreshed(old(store), clock)
      ensures records == IndexScan(store)
      ensures Covered(store) <==> records == FullScan(store.dispatch)
    {
      var live: set<string> := {};
      var first := store;
      var todo := first.pending.Keys;
      RefreshStart(first, clock);
      while todo != {}
        invariant Valid() && old(log) <= log && todo <= first.pending.Keys
        invariant store == RefreshPart(first, todo, clock)
        invariant live == Seen(first, todo) && store.dispatch == first.dispatch
        invariant forall id <- live :: id in records && records[id] == first.dispatch[id]
        decreases |todo|
      {
        var id :| id in todo;
        RefreshStep(first, todo, clock, id);
        var unfinished := RefreshOne(id, first.pending[id], clock(id));
        if unfinished {
          live := live + {id};
        }
        todo := todo - {id};
      }
      RefreshEnd(first, clock, records, live);
      records := map id | id in records && id in live :: records[id];
    }

    /** The body of the refresh loop for one index entry. */
    method RefreshOne(id: string, entry: IndexEntry, now: int) returns (unfinished: bool)
      requires Valid()
      modifies this`store, this`log, this`records
      ensures Valid() && old(log) <= log
      ensures store == RefreshEntry(old(store), id, entry, now)
      ensures unfinished == Unfinished(old(store), id)
      ensures records == if unfinished then old(records)[id := old(store).dispatch[id]] else old(records)
    {
      unfinished := false;
      var record := Lookup(store, id);
      if record.None? {
        if now - EntryTime(entry) > ORPHAN_INDEX_MS {
          Put(DropIndex(id));
        }
      } else if record.value.outcome.Some? {
        Put(DropIndex(id));
      } else {
        unfinished := true;
        records := records[id := record.value];
      }
    }

    /** The two writes of a dispatch, the index entry first. */
    method Enqueue(computerId: string, request: Request, now: int) returns (reply: DispatchReply)
      requires Valid() && Covered(store)
      modifies this`store, this`log, this`records
      ensures Valid() && old(log) <= log && Covered(store)
      ensures reply == if request.requestId in old(store).dispatch then AlreadyDispatched else Accepted
      ensures store.pending == old(store).pending[request.requestId := IndexEntry(computerId, Some(now))]
      ensures reply.AlreadyDispatched? ==> store.dispatch == old(store).dispatch && records == old(records)
      ensures reply.Accepted? ==> store.dispatch == old(store).dispatch[request.requestId := NewRecord(computerId, request)]
                                  && records == old(records)[request.requestId := NewRecord(computerId, request)]
    {
      var id := request.requestId;
      Put(PutIndex(id, IndexEntry(computerId, Some(now))));
      if id in store.dispatch { return AlreadyDispatched; }
      Put(Create(id, computerId, request));
      records := records[id := NewRecord(computerId, request)];
      reply := Accepted;
    }

    /** Accepts a request unless the computer's queue is full or the id is taken, and offers it to a connected worker at once. */
    method Dispatch(computerId: string, request: Request, clock: Clock, now: int) returns (reply: DispatchReply, sent: bool)
      requires Valid() && Covered(store)
      modifies this`store, this`log, this`records
      ensures Valid() && old(log) <= log && Covered(store)
      ensures var d := old(store).dispatch;
              var queue := set id | id in d && d[id].outcome.None? && d[id].computerId == computerId;
              reply == if |queue| >= 100 then QueueFull
                       else if request.requestId in old(store).dispatch then AlreadyDispatched else Accepted
      ensures store.dispatch == if reply.Accepted?
                                then old(store).dispatch[request.requestId := NewRecord(computerId, request)]
                                else old(store).dispatch
      ensures var index := Refreshed(old(store), clock).pending;
              store.pending == if reply.QueueFull? then index else index[request.requestId := IndexEntry(computerId, Some(now))]
      ensures records == FullScan(store.dispatch)
      ensures sent <==> reply.Accepted? && computerId in streams
    {
      Refresh(clock);
      var queue := set id | id in records && records[id].computerId == computerId && records[id].outcome.None?;
      QueueFromCache(store.dispatch, computerId);
      if |queue| >= MAX_QUEUED_PER_COMPUTER { return QueueFull, false; }
      ghost var before := store.dispatch;
      reply := Enqueue(computerId, request, now);
      sent := reply.Accepted? && computerId in streams;
      ScanOfNew(before, request.requestId, NewRecord(computerId, request));
    }

    method ClaimTask(id: string, computerId: string, token: string, guard: int, stamp: int) returns (reply: Reply)
      requires Valid() && Covered(store)
      modifies this`store, this`log, this`records
      ensures Valid() && old(log) <= log && Covered(store)
      ensures var step := Step(Claim(computerId, token), guard, stamp, leaseMs);
              && reply == ReplyTo(Lookup(old(store), id), step)
              && store.dispatch == Changed(old(store), id, step)
      ensures reply.Leased? ==> store.pending == old(store).pending && records == old(records)[id := store.dispatch[id]]
      ensures reply.Refused? ==>
                if store.dispatch == old(store).dispatch
                then store.pending == old(store).pending && records == old(records)
                else store.pending == old(store).pending - {id} && records == old(records) - {id}
    {
      var step := Step(Claim(computerId, token), guard, stamp, leaseMs);
      var result := AtomicUpdate(id, step);
      if result.Err? { return Refused(result.error); }
      if result.value.outcome.Some? {
        Forget(id);
        return Refused(ResourceBusy);
      }
      records := records[id := result.value];
      reply := Leased(result.value.lease.value, result.value.attempt);
    }

    /** Recovery: end expired opaque attempts, mark safe work of offline computers, before anything is redelivered. */
    method ReconcileAll(offline: set<string>, sweep: Sweep)
      requires Valid() && Covered(store) && Forward(sweep)
      modifies this`store, this`log, this`records
      ensures Valid() && old(log) <= log && Covered(store)
      ensures store == Recovered(old(store), offline, sweep)
      ensures store.dispatch == Reconciled(old(store).dispatch, offline, sweep)
      ensures records == old(records) - (old(store).pending.Keys - store.pending.Keys)
    {
      var todo := store.pending.Keys;
      ghost var first, cached := store, records;
      ReconcileStart(first, offline, sweep);
      while todo != {}
        invariant Valid() && old(log) <= log && Covered(store) && todo <= first.pending.Keys
        invariant store == ReconcilePart(first, todo, offline, sweep)
        invariant records == cached - (first.pending.Keys - store.pending.Keys)
        decreases |todo|
      {
        var id :| id in todo;
        ghost var index := store.pending.Keys;
        ReconcileNext(first, todo, offline, sweep, id);
        ReconcileOne(id, offline, sweep(id));
        ForgetNext(cached, first.pending.Keys, index, store.pending.Keys);
        todo := todo - {id};
      }
      ReconcileEnd(first, offline, sweep);
    }

    /** The body of the recovery loop for one index entry. */
    method ReconcileOne(id: string, offline: set<string>, t: Reading)
      requires Valid() && Covered(store) && id in store.pending && t.look <= t.guard <= t.stamp
      modifies this`store, this`log, this`records
      ensures Valid() && old(log) <= log && Covered(store)
      ensures store == ReconcileEntry(old(store), id, offline, t) && store.pending.Keys <= old(store).pending.Keys
      ensures records == old(records) - (old(store).pending.Keys - store.pending.Keys)
    {
      var candidate := Lookup(store, id);
      ReconcileEntryCases(store, id, offline, t);
      if candidate.None? || Live(candidate.value, t.look) { return; }
      if candidate.value.outcome.None? && !Opaque(candidate.value)
         && (candidate.value.computerId !in offline || candidate.value.orphaned) { return; }
      FirstLookDecides(candidate.value, offline, t, leaseMs);
      var result := AtomicUpdate(id, Step(Reconcile(offline), t.guard, t.stamp, leaseMs));
      if result.Ok? && result.value.outcome.Some? {
        Forget(id);
      }
    }

    method CancelTask(id: string, guard: int, stamp: int) returns (reply: Reply)
      requires Valid() && Covered(store)
      modifies this`store, this`log, this`records
      ensures Valid() && old(log) <= log && Covered(store)
      ensures var step := Step(Cancel, guard, stamp, leaseMs);
              reply == ReplyTo(Lookup(old(store), id), step) && store.dispatch == Changed(old(store), id, step)
      ensures reply.Stored? ==> store.pending == old(store).pending - {id} && records == old(records) - {id}
      ensures reply.Stored? <==> id in old(store).dispatch
      ensures reply.Stored? && id in store.dispatch ==>
                var r, end := old(store).dispatch[id], store.dispatch[id];
                if r.outcome.Some? then end == r else EndedAs(r, end, "CANCELLED", Cancelled(r.attempt), stamp)
    {
      var result := AtomicUpdate(id, Step(Cancel, guard, stamp, leaseMs));
      if result.Err? { return Refused(result.error); }
      Forget(id);
      reply := Stored;
    }

    method RenewLease(id: string, token: string, guard: int, stamp: int) returns (reply: Reply)
      requires Valid() && Covered(store)
      modifies this`store, this`log, this`records
      ensures Valid() && old(log) <= log && Covered(store) && store.pending == old(store).pending
      ensures var step := Step(Renew(token), guard, stamp, leaseMs);
              reply == ReplyTo(Lookup(old(store), id), step) && store.dispatch == Changed(old(store), id, step)
      ensures reply.Stored? ==> records == old(records)[id := store.dispatch[id]]
    {
      var result := AtomicUpdate(id, Step(Renew(token), guard, stamp, leaseMs));
      if result.Err? { return Refused(result.error); }
      records := records[id := result.value];
      reply := Stored;
    }

    method RecordEvent(id: string, event: Event, token: string, guard: int, stamp: int) returns (reply: Reply)
      requires Valid() && Covered(store)
      modifies this`store, this`log, this`records
      ensures Valid() && old(log) <= log && Covered(store) && store.pending == old(store).pending
      ensures var step := Step(Report(event, token), guard, stamp, leaseMs);
              reply == ReplyTo(Lookup(old(store), id), step) && store.dispatch == Changed(old(store), id, step)
      ensures reply.Stored? ==> records == old(records)[id := store.dispatch[id]]
    {
      var result := AtomicUpdate(id, Step(Report(event, token), guard, stamp, leaseMs));
      if result.Err? { return Refused(result.error); }
      records := records[id := result.value];
      reply := Stored;
    }

    method CommitOutcome(id: string, outcome: Outcome, token: string, guard: int, stamp: int) returns (reply: Reply)
      requires Valid() && Covered(store)
      modifies this`store, this`log, this`records
      ensures Valid() && old(log) <= log && Covered(store)
      ensures var step := Step(Commit(outcome, token), guard, stamp, leaseMs);
              reply == ReplyTo(Lookup(old(store), id), step) && store.dispatch == Changed(old(store), id, step)
      ensures !reply.Refused? ==> !Unfinished(store, id) && store.pending == old(store).pending - {id}
                                  && records == old(records) - {id}
    {
      var committed := !Acknowledged(Lookup(store, id), token);
      var result := AtomicUpdate(id, Step(Commit(outcome, token), guard, stamp, leaseMs));
      if result.Err? { return Refused(result.error); }
      CommitFinishes(Lookup(old(store), id), outcome, token, Step(Commit(outcome, token), guard, stamp, leaseMs));
      Forget(id);
      reply := if committed then Committed else Duplicate;
    }

    /**
     Sends every deliverable request once. Recovery runs first, but it looked at the clock earlier: a request
     whose last lease ran out between its look and the turn of the request is sent although nobody may claim it
     any more. Everything else that is sent could be claimed at that moment.
     */
    method Redeliver(only: Option<string>, sweep: Sweep, refresh: Clock, send: Clock) returns (sent: seq<string>)
      requires Valid() && Covered(store) && Forward(sweep)
      modifies this`store, this`log, this`records
      ensures Valid() && old(log) <= log && Covered(store)
      ensures store == Refreshed(Recovered(old(store), {}, sweep), refresh) && records == FullScan(store.dispatch)
      ensures forall id :: id in sent <==> Deliverable(store.dispatch, streams, only, send, id)
      ensures forall id <- sent :: id in store.dispatch && store.dispatch[id].computerId in streams
                                   && (only.Some? ==> store.dispatch[id].computerId == only.value)
      ensures forall id <- store.dispatch ::
                var r := store.dispatch[id];
                && PhaseAt(r, send(id)) in {Free, Spent} && r.computerId in streams && only in {None, Some(r.computerId)} ==> id in sent
      ensures forall i, j :: 0 <= i < j < |sent| ==> sent[i] != sent[j]
      ensures forall id <- sent :: id in old(store).dispatch && id in store.dispatch
                && (PhaseAt(store.dispatch[id], send(id)).Free? <==> !RunsOut(old(store).dispatch[id], sweep(id).look, send(id)))
    {
      ghost var first := store.dispatch;
      ReconcileAll({}, sweep);
      Refresh(refresh);
      sent := Deliver(only, send);
      forall id | id in sent
        ensures id in first && (PhaseAt(store.dispatch[id], send(id)).Free? <==> !RunsOut(first[id], sweep(id).look, send(id)))
      {
        SentIsFreeIff(first[id], sweep(id), send(id));
      }
    }

    method Deliver(only: Option<string>, send: Clock) returns (sent: seq<string>)
      requires records == FullScan(store.dispatch)
      ensures forall id :: id in sent <==> Deliverable(store.dispatch, streams, only, send, id)
      ensures forall i, j :: 0 <= i < j < |sent| ==> sent[i] != sent[j]
    {
      sent := [];
      var todo := records.Keys;
      while todo != {}
        invariant todo <= records.Keys
        invariant forall i, j :: 0 <= i < j < |sent| ==> sent[i] != sent[j]
        invariant forall id :: id in sent <==> id !in todo && Deliverable(store.dispatch, streams, only, send, id)
        decreases |todo|
      {
        var id :| id in todo;
        var r := records[id];
        if (only.None? || r.computerId == only.value) && r.computerId in streams && r.outcome.None? && !Live(r, send(id)) {
          sent := sent + [id];
        }
        todo := todo - {id};
      }
    }

    /**
     Recovery, then the update, then redelivery, each with its own clock readings. Spent work is refused as
     EXECUTION_TERMINAL because recovery has just ended it, or as UNKNOWN_OUTCOME exactly if its lease ran out
     between the look of recovery and the update.
     */
    method ReassignTask(id: string, to: string, sweep: Sweep, guard: int, stamp: int, again: Sweep, refresh: Clock, send: Clock)
      returns (reply: Reply, sent: seq<string>)
      requires Valid() && Covered(store) && Forward(sweep) && Forward(again)
      modifies this`store, this`log, this`records
      ensures Valid() && old(log) <= log && Covered(store)
      ensures var recovered := Recovered(old(store), {}, sweep);
              var step := Step(Reassign(to), guard, stamp, leaseMs);
              && reply == ReplyTo(Lookup(recovered, id), step)
              && (reply.Refused? ==> store == recovered && sent == [])
              && (reply.Stored? ==>
                    store == Refreshed(Recovered(recovered.(dispatch := Changed(recovered, id, step)), {}, again), refresh))
      ensures reply.Stored? ==> forall other :: other in sent <==> Deliverable(store.dispatch, streams, Some(to), send, other)
      ensures reply == Refused(UnknownOutcome) <==> Unfinished(old(store), id) && RunsOut(old(store).dispatch[id], sweep(id).look, guard)
    {
      sent := [];
      ghost var first := store;
      ReconcileAll({}, sweep);
      if id in first.dispatch { SpentAfterRecoveryIff(first.dispatch[id], sweep(id), Step(Reassign(to), guard, stamp, leaseMs)); }
      var result := AtomicUpdate(id, Step(Reassign(to), guard, stamp, leaseMs));
      if result.Err? { return Refused(result.error), []; }
      records := records[id := result.value];
      sent := Redeliver(Some(to), again, refresh, send);
      reply := Stored;
    }

    /** Deletes completed records that finished at or before `now - keepMs`; everything else stays. */
    method PruneCompleted(keepMs: Option<int>, now: int) returns (pruned: nat)
      requires Valid() && Covered(store)
      modifies this`store, this`log
      ensures Valid() && old(log) <= log && Covered(store) && store.pending == old(store).pending
      ensures store.dispatch == Pruned(old(store).dispatch, PruneCutoff(keepMs, retentionMs, now))
      ensures var keep := match (keepMs, retentionMs) case (Some(k), _) => k case (None, Some(k)) => k case (None, None) => 0;
              forall id <- old(store).dispatch ::
                var r := old(store).dispatch[id];
                if id in store.dispatch then store.dispatch[id] == r && !(r.outcome.Some? && r.completedAt.Some? && r.completedAt.value + keep <= now)
                else r.outcome.Some? && r.completedAt.Some? && r.completedAt.value + keep <= now
      ensures pruned == |old(store).dispatch| - |store.dispatch|
    {
      var cutoff := PruneCutoff(keepMs, retentionMs, now);
      var first := store;
      var todo := first.dispatch.Keys;
      pruned := 0;
      PruneStart(first.dispatch, cutoff);
      while todo != {}
        invariant Valid() && old(log) <= log && Covered(store) && store.pending == first.pending
        invariant todo <= first.dispatch.Keys
        invariant store.dispatch == PrunePart(first.dispatch, todo, cutoff)
        invariant pruned == |first.dispatch| - |store.dispatch|
        decreases |todo|
      {
        var id :| id in todo;
        var record := first.dispatch[id];
        PruneStep(first.dispatch, todo, cutoff, id);
        if record.outcome.Some? && record.completedAt.Some? && record.completedAt.value <= cutoff {
          Put(Drop(id));
          pruned := pruned + 1;
        }
        todo := todo - {id};
      }
    }
  }

  /** Every unfinished record the scan leaves is indexed under its key, or will be. */
  predicate Findable(contents: Store, cutoff: Option<int>) {
    forall key <- contents.dispatch :: Unfinished(contents, key) && key !in DroppedIds(contents.dispatch, contents.dispatch.Keys, cutoff) ==>
      key in contents.pending || key in IndexedIds(contents.dispatch, contents.dispatch.Keys)
  }

  /**
   A process starts on whatever the last one left in the store. If records are filed under their own ids, its
   cache is exactly what a scan of all records finds and no unfinished record was lost; in general, exactly
   if every unfinished record can be found under its key.
   */
  method Start(contents: Store, leaseMs: int, retentionMs: Option<int>, now: int, index: Clock, refresh: Clock)
    returns (d: TaskDispatcher?)
    ensures d == null <==> leaseMs < 100
    ensures d != null && WellKeyed(contents) ==>
              forall id <- contents.dispatch ::
                var r := contents.dispatch[id];
                id in d.store.dispatch <==> !(&& retentionMs.Some? && retentionMs.value != 0 && r.outcome.Some? && r.completedAt.Some?
                                              && r.completedAt.value + retentionMs.value < now)
    ensures d != null ==> fresh(d) && d.Valid() && d.records == IndexScan(d.store)
                          && Reindexed(contents, StartupCutoff(retentionMs, now), index, d.base)
                          && d.store == Refreshed(d.base, refresh)
                          && (d.records == FullScan(d.store.dispatch) <==> Covered(d.store))
                          && (Covered(d.store) <==> Findable(contents, StartupCutoff(retentionMs, now)))
                          && (WellKeyed(contents) ==>
                                Covered(d.store) && WellKeyed(d.store) && d.records == FullScan(contents.dispatch))
  {
    if leaseMs < MIN_LEASE_MS { return null; }
    var t := new TaskDispatcher(contents, leaseMs, retentionMs);
    ghost var _ := t.ReconcileIndex(now, index);
    ghost var scanned := t.store;
    ReindexCoversIff(contents, StartupCutoff(retentionMs, now), index, scanned);
    if WellKeyed(contents) { ReindexCovers(contents, StartupCutoff(retentionMs, now), index, scanned); }
    t.Refresh(refresh);
    d := t;
  }

  function Changed(s: Store, id: string, step: Step): map<string, Dispatch> {
    if id in s.dispatch then s.dispatch[id := After(s.dispatch[id], step)] else s.dispatch
  }

  /** Retention at start-up: undefined or zero keeps completed records forever. */
  function StartupCutoff(retentionMs: Option<int>, now: int): Option<int> {
    if retentionMs.Some? && retentionMs.value != 0 then Some(now - retentionMs.value) else None
  }

  /** Explicit pruning: an undefined retention counts as zero, so it deletes everything completed so far. */
  function PruneCutoff(keepMs: Option<int>, retentionMs: Option<int>, now: int): int {
    now - if keepMs.Some? then keepMs.value else if retentionMs.Some? then retentionMs.value else 0
  }

  /** The completion time for which the two retention rules part. */
  predicate RulesPart(r: Dispatch, retentionMs: Option<int>, now: int) {
    && r.outcome.Some? && r.completedAt.Some?
    && if retentionMs.Some? && retentionMs.value != 0 then r.completedAt.value == now - retentionMs.value
       else r.completedAt.value <= now
  }

  /**
   Exactly when start-up and a pruning call with its defaults leave the same records: under a nonzero
   retention if none completed exactly at the cutoff, otherwise only if nothing has completed so far.
   */
  lemma RetentionRulesAgreeIff(s: Store, t: Store, retentionMs: Option<int>, now: int, clock: Clock)
    requires WellKeyed(s) && Reindexed(s, StartupCutoff(retentionMs, now), clock, t)
    ensures t.dispatch == Pruned(s.dispatch, PruneCutoff(None, retentionMs, now)) <==>
            forall id <- s.dispatch :: !RulesPart(s.dispatch[id], retentionMs, now)
  {
    var pruned := Pruned(s.dispatch, PruneCutoff(None, retentionMs, now));
    ReindexCovers(s, StartupCutoff(retentionMs, now), clock, t);
    forall id | id in s.dispatch ensures (id in t.dispatch <==> id in pruned) <==> !RulesPart(s.dispatch[id], retentionMs, now) {
    }
  }

  /** A record completed at time 0 that start-up keeps and pruning at time 5 deletes, for each kind of retention. */
  lemma RetentionRulesDiffer(retentionMs: Option<int>, t: Store, clock: Clock)
    requires retentionMs in {None, Some(0), Some(5)}
    requires Reindexed(Store(map["a" := Ended("a")], map[]), StartupCutoff(retentionMs, 5), clock, t)
    ensures "a" in t.dispatch && "a" !in Pruned(map["a" := Ended("a")], PruneCutoff(None, retentionMs, 5))
  {
    ReindexCovers(Store(map["a" := Ended("a")], map[]), StartupCutoff(retentionMs, 5), clock, t);
  }

  function Ended(id: string): Dispatch {
    Terminal(NewRecord("w", Request(id, "e", ReadOnly)), CANCELLED, 0)
  }

  // ----- Clock readings that lie apart -----

  /** Unfinished work that must not be replayed, held at the first moment and no longer held at the second. */
  predicate RunsOut(r: Dispatch, look: int, later: int) {
    PhaseAt(r, look).Held? && PhaseAt(r, later).Spent?
  }

  /** A request that is sent is free, or its lease ran out after recovery looked at it. */
  lemma SentIsFreeIff(r: Dispatch, t: Reading, send: int)
    requires var r' := After(r, ReconcileStep({}, t)); r'.outcome.None? && !Live(r', send)
    ensures PhaseAt(After(r, ReconcileStep({}, t)), send).Free? <==> !RunsOut(r, t.look, send)
  {
  }

  lemma SpentAfterRecoveryIff(r: Dispatch, t: Reading, s: Step)
    requires s.op.Reassign?
    ensures ReplyTo(Some(After(r, ReconcileStep({}, t))), s) == Refused(UnknownOutcome) <==>
            r.outcome.None? && RunsOut(r, t.look, s.guard)
  {
  }

  /** Claimed at 0 for 100 ms, looked at by recovery at 99, sent at 100: the worker is offered spent work. */
  lemma SpentWorkIsSent()
    ensures var r := After(NewRecord("w", Request("q", "e", Never)), Step(Claim("w", "a"), 0, 0, 100));
            var recovered := Reconciled(map["q" := r], {}, (id: string) => Reading(99, 99, 99));
            && Deliverable(recovered, {"w"}, None, (id: string) => 100, "q")
            && PhaseAt(recovered["q"], 100).Spent?
  {
  }

  /** Dropping from `first` to `index` and from there to `next` forgets what dropping at once forgets. */
  lemma ForgetNext(cached: map<string, Dispatch>, first: set<string>, index: set<string>, next: set<string>)
    requires next <= index <= first
    ensures cached - (first - index) - (index - next) == cached - (first - next)
  {
  }

  lemma RefusedChangesNothing(s: Store, id: string, step: Step)
    ensures match Update(Lookup(s, id), step)
            case Ok(r) => id in s.dispatch && r == After(s.dispatch[id], step)
            case Err(_) => Changed(s, id, step) == s.dispatch
  {
    if id in s.dispatch { assert s.dispatch[id := s.dispatch[id]] == s.dispatch; }
  }

  lemma QueueFromCache(d: map<string, Dispatch>, computerId: string)
    ensures var scan := FullScan(d);
            (set id | id in scan && scan[id].computerId == computerId && scan[id].outcome.None?) ==
            (set id | id in d && d[id].outcome.None? && d[id].computerId == computerId)
  {
  }

  lemma ScanOfNew(d: map<string, Dispatch>, id: string, r: Dispatch)
    requires r.outcome.None?
    ensures FullScan(d[id := r]) == FullScan(d)[id := r]
  {
  }

  lemma CommitFinishes(cur: Option<Dispatch>, outcome: Outcome, token: string, step: Step)
    requires step.op == Commit(outcome, token) && Update(cur, step).Ok?
    ensures Update(cur, step).value.outcome.Some?
    ensures ReplyTo(cur, step) == if Acknowledged(cur, token) then Duplicate else Committed
  {
  }
}
