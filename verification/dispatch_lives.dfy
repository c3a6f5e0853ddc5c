/**
 The lives of records in the log of the store. A record may be created, deleted and created again; between a
 creation and the next deletion its updates form one run, so what is proved of runs holds in every log that
 any mixture of processes writes.
 */
module DispatchLives {
  import opened Options
  import opened DispatchRecord
  import opened DispatchRuns
  import opened DispatchStore

  /** Write `i` of the log is an atomic update of `id`. */
  predicate Updates(log: seq<Write>, i: int, id: string) {
    0 <= i < |log| && log[i].Change? && log[i].id == id
  }

  /** The updates of one id follow one nondecreasing clock, and its claims draw fresh lease tokens. */
  ghost predicate Orderly(log: seq<Write>, id: string) {
    && (forall i :: Updates(log, i, id) ==> log[i].step.guard <= log[i].step.stamp && MIN_LEASE_MS <= log[i].step.leaseMs)
    && (forall i, j :: i < j && Updates(log, i, id) && Updates(log, j, id) ==> log[i].step.stamp <= log[j].step.guard)
    && (forall i :: Updates(log, i, id) && log[i].step.op.Claim? ==> log[i].step.op.token != "")
    && (forall i, j :: i < j && Updates(log, i, id) && Updates(log, j, id) && log[i].step.op.Claim? && log[j].step.op.Claim? ==>
          log[i].step.op.token != log[j].step.op.token)
  }

  /** The updates of `id` after position `born` and before position `n`, in order, refused ones included. */
  function Since(log: seq<Write>, id: string, born: nat, n: nat): seq<Step>
    requires n <= |log|
  {
    if n <= born + 1 then []
    else Since(log, id, born, n - 1) + if Updates(log, n - 1, id) then [log[n - 1].step] else []
  }

  lemma {:induction false} StepsOccur(log: seq<Write>, id: string, born: nat, n: nat, m: nat) returns (i: nat)
    requires n <= |log| && m < |Since(log, id, born, n)|
    ensures born < i < n && log[i] == Change(id, Since(log, id, born, n)[m])
  {
    if m < |Since(log, id, born, n - 1)| {
      i := StepsOccur(log, id, born, n - 1, m);
    } else {
      i := n - 1;
    }
  }

  /** The step is an update of `id` somewhere in the log. */
  ghost predicate Occurs(log: seq<Write>, id: string, step: Step) {
    exists w :: Updates(log, w, id) && log[w].step == step
  }

  lemma StepsAreUpdates(log: seq<Write>, id: string, born: nat, n: nat)
    requires n <= |log|
    ensures forall step <- Since(log, id, born, n) :: Occurs(log, id, step)
  {
    forall step | step in Since(log, id, born, n) ensures Occurs(log, id, step) {
      var m :| 0 <= m < |Since(log, id, born, n)| && Since(log, id, born, n)[m] == step;
      var w := StepsOccur(log, id, born, n, m);
      assert Updates(log, w, id);
    }
  }

  lemma {:induction false} SinceGrows(log: seq<Write>, id: string, born: nat, i: nat, j: nat)
    requires i <= j <= |log|
    ensures Since(log, id, born, i) <= Since(log, id, born, j)
  {
    if i < j { SinceGrows(log, id, born, i, j - 1); }
  }

  /** One life of a record: where in the log it was created, and the run it has gone through since. */
  datatype Life = Life(born: nat, run: Run)

  function RecordAt(s: Store, log: seq<Write>, n: nat, id: string): Option<Dispatch>
    requires n <= |log|
  {
    Lookup(Replay(s, log, n), id)
  }

  /** After `k` writes the store holds what the run says. */
  predicate Shows(s: Store, log: seq<Write>, id: string, life: Life, k: nat) {
    && k <= |log| && |Since(log, id, life.born, k)| < |life.run.records|
    && RecordAt(s, log, k, id) == Some(life.run.records[|Since(log, id, life.born, k)|])
  }

  /**
   The life of `id` at the moment when `n` writes were made: its run is made of exactly the updates since its
   creation, it was not deleted since, and the store follows the run at every write.
   */
  ghost predicate IsLife(s: Store, log: seq<Write>, n: nat, id: string, life: Life) {
    && life.born < n <= |log| && log[life.born].Create? && log[life.born].id == id
    && RecordAt(s, log, life.born, id).None?
    && (forall k :: life.born < k < n ==> log[k] != Drop(id))
    && ValidRun(life.run) && life.run.steps == Since(log, id, life.born, n)
    && forall k :: life.born < k <= n ==> Shows(s, log, id, life, k)
  }

  /** An update that follows all steps of a run in an orderly log makes the run longer. */
  lemma ExtendRun(run: Run, log: seq<Write>, id: string, born: nat, n: nat) returns (longer: Run)
    requires Updates(log, n, id) && ValidRun(run) && run.steps == Since(log, id, born, n) && Orderly(log, id)
    ensures ValidRun(longer) && longer.steps == run.steps + [log[n].step]
    ensures longer.records == run.records + [After(run.records[|run.steps|], log[n].step)]
  {
    var step := log[n].step;
    longer := Run(run.records + [After(run.records[|run.steps|], step)], run.steps + [step]);
    forall m | 0 <= m < |run.steps|
      ensures run.steps[m].stamp <= step.guard
      ensures run.steps[m].op.Claim? && step.op.Claim? ==> run.steps[m].op.token != step.op.token
    {
      var i := StepsOccur(log, id, born, n, m);
      assert Updates(log, i, id);
    }
    assert Connected(longer);
  }

  /**
   Read one id out of a log written by any mixture of processes: since its latest creation the record has
   gone through a valid run, whose steps are all of its updates in the log and no others.
   */
  lemma {:induction false} RecordRunsInLog(s: Store, log: seq<Write>, n: nat, id: string) returns (life: Life)
    requires n <= |log| && id !in s.dispatch && Orderly(log, id) && RecordAt(s, log, n, id).Some?
    ensures IsLife(s, log, n, id, life)
  {
    var w := log[n - 1];
    if RecordAt(s, log, n - 1, id).None? {
      life := Life(n - 1, Run([NewRecord(w.computerId, w.request)], []));
    } else {
      life := RecordRunsInLog(s, log, n - 1, id);
      if Updates(log, n - 1, id) {
        var longer := ExtendRun(life.run, log, id, life.born, n - 1);
        LifeGoesOn(s, log, n, id, life, longer);
        life := Life(life.born, longer);
      } else {
        assert Shows(s, log, id, life, n - 1);
      }
    }
  }

  lemma LifeGoesOn(s: Store, log: seq<Write>, n: nat, id: string, life: Life, longer: Run)
    requires 0 < n && IsLife(s, log, n - 1, id, life) && Updates(log, n - 1, id) && ValidRun(longer)
    requires longer.steps == life.run.steps + [log[n - 1].step]
    requires longer.records == life.run.records + [After(life.run.records[|life.run.steps|], log[n - 1].step)]
    ensures IsLife(s, log, n, id, Life(life.born, longer))
  {
    forall k | life.born < k <= n ensures Shows(s, log, id, Life(life.born, longer), k) {
      assert Shows(s, log, id, life, if k < n then k else n - 1);
    }
  }

  // ----- What the runs prove about the log -----

  /** What the caller of update `i` was told. */
  function ReplyAt(s: Store, log: seq<Write>, i: nat): Reply
    requires i < |log| && log[i].Change?
  {
    ReplyTo(RecordAt(s, log, i, log[i].id), log[i].step)
  }

  /** No deletion of `id` from position `i` up to position `j`. */
  predicate Undeleted(log: seq<Write>, id: string, i: nat, j: nat) {
    forall k :: i <= k < j && k < |log| ==> log[k] != Drop(id)
  }

  lemma {:induction false} StaysUntilDeleted(s: Store, log: seq<Write>, id: string, i: nat, j: nat)
    requires i <= j <= |log| && Undeleted(log, id, i, j) && RecordAt(s, log, i, id).Some?
    ensures RecordAt(s, log, j, id).Some?
  {
    if i < j { StaysUntilDeleted(s, log, id, i, j - 1); }
  }

  /** Step `m` of the run is update `i` of the log: the same step, met by the same record. */
  predicate Matches(s: Store, log: seq<Write>, id: string, run: Run, m: nat, i: nat) {
    && m < |run.steps| < |run.records| && Updates(log, i, id)
    && run.steps[m] == log[i].step && RecordAt(s, log, i, id) == Some(run.records[m])
  }

  /** Where in the run an update of the log is found; a later update is found later. */
  lemma UpdateInLife(s: Store, log: seq<Write>, n: nat, id: string, life: Life, i: nat, j: nat) returns (m: nat)
    requires IsLife(s, log, n, id, life) && life.born < i <= j < n && Updates(log, i, id)
    ensures m == |Since(log, id, life.born, i)| && Matches(s, log, id, life.run, m, i)
    ensures i < j ==> m < |Since(log, id, life.born, j)|
  {
    m := |Since(log, id, life.born, i)|;
    assert Shows(s, log, id, life, i);
    SinceGrows(log, id, life.born, i + 1, n);
    if i < j { SinceGrows(log, id, life.born, i + 1, j); }
  }

  /** A record that was there before write `i` and not deleted since is still in the life it had then. */
  lemma LifeAt(s: Store, log: seq<Write>, id: string, i: nat, n: nat) returns (life: Life)
    requires id !in s.dispatch && Orderly(log, id) && i < n <= |log| && Undeleted(log, id, i, n) && RecordAt(s, log, i, id).Some?
    ensures IsLife(s, log, n, id, life) && life.born < i
  {
    StaysUntilDeleted(s, log, id, i, n);
    life := RecordRunsInLog(s, log, n, id);
    if i <= life.born { StaysUntilDeleted(s, log, id, i, life.born); }
  }

  /** Three updates of one life, in one run. */
  lemma InOneRun(s: Store, log: seq<Write>, id: string, i: nat, j: nat, k: nat) returns (run: Run, a: nat, b: nat, c: nat)
    requires id !in s.dispatch && Orderly(log, id) && i <= j <= k && Undeleted(log, id, i, k)
    requires Updates(log, i, id) && Updates(log, j, id) && Updates(log, k, id) && RecordAt(s, log, i, id).Some?
    ensures ValidRun(run) && Matches(s, log, id, run, a, i) && Matches(s, log, id, run, b, j) && Matches(s, log, id, run, c, k)
    ensures (i < j ==> a < b) && (j < k ==> b < c)
    ensures forall step <- run.steps :: Occurs(log, id, step)
  {
    assert Undeleted(log, id, i, k + 1);
    var life := LifeAt(s, log, id, i, k + 1);
    run := life.run;
    a := UpdateInLife(s, log, k + 1, id, life, i, j);
    b := UpdateInLife(s, log, k + 1, id, life, j, k);
    c := UpdateInLife(s, log, k + 1, id, life, k, k);
    StepsAreUpdates(log, id, life.born, k + 1);
  }

  /** Whatever processes write, two commits of one id are answered `committed` only if it was deleted in between. */
  lemma CommittedOncePerLife(s: Store, log: seq<Write>, id: string, i: nat, j: nat)
    requires id !in s.dispatch && Orderly(log, id) && i < j && Updates(log, i, id) && Updates(log, j, id)
    requires ReplyAt(s, log, i).Committed? && ReplyAt(s, log, j).Committed?
    ensures !Undeleted(log, id, i, j)
  {
    if Undeleted(log, id, i, j) {
      var run, a, b, _ := InOneRun(s, log, id, i, j, j);
      CommitAtMostOnce(run, a, b);
    }
  }

  /** Whatever processes write, an id that must not be replayed is leased twice only if it was deleted in between. */
  lemma OpaqueLeasedOncePerLife(s: Store, log: seq<Write>, id: string, i: nat, j: nat)
    requires id !in s.dispatch && Orderly(log, id) && i < j && Updates(log, i, id) && Updates(log, j, id)
    requires ReplyAt(s, log, i).Leased? && ReplyAt(s, log, j).Leased?
    requires RecordAt(s, log, j, id).value.request.replayPolicy != ReadOnly
    ensures !Undeleted(log, id, i, j)
  {
    if Undeleted(log, id, i, j) {
      var run, a, b, _ := InOneRun(s, log, id, i, j, j);
      AttemptCountsClaims(run, b);
      OpaqueClaimedAtMostOnce(run, a, b);
    }
  }

  /** A worker whose record was claimed by another since is refused everything, at any later point of the log. */
  lemma OldHolderIsFencedInLog(s: Store, log: seq<Write>, id: string, i: nat, j: nat, k: nat)
    requires id !in s.dispatch && Orderly(log, id) && i < j < k && Undeleted(log, id, i, k)
    requires Updates(log, i, id) && Updates(log, j, id) && Updates(log, k, id)
    requires ReplyAt(s, log, i).Leased? && ReplyAt(s, log, j).Leased? && UsesToken(log[k].step, log[i].step.op.token)
    ensures ReplyAt(s, log, k) == Refused(LeaseLost)
  {
    var run, a, b, c := InOneRun(s, log, id, i, j, k);
    OldHolderIsFenced(run, a, b, c);
  }

  /** With one lease duration, a claim in the log starts when every interval granted before it in this life is over. */
  lemma LeasesDoNotOverlapInLog(s: Store, log: seq<Write>, id: string, i: nat, j: nat, d: int)
    requires id !in s.dispatch && Orderly(log, id) && i < j && Undeleted(log, id, i, j)
    requires Updates(log, i, id) && Updates(log, j, id) && ReplyAt(s, log, j).Leased?
    requires ReplyAt(s, log, i).Leased? || (log[i].step.op.Renew? && ReplyAt(s, log, i).Stored?)
    requires forall w :: Updates(log, w, id) && (log[w].step.op.Claim? || log[w].step.op.Renew?) ==> log[w].step.leaseMs == d
    ensures log[i].step.stamp + d <= log[j].step.guard
  {
    var run, a, b, _ := InOneRun(s, log, id, i, j, j);
    assert forall m :: 0 <= m < |run.steps| ==> Occurs(log, id, run.steps[m]);
    assert Grants(run, a, log[i].step.op.token, log[i].step.stamp + d);
    UniformLeasesDoNotOverlap(run, a, b, log[i].step.op.token, log[i].step.stamp + d, d);
  }
}
