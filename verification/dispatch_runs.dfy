/**
 Whole runs of one dispatch record: any number of API processes, workers and recovery sweeps apply
 atomic updates in any order. A run lasts from the dispatch of the record until it is pruned.
 */
module DispatchRuns {
  import opened Options
  import opened DispatchRecord

  /** `records[i]` is what the store holds before `steps[i]`; `records[i + 1]` what it holds after. */
  datatype Run = Run(records: seq<Dispatch>, steps: seq<Step>)

  predicate Connected(run: Run) {
    && |run.records| == |run.steps| + 1
    && forall i :: 0 <= i < |run.steps| ==> run.records[i + 1] == After(run.records[i], run.steps[i])
  }

  /** The clock never goes back, within an update or between updates. */
  predicate Clocked(run: Run) {
    && (forall i :: 0 <= i < |run.steps| ==> run.steps[i].guard <= run.steps[i].stamp && MIN_LEASE_MS <= run.steps[i].leaseMs)
    && (forall i, j :: 0 <= i < j < |run.steps| ==> run.steps[i].stamp <= run.steps[j].guard)
  }

  /** Every claim draws a token of its own. */
  predicate FreshTokens(run: Run) {
    && (forall i :: 0 <= i < |run.steps| && run.steps[i].op.Claim? ==> run.steps[i].op.token != "")
    && (forall i, j :: 0 <= i < j < |run.steps| && run.steps[i].op.Claim? && run.steps[j].op.Claim? ==>
          run.steps[i].op.token != run.steps[j].op.token)
  }

  predicate ValidRun(run: Run) {
    && Connected(run)
    && Clocked(run)
    && FreshTokens(run)
    && run.records[0] == NewRecord(run.records[0].computerId, run.records[0].request)
  }

  function ReplyOf(run: Run, i: nat): Reply
    requires i < |run.steps| < |run.records|
  {
    ReplyTo(Some(run.records[i]), run.steps[i])
  }

  /** Step `i` is a claim that handed out a lease. */
  predicate Claimed(run: Run, i: nat)
    requires |run.steps| < |run.records|
  {
    i < |run.steps| && run.steps[i].op.Claim? && ReplyOf(run, i).Leased?
  }

  predicate Renewed(run: Run, i: nat)
    requires |run.steps| < |run.records|
  {
    i < |run.steps| && run.steps[i].op.Renew? && ReplyOf(run, i).Stored?
  }

  /** Step `i` promised `token` the record until `until`, by a claim or a renewal. */
  predicate Grants(run: Run, i: nat, token: string, until: int)
    requires |run.steps| < |run.records|
  {
    && (Claimed(run, i) || Renewed(run, i))
    && run.steps[i].op.token == token
    && until == run.steps[i].stamp + run.steps[i].leaseMs
  }

  predicate UsesToken(s: Step, token: string) {
    (s.op.Renew? || s.op.Report? || s.op.Commit?) && s.op.token == token
  }

  // ----- The outcome is final -----

  /** A record with an outcome never changes again, whatever is applied to it. */
  lemma {:induction false} OutcomeIsFinal(run: Run, i: nat, j: nat)
    requires Connected(run) && i <= j < |run.records|
    requires run.records[i].outcome.Some?
    ensures run.records[j] == run.records[i]
  {
    if i < j {
      OutcomeIsFinal(run, i, j - 1);
      assert run.records[j - 1 + 1] == After(run.records[j - 1], run.steps[j - 1]);
    }
  }

  /** At most one commit is ever answered `committed`. */
  lemma CommitAtMostOnce(run: Run, i: nat, j: nat)
    requires ValidRun(run) && i < |run.steps| && j < |run.steps|
    requires ReplyOf(run, i).Committed? && ReplyOf(run, j).Committed?
    ensures i == j
  {
    var lo, hi := if i < j then i else j, if i < j then j else i;
    if lo < hi {
      assert run.records[lo + 1].outcome.Some?;
      OutcomeIsFinal(run, lo + 1, hi);
    }
  }

  /** After a commit, the same token is told `duplicate` forever, every other token `LEASE_LOST`, and the result stands. */
  lemma CommitIsAcknowledgedForever(run: Run, i: nat, j: nat)
    requires ValidRun(run) && i < j < |run.steps|
    requires ReplyOf(run, i).Committed? && run.steps[j].op.Commit?
    ensures run.records[j].outcome == Some(run.steps[i].op.outcome)
    ensures run.records[j].completedAt == Some(run.steps[i].stamp)
    ensures ReplyOf(run, j) == if run.steps[j].op.token == run.steps[i].op.token then Duplicate else Refused(LeaseLost)
  {
    assert run.records[i + 1] == After(run.records[i], run.steps[i]);
    OutcomeIsFinal(run, i + 1, j);
  }

  // ----- Who holds the lease -----

  predicate GrantsLease(r: Dispatch, s: Step) {
    (s.op.Claim? && ReplyTo(Some(r), s).Leased?) || (s.op.Renew? && ReplyTo(Some(r), s).Stored?)
  }

  /** An update leaves the lease as it is, clears it, or sets it to exactly what a claim or a renewal grants. */
  lemma LeaseStep(r: Dispatch, s: Step)
    ensures if GrantsLease(r, s) then After(r, s).lease == Some(Lease(s.op.token, s.stamp + s.leaseMs))
            else After(r, s).lease == r.lease || After(r, s).lease.None?
    ensures GrantsLease(r, s) && s.op.Renew? ==> Holds(r, s.op.token)
  {
  }

  /** The token on a record is that of the latest successful claim. */
  lemma {:induction false} LeaseOrigin(run: Run, n: nat) returns (i: nat)
    requires ValidRun(run) && n < |run.records| && run.records[n].lease.Some?
    ensures i < n && Claimed(run, i) && (forall k :: i < k < n ==> !Claimed(run, k))
    ensures run.steps[i].op.token == run.records[n].lease.value.token
  {
    var r, s := run.records[n - 1], run.steps[n - 1];
    assert run.records[n - 1 + 1] == After(r, s);
    LeaseStep(r, s);
    if Claimed(run, n - 1) {
      i := n - 1;
    } else {
      i := LeaseOrigin(run, n - 1);
    }
  }

  /** The lease on a record is exactly what the latest claim or renewal granted, until exactly that time. */
  lemma {:induction false} LeaseIsLatestGrant(run: Run, n: nat) returns (g: nat)
    requires ValidRun(run) && n < |run.records| && run.records[n].lease.Some?
    ensures g < n && Grants(run, g, run.records[n].lease.value.token, run.records[n].lease.value.expiresAt)
    ensures forall k :: g < k < n ==> !Claimed(run, k) && !Renewed(run, k)
  {
    var r, s := run.records[n - 1], run.steps[n - 1];
    assert run.records[n - 1 + 1] == After(r, s);
    LeaseStep(r, s);
    if GrantsLease(r, s) {
      g := n - 1;
    } else {
      g := LeaseIsLatestGrant(run, n - 1);
    }
  }

  /** A token that no longer is on the record never comes back. */
  lemma {:induction false} LostForGood(run: Run, i: nat, m: nat, n: nat)
    requires ValidRun(run) && Claimed(run, i) && i < m <= n < |run.records|
    requires !Holds(run.records[m], run.steps[i].op.token)
    ensures !Holds(run.records[n], run.steps[i].op.token)
  {
    if m < n {
      LostForGood(run, i, m, n - 1);
      assert run.records[n - 1 + 1] == After(run.records[n - 1], run.steps[n - 1]);
      LeaseStep(run.records[n - 1], run.steps[n - 1]);
    }
  }

  /** Once another worker has claimed the record, or the lease was cleared, its old holder is refused everything. */
  lemma OldHolderIsFenced(run: Run, i: nat, m: nat, k: nat)
    requires ValidRun(run) && Claimed(run, i) && i < m <= k < |run.steps|
    requires Claimed(run, m) || run.records[m].lease.None?
    requires m < k || run.records[m].lease.None?
    requires UsesToken(run.steps[k], run.steps[i].op.token)
    ensures ReplyOf(run, k) == Refused(LeaseLost)
  {
    if run.records[m].lease.None? {
      LostForGood(run, i, m, k);
    } else {
      assert run.records[m + 1] == After(run.records[m], run.steps[m]);
      LostForGood(run, i, m + 1, k);
    }
  }

  /** An expired lease of a token is not brought back, nor does it bring an outcome. */
  lemma ExpiryStep(r: Dispatch, s: Step, token: string, now: int)
    requires now <= s.guard && (Holds(r, token) ==> !Live(r, now))
    requires s.op.Claim? ==> s.op.token != token
    ensures Holds(After(r, s), token) ==> !Live(After(r, s), now)
    ensures After(r, s).outcome.Some? && Holds(After(r, s), token) ==> r.outcome.Some?
  {
  }

  /** Once the lease of a token has been seen to expire, the record never again carries a live lease of it. */
  lemma {:induction false} ExpiredForGood(run: Run, i: nat, k: nat, n: nat)
    requires ValidRun(run) && Claimed(run, i) && i < k <= n < |run.records| && k < |run.steps|
    requires Holds(run.records[k], run.steps[i].op.token) ==> !Live(run.records[k], run.steps[k].guard)
    ensures Holds(run.records[n], run.steps[i].op.token) ==> !Live(run.records[n], run.steps[k].guard)
    ensures run.records[n].outcome.Some? && Holds(run.records[n], run.steps[i].op.token) ==> run.records[k].outcome.Some?
  {
    if k < n {
      ExpiredForGood(run, i, k, n - 1);
      var r, s := run.records[n - 1], run.steps[n - 1];
      assert run.records[n - 1 + 1] == After(r, s);
      assert run.steps[k].guard <= s.guard;
      ExpiryStep(r, s, run.steps[i].op.token, run.steps[k].guard);
    }
  }

  /** No renewal, report or commit by a token succeeds after its lease has been seen to expire. */
  lemma NoRevival(run: Run, i: nat, k: nat, n: nat)
    requires ValidRun(run) && Claimed(run, i) && i < k <= n < |run.steps|
    requires run.records[k].outcome.None?
    requires Holds(run.records[k], run.steps[i].op.token) ==> !Live(run.records[k], run.steps[k].guard)
    requires UsesToken(run.steps[n], run.steps[i].op.token)
    ensures ReplyOf(run, n) == Refused(LeaseLost)
  {
    ExpiredForGood(run, i, k, n);
    assert run.steps[k].guard <= run.steps[n].guard;
  }

  // ----- Leases never overlap -----

  /** Renewals of this token after step `k` and before step `j` do not cut the promise made at `k` short. */
  ghost predicate PromiseKept(run: Run, k: nat, j: nat, token: string, until: int)
    requires |run.steps| < |run.records|
  {
    forall m, u :: k < m < j && Grants(run, m, token, u) ==> until <= u
  }

  /** A promised interval survives an update, or the record is finished, or the interval is over. */
  lemma PromiseStep(r: Dispatch, s: Step, token: string, until: int)
    requires r.outcome.None? && Holds(r, token) && until <= r.lease.value.expiresAt
    requires s.op.Renew? && ReplyTo(Some(r), s).Stored? ==> until <= s.stamp + s.leaseMs
    ensures || After(r, s).outcome.Some?
            || (Holds(After(r, s), token) && until <= After(r, s).lease.value.expiresAt)
            || until <= s.guard
  {
  }

  lemma {:induction false} PromiseOutlasts(run: Run, k: nat, n: nat, token: string, until: int)
    requires ValidRun(run) && k < n < |run.records|
    requires Grants(run, k, token, until) && PromiseKept(run, k, n, token, until)
    ensures || run.records[n].outcome.Some?
            || (Holds(run.records[n], token) && until <= run.records[n].lease.value.expiresAt)
            || until <= run.steps[n - 1].guard
  {
    var r, s := run.records[n - 1], run.steps[n - 1];
    assert run.records[n - 1 + 1] == After(r, s);
    if k < n - 1 {
      PromiseOutlasts(run, k, n - 1, token, until);
      assert run.steps[n - 2].guard <= s.guard;
      if r.outcome.Some? {
        OutcomeIsFinal(run, n - 1, n);
      } else if Holds(r, token) && until <= r.lease.value.expiresAt {
        assert Renewed(run, n - 1) ==> Grants(run, n - 1, token, s.stamp + s.leaseMs);
        PromiseStep(r, s, token, until);
      }
    }
  }

  /**
   Mutual exclusion. When a claim at step `j` hands the record to a worker, every interval promised
   before it is over - the latest one always, an earlier one unless a renewal shortened it.
   */
  lemma LeasesDoNotOverlap(run: Run, k: nat, j: nat, token: string, until: int)
    requires ValidRun(run) && k < j && Claimed(run, j)
    requires Grants(run, k, token, until)
    requires PromiseKept(run, k, j, token, until)
    ensures until <= run.steps[j].guard
  {
    PromiseOutlasts(run, k, j, token, until);
    assert run.steps[j - 1].guard <= run.steps[j].guard;
  }

  /** Every claim starts when all intervals granted before it are over. */
  ghost predicate Exclusive(run: Run)
    requires |run.steps| < |run.records|
  {
    forall k: nat, j: nat, token, until :: k < j && Claimed(run, j) && Grants(run, k, token, until) ==> until <= run.steps[j].guard
  }

  /** The processes that claim and renew use only these lease durations; other updates grant nothing. */
  predicate GrantsWithin(run: Run, durations: iset<int>) {
    forall i :: 0 <= i < |run.steps| && (run.steps[i].op.Claim? || run.steps[i].op.Renew?) ==> run.steps[i].leaseMs in durations
  }

  /** When all processes use one lease duration, no two claims' intervals overlap at all. */
  lemma UniformLeasesDoNotOverlap(run: Run, k: nat, j: nat, token: string, until: int, d: int)
    requires ValidRun(run) && k < j && Claimed(run, j)
    requires GrantsWithin(run, iset{d})
    requires Grants(run, k, token, until)
    ensures until <= run.steps[j].guard
  {
    forall m, u | k < m < j && Grants(run, m, token, u) ensures until <= u {
      assert run.steps[k].stamp <= run.steps[m].guard;
    }
    LeasesDoNotOverlap(run, k, j, token, until);
  }

  /** With any two lease durations a renewal can shorten a promise, and another worker starts inside it. */
  lemma ShortRenewalOverlaps(long: int, short: int) returns (run: Run)
    requires MIN_LEASE_MS <= short < long
    ensures ValidRun(run) && GrantsWithin(run, iset{long, short})
    ensures Grants(run, 0, "a", long) && Claimed(run, 2) && run.steps[2].guard == short < long
  {
    var r0 := NewRecord("w", Request("q", "e", ReadOnly));
    var s0 := Step(Claim("w", "a"), 0, 0, long);
    var s1 := Step(Renew("a"), 0, 0, short);
    var s2 := Step(Claim("w", "b"), short, short, short);
    var r1 := After(r0, s0);
    var r2 := After(r1, s1);
    var r3 := After(r2, s2);
    run := Run([r0, r1, r2, r3], [s0, s1, s2]);
    assert Claimed(run, 0) && Renewed(run, 1) && Claimed(run, 2);
  }

  /**
   Exactly when lease intervals are exclusive: in every run of processes with these lease durations each claim
   starts after all earlier grants are over, if and only if there is no second duration among them.
   */
  lemma ExclusiveIffOneDuration(durations: iset<int>)
    requires forall d <- durations :: MIN_LEASE_MS <= d
    ensures (forall run: Run :: ValidRun(run) && GrantsWithin(run, durations) ==> Exclusive(run)) <==>
            (forall d, e :: d in durations && e in durations ==> d == e)
  {
    if forall d, e :: d in durations && e in durations ==> d == e {
      forall run: Run | ValidRun(run) && GrantsWithin(run, durations) ensures Exclusive(run) {
        forall k: nat, j: nat, token, until | k < j && Claimed(run, j) && Grants(run, k, token, until)
          ensures until <= run.steps[j].guard
        {
          UniformLeasesDoNotOverlap(run, k, j, token, until, run.steps[j].leaseMs);
        }
      }
    } else {
      var d, e :| d in durations && e in durations && d < e;
      var run := ShortRenewalOverlaps(e, d);
      assert GrantsWithin(run, durations) && !Exclusive(run);
    }
  }

  // ----- Where an outcome comes from -----

  /**
   An outcome appears in one of two ways: the worker of the latest claim commits it while its lease is
   live, or the dispatcher ends the record as CANCELLED or UNKNOWN_OUTCOME and clears the lease.
   */
  lemma OutcomeProvenance(run: Run, k: nat) returns (i: nat)
    requires ValidRun(run) && k < |run.steps|
    requires run.records[k].outcome.None? && run.records[k + 1].outcome.Some?
    ensures ReplyOf(run, k).Committed? <==> run.steps[k].op.Commit?
    ensures run.records[k + 1].completedAt == Some(run.steps[k].stamp)
    ensures ReplyOf(run, k).Committed? ==>
              && i < k && Claimed(run, i) && (forall m :: i < m < k ==> !Claimed(run, m))
              && run.steps[k].op.token == run.steps[i].op.token
              && run.records[k].lease.Some? && run.steps[k].guard < run.records[k].lease.value.expiresAt
              && run.records[k + 1].outcome == Some(run.steps[k].op.outcome)
              && run.records[k + 1].lease == run.records[k].lease
    ensures !ReplyOf(run, k).Committed? ==>
              && run.records[k + 1].lease.None?
              && (var r, end := run.records[k], run.records[k + 1];
                  if run.steps[k].op.Cancel? then EndedAs(r, end, "CANCELLED", Cancelled(r.attempt), run.steps[k].stamp)
                  else EndedAs(r, end, "UNKNOWN_OUTCOME", Failed("UNKNOWN_OUTCOME", r.attempt), run.steps[k].stamp))
              && (!run.steps[k].op.Cancel? ==> Opaque(run.records[k]) && !Live(run.records[k], run.steps[k].guard))
  {
    i := 0;
    assert run.records[k + 1] == After(run.records[k], run.steps[k]);
    if run.steps[k].op.Commit? {
      i := LeaseOrigin(run, k);
    }
  }

  // ----- Work that must not be replayed -----

  function ClaimsBefore(run: Run, n: nat): nat
    requires |run.steps| < |run.records|
  {
    if n == 0 then 0 else ClaimsBefore(run, n - 1) + if Claimed(run, n - 1) then 1 else 0
  }

  lemma AttemptStep(r: Dispatch, s: Step)
    ensures After(r, s).attempt == r.attempt + if s.op.Claim? && ReplyTo(Some(r), s).Leased? then 1 else 0
    ensures After(r, s).request == r.request
  {
  }

  /** The attempt number is the number of successful claims, and the request never changes. */
  lemma {:induction false} AttemptCountsClaims(run: Run, n: nat)
    requires ValidRun(run) && n < |run.records|
    ensures run.records[n].attempt == ClaimsBefore(run, n)
    ensures run.records[n].request == run.records[0].request
  {
    if n > 0 {
      AttemptCountsClaims(run, n - 1);
      assert run.records[n - 1 + 1] == After(run.records[n - 1], run.steps[n - 1]);
      AttemptStep(run.records[n - 1], run.steps[n - 1]);
    }
  }

  lemma {:induction false} ClaimsGrow(run: Run, m: nat, n: nat)
    requires |run.steps| < |run.records| && m <= n
    ensures ClaimsBefore(run, m) <= ClaimsBefore(run, n)
  {
    if m < n {
      ClaimsGrow(run, m, n - 1);
    }
  }

  /** A request that is not read-only is claimed at most once in a run. */
  lemma OpaqueClaimedAtMostOnce(run: Run, i: nat, j: nat)
    requires ValidRun(run) && run.records[0].request.replayPolicy != ReadOnly
    requires Claimed(run, i) && Claimed(run, j)
    ensures i == j
  {
    var lo, hi := if i < j then i else j, if i < j then j else i;
    if lo < hi {
      ClaimsGrow(run, lo + 1, hi);
      AttemptCountsClaims(run, hi);
    }
  }

  /** The only outcomes left for work whose single lease ran out. */
  predicate Abandoned(r: Dispatch) {
    r.outcome.None? || (!r.outcome.value.ok && r.outcome.value.error in {Some("UNKNOWN_OUTCOME"), Some("CANCELLED")})
  }

  /**
   Once the one lease of such a request is over without a result, no claim and no reassignment ever
   succeeds again and no worker's result is stored: it ends as UNKNOWN_OUTCOME or CANCELLED, if at all.
   */
  lemma {:induction false} SpentStaysSpent(run: Run, k: nat, n: nat)
    requires ValidRun(run) && run.records[0].request.replayPolicy != ReadOnly
    requires k <= n < |run.records| && k < |run.steps|
    requires PhaseAt(run.records[k], run.steps[k].guard).Spent?
    ensures Abandoned(run.records[n]) && run.records[n].computerId == run.records[k].computerId
    ensures !Live(run.records[n], run.steps[k].guard) && run.records[n].attempt == run.records[k].attempt
    ensures n < |run.steps| ==> !ReplyOf(run, n).Leased? && !ReplyOf(run, n).Committed?
                                && (run.steps[n].op.Reassign? ==> ReplyOf(run, n).Refused?)
  {
    AttemptCountsClaims(run, k);
    if k < n {
      SpentStaysSpent(run, k, n - 1);
      assert run.records[n - 1 + 1] == After(run.records[n - 1], run.steps[n - 1]);
      AttemptCountsClaims(run, n - 1);
      SpentStep(run.records[n - 1], run.steps[n - 1], run.steps[k].guard);
    }
    if n < |run.steps| {
      AttemptCountsClaims(run, n);
      SpentStep(run.records[n], run.steps[n], run.steps[k].guard);
    }
  }

  lemma SpentStep(r: Dispatch, s: Step, now: int)
    requires Abandoned(r) && Opaque(r) && !Live(r, now) && now <= s.guard
    ensures var r' := After(r, s);
            Abandoned(r') && !Live(r', now) && r'.attempt == r.attempt && r'.computerId == r.computerId
    ensures var reply := ReplyTo(Some(r), s);
            !reply.Leased? && !reply.Committed? && (s.op.Reassign? ==> reply.Refused?)
  {
  }

  /** A record marked orphaned has no live lease, now or at any later moment it stays marked. */
  lemma {:induction false} OrphanedHasNoLiveLease(run: Run, n: nat)
    requires ValidRun(run) && n < |run.steps| && run.records[n].orphaned
    ensures !Live(run.records[n], run.steps[n].guard)
  {
    assert run.records[n - 1 + 1] == After(run.records[n - 1], run.steps[n - 1]);
    assert run.steps[n - 1].stamp <= run.steps[n].guard;
    if run.records[n - 1].orphaned {
      OrphanedHasNoLiveLease(run, n - 1);
    }
  }

  /** A finished record knows when it was completed, an unfinished one was not. */
  lemma {:induction false} CompletedIffFinished(run: Run, n: nat)
    requires ValidRun(run) && n < |run.records|
    ensures run.records[n].completedAt.Some? <==> run.records[n].outcome.Some?
  {
    if n > 0 {
      CompletedIffFinished(run, n - 1);
      assert run.records[n - 1 + 1] == After(run.records[n - 1], run.steps[n - 1]);
    }
  }

  /** The mark as the steps tell it: set by recovery on free work of an offline owner, cleared by a claim or a move. */
  predicate MarkedAfter(run: Run, n: nat)
    requires |run.steps| < |run.records| && n <= |run.steps|
  {
    n > 0 &&
    var r, s := run.records[n - 1], run.steps[n - 1];
    if Claimed(run, n - 1) || Moved(run, n - 1) then false
    else if s.op.Reconcile? && PhaseAt(r, s.guard).Free? && r.computerId in s.op.offline then true
    else MarkedAfter(run, n - 1)
  }

  lemma {:induction false} MarkFollowsRun(run: Run, n: nat)
    requires ValidRun(run) && n < |run.records|
    ensures run.records[n].orphaned <==> MarkedAfter(run, n)
  {
    if n > 0 {
      MarkFollowsRun(run, n - 1);
      assert run.records[n - 1 + 1] == After(run.records[n - 1], run.steps[n - 1]);
    }
  }

  // ----- Who owns the record -----

  predicate Moved(run: Run, i: nat)
    requires |run.steps| < |run.records|
  {
    i < |run.steps| && run.steps[i].op.Reassign? && ReplyOf(run, i).Stored?
  }

  /** The computer the record belongs to: the target of the latest successful reassignment, or where it was sent first. */
  function OwnerAfter(run: Run, n: nat): string
    requires |run.steps| < |run.records| && n <= |run.steps|
  {
    if n == 0 then run.records[0].computerId
    else if Moved(run, n - 1) then run.steps[n - 1].op.to
    else OwnerAfter(run, n - 1)
  }

  lemma OwnerStep(r: Dispatch, s: Step)
    ensures After(r, s).computerId == if s.op.Reassign? && ReplyTo(Some(r), s).Stored? then s.op.to else r.computerId
    ensures s.op.Reassign? && ReplyTo(Some(r), s).Stored? ==>
              After(r, s).lease.None? && !After(r, s).orphaned && After(r, s).outcome.None?
  {
  }

  /** Only reassignment changes the owner, and only the owner at that moment ever obtains a lease. */
  lemma {:induction false} OnlyTheOwnerClaims(run: Run, n: nat)
    requires ValidRun(run) && n < |run.records|
    ensures run.records[n].computerId == OwnerAfter(run, n)
    ensures Claimed(run, n) ==> run.steps[n].op.computerId == OwnerAfter(run, n)
    ensures Moved(run, n) ==> PhaseAt(run.records[n + 1], run.steps[n].stamp).Free? && !run.records[n + 1].orphaned
  {
    if n > 0 {
      OnlyTheOwnerClaims(run, n - 1);
      assert run.records[n - 1 + 1] == After(run.records[n - 1], run.steps[n - 1]);
      OwnerStep(run.records[n - 1], run.steps[n - 1]);
    }
    if n < |run.steps| {
      assert run.records[n + 1] == After(run.records[n], run.steps[n]);
      RepliesFollowPhase(run.records[n], run.steps[n]);
      OwnerStep(run.records[n], run.steps[n]);
      AttemptStep(run.records[n], run.steps[n]);
    }
  }

  // ----- The event log -----

  /** The event an update adds, if it adds one: a lease taken or renewed, a move, an end, or a worker's report. */
  function Emitted(r: Dispatch, s: Step): seq<Event> {
    var reply, id := ReplyTo(Some(r), s), r.request.executionId;
    if r.outcome.None? && After(r, s).outcome.Some? && !s.op.Commit? then
      [Event(id, if s.op.Cancel? then Cancelled(r.attempt) else Failed("UNKNOWN_OUTCOME", r.attempt), s.stamp)]
    else if reply.Leased? then [Event(id, LeaseAcquired(r.attempt + 1), s.stamp)]
    else if reply.Stored? && s.op.Reassign? then [Event(id, Retry(r.computerId, s.op.to), s.stamp)]
    else if reply.Stored? && s.op.Renew? then [Event(id, LeaseRenewed(r.attempt), s.stamp)]
    else if reply.Stored? && s.op.Report? then [s.op.event]
    else []
  }

  function AllEvents(run: Run, n: nat): seq<Event>
    requires n <= |run.steps| < |run.records|
  {
    if n == 0 then [] else AllEvents(run, n - 1) + Emitted(run.records[n - 1], run.steps[n - 1])
  }

  lemma LastNOfAppend<T>(s: seq<T>, n: nat, x: T)
    ensures LastN(LastN(s, n + 1), n) + [x] == LastN(s + [x], n + 1)
  {
  }

  lemma StepAppendsEmitted(r: Dispatch, s: Step)
    ensures |Emitted(r, s)| <= 1
    ensures After(r, s).events == if Emitted(r, s) == [] then r.events else Append(r.events, Emitted(r, s)[0])
    ensures Own(Emitted(r, s), r.request.executionId)
  {
    match s.op
    case Claim(_, _) =>
    case Reconcile(_) =>
    case Cancel =>
    case Reassign(_) =>
    case Renew(_) =>
    case Report(_, _) =>
    case Commit(_, _) =>
  }

  lemma AppendToLatest(log: seq<Event>, kept: seq<Event>, emitted: seq<Event>)
    requires |emitted| <= 1 && kept == LastN(log, MAX_EVENTS)
    ensures LastN(log + emitted, MAX_EVENTS) == if emitted == [] then kept else Append(kept, emitted[0])
  {
    if emitted == [] {
      assert log + emitted == log;
    } else {
      LastNOfAppend(log, MAX_EVENTS - 1, emitted[0]);
      assert emitted == [emitted[0]];
    }
  }

  predicate Own(events: seq<Event>, executionId: string) {
    forall e <- events :: e.executionId == executionId
  }

  lemma OwnConcat(es: seq<Event>, fs: seq<Event>, executionId: string)
    requires Own(es, executionId) && Own(fs, executionId)
    ensures Own(es + fs, executionId)
  {
  }

  lemma {:induction false} EventsAreOwn(run: Run, n: nat)
    requires ValidRun(run) && n < |run.records|
    ensures Own(AllEvents(run, n), run.records[0].request.executionId)
  {
    if n > 0 {
      EventsAreOwn(run, n - 1);
      var r, s := run.records[n - 1], run.steps[n - 1];
      AttemptCountsClaims(run, n - 1);
      StepAppendsEmitted(r, s);
      OwnConcat(AllEvents(run, n - 1), Emitted(r, s), r.request.executionId);
    }
  }

  lemma {:induction false} EventsAreLastN(run: Run, n: nat)
    requires ValidRun(run) && n < |run.records|
    ensures run.records[n].events == LastN(AllEvents(run, n), MAX_EVENTS)
  {
    if n > 0 {
      var r, s := run.records[n - 1], run.steps[n - 1];
      EventsAreLastN(run, n - 1);
      assert run.records[n - 1 + 1] == After(r, s) && AllEvents(run, n) == AllEvents(run, n - 1) + Emitted(r, s);
      StepAppendsEmitted(r, s);
      AppendToLatest(AllEvents(run, n - 1), r.events, Emitted(r, s));
    }
  }

  /** The record keeps exactly the most recent 10,000 events of its run, in order, all of its own execution. */
  lemma EventsAreTheLatest(run: Run, n: nat)
    requires ValidRun(run) && n < |run.records|
    ensures var all := AllEvents(run, n);
            run.records[n].events == if |all| <= 10_000 then all else all[|all| - 10_000..]
    ensures Own(AllEvents(run, n), run.records[0].request.executionId)
  {
    assert Own(AllEvents(run, n), run.records[0].request.executionId) by { EventsAreOwn(run, n); }
    EventsAreLastN(run, n);
  }
}
