/**
 The Work schedule tables and the effect of each transaction on them: due
 occurrences, leases, retries, completion and tombstoned deletion.

 Times are real numbers; ids stand for uuids, drawn in increasing order.
 */
module ScheduleTables {
  import opened Wrappers

  const MAX_ATTEMPTS := 3

  type ScheduleId = nat
  type RunId = nat

  /** `repeat` is the period in seconds, 0 for a one-shot schedule. */
  datatype Schedule = Schedule(nextRun: real, repeat: nat, enabled: bool, deleted: bool)

  datatype RunStatus = Queued | Claimed | Running | Succeeded | Failed

  datatype Run = Run(schedule: ScheduleId, scheduledFor: real, status: RunStatus, availableAt: real,
                     leaseUntil: Option<real>, attempt: nat)

  datatype Tables = Tables(schedules: map<ScheduleId, Schedule>, runs: map<RunId, Run>, issued: nat)

  predicate Active(r: Run) {
    r.status in {Queued, Claimed, Running}
  }

  predicate Leased(r: Run) {
    r.status in {Claimed, Running}
  }

  // ---------- invariant ----------

  predicate ScheduleOk(t: Tables, s: ScheduleId)
    requires s in t.schedules
  {
    s < t.issued && (t.schedules[s].enabled ==> !t.schedules[s].deleted)
  }

  /** Attempts are bounded, leases belong to leased runs, and no run is ahead of its enabled schedule. */
  predicate RunOk(t: Tables, r: RunId)
    requires r in t.runs
  {
    var run := t.runs[r];
    && r < t.issued
    && run.schedule in t.schedules
    && run.attempt <= MAX_ATTEMPTS
    && (run.status == Queued ==> run.attempt < MAX_ATTEMPTS)
    && (Leased(run) <==> run.leaseUntil.Some?)
    && (t.schedules[run.schedule].enabled ==> run.scheduledFor < t.schedules[run.schedule].nextRun)
  }

  /** At most one of two runs of a schedule is queued, claimed or running. */
  predicate NotBothActive(t: Tables, a: RunId, b: RunId)
    requires a in t.runs && b in t.runs
  {
    Active(t.runs[a]) && Active(t.runs[b]) && t.runs[a].schedule == t.runs[b].schedule ==> a == b
  }

  /** The UNIQUE(schedule_id, scheduled_for) constraint. */
  predicate NotSameOccurrence(t: Tables, a: RunId, b: RunId)
    requires a in t.runs && b in t.runs
  {
    t.runs[a].schedule == t.runs[b].schedule && t.runs[a].scheduledFor == t.runs[b].scheduledFor ==> a == b
  }

  /** The schedule has at most one queued, claimed or running run. */
  ghost predicate OneActive(t: Tables, s: ScheduleId) {
    forall a, b {:trigger NotBothActive(t, a, b)} | a in t.runs && b in t.runs && t.runs[a].schedule == s ::
      NotBothActive(t, a, b)
  }

  ghost predicate OneRunPerOccurrence(t: Tables) {
    forall a, b {:trigger NotSameOccurrence(t, a, b)} | a in t.runs && b in t.runs :: NotSameOccurrence(t, a, b)
  }

  ghost predicate RowsOk(t: Tables) {
    && (forall s {:trigger ScheduleOk(t, s)} | s in t.schedules :: ScheduleOk(t, s))
    && (forall r {:trigger RunOk(t, r)} | r in t.runs :: RunOk(t, r))
    && OneRunPerOccurrence(t)
  }

  ghost predicate OneActiveStays(t: Tables, t': Tables) {
    forall s :: OneActive(t, s) ==> OneActive(t', s)
  }

  /** Runs of `t'` are runs of `t`, none of them newly active. */
  ghost predicate NoNewActive(t: Tables, t': Tables) {
    forall r | r in t'.runs ::
      && r in t.runs && t'.runs[r].schedule == t.runs[r].schedule && t'.runs[r].scheduledFor == t.runs[r].scheduledFor
      && (Active(t'.runs[r]) ==> Active(t.runs[r]))
  }

  lemma {:induction false} NoNewActiveKeepsPairs(t: Tables, t': Tables)
    requires NoNewActive(t, t')
    ensures OneActiveStays(t, t')
    ensures OneRunPerOccurrence(t) ==> OneRunPerOccurrence(t')
  {
    forall s | OneActive(t, s) ensures OneActive(t', s) {
      forall a, b | a in t'.runs && b in t'.runs && t'.runs[a].schedule == s ensures NotBothActive(t', a, b) {
        assert NotBothActive(t, a, b);
      }
    }
    if OneRunPerOccurrence(t) {
      forall a, b | a in t'.runs && b in t'.runs ensures NotSameOccurrence(t', a, b) {
        assert NotSameOccurrence(t, a, b);
      }
    }
  }

  /** The schedule existed and has been deleted, at once or by tombstone. */
  ghost predicate Gone(t: Tables, s: ScheduleId) {
    s < t.issued && (s in t.schedules ==> t.schedules[s].deleted)
  }

  ghost predicate GoneStaysGone(t: Tables, t': Tables) {
    forall s :: Gone(t, s) ==> Gone(t', s)
  }

  // ---------- next run ----------

  function Max(a: int, b: int): int {
    if a < b then b else a
  }

  function NextRun(scheduledFor: real, repeat: nat, now: real): real
    requires repeat > 0
  {
    var skipped := Max(1, ((now - scheduledFor) / (repeat as real)).Floor + 1);
    scheduledFor + (skipped as real) * (repeat as real)
  }

  // Products are passed by name: the facts about them are then linear.

  lemma {:induction false} MulMono(a: real, b: real, p: real)
    requires a <= b && p > 0.0
    ensures a * p <= b * p
  {
    assert (b - a) * p >= 0.0;
  }

  lemma {:induction false} MulAbove(q: real, a: real, p: real, qp: real, ap: real)
    requires q < a + 1.0 && p > 0.0 && qp == q * p && ap == a * p
    ensures qp < ap + p
  {
    var rest := a + 1.0 - q;
    assert rest * p > 0.0;
    calc { rest * p; == (a - q) * p + p; == a * p - q * p + p; == ap - qp + p; }
  }

  lemma {:induction false} FloorBracket(d: real, q: real, p: real, fp: real)
    requires d >= 0.0 && p > 0.0 && d == q * p && fp == (q.Floor as real) * p
    ensures fp <= d < fp + p
  {
    MulMono(q.Floor as real, q, p);
    MulAbove(q, q.Floor as real, p, d, fp);
  }

  lemma {:induction false} FloorIsNat(d: real, p: real)
    requires d >= 0.0 && p > 0.0
    ensures (d / p).Floor >= 0
  {
    assert d / p >= 0.0;
  }

  /** With the products named, only one multiple of p lies in the period after d. */
  lemma {:induction false} OneMultiple(d: real, p: real, f: int, k: int, fp: real, kp: real)
    requires p > 0.0 && fp == (f as real) * p && kp == (k as real) * p
    requires fp <= d < fp + p
    ensures d < kp <= d + p <==> k == f + 1
    ensures kp == fp + p <==> k == f + 1
  {
    var rest := (k - f) as real;
    assert kp == fp + rest * p;
    if k <= f {
      MulMono(rest, 0.0, p);
    } else if k > f + 1 {
      MulMono(2.0, rest, p);
    }
  }

  /** A repeat advances to the only time of its grid in the period after `now`. */
  lemma {:induction false} NextRunIsUnique(scheduledFor: real, repeat: nat, now: real, k: int)
    requires repeat > 0 && scheduledFor <= now
    ensures now < NextRun(scheduledFor, repeat, now) <= now + repeat as real
    ensures now < scheduledFor + (k as real) * (repeat as real) <= now + repeat as real
            <==> scheduledFor + (k as real) * (repeat as real) == NextRun(scheduledFor, repeat, now)
  {
    var p, d := repeat as real, now - scheduledFor;
    var f := (d / p).Floor;
    assert d == (d / p) * p;
    FloorIsNat(d, p);
    FloorBracket(d, d / p, p, (f as real) * p);
    OneMultiple(d, p, f, k, (f as real) * p, (k as real) * p);
    OneMultiple(d, p, f, f + 1, (f as real) * p, ((f + 1) as real) * p);
  }

  // ---------- transactions ----------

  function Create(t: Tables, nextRun: real, repeat: nat): Tables {
    t.(schedules := t.schedules[t.issued := Schedule(nextRun, repeat, true, false)], issued := t.issued + 1)
  }

  lemma {:induction false} CreateKeeps(t: Tables, nextRun: real, repeat: nat)
    requires RowsOk(t)
    ensures var t' := Create(t, nextRun, repeat);
            RowsOk(t') && OneActiveStays(t, t') && GoneStaysGone(t, t') && !Gone(t', t.issued)
  {
    var t' := Create(t, nextRun, repeat);
    forall s | s in t'.schedules ensures ScheduleOk(t', s) {
      if s != t.issued { assert ScheduleOk(t, s); }
    }
    forall r | r in t'.runs ensures RunOk(t', r) {
      assert RunOk(t, r) && ScheduleOk(t, t.runs[r].schedule);
    }
    NoNewActiveKeepsPairs(t, t');
  }

  /** Removing a schedule row takes its run rows with it. */
  function DropSchedule(t: Tables, s: ScheduleId): Tables {
    Tables(t.schedules - {s}, map r | r in t.runs && t.runs[r].schedule != s :: t.runs[r], t.issued)
  }

  function Delete(t: Tables, s: ScheduleId): Tables
    requires s in t.schedules
  {
    var kept := map r | r in t.runs && !(t.runs[r].schedule == s && t.runs[r].status in {Queued, Claimed}) :: t.runs[r];
    var t' := Tables(t.schedules[s := t.schedules[s].(enabled := false, deleted := true)], kept, t.issued);
    if exists r | r in kept :: kept[r].schedule == s && kept[r].status == Running then t' else DropSchedule(t', s)
  }

  lemma {:induction false} DeleteKeeps(t: Tables, s: ScheduleId)
    requires RowsOk(t) && s in t.schedules
    ensures RowsOk(Delete(t, s)) && OneActiveStays(t, Delete(t, s))
    ensures GoneStaysGone(t, Delete(t, s)) && Gone(Delete(t, s), s)
    ensures forall r | r in Delete(t, s).runs && t.runs[r].schedule == s :: t.runs[r].status !in {Queued, Claimed}
    ensures forall r | r in t.runs && (t.runs[r].status == Running || t.runs[r].schedule != s) ::
              r in Delete(t, s).runs && Delete(t, s).runs[r] == t.runs[r]
  {
    var t' := Delete(t, s);
    assert ScheduleOk(t, s);
    forall u | u in t'.schedules ensures ScheduleOk(t', u) {
      assert ScheduleOk(t, u);
    }
    forall r | r in t'.runs ensures RunOk(t', r) {
      assert RunOk(t, r);
    }
    NoNewActiveKeepsPairs(t, t');
  }

  predicate Expired(r: Run, now: real) {
    Leased(r) && r.leaseUntil.Some? && r.leaseUntil.value <= now
  }

  /** An expired lease fails its run after the last attempt and queues it again before. */
  function AfterLease(r: Run, now: real): Run {
    if !Expired(r, now) then r
    else if r.attempt >= MAX_ATTEMPTS then r.(status := Failed, leaseUntil := None)
    else r.(status := Queued, leaseUntil := None, availableAt := now)
  }

  function ExpireLeases(t: Tables, now: real): Tables {
    t.(runs := map r | r in t.runs :: AfterLease(t.runs[r], now))
  }

  lemma {:induction false} ExpireKeeps(t: Tables, now: real)
    requires RowsOk(t)
    ensures var t' := ExpireLeases(t, now); RowsOk(t') && OneActiveStays(t, t') && GoneStaysGone(t, t')
    ensures forall r | r in t.runs :: Expired(t.runs[r], now) ==> !Leased(ExpireLeases(t, now).runs[r])
  {
    var t' := ExpireLeases(t, now);
    forall s | s in t'.schedules ensures ScheduleOk(t', s) {
      assert ScheduleOk(t, s);
    }
    forall r | r in t'.runs ensures RunOk(t', r) {
      assert RunOk(t, r);
    }
    NoNewActiveKeepsPairs(t, t');
  }

  predicate HasActive(t: Tables, s: ScheduleId) {
    exists r | r in t.runs :: t.runs[r].schedule == s && Active(t.runs[r])
  }

  predicate Due(t: Tables, s: ScheduleId, now: real) {
    s in t.schedules && t.schedules[s].enabled && !t.schedules[s].deleted && t.schedules[s].nextRun <= now
  }

  /** INSERT OR IGNORE under the unique constraint. */
  function InsertRun(t: Tables, run: Run): Tables {
    if exists r | r in t.runs :: t.runs[r].schedule == run.schedule && t.runs[r].scheduledFor == run.scheduledFor
    then t.(issued := t.issued + 1)
    else t.(runs := t.runs[t.issued := run], issued := t.issued + 1)
  }

  /** One due schedule: queue its occurrence unless it has an active run, then advance it. */
  function Occur(t: Tables, s: ScheduleId, now: real): Tables
    requires s in t.schedules
  {
    if HasActive(t, s) then t
    else
      var row := t.schedules[s];
      var t' := InsertRun(t, Run(s, row.nextRun, Queued, now, None, 0));
      var next := if row.repeat > 0 then NextRun(row.nextRun, row.repeat, now) else row.nextRun;
      t'.(schedules := t'.schedules[s := row.(enabled := row.repeat > 0, nextRun := next)])
  }

  /** The insert is never ignored: a processed occurrence gets its own, and only, run row. */
  lemma {:induction false} OccurKeeps(t: Tables, s: ScheduleId, now: real)
    requires RowsOk(t) && Due(t, s, now)
    ensures var t' := Occur(t, s, now);
            && RowsOk(t') && OneActiveStays(t, t') && GoneStaysGone(t, t')
            && t'.schedules.Keys == t.schedules.Keys
            && (forall u | u in t.schedules && u != s :: t'.schedules[u] == t.schedules[u])
            && (HasActive(t, s) ==> t' == t)
            && (!HasActive(t, s) ==>
                  && t.issued !in t.runs
                  && t'.runs == t.runs[t.issued := Run(s, t.schedules[s].nextRun, Queued, now, None, 0)]
                  && (forall r | r in t'.runs && t'.runs[r].schedule == s
                        && t'.runs[r].scheduledFor == t.schedules[s].nextRun ::
                        r == t.issued)
                  && (t'.schedules[s].enabled ==> now < t'.schedules[s].nextRun <= now + t.schedules[s].repeat as real))
  {
    if HasActive(t, s) { return; }
    var row := t.schedules[s];
    var t' := Occur(t, s, now);
    if row.repeat > 0 { NextRunIsUnique(row.nextRun, row.repeat, now, 0); }
    assert ScheduleOk(t, s);
    forall r | r in t.runs
      ensures r != t.issued && !(t.runs[r].schedule == s && t.runs[r].scheduledFor == row.nextRun)
    {
      assert RunOk(t, r);
    }
    forall u | u in t'.schedules ensures ScheduleOk(t', u) {
      assert ScheduleOk(t, u);
    }
    forall r | r in t'.runs ensures RunOk(t', r) {
      if r != t.issued { assert RunOk(t, r); }
    }
    forall a, b | a in t'.runs && b in t'.runs ensures NotSameOccurrence(t', a, b) {
      if a != t.issued && b != t.issued { assert NotSameOccurrence(t, a, b); }
    }
    forall u | OneActive(t, u) ensures OneActive(t', u) {
      forall a, b | a in t'.runs && b in t'.runs && t'.runs[a].schedule == u ensures NotBothActive(t', a, b) {
        if a != t.issued && b != t.issued { assert NotBothActive(t, a, b); }
      }
    }
  }

  predicate Ready(t: Tables, r: RunId, now: real) {
    && r in t.runs && t.runs[r].status == Queued && t.runs[r].availableAt <= now
    && t.runs[r].schedule in t.schedules && !t.schedules[t.runs[r].schedule].deleted
  }

  function Claim(t: Tables, r: RunId, now: real, lease: real): Tables
    requires r in t.runs
  {
    if t.runs[r].status != Queued then t
    else
      t.(runs := t.runs[r := t.runs[r].(status := Claimed, leaseUntil := Some(now + lease),
                                        attempt := t.runs[r].attempt + 1)])
  }

  lemma {:induction false} ClaimKeeps(t: Tables, r: RunId, now: real, lease: real)
    requires RowsOk(t) && Ready(t, r, now)
    ensures var t' := Claim(t, r, now, lease); RowsOk(t') && OneActiveStays(t, t') && GoneStaysGone(t, t')
    ensures !Gone(t, t.runs[r].schedule)
  {
    assert RunOk(t, r);
    OneRunUpdate(t, r, Claim(t, r, now, lease));
  }

  /** Only the status, lease, attempt or availability of one run changes, and it is no more active than before. */
  lemma {:induction false} OneRunUpdate(t: Tables, r: RunId, t': Tables)
    requires RowsOk(t) && r in t.runs && r in t'.runs
    requires t' == t.(runs := t.runs[r := t'.runs[r]]) && RunOk(t', r)
    requires t'.runs[r].schedule == t.runs[r].schedule && t'.runs[r].scheduledFor == t.runs[r].scheduledFor
    ensures RowsOk(t') && GoneStaysGone(t, t')
    ensures (Active(t'.runs[r]) ==> Active(t.runs[r])) ==> OneActiveStays(t, t')
  {
    forall s | s in t'.schedules ensures ScheduleOk(t', s) {
      assert ScheduleOk(t, s);
    }
    forall q | q in t'.runs ensures RunOk(t', q) {
      assert RunOk(t, q);
    }
    forall a, b | a in t'.runs && b in t'.runs ensures NotSameOccurrence(t', a, b) {
      assert NotSameOccurrence(t, a, b);
    }
    if Active(t'.runs[r]) ==> Active(t.runs[r]) { NoNewActiveKeepsPairs(t, t'); }
  }

  function MarkRunning(t: Tables, r: RunId, now: real, lease: real): Tables {
    if r in t.runs && t.runs[r].status == Claimed
    then t.(runs := t.runs[r := t.runs[r].(status := Running, leaseUntil := Some(now + lease))]) else t
  }

  function Renew(t: Tables, r: RunId, now: real, lease: real): Tables {
    if r in t.runs && Leased(t.runs[r])
    then t.(runs := t.runs[r := t.runs[r].(leaseUntil := Some(now + lease))]) else t
  }

  lemma {:induction false} LeaseKeeps(t: Tables, r: RunId, now: real, lease: real)
    requires RowsOk(t)
    ensures var t' := MarkRunning(t, r, now, lease); RowsOk(t') && OneActiveStays(t, t') && GoneStaysGone(t, t')
    ensures var t' := Renew(t, r, now, lease); RowsOk(t') && OneActiveStays(t, t') && GoneStaysGone(t, t')
  {
    if r in t.runs {
      assert RunOk(t, r);
      OneRunUpdate(t, r, MarkRunning(t, r, now, lease));
      OneRunUpdate(t, r, Renew(t, r, now, lease));
    }
  }

  // ---------- completion ----------

  function Pow2(n: nat): nat {
    if n == 0 then 1 else 2 * Pow2(n - 1)
  }

  function Backoff(attempt: nat): nat {
    var delay := 15 * Pow2(if attempt > 0 then attempt - 1 else 0);
    if delay < 300 then delay else 300
  }

  /** A failed run that has attempts left goes back on the queue. */
  predicate Requeues(t: Tables, r: RunId, failed: bool)
    requires r in t.runs && t.runs[r].schedule in t.schedules
  {
    failed && !t.schedules[t.runs[r].schedule].deleted && t.runs[r].attempt < MAX_ATTEMPTS
  }

  function Completed(t: Tables, r: RunId, failed: bool, now: real): Tables
    requires r in t.runs && t.runs[r].schedule in t.schedules
  {
    var run := t.runs[r];
    var requeued := Requeues(t, r, failed);
    var status := if !failed then Succeeded else if requeued then Queued else Failed;
    var available := if requeued then now + Backoff(run.attempt) as real else now;
    var t' := t.(runs := t.runs[r := run.(status := status, availableAt := available, leaseUntil := None)]);
    if t.schedules[run.schedule].deleted then DropSchedule(t', run.schedule) else t'
  }

  /** No other run of the same schedule is queued, claimed or running. */
  ghost predicate OnlyActive(t: Tables, r: RunId)
    requires r in t.runs
  {
    forall q | q in t.runs && t.runs[q].schedule == t.runs[r].schedule && Active(t.runs[q]) :: q == r
  }

  /** The completed row is written first; a tombstoned schedule then goes with all its runs. */
  lemma {:induction false} CompletedKeepsRest(t: Tables, r: RunId, failed: bool, now: real)
    requires RowsOk(t) && r in t.runs && RunOk(t, r)
    ensures var t' := Completed(t, r, failed, now); RowsOk(t') && GoneStaysGone(t, t')
  {
    var t' := Completed(t, r, failed, now);
    var s := t.runs[r].schedule;
    if t.schedules[s].deleted {
      assert ScheduleOk(t, s);
      forall u | u in t'.schedules ensures ScheduleOk(t', u) { assert ScheduleOk(t, u); }
      forall q | q in t'.runs ensures RunOk(t', q) { assert RunOk(t, q); }
      NoNewActiveKeepsPairs(t, t');
    } else {
      OneRunUpdate(t, r, t');
    }
  }

  /** At most one run of the schedule besides `r` is active. */
  ghost predicate OneOtherActive(t: Tables, s: ScheduleId, r: RunId) {
    forall a, b {:trigger NotBothActive(t, a, b)} |
      a in t.runs && b in t.runs && t.runs[a].schedule == s && a != r && b != r :: NotBothActive(t, a, b)
  }

  lemma {:induction false} CompletedOthers(t: Tables, r: RunId, failed: bool, now: real, u: ScheduleId)
    requires RowsOk(t) && r in t.runs && RunOk(t, r) && u != t.runs[r].schedule
    ensures OneActive(Completed(t, r, failed, now), u) <==> OneActive(t, u)
  {
    var t' := Completed(t, r, failed, now);
    forall a, b | a in t.runs && b in t.runs && t.runs[a].schedule == u
      ensures a in t'.runs
      ensures b in t'.runs ==> (NotBothActive(t', a, b) <==> NotBothActive(t, a, b))
      ensures b !in t'.runs ==> NotBothActive(t, a, b)
    {
    }
  }

  /** A run put back on the queue has to be the only active one; any other completed run is out of the way. */
  lemma {:induction false} CompletedOwn(t: Tables, r: RunId, failed: bool, now: real)
    requires r in t.runs && t.runs[r].schedule in t.schedules
    ensures var t', s := Completed(t, r, failed, now), t.runs[r].schedule;
            OneActive(t', s) <==>
              t.schedules[s].deleted || if Requeues(t, r, failed) then OnlyActive(t, r) else OneOtherActive(t, s, r)
  {
    var t', s := Completed(t, r, failed, now), t.runs[r].schedule;
    if t.schedules[s].deleted {
    } else if Requeues(t, r, failed) {
      if OneActive(t', s) {
        forall q | q in t.runs && t.runs[q].schedule == s && Active(t.runs[q]) ensures q == r {
          assert NotBothActive(t', q, r);
        }
      }
    } else {
      forall a, b | a in t.runs && b in t.runs && t.runs[a].schedule == s
        ensures NotBothActive(t', a, b) <==> a == r || b == r || NotBothActive(t, a, b)
      {
      }
    }
  }

  /** A run is put back on the queue beside another active run of its schedule. */
  ghost predicate LateRequeue(t: Tables, r: RunId, failed: bool)
    requires r in t.runs && t.runs[r].schedule in t.schedules
  {
    Requeues(t, r, failed) && !OnlyActive(t, r)
  }

  /**
   Completion accepts a run in any status. It leaves the other schedules as they
   are; one active run for its own schedule survives exactly when the run is not
   put back on the queue beside another active run.
   */
  lemma {:induction false} CompletionIsSafeIff(t: Tables, r: RunId, failed: bool, now: real)
    requires RowsOk(t) && r in t.runs
    ensures RunOk(t, r)
    ensures var t', s := Completed(t, r, failed, now), t.runs[r].schedule;
            && (forall u | u != s :: OneActive(t', u) <==> OneActive(t, u))
            && (LateRequeue(t, r, failed) ==> !OneActive(t', s))
            && (OneActive(t, s) ==> (OneActive(t', s) <==> !LateRequeue(t, r, failed)))
  {
    assert RunOk(t, r);
    forall u | u != t.runs[r].schedule
      ensures OneActive(Completed(t, r, failed, now), u) <==> OneActive(t, u)
    {
      CompletedOthers(t, r, failed, now, u);
    }
    CompletedOwn(t, r, failed, now);
  }

  /** In particular completing an active run is always safe. */
  lemma {:induction false} CompletingActiveRunIsSafe(t: Tables, r: RunId, failed: bool, now: real)
    requires RowsOk(t) && r in t.runs && Active(t.runs[r])
    ensures RunOk(t, r) && OneActiveStays(t, Completed(t, r, failed, now))
  {
    assert RunOk(t, r);
    CompletionIsSafeIff(t, r, failed, now);
    if OneActive(t, t.runs[r].schedule) {
      forall q | q in t.runs && t.runs[q].schedule == t.runs[r].schedule && Active(t.runs[q]) ensures q == r {
        assert NotBothActive(t, q, r);
      }
    }
  }

  /** A late failure report for a run that already succeeded leaves two active runs. */
  lemma {:induction false} LateFailureBreaksOneActive() returns (t: Tables)
    ensures RowsOk(t) && (forall s :: OneActive(t, s)) && 1 in t.runs && t.runs[1].status == Succeeded
    ensures t.runs[1].schedule in t.schedules && !OneActive(Completed(t, 1, true, 100.0), t.runs[1].schedule)
  {
    t := Tables(map[0 := Schedule(120.0, 60, true, false)],
                map[1 := Run(0, 0.0, Succeeded, 0.0, None, 1), 2 := Run(0, 60.0, Queued, 60.0, None, 0)], 3);
    assert t.runs.Keys == {1, 2} && t.schedules.Keys == {0};
    assert RowsOk(t);
    assert 2 in t.runs && Active(t.runs[2]) && !OnlyActive(t, 1);
    CompletionIsSafeIff(t, 1, true, 100.0);
  }
}
