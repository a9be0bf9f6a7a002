/** The Work registry's schedule operations, each one transaction over the two tables. */
module ScheduleRuns {
  import opened Wrappers
  import opened ScheduleTables

  // ---------- whole runs of the registry ----------

  /** What a transaction did: the runs it claimed, and the schedule it gave a second active run by a late retry. */
  datatype Event = Event(claimed: seq<RunId>, late: Option<ScheduleId>)

  const QUIET := Event([], None)

  /**
   One transaction: deleted schedules stay deleted, only live schedules' runs are
   claimed, and only a late retry takes the one active run from a schedule.
   */
  ghost predicate Link(t: Tables, e: Event, t': Tables) {
    && GoneStaysGone(t, t')
    && (forall r | r in e.claimed :: r in t'.runs && !Gone(t', t'.runs[r].schedule))
    && (forall s: ScheduleId :: OneActive(t, s) && e.late != Some(s) ==> OneActive(t', s))
    && (e.late.Some? ==> !OneActive(t', e.late.value))
  }

  ghost predicate History(states: seq<Tables>, events: seq<Event>) {
    && |states| == |events| + 1
    && forall i | 0 <= i < |events| :: Link(states[i], events[i], states[i + 1])
  }

  lemma {:induction false} GoneForever(states: seq<Tables>, events: seq<Event>, i: nat, j: nat, s: ScheduleId)
    requires History(states, events) && i <= j < |states| && Gone(states[i], s)
    ensures Gone(states[j], s)
  {
    if i < j {
      GoneForever(states, events, i, j - 1, s);
      assert Link(states[j - 1], events[j - 1], states[j]);
    }
  }

  /** Once a schedule is deleted or tombstoned, none of its runs is claimed again. */
  lemma {:induction false} DeletedIsNeverClaimed(states: seq<Tables>, events: seq<Event>, i: nat, j: nat,
      s: ScheduleId, r: RunId)
    requires History(states, events) && i <= j < |events| && Gone(states[i], s)
    requires r in events[j].claimed
    ensures r in states[j + 1].runs && states[j + 1].runs[r].schedule != s
  {
    GoneForever(states, events, i, j + 1, s);
    assert Link(states[j], events[j], states[j + 1]);
  }

  /** A schedule keeps one active run, transaction by transaction, exactly as long as it sees no late retry. */
  lemma {:induction false} OneActiveUntilLate(states: seq<Tables>, events: seq<Event>, i: nat, j: nat, s: ScheduleId)
    requires History(states, events) && i <= j < |states| && OneActive(states[i], s)
    ensures (forall k | i <= k <= j :: OneActive(states[k], s)) <==>
            (forall k | i <= k < j :: events[k].late != Some(s))
  {
    if i < j {
      OneActiveUntilLate(states, events, i, j - 1, s);
      assert Link(states[j - 1], events[j - 1], states[j]);
    }
  }

  // ---------- query results ----------

  /** SELECT … ORDER BY key LIMIT n. */
  ghost predicate OrderedPrefix(rows: seq<nat>, key: map<nat, real>, limit: nat) {
    && (forall i | 0 <= i < |rows| :: rows[i] in key)
    && (forall i, j | 0 <= i < j < |rows| :: rows[i] != rows[j] && key[rows[i]] <= key[rows[j]])
    && |rows| <= limit
    && (forall k, i | k in key && k !in rows && 0 <= i < |rows| :: key[rows[i]] <= key[k])
    && (|rows| < limit ==> forall k | k in key :: k in rows)
  }

  method OrderByLimit(key: map<nat, real>, limit: nat) returns (rows: seq<nat>)
    ensures OrderedPrefix(rows, key, limit)
  {
    rows := [];
    var todo := key.Keys;
    while |rows| < limit && todo != {}
      invariant todo <= key.Keys && |rows| <= limit
      invariant forall k | k in key :: k in rows <==> k !in todo
      invariant forall i | 0 <= i < |rows| :: rows[i] in key
      invariant forall i, j | 0 <= i < j < |rows| :: rows[i] != rows[j] && key[rows[i]] <= key[rows[j]]
      invariant forall k, i | k in todo && 0 <= i < |rows| :: key[rows[i]] <= key[k]
      decreases |todo|
    {
      var least := Least(todo, key);
      rows := rows + [least];
      todo := todo - {least};
    }
  }

  method Least(ids: set<nat>, key: map<nat, real>) returns (least: nat)
    requires ids != {} && ids <= key.Keys
    ensures least in ids && forall k | k in ids :: key[least] <= key[k]
  {
    least :| least in ids;
    var todo := ids - {least};
    while todo != {}
      invariant todo <= ids && least in ids
      invariant forall k | k in ids - todo :: key[least] <= key[k]
    {
      var k :| k in todo;
      if key[k] < key[least] { least := k; }
      todo := todo - {k};
    }
  }

  // ---------- the claim transaction ----------

  function OccurAll(t: Tables, rows: seq<ScheduleId>, now: real): Tables {
    if rows == [] then t
    else
      var t' := OccurAll(t, rows[..|rows| - 1], now);
      var s := rows[|rows| - 1];
      if s in t'.schedules then Occur(t', s, now) else t'
  }

  function ClaimAll(t: Tables, runs: seq<RunId>, now: real, lease: real): Tables {
    if runs == [] then t
    else
      var t' := ClaimAll(t, runs[..|runs| - 1], now, lease);
      var r := runs[|runs| - 1];
      if r in t'.runs then Claim(t', r, now, lease) else t'
  }

  /** The due schedules, by the time of their next run. */
  function DueTimes(t: Tables, now: real): map<ScheduleId, real> {
    map s | s in t.schedules && Due(t, s, now) :: t.schedules[s].nextRun
  }

  /** The runs that can be claimed, by the time they were scheduled for. */
  function ReadyTimes(t: Tables, now: real): map<RunId, real> {
    map r | r in t.runs && Ready(t, r, now) :: t.runs[r].scheduledFor
  }

  /** A live schedule's run holds a lease until the given time. */
  predicate ClaimedAt(t: Tables, r: RunId, until: real)
    requires r in t.runs
  {
    && t.runs[r].status == Claimed && t.runs[r].leaseUntil == Some(until)
    && t.runs[r].schedule in t.schedules && !t.schedules[t.runs[r].schedule].deleted
  }

  /** The first i ready runs hold their lease; every other row is as before. */
  ghost predicate ClaimedSoFar(t0: Tables, t: Tables, ready: seq<RunId>, i: nat, now: real, lease: real)
    requires i <= |ready|
  {
    && t.schedules == t0.schedules && t.runs.Keys == t0.runs.Keys
    && (forall j | 0 <= j < i :: ready[j] in t.runs && ClaimedAt(t, ready[j], now + lease))
    && (forall r | r in t.runs && r !in ready[..i] :: t.runs[r] == t0.runs[r])
    && (forall j | i <= j < |ready| :: Ready(t, ready[j], now))
  }

  lemma {:induction false} ClaimedOneMore(t0: Tables, t: Tables, ready: seq<RunId>, i: nat, now: real, lease: real)
    requires i < |ready| && ClaimedSoFar(t0, t, ready, i, now, lease)
    requires forall a, b | 0 <= a < b < |ready| :: ready[a] != ready[b]
    ensures Ready(t, ready[i], now)
    ensures ClaimedSoFar(t0, Claim(t, ready[i], now, lease), ready, i + 1, now, lease)
  {
    var t' := Claim(t, ready[i], now, lease);
    assert ready[..i + 1] == ready[..i] + [ready[i]];
    assert t'.runs.Keys == t.runs.Keys;
  }

  class WorkRegistry {
    var tables: Tables

    ghost predicate Valid()
      reads this
    {
      RowsOk(tables)
    }

    constructor ()
      ensures Valid() && tables == Tables(map[], map[], 0) && forall s :: OneActive(tables, s)
    {
      tables := Tables(map[], map[], 0);
    }

    method CreateSchedule(nextRun: real, repeat: nat) returns (s: ScheduleId)
      requires Valid()
      modifies this
      ensures Valid() && Link(old(tables), QUIET, tables)
      ensures tables == Create(old(tables), nextRun, repeat) && s == old(tables).issued && !Gone(tables, s)
    {
      CreateKeeps(tables, nextRun, repeat);
      s := tables.issued;
      tables := Create(tables, nextRun, repeat);
    }

    method DeleteSchedule(s: ScheduleId) returns (found: bool)
      requires Valid()
      modifies this
      ensures Valid() && Link(old(tables), QUIET, tables)
      ensures found <==> s in old(tables).schedules
      ensures tables == if found then Delete(old(tables), s) else old(tables)
      ensures found ==> Gone(tables, s)
    {
      if s !in tables.schedules { return false; }
      DeleteKeeps(tables, s);
      tables := Delete(tables, s);
      return true;
    }

    /** Requeue or fail expired leases, queue due occurrences, then claim ready runs. */
    method ClaimDueSchedules(now: real, limit: nat, lease: real)
      returns (claimed: seq<RunId>, ghost rows: seq<ScheduleId>)
      requires Valid()
      modifies this
      ensures Valid() && Link(old(tables), Event(claimed, None), tables)
      ensures var expired := ExpireLeases(old(tables), now);
              var queued := OccurAll(expired, rows, now);
              && OrderedPrefix(rows, DueTimes(expired, now), limit)
              && OrderedPrefix(claimed, ReadyTimes(queued, now), limit)
              && tables == ClaimAll(queued, claimed, now, lease)
      ensures forall r | r in claimed ::
                r in tables.runs && ClaimedAt(tables, r, now + lease)
      ensures |claimed| <= limit && (|claimed| < limit ==> forall r | r in tables.runs :: !Ready(tables, r, now))
    {
      ExpireKeeps(tables, now);
      tables := ExpireLeases(tables, now);
      rows := QueueOccurrences(now, limit);
      var ready := OrderByLimit(ReadyTimes(tables, now), limit);
      ClaimReady(ready, now, lease);
      claimed := ready;
    }

    method ClaimReady(ready: seq<RunId>, now: real, lease: real)
      requires Valid()
      requires forall i | 0 <= i < |ready| :: Ready(tables, ready[i], now)
      requires forall i, j | 0 <= i < j < |ready| :: ready[i] != ready[j]
      modifies this
      ensures Valid() && OneActiveStays(old(tables), tables) && GoneStaysGone(old(tables), tables)
      ensures tables == ClaimAll(old(tables), ready, now, lease)
      ensures forall r | r in ready :: r in tables.runs && ClaimedAt(tables, r, now + lease)
      ensures forall r | r in tables.runs && r !in ready ::
                r in old(tables).runs && tables.runs[r] == old(tables).runs[r]
      ensures tables.schedules == old(tables).schedules
    {
      for i := 0 to |ready|
        invariant Valid() && OneActiveStays(old(tables), tables) && GoneStaysGone(old(tables), tables)
        invariant tables == ClaimAll(old(tables), ready[..i], now, lease)
        invariant ClaimedSoFar(old(tables), tables, ready, i, now, lease)
      {
        assert Ready(tables, ready[i], now);
        ClaimKeeps(tables, ready[i], now, lease);
        ClaimedOneMore(old(tables), tables, ready, i, now, lease);
        tables := Claim(tables, ready[i], now, lease);
        assert ready[..i + 1][..i] == ready[..i];
      }
      assert ready[..|ready|] == ready;
    }

    method QueueOccurrences(now: real, limit: nat) returns (rows: seq<ScheduleId>)
      requires Valid()
      modifies this
      ensures Valid() && OneActiveStays(old(tables), tables) && GoneStaysGone(old(tables), tables)
      ensures tables == OccurAll(old(tables), rows, now)
      ensures OrderedPrefix(rows, DueTimes(old(tables), now), limit)
    {
      rows := OrderByLimit(DueTimes(tables, now), limit);
      for i := 0 to |rows|
        invariant Valid() && OneActiveStays(old(tables), tables) && GoneStaysGone(old(tables), tables)
        invariant tables == OccurAll(old(tables), rows[..i], now)
        invariant forall j | i <= j < |rows| :: Due(tables, rows[j], now)
      {
        var s := rows[i];
        OccurKeeps(tables, s, now);
        assert rows[..i + 1][..i] == rows[..i];
        tables := Occur(tables, s, now);
      }
      assert rows[..|rows|] == rows;
    }

    method MarkScheduleRunning(r: RunId, now: real, lease: real) returns (changed: bool)
      requires Valid()
      modifies this
      ensures Valid() && Link(old(tables), QUIET, tables)
      ensures tables == MarkRunning(old(tables), r, now, lease)
      ensures changed <==> r in old(tables).runs && old(tables).runs[r].status == Claimed
    {
      LeaseKeeps(tables, r, now, lease);
      changed := r in tables.runs && tables.runs[r].status == Claimed;
      tables := MarkRunning(tables, r, now, lease);
    }

    method RenewScheduleRun(r: RunId, now: real, lease: real) returns (changed: bool)
      requires Valid()
      modifies this
      ensures Valid() && Link(old(tables), QUIET, tables)
      ensures tables == Renew(old(tables), r, now, lease)
      ensures changed <==> r in old(tables).runs && Leased(old(tables).runs[r])
    {
      LeaseKeeps(tables, r, now, lease);
      changed := r in tables.runs && Leased(tables.runs[r]);
      tables := Renew(tables, r, now, lease);
    }

    /** A run in any status can be completed; putting it back beside another active run is a late retry. */
    method CompleteSchedule(r: RunId, failed: bool, now: real) returns (status: Option<RunStatus>, ghost e: Event)
      requires Valid()
      modifies this
      ensures Valid() && Link(old(tables), e, tables) && e.claimed == []
      ensures status.Some? <==> r in old(tables).runs
      ensures r in old(tables).runs ==>
                && RunOk(old(tables), r)
                && tables == Completed(old(tables), r, failed, now)
                && e.late == (if LateRequeue(old(tables), r, failed) then Some(old(tables).runs[r].schedule) else None)
                && (Active(old(tables).runs[r]) ==> OneActiveStays(old(tables), tables))
                && (status == Some(Queued) <==> Requeues(old(tables), r, failed))
                && (status == Some(Succeeded) <==> !failed)
      ensures r !in old(tables).runs ==> tables == old(tables) && e == QUIET
    {
      e := QUIET;
      if r !in tables.runs { return None, e; }
      CompletionIsSafeIff(tables, r, failed, now);
      CompletedKeepsRest(tables, r, failed, now);
      if Active(tables.runs[r]) { CompletingActiveRunIsSafe(tables, r, failed, now); }
      if LateRequeue(tables, r, failed) { e := Event([], Some(tables.runs[r].schedule)); }
      status := Some(if !failed then Succeeded else if Requeues(tables, r, failed) then Queued else Failed);
      tables := Completed(tables, r, failed, now);
    }
  }
}
