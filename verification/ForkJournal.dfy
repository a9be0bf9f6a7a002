/**
 The Claude fork journal: an in-memory dictionary, its file, and the operations
 that replace the file before the dictionary.

 A save can be lost, or reach the file and still be reported as failed. `claimed`
 is the set of retained roots for which a submission claim has returned true.
 */
module ForkJournal {
  import opened Wrappers
  import opened ForkRows

  datatype ForkError = OtherSource | CapacityExhausted | IntentMissing | NotSubmitted
                     | NotClaimed | AlreadyRejected | AlreadyComplete | TwoChildren | NotPersisted

  datatype Save = Saved | Lost | SavedUnsynced

  datatype State = State(entries: Entries, disk: Entries, claimed: set<Id>)

  /** No retained root whose submission was let through is back at intent. */
  ghost predicate Guarded(s: State) {
    forall r | r in s.claimed :: r in s.entries.rows && s.entries.rows[r].status !in {Intent, Alias}
  }

  /** The file is the dictionary, or one unacknowledged save ahead of it. */
  ghost predicate Inv(s: State) {
    && Ordered(s.entries) && Ordered(s.disk)
    && Forest(s.entries.rows) && Forest(s.disk.rows)
    && Advances(s.entries.rows, s.disk.rows)
    && Guarded(s)
  }

  /** What one call may change; `event` names the root whose submission it let through. */
  ghost predicate Link(s: State, event: Option<Id>, s': State) {
    && Guarded(s')
    && Advances(s.entries.rows, s'.entries.rows)
    && s'.claimed == (s.claimed + (if event.Some? then {event.value} else {})) * s'.entries.rows.Keys
    && (event.Some? ==>
          && event.value in s.entries.rows && s.entries.rows[event.value].status == Intent
          && event.value in s'.disk.rows && s'.disk.rows[event.value].status == Submitted)
  }

  ghost predicate Step(s: State, event: Option<Id>, s': State) {
    Inv(s') && Link(s, event, s')
  }

  // ---------- laws over whole runs ----------

  ghost predicate Run(states: seq<State>, events: seq<Option<Id>>) {
    && |states| == |events| + 1
    && forall i | 0 <= i < |events| :: Link(states[i], events[i], states[i + 1])
  }

  ghost predicate Retained(states: seq<State>, from: nat, to: nat, k: Id)
    requires to < |states|
  {
    forall m | from <= m <= to :: k in states[m].entries.rows
  }

  lemma {:induction false} ClaimIsRemembered(states: seq<State>, events: seq<Option<Id>>, i: nat, j: nat, r: Id)
    requires Run(states, events) && i < j <= |events|
    requires events[i] == Some(r) && Retained(states, i + 1, j, r)
    ensures r in states[j].claimed && Guarded(states[j])
  {
    assert Link(states[j - 1], events[j - 1], states[j]);
    assert r in states[j].entries.rows;
    if i + 1 < j {
      ClaimIsRemembered(states, events, i, j - 1, r);
    }
  }

  /** At most once: a second claim for a root needs the first one's rows to have been dropped in between. */
  lemma {:induction false} SubmissionAtMostOnce(states: seq<State>, events: seq<Option<Id>>, i: nat, j: nat, r: Id)
    requires Run(states, events) && i < j < |events|
    requires events[i] == Some(r) && events[j] == Some(r)
    ensures exists m :: i < m <= j && r !in states[m].entries.rows
  {
    if Retained(states, i + 1, j, r) {
      ClaimIsRemembered(states, events, i, j, r);
      ClaimNeedsIntent(states, events, j, j, r);
      assert false;
    }
  }

  /** While a row is retained, across calls and reloads, it never goes back and keeps its source. */
  lemma {:induction false} RowsNeverGoBack(states: seq<State>, events: seq<Option<Id>>, i: nat, j: nat, k: Id)
    requires Run(states, events) && i <= j <= |events| && Retained(states, i, j, k)
    ensures EntryAdvances(states[i].entries.rows[k], states[j].entries.rows[k])
  {
    if i < j {
      assert k in states[j - 1].entries.rows && k in states[j].entries.rows;
      RowsNeverGoBack(states, events, i, j - 1, k);
      assert Link(states[j - 1], events[j - 1], states[j]);
    }
  }

  /** A claim succeeds only for a root that no call has taken past intent since it was written. */
  lemma {:induction false} ClaimNeedsIntent(states: seq<State>, events: seq<Option<Id>>, i: nat, j: nat, r: Id)
    requires Run(states, events) && i <= j < |events| && events[j] == Some(r) && Retained(states, i, j, r)
    ensures forall m | i <= m <= j :: Rank(states[m].entries.rows[r].status) == 0
    ensures states[j].entries.rows[r].status == Intent
  {
    assert Link(states[j], events[j], states[j + 1]);
    forall m | i <= m <= j ensures Rank(states[m].entries.rows[r].status) == 0 {
      RowsNeverGoBack(states, events, m, j, r);
    }
  }

  /** A row that was there unresolved and is gone later had been completed or rejected in between. */
  lemma {:induction false} UnresolvedIsKept(states: seq<State>, events: seq<Option<Id>>, i: nat, j: nat, k: Id)
    requires Run(states, events) && i < j <= |events|
    requires k in states[i].entries.rows && Unresolved(states[i].entries.rows[k]) && k !in states[j].entries.rows
    ensures exists m :: i < m < j && k in states[m].entries.rows && !Unresolved(states[m].entries.rows[k])
    decreases j - i
  {
    assert Link(states[i], events[i], states[i + 1]);
    if Unresolved(states[i + 1].entries.rows[k]) {
      UnresolvedIsKept(states, events, i + 1, j, k);
    }
  }

  // ---------- rows after each operation ----------

  /** Only the root of the request changes, and only from one status to the next. */
  ghost predicate Moved(before: Rows, after: Rows, requestId: Id, from: Status, to: Status) {
    && requestId in before
    && var root := RootId(requestId, before[requestId]);
       root in before && before[root].status == from && after == before[root := before[root].(status := to)]
  }

  function Group(rows: Rows, marker: Marker): set<Id> {
    set k | k in rows && rows[k].marker == marker
  }

  /** A whole marker group resolved one way: it can be compacted away. */
  predicate TerminalGroup(rows: Rows, group: set<Id>) {
    || (forall a, b | a in group && b in group && a in rows && b in rows ::
          rows[a].status == Complete && rows[a].child == rows[b].child)
    || (forall a, b | a in group && b in group && a in rows && b in rows ::
          rows[a].status == Rejected && rows[a].error == rows[b].error)
  }

  function Resolved(e: Entry, child: Option<Id>, error: Option<string>): Entry {
    e.(status := if child.Some? then Complete else Rejected, child := child, error := error)
  }

  function ResolveGroup(rows: Rows, marker: Marker, child: Option<Id>, error: Option<string>): Rows {
    map k | k in rows :: if rows[k].marker == marker then Resolved(rows[k], child, error) else rows[k]
  }

  lemma {:induction false} AdvanceRefl(rows: Rows)
    ensures Advances(rows, rows)
  {
  }

  lemma {:induction false} CompactKeepsForest(rows: Rows, k: Id)
    requires Forest(rows) && k in rows && !Unresolved(rows[k])
    ensures var rows' := rows - Group(rows, rows[k].marker);
            Forest(rows') && Advances(rows, rows') && |rows'| < |rows| && k !in rows'
  {
    var gone := Group(rows, rows[k].marker);
    var rows' := rows - gone;
    GroupsAreTrees(rows, k);
    assert rows'.Keys == rows.Keys - gone;
    assert k in gone;
    assert |rows'| == |rows'.Keys| == |rows.Keys - gone|;
    SmallerAfterRemoval(rows.Keys, gone, k);
    forall j | j in rows' ensures ValidRow(rows', j) {
      assert ValidRow(rows, j);
    }
    forall j | j in rows && Unresolved(rows[j]) ensures j in rows' {
      GroupsAreTrees(rows, j);
    }
    forall a, b | a in rows' && b in rows' ensures OneOpenRoot(rows', a, b) {
      assert OneOpenRoot(rows, a, b);
    }
  }

  /** `after` is `before` without some resolved rows. */
  ghost predicate Compacted(before: Rows, after: Rows) {
    && (forall k | k in after :: k in before && after[k] == before[k])
    && (forall k | k in before && Unresolved(before[k]) :: k in after)
  }

  /** The journal is full of requests that are not resolved. */
  predicate NoRoom(rows: Rows) {
    |rows| >= MAX_ENTRIES && forall k | k in rows :: Unresolved(rows[k])
  }

  /**
   One new row: a fresh intent of its own, or an alias of an open root. Only
   resolved rows are dropped for it, and none while there is room.
   */
  ghost predicate Inserted(before: Rows, after: Rows, k: Id, e: Entry) {
    && k !in before && k in after && after[k] == e && e.child == None && e.error == None
    && Compacted(before, after - {k})
    && (|before| < MAX_ENTRIES ==> after == before[k := e])
    && match e.status
       case Intent => e.canonical == None && e.marker == ForkMarker(k)
       case Alias => e.canonical.Some? && e.canonical.value in before && OpenRoot(before[e.canonical.value])
                     && before[e.canonical.value].identity == e.identity && before[e.canonical.value].marker == e.marker
       case _ => false
  }

  lemma {:induction false} CompactedThenPut(before: Rows, after: Rows, k: Id, e: Entry)
    requires Compacted(before, after) && k !in before
    ensures Advances(before, after[k := e]) && after[k := e] - {k} == after
  {
  }

  lemma {:induction false} SmallerAfterRemoval(s: set<Id>, gone: set<Id>, k: Id)
    requires k in s && k in gone
    ensures |s - gone| < |s|
  {
    assert s == (s - gone) + (s * gone) && k in s * gone;
  }

  ghost predicate NoOpenRow(rows: Rows, identity: Identity) {
    forall k | k in rows && Unresolved(rows[k]) :: rows[k].identity != identity
  }

  lemma {:induction false} BeginKeepsForest(rows: Rows, k: Id, e: Entry)
    requires Forest(rows) && k !in rows && |rows| < MAX_ENTRIES
    requires ValidEntry(k, e) && ValidAlias(rows, e)
    requires e.canonical.None? ==> NoOpenRow(rows, e.identity)
    ensures Forest(rows[k := e]) && Advances(rows, rows[k := e])
  {
    var rows' := rows[k := e];
    assert rows'.Keys == rows.Keys + {k};
    assert |rows'.Keys| == |rows.Keys| + 1;
    forall j | j in rows' ensures ValidRow(rows', j) {
      if j != k { assert ValidRow(rows, j); }
    }
    forall a, b | a in rows' && b in rows' ensures OneOpenRoot(rows', a, b) {
      if a != k && b != k { assert OneOpenRoot(rows, a, b); }
    }
  }

  /** A root moves to another open status. */
  lemma {:induction false} OpenStepKeepsForest(rows: Rows, r: Id, status: Status)
    requires Forest(rows) && r in rows && OpenRoot(rows[r]) && status in {Submitted, Uncertain}
    requires Rank(rows[r].status) <= Rank(status)
    ensures var rows' := rows[r := rows[r].(status := status)]; Forest(rows') && Advances(rows, rows')
  {
    var rows' := rows[r := rows[r].(status := status)];
    assert rows'.Keys == rows.Keys;
    assert |rows'.Keys| == |rows.Keys|;
    forall j | j in rows' ensures ValidRow(rows', j) {
      assert ValidRow(rows, j);
    }
    forall a, b | a in rows' && b in rows' ensures OneOpenRoot(rows', a, b) {
      assert OneOpenRoot(rows, a, b);
    }
  }

  /** Resolving is allowed from any status that is not resolved the other way. */
  ghost predicate MayResolve(root: Entry, child: Option<Id>, error: Option<string>) {
    && root.canonical.None?
    && (child.Some? <==> error.None?)
    && (child.Some? ==> root.status != Rejected && (root.status == Complete ==> root.child == child))
    && (error.Some? ==> 1 <= |error.value| <= MAX_ERROR_CHARS && root.status != Complete)
  }

  lemma {:induction false} ResolvedRow(rows: Rows, r: Id, j: Id, child: Option<Id>, error: Option<string>)
    requires Forest(rows) && r in rows && j in rows && MayResolve(rows[r], child, error)
    ensures var rows' := ResolveGroup(rows, rows[r].marker, child, error);
            ValidRow(rows', j) && EntryAdvances(rows[j], rows'[j])
  {
    assert ValidRow(rows, j) && ValidRow(rows, r);
    if rows[j].canonical.Some? { assert ValidRow(rows, rows[j].canonical.value); }
  }

  lemma {:induction false} ResolveAdvances(rows: Rows, r: Id, child: Option<Id>, error: Option<string>)
    requires Forest(rows) && r in rows && MayResolve(rows[r], child, error)
    ensures Advances(rows, ResolveGroup(rows, rows[r].marker, child, error))
  {
    var rows' := ResolveGroup(rows, rows[r].marker, child, error);
    forall j | j in rows && j in rows' ensures EntryAdvances(rows[j], rows'[j]) {
      ResolvedRow(rows, r, j, child, error);
    }
  }

  lemma {:induction false} ResolveKeepsForest(rows: Rows, r: Id, child: Option<Id>, error: Option<string>)
    requires Forest(rows) && r in rows && MayResolve(rows[r], child, error)
    ensures Forest(ResolveGroup(rows, rows[r].marker, child, error))
  {
    var rows' := ResolveGroup(rows, rows[r].marker, child, error);
    assert rows'.Keys == rows.Keys;
    assert |rows'.Keys| == |rows.Keys|;
    forall j | j in rows' ensures ValidRow(rows', j) {
      ResolvedRow(rows, r, j, child, error);
    }
    forall a, b | a in rows' && b in rows' ensures OneOpenRoot(rows', a, b) {
      assert OneOpenRoot(rows, a, b);
    }
  }

  function AfterSave(s: State, updated: Entries, save: Save): State {
    var entries := if save.Saved? then updated else s.entries;
    State(entries, if save.Lost? then s.disk else updated, s.claimed * entries.rows.Keys)
  }

  lemma {:induction false} PersistStep(s: State, updated: Entries, save: Save)
    requires Inv(s) && Ordered(updated) && Forest(updated.rows) && Advances(s.entries.rows, updated.rows)
    ensures Step(s, None, AfterSave(s, updated, save))
  {
    AdvanceRefl(s.entries.rows);
    AdvanceRefl(updated.rows);
    var s' := AfterSave(s, updated, save);
    assert s'.entries == s.entries || s'.entries == updated;
    assert s'.disk == s.disk || s'.disk == updated;
  }

  /** A call that keeps the rows, whatever it does to their order in memory. */
  lemma {:induction false} IdleStep(s: State, entries: Entries)
    requires Inv(s) && Ordered(entries) && entries.rows == s.entries.rows
    ensures Step(s, None, s.(entries := entries))
  {
    AdvanceRefl(s.entries.rows);
    assert s.claimed * s.entries.rows.Keys == s.claimed;
  }

  lemma {:induction false} ClaimStep(s: State, s': State, root: Id)
    requires Step(s, None, s') && s'.disk == s'.entries
    requires root in s.entries.rows && s.entries.rows[root].status == Intent
    requires root in s'.entries.rows && s'.entries.rows[root].status == Submitted
    ensures Step(s, Some(root), s'.(claimed := s'.claimed + {root}))
  {
  }

  /** The sweep over a marker's rows has passed the first i keys. */
  ghost predicate Swept(e: Entries, e': Entries, i: nat, marker: Marker, child: Option<Id>, error: Option<string>) {
    && i <= |e.order|
    && (forall k | k in e.order :: k in e.rows)
    && e'.rows.Keys == e.rows.Keys
    && (forall k | k in e.order[..i] :: e'.rows[k] == ResolveGroup(e.rows, marker, child, error)[k])
    && (forall k | k in e.order[i..] :: e'.rows[k] == e.rows[k])
    && e'.order == Keep(e.order[..i], e.rows, marker, false) + e.order[i..] + Keep(e.order[..i], e.rows, marker, true)
  }

  lemma {:induction false} SweptNone(e: Entries, marker: Marker, child: Option<Id>, error: Option<string>)
    requires Ordered(e)
    ensures Swept(e, e, 0, marker, child, error)
  {
    OrderedMembers(e);
    assert e.order[..0] == [] && e.order[0..] == e.order;
  }

  lemma {:induction false} SweptAll(e: Entries, e': Entries, marker: Marker, child: Option<Id>, error: Option<string>)
    requires Ordered(e) && Swept(e, e', |e.order|, marker, child, error)
    ensures e'.rows == ResolveGroup(e.rows, marker, child, error)
    ensures e'.order == Keep(e.order, e.rows, marker, false) + Keep(e.order, e.rows, marker, true)
  {
    OrderedMembers(e);
    assert e.order[..|e.order|] == e.order && e.order[|e.order|..] == [];
  }

  lemma {:induction false} SweptPrefix(e: Entries, i: nat)
    requires Ordered(e) && i < |e.order|
    ensures e.order[..i + 1] == e.order[..i] + [e.order[i]] && e.order[..i + 1][..i] == e.order[..i]
    ensures e.order[i..] == [e.order[i]] + e.order[i + 1..]
    ensures e.order[i] !in e.order[..i] && e.order[i] !in e.order[i + 1..]
    ensures forall k :: k in e.order[..i + 1] <==> k in e.order[..i] || k == e.order[i]
  {
    OrderedOnce(e, i);
  }

  lemma {:induction false} SweepRow(e: Entries, e': Entries, i: nat, marker: Marker, child: Option<Id>,
      error: Option<string>)
    requires Ordered(e) && Swept(e, e', i, marker, child, error) && i < |e.order|
    requires e.rows[e.order[i]].marker == marker
    ensures var key := e.order[i];
            Swept(e, MoveToEnd(Put(e', key, Resolved(e.rows[key], child, error)), key), i + 1, marker, child, error)
  {
    var key, front, rest := e.order[i], e.order[..i], e.order[i + 1..];
    SweptPrefix(e, i);
    KeepIsPart(front, e.rows, marker, false);
    KeepIsPart(front, e.rows, marker, true);
    MovedOrder(Keep(front, e.rows, marker, false), key, rest, Keep(front, e.rows, marker, true), e'.order);
  }

  lemma {:induction false} SkipRow(e: Entries, e': Entries, i: nat, marker: Marker, child: Option<Id>,
      error: Option<string>)
    requires Ordered(e) && Swept(e, e', i, marker, child, error) && i < |e.order|
    requires e.rows[e.order[i]].marker != marker
    ensures Swept(e, e', i + 1, marker, child, error)
  {
    SweptPrefix(e, i);
    assert Keep(e.order[..i + 1], e.rows, marker, false) == Keep(e.order[..i], e.rows, marker, false) + [e.order[i]];
  }

  // ---------- the journal ----------

  /** The stored error: the message, cut to its limit, or a stock text instead of nothing. */
  function Bounded(message: string): (r: string)
    ensures 1 <= |r| <= MAX_ERROR_CHARS
    ensures message != "" ==> r <= message
    ensures r == message <==> 1 <= |message| <= MAX_ERROR_CHARS
  {
    var text := if message == "" then "Claude SDK rejected the fork" else message;
    if |text| > MAX_ERROR_CHARS then text[..MAX_ERROR_CHARS] else text
  }

  class ClaudeForkJournal {
    var entries: Entries
    var disk: Entries
    ghost var claimed: set<Id>

    ghost function Now(): State
      reads this
    {
      State(entries, disk, claimed)
    }

    ghost predicate Valid()
      reads this
    {
      Inv(Now())
    }

    constructor ()
      ensures Valid() && entries == Entries([], map[]) && claimed == {}
    {
      entries := Entries([], map[]);
      disk := Entries([], map[]);
      claimed := {};
    }

    /** Atomic replace of the file, then of the dictionary. */
    method Persist(updated: Entries, save: Save) returns (ok: bool)
      requires Valid()
      requires Ordered(updated) && Forest(updated.rows) && Advances(entries.rows, updated.rows)
      modifies this
      ensures ok <==> save.Saved?
      ensures entries == if ok then updated else old(entries)
      ensures disk == if save.Lost? then old(disk) else updated
      ensures claimed == old(claimed) * entries.rows.Keys
      ensures Step(old(Now()), None, Now())
    {
      PersistStep(Now(), updated, save);
      if !save.Lost? { disk := updated; }
      if save.Saved? { entries := updated; }
      claimed := claimed * entries.rows.Keys;
      return save.Saved?;
    }

    /** Opening the journal again after a crash. */
    method Reload() returns (ok: bool)
      requires Valid()
      modifies this
      ensures ok && entries == disk == old(disk)
      ensures Step(old(Now()), None, Now())
    {
      if !Loadable(disk.rows) { return false; }
      entries := disk;
      claimed := claimed * disk.rows.Keys;
      AdvanceRefl(disk.rows);
      return true;
    }

    function Canonical(requestId: Id): Result<Id, ForkError>
      reads this
    {
      if requestId !in entries.rows then Err(IntentMissing)
      else
        var r := RootId(requestId, entries.rows[requestId]);
        if r !in entries.rows then Err(IntentMissing) else Ok(r)
    }

    /** The open root of a source message, if one is retained. */
    method FindOpenRoot(identity: Identity) returns (r: Option<Id>)
      requires Valid()
      ensures r.Some? ==> r.value in entries.rows && OpenRoot(entries.rows[r.value])
                          && entries.rows[r.value].identity == identity
      ensures r.None? ==> NoOpenRow(entries.rows, identity)
    {
      OrderedMembers(entries);
      for i := 0 to |entries.order|
        invariant forall j | 0 <= j < i ::
                    Unresolved(entries.rows[entries.order[j]]) ==> entries.rows[entries.order[j]].identity != identity
      {
        var key := entries.order[i];
        var value := entries.rows[key];
        if Unresolved(value) && value.identity == identity {
          GroupsAreTrees(entries.rows, key);
          return Some(RootId(key, value));
        }
      }
      return None;
    }

    /** The keys of the first marker group, in order, that is resolved one way; empty when none is. */
    static method TerminalGroupForCompaction(e: Entries) returns (keys: set<Id>)
      requires Ordered(e) && Forest(e.rows)
      ensures keys != {} ==> exists k ::
                k in e.rows && !Unresolved(e.rows[k]) && keys == Group(e.rows, e.rows[k].marker)
      ensures keys == {} ==> forall k | k in e.rows :: Unresolved(e.rows[k])
    {
      OrderedMembers(e);
      for i := 0 to |e.order|
        invariant forall j | 0 <= j < i :: Unresolved(e.rows[e.order[j]])
      {
        var key := e.order[i];
        var group := Group(e.rows, e.rows[key].marker);
        assert key in group;
        if TerminalGroup(e.rows, group) { return group; }
        TerminalIffResolved(e.rows, key);
      }
      return {};
    }

    method Begin(requestId: Id, identity: Identity, save: Save) returns (r: Result<Entry, ForkError>)
      requires Valid()
      modifies this
      ensures Step(old(Now()), None, Now())
      ensures r.Ok? ==>
                && requestId in entries.rows && entries.rows[requestId] == r.value && r.value.identity == identity
                && (requestId in old(entries).rows ==> entries.rows == old(entries).rows && disk == old(disk))
                && (requestId !in old(entries).rows ==>
                      && Inserted(old(entries).rows, entries.rows, requestId, r.value) && disk == entries
                      && (r.value.status == Intent <==> NoOpenRow(old(entries).rows, identity)))
      ensures r.Err? ==> entries == old(entries)
      ensures r == Err(OtherSource) <==>
                requestId in old(entries).rows && old(entries).rows[requestId].identity != identity
      ensures r == Err(CapacityExhausted) <==> requestId !in old(entries).rows && NoRoom(old(entries).rows)
      ensures r == Err(NotPersisted) ==> !save.Saved?
    {
      IdleStep(Now(), entries);
      if requestId in entries.rows {
        var existing := entries.rows[requestId];
        if existing.identity != identity { return Err(OtherSource); }
        OrderedMoveToEnd(entries, requestId);
        IdleStep(Now(), MoveToEnd(entries, requestId));
        entries := MoveToEnd(entries, requestId);
        return Ok(existing);
      }
      var canonical := FindOpenRoot(identity);
      r := Insert(requestId, identity, canonical, save);
    }

    /** Adds the row of a new request, an alias when its source already has an open root. */
    method Insert(requestId: Id, identity: Identity, canonical: Option<Id>, save: Save)
      returns (r: Result<Entry, ForkError>)
      requires Valid() && requestId !in entries.rows
      requires canonical.Some? ==> canonical.value in entries.rows && OpenRoot(entries.rows[canonical.value])
                                   && entries.rows[canonical.value].identity == identity
      requires canonical.None? ==> NoOpenRow(entries.rows, identity)
      modifies this
      ensures Step(old(Now()), None, Now())
      ensures r.Ok? ==> Inserted(old(entries).rows, entries.rows, requestId, r.value) && r.value.identity == identity
                        && disk == entries && r.value.status == if canonical.None? then Intent else Alias
      ensures r.Err? ==> entries == old(entries) && (r.error == CapacityExhausted || r.error == NotPersisted)
      ensures r == Err(CapacityExhausted) <==> NoRoom(old(entries).rows)
      ensures r == Err(NotPersisted) ==> !save.Saved?
    {
      IdleStep(Now(), entries);
      var compacted := Compact();
      if compacted.None? { return Err(CapacityExhausted); }
      var updated := compacted.value;
      var entry :=
        if canonical.None? then Entry(identity, ForkMarker(requestId), None, Intent, None, None)
        else Entry(identity, entries.rows[canonical.value].marker, canonical, Alias, None, None);
      if canonical.Some? { assert ValidRow(updated.rows, canonical.value); }
      BeginKeepsForest(updated.rows, requestId, entry);
      OrderedPut(updated, requestId, entry);
      CompactedThenPut(entries.rows, updated.rows, requestId, entry);
      var ok := Persist(Put(updated, requestId, entry), save);
      return if ok then Ok(entry) else Err(NotPersisted);
    }

    /** Drops resolved groups, oldest first, until there is room for one more row. */
    method Compact() returns (r: Option<Entries>)
      requires Valid()
      ensures r.None? <==> NoRoom(entries.rows)
      ensures r.Some? ==>
                && Ordered(r.value) && Forest(r.value.rows) && |r.value.rows| < MAX_ENTRIES
                && Compacted(entries.rows, r.value.rows)
                && (|entries.rows| < MAX_ENTRIES ==> r.value == entries)
    {
      var updated := entries;
      while |updated.rows| >= MAX_ENTRIES
        invariant Ordered(updated) && Forest(updated.rows) && Compacted(entries.rows, updated.rows)
        invariant updated == entries || (|updated.rows| < MAX_ENTRIES <= |entries.rows| && !NoRoom(entries.rows))
        decreases |updated.rows|
      {
        var removable := TerminalGroupForCompaction(updated);
        if removable == {} { return None; }
        updated := Remove(updated, removable);
      }
      return Some(updated);
    }

    static method Remove(e: Entries, keys: set<Id>) returns (e': Entries)
      requires Ordered(e) && Forest(e.rows)
      requires exists k :: k in e.rows && !Unresolved(e.rows[k]) && keys == Group(e.rows, e.rows[k].marker)
      ensures Ordered(e') && e'.rows == e.rows - keys
      ensures Forest(e'.rows) && Advances(e.rows, e'.rows) && |e'.rows| < |e.rows|
    {
      var order := OrderWithout(e.order, e.rows.Keys, keys);
      e' := Entries(order, e.rows - keys);
      assert e'.rows.Keys == e.rows.Keys - keys;
      ghost var k :| k in e.rows && !Unresolved(e.rows[k]) && keys == Group(e.rows, e.rows[k].marker);
      CompactKeepsForest(e.rows, k);
    }

    /** Takes the keys out of the order, one by one. */
    static method OrderWithout(order: seq<Id>, all: set<Id>, keys: set<Id>) returns (rest: seq<Id>)
      requires multiset(order) == multiset(all)
      ensures multiset(rest) == multiset(all - keys)
    {
      rest := order;
      var todo, left := keys, all;
      while todo != {}
        invariant todo <= keys && left == all - (keys - todo) && multiset(rest) == multiset(left)
      {
        var key :| key in todo;
        WithoutMembers(rest, key);
        rest := Without(rest, key);
        todo, left := todo - {key}, left - {key};
      }
    }

    /** Persist the at-most-once boundary. */
    method ClaimSubmission(requestId: Id, save: Save) returns (r: Result<bool, ForkError>)
      requires Valid()
      modifies this
      ensures requestId !in old(entries).rows <==> r == Err(IntentMissing)
      ensures r.Err? ==> r.error == IntentMissing || r.error == NotPersisted
      ensures r == Err(NotPersisted) ==> !save.Saved?
      ensures r == Ok(true) ==> disk == entries && Moved(old(entries).rows, entries.rows, requestId, Intent, Submitted)
      ensures r == Ok(true) ==> Step(old(Now()), Some(RootId(requestId, old(entries).rows[requestId])), Now())
      ensures r != Ok(true) ==> Step(old(Now()), None, Now()) && entries == old(entries)
      ensures r == Ok(false) ==>
                var root := RootId(requestId, old(entries).rows[requestId]);
                root in old(entries).rows && old(entries).rows[root].status != Intent
    {
      IdleStep(Now(), entries);
      if requestId in entries.rows { GroupsAreTrees(entries.rows, requestId); }
      var canonical := Canonical(requestId);
      if canonical.Err? { return Err(canonical.error); }
      var root := canonical.value;
      if entries.rows[root].status != Intent { return Ok(false); }
      var ok := ClaimRoot(root, save);
      return if ok then Ok(true) else Err(NotPersisted);
    }

    method ClaimRoot(root: Id, save: Save) returns (ok: bool)
      requires Valid()
      requires root in entries.rows && OpenRoot(entries.rows[root]) && entries.rows[root].status == Intent
      modifies this
      ensures ok <==> save.Saved?
      ensures ok ==>
                && disk == entries
                && entries.rows == old(entries).rows[root := old(entries).rows[root].(status := Submitted)]
      ensures ok ==> Step(old(Now()), Some(root), Now())
      ensures !ok ==> Step(old(Now()), None, Now()) && entries == old(entries)
    {
      ok := SetStatus(root, Submitted, save);
      if ok {
        ClaimStep(old(Now()), Now(), root);
        claimed := claimed + {root};
      }
    }

    /** Saves a new open status of a root and moves the root to the end. */
    method SetStatus(root: Id, status: Status, save: Save) returns (ok: bool)
      requires Valid()
      requires root in entries.rows && OpenRoot(entries.rows[root]) && status in {Submitted, Uncertain}
      requires Rank(entries.rows[root].status) <= Rank(status)
      modifies this
      ensures Step(old(Now()), None, Now())
      ensures ok <==> save.Saved?
      ensures !ok ==> entries == old(entries)
      ensures ok ==>
                && disk == entries
                && entries.rows == old(entries).rows[root := old(entries).rows[root].(status := status)]
    {
      OpenStepKeepsForest(entries.rows, root, status);
      var updated := Put(entries, root, entries.rows[root].(status := status));
      OrderedPut(entries, root, entries.rows[root].(status := status));
      OrderedMoveToEnd(updated, root);
      ok := Persist(MoveToEnd(updated, root), save);
    }

    method MarkUncertain(requestId: Id, save: Save) returns (r: Result<Entry, ForkError>)
      requires Valid()
      modifies this
      ensures Step(old(Now()), None, Now())
      ensures r.Ok? ==> requestId in entries.rows && r.value == entries.rows[requestId]
                        && RootId(requestId, r.value) in entries.rows
                        && entries.rows[RootId(requestId, r.value)].status == Uncertain
      ensures r.Ok? && entries != old(entries) ==>
                disk == entries && Moved(old(entries).rows, entries.rows, requestId, Submitted, Uncertain)
      ensures r.Err? ==> entries == old(entries)
      ensures requestId !in old(entries).rows <==> r == Err(IntentMissing)
      ensures r == Err(NotPersisted) ==> !save.Saved?
    {
      IdleStep(Now(), entries);
      if requestId in entries.rows { GroupsAreTrees(entries.rows, requestId); }
      var canonical := Canonical(requestId);
      if canonical.Err? { return Err(canonical.error); }
      var root := canonical.value;
      if entries.rows[root].status == Uncertain { return Ok(entries.rows[requestId]); }
      if entries.rows[root].status != Submitted { return Err(NotSubmitted); }
      var ok := SetStatus(root, Uncertain, save);
      return if ok then Ok(entries.rows[requestId]) else Err(NotPersisted);
    }

    /** Rewrites every row of the marker and moves it to the end, in order. */
    static method ResolveRows(e: Entries, marker: Marker, child: Option<Id>, error: Option<string>)
      returns (e': Entries)
      requires Ordered(e)
      ensures Ordered(e') && e'.rows == ResolveGroup(e.rows, marker, child, error)
      ensures (forall k | k in e.order :: k in e.rows)
              && e'.order == Keep(e.order, e.rows, marker, false) + Keep(e.order, e.rows, marker, true)
    {
      e' := e;
      SweptNone(e, marker, child, error);
      for i := 0 to |e.order|
        invariant Ordered(e') && Swept(e, e', i, marker, child, error)
      {
        var key := e.order[i];
        if e.rows[key].marker == marker {
          SweepRow(e, e', i, marker, child, error);
          OrderedPut(e', key, Resolved(e.rows[key], child, error));
          e' := Put(e', key, Resolved(e.rows[key], child, error));
          OrderedMoveToEnd(e', key);
          e' := MoveToEnd(e', key);
        } else {
          SkipRow(e, e', i, marker, child, error);
        }
      }
      SweptAll(e, e', marker, child, error);
    }

    method Complete(requestId: Id, sessionId: Id, save: Save) returns (r: Result<Entry, ForkError>)
      requires Valid()
      modifies this
      ensures Step(old(Now()), None, Now())
      ensures r.Ok? ==>
                && requestId in old(entries).rows
                && entries.rows == ResolveGroup(old(entries).rows, old(entries).rows[requestId].marker,
                    Some(sessionId), None)
                && disk == entries && r.value == entries.rows[requestId]
      ensures r.Err? ==> entries == old(entries)
      ensures requestId !in old(entries).rows <==> r == Err(IntentMissing)
      ensures requestId in old(entries).rows && save.Saved? ==>
                var root := RootId(requestId, old(entries).rows[requestId]);
                && root in old(entries).rows
                && (r.Ok? <==> old(entries).rows[root].status == Submitted
                               || old(entries).rows[root].status == Uncertain
                               || (old(entries).rows[root].status == ForkRows.Complete
                                   && old(entries).rows[root].child == Some(sessionId)))
    {
      IdleStep(Now(), entries);
      if requestId in entries.rows { GroupsAreTrees(entries.rows, requestId); }
      var canonical := Canonical(requestId);
      if canonical.Err? { return Err(canonical.error); }
      var root := entries.rows[canonical.value];
      assert ValidRow(entries.rows, canonical.value);
      if root.status == Rejected { return Err(AlreadyRejected); }
      if root.status == Intent { return Err(NotClaimed); }
      if root.status == ForkRows.Complete && root.child != Some(sessionId) { return Err(TwoChildren); }
      var ok := ResolveMarker(canonical.value, Some(sessionId), None, save);
      return if ok then Ok(entries.rows[requestId]) else Err(NotPersisted);
    }

    /** Saves every row of the root's marker resolved one way. */
    method ResolveMarker(root: Id, child: Option<Id>, error: Option<string>, save: Save) returns (ok: bool)
      requires Valid() && root in entries.rows && MayResolve(entries.rows[root], child, error)
      modifies this
      ensures Step(old(Now()), None, Now())
      ensures ok <==> save.Saved?
      ensures !ok ==> entries == old(entries)
      ensures ok ==> disk == entries
                     && entries.rows == ResolveGroup(old(entries).rows, old(entries).rows[root].marker, child, error)
    {
      var updated := ResolveRows(entries, entries.rows[root].marker, child, error);
      ResolveKeepsForest(entries.rows, root, child, error);
      ResolveAdvances(entries.rows, root, child, error);
      ok := Persist(updated, save);
    }

    method Reject(requestId: Id, message: string, save: Save) returns (r: Result<Entry, ForkError>)
      requires Valid()
      modifies this
      ensures Step(old(Now()), None, Now())
      ensures r.Ok? ==>
                && requestId in old(entries).rows
                && entries.rows == ResolveGroup(old(entries).rows, old(entries).rows[requestId].marker, None,
                    Some(Bounded(message)))
                && disk == entries && r.value == entries.rows[requestId]
      ensures r.Err? ==> entries == old(entries)
      ensures requestId !in old(entries).rows <==> r == Err(IntentMissing)
      ensures requestId in old(entries).rows && save.Saved? ==>
                var root := RootId(requestId, old(entries).rows[requestId]);
                root in old(entries).rows && (r.Ok? <==> old(entries).rows[root].status != ForkRows.Complete)
    {
      IdleStep(Now(), entries);
      if requestId in entries.rows { GroupsAreTrees(entries.rows, requestId); }
      var canonical := Canonical(requestId);
      if canonical.Err? { return Err(canonical.error); }
      var root := entries.rows[canonical.value];
      if root.status == ForkRows.Complete { return Err(AlreadyComplete); }
      var ok := ResolveMarker(canonical.value, None, Some(Bounded(message)), save);
      return if ok then Ok(entries.rows[requestId]) else Err(NotPersisted);
    }
  }

  /** In a forest a group is resolved one way exactly when its rows are resolved. */
  lemma {:induction false} TerminalIffResolved(rows: Rows, k: Id)
    requires Forest(rows) && k in rows
    ensures TerminalGroup(rows, Group(rows, rows[k].marker)) <==> !Unresolved(rows[k])
  {
    GroupsAreTrees(rows, k);
    var root := rows[RootId(k, rows[k])];
    forall j | j in Group(rows, rows[k].marker)
      ensures !Unresolved(rows[k]) ==>
                rows[j].status == root.status && rows[j].child == root.child && rows[j].error == root.error
    {
      assert ValidRow(rows, j);
    }
    assert k in Group(rows, rows[k].marker);
    assert ValidRow(rows, k);
  }

  lemma {:induction false} KeepIsPart(order: seq<Id>, rows: Rows, marker: Marker, inGroup: bool)
    requires forall k | k in order :: k in rows
    ensures forall k | k in Keep(order, rows, marker, inGroup) :: k in order
  {
    if order != [] { KeepIsPart(order[..|order| - 1], rows, marker, inGroup); }
  }

  lemma {:induction false} MovedOrder(a: seq<Id>, k: Id, b: seq<Id>, c: seq<Id>, order: seq<Id>)
    requires order == a + ([k] + b) + c && k !in a && k !in b && k !in c
    ensures Without(order, k) + [k] == a + b + (c + [k])
  {
    var rest := b + c;
    assert order == a + [k] + rest;
    WithoutMiddle(a, k, rest);
    assert a + rest + [k] == a + b + (c + [k]);
  }
}
