/**
 The turn life cycle of the checkpoint manifest, call by call, and its alignment
 with the native turns the app-server counts.
 */
module CheckpointTurns {
  import opened Wrappers
  import opened CheckpointImages
  import opened CheckpointRecords
  import opened CheckpointRollback

  /** The manifest a call leaves durable and the error it raises. */
  datatype Step = Step(manifest: Manifest, error: Option<CheckpointError>)

  const NEW_MANIFEST := Manifest(None, None, [])

  function TurnIds(turns: seq<Record>): (ids: seq<string>)
    ensures |ids| == |turns|
  {
    seq(|turns|, i requires 0 <= i < |turns| => turns[i].turnId)
  }

  function Trim(turns: seq<Record>): seq<Record> {
    if |turns| > MAX_RETAINED_TURNS then turns[|turns| - MAX_RETAINED_TURNS..] else turns
  }

  function Tombstones(turns: seq<Record>): (r: seq<Record>)
    ensures |r| == |turns|
  {
    seq(|turns|, i requires 0 <= i < |turns| => Tombstone(turns[i].id, turns[i].turnId))
  }

  predicate Owns(m: Manifest, turnId: string) {
    m.active.Some? && m.active.value.turnId == turnId
  }

  function BeginTurn(m: Manifest, turnId: string, id: nat, pre: Snapshot, index: Index): Step {
    if m.active.Some? then Step(m, Some(ActiveTurn))
    else if turnId in TurnIds(m.turns) then Step(m, Some(DuplicateTurn))
    else Step(m.(active := Some(Active(id, turnId, pre, index, false))), None)
  }

  function AcceptTurn(m: Manifest, turnId: string): Step {
    if !Owns(m, turnId) then Step(m, Some(NoMatchingActive))
    else Step(m.(active := Some(m.active.value.(accepted := true))), None)
  }

  function ChangedIndexPaths(before: Index, after: Index): set<Path> {
    set p | p in before.entries.Keys + after.entries.Keys && Staged(before.entries, p) != Staged(after.entries, p)
  }

  /** Why a finished capture is refused, if it is. */
  function Refusal(a: Active, post: Snapshot, index: Index): Option<CheckpointError> {
    var unsupported := UnsupportedPaths(a.pre, post);
    var changed := ChangedIndexPaths(a.index, index);
    if unsupported != {} then Some(UnsupportedEntries(unsupported))
    else if changed != {} then Some(IndexChanged(changed))
    else if a.index != index then Some(IndexMetadataChanged)
    else None
  }

  function FinishTurn(m: Manifest, turnId: string, post: Snapshot, index: Index, overLimit: bool): Step {
    if !Owns(m, turnId) then Step(m, Some(NoMatchingActive))
    else
      var a := m.active.value;
      if !a.accepted then Step(m, Some(NotAccepted))
      else if Refusal(a, post, index).Some? then Step(m.(active := None), Refusal(a, post, index))
      else
        var turns := Trim(m.turns + [Completed(a, post, index)]);
        if overLimit then Step(m.(active := None, turns := Tombstones(turns)), Some(RetentionLimit))
        else Step(m.(active := None, turns := turns), None)
  }

  function AbortTurn(m: Manifest, turnId: string): Step {
    if m.active.None? then Step(m, None)
    else if !Owns(m, turnId) then Step(m, Some(NoMatchingActive))
    else Step(m.(active := None), None)
  }

  function RecordUnavailable(m: Manifest, turnId: string, id: nat): Step {
    if m.active.Some? then Step(m, Some(ActiveTurn))
    else if turnId in TurnIds(m.turns) then Step(m, None)
    else Step(m.(turns := Trim(m.turns + [Tombstone(id, turnId)])), None)
  }

  function RecoverActive(m: Manifest): Step {
    if m.active.None? then Step(m, None)
    else
      var a := m.active.value;
      var turns := if a.accepted && a.turnId !in TurnIds(m.turns)
                   then m.turns + [Tombstone(a.id, a.turnId)] else m.turns;
      Step(m.(active := None, turns := Trim(turns)), None)
  }

  function Discard(m: Manifest, n: int, allowPartial: bool): Step {
    if n < 1 then Step(m, Some(InvalidCount))
    else if m.active.Some? then Step(m, Some(ActiveTurn))
    else if n > |m.turns| && !allowPartial then Step(m, Some(NotEnough))
    else
      var count := if n < |m.turns| then n else |m.turns|;
      Step(m.(turns := m.turns[..|m.turns| - count]), None)
  }

  /** A restore of the newest n turns reached its final save, in the call itself or on reopening. */
  function CommitRestore(m: Manifest, n: nat, consume: bool): Step
    requires n <= |m.turns|
  {
    Step(m.(restore := None, turns := TurnsAfter(m.turns, n, consume)), None)
  }

  datatype Call =
    | Begin(turnId: string, id: nat, pre: Snapshot, index: Index)
    | Accept(turnId: string)
    | Finish(turnId: string, post: Snapshot, index: Index, overLimit: bool)
    | Abort(turnId: string)
    | Note(turnId: string, id: nat)
    | Recover
    | Drop(n: int, allowPartial: bool)
    | Commit(count: nat, consume: bool)

  function Apply(m: Manifest, c: Call): Step {
    match c
    case Begin(t, id, pre, index) => BeginTurn(m, t, id, pre, index)
    case Accept(t) => AcceptTurn(m, t)
    case Finish(t, post, index, overLimit) => FinishTurn(m, t, post, index, overLimit)
    case Abort(t) => AbortTurn(m, t)
    case Note(t, id) => RecordUnavailable(m, t, id)
    case Recover => RecoverActive(m)
    case Drop(n, allowPartial) => Discard(m, n, allowPartial)
    case Commit(n, consume) => if n <= |m.turns| then CommitRestore(m, n, consume) else Step(m, Some(TailMismatch))
  }

  // ---------- the native side ----------

  /**
   What the app-server counts. A turn counts from the moment it is accepted, so
   finishing or recovering it changes nothing here; `pending` says the last turn
   has no record yet, `forgotten` how many old turns fell out of the window.
   */
  datatype Ledger = Ledger(native: seq<string>, forgotten: nat, pending: bool)

  function Settle(l: Ledger): Ledger {
    var over := |l.native| - MAX_RETAINED_TURNS;
    Ledger(l.native, if over > l.forgotten then over else l.forgotten, false)
  }

  /** The last turn turned out not to count. */
  function Withdraw(l: Ledger): Ledger {
    if l.pending && l.native != [] then Ledger(l.native[..|l.native| - 1], l.forgotten, false)
    else l.(pending := false)
  }

  function DropLast(l: Ledger, n: int): Ledger {
    var visible := |l.native| - l.forgotten - (if l.pending then 1 else 0);
    var count := if n < visible then n else visible;
    if count < 0 || !(0 <= l.forgotten <= |l.native| - count) then l
    else if l.pending && l.native != [] && count < |l.native|
    then l.(native := l.native[..|l.native| - 1 - count] + [l.native[|l.native| - 1]])
    else l.(native := l.native[..|l.native| - count])
  }

  /** Reads only the call and the error it raised, never the manifest. */
  function Book(l: Ledger, c: Call, error: Option<CheckpointError>): Ledger {
    match c
    case Begin(_, _, _, _) => l
    case Accept(t) => if error.Some? || l.pending then l else Ledger(l.native + [t], l.forgotten, true)
    case Finish(_, _, _, _) =>
      if error.None? || error.value.RetentionLimit? then Settle(l)
      else if error.value.NoMatchingActive? || error.value.NotAccepted? then l
      else Withdraw(l)
    case Abort(_) => if error.None? then Withdraw(l) else l
    case Note(t, _) =>
      if error.Some? || (l.forgotten <= |l.native| && t in l.native[l.forgotten..]) then l
      else Settle(l.(native := l.native + [t]))
    case Recover => Settle(l)
    case Drop(n, _) => if error.None? then DropLast(l, n) else l
    case Commit(n, consume) => if error.None? && consume then DropLast(l, n) else l
  }

  predicate Distinct<T(==)>(s: seq<T>) {
    forall i, j | 0 <= i < j < |s| :: s[i] != s[j]
  }

  function PendingIds(m: Manifest): seq<string> {
    if m.active.Some? && m.active.value.accepted then [m.active.value.turnId] else []
  }

  ghost predicate Aligned(m: Manifest, l: Ledger) {
    && l.forgotten <= |l.native|
    && l.native[l.forgotten..] == TurnIds(m.turns) + PendingIds(m)
    && (l.pending <==> PendingIds(m) != [])
    && |m.turns| <= MAX_RETAINED_TURNS
    && Distinct(TurnIds(m.turns))
    && (m.active.Some? ==> m.active.value.turnId !in TurnIds(m.turns))
  }

  lemma {:induction false} AlignedBegin(m: Manifest, l: Ledger, turnId: string, id: nat, pre: Snapshot, index: Index)
    requires Aligned(m, l)
    ensures Aligned(BeginTurn(m, turnId, id, pre, index).manifest, l)
  {
  }

  lemma {:induction false} AlignedAccept(m: Manifest, l: Ledger, turnId: string)
    requires Aligned(m, l)
    ensures var s := AcceptTurn(m, turnId); Aligned(s.manifest, Book(l, Accept(turnId), s.error))
  {
    if Owns(m, turnId) && !m.active.value.accepted {
      assert (l.native + [turnId])[l.forgotten..] == TurnIds(m.turns) + [turnId];
    }
  }

  /** One more record, real or tombstone, for the turn the ledger already ends in. */
  lemma {:induction false} AlignedAppend(turns: seq<Record>, l: Ledger, r: Record, m: Manifest)
    requires l.forgotten <= |l.native| && l.native[l.forgotten..] == TurnIds(turns) + [r.turnId]
    requires |turns| <= MAX_RETAINED_TURNS && Distinct(TurnIds(turns)) && r.turnId !in TurnIds(turns)
    requires m.active.None? && TurnIds(m.turns) == TurnIds(Trim(turns + [r]))
    ensures Aligned(m, Settle(l))
  {
    var all := turns + [r];
    assert TurnIds(all) == TurnIds(turns) + [r.turnId];
    assert |l.native| - l.forgotten == |all|;
    if |all| > MAX_RETAINED_TURNS {
      assert TurnIds(Trim(all)) == TurnIds(all)[1..];
      assert Settle(l).forgotten == l.forgotten + 1;
      assert l.native[l.forgotten + 1..] == l.native[l.forgotten..][1..];
    } else {
      assert Settle(l).forgotten == l.forgotten;
    }
    assert |m.turns| == |TurnIds(m.turns)| == |Trim(all)|;
  }

  lemma {:induction false} AlignedWithdraw(m: Manifest, l: Ledger)
    requires Aligned(m, l)
    ensures Aligned(m.(active := None), Withdraw(l))
  {
    if l.pending {
      var n := |l.native| - 1;
      assert l.native[..n][l.forgotten..] == l.native[l.forgotten..][..n - l.forgotten];
    }
  }

  lemma {:induction false} AlignedFinish(m: Manifest, l: Ledger, turnId: string, post: Snapshot, index: Index,
      overLimit: bool)
    requires Aligned(m, l)
    ensures var s := FinishTurn(m, turnId, post, index, overLimit);
            Aligned(s.manifest, Book(l, Finish(turnId, post, index, overLimit), s.error))
  {
    if Owns(m, turnId) && m.active.value.accepted {
      var a := m.active.value;
      if Refusal(a, post, index).Some? {
        AlignedWithdraw(m, l);
      } else {
        var r := Completed(a, post, index);
        var s := FinishTurn(m, turnId, post, index, overLimit);
        assert TurnIds(Tombstones(Trim(m.turns + [r]))) == TurnIds(Trim(m.turns + [r]));
        AlignedAppend(m.turns, l, r, s.manifest);
      }
    }
  }

  lemma {:induction false} AlignedRecover(m: Manifest, l: Ledger)
    requires Aligned(m, l)
    ensures Aligned(RecoverActive(m).manifest, Settle(l))
  {
    if m.active.Some? && m.active.value.accepted {
      var a := m.active.value;
      AlignedAppend(m.turns, l, Tombstone(a.id, a.turnId), RecoverActive(m).manifest);
    } else {
      assert |l.native| - l.forgotten == |m.turns|;
    }
  }

  lemma {:induction false} AlignedUnavailable(m: Manifest, l: Ledger, turnId: string, id: nat)
    requires Aligned(m, l)
    ensures var s := RecordUnavailable(m, turnId, id); Aligned(s.manifest, Book(l, Note(turnId, id), s.error))
  {
    if m.active.None? && turnId !in TurnIds(m.turns) {
      var l' := l.(native := l.native + [turnId]);
      assert l.native[l.forgotten..] == TurnIds(m.turns);
      assert l'.native[l.forgotten..] == TurnIds(m.turns) + [turnId];
      AlignedAppend(m.turns, l', Tombstone(id, turnId), RecordUnavailable(m, turnId, id).manifest);
    } else if m.active.None? {
      assert l.native[l.forgotten..] == TurnIds(m.turns);
    }
  }

  lemma {:induction false} AlignedDrop(m: Manifest, l: Ledger, n: nat, m': Manifest)
    requires Aligned(m, l) && n <= |m.turns|
    requires m'.active == m.active && m'.turns == m.turns[..|m.turns| - n]
    ensures Aligned(m', DropLast(l, n))
  {
    var keep := |m.turns| - n;
    assert TurnIds(m'.turns) == TurnIds(m.turns)[..keep];
    var w := l.native[l.forgotten..];
    var l' := DropLast(l, n);
    assert |w| == |m.turns| + |PendingIds(m)|;
    if l.pending {
      assert w[|w| - 1] == m.active.value.turnId == l.native[|l.native| - 1];
      assert l'.native[l.forgotten..] == w[..keep] + [w[|w| - 1]];
    } else {
      assert l'.native[l.forgotten..] == w[..keep];
    }
  }

  lemma {:induction false} AlignedCall(m: Manifest, l: Ledger, c: Call)
    requires Aligned(m, l)
    ensures Aligned(Apply(m, c).manifest, Book(l, c, Apply(m, c).error))
  {
    match c
    case Begin(t, id, pre, index) => AlignedBegin(m, l, t, id, pre, index);
    case Accept(t) => AlignedAccept(m, l, t);
    case Finish(t, post, index, overLimit) => AlignedFinish(m, l, t, post, index, overLimit);
    case Abort(t) => AlignedWithdraw(m, l);
    case Note(t, id) => AlignedUnavailable(m, l, t, id);
    case Recover => AlignedRecover(m, l);
    case Drop(n, allowPartial) =>
      if Apply(m, c).error.None? {
        AlignedDrop(m, l, if n < |m.turns| then n else |m.turns|, Apply(m, c).manifest);
        assert |l.native| - l.forgotten == |m.turns|;
      }
    case Commit(n, consume) =>
      if n <= |m.turns| {
        if consume {
          AlignedDrop(m, l, n, Apply(m, c).manifest);
        } else {
          assert TurnIds(TurnsAfter(m.turns, n, false)) == TurnIds(m.turns);
        }
      }
  }

  function RunManifest(calls: seq<Call>): Manifest {
    if calls == [] then NEW_MANIFEST
    else Apply(RunManifest(calls[..|calls| - 1]), calls[|calls| - 1]).manifest
  }

  function RunLedger(calls: seq<Call>): Ledger {
    if calls == [] then Ledger([], 0, false)
    else
      var before := calls[..|calls| - 1];
      var c := calls[|calls| - 1];
      Book(RunLedger(before), c, Apply(RunManifest(before), c).error)
  }

  /** After every run the records are exactly the retained native turns, in order, plus the open one. */
  lemma {:induction false} AlignedRun(calls: seq<Call>)
    ensures Aligned(RunManifest(calls), RunLedger(calls))
  {
    if calls != [] {
      var before := calls[..|calls| - 1];
      AlignedRun(before);
      AlignedCall(RunManifest(before), RunLedger(before), calls[|calls| - 1]);
    }
  }
}
