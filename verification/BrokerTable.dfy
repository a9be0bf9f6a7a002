/**
 The subscribers of a broker session and who of them holds the keyboard.

 Every call that changes the table is a function on it; the theorems are about
 every run of such calls.
 */
module BrokerTable {
  import opened Wrappers

  const SUBSCRIBER_QUEUE_FRAMES := 256

  type Bytes = seq<bv8>
  datatype SubId = SubId(number: nat)
  datatype Owner = Owner(name: string)

  datatype Subscription = Subscription(owner: Owner, keyboard: bool, snapshot: Bytes, start: nat,
                                       delivered: Bytes, queued: nat, overflowed: bool)

  datatype Table = Table(subs: map<SubId, Subscription>, current: set<SubId>, owner: Option<Owner>, nextSub: nat)

  // ---------- calls ----------

  /** The keyboard goes to a subscriber that asks for it while nobody has it. */
  function Joined(t: Table, owner: Owner, wantKeyboard: bool, snapshot: Bytes, start: nat): Table {
    var keyboard := wantKeyboard && t.owner.None?;
    Table(t.subs[SubId(t.nextSub) := Subscription(owner, keyboard, snapshot, start, [], 0, false)],
          t.current + {SubId(t.nextSub)}, if keyboard then Some(owner) else t.owner, t.nextSub + 1)
  }

  function OwnerAfterLeave(subs: map<SubId, Subscription>, s: SubId, owner: Option<Owner>): Option<Owner>
    requires s in subs
  {
    if owner == Some(subs[s].owner) then None else owner
  }

  function Left(t: Table, s: SubId): Table {
    if s !in t.current || s !in t.subs then t
    else t.(current := t.current - {s}, owner := OwnerAfterLeave(t.subs, s, t.owner))
  }

  /** One event offered to one queue. */
  function Offered(s: Subscription, data: Bytes): Subscription {
    if s.queued >= SUBSCRIBER_QUEUE_FRAMES then s.(overflowed := true)
    else s.(delivered := s.delivered + data, queued := s.queued + 1)
  }

  function AllOffered(subs: map<SubId, Subscription>, to: set<SubId>, data: Bytes): map<SubId, Subscription> {
    map s | s in subs :: if s in to then Offered(subs[s], data) else subs[s]
  }

  function Remaining(subs: map<SubId, Subscription>, current: set<SubId>): set<SubId> {
    set s | s in current && s in subs && subs[s].queued < SUBSCRIBER_QUEUE_FRAMES
  }

  predicate LeavesWithOwner(subs: map<SubId, Subscription>, current: set<SubId>, s: SubId, owner: Option<Owner>) {
    s in current && s in subs && subs[s].queued >= SUBSCRIBER_QUEUE_FRAMES && owner == Some(subs[s].owner)
  }

  /** A subscriber whose queue is full leaves, and clears the keyboard by its owner name. */
  function OwnerAfterOffers(subs: map<SubId, Subscription>, current: set<SubId>, owner: Option<Owner>): Option<Owner> {
    if exists s | s in current :: LeavesWithOwner(subs, current, s, owner) then None else owner
  }

  function Sent(t: Table, data: Bytes): Table {
    t.(subs := AllOffered(t.subs, t.current, data), current := Remaining(t.subs, t.current),
       owner := OwnerAfterOffers(t.subs, t.current, t.owner))
  }

  function Taken(t: Table, s: SubId): Table {
    if s !in t.subs || t.subs[s].queued == 0 then t
    else t.(subs := t.subs[s := t.subs[s].(queued := t.subs[s].queued - 1)])
  }

  // ---------- the keyboard ----------

  predicate Holds(subs: map<SubId, Subscription>, current: set<SubId>, a: SubId) {
    a in current && a in subs && subs[a].keyboard
  }

  /** Exactly the recorded owner, if any, holds the keyboard, through one subscription. */
  ghost predicate KeyboardOk(subs: map<SubId, Subscription>, current: set<SubId>, owner: Option<Owner>) {
    && current <= subs.Keys
    && (forall a | Holds(subs, current, a) :: owner == Some(subs[a].owner))
    && (forall a, b | Holds(subs, current, a) && Holds(subs, current, b) :: a == b)
    && (owner.Some? ==> exists a :: Holds(subs, current, a))
  }

  /** Another current subscription of the same owner holds the keyboard. */
  ghost predicate SharesKeyboardOwner(subs: map<SubId, Subscription>, current: set<SubId>, s: SubId)
    requires s in subs
  {
    exists a | Holds(subs, current, a) :: a != s && subs[a].owner == subs[s].owner
  }

  /** Leaving clears the keyboard by owner name, which is right exactly when the name is not shared. */
  lemma {:induction false} LeaveKeepsKeyboardIff(t: Table, s: SubId)
    requires KeyboardOk(t.subs, t.current, t.owner) && s in t.current
    ensures var t' := Left(t, s);
            KeyboardOk(t'.subs, t'.current, t'.owner) <==> !SharesKeyboardOwner(t.subs, t.current, s)
  {
    var subs, current, owner := t.subs, t.current, t.owner;
    var owner' := OwnerAfterLeave(subs, s, owner);
    if SharesKeyboardOwner(subs, current, s) {
      var a :| Holds(subs, current, a) && a != s && subs[a].owner == subs[s].owner;
      assert Holds(subs, current - {s}, a) && owner'.None?;
    } else {
      if owner.Some? {
        var a :| Holds(subs, current, a);
        if a != s { assert Holds(subs, current - {s}, a); }
      }
      assert forall a | Holds(subs, current - {s}, a) :: Holds(subs, current, a);
    }
  }

  // ---------- distinct owner names ----------

  predicate SameOwner(subs: map<SubId, Subscription>, a: SubId, b: SubId) {
    a in subs && b in subs && subs[a].owner == subs[b].owner
  }

  ghost predicate DistinctOwners(subs: map<SubId, Subscription>, current: set<SubId>) {
    && current <= subs.Keys
    && forall a, b {:trigger SameOwner(subs, a, b)} | a in current && b in current && SameOwner(subs, a, b) :: a == b
  }

  ghost predicate OneKeyboard(t: Table) {
    && (forall s | s in t.subs :: s.number < t.nextSub)
    && DistinctOwners(t.subs, t.current)
    && KeyboardOk(t.subs, t.current, t.owner)
  }

  /** Nobody who is subscribed has the name. */
  predicate FreshOwner(t: Table, owner: Owner) {
    forall s | s in t.current && s in t.subs :: t.subs[s].owner != owner
  }

  lemma {:induction false} JoinKeepsOneKeyboard(t: Table, owner: Owner, wantKeyboard: bool, snapshot: Bytes, start: nat)
    requires OneKeyboard(t) && FreshOwner(t, owner)
    ensures OneKeyboard(Joined(t, owner, wantKeyboard, snapshot, start))
  {
    var t', s := Joined(t, owner, wantKeyboard, snapshot, start), SubId(t.nextSub);
    JoinKeepsKeyboard(t, owner, wantKeyboard, snapshot, start);
    forall a, b | a in t'.current && b in t'.current && SameOwner(t'.subs, a, b) ensures a == b {
      if a != s && b != s { assert SameOwner(t.subs, a, b); }
    }
  }

  /** A join never hands out a second keyboard, whatever the name. */
  lemma {:induction false} JoinKeepsKeyboard(t: Table, owner: Owner, wantKeyboard: bool, snapshot: Bytes, start: nat)
    requires SubId(t.nextSub) !in t.subs && KeyboardOk(t.subs, t.current, t.owner)
    ensures var t' := Joined(t, owner, wantKeyboard, snapshot, start); KeyboardOk(t'.subs, t'.current, t'.owner)
  {
    var t', s := Joined(t, owner, wantKeyboard, snapshot, start), SubId(t.nextSub);
    assert forall a | a != s :: Holds(t.subs, t.current, a) == Holds(t'.subs, t'.current, a);
    assert Holds(t'.subs, t'.current, s) == t'.subs[s].keyboard;
  }

  lemma {:induction false} LeaveKeepsOneKeyboard(t: Table, s: SubId)
    requires OneKeyboard(t)
    ensures OneKeyboard(Left(t, s))
  {
    if s in t.current {
      if SharesKeyboardOwner(t.subs, t.current, s) {
        var a :| Holds(t.subs, t.current, a) && a != s && t.subs[a].owner == t.subs[s].owner;
        assert SameOwner(t.subs, a, s);
      }
      LeaveKeepsKeyboardIff(t, s);
    }
  }

  /** Of distinct owners only the holder itself clears its keyboard by overflowing. */
  lemma {:induction false} SendKeepsOneKeyboard(t: Table, data: Bytes)
    requires OneKeyboard(t)
    ensures OneKeyboard(Sent(t, data))
  {
    var t' := Sent(t, data);
    assert forall s | s in t.subs :: t'.subs[s].owner == t.subs[s].owner && t'.subs[s].keyboard == t.subs[s].keyboard;
    forall a, b | a in t'.current && b in t'.current && SameOwner(t'.subs, a, b) ensures a == b {
      assert SameOwner(t.subs, a, b);
    }
    assert forall a | Holds(t'.subs, t'.current, a) :: Holds(t.subs, t.current, a);
    if t.owner.Some? {
      var a :| Holds(t.subs, t.current, a);
      if a in t'.current {
        assert Holds(t'.subs, t'.current, a);
        assert forall s | LeavesWithOwner(t.subs, t.current, s, t.owner) :: SameOwner(t.subs, a, s);
      } else {
        assert LeavesWithOwner(t.subs, t.current, a, t.owner);
      }
    }
  }

  lemma {:induction false} TakeKeepsOneKeyboard(t: Table, s: SubId)
    requires OneKeyboard(t)
    ensures OneKeyboard(Taken(t, s))
  {
    var t' := Taken(t, s);
    assert forall a | a in t.subs :: t'.subs[a].owner == t.subs[a].owner && t'.subs[a].keyboard == t.subs[a].keyboard;
    assert forall a :: Holds(t'.subs, t'.current, a) == Holds(t.subs, t.current, a);
    assert forall a, b :: SameOwner(t'.subs, a, b) == SameOwner(t.subs, a, b);
  }

  // ---------- every run ----------

  datatype Call =
    | Join(owner: Owner, wantKeyboard: bool, snapshot: Bytes, start: nat)
    | Leave(sub: SubId) | Output(data: Bytes) | Take(sub: SubId)

  const NOBODY := Table(map[], {}, None, 0)

  function Step(t: Table, c: Call): Table {
    match c
    case Join(owner, wantKeyboard, snapshot, start) => Joined(t, owner, wantKeyboard, snapshot, start)
    case Leave(s) => Left(t, s)
    case Output(data) => Sent(t, data)
    case Take(s) => Taken(t, s)
  }

  function RunTable(calls: seq<Call>): Table {
    if calls == [] then NOBODY else Step(RunTable(calls[..|calls| - 1]), calls[|calls| - 1])
  }

  /** Every attachment comes with a name of its own. */
  predicate FreshNames(calls: seq<Call>) {
    forall i, j | 0 <= i < j < |calls| && calls[i].Join? && calls[j].Join? :: calls[i].owner != calls[j].owner
  }

  predicate NamedBy(calls: seq<Call>, owner: Owner) {
    exists i | 0 <= i < |calls| :: calls[i].Join? && calls[i].owner == owner
  }

  lemma {:induction false} OwnersAreNamed(calls: seq<Call>, s: SubId)
    requires s in RunTable(calls).subs
    ensures NamedBy(calls, RunTable(calls).subs[s].owner)
  {
    if calls != [] {
      var n := |calls| - 1;
      var before := RunTable(calls[..n]);
      if s in before.subs && !(calls[n].Join? && s == SubId(before.nextSub)) {
        OwnersAreNamed(calls[..n], s);
        var i :| 0 <= i < n && calls[..n][i].Join? && calls[..n][i].owner == before.subs[s].owner;
        assert calls[i] == calls[..n][i];
      } else {
        assert calls[n].Join?;
      }
    }
  }

  /** With a fresh name for every attachment at most one subscriber holds the keyboard, after every run. */
  lemma {:induction false} RunKeepsOneKeyboard(calls: seq<Call>)
    requires FreshNames(calls)
    ensures OneKeyboard(RunTable(calls))
  {
    if calls != [] {
      var n := |calls| - 1;
      var t := RunTable(calls[..n]);
      assert forall i | 0 <= i < n :: calls[..n][i] == calls[i];
      RunKeepsOneKeyboard(calls[..n]);
      match calls[n] {
        case Join(owner, wantKeyboard, snapshot, start) => {
          forall s | s in t.subs ensures t.subs[s].owner != owner {
            OwnersAreNamed(calls[..n], s);
          }
          JoinKeepsOneKeyboard(t, owner, wantKeyboard, snapshot, start);
        }
        case Leave(s) => LeaveKeepsOneKeyboard(t, s);
        case Output(data) => SendKeepsOneKeyboard(t, data);
        case Take(s) => TakeKeepsOneKeyboard(t, s);
      }
    }
  }

  /** Two subscriptions under one owner name: after the second leaves, a third is handed a second keyboard. */
  lemma {:induction false} SharedOwnerGetsTwoKeyboards() returns (calls: seq<Call>)
    ensures var t := RunTable(calls);
            SubId(0) != SubId(2) && Holds(t.subs, t.current, SubId(0)) && Holds(t.subs, t.current, SubId(2))
  {
    var a, b := Owner("a"), Owner("b");
    var one := [Join(a, true, [], 0)];
    var two := one + [Join(a, false, [], 0)];
    var three := two + [Leave(SubId(1))];
    calls := three + [Join(b, true, [], 0)];
    assert one[..0] == [] && two[..1] == one && three[..2] == two && calls[..3] == three;
    var t := RunTable(three);
    assert RunTable(one) == Joined(NOBODY, a, true, [], 0);
    assert RunTable(two) == Joined(RunTable(one), a, false, [], 0);
    assert t == Left(RunTable(two), SubId(1)) && t.owner.None? && SubId(0) in t.current;
  }
}
